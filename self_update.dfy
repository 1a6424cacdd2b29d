/**
 * `SelfUpdateLauncher`: recognising the updater's own container, and
 * launching a one-shot helper container, from the new image, that updates it.
 * The helper is configured through its environment: run once, target only the
 * updater's container, no label filter, the updater's cleanup flag and stop
 * timeout, and seven settings copied from the updater's own environment.
 */
module SelfUpdate {
  import opened Wrappers
  import opened Text
  import opened DockerModels
  import opened Runtime
  import opened UpdaterOptions
  import opened SelectionPolicy

  const HelperPrefix: string := "docker-updater-self-update-"
  const DockerConfigVar: string := "DOCKER_CONFIG"

  // ------------------------------------------------------------ own container

  /**
   * `IsSelf`. `ownId` is the process's HOSTNAME variable (`GetOwnContainerId`),
   * which Docker sets to the short container id. A set own id matches exactly
   * when one id, lower-cased, is a prefix of the other lower-cased; an unset
   * or empty own id never matches.
   */
  predicate IsSelf(ownId: Option<string>, containerId: string): (r: bool)
    ensures r <==>
      ownId.Some? && ownId.value != []
      && (ToLower(ownId.value) <= ToLower(containerId) || ToLower(containerId) <= ToLower(ownId.value))
  {
    !IsNullOrEmpty(ownId)
    && (StartsWithIgnoreCase(containerId, ownId.value) || StartsWithIgnoreCase(ownId.value, containerId))
  }

  /** Lower-casing commutes with taking a prefix. */
  lemma ToLowerPrefix(s: string, k: nat)
    requires k <= |s|
    ensures ToLower(s[..k]) == ToLower(s)[..k]
  {
    assert forall i | 0 <= i < k :: ToLower(s[..k])[i] == LowerChar(s[i]) == ToLower(s)[..k][i];
  }

  /** The match does not depend on which of the two ids is the own one. */
  lemma IsSelfSymmetric(a: string, b: string)
    requires a != [] && b != []
    ensures IsSelf(Some(a), b) == IsSelf(Some(b), a)
  {
  }

  /** Any non-empty prefix of a container id, in any case, identifies that container. */
  lemma ShortIdIsSelf(containerId: string, k: nat, ownId: string)
    requires 0 < k <= |containerId|
    requires EqualsIgnoreCase(ownId, containerId[..k])
    ensures IsSelf(Some(ownId), containerId)
  {
    ToLowerPrefix(containerId, k);
    assert |ownId| == k;
  }

  // ------------------------------------------------------ helper environment

  /** The index of the first entry that starts with `prefix`, ignoring case, or -1. */
  function FirstWithPrefix(entries: seq<string>, prefix: string): (i: int)
    ensures -1 <= i < |entries|
    ensures i == -1 <==> forall k | 0 <= k < |entries| :: !StartsWithIgnoreCase(entries[k], prefix)
    ensures 0 <= i ==> StartsWithIgnoreCase(entries[i], prefix)
                       && forall k | 0 <= k < i :: !StartsWithIgnoreCase(entries[k], prefix)
    decreases |entries|
  {
    if entries == [] then -1
    else if StartsWithIgnoreCase(entries[0], prefix) then 0
    else
      var j := FirstWithPrefix(entries[1..], prefix);
      if j == -1 then -1 else j + 1
  }

  /** `inspect.Config?.Env`, empty when either is null. */
  function OriginalEnv(inspect: ContainerInspect): seq<string> {
    if inspect.config.Some? && inspect.config.value.env.Some? then inspect.config.value.env.value else []
  }

  /** What `PropagateEnv` appends for `key`: the first "key=..." entry of the inspected env, if any. */
  function Inherited(inspect: ContainerInspect, key: string): (r: seq<string>)
    ensures |r| <= 1 && forall e | e in r :: e in OriginalEnv(inspect)
  {
    var env := OriginalEnv(inspect);
    var i := FirstWithPrefix(env, key + "=");
    if i == -1 then [] else [env[i]]
  }

  /** `PropagateEnv`: add the inspected container's setting for `key` to `target`, when it has one. */
  method PropagateEnv(target: seq<string>, inspect: ContainerInspect, key: string) returns (r: seq<string>)
    ensures r == target + Inherited(inspect, key)
  {
    var env := OriginalEnv(inspect);
    var i := FirstWithPrefix(env, key + "=");
    r := target;
    if i != -1 {
      r := r + [env[i]];
    }
  }

  /**
   * At most one entry is inherited: the first of the inspected environment
   * that starts with "key=" in any letter case, and nothing when none does.
   */
  lemma InheritedIsFirstSetting(inspect: ContainerInspect, key: string)
    ensures var env := OriginalEnv(inspect);
      |Inherited(inspect, key)| == 1 <==> exists k | 0 <= k < |env| :: StartsWithIgnoreCase(env[k], key + "=")
    ensures var env := OriginalEnv(inspect);
      Inherited(inspect, key) != [] ==>
        exists k | 0 <= k < |env| :: Inherited(inspect, key) == [env[k]]
          && StartsWithIgnoreCase(env[k], key + "=")
          && forall j | 0 <= j < k :: !StartsWithIgnoreCase(env[j], key + "=")
  {
    var env := OriginalEnv(inspect);
    var i := FirstWithPrefix(env, key + "=");
    if i != -1 {
      assert Inherited(inspect, key) == [env[i]];
    }
  }

  /**
   * `StopTimeout.TotalSeconds` as text: a whole number of seconds prints as
   * that integer; `formatFraction` stands for the culture-dependent printing
   * of any other `double`.
   */
  function SecondsText(t: Ticks, formatFraction: Ticks -> string): string {
    if t % TicksPerSecond == 0 then IntToString(t / TicksPerSecond) else formatFraction(t)
  }

  /** The five settings the helper always gets, in order. */
  function SettingsEnv(updaterName: string, cleanup: bool, stopTimeout: Ticks,
                       formatFraction: Ticks -> string): seq<string>
  {
    [RunOnceVar + "=true",
     ContainersVar + "=" + updaterName,
     LabelEnableVar + "=false",
     CleanupVar + "=" + FormatBool(cleanup),
     TimeoutVar + "=" + SecondsText(stopTimeout, formatFraction) + "s"]
  }

  /** The keys `LaunchHelperAsync` copies from the updater's environment, in the order it copies them. */
  const CopiedKeys: seq<string> := [DockerHostVar, DockerTlsVerifyVar, DockerCertPathVar, DockerConfigVar,
                                    NotificationUrlVar, DiscordWebhookUrlVar, DiscordMessageTemplateVar]

  /** The entries `PropagateEnv` appends for `keys`, one call per key in order. */
  function Copied(inspect: ContainerInspect, keys: seq<string>): (r: seq<string>)
    ensures |r| <= |keys| && forall e | e in r :: e in OriginalEnv(inspect)
    decreases |keys|
  {
    if keys == [] then []
    else Copied(inspect, keys[..|keys| - 1]) + Inherited(inspect, keys[|keys| - 1])
  }

  /** The helper's whole environment list: the settings, then the copied keys. */
  function HelperEnv(inspect: ContainerInspect, cleanup: bool, stopTimeout: Ticks,
                     formatFraction: Ticks -> string): seq<string>
  {
    SettingsEnv(NormalizeContainerName(inspect.name), cleanup, stopTimeout, formatFraction)
    + Copied(inspect, CopiedKeys)
  }

  /** The settings come first; every later entry is copied from the updater's own environment. */
  lemma HelperEnvShape(inspect: ContainerInspect, cleanup: bool, stopTimeout: Ticks,
                       formatFraction: Ticks -> string)
    ensures var env := HelperEnv(inspect, cleanup, stopTimeout, formatFraction);
      5 <= |env| <= 5 + |CopiedKeys|
      && env[..5] == SettingsEnv(NormalizeContainerName(inspect.name), cleanup, stopTimeout, formatFraction)
      && forall e | e in env[5..] :: e in OriginalEnv(inspect)
  {
    var settings := SettingsEnv(NormalizeContainerName(inspect.name), cleanup, stopTimeout, formatFraction);
    var env := HelperEnv(inspect, cleanup, stopTimeout, formatFraction);
    assert env[5..] == Copied(inspect, CopiedKeys);
  }

  // ------------------------------------------------- how the helper reads it

  /** The value the helper process sees for `key`: the text after "key=" in the first such entry. */
  function EnvValue(entries: seq<string>, key: string): Option<string>
    decreases |entries|
  {
    if entries == [] then None
    else if StartsWith(entries[0], key + "=") then Some(entries[0][|key| + 1..])
    else EnvValue(entries[1..], key)
  }

  /** Two texts that differ at a position both reach do not start one with the other. */
  lemma DiffersAt(s: string, p: string, i: nat)
    requires i < |s| && i < |p| && s[i] != p[i]
    ensures !StartsWith(s, p)
  {
  }

  /** `a + b` starts with `a`. */
  lemma StartsWithConcat(a: string, b: string)
    ensures StartsWith(a + b, a)
  {
    assert (a + b)[..|a|] == a;
  }

  lemma EnvValueFinds(entries: seq<string>, key: string, value: string)
    requires 0 < |entries| && entries[0] == key + "=" + value
    ensures EnvValue(entries, key) == Some(value)
  {
    assert entries[0][..|key| + 1] == key + "=";
    assert entries[0][|key| + 1..] == value;
  }

  /**
   * Each of the five settings reads back its own value, whatever follows
   * them: the settings' names differ within their first 17 characters.
   */
  lemma SettingsReadBack(updaterName: string, cleanup: bool, stopTimeout: Ticks,
                         formatFraction: Ticks -> string, rest: seq<string>)
    ensures var env := SettingsEnv(updaterName, cleanup, stopTimeout, formatFraction) + rest;
      EnvValue(env, RunOnceVar) == Some("true")
      && EnvValue(env, ContainersVar) == Some(updaterName)
      && EnvValue(env, LabelEnableVar) == Some("false")
      && EnvValue(env, CleanupVar) == Some(FormatBool(cleanup))
      && EnvValue(env, TimeoutVar) == Some(SecondsText(stopTimeout, formatFraction) + "s")
  {
    var env := SettingsEnv(updaterName, cleanup, stopTimeout, formatFraction) + rest;
    var v3, v4 := FormatBool(cleanup), SecondsText(stopTimeout, formatFraction) + "s";
    assert env[0] == RunOnceVar + "=" + "true" && env[1] == ContainersVar + "=" + updaterName;
    assert env[2] == LabelEnableVar + "=" + "false" && env[3] == CleanupVar + "=" + v3;
    assert env[4] == TimeoutVar + "=" + v4;
    LeadingSettingsReadBack(env, updaterName, v3, v4);
    TrailingSettingsReadBack(env, updaterName, v3, v4);
  }

  /** The five settings, in order, at the head of `env`. */
  predicate SettingsAtHead(env: seq<string>, updaterName: string, v3: string, v4: string) {
    5 <= |env|
    && env[0] == RunOnceVar + "=" + "true" && env[1] == ContainersVar + "=" + updaterName
    && env[2] == LabelEnableVar + "=" + "false" && env[3] == CleanupVar + "=" + v3
    && env[4] == TimeoutVar + "=" + v4
  }

  /** The first three settings read back. */
  lemma LeadingSettingsReadBack(env: seq<string>, updaterName: string, v3: string, v4: string)
    requires SettingsAtHead(env, updaterName, v3, v4)
    ensures EnvValue(env, RunOnceVar) == Some("true")
    ensures EnvValue(env, ContainersVar) == Some(updaterName)
    ensures EnvValue(env, LabelEnableVar) == Some("false")
  {
    SettingNamesDiffer();
    EnvValueAt(env, 0, RunOnceVar, "true");
    OtherKey(RunOnceVar, "true", ContainersVar, 15);
    EnvValueAt(env, 1, ContainersVar, updaterName);
    OtherKey(RunOnceVar, "true", LabelEnableVar, 15);
    OtherKey(ContainersVar, updaterName, LabelEnableVar, 15);
    EnvValueAt(env, 2, LabelEnableVar, "false");
  }

  /** The last two settings read back past the first three. */
  lemma TrailingSettingsReadBack(env: seq<string>, updaterName: string, v3: string, v4: string)
    requires SettingsAtHead(env, updaterName, v3, v4)
    ensures EnvValue(env, CleanupVar) == Some(v3)
    ensures EnvValue(env, TimeoutVar) == Some(v4)
  {
    SettingNamesDiffer();
    OtherKey(RunOnceVar, "true", CleanupVar, 15);
    OtherKey(ContainersVar, updaterName, CleanupVar, 16);
    OtherKey(LabelEnableVar, "false", CleanupVar, 15);
    EnvValueAt(env, 3, CleanupVar, v3);
    OtherKey(RunOnceVar, "true", TimeoutVar, 15);
    OtherKey(ContainersVar, updaterName, TimeoutVar, 15);
    OtherKey(LabelEnableVar, "false", TimeoutVar, 15);
    OtherKey(CleanupVar, v3, TimeoutVar, 15);
    EnvValueAt(env, 4, TimeoutVar, v4);
  }

  /** Where the settings' names first differ. */
  lemma SettingNamesDiffer()
    ensures RunOnceVar[15] == 'R' && ContainersVar[15] == 'C' && ContainersVar[16] == 'O'
    ensures LabelEnableVar[15] == 'L' && CleanupVar[15] == 'C' && CleanupVar[16] == 'L'
    ensures TimeoutVar[15] == 'T'
  {
  }

  /** A setting for `other` is not one for `key` when the names differ at position `k`. */
  lemma OtherKey(other: string, value: string, key: string, k: nat)
    requires k < |other| && k < |key| && other[k] != key[k]
    ensures !StartsWith(other + "=" + value, key + "=")
  {
    DiffersAt(other + "=" + value, key + "=", k);
  }

  /** The value of `key` is read from the first entry that sets it. */
  lemma {:induction false} EnvValueAt(env: seq<string>, i: nat, key: string, value: string)
    requires i < |env| && env[i] == key + "=" + value
    requires forall j | 0 <= j < i :: !StartsWith(env[j], key + "=")
    ensures EnvValue(env, key) == Some(value)
    decreases i
  {
    if i == 0 {
      EnvValueFinds(env, key, value);
    } else {
      EnvValueAt(env[1..], i - 1, key, value);
    }
  }

  /** "true" reads back as true. */
  lemma ParseBoolTrue(defaultValue: bool)
    ensures ParseBool(Some("true"), defaultValue)
  {
    assert !IsWhiteSpace("true"[0]) && !IsWhiteSpace("true"[3]);
    TrimOfUntrimmed("true");
    assert ToLower("true") == "true";
  }

  /** "false" reads back as false. */
  lemma ParseBoolFalse(defaultValue: bool)
    ensures !ParseBool(Some("false"), defaultValue)
  {
    assert !IsWhiteSpace("false"[0]) && !IsWhiteSpace("false"[4]);
    TrimOfUntrimmed("false");
    assert ToLower("false") == "false";
  }

  /**
   * The helper, loading its options from the environment it was given, runs
   * once, targets the updater's container, has the label filter off, and
   * inherits the updater's cleanup flag and (whole-second) stop timeout.
   */
  lemma HelperOptions(entries: seq<string>, updaterName: string, cleanup: bool, seconds: int,
                      formatFraction: Ticks -> string, rest: seq<string>, env: Environment,
                      isAbsoluteUri: string -> bool, parseTimeSpan: string -> Option<Ticks>)
    requires Int32Min <= seconds <= Int32Max
    requires entries == SettingsEnv(updaterName, cleanup, seconds * TicksPerSecond, formatFraction) + rest
    requires Get(env, RunOnceVar) == EnvValue(entries, RunOnceVar)
    requires Get(env, ContainersVar) == EnvValue(entries, ContainersVar)
    requires Get(env, LabelEnableVar) == EnvValue(entries, LabelEnableVar)
    requires Get(env, CleanupVar) == EnvValue(entries, CleanupVar)
    requires Get(env, TimeoutVar) == EnvValue(entries, TimeoutVar)
    ensures var o := LoadFromEnvironment(env, isAbsoluteUri, parseTimeSpan);
      o.Some? && o.value.runOnce && !o.value.labelEnable && o.value.cleanup == cleanup
      && o.value.stopTimeout == seconds * TicksPerSecond
      && o.value.targetContainers == ParseSet(Some(updaterName))
  {
    var t := seconds * TicksPerSecond;
    assert t % TicksPerSecond == 0 && t / TicksPerSecond == seconds;
    assert SecondsText(t, formatFraction) == IntToString(seconds);
    SettingsReadBack(updaterName, cleanup, t, formatFraction, rest);
    ParseBoolTrue(false);
    ParseBoolFalse(false);
    ParseBoolOfFormatBool(cleanup, false);
    ParseDurationOfCount(seconds, 's', 10 * TicksPerSecond, parseTimeSpan);
    assert IntToString(seconds) + "s" == IntToString(seconds) + ['s'];
  }

  /**
   * The helper targets the updater's container and nothing else: a container
   * name (which holds no ',' or ' ') reads back as the one-name set of it,
   * folded to lower case.
   */
  lemma HelperTargetsOnlyUpdater(entries: seq<string>, updaterName: string, cleanup: bool, seconds: int,
                                 formatFraction: Ticks -> string, rest: seq<string>, env: Environment,
                                 isAbsoluteUri: string -> bool, parseTimeSpan: string -> Option<Ticks>)
    requires Int32Min <= seconds <= Int32Max
    requires entries == SettingsEnv(updaterName, cleanup, seconds * TicksPerSecond, formatFraction) + rest
    requires Get(env, RunOnceVar) == EnvValue(entries, RunOnceVar)
    requires Get(env, ContainersVar) == EnvValue(entries, ContainersVar)
    requires Get(env, LabelEnableVar) == EnvValue(entries, LabelEnableVar)
    requires Get(env, CleanupVar) == EnvValue(entries, CleanupVar)
    requires Get(env, TimeoutVar) == EnvValue(entries, TimeoutVar)
    ensures var o := LoadFromEnvironment(env, isAbsoluteUri, parseTimeSpan);
      o.Some? && o.value.targetContainers == ParseSet(Some(updaterName))
      && (CleanName(updaterName) && (forall i | 0 <= i < |updaterName| :: updaterName[i] !in ListSeparators)
          ==> o.value.targetContainers == {ToLower(updaterName)})
  {
    HelperOptions(entries, updaterName, cleanup, seconds, formatFraction, rest, env, isAbsoluteUri, parseTimeSpan);
    if CleanName(updaterName) && (forall i | 0 <= i < |updaterName| :: updaterName[i] !in ListSeparators) {
      ParseSetOfCleanName(updaterName);
    }
  }

  // ------------------------------------------------------------- the launch

  /** `Guid.NewGuid().ToString("N")`: 32 hexadecimal digits, chosen at random. */
  type GuidText = s: string | |s| == 32 witness "00000000000000000000000000000000"

  /** The helper's container name: the prefix and the first eight digits of a fresh GUID. */
  function HelperName(guid: GuidText): (name: string)
    ensures StartsWith(name, HelperPrefix) && |name| == |HelperPrefix| + 8
  {
    var name := HelperPrefix + guid[..8];
    StartsWithConcat(HelperPrefix, guid[..8]);
    name
  }

  /** The create request for the helper container. */
  function HelperParams(inspect: ContainerInspect, newImage: string, guid: GuidText, o: Options,
                        formatFraction: Ticks -> string): CreateParameters
  {
    var host := inspect.hostConfig;
    CreateParameters(
      HelperName(guid), newImage,
      Some(HelperEnv(inspect, o.cleanup, o.stopTimeout, formatFraction)),
      None, None, None,
      Some(map[EnableLabel := "false"]),
      None,
      Some(HostConfig(if host.Some? then host.value.binds else None,
                      if host.Some? then host.value.networkMode else None,
                      true, None)),
      None)
  }

  function StartHelperFailedMessage(helperName: string): string {
    "Failed to start self-update helper container '" + helperName + "'."
  }

  /** The create and the start of a helper described by `p`; the helper's id on success. */
  function CreateAndStart(d: Daemon, p: CreateParameters): (Daemon, Result<string>) {
    var (d1, created) := CreateStep(d, p);
    if created.Err? then (d1, Err(created.error))
    else
      var (d2, started) := StartStep(d1, created.value);
      if started.Err? then (d2, Err(started.error))
      else if !started.value then (d2, Err(InvalidOperation(StartHelperFailedMessage(p.name))))
      else (d2, Ok(created.value))
  }

  /**
   * `LaunchHelperAsync`: inspect the updater's container, create the helper
   * from the new image, start it. The helper's id on success.
   */
  function LaunchStep(d: Daemon, selfId: string, newImage: string, guid: GuidText, o: Options,
                      formatFraction: Ticks -> string): (Daemon, Result<string>)
  {
    var (d1, inspected) := InspectStep(d, selfId);
    if inspected.Err? then (d1, Err(inspected.error))
    else CreateAndStart(d1, HelperParams(inspected.value, newImage, guid, o, formatFraction))
  }

  /** One more key inherits after the earlier ones. */
  lemma CopiedSnoc(inspect: ContainerInspect, keys: seq<string>, key: string)
    ensures Copied(inspect, keys + [key]) == Copied(inspect, keys) + Inherited(inspect, key)
  {
    assert (keys + [key])[..|keys|] == keys;
  }

  /** After the settings and the first `n` keys, the `n`-th key's entry comes next. */
  lemma CopiedStep(inspect: ContainerInspect, settings: seq<string>, env: seq<string>, n: nat, key: string)
    requires n < |CopiedKeys| && CopiedKeys[n] == key
    requires env == settings + Copied(inspect, CopiedKeys[..n])
    ensures env + Inherited(inspect, key) == settings + Copied(inspect, CopiedKeys[..n + 1])
  {
    TakeOneMore(CopiedKeys, n);
    CopiedSnoc(inspect, CopiedKeys[..n], key);
  }

  /** A prefix one element longer ends with that element. */
  lemma TakeOneMore<T>(s: seq<T>, n: nat)
    requires n < |s|
    ensures s[..n + 1] == s[..n] + [s[n]]
  {
  }

  /**
   * The helper's environment list, built as `LaunchHelperAsync` builds it:
   * the settings, then one `PropagateEnv` per copied key. The seven
   * consecutive calls are written as one loop over `CopiedKeys`, in the same
   * order.
   */
  method BuildHelperEnv(inspect: ContainerInspect, o: Options, formatFraction: Ticks -> string)
    returns (env: seq<string>)
    ensures env == HelperEnv(inspect, o.cleanup, o.stopTimeout, formatFraction)
  {
    var updaterName := NormalizeContainerName(inspect.name);
    var settings := SettingsEnv(updaterName, o.cleanup, o.stopTimeout, formatFraction);
    env := settings;
    assert CopiedKeys[..0] == [];
    var k := 0;
    while k < |CopiedKeys|
      invariant 0 <= k <= |CopiedKeys|
      invariant env == settings + Copied(inspect, CopiedKeys[..k])
    {
      CopiedStep(inspect, settings, env, k, CopiedKeys[k]);
      env := PropagateEnv(env, inspect, CopiedKeys[k]);
      k := k + 1;
    }
    assert CopiedKeys[..k] == CopiedKeys;
  }

  /** The helper launch, one runtime call at a time. */
  method LaunchHelper(client: DockerClient, selfId: string, newImage: string, guid: GuidText, o: Options,
                      formatFraction: Ticks -> string) returns (r: Result<string>)
    modifies client
    ensures (client.daemon, r) == LaunchStep(old(client.daemon), selfId, newImage, guid, o, formatFraction)
  {
    var inspected := client.InspectContainer(selfId);
    if inspected.Err? {
      return Err(inspected.error);
    }
    var inspect := inspected.value;
    var helperName := HelperPrefix + guid[..8];
    var env := BuildHelperEnv(inspect, o, formatFraction);
    var binds := if inspect.hostConfig.Some? then inspect.hostConfig.value.binds else None;
    var networkMode := if inspect.hostConfig.Some? then inspect.hostConfig.value.networkMode else None;
    var createParams := CreateParameters(helperName, newImage, Some(env), None, None, None,
                                         Some(map[EnableLabel := "false"]), None,
                                         Some(HostConfig(binds, networkMode, true, None)), None);
    assert createParams == HelperParams(inspect, newImage, guid, o, formatFraction);
    r := CreateAndStartHelper(client, createParams);
  }

  /** The helper's create and start, each failure ending the launch. */
  method CreateAndStartHelper(client: DockerClient, createParams: CreateParameters) returns (r: Result<string>)
    modifies client
    ensures (client.daemon, r) == CreateAndStart(old(client.daemon), createParams)
  {
    var created := client.CreateContainer(createParams);
    if created.Err? {
      return Err(created.error);
    }
    var started := client.StartContainer(created.value);
    if started.Err? {
      return Err(started.error);
    }
    if !started.value {
      return Err(InvalidOperation(StartHelperFailedMessage(createParams.name)));
    }
    r := Ok(created.value);
  }

  // ------------------------------------------------------ launch properties

  /**
   * The helper runs the new image under a name with the helper prefix,
   * removes itself when it exits, shares the updater's binds and network
   * mode, and carries the environment built above.
   */
  lemma HelperParamsShape(inspect: ContainerInspect, newImage: string, guid: GuidText, o: Options,
                          formatFraction: Ticks -> string)
    ensures var p := HelperParams(inspect, newImage, guid, o, formatFraction);
      StartsWith(p.name, HelperPrefix) && p.image == newImage
      && p.hostConfig.Some? && p.hostConfig.value.autoRemove
      && (inspect.hostConfig.Some? ==> p.hostConfig.value.binds == inspect.hostConfig.value.binds
                                       && p.hostConfig.value.networkMode == inspect.hostConfig.value.networkMode)
      && (inspect.hostConfig.None? ==> p.hostConfig.value.binds.None? && p.hostConfig.value.networkMode.None?)
      && p.labels == Some(map[EnableLabel := "false"])
      && p.env == Some(HelperEnv(inspect, o.cleanup, o.stopTimeout, formatFraction))
  {
  }

  /** A listed helper opts out through its label: no session ever selects it. */
  lemma HelperNeverMonitored(o: Options, c: ContainerRef)
    requires c.labels == map[EnableLabel := "false"]
    ensures !ShouldMonitor(o, c)
  {
    EnableLabelValues(c.labels, "false", "");
    BoolWordsFolded();
    assert ToLower("false") == "false";
    assert !EqualsIgnoreCase("false", "True") by {
      assert |ToLower("True")| == 4;
    }
  }

  /**
   * Creating and starting a helper issues exactly the create and the start
   * when it succeeds, leaving the helper running under a fresh id; a start
   * the daemon reports as failed is an error naming the helper. Existing
   * containers are left as they were.
   */
  lemma CreateAndStartCalls(d: Daemon, p: CreateParameters)
    ensures var (d', r) := CreateAndStart(d, p);
      r.Ok? ==>
        d'.log == d.log + [CreateCall(p), StartCall(r.value)]
        && r.value !in d.containers && r.value in d'.containers && Running(d'.containers[r.value])
    ensures var (d', r) := CreateAndStart(d, p);
      r.Err? && r.error.InvalidOperation? ==> r.error.message == StartHelperFailedMessage(p.name)
    ensures var d' := CreateAndStart(d, p).0;
      forall id | id in d.containers :: id in d'.containers && d'.containers[id] == d.containers[id]
  {
    var (d1, created) := CreateStep(d, p);
    if created.Ok? {
      var id := created.value;
      assert d1.containers == d.containers[id := Created(p, id)];
      var (d2, started) := StartStep(d1, id);
      assert d1.log + [StartCall(id)] == d.log + [CreateCall(p), StartCall(id)];
    }
  }

  /**
   * A successful launch issues exactly the inspect, the create and the start,
   * and leaves the helper running under a new id; a start the daemon reports
   * as failed is an error naming the helper. The launch leaves every existing
   * container as it was, the updater's own included: the helper, not the
   * launch, replaces it.
   */
  lemma LaunchCalls(d: Daemon, selfId: string, newImage: string, guid: GuidText, o: Options,
                    formatFraction: Ticks -> string)
    ensures var (d', r) := LaunchStep(d, selfId, newImage, guid, o, formatFraction);
      r.Ok? ==>
        selfId in d.containers
        && d'.log == d.log + [InspectCall(selfId),
                              CreateCall(HelperParams(d.containers[selfId], newImage, guid, o, formatFraction)),
                              StartCall(r.value)]
        && r.value !in d.containers && r.value in d'.containers && Running(d'.containers[r.value])
    ensures var (d', r) := LaunchStep(d, selfId, newImage, guid, o, formatFraction);
      r.Err? && r.error.InvalidOperation? ==> r.error.message == StartHelperFailedMessage(HelperName(guid))
    ensures var d' := LaunchStep(d, selfId, newImage, guid, o, formatFraction).0;
      forall id | id in d.containers :: id in d'.containers && d'.containers[id] == d.containers[id]
  {
    var (d1, inspected) := InspectStep(d, selfId);
    if inspected.Ok? {
      var p := HelperParams(inspected.value, newImage, guid, o, formatFraction);
      CreateAndStartCalls(d1, p);
      assert d1.log + [CreateCall(p), StartCall(NewId(|d1.log|))]
             == d.log + [InspectCall(selfId), CreateCall(p), StartCall(NewId(|d1.log|))];
    }
  }
}
