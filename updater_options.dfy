/**
 * The updater's configuration (`UpdaterOptions`): the value parsers for
 * booleans, integers, durations and container-name sets, container-name
 * normalisation, and `LoadFromEnvironment` over an environment given as a map.
 */
module UpdaterOptions {
  import opened Wrappers
  import opened Text

  // Environment variable and label names (EnvNames.cs, LabelNames).
  const DockerHostVar := "DOCKER_HOST"
  const DockerTlsVerifyVar := "DOCKER_TLS_VERIFY"
  const DockerCertPathVar := "DOCKER_CERT_PATH"
  const PollIntervalVar := "DOCKER_UPDATER_POLL_INTERVAL"
  const ScheduleVar := "DOCKER_UPDATER_SCHEDULE"
  const LabelEnableVar := "DOCKER_UPDATER_LABEL_ENABLE"
  const DisableContainersVar := "DOCKER_UPDATER_DISABLE_CONTAINERS"
  const CleanupVar := "DOCKER_UPDATER_CLEANUP"
  const TimeoutVar := "DOCKER_UPDATER_TIMEOUT"
  const RunOnceVar := "DOCKER_UPDATER_RUN_ONCE"
  const IncludeStoppedVar := "DOCKER_UPDATER_INCLUDE_STOPPED"
  const ReviveStoppedVar := "DOCKER_UPDATER_REVIVE_STOPPED"
  const ContainersVar := "DOCKER_UPDATER_CONTAINERS"
  const NotificationUrlVar := "DOCKER_UPDATER_NOTIFICATION_URL"
  const DiscordWebhookUrlVar := "DOCKER_UPDATER_DISCORD_WEBHOOK_URL"
  const DiscordMessageTemplateVar := "DOCKER_UPDATER_DISCORD_MESSAGE_TEMPLATE"
  const TimeZoneVar := "TZ"
  const EnableLabel := "com.dockerupdater.enable"

  /** A `TimeSpan`, as its count of 100-nanosecond ticks. */
  type Ticks = int

  const TicksPerSecond: int := 10_000_000
  const TicksPerMinute: int := 60 * TicksPerSecond
  const TicksPerHour: int := 60 * TicksPerMinute
  const MinTicks: int := -0x8000_0000_0000_0000
  const MaxTicks: int := 0x7FFF_FFFF_FFFF_FFFF

  /**
   * A `HashSet<string>` built with `StringComparer.OrdinalIgnoreCase`,
   * represented by the case-folded forms of its members.
   */
  type NameSet = set<string>

  predicate SetContains(s: NameSet, name: string) {
    ToLower(name) in s
  }

  /** An environment: variable name to value; an absent key reads as null. */
  type Environment = map<string, string>

  function Get(env: Environment, key: string): Option<string> {
    if key in env then Some(env[key]) else None
  }

  datatype Options = Options(
    dockerHost: Option<string>,
    dockerTlsVerify: bool,
    pollIntervalSeconds: int,
    pollIntervalExplicitlySet: bool,
    schedule: Option<string>,
    labelEnable: bool,
    disableContainers: NameSet,
    cleanup: bool,
    stopTimeout: Ticks,
    runOnce: bool,
    includeStopped: bool,
    reviveStopped: bool,
    targetContainers: NameSet,
    notificationUrl: Option<string>,
    discordWebhookUrl: Option<string>,
    discordMessageTemplate: Option<string>,
    timeZone: string)

  /** `new UpdaterOptions()`: the property initialisers. */
  function Defaults(): (o: Options)
    ensures o.pollIntervalSeconds == 86400 && !o.pollIntervalExplicitlySet
    ensures o.stopTimeout == 10 * TicksPerSecond && o.timeZone == "UTC"
    ensures !o.dockerTlsVerify && !o.labelEnable && !o.cleanup && !o.runOnce
    ensures !o.includeStopped && !o.reviveStopped
    ensures o.disableContainers == {} && o.targetContainers == {}
    ensures o.dockerHost.None? && o.schedule.None? && o.notificationUrl.None?
    ensures o.discordWebhookUrl.None? && o.discordMessageTemplate.None?
  {
    Options(None, false, 86400, false, None, false, {}, false, 10 * TicksPerSecond,
            false, false, false, {}, None, None, None, "UTC")
  }

  // ------------------------------------------------------------ the parsers

  /**
   * `NormalizeContainerName`: blank names become empty; otherwise the name is
   * trimmed and then every leading '/' is dropped.
   */
  function NormalizeContainerName(name: Option<string>): (r: string)
    ensures IsNullOrWhiteSpace(name) ==> r == []
    ensures r == [] || r[0] != '/'
    ensures !IsNullOrWhiteSpace(name) ==>
      var t := Trim(name.value);
      |r| <= |t| && r == t[|t| - |r|..] && forall i | 0 <= i < |t| - |r| :: t[i] == '/'
  {
    if IsNullOrWhiteSpace(name) then []
    else
      var t := Trim(name.value);
      var r := TrimStartChar(t, '/');
      assert |r| <= |t| && r == t[|t| - |r|..];
      r
  }

  /** C#'s `bool.ToString()`. */
  function FormatBool(b: bool): string {
    if b then "True" else "False"
  }

  const TrueWords: set<string> := {"1", "true", "yes", "on"}
  const FalseWords: set<string> := {"0", "false", "no", "off"}

  /** `ParseBool`: recognised words after trimming and lower-casing, else the default. */
  function ParseBool(value: Option<string>, defaultValue: bool): (r: bool)
    ensures IsNullOrWhiteSpace(value) ==> r == defaultValue
    ensures !IsNullOrWhiteSpace(value) ==>
      var w := ToLower(Trim(value.value));
      r == (if w in TrueWords then true else if w in FalseWords then false else defaultValue)
  {
    if IsNullOrWhiteSpace(value) then defaultValue
    else
      var w := ToLower(Trim(value.value));
      if w in TrueWords then true
      else if w in FalseWords then false
      else defaultValue
  }

  /** `ParseInt`: the value when it parses as a 32-bit integer greater than 0. */
  function ParseInt(value: Option<string>, defaultValue: int): (r: int)
    ensures r == defaultValue || (ParseNullableInt32(value) == Some(r) && r > 0)
    ensures (ParseNullableInt32(value).Some? && ParseNullableInt32(value).value > 0) ==>
      r == ParseNullableInt32(value).value
    ensures IsNullOrWhiteSpace(value) ==> r == defaultValue
  {
    var parsed := ParseNullableInt32(value);
    if value.Some? && IsBlank(value.value) then
      // a blank string is not a number, so `TryParse` fails
      ParseInt32OfBlank(value.value);
      defaultValue
    else if parsed.Some? && parsed.value > 0 then parsed.value else defaultValue
  }

  /**
   * `TimeSpan.FromHours(int)`, which throws once the result leaves the
   * `TimeSpan` range (None).
   */
  function FromHours(h: int): Option<Ticks> {
    var t := h * TicksPerHour;
    if MinTicks <= t <= MaxTicks then Some(t) else None
  }

  /**
   * The count of a duration written as a 32-bit integer directly followed by
   * `unit`, once white space is trimmed from both ends; None for any other text.
   */
  function UnitCount(s: string, unit: char): Option<int> {
    var t := Trim(s);
    if t != [] && t[|t| - 1] == unit then ParseInt32(t[..|t| - 1]) else None
  }

  /**
   * `ParseDuration`: blank gives the default; an integer followed by 's', 'm'
   * or 'h' gives that many seconds, minutes or hours; anything else goes to
   * `TimeSpan.TryParse` (`parseTimeSpan`), falling back to the default. None
   * stands for the overflow exception of `TimeSpan.FromHours`.
   */
  function ParseDuration(value: Option<string>, defaultValue: Ticks,
                         parseTimeSpan: string -> Option<Ticks>): (r: Option<Ticks>)
    ensures IsNullOrWhiteSpace(value) ==> r == Some(defaultValue)
    ensures value.Some? && UnitCount(value.value, 's').Some? ==>
      r == Some(UnitCount(value.value, 's').value * TicksPerSecond)
    ensures value.Some? && UnitCount(value.value, 'm').Some? ==>
      r == Some(UnitCount(value.value, 'm').value * TicksPerMinute)
    ensures value.Some? && UnitCount(value.value, 'h').Some? ==>
      r == FromHours(UnitCount(value.value, 'h').value)
    ensures !IsNullOrWhiteSpace(value) && UnitCount(value.value, 's').None?
            && UnitCount(value.value, 'm').None? && UnitCount(value.value, 'h').None? ==>
      r == Some(parseTimeSpan(Trim(value.value)).GetOr(defaultValue))
    ensures r.None? ==> value.Some? && UnitCount(value.value, 'h').Some?
  {
    if IsNullOrWhiteSpace(value) then
      assert value.Some? ==> Trim(value.value) == [];
      Some(defaultValue)
    else
      var seconds := UnitCount(value.value, 's');
      var minutes := UnitCount(value.value, 'm');
      var hours := UnitCount(value.value, 'h');
      if seconds.Some? then Some(seconds.value * TicksPerSecond)
      else if minutes.Some? then Some(minutes.value * TicksPerMinute)
      else if hours.Some? then FromHours(hours.value)
      else Some(parseTimeSpan(Trim(value.value)).GetOr(defaultValue))
  }

  /** A piece of a split list that `ParseSet` keeps. */
  predicate KeptPiece(p: string) {
    Trim(p) != [] && !IsBlank(NormalizeContainerName(Some(Trim(p))))
  }

  /** The set member a kept piece contributes: its normalised, folded name. */
  function PieceMember(p: string): string {
    ToLower(NormalizeContainerName(Some(Trim(p))))
  }

  lemma KeptPieceMember(p: string)
    requires KeptPiece(p)
    ensures var m := PieceMember(p); m != [] && m[0] != '/' && !IsBlank(m)
  {
    var n := NormalizeContainerName(Some(Trim(p)));
    var m := ToLower(n);
    assert m == PieceMember(p);
    var i :| 0 <= i < |n| && !IsWhiteSpace(n[i]);
    LowerCharKeepsClass(n[i]);
    LowerCharKeepsClass(n[0]);
    assert !IsWhiteSpace(m[i]);
  }

  lemma LowerCharKeepsClass(c: char)
    ensures IsWhiteSpace(LowerChar(c)) == IsWhiteSpace(c)
    ensures (LowerChar(c) == '/') == (c == '/')
  {
  }

  /** The characters `ParseSet` splits on. */
  const ListSeparators: set<char> := {',', ' '}

  /**
   * `ParseSet`: split on ',' and ' ', trim and drop empty pieces, normalise
   * each, drop blank names, and collect them case-insensitively.
   */
  function ParseSet(value: Option<string>): (r: NameSet)
    ensures IsNullOrWhiteSpace(value) ==> r == {}
    ensures value.Some? ==> forall m :: m in r <==>
      exists p | p in SplitAny(value.value, ListSeparators) && KeptPiece(p) :: m == PieceMember(p)
    ensures forall m | m in r :: m != [] && m[0] != '/' && !IsBlank(m)
  {
    if IsNullOrWhiteSpace(value) then
      if value.None? then {}
      else
        SplitAnyOfBlank(value.value, ListSeparators);
        {}
    else
      var pieces := SplitAny(value.value, ListSeparators);
      var r := set p | p in pieces && KeptPiece(p) :: PieceMember(p);
      assert forall m | m in r :: m != [] && m[0] != '/' && !IsBlank(m) by {
        forall m | m in r ensures m != [] && m[0] != '/' && !IsBlank(m) {
          var p :| p in pieces && KeptPiece(p) && m == PieceMember(p);
          KeptPieceMember(p);
        }
      }
      r
  }

  /** A list separator splits the set in two: the names on either side, together. */
  lemma ParseSetAtSeparator(a: string, c: char, b: string)
    requires c in ListSeparators
    ensures ParseSet(Some(a + [c] + b)) == ParseSet(Some(a)) + ParseSet(Some(b))
  {
    SplitAnyAtSeparator(a, c, b, ListSeparators);
    var pa, pb := SplitAny(a, ListSeparators), SplitAny(b, ListSeparators);
    ParseSetIsMembers(a + [c] + b);
    ParseSetIsMembers(a);
    ParseSetIsMembers(b);
    MembersOfAppend(pa, pb);
  }

  /** The names the kept pieces of a list stand for. */
  function Members(pieces: seq<string>): NameSet {
    set p | p in pieces && KeptPiece(p) :: PieceMember(p)
  }

  lemma ParseSetIsMembers(v: string)
    ensures ParseSet(Some(v)) == Members(SplitAny(v, ListSeparators))
  {
    var pieces := SplitAny(v, ListSeparators);
    forall m ensures m in ParseSet(Some(v)) <==> m in Members(pieces) {
      if m in Members(pieces) {
        var p :| p in pieces && KeptPiece(p) && m == PieceMember(p);
      }
    }
  }

  lemma MembersOfAppend(pa: seq<string>, pb: seq<string>)
    ensures Members(pa + pb) == Members(pa) + Members(pb)
  {
    forall m ensures m in Members(pa + pb) <==> m in Members(pa) + Members(pb) {
      if m in Members(pa + pb) {
        var p :| p in pa + pb && KeptPiece(p) && m == PieceMember(p);
        assert p in pa || p in pb;
      }
      if m in Members(pa) {
        var p :| p in pa && KeptPiece(p) && m == PieceMember(p);
        assert p in pa + pb;
      }
      if m in Members(pb) {
        var p :| p in pb && KeptPiece(p) && m == PieceMember(p);
        assert p in pa + pb;
      }
    }
  }

  /** A single name, with no separator in it, is the one member of its set (if it is kept at all). */
  lemma ParseSetOfName(name: string)
    requires forall i | 0 <= i < |name| :: name[i] !in ListSeparators
    ensures ParseSet(Some(name)) == if KeptPiece(name) then {PieceMember(name)} else {}
  {
    SplitAnyWithoutSeparator(name, ListSeparators);
    ParseSetOfOnePiece(name);
  }

  /** A clean name with no separator in it is read back as the one-name set of its folded self. */
  lemma ParseSetOfCleanName(name: string)
    requires CleanName(name)
    requires forall i | 0 <= i < |name| :: name[i] !in ListSeparators
    ensures ParseSet(Some(name)) == {ToLower(name)}
  {
    ParseSetOfName(name);
    TrimOfUntrimmed(name);
    NormalizeCleanName(name);
    assert !IsWhiteSpace(name[0]);
    assert KeptPiece(name);
  }

  lemma ParseSetOfOnePiece(name: string)
    requires SplitAny(name, ListSeparators) == [name]
    ensures ParseSet(Some(name)) == if KeptPiece(name) then {PieceMember(name)} else {}
  {
    OnlyPieceMember(name);
    if KeptPiece(name) {
      OnlyPieceKept(name);
    }
  }

  lemma OnlyPieceKept(name: string)
    requires SplitAny(name, ListSeparators) == [name] && KeptPiece(name)
    ensures PieceMember(name) in ParseSet(Some(name))
  {
    var r := ParseSet(Some(name));
    assert name in SplitAny(name, ListSeparators);
    assert PieceMember(name) in r;
  }

  lemma OnlyPieceMember(name: string)
    requires SplitAny(name, ListSeparators) == [name]
    ensures forall m | m in ParseSet(Some(name)) :: KeptPiece(name) && m == PieceMember(name)
  {
  }

  /** `NullIfWhiteSpace`: blank becomes null, anything else is trimmed. */
  function NullIfWhiteSpace(value: Option<string>): (r: Option<string>)
    ensures r.None? <==> IsNullOrWhiteSpace(value)
    ensures r.Some? ==> r.value == Trim(value.value) && r.value != []
  {
    if IsNullOrWhiteSpace(value) then None else Some(Trim(value.value))
  }

  /** Every option whose variable is unset or blank keeps its default. */
  predicate BlankKeepsDefaults(env: Environment, o: Options) {
    var d := Defaults();
    (IsNullOrWhiteSpace(Get(env, DockerHostVar)) ==> o.dockerHost == d.dockerHost)
    && (IsNullOrWhiteSpace(Get(env, DockerTlsVerifyVar)) ==> o.dockerTlsVerify == d.dockerTlsVerify)
    && (IsNullOrWhiteSpace(Get(env, PollIntervalVar)) ==>
          o.pollIntervalSeconds == d.pollIntervalSeconds && o.pollIntervalExplicitlySet == d.pollIntervalExplicitlySet)
    && (IsNullOrWhiteSpace(Get(env, ScheduleVar)) ==> o.schedule == d.schedule)
    && (IsNullOrWhiteSpace(Get(env, LabelEnableVar)) ==> o.labelEnable == d.labelEnable)
    && (IsNullOrWhiteSpace(Get(env, DisableContainersVar)) ==> o.disableContainers == d.disableContainers)
    && (IsNullOrWhiteSpace(Get(env, CleanupVar)) ==> o.cleanup == d.cleanup)
    && (IsNullOrWhiteSpace(Get(env, TimeoutVar)) ==> o.stopTimeout == d.stopTimeout)
    && (IsNullOrWhiteSpace(Get(env, RunOnceVar)) ==> o.runOnce == d.runOnce)
    && (IsNullOrWhiteSpace(Get(env, IncludeStoppedVar)) ==> o.includeStopped == d.includeStopped)
    && (IsNullOrWhiteSpace(Get(env, ReviveStoppedVar)) ==> o.reviveStopped == d.reviveStopped)
    && (IsNullOrWhiteSpace(Get(env, ContainersVar)) ==> o.targetContainers == d.targetContainers)
    && (IsNullOrWhiteSpace(Get(env, NotificationUrlVar)) ==> o.notificationUrl == d.notificationUrl)
    && (IsNullOrWhiteSpace(Get(env, DiscordWebhookUrlVar)) ==> o.discordWebhookUrl == d.discordWebhookUrl)
    && (IsNullOrWhiteSpace(Get(env, DiscordMessageTemplateVar)) ==>
          o.discordMessageTemplate == d.discordMessageTemplate)
    && (IsNullOrWhiteSpace(Get(env, TimeZoneVar)) ==> o.timeZone == d.timeZone)
  }

  /**
   * `LoadFromEnvironment`. `isAbsoluteUri` stands for `Uri.TryCreate` and
   * `parseTimeSpan` for `TimeSpan.TryParse`; None is the overflow exception a
   * huge hour count in the timeout variable raises.
   */
  function LoadFromEnvironment(env: Environment, isAbsoluteUri: string -> bool,
                               parseTimeSpan: string -> Option<Ticks>): (r: Option<Options>)
    ensures r.None? <==> Get(env, TimeoutVar).Some? && UnitCount(Get(env, TimeoutVar).value, 'h').Some?
                         && FromHours(UnitCount(Get(env, TimeoutVar).value, 'h').value).None?
    ensures IsNullOrWhiteSpace(Get(env, TimeoutVar)) ==> r.Some? && r.value.stopTimeout == 10 * TicksPerSecond
    ensures r.Some? ==> BlankKeepsDefaults(env, r.value)
    ensures r.Some? ==> r.value.stopTimeout == ParseDuration(Get(env, TimeoutVar), 10 * TicksPerSecond, parseTimeSpan).value
    ensures r.Some? ==> EachFieldParsed(env, isAbsoluteUri, r.value)
  {
    var timeout := ParseDuration(Get(env, TimeoutVar), 10 * TicksPerSecond, parseTimeSpan);
    if timeout.None? then None
    else
      ReadOptionsKeepsDefaults(env, isAbsoluteUri, timeout.value);
      ReadOptionsParsesEachField(env, isAbsoluteUri, timeout.value);
      Some(ReadOptions(env, isAbsoluteUri, timeout.value))
  }

  /**
   * Each option other than the timeout is what its own parser makes of its own
   * variable: the switches through `ParseBool`, the name lists through `ParseSet`,
   * the texts through `NullIfWhiteSpace`, and the Docker host only when it is an
   * absolute URI.
   */
  predicate EachFieldParsed(env: Environment, isAbsoluteUri: string -> bool, o: Options) {
    var host := Get(env, DockerHostVar);
    && (o.dockerHost.Some? ==> o.dockerHost == host && isAbsoluteUri(o.dockerHost.value))
    && (o.dockerHost.Some? <==> !IsNullOrWhiteSpace(host) && isAbsoluteUri(host.value))
    && o.pollIntervalSeconds > 0 && o.timeZone != []
    && o.pollIntervalSeconds == ParseInt(Get(env, PollIntervalVar), 86400)
    && (o.pollIntervalExplicitlySet <==> !IsNullOrWhiteSpace(Get(env, PollIntervalVar)))
    && o.dockerTlsVerify == ParseBool(Get(env, DockerTlsVerifyVar), false)
    && o.labelEnable == ParseBool(Get(env, LabelEnableVar), false)
    && o.cleanup == ParseBool(Get(env, CleanupVar), false)
    && o.runOnce == ParseBool(Get(env, RunOnceVar), false)
    && o.includeStopped == ParseBool(Get(env, IncludeStoppedVar), false)
    && o.reviveStopped == ParseBool(Get(env, ReviveStoppedVar), false)
    && o.disableContainers == ParseSet(Get(env, DisableContainersVar))
    && o.targetContainers == ParseSet(Get(env, ContainersVar))
    && o.schedule == NullIfWhiteSpace(Get(env, ScheduleVar))
    && o.notificationUrl == NullIfWhiteSpace(Get(env, NotificationUrlVar))
    && o.discordWebhookUrl == NullIfWhiteSpace(Get(env, DiscordWebhookUrlVar))
    && o.discordMessageTemplate == NullIfWhiteSpace(Get(env, DiscordMessageTemplateVar))
    && o.timeZone == NullIfWhiteSpace(Get(env, TimeZoneVar)).GetOr("UTC")
  }

  /** The object initializer of `LoadFromEnvironment`, once the timeout has been read. */
  function ReadOptions(env: Environment, isAbsoluteUri: string -> bool, stopTimeout: Ticks): Options {
    var host := Get(env, DockerHostVar);
    Options(
      dockerHost := if IsNullOrWhiteSpace(host) || !isAbsoluteUri(host.value) then None else host,
      dockerTlsVerify := ParseBool(Get(env, DockerTlsVerifyVar), false),
      pollIntervalSeconds := ParseInt(Get(env, PollIntervalVar), 86400),
      pollIntervalExplicitlySet := !IsNullOrWhiteSpace(Get(env, PollIntervalVar)),
      schedule := NullIfWhiteSpace(Get(env, ScheduleVar)),
      labelEnable := ParseBool(Get(env, LabelEnableVar), false),
      disableContainers := ParseSet(Get(env, DisableContainersVar)),
      cleanup := ParseBool(Get(env, CleanupVar), false),
      stopTimeout := stopTimeout,
      runOnce := ParseBool(Get(env, RunOnceVar), false),
      includeStopped := ParseBool(Get(env, IncludeStoppedVar), false),
      reviveStopped := ParseBool(Get(env, ReviveStoppedVar), false),
      targetContainers := ParseSet(Get(env, ContainersVar)),
      notificationUrl := NullIfWhiteSpace(Get(env, NotificationUrlVar)),
      discordWebhookUrl := NullIfWhiteSpace(Get(env, DiscordWebhookUrlVar)),
      discordMessageTemplate := NullIfWhiteSpace(Get(env, DiscordMessageTemplateVar)),
      timeZone := NullIfWhiteSpace(Get(env, TimeZoneVar)).GetOr("UTC"))
  }

  /** Every option other than the timeout keeps its default when its variable is unset or blank. */
  lemma ReadOptionsKeepsDefaults(env: Environment, isAbsoluteUri: string -> bool, stopTimeout: Ticks)
    requires IsNullOrWhiteSpace(Get(env, TimeoutVar)) ==> stopTimeout == Defaults().stopTimeout
    ensures BlankKeepsDefaults(env, ReadOptions(env, isAbsoluteUri, stopTimeout))
  {
  }

  lemma ReadOptionsParsesEachField(env: Environment, isAbsoluteUri: string -> bool, stopTimeout: Ticks)
    ensures EachFieldParsed(env, isAbsoluteUri, ReadOptions(env, isAbsoluteUri, stopTimeout))
  {
  }

  // ------------------------------------------------------------- properties

  /** A name with no white space at its ends and no leading '/'. */
  predicate CleanName(n: string) {
    n != [] && n[0] != '/' && !IsWhiteSpace(n[0]) && !IsWhiteSpace(n[|n| - 1])
  }

  /** A clean name is kept as is, and one leading '/' is dropped. */
  lemma NormalizeCleanName(n: string)
    requires CleanName(n)
    ensures NormalizeContainerName(Some(n)) == n
    ensures NormalizeContainerName(Some("/" + n)) == n
  {
    TrimOfUntrimmed(n);
    TrimOfUntrimmed("/" + n);
    assert ("/" + n)[1..] == n;
  }

  /** A leading space is trimmed before slashes are dropped. */
  lemma NormalizeSpacedName(n: string)
    requires CleanName(n)
    ensures NormalizeContainerName(Some(" " + n)) == n
  {
    var spaced := " " + n;
    TrimStartUnique(spaced, 1);
    assert spaced[1..] == n;
    TrimEndUnique(n, |n|);
    assert n[..|n|] == n;
    assert Trim(spaced) == n;
  }

  /**
   * Normalisation is not idempotent: white space behind the slash survives
   * the first pass ("/ n" becomes " n") and is trimmed by the second.
   */
  lemma NormalizeIsNotIdempotent(n: string)
    requires CleanName(n)
    ensures NormalizeContainerName(Some("/ " + n)) == " " + n
    ensures NormalizeContainerName(Some(" " + n)) == n
  {
    var spaced := " " + n;
    var slashed := "/" + spaced;
    assert slashed == "/ " + n;
    assert slashed[|slashed| - 1] == n[|n| - 1];
    TrimOfUntrimmed(slashed);
    assert slashed[1..] == spaced;
    assert TrimStartChar(slashed, '/') == TrimStartChar(spaced, '/');
    NormalizeSpacedName(n);
  }

  /** A bool the helper writes with `bool.ToString()` reads back as itself. */
  lemma ParseBoolOfFormatBool(b: bool, defaultValue: bool)
    ensures ParseBool(Some(FormatBool(b)), defaultValue) == b
  {
    TrimOfUntrimmed(FormatBool(b));
    assert ToLower("True") == "true";
    assert ToLower("False") == "false";
  }

  /**
   * A 32-bit count followed by a unit letter reads back as that many seconds,
   * minutes or hours; hours that leave the `TimeSpan` range throw (None).
   */
  lemma ParseDurationOfCount(n: int, unit: char, defaultValue: Ticks,
                             parseTimeSpan: string -> Option<Ticks>)
    requires Int32Min <= n <= Int32Max
    requires unit == 's' || unit == 'm' || unit == 'h'
    ensures ParseDuration(Some(IntToString(n) + [unit]), defaultValue, parseTimeSpan)
         == if unit == 's' then Some(n * TicksPerSecond)
            else if unit == 'm' then Some(n * TicksPerMinute)
            else FromHours(n)
  {
    var s := IntToString(n) + [unit];
    assert s[0] == '-' || IsDigit(s[0]);
    TrimOfUntrimmed(s);
    assert s[..|s| - 1] == IntToString(n);
    ParseInt32OfIntToString(n);
  }

  /** An hour count beyond the `TimeSpan` range in the timeout makes loading throw. */
  lemma HugeHourTimeoutThrows(n: int, env: Environment, isAbsoluteUri: string -> bool,
                              parseTimeSpan: string -> Option<Ticks>)
    requires Int32Min <= n <= Int32Max && n * TicksPerHour > MaxTicks
    requires Get(env, TimeoutVar) == Some(IntToString(n) + "h")
    ensures LoadFromEnvironment(env, isAbsoluteUri, parseTimeSpan).None?
  {
    ParseDurationOfCount(n, 'h', 10 * TicksPerSecond, parseTimeSpan);
  }

  /** With none of the variables set, loading yields the defaults. */
  lemma LoadFromEmptyEnvironment(isAbsoluteUri: string -> bool, parseTimeSpan: string -> Option<Ticks>)
    ensures LoadFromEnvironment(map[], isAbsoluteUri, parseTimeSpan) == Some(Defaults())
  {
  }

  /**
   * The poll interval counts as explicitly set whenever its variable is not
   * blank, also when it does not parse and the default is used.
   */
  lemma PollIntervalExplicitEvenIfInvalid(v: string, env: Environment, isAbsoluteUri: string -> bool,
                                          parseTimeSpan: string -> Option<Ticks>)
    requires !IsBlank(v) && ParseInt32(v).None? && Get(env, PollIntervalVar) == Some(v)
    requires LoadFromEnvironment(env, isAbsoluteUri, parseTimeSpan).Some?
    ensures var o := LoadFromEnvironment(env, isAbsoluteUri, parseTimeSpan).value;
      o.pollIntervalExplicitlySet && o.pollIntervalSeconds == 86400
  {
  }
}
