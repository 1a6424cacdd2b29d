/**
 * `ContainerRecreator.RecreateAsync`: replace a container by one built from
 * its inspected configuration and a new image. The calls are made in a fixed
 * order (inspect, stop when running, forced remove, create, start when
 * wanted) and nothing is caught: the first failure ends the operation, after
 * whatever steps already ran.
 */
module ContainerRecreator {
  import opened Wrappers
  import opened DockerModels
  import opened Runtime
  import opened UpdaterOptions

  const UInt32Max: int := 0xFFFF_FFFF

  // ------------------------------------------------------ create parameters

  /** The members of a network attachment that are carried over. */
  predicate EndpointCopied(copy: EndpointSettings, original: EndpointSettings) {
    copy.aliases == original.aliases && copy.networkId == original.networkId
    && copy.ipAddress == original.ipAddress && copy.ipamConfig == original.ipamConfig
    && copy.gateway == original.gateway && copy.globalIPv6Address == original.globalIPv6Address
    && copy.ipv6Gateway == original.ipv6Gateway && copy.macAddress == original.macAddress
  }

  /** A fresh `EndpointSettings` holding the eight copied members only. */
  function CopyEndpoint(s: EndpointSettings): (r: EndpointSettings)
    ensures EndpointCopied(r, s)
    ensures r.endpointId.None? && r.links.None?
  {
    EndpointSettings(s.aliases, s.networkId, s.ipAddress, s.ipamConfig, s.gateway,
                     s.globalIPv6Address, s.ipv6Gateway, s.macAddress, None, None)
  }

  /** `NetworkSettings?.Networks`, when both are present. */
  function Networks(inspect: ContainerInspect): Option<map<string, EndpointSettings>> {
    if inspect.networkSettings.Some? then inspect.networkSettings.value.networks else None
  }

  /**
   * The inline `CreateContainerParameters`: the normalised original name, the
   * requested image, the configuration members copied from the inspected
   * container (absent when it has no `Config`), its host configuration as is,
   * and one copied endpoint per attached network.
   */
  function CreateParams(inspect: ContainerInspect, imageName: string): (p: CreateParameters)
    ensures p.name == NormalizeContainerName(inspect.name) && p.image == imageName
    ensures p.hostConfig == inspect.hostConfig
    ensures inspect.config.None? ==>
      p.env.None? && p.cmd.None? && p.entrypoint.None? && p.workingDir.None?
      && p.labels.None? && p.exposedPorts.None?
    ensures inspect.config.Some? ==>
      var c := inspect.config.value;
      p.env == c.env && p.cmd == c.cmd && p.entrypoint == c.entrypoint
      && p.workingDir == c.workingDir && p.labels == c.labels && p.exposedPorts == c.exposedPorts
    ensures p.networkingConfig.None? <==> Networks(inspect).None?
    ensures p.networkingConfig.Some? ==>
      var nets := Networks(inspect).value;
      p.networkingConfig.value.Keys == nets.Keys
      && forall k | k in nets :: EndpointCopied(p.networkingConfig.value[k], nets[k])
  {
    var c := inspect.config;
    CreateParameters(
      NormalizeContainerName(inspect.name),
      imageName,
      if c.Some? then c.value.env else None,
      if c.Some? then c.value.cmd else None,
      if c.Some? then c.value.entrypoint else None,
      if c.Some? then c.value.workingDir else None,
      if c.Some? then c.value.labels else None,
      if c.Some? then c.value.exposedPorts else None,
      inspect.hostConfig,
      match Networks(inspect)
      case None => None
      case Some(nets) => Some(map k | k in nets :: CopyEndpoint(nets[k])))
  }

  /**
   * The recreated container answers an inspect with the original's copied
   * configuration, the original's name and the new image, and is stopped.
   */
  lemma CreatedKeepsConfiguration(inspect: ContainerInspect, imageName: string, id: string)
    requires NormalizeContainerName(inspect.name) != ""
    requires inspect.config.Some?
    ensures var c := Created(CreateParams(inspect, imageName), id);
      var o := inspect.config.value;
      c.name == Some("/" + NormalizeContainerName(inspect.name)) && c.image == imageName
      && c.config.Some? && c.config.value.env == o.env && c.config.value.cmd == o.cmd
      && c.config.value.entrypoint == o.entrypoint && c.config.value.workingDir == o.workingDir
      && c.config.value.labels == o.labels && c.config.value.exposedPorts == o.exposedPorts
      && c.hostConfig == inspect.hostConfig && !Running(c)
  {
  }

  // ------------------------------------------------------- the stop timeout

  /** `Math.Ceiling(stopTimeout.TotalSeconds)`, on exact ticks. */
  function CeilSeconds(t: Ticks): int {
    -((-t) / TicksPerSecond)
  }

  lemma CeilSecondsBounds(t: Ticks)
    ensures (CeilSeconds(t) - 1) * TicksPerSecond < t <= CeilSeconds(t) * TicksPerSecond
  {
  }

  /** The `(uint)` conversion of the ceiling, saturating at both ends of the range. */
  function WaitBeforeKillSeconds(t: Ticks): (s: nat)
    ensures s <= UInt32Max
    ensures 0 <= CeilSeconds(t) <= UInt32Max ==> s == CeilSeconds(t)
    ensures CeilSeconds(t) < 0 ==> s == 0
    ensures CeilSeconds(t) > UInt32Max ==> s == UInt32Max
  {
    var c := CeilSeconds(t);
    if c < 0 then 0 else if c > UInt32Max then UInt32Max else c
  }

  /** A whole number of seconds is passed on unchanged. */
  lemma WholeSecondsWait(n: nat)
    requires n <= UInt32Max
    ensures WaitBeforeKillSeconds(n * TicksPerSecond) == n
  {
    CeilSecondsBounds(n * TicksPerSecond);
  }

  // ------------------------------------------------------------ the steps

  function StartFailedMessage(originalName: string): string {
    "Failed to start recreated container '" + originalName + "'."
  }

  /** The calls from the create request on: the create, then the start when one is wanted. */
  function CreateTail(p: CreateParameters, wantStart: bool, newId: string): seq<Call> {
    [CreateCall(p)] + (if wantStart then [StartCall(newId)] else [])
  }

  /** The calls from the removal on. */
  function ReplaceTail(containerId: string, p: CreateParameters, wantStart: bool, newId: string): seq<Call> {
    [RemoveCall(containerId, true, false)] + CreateTail(p, wantStart, newId)
  }

  /** Whether the replacement is started: the original was running, or stopped ones are revived. */
  predicate WantStart(inspect: ContainerInspect, reviveStopped: bool) {
    Running(inspect) || reviveStopped
  }

  /** The calls of a recreation that runs to the end, in order. */
  function Plan(inspect: ContainerInspect, containerId: string, imageName: string, stopTimeout: Ticks,
                reviveStopped: bool, newId: string): seq<Call>
  {
    [InspectCall(containerId)]
    + (if Running(inspect) then [StopCall(containerId, WaitBeforeKillSeconds(stopTimeout))] else [])
    + ReplaceTail(containerId, CreateParams(inspect, imageName), WantStart(inspect, reviveStopped), newId)
  }

  /**
   * Create the replacement and start it when wanted; a start reporting false
   * is an error naming the original container.
   */
  function CreateStage(d: Daemon, p: CreateParameters, wantStart: bool, originalName: string)
    : (Daemon, Option<Error>)
  {
    var (d4, created) := CreateStep(d, p);
    if created.Err? then (d4, Some(created.error))
    else if wantStart then
      var (d5, started) := StartStep(d4, created.value);
      if started.Err? then (d5, Some(started.error))
      else if !started.value then (d5, Some(InvalidOperation(StartFailedMessage(originalName))))
      else (d5, None)
    else (d4, None)
  }

  /** Force-remove the original, keeping its volumes, then create its replacement. */
  function ReplaceStage(d: Daemon, containerId: string, p: CreateParameters, wantStart: bool,
                        originalName: string): (Daemon, Option<Error>)
  {
    var (d3, removed) := RemoveStep(d, containerId, true, false);
    if removed.Err? then (d3, Some(removed.error))
    else CreateStage(d3, p, wantStart, originalName)
  }

  /** Everything after a successful inspect: stop the original when it runs, then replace it. */
  function StopAndReplace(d: Daemon, containerId: string, wasRunning: bool, waitSeconds: nat,
                          p: CreateParameters, wantStart: bool, originalName: string): (Daemon, Option<Error>)
  {
    if wasRunning then
      var (d2, stopped) := StopStep(d, containerId, waitSeconds);
      if stopped.Err? then (d2, Some(stopped.error))
      else ReplaceStage(d2, containerId, p, wantStart, originalName)
    else ReplaceStage(d, containerId, p, wantStart, originalName)
  }

  /** `RecreateAsync`: the daemon afterwards and the error that escaped, if any. */
  function RecreateStep(d: Daemon, containerId: string, imageName: string, stopTimeout: Ticks,
                        reviveStopped: bool): (Daemon, Option<Error>)
  {
    var (d1, inspected) := InspectStep(d, containerId);
    if inspected.Err? then (d1, Some(inspected.error))
    else
      var inspect := inspected.value;
      StopAndReplace(d1, containerId, Running(inspect), WaitBeforeKillSeconds(stopTimeout),
                     CreateParams(inspect, imageName), WantStart(inspect, reviveStopped),
                     NormalizeContainerName(inspect.name))
  }

  // The three ways a log can stand to `log + ([c] + rest)`: it issued `c`
  // only, it went on into `rest`, or it issued all of it.

  lemma FirstCallIssued<T>(log: seq<T>, c: T, rest: seq<T>)
    ensures log + ([c] + rest)[..1] <= log + [c] <= log + ([c] + rest)
  {
    assert ([c] + rest)[..1] == [c];
    assert (log + ([c] + rest))[..|log| + 1] == log + [c];
  }

  lemma LaterCallsIssued<T>(log: seq<T>, c: T, rest: seq<T>, l: seq<T>)
    requires rest != []
    requires (log + [c]) + rest[..1] <= l <= (log + [c]) + rest
    ensures log + ([c] + rest)[..1] <= l <= log + ([c] + rest)
  {
    FirstCallIssued(log, c, rest);
    assert (log + [c]) + rest == log + ([c] + rest);
    assert l[..|log| + 1] == ((log + [c]) + rest[..1])[..|log| + 1];
  }

  lemma AllCallsIssued<T>(log: seq<T>, c: T, rest: seq<T>)
    ensures (log + [c]) + rest == log + ([c] + rest)
    ensures log + ([c] + rest)[..1] <= log + ([c] + rest)
  {
    FirstCallIssued(log, c, rest);
  }

  /**
   * The create stage issues the create and, at most, the start; when it
   * succeeds it has issued both that were due and added exactly the new id.
   */
  lemma CreateStageCalls(d: Daemon, p: CreateParameters, wantStart: bool, originalName: string)
    ensures var r := CreateStage(d, p, wantStart, originalName);
      var tail := CreateTail(p, wantStart, NewId(|d.log|));
      d.log + tail[..1] <= r.0.log <= d.log + tail
      && (r.1.None? ==> r.0.log == d.log + tail
                        && r.0.containers.Keys == d.containers.Keys + {NewId(|d.log|)})
  {
    var rest := if wantStart then [StartCall(NewId(|d.log|))] else [];
    var created := CreateStep(d, p);
    if created.1.Ok? && wantStart {
      var started := StartStep(created.0, created.1.value);
      AllCallsIssued(d.log, CreateCall(p), rest);
      assert started.0.log == (d.log + [CreateCall(p)]) + rest;
    } else {
      FirstCallIssued(d.log, CreateCall(p), rest);
    }
  }

  /** The removal comes first; on success the original id is gone and the new one is there. */
  lemma ReplaceStageCalls(d: Daemon, containerId: string, p: CreateParameters, wantStart: bool,
                          originalName: string)
    ensures var r := ReplaceStage(d, containerId, p, wantStart, originalName);
      var tail := ReplaceTail(containerId, p, wantStart, NewId(|d.log| + 1));
      d.log + tail[..1] <= r.0.log <= d.log + tail
      && (r.1.None? ==> r.0.log == d.log + tail
                        && r.0.containers.Keys == d.containers.Keys - {containerId} + {NewId(|d.log| + 1)})
  {
    var c := RemoveCall(containerId, true, false);
    var rest := CreateTail(p, wantStart, NewId(|d.log| + 1));
    var removed := RemoveStep(d, containerId, true, false);
    if removed.1.Ok? {
      CreateStageCalls(removed.0, p, wantStart, originalName);
      LaterCallsIssued(d.log, c, rest, CreateStage(removed.0, p, wantStart, originalName).0.log);
      AllCallsIssued(d.log, c, rest);
    } else {
      FirstCallIssued(d.log, c, rest);
    }
  }

  /** The stop, when due, comes before the removal; success means the whole tail was issued. */
  lemma StopAndReplaceCalls(d: Daemon, containerId: string, wasRunning: bool, waitSeconds: nat,
                            p: CreateParameters, wantStart: bool, originalName: string)
    ensures var r := StopAndReplace(d, containerId, wasRunning, waitSeconds, p, wantStart, originalName);
      var n := if wasRunning then 1 else 0;
      var tail := (if wasRunning then [StopCall(containerId, waitSeconds)] else [])
                  + ReplaceTail(containerId, p, wantStart, NewId(|d.log| + n + 1));
      d.log + tail[..1] <= r.0.log <= d.log + tail
      && (r.1.None? ==> r.0.log == d.log + tail
                        && r.0.containers.Keys == d.containers.Keys - {containerId} + {NewId(|d.log| + n + 1)})
  {
    if wasRunning {
      var c := StopCall(containerId, waitSeconds);
      var rest := ReplaceTail(containerId, p, wantStart, NewId(|d.log| + 2));
      var stopped := StopStep(d, containerId, waitSeconds);
      if stopped.1.Ok? {
        ReplaceStageCalls(stopped.0, containerId, p, wantStart, originalName);
        LaterCallsIssued(d.log, c, rest, ReplaceStage(stopped.0, containerId, p, wantStart, originalName).0.log);
        AllCallsIssued(d.log, c, rest);
      } else {
        FirstCallIssued(d.log, c, rest);
      }
    } else {
      ReplaceStageCalls(d, containerId, p, wantStart, originalName);
      var rest := ReplaceTail(containerId, p, wantStart, NewId(|d.log| + 1));
      assert [] + rest == rest;
    }
  }

  /** A container that cannot be inspected is left alone: nothing but the inspect is issued. */
  lemma InspectFailureStops(d: Daemon, containerId: string, imageName: string, stopTimeout: Ticks,
                            reviveStopped: bool)
    requires Fault(d).Some? || containerId !in d.containers
    ensures var r := RecreateStep(d, containerId, imageName, stopTimeout, reviveStopped);
      r.1.Some? && r.0 == Issue(d, InspectCall(containerId))
  {
  }

  /** The id a create issued after the inspect, the stop (if any) and the removal receives. */
  function NewIdAfter(d: Daemon, inspect: ContainerInspect): string {
    NewId(|d.log| + (if Running(inspect) then 3 else 2))
  }

  /**
   * Every recreation of an inspectable container issues a prefix of its plan,
   * at least the inspect: a stop only when the inspected container was
   * running, a forced removal keeping volumes before the create, and a start
   * of the new container only when it was running or stopped containers are
   * revived. It issues the whole plan when it succeeds, and the original is
   * then replaced by the new container.
   */
  lemma RecreateFollowsPlan(d: Daemon, containerId: string, imageName: string, stopTimeout: Ticks,
                            reviveStopped: bool)
    requires Fault(d).None? && containerId in d.containers
    ensures var r := RecreateStep(d, containerId, imageName, stopTimeout, reviveStopped);
      var inspect := d.containers[containerId];
      var plan := Plan(inspect, containerId, imageName, stopTimeout, reviveStopped, NewIdAfter(d, inspect));
      d.log + plan[..1] <= r.0.log <= d.log + plan
      && (r.1.None? ==>
            r.0.log == d.log + plan
            && r.0.containers.Keys == d.containers.Keys - {containerId} + {NewIdAfter(d, inspect)})
  {
    var inspect := d.containers[containerId];
    var p := CreateParams(inspect, imageName);
    var wantStart := WantStart(inspect, reviveStopped);
    var originalName := NormalizeContainerName(inspect.name);
    var waitSeconds := WaitBeforeKillSeconds(stopTimeout);
    var d1 := Issue(d, InspectCall(containerId));
    RecreateAfterInspect(d, containerId, imageName, stopTimeout, reviveStopped);
    StopAndReplaceCalls(d1, containerId, Running(inspect), waitSeconds, p, wantStart, originalName);
    PlanAfterInspect(d, inspect, containerId, imageName, stopTimeout, reviveStopped);
  }

  /** An inspectable container goes on to the stop-and-replace stage with its own configuration. */
  lemma RecreateAfterInspect(d: Daemon, containerId: string, imageName: string, stopTimeout: Ticks,
                             reviveStopped: bool)
    requires Fault(d).None? && containerId in d.containers
    ensures var inspect := d.containers[containerId];
      RecreateStep(d, containerId, imageName, stopTimeout, reviveStopped)
      == StopAndReplace(Issue(d, InspectCall(containerId)), containerId, Running(inspect),
                        WaitBeforeKillSeconds(stopTimeout), CreateParams(inspect, imageName),
                        WantStart(inspect, reviveStopped), NormalizeContainerName(inspect.name))
  {
  }

  /** The plan is the inspect followed by the stop-and-replace calls. */
  lemma PlanAfterInspect(d: Daemon, inspect: ContainerInspect, containerId: string, imageName: string,
                         stopTimeout: Ticks, reviveStopped: bool)
    ensures var n := if Running(inspect) then 1 else 0;
      var tail := (if Running(inspect) then [StopCall(containerId, WaitBeforeKillSeconds(stopTimeout))] else [])
                  + ReplaceTail(containerId, CreateParams(inspect, imageName), WantStart(inspect, reviveStopped),
                                NewId(|d.log| + 1 + n + 1));
      d.log + Plan(inspect, containerId, imageName, stopTimeout, reviveStopped, NewIdAfter(d, inspect))
      == (d.log + [InspectCall(containerId)]) + tail
  {
  }

  /** A start that reports false makes the recreation fail, naming the original container. */
  lemma StartReportedFalseFails(d: Daemon, p: CreateParameters, wantStart: bool, originalName: string)
    requires var r := CreateStage(d, p, wantStart, originalName);
      r.1.Some? && r.1.value.InvalidOperation?
    ensures wantStart
    ensures CreateStage(d, p, wantStart, originalName).1 == Some(InvalidOperation(StartFailedMessage(originalName)))
  {
  }

  /** `RecreateAsync`, step by step against the client. */
  method Recreate(client: DockerClient, containerId: string, imageName: string, stopTimeout: Ticks,
                  reviveStopped: bool) returns (err: Option<Error>)
    modifies client
    ensures (client.daemon, err) == RecreateStep(old(client.daemon), containerId, imageName, stopTimeout, reviveStopped)
  {
    var inspected := client.InspectContainer(containerId);
    if inspected.Err? {
      return Some(inspected.error);
    }
    var inspect := inspected.value;
    var originalName := NormalizeContainerName(inspect.name);
    var wasRunning := Running(inspect);
    if wasRunning {
      var stopped := client.StopContainer(containerId, WaitBeforeKillSeconds(stopTimeout));
      if stopped.Err? {
        return Some(stopped.error);
      }
    }
    var removed := client.RemoveContainer(containerId, true, false);
    if removed.Err? {
      return Some(removed.error);
    }
    var createParams := CreateParams(inspect, imageName);
    var created := client.CreateContainer(createParams);
    if created.Err? {
      return Some(created.error);
    }
    if wasRunning || reviveStopped {
      var started := client.StartContainer(created.value);
      if started.Err? {
        return Some(started.error);
      }
      if !started.value {
        return Some(InvalidOperation(StartFailedMessage(originalName)));
      }
    }
    err := None;
  }
}
