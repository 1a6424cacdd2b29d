/**
 * `UpdateCoordinator.RunSessionAsync`: one update session. The containers
 * are listed once; each one the selection policy admits has its image
 * inspected, pulled and inspected again, and a changed image id leads to a
 * replacement: a helper container when the container is the updater itself,
 * the recreator otherwise, followed by an optional removal of the old image.
 * Each container yields exactly one result, and a failure while updating one
 * container is recorded against it without stopping the session.
 */
module UpdateCoordinator {
  import opened Wrappers
  import opened Text
  import opened DockerModels
  import opened Runtime
  import opened UpdaterOptions
  import opened SelectionPolicy
  import opened UpdateResults
  import ImageReference
  import RegistryAuth
  import SelfUpdate
  import ContainerRecreator

  const SkippedMessage: string := "Excluded by selection policy"
  const DelegatedMessage: string := "Self-update delegated to helper container"
  const ShortIdLength: nat := 12
  const ShortIdMessage: string := "Index and length must refer to a location within the string."
  const DuplicateLabelMessage: string := "An item with the same key has already been added."

  /**
   * What the coordinator works with besides the daemon: the options, the
   * self-update switch, the HOSTNAME the process runs under, the registry
   * credentials, the GUID a helper launch draws (by the log position at which
   * it is drawn) and the printing of fractional seconds.
   */
  datatype Collaborators = Collaborators(
    options: Options,
    selfUpdate: bool,
    ownId: Option<string>,
    auth: RegistryAuth.AuthSource,
    guids: nat -> SelfUpdate.GuidText,
    formatFraction: Ticks -> string)

  // ------------------------------------------------------- ToContainerRef

  /** Two label keys that differ only in letter case. */
  predicate KeysCollide(labels: map<string, string>) {
    exists a, b | a in labels && b in labels :: a != b && ToLower(a) == ToLower(b)
  }

  /** The labels re-keyed for case-insensitive lookup (the `OrdinalIgnoreCase` dictionary). */
  function FoldLabels(labels: map<string, string>): (m: map<string, string>)
    requires !KeysCollide(labels)
    ensures forall k | k in labels :: ToLower(k) in m && m[ToLower(k)] == labels[k]
    ensures forall k | k in m :: exists l | l in labels :: ToLower(l) == k
  {
    map k | k in labels :: ToLower(k) := labels[k]
  }

  /** `Names?.FirstOrDefault() ?? ID[..12]`: a slice of a shorter id throws. */
  function DisplayName(c: ListedContainer): (r: Result<string>)
    ensures r.Err? <==> (c.names.None? || c.names.value == []) && |c.id| < ShortIdLength
    ensures r.Ok? && c.names.Some? && c.names.value != [] ==> r.value == c.names.value[0]
    ensures r.Ok? && (c.names.None? || c.names.value == []) ==> StartsWith(c.id, r.value) && |r.value| == ShortIdLength
  {
    if c.names.Some? && c.names.value != [] then Ok(c.names.value[0])
    else if |c.id| < ShortIdLength then Err(ArgumentError(ShortIdMessage))
    else Ok(c.id[..ShortIdLength])
  }

  /**
   * `ToContainerRef`. The name is normalised, null labels become empty,
   * a null state becomes "". Label keys equal up to case make the dictionary
   * constructor throw.
   */
  function ToContainerRef(c: ListedContainer): (r: Result<ContainerRef>)
    ensures r.Err? <==> DisplayName(c).Err? || (c.labels.Some? && KeysCollide(c.labels.value))
    ensures r.Ok? ==>
      r.value.id == c.id && r.value.image == c.image && r.value.imageId == c.imageId
      && r.value.name == NormalizeContainerName(Some(DisplayName(c).value))
      && r.value.state == c.state.GetOr("")
      && (c.labels.None? ==> r.value.labels == map[])
  {
    match DisplayName(c)
    case Err(e) => Err(e)
    case Ok(name) =>
      if c.labels.Some? && KeysCollide(c.labels.value) then Err(ArgumentError(DuplicateLabelMessage))
      else
        var labels := if c.labels.None? then map[] else FoldLabels(c.labels.value);
        Ok(ContainerRef(c.id, NormalizeContainerName(Some(name)), c.image, c.imageId, labels, c.state.GetOr("")))
  }

  /** A label is found under its key in any letter case. */
  lemma LabelsIgnoreCase(c: ListedContainer, key: string, spelled: string)
    requires ToContainerRef(c).Ok? && c.labels.Some? && key in c.labels.value
    requires EqualsIgnoreCase(key, spelled)
    ensures ToLower(spelled) in ToContainerRef(c).value.labels
    ensures ToContainerRef(c).value.labels[ToLower(spelled)] == c.labels.value[key]
  {
  }

  // ------------------------------------------------------------ one container

  function FailedResult(ref: ContainerRef, e: Error): (r: ContainerUpdateResult)
    ensures r.state == Failed && r.error == Some(e.message)
  {
    ContainerUpdateResult(ref.name, ref.image, Failed, Some(e.message))
  }

  /** The pull request for a reference: its repository and tag, with the given credentials. */
  function PullWith(d: Daemon, imageName: string, credentials: Option<AuthConfig>): (Daemon, Result<()>) {
    var image := ImageReference.Parse(imageName);
    PullStep(d, image.repository, image.tag, credentials)
  }

  /** `PullImageAsync`: pull with the credentials resolved for the reference. */
  function PullImageStep(d: Daemon, auth: RegistryAuth.AuthSource, imageName: string): (Daemon, Result<()>) {
    PullWith(d, imageName, RegistryAuth.Resolve(auth, imageName))
  }

  /** `TryDeleteImageAsync`: a non-forced delete whose failure is ignored. */
  function TryDeleteImageStep(d: Daemon, imageId: string): (d': Daemon)
    ensures d'.log == d.log + [DeleteImageCall(imageId, false)] && d'.containers == d.containers
  {
    DeleteImageStep(d, imageId, false).0
  }

  /** After the image id changed: delegate to a helper, or recreate and optionally clean up. */
  function ReplaceStep(d: Daemon, k: Collaborators, ref: ContainerRef, imageBefore: string)
    : (r: (Daemon, ContainerUpdateResult))
    ensures r.1.name == ref.name && r.1.imageName == ref.image
    ensures r.1.state == Updated || r.1.state == Failed
  {
    if k.selfUpdate && SelfUpdate.IsSelf(k.ownId, ref.id) then
      var (d1, launched) := SelfUpdate.LaunchStep(d, ref.id, ref.image, k.guids(|d.log|), k.options, k.formatFraction);
      if launched.Err? then (d1, FailedResult(ref, launched.error))
      else (d1, ContainerUpdateResult(ref.name, ref.image, Updated, Some(DelegatedMessage)))
    else
      var (d1, err) := ContainerRecreator.RecreateStep(d, ref.id, ref.image, k.options.stopTimeout, k.options.reviveStopped);
      if err.Some? then (d1, FailedResult(ref, err.value))
      else
        var d2 := if k.options.cleanup then TryDeleteImageStep(d1, imageBefore) else d1;
        (d2, Outcome(ref.name, ref.image, Updated))
  }

  /** The inspect, pull and inspect that open the `try` block: the image ids before and after the pull. */
  function ImageCheck(d: Daemon, imageName: string, credentials: Option<AuthConfig>)
    : (r: (Daemon, Result<(string, string)>))
    ensures r.0.containers == d.containers
  {
    var (d1, before) := InspectImageStep(d, imageName);
    if before.Err? then (d1, Err(before.error))
    else
      var (d2, pulled) := PullWith(d1, imageName, credentials);
      if pulled.Err? then (d2, Err(pulled.error))
      else
        var (d3, after) := InspectImageStep(d2, imageName);
        if after.Err? then (d3, Err(after.error)) else (d3, Ok((before.value, after.value)))
  }

  /** The `try` block for one admitted container. */
  function UpdateStep(d: Daemon, k: Collaborators, ref: ContainerRef): (r: (Daemon, ContainerUpdateResult))
    ensures r.1.name == ref.name && r.1.imageName == ref.image
    ensures r.1.state != Skipped
    ensures var check := ImageCheck(d, ref.image, RegistryAuth.Resolve(k.auth, ref.image));
      r.1.state == Fresh <==> check.1.Ok? && EqualsIgnoreCase(check.1.value.0, check.1.value.1)
    ensures r.1.state == Fresh ==>
      r.0 == ImageCheck(d, ref.image, RegistryAuth.Resolve(k.auth, ref.image)).0 && r.1.error.None?
  {
    var (d1, ids) := ImageCheck(d, ref.image, RegistryAuth.Resolve(k.auth, ref.image));
    if ids.Err? then (d1, FailedResult(ref, ids.error))
    else if EqualsIgnoreCase(ids.value.0, ids.value.1) then (d1, Outcome(ref.name, ref.image, Fresh))
    else ReplaceStep(d1, k, ref, ids.value.0)
  }

  /** One iteration of the session loop; an error here escapes the session. */
  function ContainerStep(d: Daemon, k: Collaborators, c: ListedContainer): (r: (Daemon, Result<ContainerUpdateResult>))
    ensures r.1.Err? <==> ToContainerRef(c).Err?
    ensures r.1.Ok? ==> r.1.value.name == ToContainerRef(c).value.name && r.1.value.imageName == c.image
  {
    match ToContainerRef(c)
    case Err(e) => (d, Err(e))
    case Ok(ref) =>
      if !ShouldMonitor(k.options, ref) then
        (d, Ok(ContainerUpdateResult(ref.name, ref.image, Skipped, Some(SkippedMessage))))
      else
        var (d1, result) := UpdateStep(d, k, ref);
        (d1, Ok(result))
  }

  /** The session loop over the listed containers, in listing order. */
  function RunAll(d: Daemon, k: Collaborators, cs: seq<ListedContainer>): (Daemon, Result<seq<ContainerUpdateResult>>)
    decreases |cs|
  {
    if cs == [] then (d, Ok([]))
    else
      var (d1, done) := RunAll(d, k, cs[..|cs| - 1]);
      if done.Err? then (d1, done)
      else
        var (d2, result) := ContainerStep(d1, k, cs[|cs| - 1]);
        if result.Err? then (d2, Err(result.error)) else (d2, Ok(done.value + [result.value]))
  }

  /** One more container: the loop so far, then that container's step. */
  lemma RunAllNext(d: Daemon, k: Collaborators, cs: seq<ListedContainer>, i: nat)
    requires i < |cs| && RunAll(d, k, cs[..i]).1.Ok?
    ensures var (d1, done) := RunAll(d, k, cs[..i]);
      var (d2, result) := ContainerStep(d1, k, cs[i]);
      RunAll(d, k, cs[..i + 1]) == if result.Err? then (d2, Err(result.error)) else (d2, Ok(done.value + [result.value]))
  {
    PrefixOfPrefix(cs, i);
  }

  lemma PrefixOfPrefix<T>(s: seq<T>, i: nat)
    requires i < |s|
    ensures s[..i + 1][..i] == s[..i] && s[..i + 1][i] == s[i] && |s[..i + 1]| == i + 1
  {
  }

  /** An error ends the loop: the containers after it are never visited. */
  lemma {:induction false} RunAllStopsAtError(d: Daemon, k: Collaborators, cs: seq<ListedContainer>, n: nat)
    requires n <= |cs| && RunAll(d, k, cs[..n]).1.Err?
    ensures RunAll(d, k, cs) == RunAll(d, k, cs[..n])
    decreases |cs|
  {
    if n < |cs| {
      assert cs[..|cs| - 1][..n] == cs[..n];
      RunAllStopsAtError(d, k, cs[..|cs| - 1], n);
    } else {
      assert cs[..n] == cs;
    }
  }

  /** `RunSessionAsync` without the notification: list, then the loop. */
  function SessionStep(d: Daemon, k: Collaborators, startedAt: int, finishedAt: int)
    : (Daemon, Result<UpdateSessionResult>)
  {
    var (d1, listed) := ListStep(d, k.options.includeStopped);
    if listed.Err? then (d1, Err(listed.error))
    else
      var (d2, results) := RunAll(d1, k, listed.value);
      if results.Err? then (d2, Err(results.error))
      else (d2, Ok(UpdateSessionResult(startedAt, finishedAt, results.value)))
  }

  // -------------------------------------------------------------- properties

  /** The enable label is lower case, so folding keeps it. */
  lemma EnableLabelIsFolded()
    ensures ToLower(EnableLabel) == EnableLabel
  {
    forall i | 0 <= i < |EnableLabel|
      ensures LowerChar(EnableLabel[i]) == EnableLabel[i]
    {
      assert !('A' <= EnableLabel[i] <= 'Z');
    }
  }

  /**
   * The enable label is honoured whatever the case of its key: the policy
   * sees the value stored under any spelling of it.
   */
  lemma EnableLabelAnyCase(c: ListedContainer, key: string)
    requires ToContainerRef(c).Ok? && c.labels.Some? && key in c.labels.value
    requires EqualsIgnoreCase(key, EnableLabel)
    ensures LabelEnabled(ToContainerRef(c).value.labels) == TryParseBool(Some(Trim(c.labels.value[key])))
  {
    EnableLabelIsFolded();
    assert ToLower(key) == EnableLabel;
  }

  /** The three image requests that open the update of an admitted container. */
  function ImageCalls(imageName: string, credentials: Option<AuthConfig>): seq<Call> {
    var image := ImageReference.Parse(imageName);
    [InspectImageCall(imageName), PullCall(image.repository, image.tag, credentials), InspectImageCall(imageName)]
  }

  /** No failure is injected at the `n` log positions from `|d.log|` on. */
  predicate NoFaults(d: Daemon, n: nat) {
    forall j | |d.log| <= j < |d.log| + n :: j !in d.faults
  }

  /** An image inspect only appends its request. */
  lemma InspectImageKeeps(d: Daemon, imageName: string)
    ensures var d' := InspectImageStep(d, imageName).0;
      d'.faults == d.faults && d'.images == d.images && d'.upstream == d.upstream && |d'.log| == |d.log| + 1
  {
  }

  /** A pull fetches what the registry offers under the reference's image key, and nothing else changes. */
  lemma PullKeeps(d: Daemon, imageName: string, credentials: Option<AuthConfig>)
    ensures var key := ImageKey(imageName);
      var (d', pulled) := PullWith(d, imageName, credentials);
      d'.faults == d.faults && d'.upstream == d.upstream && |d'.log| == |d.log| + 1
      && (pulled.Ok? <==> |d.log| !in d.faults && key in d.upstream)
      && (pulled.Ok? ==> d'.images == d.images[key := d.upstream[key]])
  {
    var image := ImageReference.Parse(imageName);
    assert ImageKey(imageName) == image.repository + ":" + image.tag;
  }

  /** Three appends in a row, seen from the start. */
  lemma Appended<T>(log: seq<T>, a: T, b: T, c: T, l1: seq<T>, l2: seq<T>, l3: seq<T>)
    requires l1 == log + [a] && l2 == l1 + [b] && l3 == l2 + [c]
    ensures l2 == log + [a, b] && l3 == log + [a, b, c]
  {
  }

  /**
   * The check issues its three requests in order and stops at the first
   * that fails.
   */
  lemma ImageCheckLog(d: Daemon, imageName: string, credentials: Option<AuthConfig>)
    ensures var (d', ids) := ImageCheck(d, imageName, credentials);
      var calls := ImageCalls(imageName, credentials);
      (ids.Ok? ==> d'.log == d.log + calls)
      && (ids.Err? ==> d'.log == d.log + [calls[0]] || d'.log == d.log + [calls[0], calls[1]]
                       || d'.log == d.log + calls)
  {
    var calls := ImageCalls(imageName, credentials);
    var (d1, before) := InspectImageStep(d, imageName);
    var (d2, pulled) := PullWith(d1, imageName, credentials);
    var (d3, after) := InspectImageStep(d2, imageName);
    Appended(d.log, calls[0], calls[1], calls[2], d1.log, d2.log, d3.log);
    assert calls == [calls[0], calls[1], calls[2]];
    var r := ImageCheck(d, imageName, credentials);
    assert r.0 == d1 || r.0 == d2 || r.0 == d3;
    assert r.1.Ok? ==> r.0 == d3;
  }

  /**
   * The check succeeds exactly when none of its three requests fails and
   * the image is both present locally and offered upstream.
   */
  lemma ImageCheckSucceeds(d: Daemon, imageName: string, credentials: Option<AuthConfig>)
    ensures var key := ImageKey(imageName);
      ImageCheck(d, imageName, credentials).1.Ok? <==> NoFaults(d, 3) && key in d.images && key in d.upstream
  {
    var key := ImageKey(imageName);
    var n := |d.log|;
    var (d1, before) := InspectImageStep(d, imageName);
    var (d2, pulled) := PullWith(d1, imageName, credentials);
    var (d3, after) := InspectImageStep(d2, imageName);
    ImageCheckStages(d, imageName, credentials);
    NoFaultsThree(d);
    InspectImageKeeps(d, imageName);
    PullKeeps(d1, imageName, credentials);
    InspectImageKeeps(d2, imageName);
    assert before.Ok? <==> n !in d.faults && key in d.images;
    assert pulled.Ok? <==> n + 1 !in d.faults && key in d.upstream;
    assert pulled.Ok? ==> (after.Ok? <==> n + 2 !in d.faults);
  }

  /** The check succeeds exactly when each of its three requests does. */
  lemma ImageCheckStages(d: Daemon, imageName: string, credentials: Option<AuthConfig>)
    ensures var (d1, before) := InspectImageStep(d, imageName);
      var (d2, pulled) := PullWith(d1, imageName, credentials);
      var (d3, after) := InspectImageStep(d2, imageName);
      ImageCheck(d, imageName, credentials).1.Ok? <==> before.Ok? && pulled.Ok? && after.Ok?
  {
  }

  /** Three positions free of faults, one by one. */
  lemma NoFaultsThree(d: Daemon)
    ensures var n := |d.log|;
      NoFaults(d, 3) <==> n !in d.faults && n + 1 !in d.faults && n + 2 !in d.faults
  {
    var n := |d.log|;
    if !NoFaults(d, 3) {
      var j :| n <= j < n + 3 && j in d.faults;
      assert j == n || j == n + 1 || j == n + 2;
    }
  }

  /** A successful check reports the local id before the pull and the id the registry offered. */
  lemma ImageCheckIds(d: Daemon, imageName: string, credentials: Option<AuthConfig>)
    requires ImageCheck(d, imageName, credentials).1.Ok?
    ensures var key := ImageKey(imageName);
      ImageCheck(d, imageName, credentials).1.value == (d.images[key], d.upstream[key])
  {
    var (d1, before) := InspectImageStep(d, imageName);
    InspectImageKeeps(d, imageName);
    var (d2, pulled) := PullWith(d1, imageName, credentials);
    PullKeeps(d1, imageName, credentials);
  }

  /**
   * A container is fresh exactly when the check succeeds and the registry
   * offers the id already present, up to case; a fresh container costs the
   * three requests only and changes no container. A changed id always leads
   * to `Updated` or `Failed`.
   */
  lemma FreshIffUpstreamUnchanged(d: Daemon, k: Collaborators, ref: ContainerRef)
    ensures var key := ImageKey(ref.image);
      UpdateStep(d, k, ref).1.state == Fresh <==>
        NoFaults(d, 3) && key in d.images && key in d.upstream && EqualsIgnoreCase(d.images[key], d.upstream[key])
    ensures var (d', r) := UpdateStep(d, k, ref);
      r.state == Fresh ==>
        d'.log == d.log + ImageCalls(ref.image, RegistryAuth.Resolve(k.auth, ref.image))
        && d'.containers == d.containers && r.error.None?
  {
    var credentials := RegistryAuth.Resolve(k.auth, ref.image);
    ImageCheckSucceeds(d, ref.image, credentials);
    if ImageCheck(d, ref.image, credentials).1.Ok? {
      ImageCheckIds(d, ref.image, credentials);
    }
    ImageCheckLog(d, ref.image, credentials);
  }

  /**
   * A failed request of the check fails the container with its message and
   * goes no further: the requests issued are those of the check alone.
   */
  lemma CheckFailureIsRecorded(d: Daemon, k: Collaborators, ref: ContainerRef)
    requires ImageCheck(d, ref.image, RegistryAuth.Resolve(k.auth, ref.image)).1.Err?
    ensures var (d', r) := UpdateStep(d, k, ref);
      var check := ImageCheck(d, ref.image, RegistryAuth.Resolve(k.auth, ref.image));
      r.state == Failed && r.error == Some(check.1.error.message)
      && d'.containers == d.containers && d'.log == check.0.log
  {
  }

  /**
   * The updater's own container is never stopped, removed or recreated by
   * the session: every existing container is left as it was, and a
   * delegation that succeeds issues exactly the inspect, the helper's
   * create and its start.
   */
  lemma SelfUpdateOnlyLaunchesHelper(d: Daemon, k: Collaborators, ref: ContainerRef, imageBefore: string)
    requires k.selfUpdate && SelfUpdate.IsSelf(k.ownId, ref.id)
    ensures var (d', r) := ReplaceStep(d, k, ref, imageBefore);
      forall id | id in d.containers :: id in d'.containers && d'.containers[id] == d.containers[id]
    ensures var (d', r) := ReplaceStep(d, k, ref, imageBefore);
      r.state == Updated ==>
        r.error == Some(DelegatedMessage)
        && ref.id in d.containers
        && |d'.log| == |d.log| + 3
        && d'.log[..|d.log|] == d.log
        && d'.log[|d.log|] == InspectCall(ref.id)
        && d'.log[|d.log| + 1] == CreateCall(SelfUpdate.HelperParams(d.containers[ref.id], ref.image,
                                                                     k.guids(|d.log|), k.options, k.formatFraction))
        && d'.log[|d.log| + 2].StartCall?
  ensures var (d', r) := ReplaceStep(d, k, ref, imageBefore);
    var (dl, l) := SelfUpdate.LaunchStep(d, ref.id, ref.image, k.guids(|d.log|), k.options, k.formatFraction);
    d' == dl && (r.state == Updated <==> l.Ok?) && (l.Err? ==> r.state == Failed && r.error == Some(l.error.message))
  ensures var (d', r) := ReplaceStep(d, k, ref, imageBefore);
    var l := SelfUpdate.LaunchStep(d, ref.id, ref.image, k.guids(|d.log|), k.options, k.formatFraction).1;
    l.Err? && l.error.InvalidOperation? ==>
      r.error == Some(SelfUpdate.StartHelperFailedMessage(SelfUpdate.HelperName(k.guids(|d.log|))))
  {
    SelfUpdate.LaunchCalls(d, ref.id, ref.image, k.guids(|d.log|), k.options, k.formatFraction);
  }

  /**
   * Outside self-update a changed image is recreated; after a successful
   * recreation the old image is deleted exactly when cleanup is on, and the
   * outcome of that delete never changes the `Updated` result.
   */
  lemma CleanupOnlyAfterRecreate(d: Daemon, k: Collaborators, ref: ContainerRef, imageBefore: string)
    requires !(k.selfUpdate && SelfUpdate.IsSelf(k.ownId, ref.id))
    ensures var (d1, err) := ContainerRecreator.RecreateStep(d, ref.id, ref.image, k.options.stopTimeout,
                                                             k.options.reviveStopped);
      var (d', r) := ReplaceStep(d, k, ref, imageBefore);
      (err.Some? ==> d' == d1 && r.state == Failed && r.error == Some(err.value.message))
      && (err.None? ==> r.state == Updated && r.error.None?
                        && d'.log == d1.log + (if k.options.cleanup then [DeleteImageCall(imageBefore, false)] else [])
                        && d'.containers == d1.containers)
  {
  }

  /**
   * For a container that is not this updater, a changed image id leads to a
   * recreation, and after a successful one the image id read before the pull
   * is the one deleted, exactly when cleanup is on.
   */
  lemma ChangedImageCleansUpOldId(d: Daemon, k: Collaborators, ref: ContainerRef)
    requires !(k.selfUpdate && SelfUpdate.IsSelf(k.ownId, ref.id))
    requires var c := ImageCheck(d, ref.image, RegistryAuth.Resolve(k.auth, ref.image));
      c.1.Ok? && !EqualsIgnoreCase(c.1.value.0, c.1.value.1)
    ensures var c := ImageCheck(d, ref.image, RegistryAuth.Resolve(k.auth, ref.image));
      var (d1, err) := ContainerRecreator.RecreateStep(c.0, ref.id, ref.image, k.options.stopTimeout,
                                                       k.options.reviveStopped);
      var (d', r) := UpdateStep(d, k, ref);
      (err.Some? ==> d' == d1 && r.state == Failed && r.error == Some(err.value.message))
      && (err.None? ==> r.state == Updated && r.error.None?
                        && d'.log == d1.log + (if k.options.cleanup
                                               then [DeleteImageCall(d.images[ImageKey(ref.image)], false)]
                                               else []))
  {
    var c := ImageCheck(d, ref.image, RegistryAuth.Resolve(k.auth, ref.image));
    ImageCheckIds(d, ref.image, RegistryAuth.Resolve(k.auth, ref.image));
    CleanupOnlyAfterRecreate(c.0, k, ref, c.1.value.0);
  }

  /**
   * For this updater's own container under self-update, a changed image id
   * leads to the helper launch: the outcome is Updated exactly when the launch
   * succeeds, and a failed launch is reported with its error message.
   */
  lemma ChangedSelfImageLaunchesHelper(d: Daemon, k: Collaborators, ref: ContainerRef)
    requires k.selfUpdate && SelfUpdate.IsSelf(k.ownId, ref.id)
    requires var c := ImageCheck(d, ref.image, RegistryAuth.Resolve(k.auth, ref.image));
      c.1.Ok? && !EqualsIgnoreCase(c.1.value.0, c.1.value.1)
    ensures var d1 := ImageCheck(d, ref.image, RegistryAuth.Resolve(k.auth, ref.image)).0;
      var (dl, l) := SelfUpdate.LaunchStep(d1, ref.id, ref.image, k.guids(|d1.log|), k.options, k.formatFraction);
      var (d', r) := UpdateStep(d, k, ref);
      d' == dl && (r.state == Updated <==> l.Ok?)
      && (l.Ok? ==> r.error == Some(DelegatedMessage))
      && (l.Err? ==> r.state == Failed && r.error == Some(l.error.message))
  {
    var c := ImageCheck(d, ref.image, RegistryAuth.Resolve(k.auth, ref.image));
    SelfUpdateOnlyLaunchesHelper(c.0, k, ref, c.1.value.0);
  }

  /** A skipped container costs no request, and only the selection policy skips. */
  lemma SkipIffNotMonitored(d: Daemon, k: Collaborators, c: ListedContainer)
    requires ToContainerRef(c).Ok?
    ensures var (d', r) := ContainerStep(d, k, c);
      r.Ok? && (r.value.state == Skipped <==> !ShouldMonitor(k.options, ToContainerRef(c).value))
    ensures var (d', r) := ContainerStep(d, k, c);
      r.value.state == Skipped ==> d' == d && r.value.error == Some(SkippedMessage)
  {
  }

  /** Every container of `cs` can be snapshotted. */
  predicate AllSnapshot(cs: seq<ListedContainer>) {
    forall i | 0 <= i < |cs| :: ToContainerRef(cs[i]).Ok?
  }

  lemma AllSnapshotSnoc(cs: seq<ListedContainer>)
    requires cs != []
    ensures AllSnapshot(cs) <==> AllSnapshot(cs[..|cs| - 1]) && ToContainerRef(cs[|cs| - 1]).Ok?
  {
    var init := cs[..|cs| - 1];
    if AllSnapshot(init) && ToContainerRef(cs[|cs| - 1]).Ok? {
      forall i | 0 <= i < |cs| ensures ToContainerRef(cs[i]).Ok? {
        if i < |init| {
          assert cs[i] == init[i];
        }
      }
    }
    if AllSnapshot(cs) {
      forall i | 0 <= i < |init| ensures ToContainerRef(init[i]).Ok? {
        assert cs[i] == init[i];
      }
    }
  }

  /**
   * The loop completes exactly when every container can be snapshotted,
   * whatever fails while updating them.
   */
  lemma {:induction false} LoopCompletes(d: Daemon, k: Collaborators, cs: seq<ListedContainer>)
    ensures RunAll(d, k, cs).1.Ok? <==> AllSnapshot(cs)
    decreases |cs|
  {
    if cs != [] {
      var init := cs[..|cs| - 1];
      var last := cs[|cs| - 1];
      LoopCompletes(d, k, init);
      AllSnapshotSnoc(cs);
      var (d1, done) := RunAll(d, k, init);
      if done.Ok? {
        var (d2, result) := ContainerStep(d1, k, last);
        assert result.Err? <==> ToContainerRef(last).Err?;
      }
    }
  }

  lemma SplitLast<T>(s: seq<T>)
    requires s != []
    ensures s[..|s| - 1] + [s[|s| - 1]] == s
  {
  }

  /** `rs` holds one result per container of `cs`, in order, named after it and carrying its image. */
  predicate ResultsMatch(rs: seq<ContainerUpdateResult>, cs: seq<ListedContainer>) {
    |rs| == |cs|
    && forall i | 0 <= i < |cs| ::
         ToContainerRef(cs[i]).Ok? && rs[i].name == ToContainerRef(cs[i]).value.name && rs[i].imageName == cs[i].image
  }

  lemma ResultsMatchSnoc(rs: seq<ContainerUpdateResult>, cs: seq<ListedContainer>, r: ContainerUpdateResult,
                         c: ListedContainer)
    requires ResultsMatch(rs, cs)
    requires ToContainerRef(c).Ok? && r.name == ToContainerRef(c).value.name && r.imageName == c.image
    ensures ResultsMatch(rs + [r], cs + [c])
  {
    var rs', cs' := rs + [r], cs + [c];
    forall i | 0 <= i < |cs'|
      ensures ToContainerRef(cs'[i]).Ok? && rs'[i].name == ToContainerRef(cs'[i]).value.name
              && rs'[i].imageName == cs'[i].image
    {
      if i < |cs| {
        assert cs'[i] == cs[i] && rs'[i] == rs[i];
      }
    }
  }

  /** A completed loop yields one result per container, in listing order. */
  lemma {:induction false} OneResultPerContainer(d: Daemon, k: Collaborators, cs: seq<ListedContainer>)
    requires RunAll(d, k, cs).1.Ok?
    ensures ResultsMatch(RunAll(d, k, cs).1.value, cs)
    decreases |cs|
  {
    if cs != [] {
      var init := cs[..|cs| - 1];
      var last := cs[|cs| - 1];
      var (d1, done) := RunAll(d, k, init);
      OneResultPerContainer(d, k, init);
      assert done.Ok?;
      var (d2, result) := ContainerStep(d1, k, last);
      assert result.Ok?;
      assert result.value.name == ToContainerRef(last).value.name && result.value.imageName == last.image;
      assert RunAll(d, k, cs).1.value == done.value + [result.value];
      ResultsMatchSnoc(done.value, init, result.value, last);
      SplitLast(cs);
    }
  }

  /**
   * A session lists the containers once, with stopped ones exactly when the
   * options include them, and reports one result per listed container with
   * the given clock readings; it fails only when the listing fails or a
   * container cannot be snapshotted.
   */
  lemma SessionSucceedsIff(d: Daemon, k: Collaborators, startedAt: int, finishedAt: int)
    ensures var listed := ListStep(d, k.options.includeStopped).1;
      SessionStep(d, k, startedAt, finishedAt).1.Ok? <==>
        listed.Ok? && AllSnapshot(listed.value)
  {
    var (d1, listed) := ListStep(d, k.options.includeStopped);
    if listed.Ok? {
      LoopCompletes(d1, k, listed.value);
    }
  }

  /** A successful session reports, in listing order, one result per listed container. */
  lemma SessionCoversListing(d: Daemon, k: Collaborators, startedAt: int, finishedAt: int)
    requires SessionStep(d, k, startedAt, finishedAt).1.Ok?
    ensures var listed := ListStep(d, k.options.includeStopped).1;
      var r := SessionStep(d, k, startedAt, finishedAt).1;
      listed.Ok?
      && r.value.startedAt == startedAt && r.value.finishedAt == finishedAt
      && Scanned(r.value) == |listed.value|
      && forall i | 0 <= i < |listed.value| ::
           r.value.results[i].imageName == listed.value[i].image
           && listed.value[i] in d.listing
           && (k.options.includeStopped || listed.value[i].state == Some("running"))
  {
    var (d1, listed) := ListStep(d, k.options.includeStopped);
    var results := RunAll(d1, k, listed.value).1;
    assert listed.Ok? && results.Ok?;
    assert SessionStep(d, k, startedAt, finishedAt).1.value == UpdateSessionResult(startedAt, finishedAt, results.value);
    OneResultPerContainer(d1, k, listed.value);
    assert forall i | 0 <= i < |listed.value| :: listed.value[i] in listed.value;
  }

  // ----------------------------------------------------------------- classes

  /** The notifier as the coordinator sees it: the sessions it has been given. */
  class Notifier {
    var sent: seq<UpdateSessionResult>

    constructor()
      ensures sent == []
    {
      sent := [];
    }

    method NotifySession(session: UpdateSessionResult)
      modifies this
      ensures sent == old(sent) + [session]
    {
      sent := sent + [session];
    }
  }

  class Coordinator {
    const k: Collaborators
    const notifier: Notifier

    constructor(k: Collaborators, notifier: Notifier)
      ensures this.k == k && this.notifier == notifier
    {
      this.k := k;
      this.notifier := notifier;
    }

    /**
     * `RunSessionAsync`. `startedAt` and `finishedAt` are the clock readings
     * taken before the listing and after the loop.
     */
    method RunSession(client: DockerClient, startedAt: int, finishedAt: int) returns (r: Result<UpdateSessionResult>)
      modifies client, notifier
      ensures (client.daemon, r) == SessionStep(old(client.daemon), k, startedAt, finishedAt)
      ensures r.Ok? ==> notifier.sent == old(notifier.sent) + [r.value]
      ensures r.Err? ==> notifier.sent == old(notifier.sent)
    {
      var listed := client.ListContainers(k.options.includeStopped);
      if listed.Err? {
        return Err(listed.error);
      }
      var containers := listed.value;
      ghost var d1 := client.daemon;
      var results: seq<ContainerUpdateResult> := [];
      var i := 0;
      while i < |containers|
        invariant 0 <= i <= |containers|
        invariant (client.daemon, Ok(results)) == RunAll(d1, k, containers[..i])
        invariant notifier.sent == old(notifier.sent)
      {
        RunAllNext(d1, k, containers, i);
        var result := VisitContainer(client, containers[i]);
        if result.Err? {
          RunAllStopsAtError(d1, k, containers, i + 1);
          return Err(result.error);
        }
        results := results + [result.value];
        i := i + 1;
      }
      assert containers[..i] == containers;
      var session := UpdateSessionResult(startedAt, finishedAt, results);
      notifier.NotifySession(session);
      r := Ok(session);
    }

    /** One pass of the loop body: snapshot, selection policy, then the update. */
    method VisitContainer(client: DockerClient, c: ListedContainer) returns (r: Result<ContainerUpdateResult>)
      modifies client
      ensures (client.daemon, r) == ContainerStep(old(client.daemon), k, c)
    {
      var refOrError := ToContainerRef(c);
      if refOrError.Err? {
        return Err(refOrError.error);
      }
      var containerRef := refOrError.value;
      if !ShouldMonitor(k.options, containerRef) {
        return Ok(ContainerUpdateResult(containerRef.name, containerRef.image, Skipped, Some(SkippedMessage)));
      }
      var result := UpdateContainer(client, containerRef);
      r := Ok(result);
    }

    /** The `try` block: any failure becomes a `Failed` result carrying its message. */
    method UpdateContainer(client: DockerClient, containerRef: ContainerRef) returns (result: ContainerUpdateResult)
      modifies client
      ensures (client.daemon, result) == UpdateStep(old(client.daemon), k, containerRef)
    {
      var imageBefore := client.InspectImage(containerRef.image);
      if imageBefore.Err? {
        return FailedResult(containerRef, imageBefore.error);
      }
      var pulled := PullImage(client, containerRef.image);
      if pulled.Err? {
        return FailedResult(containerRef, pulled.error);
      }
      var imageAfter := client.InspectImage(containerRef.image);
      if imageAfter.Err? {
        return FailedResult(containerRef, imageAfter.error);
      }
      if EqualsIgnoreCase(imageBefore.value, imageAfter.value) {
        return Outcome(containerRef.name, containerRef.image, Fresh);
      }
      if k.selfUpdate && SelfUpdate.IsSelf(k.ownId, containerRef.id) {
        var guid := k.guids(|client.daemon.log|);
        var launched := SelfUpdate.LaunchHelper(client, containerRef.id, containerRef.image, guid, k.options,
                                                k.formatFraction);
        if launched.Err? {
          return FailedResult(containerRef, launched.error);
        }
        return ContainerUpdateResult(containerRef.name, containerRef.image, Updated, Some(DelegatedMessage));
      }
      var err := ContainerRecreator.Recreate(client, containerRef.id, containerRef.image, k.options.stopTimeout,
                                             k.options.reviveStopped);
      if err.Some? {
        return FailedResult(containerRef, err.value);
      }
      if k.options.cleanup {
        TryDeleteImage(client, imageBefore.value);
      }
      result := Outcome(containerRef.name, containerRef.image, Updated);
    }

    /** `PullImageAsync`. */
    method PullImage(client: DockerClient, imageName: string) returns (r: Result<()>)
      modifies client
      ensures (client.daemon, r) == PullImageStep(old(client.daemon), k.auth, imageName)
    {
      var image := ImageReference.Parse(imageName);
      var authConfig := RegistryAuth.ResolveForImage(k.auth, imageName);
      r := client.CreateImage(image.repository, image.tag, authConfig);
    }

    /** `TryDeleteImageAsync`: the delete's failure is swallowed. */
    method TryDeleteImage(client: DockerClient, imageId: string)
      modifies client
      ensures client.daemon == TryDeleteImageStep(old(client.daemon), imageId)
    {
      var _ := client.DeleteImage(imageId, false);
    }
  }
}
