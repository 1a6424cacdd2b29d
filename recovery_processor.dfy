/**
 * `RecoveryProcessor`: at start-up, every journal entry left by an
 * interrupted recreation is settled against the runtime and then completed.
 * The branch chain of `RecoverEntryAsync` is the decision function `Decide`;
 * `EntryStep` is the whole per-entry behaviour as a function of the daemon,
 * and the methods of `RecoveryProcessor` are proved to perform exactly it.
 */
module RecoveryProcessor {
  import opened Wrappers
  import opened DockerModels
  import opened Runtime
  import opened RecoveryEntries
  import opened Journal

  // --------------------------------------------------------------- probes

  /** `ContainerExistsAsync`: found is true, not found is false, any other failure propagates. */
  function ExistsStep(d: Daemon, id: string): (r: (Daemon, Result<bool>))
    ensures r.0 == Issue(d, InspectCall(id))
    ensures r.1 == Ok(true) <==> Fault(d).None? && id in d.containers
    ensures r.1 == Ok(false) <==> Fault(d).None? && id !in d.containers
  {
    var (d', res) := InspectStep(d, id);
    match res
    case Ok(_) => (d', Ok(true))
    case Err(ContainerNotFound(_)) => (d', Ok(false))
    case Err(e) => (d', Err(e))
  }

  /**
   * `InspectNewContainerStateAsync`: (exists, running) of the replacement. No
   * id means (false, false) without a call; only not-found counts as absent.
   */
  function NewStateStep(d: Daemon, id: Option<string>): (r: (Daemon, Result<(bool, bool)>))
    ensures id.None? ==> r == (d, Ok((false, false)))
    ensures r.1.Ok? && r.1.value.1 ==> r.1.value.0
    ensures id.Some? ==> r.0 == Issue(d, InspectCall(id.value)) && (r.1.Ok? <==> Fault(d).None?)
    ensures id.Some? && r.1.Ok? ==>
      (r.1.value.0 <==> id.value in d.containers)
      && (r.1.value.1 <==> id.value in d.containers && Running(d.containers[id.value]))
  {
    if id.None? then (d, Ok((false, false)))
    else
      var (d', res) := InspectStep(d, id.value);
      match res
      case Ok(c) => (d', Ok((true, Running(c))))
      case Err(ContainerNotFound(_)) => (d', Ok((false, false)))
      case Err(e) => (d', Err(e))
  }

  /** What the two probes at the start of `RecoverEntryAsync` found. */
  datatype Probe = Probe(backupExists: bool, newExists: bool, newRunning: bool)

  function ProbeStep(d: Daemon, e: RecoveryEntry): (r: (Daemon, Result<Probe>))
    ensures r.1.Ok? ==>
      var p := r.1.value;
      r.0.containers == d.containers
      && r.0.log == d.log + [InspectCall(e.backupContainerId)]
                   + (if e.newContainerId.Some? then [InspectCall(e.newContainerId.value)] else [])
      && (p.backupExists <==> e.backupContainerId in d.containers)
      && (p.newExists <==> e.newContainerId.Some? && e.newContainerId.value in d.containers)
      && (p.newRunning <==> p.newExists && Running(d.containers[e.newContainerId.value]))
  {
    var (d1, b) := ExistsStep(d, e.backupContainerId);
    if b.Err? then (d1, Err(b.error))
    else
      var (d2, n) := NewStateStep(d1, e.newContainerId);
      if n.Err? then (d2, Err(n.error))
      else (d2, Ok(Probe(b.value, n.value.0, n.value.1)))
  }

  // ------------------------------------------------------------- decisions

  datatype Action = CompleteOnly | CleanUp | StartThenCleanUp | RollBack

  /** The branch chain of `RecoverEntryAsync`. */
  function Decide(p: Probe, shouldStart: bool): (a: Action)
    ensures a == CompleteOnly <==> !p.backupExists && !p.newExists
    ensures p.newRunning && (p.backupExists || p.newExists) ==> a == CleanUp
    ensures a == StartThenCleanUp <==> (p.backupExists || p.newExists) && !p.newRunning && p.newExists && shouldStart
    ensures a == RollBack <==> p.backupExists && !p.newExists && !p.newRunning
  {
    if !p.backupExists && !p.newExists then CompleteOnly
    else if p.newRunning then CleanUp
    else if p.newExists then (if shouldStart then StartThenCleanUp else CleanUp)
    else RollBack
  }

  /** `TryStartNewContainerAsync`: true only when the start call reports true. */
  function TryStartStep(d: Daemon, id: string): (r: (Daemon, bool))
    ensures r.0 == StartStep(d, id).0
    ensures r.1 <==> StartStep(d, id).1 == Ok(true)
  {
    var (d', res) := StartStep(d, id);
    (d', res == Ok(true))
  }

  /**
   * `CleanupBackupAsync` up to its `Complete`: a fresh probe of the backup,
   * and a forced removal, volumes kept, when it is found. A failed removal is
   * swallowed; a failed probe propagates (the `Option` is that error).
   */
  function CleanupStep(d: Daemon, e: RecoveryEntry): (r: (Daemon, Option<Error>))
    ensures var found := Fault(d).None? && e.backupContainerId in d.containers;
      r.0.log == d.log + [InspectCall(e.backupContainerId)]
                 + (if found then [RemoveCall(e.backupContainerId, true, false)] else [])
    ensures r.1.None? <==> (Fault(d).None? || e.backupContainerId !in d.containers) && ExistsStep(d, e.backupContainerId).1.Ok?
  {
    var (d1, b) := ExistsStep(d, e.backupContainerId);
    if b.Err? then (d1, Some(b.error))
    else if b.value then (RemoveStep(d1, e.backupContainerId, true, false).0, None)
    else (d1, None)
  }

  /**
   * `RollbackAsync` up to its `Complete`: remove the replacement if it exists,
   * rename the backup back if it exists, and restart it after a successful
   * rename when the original was running. No failure escapes.
   */
  function RollbackStep(d: Daemon, e: RecoveryEntry, backupExists: bool, newExists: bool): (d': Daemon)
  {
    var d1 := if newExists && e.newContainerId.Some?
              then RemoveStep(d, e.newContainerId.value, true, false).0 else d;
    if !backupExists then d1
    else
      var (d2, renamed) := RenameStep(d1, e.backupContainerId, e.containerName);
      if renamed.Ok? && e.wasRunning then StartStep(d2, e.backupContainerId).0 else d2
  }

  /**
   * The effect of one entry: the daemon afterwards, whether `RecordStarted`
   * was called, and the error that escaped `RecoverEntryAsync`, if any. When
   * no error escaped, the entry was completed inside.
   */
  datatype Recovery = Recovery(daemon: Daemon, started: bool, error: Option<Error>)

  function Act(d: Daemon, e: RecoveryEntry, p: Probe): (r: Recovery)
    requires p.newExists ==> e.newContainerId.Some?
  {
    match Decide(p, e.wasRunning || e.reviveStopped)
    case CompleteOnly => Recovery(d, false, None)
    case CleanUp =>
      var (d', err) := CleanupStep(d, e);
      Recovery(d', false, err)
    case StartThenCleanUp =>
      var (d1, started) := TryStartStep(d, e.newContainerId.value);
      if started then
        var (d', err) := CleanupStep(d1, e);
        Recovery(d', true, err)
      else Recovery(RollbackStep(d1, e, p.backupExists, p.newExists), false, None)
    case RollBack => Recovery(RollbackStep(d, e, p.backupExists, p.newExists), false, None)
  }

  /** `RecoverEntryAsync` on one entry. */
  function EntryStep(d: Daemon, e: RecoveryEntry): (r: Recovery)
  {
    var (d2, p) := ProbeStep(d, e);
    if p.Err? then Recovery(d2, false, Some(p.error))
    else Act(d2, e, p.value)
  }

  /** The daemon after every entry of the snapshot, in order, each error caught. */
  function RecoverAll(d: Daemon, es: seq<RecoveryEntry>): Daemon
    decreases |es|
  {
    if es == [] then d else RecoverAll(EntryStep(d, es[0]).daemon, es[1..])
  }

  /** The journal list after one entry: maybe marked started, then completed. */
  function EntriesAfter(es: seq<RecoveryEntry>, name: string, r: Recovery): seq<RecoveryEntry> {
    var m := if r.started then MarkStarted(es, name) else es;
    Without(m, name)
  }

  /**
   * The journal list after `RecoverEntryAsync`: completed when no error
   * escaped, otherwise only marked started if that happened.
   */
  function ListAfter(es: seq<RecoveryEntry>, name: string, r: Recovery): seq<RecoveryEntry> {
    if r.error.None? then EntriesAfter(es, name, r)
    else if r.started then MarkStarted(es, name)
    else es
  }

  /**
   * The journal file after one entry, from file `f` after `n` flushes:
   * `RecordStarted` flushes only a present name, and a recovery that ends
   * without error completes the entry with one more flush.
   */
  function FileAfter(f: JournalFile, ok: nat -> bool, n: nat, es: seq<RecoveryEntry>, name: string,
                     r: Recovery): JournalFile
  {
    var m := if r.started then MarkStarted(es, name) else es;
    var recorded := r.started && FindIndex(es, name).Some?;
    var f1 := if recorded then Flushed(f, ok(n), m) else f;
    var n1 := if recorded then n + 1 else n;
    if r.error.None? then Flushed(f1, ok(n1), Without(m, name)) else f1
  }

  /** The number of flushes after one entry, from `n`. */
  function FlushesAfter(n: nat, es: seq<RecoveryEntry>, name: string, r: Recovery): nat {
    var recorded := r.started && FindIndex(es, name).Some?;
    n + (if recorded then 1 else 0) + (if r.error.None? then 1 else 0)
  }

  /**
   * The journal after one entry: at most two flushes; flushes that all fail
   * leave the file as it was; a completed entry's last flush, if it reached
   * the disk, wrote the list without it; and after an error, completing the
   * entry gives the same list as a completion inside would have.
   */
  lemma AfterEntry(f: JournalFile, ok: nat -> bool, n: nat, es: seq<RecoveryEntry>, name: string, r: Recovery,
                   es': seq<RecoveryEntry>, f': JournalFile, n': nat)
    requires es' == ListAfter(es, name, r)
    requires f' == FileAfter(f, ok, n, es, name, r)
    requires n' == FlushesAfter(n, es, name, r)
    ensures n <= n' <= n + 2
    ensures NoneWritten(ok, n, n') ==> f' == f
    ensures r.error.None? ==> es' == EntriesAfter(es, name, r) && FlushedSince(ok, f, n, es', f', n')
    ensures r.error.Some? ==> Without(es', name) == EntriesAfter(es, name, r)
  {
  }

  /** One more flush, of `es`, after flushes that left the file alone if none reached the disk. */
  lemma FlushOnce(ok: nat -> bool, f0: JournalFile, n0: nat, f: JournalFile, n: nat, es: seq<RecoveryEntry>)
    requires n0 <= n && (NoneWritten(ok, n0, n) ==> f == f0)
    ensures FlushedSince(ok, f0, n0, es, Flushed(f, ok(n), es), n + 1)
  {
    NoneOfRangeSplit(ok, n0, n, n + 1);
  }

  // ---------------------------------------------------- what each branch does

  /** The calls issued after the probes, as a suffix of the log. */
  function After(d: Daemon, d': Daemon): seq<Call>
    requires |d.log| <= |d'.log|
  {
    d'.log[|d.log|..]
  }

  predicate StartsOrRenames(calls: seq<Call>) {
    exists c | c in calls :: c.StartCall? || c.RenameCall?
  }

  /** Neither container found: the entry is only completed, with no further call. */
  lemma NeitherFoundOnlyCompletes(d: Daemon, e: RecoveryEntry, p: Probe)
    requires !p.backupExists && !p.newExists
    ensures Act(d, e, p) == Recovery(d, false, None)
  {
  }

  /**
   * A running replacement: the backup is probed afresh and force-removed if
   * found, nothing is started or renamed, and the entry is completed unless
   * that probe fails.
   */
  lemma RunningReplacementIsKept(d: Daemon, e: RecoveryEntry, p: Probe)
    requires p.newRunning && p.newExists && e.newContainerId.Some?
    ensures var r := Act(d, e, p);
      var found := Fault(d).None? && e.backupContainerId in d.containers;
      !r.started
      && r.daemon.log == d.log + [InspectCall(e.backupContainerId)]
                         + (if found then [RemoveCall(e.backupContainerId, true, false)] else [])
      && !StartsOrRenames(After(d, r.daemon))
  {
    var r := Act(d, e, p);
    var found := Fault(d).None? && e.backupContainerId in d.containers;
    var calls := [InspectCall(e.backupContainerId)]
                 + (if found then [RemoveCall(e.backupContainerId, true, false)] else []);
    assert After(d, r.daemon) == calls;
  }

  /**
   * A stopped replacement of a container that was neither running nor to be
   * revived is kept as it is: only the backup cleanup runs.
   */
  lemma StoppedReplacementNotStarted(d: Daemon, e: RecoveryEntry, p: Probe)
    requires p.newExists && !p.newRunning && e.newContainerId.Some?
    requires !e.wasRunning && !e.reviveStopped
    ensures var r := Act(d, e, p);
      !r.started && (r.daemon, r.error) == CleanupStep(d, e) && !StartsOrRenames(After(d, r.daemon))
  {
    var r := Act(d, e, p);
    var found := Fault(d).None? && e.backupContainerId in d.containers;
    var calls := [InspectCall(e.backupContainerId)]
                 + (if found then [RemoveCall(e.backupContainerId, true, false)] else []);
    assert After(d, r.daemon) == calls;
  }

  /**
   * A stopped replacement that should run is started first; it counts as
   * started (and is recorded so) exactly when the start reports true, and
   * otherwise the entry is rolled back.
   */
  lemma StoppedReplacementStarted(d: Daemon, e: RecoveryEntry, p: Probe)
    requires p.newExists && !p.newRunning && e.newContainerId.Some?
    requires e.wasRunning || e.reviveStopped
    ensures var r := Act(d, e, p);
      var (d1, res) := StartStep(d, e.newContainerId.value);
      d1.log == d.log + [StartCall(e.newContainerId.value)]
      && (r.started <==> res == Ok(true))
      && (r.started ==> (r.daemon, r.error) == CleanupStep(d1, e))
      && (!r.started ==> r == Recovery(RollbackStep(d1, e, p.backupExists, true), false, None))
  {
  }

  /** Only the backup found: the entry is rolled back, with nothing to remove. */
  lemma BackupOnlyRollsBack(d: Daemon, e: RecoveryEntry, p: Probe)
    requires p.backupExists && !p.newExists && !p.newRunning
    ensures var r := Act(d, e, p);
      var (d2, renamed) := RenameStep(d, e.backupContainerId, e.containerName);
      !r.started && r.error.None?
      && r.daemon.log == d.log + [RenameCall(e.backupContainerId, e.containerName)]
                         + (if renamed.Ok? && e.wasRunning then [StartCall(e.backupContainerId)] else [])
  {
  }

  /**
   * The calls of a rollback: the replacement is removed only if it exists and
   * has an id; the backup is renamed back only if it exists; it is restarted
   * only after a successful rename and only when the original was running.
   * No error is reported.
   */
  lemma RollbackCalls(d: Daemon, e: RecoveryEntry, backupExists: bool, newExists: bool)
    ensures var removeNew := newExists && e.newContainerId.Some?;
      var d1 := if removeNew then RemoveStep(d, e.newContainerId.value, true, false).0 else d;
      var renamed := backupExists && RenameStep(d1, e.backupContainerId, e.containerName).1.Ok?;
      RollbackStep(d, e, backupExists, newExists).log
        == d.log
           + (if removeNew then [RemoveCall(e.newContainerId.value, true, false)] else [])
           + (if backupExists then [RenameCall(e.backupContainerId, e.containerName)] else [])
           + (if renamed && e.wasRunning then [StartCall(e.backupContainerId)] else [])
  {
  }

  /** A probe failure escapes the entry before any decision is taken. */
  lemma ProbeFailureEscapes(d: Daemon, e: RecoveryEntry)
    requires ProbeStep(d, e).1.Err?
    ensures EntryStep(d, e) == Recovery(ProbeStep(d, e).0, false, Some(ProbeStep(d, e).1.error))
  {
  }

  // ------------------------------------------- the branches, from the entry

  /**
   * Once both probes succeed, the entry acts on what they found: on the
   * containers as they were before the probes, which the probes leave alone.
   */
  lemma EntryActsOnProbe(d0: Daemon, e: RecoveryEntry)
    requires ProbeStep(d0, e).1.Ok?
    ensures var (d, p) := ProbeStep(d0, e);
      d.containers == d0.containers
      && (p.value.backupExists <==> e.backupContainerId in d0.containers)
      && (p.value.newExists <==> e.newContainerId.Some? && e.newContainerId.value in d0.containers)
      && (p.value.newRunning <==> p.value.newExists && Running(d0.containers[e.newContainerId.value]))
      && EntryStep(d0, e) == Act(d, e, p.value)
  {
  }

  /** Neither the backup nor the replacement exists: the entry is only completed. */
  lemma NeitherFoundAtEntry(d0: Daemon, e: RecoveryEntry)
    requires ProbeStep(d0, e).1.Ok?
    requires e.backupContainerId !in d0.containers
    requires e.newContainerId.None? || e.newContainerId.value !in d0.containers
    ensures EntryStep(d0, e) == Recovery(ProbeStep(d0, e).0, false, None)
  {
    var (d, p) := ProbeStep(d0, e);
    NeitherFoundOnlyCompletes(d, e, p.value);
  }

  /** A running replacement is kept: nothing is started or renamed after the probes. */
  lemma RunningReplacementKeptAtEntry(d0: Daemon, e: RecoveryEntry)
    requires ProbeStep(d0, e).1.Ok?
    requires e.newContainerId.Some? && e.newContainerId.value in d0.containers
    requires Running(d0.containers[e.newContainerId.value])
    ensures var d := ProbeStep(d0, e).0;
      var r := EntryStep(d0, e);
      var found := Fault(d).None? && e.backupContainerId in d0.containers;
      !r.started
      && r.daemon.log == d.log + [InspectCall(e.backupContainerId)]
                         + (if found then [RemoveCall(e.backupContainerId, true, false)] else [])
      && !StartsOrRenames(After(d, r.daemon))
  {
    var (d, p) := ProbeStep(d0, e);
    RunningReplacementIsKept(d, e, p.value);
  }

  /**
   * A stopped replacement is started exactly when its entry asks for it;
   * otherwise only the backup cleanup runs.
   */
  lemma StoppedReplacementAtEntry(d0: Daemon, e: RecoveryEntry)
    requires ProbeStep(d0, e).1.Ok?
    requires e.newContainerId.Some? && e.newContainerId.value in d0.containers
    requires !Running(d0.containers[e.newContainerId.value])
    ensures var d := ProbeStep(d0, e).0;
      var r := EntryStep(d0, e);
      var backupExists := e.backupContainerId in d0.containers;
      var (d1, res) := StartStep(d, e.newContainerId.value);
      (!(e.wasRunning || e.reviveStopped) ==>
         !r.started && (r.daemon, r.error) == CleanupStep(d, e) && !StartsOrRenames(After(d, r.daemon)))
      && (e.wasRunning || e.reviveStopped ==>
            d1.log == d.log + [StartCall(e.newContainerId.value)]
            && (r.started <==> res == Ok(true))
            && (r.started ==> (r.daemon, r.error) == CleanupStep(d1, e))
            && (!r.started ==> r == Recovery(RollbackStep(d1, e, backupExists, true), false, None)))
  {
    var (d, p) := ProbeStep(d0, e);
    if e.wasRunning || e.reviveStopped {
      StoppedReplacementStarted(d, e, p.value);
    } else {
      StoppedReplacementNotStarted(d, e, p.value);
    }
  }

  /** Only the backup exists: it is renamed back, and restarted if the original was running. */
  lemma BackupOnlyAtEntry(d0: Daemon, e: RecoveryEntry)
    requires ProbeStep(d0, e).1.Ok?
    requires e.backupContainerId in d0.containers
    requires e.newContainerId.None? || e.newContainerId.value !in d0.containers
    ensures var d := ProbeStep(d0, e).0;
      var r := EntryStep(d0, e);
      var (d2, renamed) := RenameStep(d, e.backupContainerId, e.containerName);
      !r.started && r.error.None?
      && r.daemon.log == d.log + [RenameCall(e.backupContainerId, e.containerName)]
                         + (if renamed.Ok? && e.wasRunning then [StartCall(e.backupContainerId)] else [])
  {
    var (d, p) := ProbeStep(d0, e);
    BackupOnlyRollsBack(d, e, p.value);
  }

  /** A replacement is only ever started when its entry asks for it and it was stopped. */
  lemma StartOnlyWhenWanted(d: Daemon, e: RecoveryEntry)
    requires EntryStep(d, e).started
    ensures e.wasRunning || e.reviveStopped
    ensures e.newContainerId.Some? && e.newContainerId.value in d.containers
    ensures !Running(d.containers[e.newContainerId.value])
  {
  }

  // ------------------------------------------------------------ the methods

  method ContainerExists(client: DockerClient, id: string) returns (r: Result<bool>)
    modifies client
    ensures (client.daemon, r) == ExistsStep(old(client.daemon), id)
  {
    var res := client.InspectContainer(id);
    match res
    case Ok(_) => r := Ok(true);
    case Err(ContainerNotFound(_)) => r := Ok(false);
    case Err(e) => r := Err(e);
  }

  method InspectNewContainerState(client: DockerClient, id: Option<string>) returns (r: Result<(bool, bool)>)
    modifies client
    ensures (client.daemon, r) == NewStateStep(old(client.daemon), id)
  {
    if id.None? {
      return Ok((false, false));
    }
    var res := client.InspectContainer(id.value);
    match res
    case Ok(c) => r := Ok((true, Running(c)));
    case Err(ContainerNotFound(_)) => r := Ok((false, false));
    case Err(e) => r := Err(e);
  }

  class RecoveryProcessor {
    const journal: RecoveryJournal

    constructor(j: RecoveryJournal)
      ensures journal == j
    {
      journal := j;
    }

    /**
     * Recovers every pending entry. Afterwards the journal is empty, the daemon
     * is the fold of `EntryStep` over the snapshot, and (when there was
     * anything to do) the last flush, if it reached the disk, wrote the empty
     * list; when no flush reached the disk the file is as it was. With an
     * empty journal nothing happens at all.
     */
    method RecoverAsync(client: DockerClient)
      modifies client, journal`entries, journal`file, journal`flushes
      ensures old(journal.entries) == [] ==>
        client.daemon == old(client.daemon) && journal.file == old(journal.file)
        && journal.flushes == old(journal.flushes)
      ensures client.daemon == RecoverAll(old(client.daemon), old(journal.entries))
      ensures journal.entries == []
      ensures old(journal.entries) != [] ==>
        FlushedSince(journal.flushOk, old(journal.file), old(journal.flushes), [], journal.file, journal.flushes)
    {
      var entries := journal.GetPendingEntries();
      if |entries| == 0 {
        return;
      }
      var i := 0;
      while i < |entries|
        invariant 0 <= i <= |entries|
        invariant RecoverAll(old(client.daemon), entries) == RecoverAll(client.daemon, entries[i..])
        invariant NameSet(journal.entries) == NameSet(entries) - NameSet(entries[..i])
        invariant i == 0 ==> journal.file == old(journal.file) && journal.flushes == old(journal.flushes)
        invariant i > 0 ==>
          FlushedSince(journal.flushOk, old(journal.file), old(journal.flushes), journal.entries, journal.file, journal.flushes)
      {
        var e := entries[i];
        ghost var es, f, n := journal.entries, journal.file, journal.flushes;
        label LoopBody:
        RecoverNext(client, e);
        if i > 0 {
          FlushedSinceChain(journal.flushOk, old(journal.file), old(journal.flushes), es, f, n,
                            journal.entries, journal.file, journal.flushes);
        }
        PendingNamesStep(entries, i, es, journal.entries);
        RecoverAllStep(old(client.daemon), entries, i, old@LoopBody(client.daemon), client.daemon);
        i := i + 1;
      }
      assert entries[..i] == entries;
      EmptyNameSet(journal.entries);
    }

    /**
     * One pass of the loop: recover the entry, and complete it anyway when
     * that failed. Either way its name leaves the journal and the last flush
     * is of the list as it now is.
     */
    method RecoverNext(client: DockerClient, e: RecoveryEntry)
      modifies client, journal`entries, journal`file, journal`flushes
      ensures client.daemon == EntryStep(old(client.daemon), e).daemon
      ensures NameSet(journal.entries) == NameSet(old(journal.entries)) - {e.containerName}
      ensures FlushedSince(journal.flushOk, old(journal.file), old(journal.flushes), journal.entries, journal.file, journal.flushes)
    {
      ghost var es := journal.entries;
      ghost var r := EntryStep(client.daemon, e);
      var err := RecoverEntry(client, e);
      AfterEntry(old(journal.file), journal.flushOk, old(journal.flushes), es, e.containerName, r,
                 journal.entries, journal.file, journal.flushes);
      if err.Some? {
        ghost var f, n := journal.file, journal.flushes;
        journal.Complete(e.containerName);
        FlushOnce(journal.flushOk, old(journal.file), old(journal.flushes), f, n, journal.entries);
      }
      StepRemovesName(es, e.containerName, r);
    }

    /** `RecoverEntryAsync`: exactly `EntryStep`, with its journal calls. */
    method RecoverEntry(client: DockerClient, e: RecoveryEntry) returns (err: Option<Error>)
      modifies client, journal`entries, journal`file, journal`flushes
      ensures var r := EntryStep(old(client.daemon), e);
        client.daemon == r.daemon && err == r.error
        && journal.entries == ListAfter(old(journal.entries), e.containerName, r)
        && journal.file == FileAfter(old(journal.file), journal.flushOk, old(journal.flushes), old(journal.entries), e.containerName, r)
        && journal.flushes == FlushesAfter(old(journal.flushes), old(journal.entries), e.containerName, r)
    {
      var b := ContainerExists(client, e.backupContainerId);
      if b.Err? {
        return Some(b.error);
      }
      var n := InspectNewContainerState(client, e.newContainerId);
      if n.Err? {
        return Some(n.error);
      }
      err := RecoverProbed(client, e, Probe(b.value, n.value.0, n.value.1));
    }

    /** The branches of `RecoverEntryAsync` after both probes succeeded: exactly `Act`. */
    method RecoverProbed(client: DockerClient, e: RecoveryEntry, p: Probe) returns (err: Option<Error>)
      requires p.newExists ==> e.newContainerId.Some?
      modifies client, journal`entries, journal`file, journal`flushes
      ensures var r := Act(old(client.daemon), e, p);
        client.daemon == r.daemon && err == r.error
        && journal.entries == ListAfter(old(journal.entries), e.containerName, r)
        && journal.file == FileAfter(old(journal.file), journal.flushOk, old(journal.flushes), old(journal.entries), e.containerName, r)
        && journal.flushes == FlushesAfter(old(journal.flushes), old(journal.entries), e.containerName, r)
    {
      if !p.backupExists && !p.newExists {
        journal.Complete(e.containerName);
        return None;
      }
      if p.newRunning {
        err := CleanupBackup(client, e);
        return;
      }
      if p.newExists {
        var shouldStart := e.wasRunning || e.reviveStopped;
        if shouldStart {
          var started := TryStartNewContainer(client, e);
          if started {
            err := CleanupBackup(client, e);
            return;
          }
        } else {
          err := CleanupBackup(client, e);
          return;
        }
      }
      Rollback(client, e, p.backupExists, p.newExists);
      err := None;
    }

    method TryStartNewContainer(client: DockerClient, e: RecoveryEntry) returns (started: bool)
      requires e.newContainerId.Some?
      modifies client, journal`entries, journal`file, journal`flushes
      ensures (client.daemon, started) == TryStartStep(old(client.daemon), e.newContainerId.value)
      ensures journal.entries == if started then MarkStarted(old(journal.entries), e.containerName)
                                 else old(journal.entries)
      ensures started && FindIndex(old(journal.entries), e.containerName).Some? ==>
        journal.flushes == old(journal.flushes) + 1
        && journal.file == Flushed(old(journal.file), journal.flushOk(old(journal.flushes)), journal.entries)
      ensures !(started && FindIndex(old(journal.entries), e.containerName).Some?) ==>
        journal.flushes == old(journal.flushes) && journal.file == old(journal.file)
    {
      var res := client.StartContainer(e.newContainerId.value);
      started := res == Ok(true);
      if started {
        journal.RecordStarted(e.containerName);
      }
    }

    method CleanupBackup(client: DockerClient, e: RecoveryEntry) returns (err: Option<Error>)
      modifies client, journal`entries, journal`file, journal`flushes
      ensures (client.daemon, err) == CleanupStep(old(client.daemon), e)
      ensures journal.entries == if err.None? then Without(old(journal.entries), e.containerName)
                                 else old(journal.entries)
      ensures err.None? ==>
        journal.flushes == old(journal.flushes) + 1
        && journal.file == Flushed(old(journal.file), journal.flushOk(old(journal.flushes)), journal.entries)
      ensures err.Some? ==> journal.flushes == old(journal.flushes) && journal.file == old(journal.file)
    {
      var backupExists := ContainerExists(client, e.backupContainerId);
      if backupExists.Err? {
        return Some(backupExists.error);
      }
      if backupExists.value {
        var _ := client.RemoveContainer(e.backupContainerId, true, false);
      }
      journal.Complete(e.containerName);
      err := None;
    }

    method Rollback(client: DockerClient, e: RecoveryEntry, backupExists: bool, newExists: bool)
      modifies client, journal`entries, journal`file, journal`flushes
      ensures client.daemon == RollbackStep(old(client.daemon), e, backupExists, newExists)
      ensures journal.entries == Without(old(journal.entries), e.containerName)
      ensures journal.flushes == old(journal.flushes) + 1
      ensures journal.file == Flushed(old(journal.file), journal.flushOk(old(journal.flushes)), journal.entries)
    {
      if newExists && e.newContainerId.Some? {
        var _ := client.RemoveContainer(e.newContainerId.value, true, false);
      }
      if backupExists {
        var renamed := client.RenameContainer(e.backupContainerId, e.containerName);
        if renamed.Ok? && e.wasRunning {
          var _ := client.StartContainer(e.backupContainerId);
        }
      }
      journal.Complete(e.containerName);
    }
  }

  /** One entry, completed inside or after its error, takes its name out of the journal. */
  lemma StepRemovesName(es: seq<RecoveryEntry>, name: string, r: Recovery)
    ensures NameSet(EntriesAfter(es, name, r)) == NameSet(es) - {name}
  {
    var m := if r.started then MarkStarted(es, name) else es;
    NameSetMarkStarted(es, name);
    NameSetWithout(m, name);
  }

  /** None of the flushes numbered `a` to `b - 1` reached the disk. */
  predicate NoneWritten(ok: nat -> bool, a: nat, b: nat) {
    forall k | a <= k < b :: !ok(k)
  }

  /**
   * A journal that was on file `f0` after `n0` flushes and is now on file `f`
   * with list `es` after `n` flushes has flushed since: the last flush, if it
   * reached the disk, wrote `es`, and if none reached the disk the file is
   * still `f0`.
   */
  predicate FlushedSince(ok: nat -> bool, f0: JournalFile, n0: nat, es: seq<RecoveryEntry>, f: JournalFile, n: nat) {
    n0 < n && (ok(n - 1) ==> Load(f) == es) && (NoneWritten(ok, n0, n) ==> f == f0)
  }

  /** Flushing since `n0` and then since `n1` is flushing since `n0`. */
  lemma FlushedSinceChain(ok: nat -> bool, f0: JournalFile, n0: nat, es1: seq<RecoveryEntry>, f1: JournalFile, n1: nat,
                          es2: seq<RecoveryEntry>, f2: JournalFile, n2: nat)
    requires FlushedSince(ok, f0, n0, es1, f1, n1) && FlushedSince(ok, f1, n1, es2, f2, n2)
    ensures FlushedSince(ok, f0, n0, es2, f2, n2)
  {
    NoneOfRangeSplit(ok, n0, n1, n2);
  }

  /** No flush in `[a, c)` reached the disk exactly when none in `[a, b)` and none in `[b, c)` did. */
  lemma NoneOfRangeSplit(ok: nat -> bool, a: nat, b: nat, c: nat)
    requires a <= b <= c
    ensures NoneWritten(ok, a, c) <==> NoneWritten(ok, a, b) && NoneWritten(ok, b, c)
  {
  }

  lemma EmptyNameSet(es: seq<RecoveryEntry>)
    ensures NameSet(es) == {} <==> es == []
  {
    if es != [] {
      assert es[0].containerName in NameSet(es);
    }
  }

  /** The names still pending after the first `i + 1` entries of the snapshot. */
  lemma PendingNamesStep(entries: seq<RecoveryEntry>, i: nat, es: seq<RecoveryEntry>, es': seq<RecoveryEntry>)
    requires i < |entries|
    requires NameSet(es) == NameSet(entries) - NameSet(entries[..i])
    requires NameSet(es') == NameSet(es) - {entries[i].containerName}
    ensures NameSet(es') == NameSet(entries) - NameSet(entries[..i + 1])
  {
    assert entries[..i + 1] == entries[..i] + [entries[i]];
    NameSetSnoc(entries[..i], entries[i]);
  }

  /** The fold over the snapshot, one entry further. */
  lemma RecoverAllStep(d0: Daemon, entries: seq<RecoveryEntry>, i: nat, d: Daemon, d': Daemon)
    requires i < |entries|
    requires RecoverAll(d0, entries) == RecoverAll(d, entries[i..])
    requires d' == EntryStep(d, entries[i]).daemon
    ensures RecoverAll(d0, entries) == RecoverAll(d', entries[i + 1..])
  {
    assert entries[i..][1..] == entries[i + 1..];
  }

  lemma NameSetSnoc(s: seq<RecoveryEntry>, x: RecoveryEntry)
    ensures NameSet(s + [x]) == NameSet(s) + {x.containerName}
  {
    assert forall y | y in s + [x] :: y in s || y == x;
  }
}
