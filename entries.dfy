/**
 * `RecoveryPhase` and `RecoveryEntry`: one journal record of an interrupted
 * recreation. Entries are values here; the two members the source lets change
 * after construction (`NewContainerId`, `Phase`) are replaced by the journal.
 */
module RecoveryEntries {
  import opened Wrappers

  /** How far the recreation got, in declaration order. */
  datatype RecoveryPhase = Renamed | Created | Started

  const PhaseOrder: seq<RecoveryPhase> := [Renamed, Created, Started]

  /** The enum's underlying value: its position in the declaration. */
  function Ordinal(p: RecoveryPhase): (n: nat)
    ensures n < |PhaseOrder| && PhaseOrder[n] == p
  {
    match p
    case Renamed => 0
    case Created => 1
    case Started => 2
  }

  /** The phases are exactly the three declared ones, each once. */
  lemma PhasesAreDeclared()
    ensures forall p: RecoveryPhase :: p in PhaseOrder
    ensures forall i, j | 0 <= i < j < |PhaseOrder| :: PhaseOrder[i] != PhaseOrder[j]
  {
    forall p: RecoveryPhase ensures p in PhaseOrder {
      assert PhaseOrder[Ordinal(p)] == p;
    }
  }

  /**
   * A journal record. `timestamp` is `Timestamp` as a tick count; it is set
   * from the clock when the entry is built.
   */
  datatype RecoveryEntry = RecoveryEntry(
    containerName: string,
    imageName: string,
    backupContainerId: string,
    newContainerId: Option<string>,
    wasRunning: bool,
    reviveStopped: bool,
    phase: RecoveryPhase,
    timestamp: int)

  /**
   * An entry built with its required members only: no new container id yet,
   * and the phase is the enum's default, its first member.
   */
  function NewEntry(containerName: string, imageName: string, backupContainerId: string,
                    wasRunning: bool, reviveStopped: bool, now: int): (e: RecoveryEntry)
    ensures e.newContainerId.None? && Ordinal(e.phase) == 0
    ensures e.containerName == containerName && e.imageName == imageName
    ensures e.backupContainerId == backupContainerId
    ensures e.wasRunning == wasRunning && e.reviveStopped == reviveStopped && e.timestamp == now
  {
    RecoveryEntry(containerName, imageName, backupContainerId, None, wasRunning, reviveStopped, Renamed, now)
  }

  /** Two entries agree on every init-only member. */
  predicate SameIdentity(a: RecoveryEntry, b: RecoveryEntry) {
    a.containerName == b.containerName && a.imageName == b.imageName
    && a.backupContainerId == b.backupContainerId && a.wasRunning == b.wasRunning
    && a.reviveStopped == b.reviveStopped && a.timestamp == b.timestamp
  }
}
