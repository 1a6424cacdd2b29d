/**
 * `ContainerUpdateState`, `ContainerUpdateResult` and `UpdateSessionResult`:
 * the outcome of one update session and the counts derived from it.
 */
module UpdateResults {
  import opened Wrappers

  /** The four outcomes, in declaration order. */
  datatype ContainerUpdateState = Fresh | Updated | Skipped | Failed

  /** The enum's `ToString()`: the member's name. */
  function StateName(s: ContainerUpdateState): string {
    match s
    case Fresh => "Fresh"
    case Updated => "Updated"
    case Skipped => "Skipped"
    case Failed => "Failed"
  }

  datatype ContainerUpdateResult = ContainerUpdateResult(
    name: string,
    imageName: string,
    state: ContainerUpdateState,
    error: Option<string>)

  /** A result built without its optional `Error`, which then stays null. */
  function Outcome(name: string, imageName: string, state: ContainerUpdateState): (r: ContainerUpdateResult)
    ensures r.error.None?
    ensures r.name == name && r.imageName == imageName && r.state == state
  {
    ContainerUpdateResult(name, imageName, state, None)
  }

  /** `StartedAt` and `FinishedAt` are clock readings, as tick counts. */
  datatype UpdateSessionResult = UpdateSessionResult(
    startedAt: int,
    finishedAt: int,
    results: seq<ContainerUpdateResult>)

  /** `Results.Count(r => r.State == state)`. */
  function CountState(rs: seq<ContainerUpdateResult>, state: ContainerUpdateState): (n: nat)
    ensures n <= |rs|
  {
    if rs == [] then 0
    else (if rs[0].state == state then 1 else 0) + CountState(rs[1..], state)
  }

  function Scanned(s: UpdateSessionResult): nat {
    |s.results|
  }

  function UpdatedCount(s: UpdateSessionResult): nat {
    CountState(s.results, Updated)
  }

  function FailedCount(s: UpdateSessionResult): nat {
    CountState(s.results, Failed)
  }

  /** The positions holding a result in `state`. */
  function PositionsIn(rs: seq<ContainerUpdateResult>, state: ContainerUpdateState): set<nat> {
    set i: nat | i < |rs| && rs[i].state == state
  }

  /** The count is the number of positions holding that state. */
  lemma {:induction false} CountStateIsPositions(rs: seq<ContainerUpdateResult>, state: ContainerUpdateState)
    ensures CountState(rs, state) == |PositionsIn(rs, state)|
    decreases |rs|
  {
    if rs != [] {
      var tail := rs[1..];
      CountStateIsPositions(tail, state);
      PositionsOfCons(rs, state);
      ShiftKeepsSize(PositionsIn(tail, state));
    }
  }

  /** The positions in a non-empty sequence: maybe 0, then those of the tail shifted by one. */
  lemma PositionsOfCons(rs: seq<ContainerUpdateResult>, state: ContainerUpdateState)
    requires rs != []
    ensures PositionsIn(rs, state)
            == (if rs[0].state == state then {0} else {}) + set i: nat | i in PositionsIn(rs[1..], state) :: i + 1
  {
    var tail := rs[1..];
    var shifted := set i: nat | i in PositionsIn(tail, state) :: i + 1;
    forall i: nat | i in PositionsIn(rs, state) && i != 0
      ensures i in shifted
    {
      assert i - 1 in PositionsIn(tail, state);
    }
  }

  lemma ShiftKeepsSize(s: set<nat>)
    ensures |set i: nat | i in s :: i + 1| == |s|
  {
    var t := set i: nat | i in s :: i + 1;
    if s != {} {
      var x :| x in s;
      var s' := s - {x};
      ShiftKeepsSize(s');
      var t' := set i: nat | i in s' :: i + 1;
      forall y | y in t ensures y in t' + {x + 1} {
        var i: nat :| i in s && y == i + 1;
        assert i == x || i in s';
      }
      assert t == t' + {x + 1};
      assert x + 1 !in t';
    }
  }

  /** Every result is counted under exactly one of the four states. */
  lemma {:induction false} CountsPartition(rs: seq<ContainerUpdateResult>)
    ensures CountState(rs, Fresh) + CountState(rs, Updated) + CountState(rs, Skipped)
            + CountState(rs, Failed) == |rs|
    decreases |rs|
  {
    if rs != [] {
      CountsPartition(rs[1..]);
    }
  }

  /** `Updated + Failed <= Scanned`: fresh and skipped results count only as scanned. */
  lemma SessionCountsBounded(s: UpdateSessionResult)
    ensures UpdatedCount(s) + FailedCount(s) + CountState(s.results, Fresh)
            + CountState(s.results, Skipped) == Scanned(s)
    ensures UpdatedCount(s) + FailedCount(s) <= Scanned(s)
  {
    CountsPartition(s.results);
  }

  /** Counting distributes over concatenation: results appended one by one add up. */
  lemma {:induction false} CountStateAppend(a: seq<ContainerUpdateResult>, b: seq<ContainerUpdateResult>,
                                            state: ContainerUpdateState)
    ensures CountState(a + b, state) == CountState(a, state) + CountState(b, state)
    decreases |a|
  {
    if a != [] {
      assert (a + b)[0] == a[0];
      assert (a + b)[1..] == a[1..] + b;
      CountStateAppend(a[1..], b, state);
    } else {
      assert a + b == b;
    }
  }

  /** The session [Updated, Fresh, Failed] scans 3, updates 1 and fails 1. */
  lemma ThreeResultCounts(startedAt: int, finishedAt: int)
    ensures var s := UpdateSessionResult(startedAt, finishedAt, [
        Outcome("api", "my/api:latest", Updated),
        Outcome("web", "my/web:latest", Fresh),
        ContainerUpdateResult("db", "postgres:16", Failed, Some("pull failed"))]);
      Scanned(s) == 3 && UpdatedCount(s) == 1 && FailedCount(s) == 1
  {
    var rs := [Outcome("api", "my/api:latest", Updated),
               Outcome("web", "my/web:latest", Fresh),
               ContainerUpdateResult("db", "postgres:16", Failed, Some("pull failed"))];
    assert rs[1..][1..][1..] == [];
  }
}
