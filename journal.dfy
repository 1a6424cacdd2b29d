/**
 * `RecoveryJournal`: the list of pending recreations, keyed by container name
 * (ordinal comparison), persisted after every change. The file on disk is a
 * `JournalFile` value; whether the n-th flush reaches it is `flushOk(n)`, so
 * the disk may fail some writes and accept later ones.
 */
module Journal {
  import opened Wrappers
  import opened RecoveryEntries

  // ------------------------------------------------- the list operations

  /** `RemoveAll` of the entries named `name`: the rest, in their order. */
  function Without(es: seq<RecoveryEntry>, name: string): (r: seq<RecoveryEntry>)
    ensures |r| <= |es|
    ensures forall x | x in r :: x in es && x.containerName != name
    ensures forall x | x in es && x.containerName != name :: x in r
  {
    if es == [] then []
    else if es[0].containerName == name then Without(es[1..], name)
    else [es[0]] + Without(es[1..], name)
  }

  /** Removal distributes over concatenation: the survivors keep their relative order. */
  lemma {:induction false} WithoutConcat(a: seq<RecoveryEntry>, b: seq<RecoveryEntry>, name: string)
    ensures Without(a + b, name) == Without(a, name) + Without(b, name)
    decreases |a|
  {
    if a == [] {
      assert a + b == b;
    } else {
      assert (a + b)[0] == a[0];
      assert (a + b)[1..] == a[1..] + b;
      WithoutConcat(a[1..], b, name);
    }
  }

  /** A single entry survives removal exactly when its name differs. */
  lemma WithoutSingle(x: RecoveryEntry, name: string)
    ensures Without([x], name) == if x.containerName == name then [] else [x]
  {
    assert [x][1..] == [];
  }

  /** `List.Find`: the position of the first entry named `name`. */
  function FindIndex(es: seq<RecoveryEntry>, name: string): (r: Option<nat>)
    ensures r.Some? ==> r.value < |es| && es[r.value].containerName == name
    ensures r.Some? ==> forall j | 0 <= j < r.value :: es[j].containerName != name
    ensures r.None? <==> forall x | x in es :: x.containerName != name
  {
    if es == [] then None
    else if es[0].containerName == name then Some(0)
    else
      var k := FindIndex(es[1..], name);
      if k.None? then
        assert forall x | x in es :: x == es[0] || x in es[1..];
        None
      else Some(k.value + 1)
  }

  /** `List.Find`: the first entry named `name`, if there is one. */
  function FindEntry(es: seq<RecoveryEntry>, name: string): (r: Option<RecoveryEntry>)
    ensures r.Some? <==> exists x | x in es :: x.containerName == name
    ensures r.Some? ==> exists i | 0 <= i < |es| ::
      es[i] == r.value && es[i].containerName == name && forall j | 0 <= j < i :: es[j].containerName != name
  {
    match FindIndex(es, name)
    case None => None
    case Some(i) => Some(es[i])
  }

  /** `BeginRecreation`: drop the entries of that name, then append the new one. */
  function Begin(es: seq<RecoveryEntry>, e: RecoveryEntry): (r: seq<RecoveryEntry>)
    ensures |r| >= 1 && r[|r| - 1] == e
    ensures forall i | 0 <= i < |r| && r[i].containerName == e.containerName :: i == |r| - 1
    ensures r[..|r| - 1] == Without(es, e.containerName)
  {
    var kept := Without(es, e.containerName);
    assert forall i | 0 <= i < |kept| :: kept[i] in kept;
    assert (kept + [e])[..|kept|] == kept;
    kept + [e]
  }

  /** Removing twice is removing once. */
  lemma {:induction false} WithoutIdempotent(es: seq<RecoveryEntry>, name: string)
    ensures Without(Without(es, name), name) == Without(es, name)
    decreases |es|
  {
    if es != [] {
      WithoutIdempotent(es[1..], name);
      if es[0].containerName != name {
        var rest := Without(es[1..], name);
        assert ([es[0]] + rest)[0] == es[0];
        assert ([es[0]] + rest)[1..] == rest;
      }
    }
  }

  /**
   * Beginning a recreation leaves the other containers' entries as they were,
   * in their order: only the entry for `e`'s name is replaced.
   */
  lemma BeginKeepsOthers(es: seq<RecoveryEntry>, e: RecoveryEntry)
    ensures Without(Begin(es, e), e.containerName) == Without(es, e.containerName)
  {
    var kept := Without(es, e.containerName);
    WithoutConcat(kept, [e], e.containerName);
    WithoutSingle(e, e.containerName);
    WithoutIdempotent(es, e.containerName);
    assert kept + [] == kept;
  }

  /**
   * `RecordCreated`: the first entry of that name gets the new container id
   * and phase `Created`; every other entry, and an absent name, is untouched.
   */
  function MarkCreated(es: seq<RecoveryEntry>, name: string, newContainerId: string): (r: seq<RecoveryEntry>)
    ensures |r| == |es|
    ensures forall j | 0 <= j < |es| :: SameIdentity(r[j], es[j])
    ensures FindIndex(es, name).None? ==> r == es
    ensures FindIndex(es, name).Some? ==>
      var i := FindIndex(es, name).value;
      r[i].newContainerId == Some(newContainerId) && r[i].phase == Created
      && forall j | 0 <= j < |es| && j != i :: r[j] == es[j]
  {
    match FindIndex(es, name)
    case None => es
    case Some(i) => es[i := es[i].(newContainerId := Some(newContainerId), phase := Created)]
  }

  /** `RecordStarted`: only the phase of the first entry of that name changes. */
  function MarkStarted(es: seq<RecoveryEntry>, name: string): (r: seq<RecoveryEntry>)
    ensures |r| == |es|
    ensures forall j | 0 <= j < |es| :: SameIdentity(r[j], es[j])
    ensures FindIndex(es, name).None? ==> r == es
    ensures FindIndex(es, name).Some? ==>
      var i := FindIndex(es, name).value;
      r[i].phase == Started && r[i].newContainerId == es[i].newContainerId
      && forall j | 0 <= j < |es| && j != i :: r[j] == es[j]
  {
    match FindIndex(es, name)
    case None => es
    case Some(i) => es[i := es[i].(phase := Started)]
  }

  // ------------------------------------------------------ name uniqueness

  predicate UniqueNames(es: seq<RecoveryEntry>) {
    forall i, j | 0 <= i < j < |es| :: es[i].containerName != es[j].containerName
  }

  function NameSet(es: seq<RecoveryEntry>): set<string> {
    set x | x in es :: x.containerName
  }

  lemma {:induction false} WithoutKeepsUnique(es: seq<RecoveryEntry>, name: string)
    requires UniqueNames(es)
    ensures UniqueNames(Without(es, name))
    decreases |es|
  {
    if es != [] {
      var rest := Without(es[1..], name);
      WithoutKeepsUnique(es[1..], name);
      if es[0].containerName != name {
        var r := [es[0]] + rest;
        forall i, j | 0 <= i < j < |r| ensures r[i].containerName != r[j].containerName {
          if i == 0 {
            assert r[j] in rest;
            var k :| 0 <= k < |es[1..]| && es[1..][k] == r[j];
            assert es[k + 1] == r[j];
          } else {
            assert r[i] == rest[i - 1] && r[j] == rest[j - 1];
          }
        }
      }
    }
  }

  lemma BeginKeepsUnique(es: seq<RecoveryEntry>, e: RecoveryEntry)
    requires UniqueNames(es)
    ensures UniqueNames(Begin(es, e))
  {
    var kept := Without(es, e.containerName);
    WithoutKeepsUnique(es, e.containerName);
    var r := Begin(es, e);
    assert r == kept + [e];
    forall i, j | 0 <= i < j < |r| ensures r[i].containerName != r[j].containerName {
      if j < |kept| {
        assert r[i] == kept[i] && r[j] == kept[j];
      }
    }
  }

  lemma MarkCreatedKeepsUnique(es: seq<RecoveryEntry>, name: string, id: string)
    requires UniqueNames(es)
    ensures UniqueNames(MarkCreated(es, name, id))
  {
    var r := MarkCreated(es, name, id);
    assert forall i | 0 <= i < |r| :: r[i].containerName == es[i].containerName;
  }

  lemma MarkStartedKeepsUnique(es: seq<RecoveryEntry>, name: string)
    requires UniqueNames(es)
    ensures UniqueNames(MarkStarted(es, name))
  {
    var r := MarkStarted(es, name);
    assert forall i | 0 <= i < |r| :: r[i].containerName == es[i].containerName;
  }

  /** Removing a name takes exactly that name out of the journal's name set. */
  lemma NameSetWithout(es: seq<RecoveryEntry>, name: string)
    ensures NameSet(Without(es, name)) == NameSet(es) - {name}
  {
    var r := Without(es, name);
    forall n | n in NameSet(es) - {name} ensures n in NameSet(r) {
      var x :| x in es && x.containerName == n;
      assert x in r;
    }
  }

  /** Recording a start keeps the set of names. */
  lemma NameSetMarkStarted(es: seq<RecoveryEntry>, name: string)
    ensures NameSet(MarkStarted(es, name)) == NameSet(es)
  {
    var r := MarkStarted(es, name);
    forall n | n in NameSet(es) ensures n in NameSet(r) {
      var x :| x in es && x.containerName == n;
      var k :| 0 <= k < |es| && es[k] == x;
      assert r[k].containerName == n;
    }
    forall n | n in NameSet(r) ensures n in NameSet(es) {
      var x :| x in r && x.containerName == n;
      var k :| 0 <= k < |r| && r[k] == x;
      assert es[k].containerName == n;
    }
  }

  /** After `RecordCreated` the entry found under that name carries the new id. */
  lemma FindAfterMarkCreated(es: seq<RecoveryEntry>, name: string, id: string)
    requires FindEntry(es, name).Some?
    ensures var f := FindEntry(MarkCreated(es, name, id), name);
      f.Some? && f.value == FindEntry(es, name).value.(newContainerId := Some(id), phase := Created)
  {
    var i := FindIndex(es, name).value;
    var r := MarkCreated(es, name, id);
    assert r[i].containerName == name;
    assert forall j | 0 <= j < i :: r[j] == es[j];
    var k := FindIndex(r, name);
    assert k.Some? by { assert r[i] in r; }
    assert k.value == i;
  }

  // ------------------------------------------------------------ the file

  /**
   * The journal file: absent, holding text that does not parse as a list of
   * entries (which includes the JSON literal `null`), or holding the entries
   * of the last successful flush.
   */
  datatype JournalFile = Missing | Unparsable | Written(entries: seq<RecoveryEntry>)

  /** `Load`: a missing or unparsable file starts the journal empty. */
  function Load(f: JournalFile): (es: seq<RecoveryEntry>)
    ensures !f.Written? ==> es == []
  {
    if f.Written? then f.entries else []
  }

  /** The file after a flush of `es`. */
  function Flushed(f: JournalFile, ok: bool, es: seq<RecoveryEntry>): (f': JournalFile)
    ensures ok ==> Load(f') == es
    ensures !ok ==> f' == f
  {
    if ok then Written(es) else f
  }

  class RecoveryJournal {
    var entries: seq<RecoveryEntry>
    var file: JournalFile
    /** Whether the n-th flush of this journal (counting from 0) reaches the disk. */
    const flushOk: nat -> bool
    /** How many flushes have been attempted. */
    var flushes: nat

    /** Opening the journal loads whatever the file holds. */
    constructor(f: JournalFile, flushOk: nat -> bool)
      ensures entries == Load(f) && file == f && this.flushOk == flushOk && flushes == 0
    {
      entries := Load(f);
      file := f;
      this.flushOk := flushOk;
      flushes := 0;
    }

    /** A copy of the list, in stored order. */
    method GetPendingEntries() returns (r: seq<RecoveryEntry>)
      ensures r == entries
    {
      r := entries;
    }

    /** Writes the list to the file; a write that fails leaves the file as it was. */
    method Flush()
      modifies this`file, this`flushes
      ensures flushes == old(flushes) + 1
      ensures file == Flushed(old(file), flushOk(old(flushes)), entries)
    {
      if flushOk(flushes) {
        file := Written(entries);
      }
      flushes := flushes + 1;
    }

    method BeginRecreation(e: RecoveryEntry)
      modifies this`entries, this`file, this`flushes
      ensures entries == Begin(old(entries), e)
      ensures flushes == old(flushes) + 1
      ensures file == Flushed(old(file), flushOk(old(flushes)), entries)
    {
      entries := Without(entries, e.containerName);
      entries := entries + [e];
      Flush();
    }

    method RecordCreated(containerName: string, newContainerId: string)
      modifies this`entries, this`file, this`flushes
      ensures entries == MarkCreated(old(entries), containerName, newContainerId)
      ensures FindIndex(old(entries), containerName).Some? ==>
        flushes == old(flushes) + 1 && file == Flushed(old(file), flushOk(old(flushes)), entries)
      ensures FindIndex(old(entries), containerName).None? ==>
        flushes == old(flushes) && file == old(file)
    {
      var i := FindIndex(entries, containerName);
      if i.Some? {
        entries := entries[i.value := entries[i.value].(newContainerId := Some(newContainerId), phase := Created)];
        Flush();
      }
    }

    method RecordStarted(containerName: string)
      modifies this`entries, this`file, this`flushes
      ensures entries == MarkStarted(old(entries), containerName)
      ensures FindIndex(old(entries), containerName).Some? ==>
        flushes == old(flushes) + 1 && file == Flushed(old(file), flushOk(old(flushes)), entries)
      ensures FindIndex(old(entries), containerName).None? ==>
        flushes == old(flushes) && file == old(file)
    {
      var i := FindIndex(entries, containerName);
      if i.Some? {
        entries := entries[i.value := entries[i.value].(phase := Started)];
        Flush();
      }
    }

    /** Removes every entry of that name; an unknown name still flushes. */
    method Complete(containerName: string)
      modifies this`entries, this`file, this`flushes
      ensures entries == Without(old(entries), containerName)
      ensures flushes == old(flushes) + 1
      ensures file == Flushed(old(file), flushOk(old(flushes)), entries)
    {
      entries := Without(entries, containerName);
      Flush();
    }
  }

  /**
   * Reopening the journal after a successful flush yields the list exactly as
   * it was in memory, every member of every entry included.
   */
  method Reopen(j: RecoveryJournal, e: RecoveryEntry) returns (k: RecoveryJournal)
    requires j.flushOk(j.flushes)
    modifies j
    ensures j.entries == Begin(old(j.entries), e)
    ensures fresh(k) && k.entries == j.entries
  {
    j.BeginRecreation(e);
    k := new RecoveryJournal(j.file, j.flushOk);
  }
}
