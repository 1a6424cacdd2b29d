/**
 * `NotificationComposer.Compose`: the plain-text summary of a session. A
 * title line, a line of counts, then one line per updated or failed
 * container, in result order. `AppendLine` ends every line with the
 * platform's new-line sequence, "\n" on the Linux hosts the updater runs on.
 */
module NotificationComposer {
  import opened Wrappers
  import opened Text
  import opened UpdateResults

  const NewLine: string := "\n"
  const Title: string := "Docker Updater session finished."

  /** The counts line; the counts are never negative, so no culture affects them. */
  function Summary(s: UpdateSessionResult): string {
    "Scanned: " + NatToString(Scanned(s)) + ", Updated: " + NatToString(UpdatedCount(s))
    + ", Failed: " + NatToString(FailedCount(s))
  }

  /** Only updated and failed containers get a line of their own. */
  predicate Reported(r: ContainerUpdateResult) {
    r.state == Updated || r.state == Failed
  }

  /** The error in parentheses, or nothing when it is null or blank. */
  function Detail(error: Option<string>): (d: string)
    ensures d == [] <==> IsNullOrWhiteSpace(error)
    ensures d != [] ==> d == " (" + error.value + ")"
  {
    if IsNullOrWhiteSpace(error) then [] else " (" + error.value + ")"
  }

  function ResultLine(r: ContainerUpdateResult): string {
    "- " + r.name + ": " + StateName(r.state) + Detail(r.error)
  }

  /** The lines the results contribute, in result order. */
  function ReportLines(rs: seq<ContainerUpdateResult>): seq<string> {
    if rs == [] then []
    else (if Reported(rs[0]) then [ResultLine(rs[0])] else []) + ReportLines(rs[1..])
  }

  /** Every line of the message, in order. */
  function Lines(s: UpdateSessionResult): seq<string> {
    [Title, Summary(s)] + ReportLines(s.results)
  }

  /** The text of a `StringBuilder` after `AppendLine` of each line in turn. */
  function Render(lines: seq<string>): string {
    if lines == [] then [] else lines[0] + NewLine + Render(lines[1..])
  }

  // ------------------------------------------------------------- properties

  /** The lines of a concatenation are the lines of its parts, in order. */
  lemma {:induction false} ReportLinesConcat(a: seq<ContainerUpdateResult>, b: seq<ContainerUpdateResult>)
    ensures ReportLines(a + b) == ReportLines(a) + ReportLines(b)
    decreases |a|
  {
    if a == [] {
      assert a + b == b;
    } else {
      assert (a + b)[0] == a[0];
      assert (a + b)[1..] == a[1..] + b;
      ReportLinesConcat(a[1..], b);
    }
  }

  /** One result contributes its own line when updated or failed, and nothing otherwise. */
  lemma ReportLinesSingle(r: ContainerUpdateResult)
    ensures ReportLines([r]) == if Reported(r) then [ResultLine(r)] else []
  {
    assert [r][1..] == [];
  }

  /** A fresh or skipped result adds no line, wherever it stands. */
  lemma UnreportedAddsNoLine(a: seq<ContainerUpdateResult>, r: ContainerUpdateResult,
                             b: seq<ContainerUpdateResult>)
    requires r.state == Fresh || r.state == Skipped
    ensures ReportLines(a + [r] + b) == ReportLines(a) + ReportLines(b)
  {
    ReportLinesConcat(a + [r], b);
    ReportLinesConcat(a, [r]);
    ReportLinesSingle(r);
  }

  /** There is one result line per updated or failed result. */
  lemma {:induction false} ReportLinesCount(rs: seq<ContainerUpdateResult>)
    ensures |ReportLines(rs)| == CountState(rs, Updated) + CountState(rs, Failed)
    decreases |rs|
  {
    if rs != [] {
      ReportLinesCount(rs[1..]);
    }
  }

  /** The message has `2 + Updated + Failed` lines, the title and the counts first. */
  lemma LineCount(s: UpdateSessionResult)
    ensures |Lines(s)| == 2 + UpdatedCount(s) + FailedCount(s)
    ensures Lines(s)[0] == Title && Lines(s)[1] == Summary(s)
  {
    ReportLinesCount(s.results);
  }

  lemma {:induction false} RenderSnoc(lines: seq<string>, line: string)
    ensures Render(lines + [line]) == Render(lines) + line + NewLine
    decreases |lines|
  {
    if lines == [] {
      assert lines + [line] == [line];
      assert [line][1..] == [];
    } else {
      assert (lines + [line])[0] == lines[0];
      assert (lines + [line])[1..] == lines[1..] + [line];
      RenderSnoc(lines[1..], line);
    }
  }

  /** The message built by `AppendLine` calls: the title, the counts, then the result lines. */
  method Compose(session: UpdateSessionResult) returns (text: string)
    ensures text == Render(Lines(session))
  {
    var header := [Title, Summary(session)];
    text := Title + NewLine;
    RenderSnoc([], Title);
    assert [] + [Title] == [Title];
    text := text + Summary(session) + NewLine;
    RenderSnoc([Title], Summary(session));
    assert [Title] + [Summary(session)] == header;
    var rs := session.results;
    var i := 0;
    while i < |rs|
      invariant 0 <= i <= |rs|
      invariant text == Render(header + ReportLines(rs[..i]))
    {
      RenderNext(header, rs, i);
      var r := rs[i];
      if r.state == Updated || r.state == Failed {
        var detail := if IsNullOrWhiteSpace(r.error) then "" else " (" + r.error.value + ")";
        var line := "- " + r.name + ": " + StateName(r.state) + detail;
        assert line == ResultLine(r);
        text := text + line + NewLine;
      }
      i := i + 1;
    }
    assert rs[..i] == rs;
  }

  /** Rendering one more result adds its line when it is reported, and nothing otherwise. */
  lemma RenderNext(header: seq<string>, rs: seq<ContainerUpdateResult>, i: nat)
    requires i < |rs|
    ensures Reported(rs[i]) ==>
              Render(header + ReportLines(rs[..i + 1])) == Render(header + ReportLines(rs[..i])) + ResultLine(rs[i]) + NewLine
    ensures !Reported(rs[i]) ==> Render(header + ReportLines(rs[..i + 1])) == Render(header + ReportLines(rs[..i]))
  {
    var r := rs[i];
    var before := ReportLines(rs[..i]);
    assert rs[..i + 1] == rs[..i] + [r];
    ReportLinesConcat(rs[..i], [r]);
    ReportLinesSingle(r);
    if Reported(r) {
      SnocAssoc(header, before, ResultLine(r));
      RenderSnoc(header + before, ResultLine(r));
    } else {
      assert before + [] == before;
    }
  }

  lemma SnocAssoc<T>(a: seq<T>, b: seq<T>, x: T)
    ensures a + (b + [x]) == (a + b) + [x]
  {
  }

  /**
   * The session of one updated, one fresh and one failed container renders
   * as the title, "Scanned: 3, Updated: 1, Failed: 1", "- api: Updated" and
   * "- db: Failed (pull failed)"; the fresh container gets no line.
   */
  lemma ThreeResultMessage(startedAt: int, finishedAt: int)
    ensures var s := UpdateSessionResult(startedAt, finishedAt, [
        Outcome("api", "my/api:latest", Updated),
        Outcome("web", "my/web:latest", Fresh),
        ContainerUpdateResult("db", "postgres:16", Failed, Some("pull failed"))]);
      Lines(s) == [Title, "Scanned: 3, Updated: 1, Failed: 1", "- api: Updated", "- db: Failed (pull failed)"]
  {
    var api := Outcome("api", "my/api:latest", Updated);
    var web := Outcome("web", "my/web:latest", Fresh);
    var db := ContainerUpdateResult("db", "postgres:16", Failed, Some("pull failed"));
    var s := UpdateSessionResult(startedAt, finishedAt, [api, web, db]);
    ThreeResultCounts(startedAt, finishedAt);
    SummaryDigits(s);
    ThreeLines(api, web, db);
  }

  lemma SummaryDigits(s: UpdateSessionResult)
    requires Scanned(s) == 3 && UpdatedCount(s) == 1 && FailedCount(s) == 1
    ensures Summary(s) == "Scanned: 3, Updated: 1, Failed: 1"
  {
    assert NatToString(3) == "3" && NatToString(1) == "1";
  }

  lemma ThreeLines(api: ContainerUpdateResult, web: ContainerUpdateResult, db: ContainerUpdateResult)
    requires api == Outcome("api", "my/api:latest", Updated)
    requires web == Outcome("web", "my/web:latest", Fresh)
    requires db == ContainerUpdateResult("db", "postgres:16", Failed, Some("pull failed"))
    ensures ReportLines([api, web, db]) == ["- api: Updated", "- db: Failed (pull failed)"]
  {
    ReportedAroundUnreported(api, web, db);
    assert ResultLine(api) == "- api: Updated";
    assert ResultLine(db) == "- db: Failed (pull failed)" by {
      assert !IsWhiteSpace("pull failed"[0]);
    }
  }

  /** Of three results, only the reported first and last get lines. */
  lemma ReportedAroundUnreported(a: ContainerUpdateResult, b: ContainerUpdateResult, c: ContainerUpdateResult)
    requires Reported(a) && !Reported(b) && Reported(c)
    ensures ReportLines([a, b, c]) == [ResultLine(a), ResultLine(c)]
  {
    ReportLinesSingle(c);
    assert [b, c][1..] == [c];
    assert ReportLines([b, c]) == [ResultLine(c)];
    assert [a, b, c][1..] == [b, c];
    assert ReportLines([a, b, c]) == [ResultLine(a)] + [ResultLine(c)];
  }
}
