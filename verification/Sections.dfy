/** Where the clauses of a document start, which lines they hold and under which label they are filed, from the lines to
    the chunks.
  */
module Sections {
  import opened Chunker
  import opened Common
  import opened Text
  import TextSplitter

  // ----- the lines that count -----

  /** The stripped lines, without blank ones and short section headings. */
  function VisibleLines(g: Grammar, lines: seq<string>): seq<string> {
    if lines == [] then []
    else
      var line := Strip(lines[0]);
      (if line == "" || (g.isSection(line) && |line| <= 60) then [] else [line]) + VisibleLines(g, lines[1..])
  }

  /** A line that starts a clause: it opens with a clause label and is short enough. */
  predicate Starts(g: Grammar, line: string) {
    g.clauseLabel(line).Some? && |line| < 120
  }

  /** The label a clause is filed under: its first line's own, or the whole text's before the first label. */
  function LabelOf(g: Grammar, line: string): string {
    if Starts(g, line) then Strip(g.clauseLabel(line).value) else "全文"
  }

  lemma {:induction false} VisibleSnoc(g: Grammar, lines: seq<string>, line: string)
    ensures var s := Strip(line);
      VisibleLines(g, lines + [line])
        == VisibleLines(g, lines) + if s == "" || (g.isSection(s) && |s| <= 60) then [] else [s]
  {
    if lines == [] {
      assert ([] + [line])[1..] == [];
    } else {
      assert (lines + [line])[1..] == lines[1..] + [line];
      VisibleSnoc(g, lines[1..], line);
    }
  }

  lemma {:induction false} BodyLinesAreVisible(g: Grammar, lines: seq<string>)
    ensures BodyLines(g, lines) == VisibleLines(g, lines)
  {
    if lines != [] {
      var init, last := lines[..|lines| - 1], lines[|lines| - 1];
      BodyLinesAreVisible(g, init);
      VisibleSnoc(g, init, last);
      assert lines == init + [last];
    }
  }

  // ----- joining lines -----

  lemma JoinedBySpaces(parts: seq<string>, last: string)
    ensures JoinWithSpace(parts + [last]) == if parts == [] then last else JoinWithSpace(parts) + " " + last
  {
    assert (parts + [last])[..|parts|] == parts;
  }

  lemma {:induction false} JoinIsTrimmed(parts: seq<string>)
    requires parts != [] && forall i :: 0 <= i < |parts| ==> Trimmed(parts[i])
    ensures Trimmed(JoinWithSpace(parts))
  {
    var init, last := parts[..|parts| - 1], parts[|parts| - 1];
    assert parts == init + [last];
    JoinedBySpaces(init, last);
    if init != [] {
      assert forall i :: 0 <= i < |init| ==> init[i] == parts[i];
      JoinIsTrimmed(init);
      var front := JoinWithSpace(init);
      assert (front + " " + last)[0] == front[0];
    }
  }

  // ----- the clauses -----

  ghost predicate Increasing(starts: seq<nat>, n: nat) {
    && (forall k :: 0 <= k < |starts| ==> starts[k] < n)
    && (forall k, l :: 0 <= k < l < |starts| ==> starts[k] < starts[l])
  }

  /** The positions at which a clause starts: the first line, and every line that opens one. */
  ghost predicate StartsAt(g: Grammar, body: seq<string>, starts: seq<nat>) {
    && Increasing(starts, |body|)
    && forall i: nat :: i < |body| ==> (i in starts <==> i == 0 || Starts(g, body[i]))
  }

  /** The lines of clause n: from its start to the next one. */
  function LinesOf(body: seq<string>, starts: seq<nat>, n: nat): seq<string>
    requires n < |starts| && Increasing(starts, |body|)
  {
    body[starts[n]..if n < |starts| - 1 then starts[n + 1] else |body|]
  }

  /** The clause has its start's label and its lines, joined by spaces. */
  ghost predicate ClauseAt(g: Grammar, body: seq<string>, starts: seq<nat>, n: nat, clause: Clause)
    requires n < |starts| && Increasing(starts, |body|)
  {
    clause == Clause(LabelOf(g, body[starts[n]]), JoinWithSpace(LinesOf(body, starts, n)))
  }

  /** One clause per start. */
  ghost predicate Segments(g: Grammar, body: seq<string>, starts: seq<nat>, clauses: seq<Clause>) {
    && StartsAt(g, body, starts) && |clauses| == |starts|
    && forall n :: 0 <= n < |clauses| ==> ClauseAt(g, body, starts, n, clauses[n])
  }

  ghost predicate AllTrimmed(body: seq<string>) {
    forall i :: 0 <= i < |body| ==> Trimmed(body[i])
  }

  lemma {:induction false} VisibleAreTrimmed(g: Grammar, lines: seq<string>)
    ensures AllTrimmed(VisibleLines(g, lines))
  {
    if lines != [] {
      VisibleAreTrimmed(g, lines[1..]);
      StripResult(lines[0]);
    }
  }

  /** While lines are being read: the closed clauses, and the open one that starts at the last start. */
  ghost predicate Reads(g: Grammar, body: seq<string>, starts: seq<nat>, r: Reading) {
    && AllTrimmed(body) && StartsAt(g, body, starts) && (body == [] <==> starts == [])
    && if body == [] then r == Reading("全文", [], [])
       else
         && r.heading == LabelOf(g, body[starts[|starts| - 1]]) && r.buffer == LinesOf(body, starts, |starts| - 1)
         && |r.clauses| == |starts| - 1
         && forall n :: 0 <= n < |r.clauses| ==> ClauseAt(g, body, starts, n, r.clauses[n])
  }

  lemma FlushSegments(g: Grammar, body: seq<string>, starts: seq<nat>, r: Reading)
    requires Reads(g, body, starts, r)
    ensures Segments(g, body, starts, Flush(r))
  {
    if body != [] {
      var last := |starts| - 1;
      assert forall i :: 0 <= i < |r.buffer| ==> r.buffer[i] == body[starts[last] + i];
      JoinIsTrimmed(r.buffer);
      StripResult(JoinWithSpace(r.buffer));
      var clause := Clause(r.heading, JoinWithSpace(r.buffer));
      assert Flush(r) == r.clauses + [clause];
      assert ClauseAt(g, body, starts, last, clause);
    } else {
      assert Strip(JoinWithSpace([])) == "";
    }
  }

  lemma StartsGrow(g: Grammar, body: seq<string>, starts: seq<nat>, line: string, starts': seq<nat>)
    requires StartsAt(g, body, starts)
    requires starts' == if body == [] || Starts(g, line) then starts + [|body|] else starts
    ensures StartsAt(g, body + [line], starts')
  {
    var body' := body + [line];
    forall i: nat | i < |body'| ensures i in starts' <==> i == 0 || Starts(g, body'[i]) {
      if i < |body| {
        assert body'[i] == body[i];
      }
    }
  }

  /** A closed clause stays as it is. */
  lemma ClauseStays(g: Grammar, body: seq<string>, line: string, starts: seq<nat>, starts': seq<nat>, n: nat,
                    clause: Clause)
    requires n < |starts| && Increasing(starts, |body|) && Increasing(starts', |body| + 1)
    requires starts' == starts || starts' == starts + [|body|]
    requires n < |starts| - 1 || starts' != starts
    requires ClauseAt(g, body, starts, n, clause)
    ensures ClauseAt(g, body + [line], starts', n, clause)
  {
    assert LinesOf(body + [line], starts', n) == LinesOf(body, starts, n);
  }

  /** A line that opens a clause closes the one before it. */
  lemma OpeningLine(g: Grammar, body: seq<string>, starts: seq<nat>, r: Reading, line: string)
    requires Reads(g, body, starts, r) && Trimmed(line) && Starts(g, line)
    ensures Reads(g, body + [line], starts + [|body|], Reading(LabelOf(g, line), [line], Flush(r)))
  {
    var starts', body' := starts + [|body|], body + [line];
    FlushSegments(g, body, starts, r);
    StartsGrow(g, body, starts, line, starts');
    forall n | 0 <= n < |starts| ensures ClauseAt(g, body', starts', n, Flush(r)[n]) {
      ClauseStays(g, body, line, starts, starts', n, Flush(r)[n]);
    }
    assert LinesOf(body', starts', |starts|) == [line];
  }

  lemma LastLinesGrow(body: seq<string>, starts: seq<nat>, line: string)
    requires starts != [] && Increasing(starts, |body|) && Increasing(starts, |body| + 1)
    ensures LinesOf(body + [line], starts, |starts| - 1) == LinesOf(body, starts, |starts| - 1) + [line]
  {
  }

  lemma FirstFurtherLine(g: Grammar, r: Reading, line: string)
    requires r == Reading("全文", [], []) && Trimmed(line) && !Starts(g, line)
    ensures Reads(g, [line], [0], r.(buffer := [line]))
  {
    StartsGrow(g, [], [], line, [0]);
    assert [] + [line] == [line];
    assert LinesOf([line], [0], 0) == [line];
  }

  /** Any other line goes to the open clause, which is the whole text's when it is the first. */
  lemma FurtherLine(g: Grammar, body: seq<string>, starts: seq<nat>, r: Reading, line: string)
    requires Reads(g, body, starts, r) && Trimmed(line) && !Starts(g, line)
    ensures Reads(g, body + [line], if body == [] then [0] else starts, r.(buffer := r.buffer + [line]))
  {
    if body == [] {
      FirstFurtherLine(g, r, line);
      assert body + [line] == [line];
    } else {
      var body' := body + [line];
      StartsGrow(g, body, starts, line, starts);
      forall n | 0 <= n < |r.clauses| ensures ClauseAt(g, body', starts, n, r.clauses[n]) {
        ClauseStays(g, body, line, starts, starts, n, r.clauses[n]);
      }
      LastLinesGrow(body, starts, line);
    }
  }

  /** One more line, whatever it is. */
  lemma NextLine(g: Grammar, body: seq<string>, body': seq<string>, starts: seq<nat>, r: Reading, r': Reading,
                 raw: string)
      returns (starts': seq<nat>)
    requires Reads(g, body, starts, r) && r' == ReadLine(g, r, raw)
    requires var s := Strip(raw);
      body' == body + if s == "" || (g.isSection(s) && |s| <= 60) then [] else [s]
    ensures Reads(g, body', starts', r')
  {
    var s := Strip(raw);
    StripResult(raw);
    if s == "" || (g.isSection(s) && |s| <= 60) {
      assert body' == body && r' == r;
      starts' := starts;
    } else if Starts(g, s) {
      assert r' == Reading(LabelOf(g, s), [s], Flush(r));
      OpeningLine(g, body, starts, r, s);
      starts' := starts + [|body|];
    } else {
      assert r' == r.(buffer := r.buffer + [s]);
      FurtherLine(g, body, starts, r, s);
      starts' := if body == [] then [0] else starts;
    }
  }

  lemma {:induction false} ReadingSegments(g: Grammar, lines: seq<string>) returns (starts: seq<nat>)
    ensures Reads(g, VisibleLines(g, lines), starts, ReadLines(g, lines))
  {
    if lines == [] {
      starts := [];
    } else {
      var init, last := lines[..|lines| - 1], lines[|lines| - 1];
      starts := ReadingSegments(g, init);
      VisibleSnoc(g, init, last);
      assert lines == init + [last];
      starts := NextLine(g, VisibleLines(g, init), VisibleLines(g, lines), starts, ReadLines(g, init),
                         ReadLines(g, lines), last);
    }
  }

  /** The clauses of a document: one for each line that opens one, and one for the whole text before the first of them
      if there is any; each holds its lines up to the next, under its first line's label.
    */
  lemma ClausesFollowLabels(g: Grammar, lines: seq<string>) returns (starts: seq<nat>)
    ensures Segments(g, VisibleLines(g, lines), starts, Clauses(g, lines))
  {
    starts := ReadingSegments(g, lines);
    FlushSegments(g, VisibleLines(g, lines), starts, ReadLines(g, lines));
  }

  // ----- from the clauses to the chunks -----

  lemma {:induction false} ParentsFollowClauses(clauses: seq<Clause>, size: nat, p: nat) returns (c: nat)
    requires 0 < size && p < |Parents(clauses, size)|
    ensures c < |clauses| && Parents(clauses, size)[p].heading == clauses[c].heading
    ensures Parents(clauses, size)[p].text in TextSplitter.Split(clauses[c].text, size, 0)
  {
    var n := |clauses| - 1;
    var before := Parents(clauses[..n], size);
    if p < |before| {
      c := ParentsFollowClauses(clauses[..n], size, p);
    } else {
      c := n;
      var own := ParentsOf(clauses[n], size);
      assert Texts(own)[p - |before|] == Parents(clauses, size)[p].text;
    }
  }

  /** Every chunk is a piece of a piece of one clause of the document, and filed under that clause's label. */
  lemma ChunkIsFiled(g: Grammar, lines: seq<string>, size: nat, window: nat, overlap: nat, k: nat)
      returns (starts: seq<nat>, c: nat)
    requires 0 < size && AllEnd(Parents(Clauses(g, lines), size), window, overlap)
    requires k < |Chunks(Parents(Clauses(g, lines), size), window, overlap)|
    ensures Segments(g, VisibleLines(g, lines), starts, Clauses(g, lines)) && c < |starts|
    ensures var chunk := Chunks(Parents(Clauses(g, lines), size), window, overlap)[k];
      && chunk.section == LabelOf(g, VisibleLines(g, lines)[starts[c]])
      && WholeParent(chunk) in TextSplitter.Split(Clauses(g, lines)[c].text, size, 0)
      && TextSplitter.Ends(WholeParent(chunk), window, overlap)
      && chunk.text in TextSplitter.Split(WholeParent(chunk), window, overlap)
  {
    var clauses := Clauses(g, lines);
    var parents := Parents(clauses, size);
    starts := ClausesFollowLabels(g, lines);
    ChunksTraceBack(parents, window, overlap, k);
    var chunk := Chunks(parents, window, overlap)[k];
    c := ParentsFollowClauses(clauses, size, chunk.parentIndex);
    assert ClauseAt(g, VisibleLines(g, lines), starts, c, clauses[c]);
  }
}
