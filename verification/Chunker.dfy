/** Two-level chunking: a document's lines become clauses, clauses become parents, parents become chunks. */
module Chunker {
  import opened Common
  import opened SentenceSplitter
  import opened Text
  import opened TextSplitter

  // ----- from a document's lines to its chunks -----

  /** The two heading patterns, as given recognisers. */
  datatype Grammar = Grammar(isSection: string -> bool, clauseLabel: string -> Option<string>)

  datatype Clause = Clause(heading: string, text: string)

  datatype Reading = Reading(heading: string, buffer: seq<string>, clauses: seq<Clause>)

  function JoinWithSpace(parts: seq<string>): string {
    if parts == [] then ""
    else if |parts| == 1 then parts[0]
    else JoinWithSpace(parts[..|parts| - 1]) + " " + parts[|parts| - 1]
  }

  function Flush(r: Reading): seq<Clause> {
    var text := Strip(JoinWithSpace(r.buffer));
    if text != "" then r.clauses + [Clause(r.heading, text)] else r.clauses
  }

  predicate IsHeading(g: Grammar, stripped: string) {
    g.isSection(stripped) && |stripped| <= 60
  }

  predicate OpensClause(g: Grammar, stripped: string) {
    g.clauseLabel(stripped).Some? && |stripped| < 120
  }

  function ReadLine(g: Grammar, r: Reading, line: string): Reading {
    var stripped := Strip(line);
    if stripped == "" || IsHeading(g, stripped) then r
    else if OpensClause(g, stripped) then
      Reading(Strip(g.clauseLabel(stripped).value), [stripped], Flush(r))
    else r.(buffer := r.buffer + [stripped])
  }

  function ReadLines(g: Grammar, lines: seq<string>): Reading {
    if lines == [] then Reading("全文", [], [])
    else ReadLine(g, ReadLines(g, lines[..|lines| - 1]), lines[|lines| - 1])
  }

  function Clauses(g: Grammar, lines: seq<string>): seq<Clause> {
    Flush(ReadLines(g, lines))
  }

  /** The lines that are not section headings, stripped. */
  function BodyLines(g: Grammar, lines: seq<string>): seq<string> {
    if lines == [] then [] else
    var stripped := Strip(lines[|lines| - 1]);
    BodyLines(g, lines[..|lines| - 1]) + if stripped == "" || IsHeading(g, stripped) then [] else [stripped]
  }

  function Texts(clauses: seq<Clause>): (r: seq<string>)
    ensures |r| == |clauses|
  {
    seq(|clauses|, i requires 0 <= i < |clauses| => clauses[i].text)
  }

  lemma TextsAppend(a: seq<Clause>, b: seq<Clause>)
    ensures Texts(a + b) == Texts(a) + Texts(b)
  {
  }

  lemma SpaceAddsNoInk(s: string)
    ensures Ink(s + " ") == Ink(s)
  {
    var spaced := s + " ";
    assert spaced[..|s|] == s && IsSpace(spaced[|s|]);
  }

  lemma {:induction false} JoinWithSpaceInk(parts: seq<string>)
    ensures Ink(JoinWithSpace(parts)) == Ink(Concat(parts))
  {
    if |parts| == 1 {
      assert parts == [parts[0]];
      ConcatOne(parts[0]);
    } else if parts != [] {
      var init, last := parts[..|parts| - 1], parts[|parts| - 1];
      JoinWithSpaceInk(init);
      InkAppend(JoinWithSpace(init) + " ", last);
      SpaceAddsNoInk(JoinWithSpace(init));
      InkAppend(Concat(init), last);
    }
  }

  lemma FlushInk(r: Reading)
    ensures Ink(Concat(Texts(Flush(r)))) == Ink(Concat(Texts(r.clauses))) + Ink(Concat(r.buffer))
  {
    var text := Strip(JoinWithSpace(r.buffer));
    JoinWithSpaceInk(r.buffer);
    InkStrip(JoinWithSpace(r.buffer));
    if text == "" {
      assert Ink(text) == "";
    } else {
      TextsAppend(r.clauses, [Clause(r.heading, text)]);
      assert Flush(r) == r.clauses + [Clause(r.heading, text)];
      ConcatSnoc(Texts(r.clauses), text);
      InkAppend(Concat(Texts(r.clauses)), text);
    }
  }

  lemma ReadLineInk(g: Grammar, r: Reading, line: string, kept: string)
    requires kept == Ink(Concat(Texts(r.clauses))) + Ink(Concat(r.buffer))
    ensures var r', stripped := ReadLine(g, r, line), Strip(line);
      Ink(Concat(Texts(r'.clauses))) + Ink(Concat(r'.buffer))
        == if stripped == "" || IsHeading(g, stripped) then kept else kept + Ink(stripped)
  {
    var stripped := Strip(line);
    if stripped != "" && !IsHeading(g, stripped) {
      if OpensClause(g, stripped) {
        FlushInk(r);
        ConcatOne(stripped);
      } else {
        ConcatSnoc(r.buffer, stripped);
        InkAppend(Concat(r.buffer), stripped);
        Associative(Ink(Concat(Texts(r.clauses))), Ink(Concat(r.buffer)), Ink(stripped));
      }
    }
  }

  lemma {:induction false} ReadLinesInk(g: Grammar, lines: seq<string>)
    ensures var r := ReadLines(g, lines);
      Ink(Concat(BodyLines(g, lines))) == Ink(Concat(Texts(r.clauses))) + Ink(Concat(r.buffer))
  {
    if lines != [] {
      var init, stripped := lines[..|lines| - 1], Strip(lines[|lines| - 1]);
      ReadLinesInk(g, init);
      ReadLineInk(g, ReadLines(g, init), lines[|lines| - 1], Ink(Concat(BodyLines(g, init))));
      if stripped == "" || IsHeading(g, stripped) {
        assert BodyLines(g, lines) == BodyLines(g, init);
      } else {
        ConcatSnoc(BodyLines(g, init), stripped);
        InkAppend(Concat(BodyLines(g, init)), stripped);
      }
    }
  }

  /** Cutting a document into clauses keeps every visible character of its body lines, in order. */
  lemma ClausesKeepInk(g: Grammar, lines: seq<string>)
    ensures Ink(Concat(Texts(Clauses(g, lines)))) == Ink(Concat(BodyLines(g, lines)))
  {
    ReadLinesInk(g, lines);
    FlushInk(ReadLines(g, lines));
  }

  /** The parents of one clause: its overlap-free pieces. */
  function ParentsOf(clause: Clause, size: nat): (r: seq<Clause>)
    requires 0 < size
    ensures Texts(r) == Split(clause.text, size, 0)
  {
    var pieces := Split(clause.text, size, 0);
    seq(|pieces|, i requires 0 <= i < |pieces| => Clause(clause.heading, pieces[i]))
  }

  function Parents(clauses: seq<Clause>, size: nat): seq<Clause>
    requires 0 < size
  {
    if clauses == [] then [] else Parents(clauses[..|clauses| - 1], size) + ParentsOf(clauses[|clauses| - 1], size)
  }

  function KeptInkOfAll(clauses: seq<Clause>, size: nat): string {
    if clauses == [] then ""
    else KeptInkOfAll(clauses[..|clauses| - 1], size) + KeptInk(clauses[|clauses| - 1].text, size)
  }

  /** The parents of a document partition its clauses, a split clause losing only the enders it opens with. */
  lemma {:induction false} ParentsPartitionClauses(clauses: seq<Clause>, size: nat)
    requires 0 < size
    ensures Ink(Concat(Texts(Parents(clauses, size)))) == KeptInkOfAll(clauses, size)
  {
    if clauses != [] {
      var init, last := clauses[..|clauses| - 1], clauses[|clauses| - 1];
      ParentsPartitionClauses(init, size);
      var before, pieces := Texts(Parents(init, size)), Split(last.text, size, 0);
      ZeroOverlapPartitions(last.text, size);
      TextsAppend(Parents(init, size), ParentsOf(last, size));
      ConcatAppend(before, pieces);
      InkAppend(Concat(before), Concat(pieces));
    }
  }

  datatype Chunk = Chunk(index: nat, text: string, section: string, parentIndex: nat, parentText: string)

  /** A chunk carries its parent's text only when it is a proper fragment of it. */
  function ChildChunk(index: nat, piece: string, parent: Clause, parentIndex: nat): Chunk {
    Chunk(index, piece, parent.heading, parentIndex, if piece == parent.text then "" else parent.text)
  }

  function NumberedPieces(start: nat, pieces: seq<string>, parent: Clause, parentIndex: nat): (r: seq<Chunk>)
    ensures |r| == |pieces|
  {
    seq(|pieces|, k requires 0 <= k < |pieces| => ChildChunk(start + k, pieces[k], parent, parentIndex))
  }

  function ChildrenOf(start: nat, parent: Clause, parentIndex: nat, window: nat, overlap: nat): (r: seq<Chunk>)
    requires Ends(parent.text, window, overlap)
    ensures |r| == |Split(parent.text, window, overlap)|
  {
    NumberedPieces(start, Split(parent.text, window, overlap), parent, parentIndex)
  }

  /** Splitting each parent into children ends. */
  predicate AllEnd(parents: seq<Clause>, window: nat, overlap: nat) {
    forall p :: 0 <= p < |parents| ==> Ends(parents[p].text, window, overlap)
  }

  function Chunks(parents: seq<Clause>, window: nat, overlap: nat): seq<Chunk>
    requires AllEnd(parents, window, overlap)
  {
    if parents == [] then [] else
    var before, last := Chunks(parents[..|parents| - 1], window, overlap), |parents| - 1;
    before + ChildrenOf(|before|, parents[last], last, window, overlap)
  }

  function WholeParent(c: Chunk): string {
    if c.parentText == "" then c.text else c.parentText
  }

  ghost predicate TracesBack(chunk: Chunk, c: nat, parents: seq<Clause>, window: nat, overlap: nat)
    requires AllEnd(parents, window, overlap)
  {
    && chunk.index == c && chunk.parentIndex < |parents|
    && chunk.section == parents[chunk.parentIndex].heading
    && WholeParent(chunk) == parents[chunk.parentIndex].text
    && chunk.text in Split(parents[chunk.parentIndex].text, window, overlap)
  }

  lemma NumberedPieceAt(start: nat, pieces: seq<string>, parent: Clause, parentIndex: nat, k: nat)
    requires k < |pieces|
    ensures NumberedPieces(start, pieces, parent, parentIndex)[k]
         == ChildChunk(start + k, pieces[k], parent, parentIndex)
  {
  }

  lemma ChildTracesBack(start: nat, parents: seq<Clause>, window: nat, overlap: nat, k: nat)
    requires AllEnd(parents, window, overlap) && parents != []
    requires k < |Split(parents[|parents| - 1].text, window, overlap)|
    ensures TracesBack(ChildrenOf(start, parents[|parents| - 1], |parents| - 1, window, overlap)[k], start + k, parents,
                       window, overlap)
  {
    var parent := parents[|parents| - 1];
    var pieces := Split(parent.text, window, overlap);
    assert pieces[k] in pieces;
    NumberedPieceAt(start, pieces, parent, |parents| - 1, k);
  }

  /** Every chunk is numbered by its position and leads back to the parent it is a piece of. */
  lemma {:induction false} ChunksTraceBack(parents: seq<Clause>, window: nat, overlap: nat, c: nat)
    requires AllEnd(parents, window, overlap) && c < |Chunks(parents, window, overlap)|
    ensures TracesBack(Chunks(parents, window, overlap)[c], c, parents, window, overlap)
  {
    var init := parents[..|parents| - 1];
    var before := Chunks(init, window, overlap);
    if c < |before| {
      ChunksTraceBack(init, window, overlap, c);
      assert init[before[c].parentIndex] == parents[before[c].parentIndex];
    } else {
      ChildTracesBack(|before|, parents, window, overlap, c - |before|);
    }
  }

  // ----- what the chunks of a document hold -----

  /** The visible characters that do not end a sentence, given the visible ones. */
  function Letters(ink: string): string {
    if ink == "" then "" else Letters(ink[..|ink| - 1]) + if IsEnder(ink[|ink| - 1]) then "" else [ink[|ink| - 1]]
  }

  lemma {:induction false} LettersAppend(a: string, b: string)
    ensures Letters(a + b) == Letters(a) + Letters(b)
    decreases |b|
  {
    if b == "" {
      assert a + b == a;
    } else {
      assert (a + b)[..|a + b| - 1] == a + b[..|b| - 1];
      LettersAppend(a, b[..|b| - 1]);
    }
  }

  lemma {:induction false} LettersDropEnders(ink: string)
    ensures Letters(DropEnders(ink)) == Letters(ink)
  {
    if ink != "" && IsEnder(ink[0]) {
      LettersDropEnders(ink[1..]);
      assert ink == [ink[0]] + ink[1..];
      LettersAppend([ink[0]], ink[1..]);
      assert Letters([ink[0]]) == "";
    }
  }

  lemma KeptLettersNext(kept: string, texts: seq<string>, text: string, size: nat)
    requires Letters(kept) == Letters(Ink(Concat(texts)))
    ensures Letters(kept + KeptInk(text, size)) == Letters(Ink(Concat(texts + [text])))
  {
    LettersDropEnders(Ink(text));
    LettersAppend(kept, KeptInk(text, size));
    ConcatSnoc(texts, text);
    InkAppend(Concat(texts), text);
    LettersAppend(Ink(Concat(texts)), Ink(text));
  }

  /** Of a list of clauses a split keeps every letter. */
  lemma {:induction false} KeptLetters(clauses: seq<Clause>, size: nat)
    ensures Letters(KeptInkOfAll(clauses, size)) == Letters(Ink(Concat(Texts(clauses))))
  {
    if clauses != [] {
      var init, last := clauses[..|clauses| - 1], clauses[|clauses| - 1];
      KeptLetters(init, size);
      assert Texts(clauses) == Texts(init) + [last.text];
      KeptLettersNext(KeptInkOfAll(init, size), Texts(init), last.text, size);
    }
  }

  lemma {:induction false} InkIsShorter(s: string)
    ensures |Ink(s)| <= |s|
  {
    if s != "" { InkIsShorter(s[..|s| - 1]); }
  }

  /** A text is at most `overlap` characters carried over, then new text. */
  ghost predicate EndsWithNew(text: string, added: string, overlap: nat) {
    exists carried: string :: Ink(text) == carried + Ink(added) && |carried| <= overlap
  }

  ghost predicate AllEndWithNew(texts: seq<string>, added: seq<string>, overlap: nat) {
    |texts| == |added| && forall i :: 0 <= i < |texts| ==> EndsWithNew(texts[i], added[i], overlap)
  }

  lemma PiecesEndWithNew(chain: seq<string>, added: seq<string>, carry: seq<nat>, overlap: nat)
    requires Chained(chain, added, carry, overlap)
    ensures AllEndWithNew(chain, added, overlap)
  {
    forall i | 0 <= i < |chain| ensures EndsWithNew(chain[i], added[i], overlap) {
      if i == 0 {
        assert Ink(chain[0]) == "" + Ink(added[0]);
      } else {
        assert Link(chain[i - 1], chain[i], added[i], carry[i], overlap);
        InkIsShorter(Last(chain[i - 1], carry[i]));
      }
    }
  }

  function ChunkTexts(chunks: seq<Chunk>): (r: seq<string>)
    ensures |r| == |chunks|
  {
    seq(|chunks|, i requires 0 <= i < |chunks| => chunks[i].text)
  }

  lemma NumberedTexts(start: nat, pieces: seq<string>, parent: Clause, parentIndex: nat)
    ensures ChunkTexts(NumberedPieces(start, pieces, parent, parentIndex)) == pieces
  {
  }

  lemma ChunkTextsAppend(a: seq<Chunk>, b: seq<Chunk>)
    ensures ChunkTexts(a + b) == ChunkTexts(a) + ChunkTexts(b)
  {
  }

  lemma AllEndWithNewAppend(a: seq<string>, b: seq<string>, fa: seq<string>, fb: seq<string>, overlap: nat)
    requires AllEndWithNew(a, fa, overlap) && AllEndWithNew(b, fb, overlap)
    ensures AllEndWithNew(a + b, fa + fb, overlap)
  {
    var texts, added := a + b, fa + fb;
    forall i | 0 <= i < |texts| ensures EndsWithNew(texts[i], added[i], overlap) {
      if i < |a| {
        assert texts[i] == a[i] && added[i] == fa[i];
      } else {
        assert texts[i] == b[i - |a|] && added[i] == fb[i - |a|];
      }
    }
  }

  /** The new parts of the chunks spell what their parents keep. */
  lemma {:induction false} ChunksSpellParents(parents: seq<Clause>, window: nat, overlap: nat)
      returns (added: seq<string>)
    requires overlap < window
    ensures AllEnd(parents, window, overlap)
    ensures AllEndWithNew(ChunkTexts(Chunks(parents, window, overlap)), added, overlap)
    ensures Ink(Concat(added)) == KeptInkOfAll(parents, window)
  {
    if parents == [] {
      added := [];
    } else {
      var init, last := parents[..|parents| - 1], parents[|parents| - 1];
      var before := ChunksSpellParents(init, window, overlap);
      var more, carry := OverlapOnlyRepeats(last.text, window, overlap);
      var chunks, pieces := Chunks(init, window, overlap), Split(last.text, window, overlap);
      PiecesEndWithNew(pieces, more, carry, overlap);
      NumberedTexts(|chunks|, pieces, last, |init|);
      ChunkTextsAppend(chunks, ChildrenOf(|chunks|, last, |init|, window, overlap));
      AllEndWithNewAppend(ChunkTexts(chunks), pieces, before, more, overlap);
      added := before + more;
      ConcatAppend(before, more);
      InkAppend(Concat(before), Concat(more));
    }
  }

  /** From the lines to the chunks: with an overlap below the window, dropping what each chunk carries over leaves every
      visible character of the body lines, in order, sentence enders aside.
    */
  lemma DocumentIsSpelled(g: Grammar, lines: seq<string>, size: nat, window: nat, overlap: nat)
      returns (added: seq<string>)
    requires 0 < size && overlap < window
    ensures var parents := Parents(Clauses(g, lines), size);
      && AllEnd(parents, window, overlap)
      && AllEndWithNew(ChunkTexts(Chunks(parents, window, overlap)), added, overlap)
    ensures Letters(Ink(Concat(added))) == Letters(Ink(Concat(BodyLines(g, lines))))
  {
    var clauses := Clauses(g, lines);
    added := ChunksSpellParents(Parents(clauses, size), window, overlap);
    KeptLetters(Parents(clauses, size), window);
    ParentsPartitionClauses(clauses, size);
    KeptLetters(clauses, size);
    ClausesKeepInk(g, lines);
  }

  method ReadClauses(g: Grammar, paragraphs: seq<string>) returns (clauses: seq<Clause>)
    ensures clauses == Clauses(g, paragraphs)
  {
    clauses := [];
    var heading, buffer := "全文", [];
    for i := 0 to |paragraphs|
      invariant Reading(heading, buffer, clauses) == ReadLines(g, paragraphs[..i])
    {
      assert paragraphs[..i + 1][..i] == paragraphs[..i];
      var stripped := Strip(paragraphs[i]);
      if stripped == "" {
        continue;
      }
      if g.isSection(stripped) && |stripped| <= 60 {
        continue;
      }
      if g.clauseLabel(stripped).Some? && |stripped| < 120 {
        clauses := Flush(Reading(heading, buffer, clauses));
        heading := Strip(g.clauseLabel(stripped).value);
        buffer := [stripped];
        continue;
      }
      buffer := buffer + [stripped];
    }
    assert paragraphs[..|paragraphs|] == paragraphs;
    clauses := Flush(Reading(heading, buffer, clauses));
  }

  lemma SliceNext<T>(s: seq<T>, n: nat)
    requires n < |s|
    ensures s[..n + 1] == s[..n] + [s[n]]
  {
  }

  lemma ParentsOfNext(clause: Clause, size: nat, p: nat)
    requires 0 < size && p < |Split(clause.text, size, 0)|
    ensures ParentsOf(clause, size)[..p + 1]
         == ParentsOf(clause, size)[..p] + [Clause(clause.heading, Split(clause.text, size, 0)[p])]
  {
    SliceNext(ParentsOf(clause, size), p);
  }

  /** The innermost loop: one parent's children, numbered on from `start`. */
  method EmitChildren(start: nat, pieces: seq<string>, parent: Clause, parentIndex: nat) returns (children: seq<Chunk>)
    ensures children == NumberedPieces(start, pieces, parent, parentIndex)
  {
    children := [];
    for k := 0 to |pieces|
      invariant |children| == k
      invariant forall j :: 0 <= j < k ==> children[j] == NumberedPieces(start, pieces, parent, parentIndex)[j]
    {
      var parentText := if pieces[k] == parent.text then "" else parent.text;
      children := children + [Chunk(start + k, pieces[k], parent.heading, parentIndex, parentText)];
    }
  }

  lemma ChunksSnoc(parents: seq<Clause>, parent: Clause, window: nat, overlap: nat)
    requires AllEnd(parents, window, overlap) && Ends(parent.text, window, overlap)
    ensures var before := Chunks(parents, window, overlap);
      Chunks(parents + [parent], window, overlap)
        == before + ChildrenOf(|before|, parent, |parents|, window, overlap)
  {
    assert (parents + [parent])[..|parents|] == parents;
  }

  /** The loop over one clause's parents. */
  method ChunkClause(clause: Clause, size: nat, overlap: nat, window: nat, ghost before: seq<Clause>,
                     parentIndex: nat, chunks: seq<Chunk>)
      returns (parentIndex': nat, chunks': seq<Chunk>)
    requires 0 < window <= size && AllEnd(before + ParentsOf(clause, size), window, overlap)
    requires AllEnd(before, window, overlap) && parentIndex == |before| && chunks == Chunks(before, window, overlap)
    ensures parentIndex' == |before + ParentsOf(clause, size)|
    ensures chunks' == Chunks(before + ParentsOf(clause, size), window, overlap)
  {
    parentIndex', chunks' := parentIndex, chunks;
    var parentTexts := SplitText(clause.text, size, 0);
    ghost var parents := before;
    for p := 0 to |parentTexts|
      invariant parents == before + ParentsOf(clause, size)[..p] && parentIndex' == |parents|
      invariant AllEnd(parents, window, overlap) && chunks' == Chunks(parents, window, overlap)
    {
      var parent := Clause(clause.heading, parentTexts[p]);
      assert parent == (before + ParentsOf(clause, size))[|before| + p];
      var pieces := SplitText(parentTexts[p], window, overlap);
      var children := EmitChildren(|chunks'|, pieces, parent, parentIndex');
      ChunksSnoc(parents, parent, window, overlap);
      ParentsOfNext(clause, size, p);
      Associative(before, ParentsOf(clause, size)[..p], [parent]);
      chunks' := chunks' + children;
      parents := parents + [parent];
      parentIndex' := parentIndex' + 1;
    }
    assert ParentsOf(clause, size)[..|parentTexts|] == ParentsOf(clause, size);
  }

  lemma {:induction false} EarlierParentsEnd(clauses: seq<Clause>, size: nat, i: nat, window: nat, overlap: nat)
    requires size > 0 && i <= |clauses| && AllEnd(Parents(clauses, size), window, overlap)
    ensures AllEnd(Parents(clauses[..i], size), window, overlap)
  {
    if i < |clauses| {
      var init := clauses[..|clauses| - 1];
      assert forall p :: 0 <= p < |Parents(init, size)| ==> Parents(init, size)[p] == Parents(clauses, size)[p];
      assert init[..i] == clauses[..i];
      EarlierParentsEnd(init, size, i, window, overlap);
    } else {
      assert clauses[..i] == clauses;
    }
  }

  method ChunkDocument(g: Grammar, paragraphs: seq<string>, size: nat, overlap: nat, window: nat)
      returns (r: Result<seq<Chunk>, string>)
    requires window > 0
    requires window <= size ==> AllEnd(Parents(Clauses(g, paragraphs), size), window, overlap)
    ensures r.Err? <==> window > size
    ensures r.Ok? ==> r.value == Chunks(Parents(Clauses(g, paragraphs), size), window, overlap)
  {
    if window > size {
      return Err("child_window must not exceed chunk_size");
    }
    var clauses := ReadClauses(g, paragraphs);
    var chunks: seq<Chunk> := [];
    var parentIndex := 0;
    for i := 0 to |clauses|
      invariant parentIndex == |Parents(clauses[..i], size)| && AllEnd(Parents(clauses[..i], size), window, overlap)
      invariant chunks == Chunks(Parents(clauses[..i], size), window, overlap)
    {
      assert clauses[..i + 1][..i] == clauses[..i];
      EarlierParentsEnd(clauses, size, i + 1, window, overlap);
      parentIndex, chunks :=
        ChunkClause(clauses[i], size, overlap, window, Parents(clauses[..i], size), parentIndex, chunks);
    }
    assert clauses[..|clauses|] == clauses;
    r := Ok(chunks);
  }
}
