/** Which sentences share a piece, what each piece starts with, and how an oversized sentence is cut. */
module PieceRuns {
  import opened Common
  import opened SentenceSplitter
  import opened Text
  import opened TextSplitter

  /** Sentences from..upto stand in one piece, which is number `at` and opens with `opening`. */
  datatype Run = Run(from: nat, upto: nat, opening: string, at: nat)

  /** A piece with more sentences joined to it, one per line. */
  function Joined(opening: string, more: seq<string>): string {
    if more == [] then opening else Strip(Joined(opening, more[..|more| - 1]) + "\n" + more[|more| - 1])
  }

  /** Sentence i fits what the run's piece holds before it. */
  predicate Fits(sentences: seq<string>, size: nat, run: Run, i: nat)
    requires run.from < i < |sentences|
  {
    |Joined(run.opening, sentences[run.from + 1..i])| + 1 + |sentences[i]| <= size
  }

  /** The piece is its opening with the run's other sentences joined to it, each of which fits. */
  ghost predicate Fills(sentences: seq<string>, size: nat, run: Run, piece: string) {
    && run.from < run.upto <= |sentences|
    && piece == Joined(run.opening, sentences[run.from + 1..run.upto])
    && forall i :: run.from < i < run.upto ==> Fits(sentences, size, run, i)
  }

  predicate Window(sentence: string, start: nat, size: nat, window: string) {
    start + size <= |sentence| && window == sentence[start..start + size]
  }

  /** An oversized sentence is cut into windows of `size` characters, each starting `overlap` characters before the end
      of the one before; what remains fits into a piece.
    */
  ghost predicate CutInto(sentence: string, size: nat, overlap: nat, windows: seq<string>, rest: string) {
    && windows != [] && |rest| <= size
    && if overlap < size then
         var step := size - overlap;
         && |windows| * step < |sentence| && rest == sentence[|windows| * step..]
         && (|windows| - 1) * step + size < |sentence|
         && forall w :: 0 <= w < |windows| ==> Window(sentence, w * step, size, windows[w])
       else
         windows == [sentence[..Min(size, |sentence|)]]
         && rest == sentence[|sentence| - Min(overlap - size, |sentence|)..]
  }

  /** A run starts where the sentence no longer fits the piece before: with that piece's last `overlap` characters, or
      with what remains of an oversized sentence.
    */
  ghost predicate Follows(sentences: seq<string>, size: nat, overlap: nat, prev: Run, before: string,
                          between: seq<string>, run: Run)
  {
    && run.from == prev.upto < |sentences|
    && |before| + 1 + |sentences[run.from]| > size
    && if |sentences[run.from]| <= size then
         between == []
         && run.opening == Strip(before[|before| - Min(overlap, |before|)..] + "\n" + sentences[run.from])
       else CutInto(sentences[run.from], size, overlap, between, run.opening)
  }

  ghost predicate FollowsIn(sentences: seq<string>, size: nat, overlap: nat, chain: seq<string>, prev: Run, run: Run) {
    && prev.at < run.at < |chain|
    && Follows(sentences, size, overlap, prev, chain[prev.at], chain[prev.at + 1..run.at], run)
  }

  ghost predicate FillsIn(sentences: seq<string>, size: nat, chain: seq<string>, run: Run) {
    run.at < |chain| && Fills(sentences, size, run, chain[run.at])
  }

  /** The pieces are runs of sentences, the first opening with the first sentence, each as long as fits. */
  ghost predicate Arranged(sentences: seq<string>, size: nat, overlap: nat, chain: seq<string>, runs: seq<Run>) {
    && runs != [] && sentences != [] && chain != []
    && runs[0].from == 0 && runs[0].at == 0 && runs[0].opening == sentences[0]
    && runs[|runs| - 1].upto == |sentences| && runs[|runs| - 1].at == |chain| - 1
    && (forall r :: 0 <= r < |runs| ==> FillsIn(sentences, size, chain, runs[r]))
    && forall r :: 1 <= r < |runs| ==> FollowsIn(sentences, size, overlap, chain, runs[r - 1], runs[r])
  }

  // ----- the hard cut -----

  lemma NextWindow(sentence: string, step: nat, size: nat, w: nat, start: nat, window: string)
    requires step <= |sentence| && start == w * step && Window(sentence[step..], start, size, window)
    ensures Window(sentence, (w + 1) * step, size, window)
  {
    assert (w + 1) * step == start + step;
    assert sentence[step..][start..start + size] == sentence[start + step..start + step + size];
  }

  lemma OneStepMore(n: nat, step: nat)
    ensures (n + 1) * step == n * step + step
  {
  }

  lemma WindowsMore(sentence: string, step: nat, size: nat, windows: seq<string>)
    requires step <= |sentence| && size <= |sentence|
    requires forall w :: 0 <= w < |windows| ==> Window(sentence[step..], w * step, size, windows[w])
    ensures var all := [sentence[..size]] + windows;
      forall w :: 0 <= w < |all| ==> Window(sentence, w * step, size, all[w])
  {
    var all := [sentence[..size]] + windows;
    forall w | 0 <= w < |all| ensures Window(sentence, w * step, size, all[w]) {
      if w > 0 {
        NextWindow(sentence, step, size, w - 1, (w - 1) * step, windows[w - 1]);
      } else {
        assert 0 * step == 0;
      }
    }
  }

  lemma CutOneMore(sentence: string, size: nat, overlap: nat, windows: seq<string>, rest: string)
    requires overlap < size < |sentence| && CutInto(sentence[size - overlap..], size, overlap, windows, rest)
    ensures CutInto(sentence, size, overlap, [sentence[..size]] + windows, rest)
  {
    var step, n := size - overlap, |windows|;
    OneStepMore(n, step);
    OneStepMore(n - 1, step);
    WindowsMore(sentence, step, size, windows);
    var start := n * step;
    assert sentence[step..][start..] == sentence[start + step..];
  }

  lemma CutOnlyOnce(sentence: string, size: nat, overlap: nat)
    requires overlap < size < |sentence| && |sentence| - (size - overlap) <= size
    ensures CutInto(sentence, size, overlap, [sentence[..size]], sentence[size - overlap..])
  {
    var step := size - overlap;
    assert 1 * step == step && 0 * step == 0;
  }

  lemma {:induction false} HardCutIsCut(sentence: string, size: nat, overlap: nat)
    requires |sentence| > size && Cuttable(size, overlap)
    ensures var cut := HardCut(sentence, size, overlap); CutInto(sentence, size, overlap, cut.pieces, cut.current)
    decreases |sentence|
  {
    if overlap < size {
      var next := sentence[size - overlap..];
      assert CutOnce(sentence, size, overlap) == next;
      if |next| > size {
        HardCutIsCut(next, size, overlap);
        var cut := HardCut(next, size, overlap);
        CutOneMore(sentence, size, overlap, cut.pieces, cut.current);
      } else {
        assert HardCut(next, size, overlap) == Packing([], next);
        CutOnlyOnce(sentence, size, overlap);
      }
    } else {
      var next := CutOnce(sentence, size, overlap);
      assert |next| <= size && HardCut(next, size, overlap) == Packing([], next);
    }
  }

  // ----- one more sentence -----

  lemma FillsUnder(init: seq<string>, last: string, size: nat, run: Run, piece: string)
    requires Fills(init, size, run, piece)
    ensures Fills(init + [last], size, run, piece)
  {
    var sentences := init + [last];
    assert sentences[run.from + 1..run.upto] == init[run.from + 1..run.upto];
    forall i | run.from < i < run.upto ensures Fits(sentences, size, run, i) {
      assert sentences[run.from + 1..i] == init[run.from + 1..i];
      assert Fits(init, size, run, i);
    }
  }

  lemma RunGrows(init: seq<string>, last: string, from: nat)
    requires from <= |init|
    ensures var sentences := init + [last];
      && sentences[from..|init|] == init[from..|init|]
      && sentences[from..|init| + 1] == init[from..|init|] + [last]
  {
  }

  lemma JoinedMore(opening: string, more: seq<string>, last: string)
    ensures Joined(opening, more + [last]) == Strip(Joined(opening, more) + "\n" + last)
  {
    assert (more + [last])[..|more|] == more;
  }

  lemma FillsMore(init: seq<string>, last: string, size: nat, run: Run, piece: string, longer: Run, joined: string)
    requires Fills(init, size, run, piece) && run.upto == |init| && |piece| + 1 + |last| <= size
    requires longer == run.(upto := |init| + 1) && joined == Strip(piece + "\n" + last)
    ensures Fills(init + [last], size, longer, joined)
  {
    var sentences, from := init + [last], run.from + 1;
    FillsUnder(init, last, size, run, piece);
    RunGrows(init, last, from);
    JoinedMore(run.opening, init[from..|init|], last);
    forall i | run.from < i < |init| + 1 ensures Fits(sentences, size, longer, i) {
      if i < |init| {
        assert Fits(sentences, size, run, i);
      } else {
        assert sentences[i] == last && sentences[from..i] == init[from..|init|];
      }
    }
  }

  lemma FollowsUnder(init: seq<string>, last: string, size: nat, overlap: nat, prev: Run, before: string,
                     between: seq<string>, run: Run)
    requires Follows(init, size, overlap, prev, before, between, run)
    ensures Follows(init + [last], size, overlap, prev, before, between, run)
  {
    assert (init + [last])[run.from] == init[run.from];
  }

  lemma Earlier(chain: seq<string>, more: seq<string>, i: nat, j: nat)
    requires i < j <= |chain| - 1
    ensures (chain[..|chain| - 1] + more)[i] == chain[i]
    ensures j <= |chain| - 1 + |more| && (chain[..|chain| - 1] + more)[i + 1..j] == chain[i + 1..j]
  {
  }

  lemma {:induction false} RunsRise(sentences: seq<string>, size: nat, overlap: nat, chain: seq<string>, runs: seq<Run>,
                                    r: nat, q: nat)
    requires Arranged(sentences, size, overlap, chain, runs) && r < q < |runs|
    ensures runs[r].at < runs[q].at
  {
    assert FollowsIn(sentences, size, overlap, chain, runs[q - 1], runs[q]);
    if r < q - 1 { RunsRise(sentences, size, overlap, chain, runs, r, q - 1); }
  }

  /** The runs before the last do not notice the new sentence. */
  lemma EarlierRuns(init: seq<string>, last: string, size: nat, overlap: nat, chain: seq<string>, more: seq<string>,
                    runs: seq<Run>, r: nat)
    requires Arranged(init, size, overlap, chain, runs) && r < |runs| - 1
    ensures FillsIn(init + [last], size, chain[..|chain| - 1] + more, runs[r])
    ensures r > 0 ==> FollowsIn(init + [last], size, overlap, chain[..|chain| - 1] + more, runs[r - 1], runs[r])
  {
    RunsRise(init, size, overlap, chain, runs, r, |runs| - 1);
    assert FillsIn(init, size, chain, runs[r]);
    Earlier(chain, more, runs[r].at, |chain| - 1);
    FillsUnder(init, last, size, runs[r], chain[runs[r].at]);
    if r > 0 {
      var prev := runs[r - 1];
      assert FollowsIn(init, size, overlap, chain, prev, runs[r]);
      Earlier(chain, more, prev.at, runs[r].at);
      FollowsUnder(init, last, size, overlap, prev, chain[prev.at], chain[prev.at + 1..runs[r].at], runs[r]);
    }
  }

  lemma LastFollows(init: seq<string>, last: string, size: nat, overlap: nat, chain: seq<string>, more: seq<string>,
                    runs: seq<Run>, run: Run)
    requires Arranged(init, size, overlap, chain, runs) && more != []
    requires run == runs[|runs| - 1].(upto := run.upto)
    ensures |runs| > 1 ==>
              FollowsIn(init + [last], size, overlap, chain[..|chain| - 1] + more, runs[|runs| - 2], run)
  {
    if |runs| > 1 {
      var prev, now := runs[|runs| - 2], runs[|runs| - 1];
      assert FollowsIn(init, size, overlap, chain, prev, runs[|runs| - 1]);
      Earlier(chain, more, prev.at, now.at);
      FollowsUnder(init, last, size, overlap, prev, chain[prev.at], chain[prev.at + 1..now.at], now);
    }
  }

  /** The sentence joins the last piece. */
  lemma JoinLast(init: seq<string>, last: string, size: nat, overlap: nat, chain: seq<string>, runs: seq<Run>)
      returns (runs': seq<Run>)
    requires Arranged(init, size, overlap, chain, runs) && |chain[|chain| - 1]| + 1 + |last| <= size
    ensures Arranged(init + [last], size, overlap,
                     chain[..|chain| - 1] + [Strip(chain[|chain| - 1] + "\n" + last)], runs')
  {
    var n, piece := |runs| - 1, chain[|chain| - 1];
    var run, more := runs[n].(upto := |init| + 1), [Strip(piece + "\n" + last)];
    runs' := runs[..n] + [run];
    var chain' := chain[..|chain| - 1] + more;
    assert FillsIn(init, size, chain, runs[n]);
    FillsMore(init, last, size, runs[n], piece, run, more[0]);
    LastFollows(init, last, size, overlap, chain, more, runs, run);
    forall r | 0 <= r < |runs'| ensures FillsIn(init + [last], size, chain', runs'[r]) {
      if r < n { EarlierRuns(init, last, size, overlap, chain, more, runs, r); }
    }
    forall r | 1 <= r < |runs'| ensures FollowsIn(init + [last], size, overlap, chain', runs'[r - 1], runs'[r]) {
      if r < n { EarlierRuns(init, last, size, overlap, chain, more, runs, r); }
    }
  }

  lemma ChainGrows(chain: seq<string>, between: seq<string>, opening: string)
    requires chain != []
    ensures var more, at := chain + between + [opening], |chain| - 1;
      && more == chain[..at] + ([chain[at]] + between + [opening])
      && more[at] == chain[at] && more[|chain|..|chain| + |between|] == between && more[|chain| + |between|] == opening
  {
  }

  lemma NewRunFills(init: seq<string>, last: string, size: nat, chain: seq<string>, opening: string, at: nat)
    requires at < |chain| && chain[at] == opening
    ensures FillsIn(init + [last], size, chain, Run(|init|, |init| + 1, opening, at))
  {
    assert (init + [last])[|init| + 1..|init| + 1] == [];
  }

  lemma NewRunFollows(sentences: seq<string>, size: nat, overlap: nat, chain: seq<string>, prev: Run, piece: string,
                      between: seq<string>, run: Run)
    requires Follows(sentences, size, overlap, prev, piece, between, run) && prev.at < run.at < |chain|
    requires chain[prev.at] == piece && chain[prev.at + 1..run.at] == between
    ensures FollowsIn(sentences, size, overlap, chain, prev, run)
  {
  }

  /** When the last piece stays as it is, so does every run. */
  lemma OldRunStands(init: seq<string>, last: string, size: nat, overlap: nat, chain: seq<string>, more: seq<string>,
                     runs: seq<Run>, r: nat)
    requires Arranged(init, size, overlap, chain, runs) && more != [] && more[0] == chain[|chain| - 1] && r < |runs|
    ensures FillsIn(init + [last], size, chain[..|chain| - 1] + more, runs[r])
    ensures r > 0 ==> FollowsIn(init + [last], size, overlap, chain[..|chain| - 1] + more, runs[r - 1], runs[r])
  {
    if r < |runs| - 1 {
      EarlierRuns(init, last, size, overlap, chain, more, runs, r);
    } else {
      assert FillsIn(init, size, chain, runs[r]);
      FillsUnder(init, last, size, runs[r], chain[|chain| - 1]);
      LastFollows(init, last, size, overlap, chain, more, runs, runs[r]);
    }
  }

  /** One more run at the end. */
  lemma OneRunMore(sentences: seq<string>, size: nat, overlap: nat, chain: seq<string>, runs: seq<Run>, run: Run)
    requires runs != [] && sentences != [] && chain != []
    requires runs[0].from == 0 && runs[0].at == 0 && runs[0].opening == sentences[0]
    requires run.upto == |sentences| && run.at == |chain| - 1
    requires forall r :: 0 <= r < |runs| ==> FillsIn(sentences, size, chain, runs[r])
    requires forall r :: 1 <= r < |runs| ==> FollowsIn(sentences, size, overlap, chain, runs[r - 1], runs[r])
    requires FillsIn(sentences, size, chain, run)
    requires FollowsIn(sentences, size, overlap, chain, runs[|runs| - 1], run)
    ensures Arranged(sentences, size, overlap, chain, runs + [run])
  {
  }

  /** The sentence opens a new piece. */
  lemma OpenNext(init: seq<string>, last: string, size: nat, overlap: nat, chain: seq<string>, runs: seq<Run>,
                 between: seq<string>, opening: string) returns (runs': seq<Run>)
    requires Arranged(init, size, overlap, chain, runs)
    requires var n := |runs| - 1;
      Follows(init + [last], size, overlap, runs[n], chain[|chain| - 1], between,
              Run(|init|, |init| + 1, opening, |chain| + |between|))
    ensures Arranged(init + [last], size, overlap, chain + between + [opening], runs')
  {
    var prev, piece := runs[|runs| - 1], chain[|chain| - 1];
    var run, chain' := Run(|init|, |init| + 1, opening, |chain| + |between|), chain + between + [opening];
    runs' := runs + [run];
    ChainGrows(chain, between, opening);
    var more := [piece] + between + [opening];
    forall r | 0 <= r < |runs|
      ensures FillsIn(init + [last], size, chain', runs[r])
      ensures r > 0 ==> FollowsIn(init + [last], size, overlap, chain', runs[r - 1], runs[r])
    {
      OldRunStands(init, last, size, overlap, chain, more, runs, r);
    }
    NewRunFollows(init + [last], size, overlap, chain', prev, piece, between, run);
    NewRunFills(init, last, size, chain', opening, |chain| + |between|);
    OneRunMore(init + [last], size, overlap, chain', runs, run);
  }

  // ----- the theorem -----

  function Chain(p: Packing): seq<string> {
    p.pieces + [p.current]
  }

  lemma StripOneLine(sentence: string)
    requires Trimmed(sentence)
    ensures Strip("\n" + sentence) == sentence
  {
    assert ("\n" + sentence)[1..] == sentence;
    assert IsSpace(("\n" + sentence)[0]);
    StripResult(sentence);
  }

  lemma FirstRun(sentence: string, size: nat, overlap: nat) returns (runs: seq<Run>)
    requires Trimmed(sentence)
    ensures Arranged([sentence], size, overlap, Chain(AddSentence(Packing([], ""), sentence, size, overlap)), runs)
  {
    runs := [Run(0, 1, sentence, 0)];
    assert "" + "\n" + sentence == "\n" + sentence;
    StripOneLine(sentence);
    NewRunFills([], sentence, size, [sentence], sentence, 0);
    assert [] + [sentence] == [sentence];
  }

  lemma NextRun(init: seq<string>, last: string, size: nat, overlap: nat, p: Packing, runs: seq<Run>)
      returns (runs': seq<Run>)
    requires p.current != "" && (|last| <= size || Cuttable(size, overlap))
    requires Arranged(init, size, overlap, Chain(p), runs)
    ensures Arranged(init + [last], size, overlap, Chain(AddSentence(p, last, size, overlap)), runs')
  {
    var chain := Chain(p);
    assert chain[..|chain| - 1] == p.pieces;
    if |p.current| + |last| + 1 <= size {
      runs' := JoinLast(init, last, size, overlap, chain, runs);
    } else if |last| > size {
      var cut := HardCut(last, size, overlap);
      HardCutIsCut(last, size, overlap);
      runs' := OpenNext(init, last, size, overlap, chain, runs, cut.pieces, cut.current);
      assert chain + cut.pieces + [cut.current] == Chain(AddSentence(p, last, size, overlap));
    } else {
      runs' := OpenNext(init, last, size, overlap, chain, runs, [], Strip(Last(p.current, overlap) + "\n" + last));
      assert chain + [] == chain;
    }
  }

  lemma AddedEndsInInk(p: Packing, sentence: string, size: nat, overlap: nat)
    requires Trimmed(sentence) && p.current != "" && (|sentence| <= size || Cuttable(size, overlap))
    ensures EndsInInk(AddSentence(p, sentence, size, overlap).current)
  {
    if |p.current| + |sentence| + 1 <= size {
      JoinedShape(p.current, sentence);
    } else if |sentence| > size {
      HardCutRestNonEmpty(sentence, size, overlap);
    } else {
      JoinedShape(Last(p.current, overlap), sentence);
    }
  }

  lemma {:induction false} PackIsArranged(sentences: seq<string>, size: nat, overlap: nat) returns (runs: seq<Run>)
    requires size > 0 && AllTrimmed(sentences) && sentences != []
    requires NeverCut(sentences, size) || Cuttable(size, overlap)
    ensures EndsInInk(Pack(sentences, size, overlap).current)
    ensures Arranged(sentences, size, overlap, Chain(Pack(sentences, size, overlap)), runs)
  {
    var init, last := sentences[..|sentences| - 1], sentences[|sentences| - 1];
    assert sentences == init + [last];
    var p := Pack(init, size, overlap);
    if init == [] {
      runs := FirstRun(last, size, overlap);
      JoinedShape("", last);
    } else {
      runs := PackIsArranged(init, size, overlap);
      runs := NextRun(init, last, size, overlap, p, runs);
      AddedEndsInInk(p, last, size, overlap);
    }
  }

  /** The pieces of any text on which splitting ends: the text itself if it fits, else its sentences, arranged. */
  lemma SplitIsArranged(text: string, size: nat, overlap: nat) returns (runs: seq<Run>)
    requires size > 0 && Ends(text, size, overlap)
    ensures var pieces := Split(text, size, overlap);
      if |text| <= size then pieces == [text]
      else if Sentences(text) == [] then pieces == []
      else Arranged(Sentences(text), size, overlap, pieces, runs)
  {
    runs := [];
    SentencesKeepInk(text);
    if |text| > size && Sentences(text) != [] {
      runs := PackIsArranged(Sentences(text), size, overlap);
      EndsInInkSurvivesStrip(Pack(Sentences(text), size, overlap).current);
    }
  }
}
