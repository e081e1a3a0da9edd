/** Packing sentences into overlapping pieces, for every setting under which that ends. */
module TextSplitter {
  import opened Common
  import opened SentenceSplitter
  import opened Text

  // ----- packing sentences into pieces -----

  /** The last n characters. */
  function Last(s: string, n: nat): string {
    s[|s| - Min(n, |s|)..]
  }

  datatype Packing = Packing(pieces: seq<string>, current: string)

  /** Python's `s[n:]`, negative bounds included. */
  function SliceFrom(s: string, n: int): string {
    if n >= 0 then s[Min(n, |s|)..] else s[Max(0, |s| + n)..]
  }

  /** What one pass of the hard cut leaves of a sentence. */
  function CutOnce(sentence: string, size: nat, overlap: nat): string {
    if overlap > 0 then SliceFrom(sentence, size - overlap) else SliceFrom(sentence, size)
  }

  /** The settings under which hard-cutting makes progress. */
  predicate Cuttable(size: nat, overlap: nat) {
    overlap != size && overlap <= 2 * size
  }

  /** An oversized sentence, cut every `size` characters; each cut starts `overlap` characters back. */
  function HardCut(sentence: string, size: nat, overlap: nat): Packing
    requires |sentence| <= size || Cuttable(size, overlap)
    decreases |sentence|
  {
    if |sentence| <= size then Packing([], sentence) else
    var rest := HardCut(CutOnce(sentence, size, overlap), size, overlap);
    Packing([sentence[..size]] + rest.pieces, rest.current)
  }

  function AddSentence(p: Packing, sentence: string, size: nat, overlap: nat): Packing
    requires p.current == "" || |sentence| <= size || Cuttable(size, overlap)
  {
    if |p.current| + |sentence| + 1 <= size || p.current == "" then
      p.(current := Strip(p.current + "\n" + sentence))
    else if |sentence| > size then
      var cut := HardCut(sentence, size, overlap);
      Packing(p.pieces + [p.current] + cut.pieces, cut.current)
    else
      Packing(p.pieces + [p.current], Strip(Last(p.current, overlap) + "\n" + sentence))
  }

  /** No sentence that could be hard-cut is: the first never is, and the others are short enough. */
  predicate NeverCut(sentences: seq<string>, size: nat) {
    forall i :: 1 <= i < |sentences| ==> |sentences[i]| <= size
  }

  function Pack(sentences: seq<string>, size: nat, overlap: nat): Packing
    requires NeverCut(sentences, size) || Cuttable(size, overlap)
  {
    if sentences == [] then Packing([], "")
    else AddSentence(Pack(sentences[..|sentences| - 1], size, overlap), sentences[|sentences| - 1], size, overlap)
  }

  function Finish(p: Packing): seq<string> {
    if Strip(p.current) != "" then p.pieces + [p.current] else p.pieces
  }

  /** Splitting ends; see `SplittingEndsIff`. */
  predicate Ends(text: string, size: nat, overlap: nat) {
    |text| <= size || NeverCut(Sentences(text), size) || Cuttable(size, overlap)
  }

  function Split(text: string, size: nat, overlap: nat): seq<string>
    requires Ends(text, size, overlap)
  {
    if |text| <= size then [text] else Finish(Pack(Sentences(text), size, overlap))
  }

  /** The inner loop: cut an oversized sentence. */
  method CutOversized(before: seq<string>, oversized: string, size: nat, overlap: nat)
      returns (pieces: seq<string>, current: string)
    requires size < |oversized| && Cuttable(size, overlap)
    ensures var cut := HardCut(oversized, size, overlap); pieces == before + cut.pieces && current == cut.current
  {
    var sentence := oversized;
    pieces, current := before, "";
    ghost var cut := HardCut(oversized, size, overlap);
    while |sentence| > size
      invariant sentence == "" || |sentence| > size
      invariant sentence != "" ==>
        var left := HardCut(sentence, size, overlap);
        left.current == cut.current && pieces + left.pieces == before + cut.pieces
      invariant sentence == "" ==> pieces == before + cut.pieces && current == cut.current
      decreases |sentence|
    {
      ghost var rest := HardCut(CutOnce(sentence, size, overlap), size, overlap);
      Associative(pieces, [sentence[..size]], rest.pieces);
      pieces := pieces + [sentence[..size]];
      sentence := CutOnce(sentence, size, overlap);
      if |sentence| <= size {
        current := sentence;
        sentence := "";
      }
    }
  }

  lemma PackNext(sentences: seq<string>, size: nat, overlap: nat, i: nat)
    requires i < |sentences| && (NeverCut(sentences, size) || Cuttable(size, overlap))
    ensures var p := Pack(sentences[..i], size, overlap);
      && (p.current == "" || |sentences[i]| <= size || Cuttable(size, overlap))
      && Pack(sentences[..i + 1], size, overlap) == AddSentence(p, sentences[i], size, overlap)
  {
    assert sentences[..i + 1][..i] == sentences[..i];
  }

  /** The loop body over sentences. */
  method PlaceSentence(before: seq<string>, open: string, sentence: string, size: nat, overlap: nat)
      returns (pieces: seq<string>, current: string)
    requires open == "" || |sentence| <= size || Cuttable(size, overlap)
    ensures Packing(pieces, current) == AddSentence(Packing(before, open), sentence, size, overlap)
  {
    pieces, current := before, open;
    if |current| + |sentence| + 1 <= size || current == "" {
      current := Strip(current + "\n" + sentence);
    } else {
      pieces := pieces + [current];
      current := if overlap > 0 then Last(current, overlap) else "";
      if |sentence| > size {
        pieces, current := CutOversized(pieces, sentence, size, overlap);
      } else {
        current := Strip(current + "\n" + sentence);
      }
    }
  }

  method SplitText(text: string, size: nat, overlap: nat) returns (pieces: seq<string>)
    requires Ends(text, size, overlap)
    ensures pieces == Split(text, size, overlap)
  {
    if |text| <= size {
      return [text];
    }
    var sentences := SplitSentences(text);
    pieces := [];
    var current := "";
    for i := 0 to |sentences|
      invariant Packing(pieces, current) == Pack(sentences[..i], size, overlap)
    {
      PackNext(sentences, size, overlap, i);
      pieces, current := PlaceSentence(pieces, current, sentences[i], size, overlap);
    }
    assert sentences[..|sentences|] == sentences;
    if Strip(current) != "" {
      pieces := pieces + [current];
    }
  }

  // ----- when splitting ends -----

  /** The hard cut, given up after `fuel` passes. */
  function HardCutWithin(sentence: string, size: nat, overlap: nat, fuel: nat): Option<Packing> {
    if |sentence| <= size then Some(Packing([], sentence))
    else if fuel == 0 then None
    else
      match HardCutWithin(CutOnce(sentence, size, overlap), size, overlap, fuel - 1)
      case None => None
      case Some(rest) => Some(Packing([sentence[..size]] + rest.pieces, rest.current))
  }

  function AddWithin(p: Packing, sentence: string, size: nat, overlap: nat, fuel: nat): Option<Packing> {
    if |p.current| + |sentence| + 1 <= size || p.current == "" then
      Some(p.(current := Strip(p.current + "\n" + sentence)))
    else if |sentence| > size then
      match HardCutWithin(sentence, size, overlap, fuel)
      case None => None
      case Some(cut) => Some(Packing(p.pieces + [p.current] + cut.pieces, cut.current))
    else
      Some(Packing(p.pieces + [p.current], Strip(Last(p.current, overlap) + "\n" + sentence)))
  }

  function PackWithin(sentences: seq<string>, size: nat, overlap: nat, fuel: nat): Option<Packing> {
    if sentences == [] then Some(Packing([], ""))
    else
      match PackWithin(sentences[..|sentences| - 1], size, overlap, fuel)
      case None => None
      case Some(p) => AddWithin(p, sentences[|sentences| - 1], size, overlap, fuel)
  }

  /** The whole splitter, allowing each hard cut `fuel` passes; it ends when some fuel is enough. */
  function SplitWithin(text: string, size: nat, overlap: nat, fuel: nat): Option<seq<string>> {
    if |text| <= size then Some([text])
    else
      match PackWithin(Sentences(text), size, overlap, fuel)
      case None => None
      case Some(p) => Some(Finish(p))
  }

  ghost predicate HardCutTerminates(sentence: string, size: nat, overlap: nat) {
    exists fuel: nat :: HardCutWithin(sentence, size, overlap, fuel).Some?
  }

  lemma {:induction false} CutStaysStuck(sentence: string, size: nat, overlap: nat, fuel: nat)
    requires |sentence| > size > 0 && !Cuttable(size, overlap)
    ensures HardCutWithin(sentence, size, overlap, fuel).None?
  {
    if fuel > 0 { CutStaysStuck(CutOnce(sentence, size, overlap), size, overlap, fuel - 1); }
  }

  lemma {:induction false} CutFinishes(sentence: string, size: nat, overlap: nat, fuel: nat)
    requires (|sentence| <= size || Cuttable(size, overlap)) && |sentence| <= fuel
    ensures HardCutWithin(sentence, size, overlap, fuel) == Some(HardCut(sentence, size, overlap))
  {
    if |sentence| > size { CutFinishes(CutOnce(sentence, size, overlap), size, overlap, fuel - 1); }
  }

  /** The loop ends on an oversized sentence unless the overlap equals the size or exceeds twice the size. */
  lemma HardCutTerminatesIff(sentence: string, size: nat, overlap: nat)
    requires |sentence| > size > 0
    ensures HardCutTerminates(sentence, size, overlap) <==> overlap != size && overlap <= 2 * size
  {
    if Cuttable(size, overlap) {
      CutFinishes(sentence, size, overlap, |sentence|);
    } else {
      forall fuel: nat ensures HardCutWithin(sentence, size, overlap, fuel).None? {
        CutStaysStuck(sentence, size, overlap, fuel);
      }
    }
  }

  function Longest(sentences: seq<string>): nat {
    if sentences == [] then 0 else Max(Longest(sentences[..|sentences| - 1]), |sentences[|sentences| - 1]|)
  }

  lemma {:induction false} PackFinishes(sentences: seq<string>, size: nat, overlap: nat, fuel: nat)
    requires NeverCut(sentences, size) || Cuttable(size, overlap)
    requires Longest(sentences) <= fuel
    ensures PackWithin(sentences, size, overlap, fuel) == Some(Pack(sentences, size, overlap))
  {
    if sentences != [] {
      var init, last := sentences[..|sentences| - 1], sentences[|sentences| - 1];
      PackFinishes(init, size, overlap, fuel);
      if |last| > size && Pack(init, size, overlap).current != "" {
        CutFinishes(last, size, overlap, fuel);
      }
    }
  }

  lemma {:induction false} FuelOnlyLimits(sentence: string, size: nat, overlap: nat, fuel: nat)
    requires HardCutWithin(sentence, size, overlap, fuel).Some? && size > 0
    ensures |sentence| <= size || Cuttable(size, overlap)
    ensures HardCutWithin(sentence, size, overlap, fuel) == Some(HardCut(sentence, size, overlap))
  {
    if |sentence| > size {
      if !Cuttable(size, overlap) { CutStaysStuck(sentence, size, overlap, fuel); }
      FuelOnlyLimits(CutOnce(sentence, size, overlap), size, overlap, fuel - 1);
    }
  }

  predicate EndsInInk(s: string) {
    s != "" && !IsSpace(s[|s| - 1])
  }

  lemma EndsInInkSurvivesStrip(s: string)
    requires EndsInInk(s)
    ensures Strip(s) != ""
  {
    InkStrip(s);
    InkMembers(s, s[|s| - 1]);
  }

  lemma JoinedShape(a: string, b: string)
    requires Trimmed(b)
    ensures EndsInInk(Strip(a + "\n" + b))
    ensures |Strip(a + "\n" + b)| <= |a| + 1 + |b|
  {
    EndsInInkSurvivesStrip(a + "\n" + b);
    StripResult(a + "\n" + b);
  }

  /** One pass leaves a shorter, non-empty end of the sentence. */
  lemma CutOnceIsSuffix(sentence: string, size: nat, overlap: nat) returns (k: nat)
    requires |sentence| > size && Cuttable(size, overlap)
    ensures 0 < k < |sentence| && CutOnce(sentence, size, overlap) == sentence[k..]
  {
    k := if overlap < size then size - overlap else |sentence| - (overlap - size);
  }

  lemma {:induction false} HardCutRestNonEmpty(sentence: string, size: nat, overlap: nat)
    requires (|sentence| <= size || Cuttable(size, overlap)) && sentence != ""
    ensures var cut := HardCut(sentence, size, overlap);
      && cut.current != "" && |cut.current| <= size && cut.current[|cut.current| - 1] == sentence[|sentence| - 1]
      && forall i :: 0 <= i < |cut.pieces| ==> |cut.pieces[i]| == size
    decreases |sentence|
  {
    if |sentence| > size {
      var k := CutOnceIsSuffix(sentence, size, overlap);
      HardCutRestNonEmpty(sentence[k..], size, overlap);
      var rest := HardCut(sentence[k..], size, overlap);
      assert HardCut(sentence, size, overlap) == Packing([sentence[..size]] + rest.pieces, rest.current);
    }
  }

  lemma AddedWithin(p: Packing, sentence: string, size: nat, overlap: nat, fuel: nat)
    requires size > 0 && Trimmed(sentence) && AddWithin(p, sentence, size, overlap, fuel).Some?
    ensures p.current == "" || |sentence| <= size || Cuttable(size, overlap)
    ensures AddWithin(p, sentence, size, overlap, fuel) == Some(AddSentence(p, sentence, size, overlap))
    ensures EndsInInk(AddSentence(p, sentence, size, overlap).current)
  {
    if |p.current| + |sentence| + 1 <= size || p.current == "" {
      JoinedShape(p.current, sentence);
    } else if |sentence| > size {
      FuelOnlyLimits(sentence, size, overlap, fuel);
      HardCutRestNonEmpty(sentence, size, overlap);
    } else {
      JoinedShape(Last(p.current, overlap), sentence);
    }
  }

  lemma NeverCutMore(sentences: seq<string>, size: nat)
    requires sentences != [] && NeverCut(sentences[..|sentences| - 1], size)
    requires |sentences| == 1 || |sentences[|sentences| - 1]| <= size
    ensures NeverCut(sentences, size)
  {
    forall i | 1 <= i < |sentences| ensures |sentences[i]| <= size {
      if i < |sentences| - 1 { assert sentences[..|sentences| - 1][i] == sentences[i]; }
    }
  }

  /** The open piece is never empty once a sentence is in, so a later oversized sentence always meets the hard cut. */
  lemma {:induction false} PackedWithin(sentences: seq<string>, size: nat, overlap: nat, fuel: nat)
    requires size > 0 && AllTrimmed(sentences) && PackWithin(sentences, size, overlap, fuel).Some?
    ensures NeverCut(sentences, size) || Cuttable(size, overlap)
    ensures PackWithin(sentences, size, overlap, fuel) == Some(Pack(sentences, size, overlap))
    ensures sentences != [] ==> EndsInInk(Pack(sentences, size, overlap).current)
  {
    if sentences != [] {
      var init, last := sentences[..|sentences| - 1], sentences[|sentences| - 1];
      PackedWithin(init, size, overlap, fuel);
      AddedWithin(Pack(init, size, overlap), last, size, overlap, fuel);
      if !Cuttable(size, overlap) {
        NeverCutMore(sentences, size);
      }
    }
  }

  /** Splitting a text ends, with `Split` as its result, exactly when no hard cut is needed or every hard cut makes
      progress. It runs forever when the text is longer than `size`, some sentence after the first is too, and the
      overlap equals `size` or exceeds twice `size`.
    */
  lemma SplittingEndsIff(text: string, size: nat, overlap: nat)
    requires size > 0
    ensures (exists fuel: nat :: SplitWithin(text, size, overlap, fuel).Some?) <==> Ends(text, size, overlap)
    ensures forall fuel: nat :: SplitWithin(text, size, overlap, fuel).Some? ==>
              Ends(text, size, overlap) && SplitWithin(text, size, overlap, fuel).value == Split(text, size, overlap)
    ensures !Ends(text, size, overlap) <==>
              && |text| > size && (overlap == size || overlap > 2 * size)
              && exists i :: 1 <= i < |Sentences(text)| && |Sentences(text)[i]| > size
  {
    var sentences := Sentences(text);
    if |text| > size {
      SentencesKeepInk(text);
      forall fuel: nat | SplitWithin(text, size, overlap, fuel).Some?
        ensures Ends(text, size, overlap) && SplitWithin(text, size, overlap, fuel).value == Split(text, size, overlap)
      {
        PackedWithin(sentences, size, overlap, fuel);
      }
      if Ends(text, size, overlap) {
        PackFinishes(sentences, size, overlap, Longest(sentences));
        assert SplitWithin(text, size, overlap, Longest(sentences)).Some?;
      }
    } else {
      assert SplitWithin(text, size, overlap, 0).Some?;
    }
  }

  // ----- what the pieces hold -----

  /** A piece is the last `carry` characters of the piece before it, then new text. */
  ghost predicate Link(prev: string, piece: string, added: string, carry: nat, overlap: nat) {
    carry <= overlap && carry <= |prev| && Ink(piece) == Ink(Last(prev, carry)) + Ink(added)
  }

  ghost predicate Linked(chain: seq<string>, added: seq<string>, carry: seq<nat>, overlap: nat) {
    && |chain| == |added| == |carry|
    && forall i :: 1 <= i < |chain| ==> Link(chain[i - 1], chain[i], added[i], carry[i], overlap)
  }

  /** Every piece splits into text carried over from its predecessor and new text. */
  ghost predicate Chained(chain: seq<string>, added: seq<string>, carry: seq<nat>, overlap: nat) {
    && Linked(chain, added, carry, overlap)
    && (chain != [] ==> carry[0] == 0 && Ink(chain[0]) == Ink(added[0]))
  }

  lemma JoinChains(a: seq<string>, b: seq<string>, fa: seq<string>, fb: seq<string>, ca: seq<nat>, cb: seq<nat>,
                   overlap: nat)
    requires Linked(a, fa, ca, overlap) && Linked(b, fb, cb, overlap) && a != [] && b != []
    requires Link(a[|a| - 1], b[0], fb[0], cb[0], overlap)
    ensures Linked(a + b, fa + fb, ca + cb, overlap)
  {
    var chain, added, carry := a + b, fa + fb, ca + cb;
    forall i | 1 <= i < |chain| ensures Link(chain[i - 1], chain[i], added[i], carry[i], overlap) {
      if i > |a| {
        assert Link(b[i - |a| - 1], b[i - |a|], fb[i - |a|], cb[i - |a|], overlap);
      }
    }
  }

  function CutChain(sentence: string, size: nat, overlap: nat): seq<string>
    requires |sentence| <= size || Cuttable(size, overlap)
  {
    var cut := HardCut(sentence, size, overlap);
    cut.pieces + [cut.current]
  }

  lemma CutChainNext(sentence: string, size: nat, overlap: nat)
    requires size < |sentence| && Cuttable(size, overlap)
    ensures CutChain(sentence, size, overlap)
         == [sentence[..size]] + CutChain(CutOnce(sentence, size, overlap), size, overlap)
  {
    var rest := HardCut(CutOnce(sentence, size, overlap), size, overlap);
    Associative([sentence[..size]], rest.pieces, [rest.current]);
  }

  lemma CutSlices(sentence: string, size: nat, overlap: nat, carried: nat)
    requires carried <= overlap < size < |sentence|
    ensures var next, piece := sentence[size - overlap..], sentence[..size];
      && piece == sentence[..carried] + sentence[carried..size]
      && Last(piece, overlap) == next[..overlap]
      && sentence[carried..] == sentence[carried..size] + next[overlap..]
  {
  }

  lemma ConcatOne(part: string)
    ensures Concat([part]) == part
  {
    assert [part][..0] == [];
  }

  lemma ConcatCons(first: string, rest: seq<string>)
    ensures Concat([first] + rest) == first + Concat(rest)
  {
    ConcatAppend([first], rest);
    ConcatOne(first);
  }

  lemma CarryLink(piece: string, next: string, front: string, added: string, carry: nat, overlap: nat)
    requires carry <= overlap && carry <= |piece| && Last(piece, carry) == front && next == front + added
    ensures Link(piece, next, added, carry, overlap)
  {
    InkAppend(front, added);
  }

  lemma UncutChained(sentence: string, size: nat, overlap: nat, carried: nat)
    requires |sentence| <= size && carried <= |sentence|
    ensures var chain, added := CutChain(sentence, size, overlap), [sentence[carried..]];
      Linked(chain, added, [carried], overlap) && chain[0] == sentence[..carried] + added[0]
      && Concat(added) == sentence[carried..]
  {
    assert CutChain(sentence, size, overlap) == [sentence];
    ConcatOne(sentence[carried..]);
    assert sentence == sentence[..carried] + sentence[carried..];
  }

  lemma HardCutChainedNext(sentence: string, size: nat, overlap: nat, carried: nat,
                           tailChain: seq<string>, moreAdded: seq<string>, moreCarry: seq<nat>)
    requires carried <= overlap < size < |sentence|
    requires Linked(tailChain, moreAdded, moreCarry, overlap) && tailChain != []
    requires var next := sentence[size - overlap..];
      && tailChain[0] == next[..overlap] + moreAdded[0] && moreCarry[0] == overlap
      && Concat(moreAdded) == next[overlap..]
    ensures var piece, first := sentence[..size], sentence[carried..size];
      && Linked([piece] + tailChain, [first] + moreAdded, [carried] + moreCarry, overlap)
      && piece == sentence[..carried] + first
      && Concat([first] + moreAdded) == sentence[carried..]
  {
    var next, piece, first := sentence[size - overlap..], sentence[..size], sentence[carried..size];
    CutSlices(sentence, size, overlap, carried);
    CarryLink(piece, tailChain[0], next[..overlap], moreAdded[0], overlap, overlap);
    JoinChains([piece], tailChain, [first], moreAdded, [carried], moreCarry, overlap);
    ConcatCons(first, moreAdded);
  }

  /** With an overlap below `size` a hard cut loses nothing: past the first `carried` characters its new parts spell the
      sentence.
    */
  lemma {:induction false} HardCutChained(sentence: string, size: nat, overlap: nat, carried: nat)
      returns (added: seq<string>, carry: seq<nat>)
    requires overlap < size && carried <= overlap && carried <= |sentence|
    ensures Linked(CutChain(sentence, size, overlap), added, carry, overlap)
    ensures CutChain(sentence, size, overlap)[0] == sentence[..carried] + added[0] && carry[0] == carried
    ensures Concat(added) == sentence[carried..]
    decreases |sentence|
  {
    if |sentence| <= size {
      added, carry := [sentence[carried..]], [carried];
      UncutChained(sentence, size, overlap, carried);
    } else {
      var next := sentence[size - overlap..];
      assert CutOnce(sentence, size, overlap) == next;
      var moreAdded, moreCarry := HardCutChained(next, size, overlap, overlap);
      added, carry := [sentence[carried..size]] + moreAdded, [carried] + moreCarry;
      HardCutChainedNext(sentence, size, overlap, carried, CutChain(next, size, overlap), moreAdded, moreCarry);
      CutChainNext(sentence, size, overlap);
    }
  }

  /** An overlap above `size` cuts once and then keeps only the last overlap - size characters. */
  predicate DropsFrom(sentence: string, size: nat, overlap: nat) {
    size < overlap < |sentence|
  }

  /** What a hard cut keeps of a sentence: all of it, or a sentence of `overlap` characters with the middle gone. */
  function Kept(sentence: string, size: nat, overlap: nat): (r: string)
    ensures |r| == if DropsFrom(sentence, size, overlap) then overlap else |sentence|
    ensures r == sentence <==> !DropsFrom(sentence, size, overlap)
  {
    if DropsFrom(sentence, size, overlap) then sentence[..size] + sentence[|sentence| - (overlap - size)..]
    else sentence
  }

  /** The two pieces of such a cut, the second split into what repeats the first and what is new. */
  lemma LongOverlapSlices(sentence: string, size: nat, overlap: nat, carried: nat)
    requires size < |sentence| && size < overlap <= 2 * size
    requires carried == if |sentence| > overlap then 0 else overlap - |sentence|
    ensures var piece, tail := sentence[..size], sentence[|sentence| - (overlap - size)..];
      && carried <= |tail| && tail == tail[..carried] + tail[carried..]
      && Last(piece, carried) == tail[..carried]
      && piece + tail[carried..] == Kept(sentence, size, overlap)
  {
    if |sentence| <= overlap {
      var tail := sentence[|sentence| - (overlap - size)..];
      assert tail[carried..] == sentence[size..];
    }
  }

  lemma LongOverlapChain(sentence: string, size: nat, overlap: nat)
    requires size < |sentence| && size < overlap <= 2 * size
    ensures CutChain(sentence, size, overlap) == [sentence[..size], sentence[|sentence| - (overlap - size)..]]
  {
    CutChainNext(sentence, size, overlap);
  }

  lemma LongOverlapCutChained(sentence: string, size: nat, overlap: nat) returns (added: seq<string>, carry: seq<nat>)
    requires size < |sentence| && size < overlap <= 2 * size
    ensures Linked(CutChain(sentence, size, overlap), added, carry, overlap)
    ensures CutChain(sentence, size, overlap)[0] == added[0] && carry[0] == 0
    ensures Concat(added) == Kept(sentence, size, overlap)
  {
    var piece, tail := sentence[..size], sentence[|sentence| - (overlap - size)..];
    var carried := if |sentence| > overlap then 0 else overlap - |sentence|;
    LongOverlapChain(sentence, size, overlap);
    LongOverlapSlices(sentence, size, overlap, carried);
    added, carry := [piece, tail[carried..]], [0, carried];
    CarryLink(piece, tail, tail[..carried], tail[carried..], carried, overlap);
    assert added == [piece] + [tail[carried..]];
    ConcatOne(piece);
    ConcatSnoc([piece], tail[carried..]);
  }

  /** For every setting under which the cut ends, its new parts spell what it keeps. */
  lemma CutSpellsKept(sentence: string, size: nat, overlap: nat) returns (added: seq<string>, carry: seq<nat>)
    requires size < |sentence| && Cuttable(size, overlap)
    ensures Linked(CutChain(sentence, size, overlap), added, carry, overlap)
    ensures CutChain(sentence, size, overlap)[0] == added[0] && carry[0] == 0
    ensures Concat(added) == Kept(sentence, size, overlap)
  {
    if overlap < size {
      added, carry := HardCutChained(sentence, size, overlap, 0);
      assert sentence[..0] + added[0] == added[0] && sentence[0..] == sentence;
    } else {
      added, carry := LongOverlapCutChained(sentence, size, overlap);
    }
  }

  /** The open piece together with the closed ones accounts for everything kept so far. */
  ghost predicate PackAccounts(p: Packing, kept: seq<string>, overlap: nat, added: seq<string>, carry: seq<nat>) {
    if kept == [] then p == Packing([], "")
    else EndsInInk(p.current) && Chained(p.pieces + [p.current], added, carry, overlap)
         && Ink(Concat(added)) == Ink(Concat(kept))
  }

  /** Joining with a newline and stripping adds no ink. */
  lemma JoinedInk(a: string, b: string)
    requires Trimmed(b)
    ensures Ink(Strip(a + "\n" + b)) == Ink(a) + Ink(b)
  {
    InkStrip(a + "\n" + b);
    InkAppend(a + "\n", b);
    InkAppend(a, "\n");
    assert Ink("\n") == "" by { assert "\n"[..0] == ""; }
    assert Ink(a) + "" == Ink(a);
  }

  lemma JoinedToNothing(b: string)
    requires Trimmed(b)
    ensures Strip("" + "\n" + b) == b
  {
    var joined := "" + "\n" + b;
    assert joined[0] == '\n' && joined[1..] == b;
    StripResult(b);
    assert StripLeft(joined) == StripLeft(b);
  }

  lemma LinkLonger(prev: string, piece: string, added: string, carry: nat, overlap: nat, piece': string, more: string)
    requires Link(prev, piece, added, carry, overlap) && Ink(piece') == Ink(piece) + Ink(more)
    ensures Link(prev, piece', added + more, carry, overlap)
  {
    InkAppend(added, more);
    Associative(Ink(Last(prev, carry)), Ink(added), Ink(more));
  }

  lemma ExtendLast(pieces: seq<string>, current: string, added: seq<string>, last: string, carry: seq<nat>,
                   overlap: nat, piece: string, more: string)
    requires Chained(pieces + [current], added + [last], carry, overlap) && |pieces| == |added|
    requires Ink(piece) == Ink(current) + Ink(more)
    ensures Chained(pieces + [piece], added + [last + more], carry, overlap)
  {
    var n := |pieces|;
    var before, after := pieces + [current], pieces + [piece];
    var oldParts, newParts := added + [last], added + [last + more];
    if n == 0 {
      InkAppend(last, more);
    } else {
      assert Link(before[n - 1], before[n], oldParts[n], carry[n], overlap);
      LinkLonger(before[n - 1], current, last, carry[n], overlap, piece, more);
    }
    forall i | 1 <= i < n ensures Link(after[i - 1], after[i], newParts[i], carry[i], overlap) {
      assert Link(before[i - 1], before[i], oldParts[i], carry[i], overlap);
    }
  }

  /** What is kept of one more sentence, given whether it is the first. */
  function KeptNext(first: bool, sentence: string, size: nat, overlap: nat): string {
    if first then sentence else if |sentence| <= size then sentence else Kept(sentence, size, overlap)
  }

  lemma FirstSentenceAccounts(sentence: string, size: nat, overlap: nat)
    requires Trimmed(sentence)
    ensures PackAccounts(AddSentence(Packing([], ""), sentence, size, overlap),
                         [] + [KeptNext(true, sentence, size, overlap)], overlap, [sentence], [0])
  {
    JoinedToNothing(sentence);
    ConcatOne(sentence);
    assert [] + [sentence] == [sentence];
  }

  lemma FittingSentenceAccounts(p: Packing, kept: seq<string>, sentence: string, size: nat, overlap: nat,
                                added: seq<string>, carry: seq<nat>)
      returns (added': seq<string>)
    requires Trimmed(sentence) && kept != [] && PackAccounts(p, kept, overlap, added, carry)
    requires |p.current| + |sentence| + 1 <= size
    ensures PackAccounts(AddSentence(p, sentence, size, overlap), kept + [KeptNext(false, sentence, size, overlap)],
                         overlap, added', carry)
  {
    var n := |added| - 1;
    added' := added[..n] + [added[n] + sentence];
    assert added == added[..n] + [added[n]];
    JoinedInk(p.current, sentence);
    JoinedShape(p.current, sentence);
    ExtendLast(p.pieces, p.current, added[..n], added[n], carry, overlap, Strip(p.current + "\n" + sentence), sentence);
    ConcatGrownLast(added, sentence);
    ConcatSnoc(kept, sentence);
    InkAppend(Concat(added), sentence);
    InkAppend(Concat(kept), sentence);
  }

  /** A chain of cuts that starts afresh continues a chain of pieces. */
  lemma FreshChainFollows(chain: seq<string>, cutChain: seq<string>, added: seq<string>, cutAdded: seq<string>,
                          carry: seq<nat>, cutCarry: seq<nat>, overlap: nat)
    requires Chained(chain, added, carry, overlap) && Linked(cutChain, cutAdded, cutCarry, overlap)
    requires chain != [] && cutChain != [] && cutChain[0] == cutAdded[0] && cutCarry[0] == 0
    ensures Chained(chain + cutChain, added + cutAdded, carry + cutCarry, overlap)
  {
    assert "" + cutAdded[0] == cutAdded[0];
    CarryLink(chain[|chain| - 1], cutChain[0], "", cutAdded[0], 0, overlap);
    JoinChains(chain, cutChain, added, cutAdded, carry, cutCarry, overlap);
  }

  lemma OneMoreSentenceInk(added: seq<string>, more: seq<string>, kept: seq<string>, sentence: string)
    requires Ink(Concat(added)) == Ink(Concat(kept)) && Concat(more) == sentence
    ensures Ink(Concat(added + more)) == Ink(Concat(kept + [sentence]))
  {
    ConcatAppend(added, more);
    ConcatSnoc(kept, sentence);
    InkAppend(Concat(added), sentence);
    InkAppend(Concat(kept), sentence);
  }

  lemma AddSentenceChain(p: Packing, sentence: string, size: nat, overlap: nat)
    requires size < |sentence| && Cuttable(size, overlap) && p.current != ""
    ensures var p' := AddSentence(p, sentence, size, overlap);
      && p'.current == HardCut(sentence, size, overlap).current
      && p'.pieces + [p'.current] == p.pieces + [p.current] + CutChain(sentence, size, overlap)
  {
    var cut := HardCut(sentence, size, overlap);
    Associative(p.pieces + [p.current], cut.pieces, [cut.current]);
  }

  lemma OversizedSentenceAccounts(p: Packing, kept: seq<string>, sentence: string, size: nat, overlap: nat,
                                  added: seq<string>, carry: seq<nat>)
      returns (added': seq<string>, carry': seq<nat>)
    requires size < |sentence| && Cuttable(size, overlap) && Trimmed(sentence)
    requires kept != [] && PackAccounts(p, kept, overlap, added, carry)
    requires |p.current| + |sentence| + 1 > size
    ensures PackAccounts(AddSentence(p, sentence, size, overlap), kept + [KeptNext(false, sentence, size, overlap)],
                         overlap, added', carry')
  {
    var cutAdded, cutCarry := CutSpellsKept(sentence, size, overlap);
    added', carry' := added + cutAdded, carry + cutCarry;
    var chain, cutChain := p.pieces + [p.current], CutChain(sentence, size, overlap);
    FreshChainFollows(chain, cutChain, added, cutAdded, carry, cutCarry, overlap);
    OneMoreSentenceInk(added, cutAdded, kept, Kept(sentence, size, overlap));
    AddSentenceChain(p, sentence, size, overlap);
    HardCutRestNonEmpty(sentence, size, overlap);
  }

  lemma NextSentenceAccounts(p: Packing, kept: seq<string>, sentence: string, size: nat, overlap: nat,
                             added: seq<string>, carry: seq<nat>)
    requires Trimmed(sentence) && kept != [] && PackAccounts(p, kept, overlap, added, carry)
    requires |p.current| + |sentence| + 1 > size >= |sentence|
    ensures PackAccounts(AddSentence(p, sentence, size, overlap), kept + [KeptNext(false, sentence, size, overlap)],
                         overlap, added + [sentence], carry + [|Last(p.current, overlap)|])
  {
    var tail := Last(p.current, overlap);
    var piece := Strip(tail + "\n" + sentence);
    JoinedInk(tail, sentence);
    JoinedShape(tail, sentence);
    assert Last(p.current, |tail|) == tail;
    assert Link(p.current, piece, sentence, |tail|, overlap);
    JoinChains(p.pieces + [p.current], [piece], added, [sentence], carry, [|tail|], overlap);
    ConcatSnoc(added, sentence);
    ConcatSnoc(kept, sentence);
    InkAppend(Concat(added), sentence);
    InkAppend(Concat(kept), sentence);
  }

  /** What is kept of each sentence: the first is never cut, later oversized ones are. */
  function KeptSentences(sentences: seq<string>, size: nat, overlap: nat): (r: seq<string>)
    ensures |r| == |sentences|
  {
    if sentences == [] then []
    else
      var n := |sentences| - 1;
      KeptSentences(sentences[..n], size, overlap) + [KeptNext(n == 0, sentences[n], size, overlap)]
  }

  lemma AddSentenceAccounts(p: Packing, kept: seq<string>, sentence: string, size: nat, overlap: nat,
                            added: seq<string>, carry: seq<nat>)
      returns (added': seq<string>, carry': seq<nat>)
    requires kept == [] || |sentence| <= size || Cuttable(size, overlap)
    requires Trimmed(sentence) && PackAccounts(p, kept, overlap, added, carry)
    ensures PackAccounts(AddSentence(p, sentence, size, overlap),
                         kept + [KeptNext(kept == [], sentence, size, overlap)],
                         overlap, added', carry')
  {
    if kept == [] {
      FirstSentenceAccounts(sentence, size, overlap);
      added', carry' := [sentence], [0];
    } else if |p.current| + |sentence| + 1 <= size {
      added' := FittingSentenceAccounts(p, kept, sentence, size, overlap, added, carry);
      carry' := carry;
    } else if |sentence| > size {
      added', carry' := OversizedSentenceAccounts(p, kept, sentence, size, overlap, added, carry);
    } else {
      NextSentenceAccounts(p, kept, sentence, size, overlap, added, carry);
      added', carry' := added + [sentence], carry + [|Last(p.current, overlap)|];
    }
  }

  lemma {:induction false} PackAccountsForAll(sentences: seq<string>, size: nat, overlap: nat)
      returns (added: seq<string>, carry: seq<nat>)
    requires AllTrimmed(sentences) && (NeverCut(sentences, size) || Cuttable(size, overlap))
    ensures PackAccounts(Pack(sentences, size, overlap), KeptSentences(sentences, size, overlap), overlap, added, carry)
  {
    if sentences == [] {
      added, carry := [], [];
    } else {
      var init, last := sentences[..|sentences| - 1], sentences[|sentences| - 1];
      added, carry := PackAccountsForAll(init, size, overlap);
      added, carry := AddSentenceAccounts(Pack(init, size, overlap), KeptSentences(init, size, overlap), last, size,
                                          overlap, added, carry);
    }
  }

  /** The visible characters a text offers: all of them, unless it is really split and opens with enders. */
  function KeptInk(text: string, size: nat): string {
    if |text| <= size then Ink(text) else DropEnders(Ink(text))
  }

  /** The visible characters a split keeps. */
  function SpelledInk(text: string, size: nat, overlap: nat): string {
    if |text| <= size then Ink(text) else Ink(Concat(KeptSentences(Sentences(text), size, overlap)))
  }

  /** For every setting under which splitting ends: dropping what each piece carries over from its predecessor (at most
      `overlap` characters) leaves what the split keeps, in order.
    */
  lemma PiecesSpellKept(text: string, size: nat, overlap: nat) returns (added: seq<string>, carry: seq<nat>)
    requires Ends(text, size, overlap)
    ensures Chained(Split(text, size, overlap), added, carry, overlap)
    ensures Ink(Concat(added)) == SpelledInk(text, size, overlap)
  {
    if |text| <= size {
      added, carry := [text], [0];
      ConcatOne(text);
    } else {
      SentencesKeepInk(text);
      added, carry := PackAccountsForAll(Sentences(text), size, overlap);
      if Sentences(text) == [] {
        added, carry := [], [];
        assert Strip("") == "";
      } else {
        EndsInInkSurvivesStrip(Pack(Sentences(text), size, overlap).current);
      }
    }
  }

  /** No sentence loses characters to a hard cut. */
  predicate NothingDropped(sentences: seq<string>, size: nat, overlap: nat) {
    forall i :: 1 <= i < |sentences| && |sentences[i]| > size ==> !DropsFrom(sentences[i], size, overlap)
  }

  lemma {:induction false} ConcatShrinks(sentences: seq<string>, size: nat, overlap: nat)
    ensures |Concat(KeptSentences(sentences, size, overlap))| <= |Concat(sentences)|
    ensures !NothingDropped(sentences, size, overlap) ==>
              |Concat(KeptSentences(sentences, size, overlap))| < |Concat(sentences)|
    ensures NothingDropped(sentences, size, overlap) ==> KeptSentences(sentences, size, overlap) == sentences
  {
    if sentences != [] {
      var n := |sentences| - 1;
      ConcatShrinks(sentences[..n], size, overlap);
      assert sentences == sentences[..n] + [sentences[n]];
      ConcatSnoc(KeptSentences(sentences[..n], size, overlap), KeptNext(n == 0, sentences[n], size, overlap));
    }
  }

  /** A split keeps all of its sentences exactly when the overlap is at most `size` or no sentence after the first that
      is longer than `size` is also longer than the overlap.
    */
  lemma SplitKeepsEverythingIff(text: string, size: nat, overlap: nat)
    requires Ends(text, size, overlap) && size > 0
    ensures Concat(KeptSentences(Sentences(text), size, overlap)) == Concat(Sentences(text)) <==>
              overlap <= size || forall i :: 1 <= i < |Sentences(text)| && |Sentences(text)[i]| > size ==>
                                               |Sentences(text)[i]| <= overlap
  {
    ConcatShrinks(Sentences(text), size, overlap);
  }

  /** When nothing is dropped the pieces repeat text only: dropping what each carries over from its predecessor leaves
      the input's visible characters, in order. An overlap below `size` drops nothing.
    */
  lemma OverlapOnlyRepeats(text: string, size: nat, overlap: nat) returns (added: seq<string>, carry: seq<nat>)
    requires Ends(text, size, overlap)
    requires |text| <= size || overlap < size || NothingDropped(Sentences(text), size, overlap)
    ensures Chained(Split(text, size, overlap), added, carry, overlap)
    ensures Ink(Concat(added)) == KeptInk(text, size)
  {
    added, carry := PiecesSpellKept(text, size, overlap);
    if |text| > size {
      ConcatShrinks(Sentences(text), size, overlap);
      SentencesKeepInk(text);
    }
  }

  // ----- which settings lose text -----

  predicate InSome(c: char, pieces: seq<string>) {
    exists i :: 0 <= i < |pieces| && c in pieces[i]
  }

  lemma InSomeLater(c: char, front: seq<string>, back: seq<string>)
    requires InSome(c, front) || InSome(c, back)
    ensures InSome(c, front + back)
  {
    if InSome(c, front) {
      var i :| 0 <= i < |front| && c in front[i];
      assert c in (front + back)[i];
    } else {
      var i :| 0 <= i < |back| && c in back[i];
      assert c in (front + back)[|front| + i];
    }
  }

  lemma InPart(s: string, c: char, i: nat)
    requires i <= |s| && c in s
    ensures c in s[..i] || c in s[i..]
  {
    assert s == s[..i] + s[i..];
  }

  lemma {:induction false} CutCovers(sentence: string, size: nat, overlap: nat, c: char)
    requires |sentence| <= size || Cuttable(size, overlap)
    requires !DropsFrom(sentence, size, overlap) && c in sentence
    ensures InSome(c, CutChain(sentence, size, overlap))
    decreases |sentence|
  {
    if |sentence| <= size {
      assert c in CutChain(sentence, size, overlap)[0];
    } else {
      var next := CutOnce(sentence, size, overlap);
      CutChainNext(sentence, size, overlap);
      if c in sentence[..size] {
        assert c in [sentence[..size]][0];
      } else {
        InPart(sentence, c, size);
        var k := CutOnceIsSuffix(sentence, size, overlap);
        assert c in next by { assert next[size - k..] == sentence[size..]; }
        CutCovers(next, size, overlap, c);
      }
      InSomeLater(c, [sentence[..size]], CutChain(next, size, overlap));
    }
  }

  /** n copies of a character that is neither white space nor an ender. */
  function Filler(n: nat): (r: string)
    ensures |r| == n && forall i :: 0 <= i < n ==> r[i] == 'a'
  {
    seq(n, _ => 'a')
  }

  /** A sentence of the given length whose only 'x' comes right after the first piece. */
  function Marked(size: nat, length: nat): (r: string)
    requires size < length
    ensures |r| == length && forall i :: 0 <= i < length ==> r[i] == if i == size then 'x' else 'a'
  {
    Filler(size) + "x" + Filler(length - size - 1)
  }

  lemma MarkIsCutAway(size: nat, overlap: nat, length: nat)
    requires size < overlap <= 2 * size && overlap < length
    ensures !InSome('x', CutChain(Marked(size, length), size, overlap))
  {
    LongOverlapChain(Marked(size, length), size, overlap);
  }

  /** A hard cut keeps every character of every sentence of a given length exactly when the overlap is below `size` or
      the sentence is no longer than the overlap.
    */
  lemma HardCutKeepsTextIff(size: nat, overlap: nat, length: nat)
    requires size < length && Cuttable(size, overlap)
    ensures (forall sentence: string, c :: |sentence| == length && c in sentence ==>
              InSome(c, CutChain(sentence, size, overlap)))
       <==> overlap < size || length <= overlap
  {
    if overlap < size || length <= overlap {
      forall sentence: string, c | |sentence| == length && c in sentence
        ensures InSome(c, CutChain(sentence, size, overlap))
      {
        CutCovers(sentence, size, overlap, c);
      }
    } else {
      MarkIsCutAway(size, overlap, length);
      assert Marked(size, length)[size] == 'x';
    }
  }

  /** Every visible character that does not end a sentence is found in some piece. */
  ghost predicate InkSurvives(text: string, size: nat, overlap: nat)
    requires Ends(text, size, overlap)
  {
    forall c :: c in text && !IsSpace(c) && !IsEnder(c) ==> InSome(c, Split(text, size, overlap))
  }

  lemma {:induction false} DropEndersKeeps(s: string, c: char)
    requires c in s && !IsEnder(c)
    ensures c in DropEnders(s)
  {
    if IsEnder(s[0]) { DropEndersKeeps(s[1..], c); }
  }

  lemma {:induction false} InConcat(parts: seq<string>, c: char)
    requires c in Concat(parts)
    ensures InSome(c, parts)
  {
    var init, last := parts[..|parts| - 1], parts[|parts| - 1];
    if c in last {
      assert c in parts[|parts| - 1];
    } else {
      InConcat(init, c);
      var i :| 0 <= i < |init| && c in init[i];
      assert c in parts[i];
    }
  }

  lemma NewTextIsInThePieces(chain: seq<string>, added: seq<string>, carry: seq<nat>, overlap: nat, c: char)
    requires Chained(chain, added, carry, overlap) && c in Ink(Concat(added))
    ensures InSome(c, chain)
  {
    InkMembers(Concat(added), c);
    InConcat(added, c);
    var i :| 0 <= i < |added| && c in added[i];
    InkMembers(added[i], c);
    if i > 0 {
      assert Link(chain[i - 1], chain[i], added[i], carry[i], overlap);
    }
    InkMembers(chain[i], c);
  }

  lemma ShortOverlapKeepsInk(text: string, size: nat, overlap: nat)
    requires overlap < size
    ensures InkSurvives(text, size, overlap)
  {
    var added, carry := OverlapOnlyRepeats(text, size, overlap);
    forall c | c in text && !IsSpace(c) && !IsEnder(c) ensures InSome(c, Split(text, size, overlap)) {
      InkMembers(text, c);
      DropEndersKeeps(Ink(text), c);
      NewTextIsInThePieces(Split(text, size, overlap), added, carry, overlap, c);
    }
  }

  lemma {:induction false} OpenSegmentStays(text: string, from: nat, i: nat)
    requires from <= i <= |text| && NoEnder(text[from..i])
    ensures CutTo(text, i) == CutTo(text, from)
    decreases i
  {
    if from < i {
      assert text[from..i][i - 1 - from] == text[i - 1];
      assert text[from..i - 1] == text[from..i][..i - 1 - from];
      OpenSegmentStays(text, from, i - 1);
    }
  }

  const FIRST_SENTENCE := "b。"

  lemma TwoSentences(second: string)
    requires Trimmed(second) && NoEnder(second)
    ensures Sentences(FIRST_SENTENCE + second) == [FIRST_SENTENCE, second]
  {
    var text := FIRST_SENTENCE + second;
    assert text[0] == 'b' && text[1] == '。' && text[2..] == second && text[0..2] == FIRST_SENTENCE;
    StripResult(FIRST_SENTENCE);
    StripResult(second);
    assert CutTo(text, 0) == Cutting([], 0);
    assert CutTo(text, 1) == Cutting([], 0);
    assert !OnlyEnders(FIRST_SENTENCE) by { assert !IsEnder(FIRST_SENTENCE[0]); }
    assert CutTo(text, 2) == Cutting([FIRST_SENTENCE], 2);
    assert text[2..|text|] == second;
    OpenSegmentStays(text, 2, |text|);
  }

  lemma PackTwo(first: string, second: string, size: nat, overlap: nat)
    requires Trimmed(first) && |second| > size && Cuttable(size, overlap)
    ensures var p := Pack([first, second], size, overlap);
      p.pieces + [p.current] == [first] + CutChain(second, size, overlap)
  {
    var p0, p1 := Packing([], ""), Packing([], first);
    JoinedToNothing(first);
    assert AddSentence(p0, first, size, overlap) == p1;
    assert [first][..0] == [] && [first, second][..1] == [first];
    assert Pack([], size, overlap) == p0;
    assert Pack([first], size, overlap) == p1;
    var cut := HardCut(second, size, overlap);
    Associative([first], cut.pieces, [cut.current]);
  }

  lemma NotInLonger(c: char, first: string, rest: seq<string>)
    requires c !in first && !InSome(c, rest)
    ensures !InSome(c, [first] + rest)
  {
    var all := [first] + rest;
    forall i | 0 <= i < |all| ensures c !in all[i] {
      if i > 0 { assert all[i] == rest[i - 1]; }
    }
  }

  lemma NotInSplit(text: string, sentences: seq<string>, size: nat, overlap: nat, chain: seq<string>, c: char)
    requires |text| > size && Cuttable(size, overlap) && sentences == Sentences(text)
    requires Pack(sentences, size, overlap).pieces + [Pack(sentences, size, overlap).current] == chain
    requires !InSome(c, chain)
    ensures !InSome(c, Split(text, size, overlap))
  {
    var pieces := Split(text, size, overlap);
    assert pieces <= chain;
    forall i | 0 <= i < |pieces| ensures c !in pieces[i] {
      assert pieces[i] == chain[i];
    }
  }

  lemma SecondSentenceLoses(text: string, first: string, second: string, size: nat, overlap: nat, c: char)
    requires Sentences(text) == [first, second] && |text| > size && Trimmed(first)
    requires |second| > size && Cuttable(size, overlap)
    requires c !in first && !InSome(c, CutChain(second, size, overlap))
    ensures !InSome(c, Split(text, size, overlap))
  {
    PackTwo(first, second, size, overlap);
    NotInLonger(c, first, CutChain(second, size, overlap));
    NotInSplit(text, [first, second], size, overlap, [first] + CutChain(second, size, overlap), c);
  }

  lemma MarkIsInk(size: nat, length: nat)
    requires size < length
    ensures Trimmed(Marked(size, length)) && NoEnder(Marked(size, length)) && Marked(size, length)[size] == 'x'
  {
  }

  lemma FirstSentenceShape()
    ensures Trimmed(FIRST_SENTENCE) && 'x' !in FIRST_SENTENCE
  {
  }

  /** The text whose second sentence loses its mark. */
  function MarkedText(size: nat, length: nat): (r: string)
    requires size < length
    ensures 'x' in r && |r| > length
  {
    var r := FIRST_SENTENCE + Marked(size, length);
    assert r[2 + size] == 'x';
    r
  }

  lemma MarkedIsSecond(size: nat, length: nat)
    requires size < length
    ensures Sentences(MarkedText(size, length)) == [FIRST_SENTENCE, Marked(size, length)]
    ensures Trimmed(FIRST_SENTENCE) && 'x' !in FIRST_SENTENCE
  {
    MarkIsInk(size, length);
    TwoSentences(Marked(size, length));
    FirstSentenceShape();
  }

  /** For every overlap above `size` there is a text one of whose characters is in no piece. */
  lemma LongOverlapLosesText(size: nat, overlap: nat)
    requires size < overlap <= 2 * size
    ensures 'x' in MarkedText(size, overlap + 1)
    ensures !InSome('x', Split(MarkedText(size, overlap + 1), size, overlap))
  {
    MarkedIsSecond(size, overlap + 1);
    MarkIsCutAway(size, overlap, overlap + 1);
    SecondSentenceLoses(MarkedText(size, overlap + 1), FIRST_SENTENCE, Marked(size, overlap + 1), size, overlap, 'x');
  }

  lemma LostIsNotSurviving(text: string, size: nat, overlap: nat, c: char)
    requires Ends(text, size, overlap) && c in text && !IsSpace(c) && !IsEnder(c)
    requires !InSome(c, Split(text, size, overlap))
    ensures !InkSurvives(text, size, overlap)
  {
  }

  /** Among the settings under which hard cuts end, exactly those with the overlap below `size` keep the visible
      characters of every text.
    */
  lemma EveryTextSurvivesIff(size: nat, overlap: nat)
    requires Cuttable(size, overlap)
    ensures (forall text: string :: InkSurvives(text, size, overlap)) <==> overlap < size
  {
    if overlap < size {
      forall text: string ensures InkSurvives(text, size, overlap) {
        ShortOverlapKeepsInk(text, size, overlap);
      }
    } else {
      LongOverlapLosesText(size, overlap);
      LostIsNotSurviving(MarkedText(size, overlap + 1), size, overlap, 'x');
    }
  }

  // ----- pieces without overlap, and how long pieces are -----

  lemma ChainedInit(chain: seq<string>, added: seq<string>, carry: seq<nat>, n: nat)
    requires Chained(chain, added, carry, 0) && n < |chain|
    ensures Chained(chain[..n], added[..n], carry[..n], 0)
    ensures Ink(chain[n]) == Ink(added[n])
  {
    forall i | 1 <= i < n ensures Link(chain[..n][i - 1], chain[..n][i], added[..n][i], carry[..n][i], 0) {
      assert Link(chain[i - 1], chain[i], added[i], carry[i], 0);
    }
    if n > 0 {
      assert Link(chain[n - 1], chain[n], added[n], carry[n], 0);
      assert Last(chain[n - 1], 0) == "" && Ink("") == "";
    }
  }

  lemma {:induction false} NothingCarried(chain: seq<string>, added: seq<string>, carry: seq<nat>)
    requires Chained(chain, added, carry, 0)
    ensures Ink(Concat(chain)) == Ink(Concat(added))
  {
    if chain != [] {
      var n := |chain| - 1;
      ChainedInit(chain, added, carry, n);
      NothingCarried(chain[..n], added[..n], carry[..n]);
      InkAppend(Concat(chain[..n]), chain[n]);
      InkAppend(Concat(added[..n]), added[n]);
    }
  }

  /** Without overlap the pieces partition the text. */
  lemma ZeroOverlapPartitions(text: string, size: nat)
    requires 0 < size
    ensures Ink(Concat(Split(text, size, 0))) == KeptInk(text, size)
  {
    var added, carry := OverlapOnlyRepeats(text, size, 0);
    NothingCarried(Split(text, size, 0), added, carry);
  }

  /** The bound on every piece after the first. */
  function Bound(size: nat, overlap: nat): nat {
    if overlap == 0 then size else size + overlap + 1
  }

  ghost predicate WithinBounds(chain: seq<string>, first: string, size: nat, overlap: nat) {
    && (chain != [] ==> |chain[0]| <= size || chain[0] == first)
    && forall i :: 1 <= i < |chain| ==> |chain[i]| <= Bound(size, overlap)
  }

  lemma LastWithinBounds(pieces: seq<string>, current: string, piece: string, first: string, size: nat, overlap: nat)
    requires WithinBounds(pieces + [current], first, size, overlap) && |piece| <= size
    ensures WithinBounds(pieces + [piece], first, size, overlap)
  {
    var before, after := pieces + [current], pieces + [piece];
    assert forall i :: 0 <= i < |pieces| ==> after[i] == before[i];
  }

  lemma MoreWithinBounds(chain: seq<string>, more: seq<string>, first: string, size: nat, overlap: nat)
    requires chain != [] && WithinBounds(chain, first, size, overlap)
    requires forall i :: 0 <= i < |more| ==> |more[i]| <= Bound(size, overlap)
    ensures WithinBounds(chain + more, first, size, overlap)
  {
  }

  lemma AddSentenceWithinBounds(p: Packing, first: string, sentence: string, size: nat, overlap: nat)
    requires (|sentence| <= size || Cuttable(size, overlap)) && Trimmed(sentence) && p.current != ""
    requires WithinBounds(p.pieces + [p.current], first, size, overlap)
    ensures var p' := AddSentence(p, sentence, size, overlap);
      WithinBounds(p'.pieces + [p'.current], first, size, overlap) && p'.current != ""
  {
    var chain := p.pieces + [p.current];
    if |p.current| + |sentence| + 1 <= size {
      JoinedShape(p.current, sentence);
      LastWithinBounds(p.pieces, p.current, Strip(p.current + "\n" + sentence), first, size, overlap);
    } else if |sentence| > size {
      var cut := HardCut(sentence, size, overlap);
      HardCutRestNonEmpty(sentence, size, overlap);
      MoreWithinBounds(chain, cut.pieces + [cut.current], first, size, overlap);
      Associative(chain, cut.pieces, [cut.current]);
    } else {
      var tail := Last(p.current, overlap);
      JoinedShape(tail, sentence);
      if overlap == 0 { JoinedToNothing(sentence); }
      MoreWithinBounds(chain, [Strip(tail + "\n" + sentence)], first, size, overlap);
    }
  }

  lemma {:induction false} PackWithinBounds(sentences: seq<string>, size: nat, overlap: nat)
    requires AllTrimmed(sentences) && sentences != [] && (NeverCut(sentences, size) || Cuttable(size, overlap))
    ensures var p := Pack(sentences, size, overlap);
      WithinBounds(p.pieces + [p.current], sentences[0], size, overlap) && p.current != ""
  {
    var n := |sentences| - 1;
    if n == 0 {
      JoinedToNothing(sentences[n]);
      assert Pack(sentences, size, overlap) == Packing([], sentences[n]);
    } else {
      PackWithinBounds(sentences[..n], size, overlap);
      AddSentenceWithinBounds(Pack(sentences[..n], size, overlap), sentences[0], sentences[n], size, overlap);
    }
  }

  /** Every piece after the first is bounded, and only an oversized first sentence can make the first exceed `size`. */
  lemma PiecesAreBounded(text: string, size: nat, overlap: nat, i: nat)
    requires Ends(text, size, overlap) && i < |Split(text, size, overlap)|
    ensures i > 0 ==> |Split(text, size, overlap)[i]| <= Bound(size, overlap)
    ensures i == 0 && |Split(text, size, overlap)[0]| > size ==>
              Sentences(text) != [] && Split(text, size, overlap)[0] == Sentences(text)[0]
  {
    assert Strip("") == "";
    if |text| > size {
      SentencesKeepInk(text);
      if Sentences(text) != [] {
        PackWithinBounds(Sentences(text), size, overlap);
        var p := Pack(Sentences(text), size, overlap);
        assert Split(text, size, overlap)[i] == (p.pieces + [p.current])[i];
      }
    }
  }
}
