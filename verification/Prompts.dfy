/** What the model is shown: the text of one block and of the whole prompt. */
module Prompts {
  import opened Common
  import opened Hits
  import opened Text
  import opened Rag

  /** Two parts of a heading; an empty part leaves no bar. */
  function Beside(a: string, b: string): string {
    if a == "" then b else if b == "" then a else a + " ｜ " + b
  }

  /** Block n shows its number, the heading if there is one, and the first 2000 characters of the hit. */
  lemma BlockReads(n: nat, h: Hit, section: string)
    requires if "section" in h.payload && h.payload["section"].Text? then section == h.payload["section"].t
             else section == ""
    ensures var heading, text := Beside(Beside(h.source, h.title), section), Strip(h.content);
      ShowBlock()(n, h) == "[" + Decimal(n) + "]" + (if heading == "" then "" else " " + heading) + "\n"
                           + text[..Min(2000, |text|)]
  {
    var parts := [h.source, h.title, section];
    assert parts[..2] == [h.source, h.title] && parts[..2][..1] == [h.source];
    assert JoinNonEmpty([h.source], " ｜ ") == h.source;
    assert JoinNonEmpty(parts[..2], " ｜ ") == Beside(h.source, h.title);
    assert JoinNonEmpty(parts, " ｜ ") == Beside(Beside(h.source, h.title), section);
    var heading := Beside(Beside(h.source, h.title), section);
    var number := "[" + Decimal(n) + "]";
    if heading != "" {
      assert "[" + Decimal(n) + "] " + heading == number + (" " + heading);
    } else {
      assert number + "" == number;
      assert "[" + Decimal(n) + "]\n" == number + "\n";
    }
  }

  /** The hits shown as blocks numbered from n. */
  function BlocksFrom(show: Show, hits: seq<Hit>, n: nat): (r: seq<string>)
    ensures |r| == |hits|
  {
    seq(|hits|, i requires 0 <= i < |hits| => show(n + i, hits[i]))
  }

  /** Blocks with an empty line between them. */
  function Spaced(blocks: seq<string>): string {
    if |blocks| == 0 then "" else if |blocks| == 1 then blocks[0] else blocks[0] + "\n\n" + Spaced(blocks[1..])
  }

  function Length(blocks: seq<string>): nat {
    if blocks == [] then 0 else |blocks[0]| + Length(blocks[1..])
  }

  lemma {:induction false} SpacedOneMore(blocks: seq<string>, last: string)
    requires blocks != []
    ensures Spaced(blocks + [last]) == Spaced(blocks) + "\n\n" + last
  {
    if |blocks| > 1 {
      assert (blocks + [last])[1..] == blocks[1..] + [last];
      SpacedOneMore(blocks[1..], last);
    } else {
      assert (blocks + [last])[1..] == [last];
    }
  }

  lemma {:induction false} JoinedIsSpaced(blocks: seq<string>)
    ensures JoinBlocks(blocks) == Spaced(blocks)
  {
    if |blocks| > 1 {
      var init := blocks[..|blocks| - 1];
      JoinedIsSpaced(init);
      SpacedOneMore(init, blocks[|blocks| - 1]);
      assert blocks == init + [blocks[|blocks| - 1]];
    }
  }

  lemma {:induction false} LengthAppend(a: seq<string>, b: seq<string>)
    ensures Length(a + b) == Length(a) + Length(b)
  {
    if a == [] {
      assert a + b == b;
    } else {
      assert (a + b)[1..] == a[1..] + b;
      LengthAppend(a[1..], b);
    }
  }

  /** A block costs its length. */
  ghost predicate Measures(cost: Cost, show: Show) {
    forall n, h :: cost(n, h) == |show(n, h)|
  }

  lemma {:induction false} NumberedFromOne(cost: Cost, show: Show, included: seq<Hit>)
    requires Measures(cost, show)
    ensures Numbered(show, included) == BlocksFrom(show, included, 1)
    ensures Used(cost, included) == Length(BlocksFrom(show, included, 1))
  {
    if included != [] {
      var init, last := included[..|included| - 1], show(|included|, included[|included| - 1]);
      NumberedFromOne(cost, show, init);
      assert BlocksFrom(show, included, 1) == BlocksFrom(show, init, 1) + [last];
      LengthAppend(BlocksFrom(show, init, 1), [last]);
      assert [last][1..] == [];
    }
  }

  lemma FromSplits(cost: Cost, show: Show, a: seq<Hit>, b: seq<Hit>)
    requires Measures(cost, show)
    ensures BlocksFrom(show, a + b, 1) == BlocksFrom(show, a, 1) + BlocksFrom(show, b, |a| + 1)
    ensures Used(cost, a + b) == Length(BlocksFrom(show, a, 1)) + Length(BlocksFrom(show, b, |a| + 1))
  {
    assert BlocksFrom(show, a + b, 1) == BlocksFrom(show, a, 1) + BlocksFrom(show, b, |a| + 1);
    NumberedFromOne(cost, show, a + b);
    LengthAppend(BlocksFrom(show, a, 1), BlocksFrom(show, b, |a| + 1));
  }

  /** As many blocks of each kind as the budget allows, primary ones first; one block is always shown. */
  ghost predicate FillsBudget(show: Show, primary: seq<Hit>, extra: seq<Hit>, budget: int, p: nat, s: nat) {
    && p <= |primary| && s <= |extra|
    && (p + s <= 1 || Length(BlocksFrom(show, primary[..p], 1)) + Length(BlocksFrom(show, extra[..s], p + 1)) <= budget)
    && (p < |primary| ==> p > 0 && Length(BlocksFrom(show, primary[..p + 1], 1)) > budget)
    && (s < |extra| ==>
          p + s > 0
          && Length(BlocksFrom(show, primary[..p], 1)) + Length(BlocksFrom(show, extra[..s + 1], p + 1)) > budget)
  }

  lemma OneMoreUsed(cost: Cost, included: seq<Hit>, h: Hit)
    ensures Used(cost, included + [h]) == Used(cost, included) + cost(|included| + 1, h)
  {
    assert (included + [h])[..|included|] == included;
  }

  lemma TakeOneMore(hits: seq<Hit>, n: nat)
    requires n < |hits|
    ensures hits[..n] + [hits[n]] == hits[..n + 1]
  {
  }

  lemma BudgetIsFilled(cost: Cost, show: Show, primary: seq<Hit>, extra: seq<Hit>, included: seq<Hit>, budget: int,
                       p: nat, s: nat)
    requires Measures(cost, show) && LongestWithin(cost, primary, extra, included, budget, p, s)
    ensures FillsBudget(show, primary, extra, budget, p, s)
  {
    var front, back := primary[..p], extra[..s];
    FromSplits(cost, show, front, back);
    if p < |primary| {
      OneMoreUsed(cost, front, primary[p]);
      NumberedFromOne(cost, show, front + [primary[p]]);
      TakeOneMore(primary, p);
    }
    if s < |extra| {
      OneMoreUsed(cost, included, extra[s]);
      FromSplits(cost, show, front, back + [extra[s]]);
      Associative(front, back, [extra[s]]);
      TakeOneMore(extra, s);
    }
  }

  /** The two sections are the blocks from 1 and the blocks that go on from there. */
  lemma SectionsRead(cost: Cost, show: Show, front: seq<Hit>, extra: seq<Hit>)
    requires Measures(cost, show)
    requires forall i :: 0 <= i < |front| ==> !Flagged(front[i])
    requires forall i :: 0 <= i < |extra| ==> Flagged(extra[i])
    ensures BlocksOf(show, front + extra, false) == BlocksFrom(show, front, 1)
    ensures BlocksOf(show, front + extra, true) == BlocksFrom(show, extra, |front| + 1)
  {
    SectionsAreNumbered(show, front, extra);
    FromSplits(cost, show, front, extra);
    NumberedFromOne(cost, show, front);
    NumberedFromOne(cost, show, front + extra);
    var a, b, c := BlocksOf(show, front + extra, false), BlocksOf(show, front + extra, true),
                   BlocksFrom(show, extra, |front| + 1);
    assert a + b == a + c;
    assert (a + b)[|a|..] == b && (a + c)[|a|..] == c;
  }

  /** The prompt shows the blocks found, then the supplementary ones under their own heading, then the question. */
  ghost predicate Reads(question: string, found: seq<string>, extra: seq<string>, prompt: string) {
    prompt == "【检索到的法规片段】\n" + (if found == [] then "（没有检索到相关片段）" else Spaced(found))
              + (if extra == [] then "" else "\n\n【可能对你有帮助的内容】\n" + Spaced(extra))
              + "\n\n【用户问题】\n" + question
  }

  lemma RenderReads(question: string, found: seq<string>, extra: seq<string>)
    ensures Reads(question, found, extra, Render(question, found, extra))
  {
    JoinedIsSpaced(found);
    JoinedIsSpaced(extra);
    var context := "【检索到的法规片段】\n" + if found == [] then "（没有检索到相关片段）" else Spaced(found);
    assert found == [] ==> RETRIEVED_HEADING + "\n（没有检索到相关片段）" == context;
    assert found != [] ==> RETRIEVED_HEADING + "\n" + JoinBlocks(found) == context;
    assert extra != [] ==> context + "\n\n" + SUPPLEMENTARY_HEADING + "\n" + JoinBlocks(extra)
                           == context + ("\n\n【可能对你有帮助的内容】\n" + Spaced(extra));
  }

  lemma SectionsFill(cost: Cost, show: Show, hits: seq<Hit>, budget: int) returns (p: nat, s: nat)
    requires Measures(cost, show)
    ensures FillsBudget(show, Filter(hits, false), Filter(hits, true), budget, p, s)
    ensures BlocksOf(show, Included(cost, hits, budget), false) == BlocksFrom(show, Filter(hits, false)[..p], 1)
    ensures BlocksOf(show, Included(cost, hits, budget), true) == BlocksFrom(show, Filter(hits, true)[..s], p + 1)
  {
    var primary, extra := Filter(hits, false), Filter(hits, true);
    p, s := IncludedIsLongest(cost, hits, budget);
    BudgetIsFilled(cost, show, primary, extra, Included(cost, hits, budget), budget, p, s);
    SectionsRead(cost, show, primary[..p], extra[..s]);
  }

  lemma BlocksAreMeasured()
    ensures Measures(BlockCost(), ShowBlock())
  {
  }

  /** The whole prompt, for any hits and any budget. */
  lemma PromptReads(question: string, hits: seq<Hit>, budget: int) returns (p: nat, s: nat)
    ensures FillsBudget(ShowBlock(), Filter(hits, false), Filter(hits, true), budget, p, s)
    ensures Reads(question, BlocksFrom(ShowBlock(), Filter(hits, false)[..p], 1),
                  BlocksFrom(ShowBlock(), Filter(hits, true)[..s], p + 1), PromptFor(question, hits, budget))
  {
    BlocksAreMeasured();
    p, s := SectionsFill(BlockCost(), ShowBlock(), hits, budget);
    RenderReads(question, BlocksFrom(ShowBlock(), Filter(hits, false)[..p], 1),
                BlocksFrom(ShowBlock(), Filter(hits, true)[..s], p + 1));
  }

  /** Positions of `hits`, in rising order, exactly those of one kind. */
  ghost predicate PositionsOf(hits: seq<Hit>, flagged: bool, at: seq<nat>) {
    && (forall i :: 0 <= i < |at| ==> at[i] < |hits| && Flagged(hits[at[i]]) == flagged)
    && (forall i, j :: 0 <= i < j < |at| ==> at[i] < at[j])
    && forall k :: 0 <= k < |hits| && Flagged(hits[k]) == flagged ==> k in at
  }

  lemma NoPositionMore(init: seq<Hit>, last: Hit, flagged: bool, at: seq<nat>)
    requires PositionsOf(init, flagged, at) && Flagged(last) != flagged
    ensures PositionsOf(init + [last], flagged, at) && Picked(init + [last], at) == Picked(init, at)
  {
    var hits := init + [last];
    assert forall i :: 0 <= i < |at| ==> hits[at[i]] == init[at[i]];
    assert forall k :: 0 <= k < |init| ==> hits[k] == init[k];
  }

  lemma OnePositionMore(init: seq<Hit>, last: Hit, flagged: bool, at: seq<nat>)
    requires PositionsOf(init, flagged, at) && Flagged(last) == flagged
    ensures PositionsOf(init + [last], flagged, at + [|init|])
    ensures Picked(init + [last], at + [|init|]) == Picked(init, at) + [last]
  {
    var hits, more := init + [last], at + [|init|];
    assert forall i :: 0 <= i < |at| ==> more[i] == at[i] && hits[at[i]] == init[at[i]];
    assert more[|at|] == |init|;
    forall k | 0 <= k < |hits| && Flagged(hits[k]) == flagged ensures k in more {
      assert k < |init| ==> hits[k] == init[k] && k in at;
    }
  }

  /** The hits of one kind are all of them, in the order they came. */
  lemma {:induction false} FilterKeepsOrder(hits: seq<Hit>, flagged: bool) returns (at: seq<nat>)
    ensures PositionsOf(hits, flagged, at) && Filter(hits, flagged) == Picked(hits, at)
  {
    at := [];
    if hits != [] {
      var init, last := hits[..|hits| - 1], hits[|hits| - 1];
      assert hits == init + [last];
      at := FilterKeepsOrder(init, flagged);
      if Flagged(last) == flagged {
        OnePositionMore(init, last, flagged, at);
        at := at + [|init|];
      } else {
        NoPositionMore(init, last, flagged, at);
      }
    }
  }
}
