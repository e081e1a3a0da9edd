/** Grounded answering: which hits enter the prompt under the character budget, and the second pass that
    adds the supplementary clauses when the first one reports insufficient evidence.
  */
module Rag {
  import opened Common
  import opened Hits
  import opened Text

  const MAX_HIT_CHARS := 2000
  const RETRIEVED_HEADING := "【检索到的法规片段】"
  const SUPPLEMENTARY_HEADING := "【可能对你有帮助的内容】"
  const INSUFFICIENT_EVIDENCE_MARKER := "检索到的法规片段不足以回答该问题"
  const REFUSAL_PREFIX := "检索到的法规片段不足"

  // ----- numbered blocks -----

  function SectionOf(h: Hit): string {
    if "section" in h.payload && h.payload["section"].Text? then h.payload["section"].t else ""
  }

  function JoinNonEmpty(parts: seq<string>, separator: string): string {
    if parts == [] then "" else
    var rest, last := JoinNonEmpty(parts[..|parts| - 1], separator), parts[|parts| - 1];
    if last == "" then rest else if rest == "" then last else rest + separator + last
  }

  /** The text of a hit as the model sees it, and as it is reported back. */
  function ContextOf(h: Hit): string {
    SliceTo(Strip(h.content), MAX_HIT_CHARS)
  }

  function Block(index: nat, h: Hit): string {
    var header := JoinNonEmpty([h.source, h.title, SectionOf(h)], " ｜ ");
    if header != "" then "[" + Decimal(index) + "] " + header + "\n" + ContextOf(h)
    else "[" + Decimal(index) + "]\n" + ContextOf(h)
  }

  function JoinBlocks(blocks: seq<string>): string {
    if blocks == [] then ""
    else if |blocks| == 1 then blocks[0]
    else JoinBlocks(blocks[..|blocks| - 1]) + "\n\n" + blocks[|blocks| - 1]
  }

  // ----- which hits are admitted -----

  /** What it costs to print a hit as block number n. */
  type Cost = (nat, Hit) -> nat

  function BlockCost(): Cost {
    (index: nat, h: Hit) => |Block(index, h)|
  }

  /** Characters the included blocks take. */
  function Used(cost: Cost, included: seq<Hit>): nat {
    if included == [] then 0
    else Used(cost, included[..|included| - 1]) + cost(|included|, included[|included| - 1])
  }

  /** The first block always enters; a later one only within the budget. */
  predicate Admits(cost: Cost, included: seq<Hit>, h: Hit, budget: int) {
    included == [] || Used(cost, included) + cost(|included| + 1, h) <= budget
  }

  /** What is included after offering `hits` from position i on, stopping at the first that does not fit. */
  function TakeFrom(cost: Cost, included: seq<Hit>, hits: seq<Hit>, i: nat, budget: int): seq<Hit>
    requires i <= |hits|
    decreases |hits| - i
  {
    if i == |hits| || !Admits(cost, included, hits[i], budget) then included
    else TakeFrom(cost, included + [hits[i]], hits, i + 1, budget)
  }

  function Filter(hits: seq<Hit>, flagged: bool): (r: seq<Hit>)
    ensures forall i :: 0 <= i < |r| ==> Flagged(r[i]) == flagged
  {
    if hits == [] then [] else
    Filter(hits[..|hits| - 1], flagged) + if Flagged(hits[|hits| - 1]) == flagged then [hits[|hits| - 1]] else []
  }

  function Included(cost: Cost, hits: seq<Hit>, budget: int): seq<Hit> {
    TakeFrom(cost, TakeFrom(cost, [], Filter(hits, false), 0, budget), Filter(hits, true), 0, budget)
  }

  type Show = (nat, Hit) -> string

  function ShowBlock(): Show {
    (index: nat, h: Hit) => Block(index, h)
  }

  /** The numbered blocks of the included hits of one kind. */
  function BlocksOf(show: Show, included: seq<Hit>, flagged: bool): seq<string> {
    if included == [] then [] else
    var last := included[|included| - 1];
    BlocksOf(show, included[..|included| - 1], flagged)
      + if Flagged(last) == flagged then [show(|included|, last)] else []
  }

  function Numbered(show: Show, included: seq<Hit>): (r: seq<string>)
    ensures |r| == |included|
  {
    if included == [] then []
    else Numbered(show, included[..|included| - 1]) + [show(|included|, included[|included| - 1])]
  }

  function Render(question: string, blocks: seq<string>, extra: seq<string>): string {
    var context := if blocks != [] then RETRIEVED_HEADING + "\n" + JoinBlocks(blocks)
                   else RETRIEVED_HEADING + "\n（没有检索到相关片段）";
    var whole := if extra != [] then context + "\n\n" + SUPPLEMENTARY_HEADING + "\n" + JoinBlocks(extra) else context;
    whole + "\n\n【用户问题】\n" + question
  }

  function PromptFor(question: string, hits: seq<Hit>, budget: int): string {
    var included := Included(BlockCost(), hits, budget);
    Render(question, BlocksOf(ShowBlock(), included, false), BlocksOf(ShowBlock(), included, true))
  }

  lemma OneMoreTaken(included: seq<Hit>, hits: seq<Hit>, i: nat, n: nat)
    requires i < n <= |hits|
    ensures (included + [hits[i]]) + hits[i + 1..n] == included + hits[i..n]
  {
  }

  lemma {:induction false} TakeFromIsLongestPrefix(cost: Cost, included: seq<Hit>, hits: seq<Hit>, i: nat, budget: int)
      returns (n: nat)
    requires i <= |hits|
    ensures i <= n <= |hits| && TakeFrom(cost, included, hits, i, budget) == included + hits[i..n]
    ensures n < |hits| ==> !Admits(cost, included + hits[i..n], hits[n], budget)
    ensures |included + hits[i..n]| <= 1 || |included + hits[i..n]| == |included|
            || Used(cost, included + hits[i..n]) <= budget
    decreases |hits| - i
  {
    if i == |hits| || !Admits(cost, included, hits[i], budget) {
      n := i;
      assert hits[i..n] == [] && included + [] == included;
    } else {
      var next := included + [hits[i]];
      n := TakeFromIsLongestPrefix(cost, next, hits, i + 1, budget);
      OneMoreTaken(included, hits, i, n);
      assert next[..|next| - 1] == included;
    }
  }

  /** A prefix of the primary hits, then a prefix of the supplementary ones, each as long as the budget allows;
      within the budget unless a single block is all there is.
    */
  ghost predicate LongestWithin(cost: Cost, primary: seq<Hit>, extra: seq<Hit>, included: seq<Hit>, budget: int, p: nat,
                                s: nat) {
    && p <= |primary| && s <= |extra|
    && included == primary[..p] + extra[..s]
    && (|included| <= 1 || Used(cost, included) <= budget)
    && (p < |primary| ==> p > 0 && Used(cost, primary[..p]) + cost(p + 1, primary[p]) > budget)
    && (s < |extra| ==> included != [] && Used(cost, included) + cost(|included| + 1, extra[s]) > budget)
  }

  lemma TakeTwice(cost: Cost, primary: seq<Hit>, extra: seq<Hit>, budget: int) returns (p: nat, s: nat)
    ensures var included := TakeFrom(cost, TakeFrom(cost, [], primary, 0, budget), extra, 0, budget);
      LongestWithin(cost, primary, extra, included, budget, p, s)
  {
    p := TakeFromIsLongestPrefix(cost, [], primary, 0, budget);
    var first := primary[..p];
    assert [] + primary[0..p] == first;
    s := TakeFromIsLongestPrefix(cost, first, extra, 0, budget);
    assert extra[0..s] == extra[..s];
    if s == 0 {
      assert first + extra[..s] == first;
    }
  }

  lemma IncludedIsLongest(cost: Cost, hits: seq<Hit>, budget: int) returns (p: nat, s: nat)
    ensures LongestWithin(cost, Filter(hits, false), Filter(hits, true), Included(cost, hits, budget), budget, p, s)
  {
    p, s := TakeTwice(cost, Filter(hits, false), Filter(hits, true), budget);
  }

  lemma {:induction false} FilterLoses(hits: seq<Hit>)
    ensures |Filter(hits, false)| + |Filter(hits, true)| == |hits|
  {
    if hits != [] { FilterLoses(hits[..|hits| - 1]); }
  }

  /** Something is included whenever there is anything to include. */
  lemma IncludedNonEmpty(cost: Cost, hits: seq<Hit>, budget: int)
    ensures Included(cost, hits, budget) == [] <==> hits == []
  {
    var p, s := IncludedIsLongest(cost, hits, budget);
    FilterLoses(hits);
  }

  lemma {:induction false} FilterOf(hits: seq<Hit>, flagged: bool)
    requires forall i :: 0 <= i < |hits| ==> Flagged(hits[i]) == flagged
    ensures Filter(hits, flagged) == hits && Filter(hits, !flagged) == []
  {
    if hits != [] {
      FilterOf(hits[..|hits| - 1], flagged);
      assert hits == hits[..|hits| - 1] + [hits[|hits| - 1]];
    }
  }

  lemma {:induction false} FilterAppend(a: seq<Hit>, b: seq<Hit>, flagged: bool)
    ensures Filter(a + b, flagged) == Filter(a, flagged) + Filter(b, flagged)
    decreases |b|
  {
    if b == [] {
      assert a + b == a;
    } else {
      assert (a + b)[..|a + b| - 1] == a + b[..|b| - 1];
      FilterAppend(a, b[..|b| - 1], flagged);
    }
  }

  /** Adding supplementary hits never displaces a primary one: the second prompt's blocks extend the first's. */
  lemma RetryExtends(cost: Cost, primary: seq<Hit>, extra: seq<Hit>, budget: int)
    requires forall i :: 0 <= i < |primary| ==> !Flagged(primary[i])
    requires forall i :: 0 <= i < |extra| ==> Flagged(extra[i])
    ensures Included(cost, primary, budget) <= Included(cost, primary + extra, budget)
  {
    FilterOf(primary, false);
    FilterOf(extra, true);
    FilterAppend(primary, extra, false);
    FilterAppend(primary, extra, true);
    assert primary + [] == primary && [] + extra == extra;
    var first := TakeFrom(cost, [], primary, 0, budget);
    var n := TakeFromIsLongestPrefix(cost, first, extra, 0, budget);
  }

  lemma {:induction false} UnflaggedShowNothing(show: Show, first: seq<Hit>)
    requires forall i :: 0 <= i < |first| ==> !Flagged(first[i])
    ensures BlocksOf(show, first, true) == []
  {
    if first != [] { UnflaggedShowNothing(show, first[..|first| - 1]); }
  }

  /** The retrieved section and the supplementary section together are the blocks 1 to n, in order, none missing. */
  lemma {:induction false} SectionsAreNumbered(show: Show, first: seq<Hit>, extra: seq<Hit>)
    requires forall i :: 0 <= i < |first| ==> !Flagged(first[i])
    requires forall i :: 0 <= i < |extra| ==> Flagged(extra[i])
    ensures BlocksOf(show, first + extra, false) == Numbered(show, first)
    ensures BlocksOf(show, first + extra, false) + BlocksOf(show, first + extra, true) == Numbered(show, first + extra)
    decreases |first| + |extra|
  {
    var all := first + extra;
    if extra != [] {
      var n := |extra| - 1;
      assert all[..|all| - 1] == first + extra[..n];
      SectionsAreNumbered(show, first, extra[..n]);
    } else {
      assert all == first;
      if first != [] {
        SectionsAreNumbered(show, first[..|first| - 1], extra);
        assert first[..|first| - 1] + extra == first[..|first| - 1];
        UnflaggedShowNothing(show, first);
      }
    }
  }

  /** Every prompt numbers its blocks 1 to n with no gap, primary first. */
  lemma PromptIsNumbered(show: Show, cost: Cost, hits: seq<Hit>, budget: int)
    ensures var included := Included(cost, hits, budget);
      BlocksOf(show, included, false) + BlocksOf(show, included, true) == Numbered(show, included)
  {
    var p, s := IncludedIsLongest(cost, hits, budget);
    SectionsAreNumbered(show, Filter(hits, false)[..p], Filter(hits, true)[..s]);
  }

  /** The loop that admits blocks until one no longer fits. */
  method TakeWhileFits(before: seq<Hit>, hits: seq<Hit>, budget: int) returns (included: seq<Hit>)
    ensures included == TakeFrom(BlockCost(), before, hits, 0, budget)
  {
    included := before;
    var used := Used(BlockCost(), included);
    for i := 0 to |hits|
      invariant used == Used(BlockCost(), included)
      invariant TakeFrom(BlockCost(), before, hits, 0, budget) == TakeFrom(BlockCost(), included, hits, i, budget)
    {
      var block := Block(|included| + 1, hits[i]);
      if included != [] && used + |block| > budget {
        return;
      }
      assert (included + [hits[i]])[..|included|] == included;
      included := included + [hits[i]];
      used := used + |block|;
    }
  }

  method BuildPrompt(question: string, hits: seq<Hit>, budget: int) returns (prompt: string, included: seq<Hit>)
    ensures included == Included(BlockCost(), hits, budget)
    ensures prompt == PromptFor(question, hits, budget)
  {
    var primary: seq<Hit>, supplementary: seq<Hit> := [], [];
    for i := 0 to |hits|
      invariant primary == Filter(hits[..i], false) && supplementary == Filter(hits[..i], true)
    {
      assert hits[..i + 1][..i] == hits[..i];
      if Flagged(hits[i]) {
        supplementary := supplementary + [hits[i]];
      } else {
        primary := primary + [hits[i]];
      }
    }
    assert hits[..|hits|] == hits;
    included := TakeWhileFits([], primary, budget);
    included := TakeWhileFits(included, supplementary, budget);
    prompt := Render(question, BlocksOf(ShowBlock(), included, false), BlocksOf(ShowBlock(), included, true));
  }

  // ----- answering -----

  datatype Completion = Completion(
    content: string, finishReason: string, model: string,
    cost: real, latency: nat, promptTokens: nat, completionTokens: nat)

  /** The model, given the user message and whether the prompt describes supplementary clauses; None raises. */
  type Model = (string, bool) -> Option<Completion>

  datatype Citation = Citation(index: nat, chunkId: string, parentId: string, source: string, title: string,
                               section: string, score: real, supplementary: bool)

  datatype RagAnswer = RagAnswer(
    question: string, answer: string, contexts: seq<string>, citations: seq<Citation>, retrieved: nat,
    model: string, cost: real, latency: nat, promptTokens: nat, completionTokens: nat, insufficientEvidence: bool)

  datatype Failure = CallFailed | EmptyAnswer | TruncatedAnswer

  predicate Contains(text: string, part: string) {
    exists i :: 0 <= i <= |text| && part <= text[i..]
  }

  predicate IsRefusal(text: string) {
    Contains(text, REFUSAL_PREFIX)
  }

  /** One generation call; an empty or cut-off completion is not an answer. */
  function Complete(llm: Model, message: string, withSupplementary: bool): Result<Completion, Failure> {
    var response := llm(message, withSupplementary);
    if response.None? then Err(CallFailed)
    else if Strip(response.value.content) == "" then Err(EmptyAnswer)
    else if response.value.finishReason == "length" then Err(TruncatedAnswer)
    else Ok(response.value)
  }

  function CitationOf(index: nat, h: Hit): Citation {
    Citation(index, h.id, h.parentId, h.source, h.title, SectionOf(h), h.score, Flagged(h))
  }

  function Contexts(included: seq<Hit>): (r: seq<string>)
    ensures |r| == |included|
  {
    seq(|included|, i requires 0 <= i < |included| => ContextOf(included[i]))
  }

  function Citations(included: seq<Hit>): (r: seq<Citation>)
    ensures |r| == |included|
  {
    seq(|included|, i requires 0 <= i < |included| => CitationOf(i + 1, included[i]))
  }

  /** The question as it is put to the model: with the resolved query when that says something else. */
  function AskedQuestion(question: string, retrievalQuery: Option<string>): (asked: string)
    ensures question <= asked
    ensures retrievalQuery == None || retrievalQuery.value == "" || retrievalQuery.value == question ==>
              asked == question
    ensures retrievalQuery.Some? && retrievalQuery.value != "" && retrievalQuery.value != question ==>
              asked == question + "\n（根据对话补全的检索问题：" + retrievalQuery.value + "）"
  {
    if retrievalQuery.Some? && retrievalQuery.value != "" && retrievalQuery.value != question
    then question + "\n（根据对话补全的检索问题：" + retrievalQuery.value + "）"
    else question
  }

  function Base(question: string, retrieved: nat, model: string): RagAnswer {
    RagAnswer(question, "", [], [], retrieved, model, 0.0, 0, 0, 0, false)
  }

  /** The answer built from the last completion, with what earlier calls cost added in. */
  function Finish(base: RagAnswer, last: Completion, included: seq<Hit>): RagAnswer {
    base.(answer := Strip(last.content), contexts := Contexts(included), citations := Citations(included),
          model := last.model,
          cost := base.cost + last.cost, latency := base.latency + last.latency,
          promptTokens := base.promptTokens + last.promptTokens,
          completionTokens := base.completionTokens + last.completionTokens,
          insufficientEvidence := IsRefusal(Strip(last.content)))
  }

  function Charge(base: RagAnswer, c: Completion): RagAnswer {
    base.(cost := c.cost, latency := c.latency, promptTokens := c.promptTokens, completionTokens := c.completionTokens)
  }

  /** A completion that can be used: it says something and was not cut off. */
  predicate IsAnswer(c: Completion) {
    Strip(c.content) != "" && c.finishReason != "length"
  }

  /** A call brought no answer: it raised, said nothing, or was cut off. */
  predicate FailsWith(response: Option<Completion>, f: Failure) {
    match response
    case None => f == CallFailed
    case Some(c) =>
      if Strip(c.content) == "" then f == EmptyAnswer else c.finishReason == "length" && f == TruncatedAnswer
  }

  /** The answer reports the last call's text, model and verdict, the evidence that call was shown, and what all calls
      together cost.
    */
  ghost predicate ReportsOn(question: string, retrieved: nat, calls: seq<Completion>, shown: seq<Hit>, a: RagAnswer)
    requires 1 <= |calls| <= 2
  {
    var last := calls[|calls| - 1];
    && a.question == question && a.retrieved == retrieved && a.model == last.model && a.answer == Strip(last.content)
    && a.insufficientEvidence == Contains(Strip(last.content), "检索到的法规片段不足")
    && a.contexts == Contexts(shown) && a.citations == Citations(shown)
    && a.cost == calls[0].cost + (if |calls| == 2 then last.cost else 0.0)
    && a.latency == calls[0].latency + (if |calls| == 2 then last.latency else 0)
    && a.promptTokens == calls[0].promptTokens + (if |calls| == 2 then last.promptTokens else 0)
    && a.completionTokens == calls[0].completionTokens + (if |calls| == 2 then last.completionTokens else 0)
  }

  /** What comes back: a refusal without primary hits, the first answer, or the answer of a second call that is also
      shown the supplementary hits, made exactly when there are any and the first answer is a refusal.
    */
  ghost predicate Answers(question: string, asked: string, hits: seq<Hit>, llm: Model, configuredModel: string,
                          budget: int, r: Result<RagAnswer, Failure>)
  {
    var primary, extra := Filter(hits, false), Filter(hits, true);
    var first := llm(PromptFor(asked, primary, budget), false);
    if primary == [] then
      r == Ok(RagAnswer(question, "检索到的法规片段不足以回答该问题。", [], [], |hits|, configuredModel, 0.0, 0, 0, 0, true))
    else if first.None? || !IsAnswer(first.value) then r.Err? && FailsWith(first, r.error)
    else if extra == [] || !Contains(first.value.content, "检索到的法规片段不足") then
      r.Ok? && ReportsOn(question, |hits|, [first.value], Included(BlockCost(), primary, budget), r.value)
    else
      var second := llm(PromptFor(asked, primary + extra, budget), true);
      if second.None? || !IsAnswer(second.value) then r.Err? && FailsWith(second, r.error)
      else
        && r.Ok?
        && ReportsOn(question, |hits|, [first.value, second.value], Included(BlockCost(), primary + extra, budget),
                     r.value)
  }

  method Answer(question: string, retrievalQuery: Option<string>, hits: seq<Hit>, llm: Model, configuredModel: string,
                budget: int)
      returns (r: Result<RagAnswer, Failure>)
    ensures Answers(question, AskedQuestion(question, retrievalQuery), hits, llm, configuredModel, budget, r)
  {
    var promptQuestion := question;
    if retrievalQuery.Some? && retrievalQuery.value != "" && retrievalQuery.value != question {
      promptQuestion := question + "\n（根据对话补全的检索问题：" + retrievalQuery.value + "）";
    }
    var primary, supplementary := Filter(hits, false), Filter(hits, true);
    var answer := Base(question, |hits|, configuredModel);
    var message, taken := BuildPrompt(promptQuestion, primary, budget);
    IncludedNonEmpty(BlockCost(), primary, budget);
    if taken == [] {
      assert INSUFFICIENT_EVIDENCE_MARKER + "。" == "检索到的法规片段不足以回答该问题。";
      return Ok(answer.(answer := INSUFFICIENT_EVIDENCE_MARKER + "。", insufficientEvidence := true));
    }
    var response := Complete(llm, message, false);
    if response.Err? {
      return Err(response.error);
    }
    if supplementary != [] && IsRefusal(response.value.content) {
      answer := Charge(answer, response.value);
      message, taken := BuildPrompt(promptQuestion, primary + supplementary, budget);
      response := Complete(llm, message, true);
      if response.Err? {
        return Err(response.error);
      }
    }
    r := Ok(Finish(answer, response.value, taken));
  }

  lemma {:induction false} NumberedAt(show: Show, included: seq<Hit>, i: nat)
    requires i < |included|
    ensures Numbered(show, included)[i] == show(i + 1, included[i])
  {
    if i < |included| - 1 { NumberedAt(show, included[..|included| - 1], i); }
  }

  lemma EndsWith(head: string, end: string, whole: string)
    requires whole == head + end
    ensures |end| <= |whole| && whole[|whole| - |end|..] == end
  {
  }

  lemma BlockEndsWithContext(n: nat, h: Hit)
    ensures var block, context := Block(n, h), ContextOf(h);
      |context| <= |block| && block[|block| - |context|..] == context
  {
    var header, number := JoinNonEmpty([h.source, h.title, SectionOf(h)], " ｜ "), "[" + Decimal(n) + "]";
    var head := if header != "" then number + " " + header + "\n" else number + "\n";
    assert header != "" ==> "[" + Decimal(n) + "] " + header + "\n" == head;
    assert header == "" ==> "[" + Decimal(n) + "]\n" == head;
    EndsWith(head, ContextOf(h), Block(n, h));
  }

  /** Citations and contexts match the included blocks one for one: citation n names the hit whose text is
      context n and which block n ends with.
    */
  lemma EvidenceMatchesBlocks(included: seq<Hit>, i: nat)
    requires i < |included|
    ensures Citations(included)[i]
         == Citation(i + 1, included[i].id, included[i].parentId, included[i].source, included[i].title,
                     SectionOf(included[i]), included[i].score, Flagged(included[i]))
    ensures Contexts(included)[i] <= Strip(included[i].content)
    ensures |Contexts(included)[i]| == Min(2000, |Strip(included[i].content)|)
    ensures var block, context := Numbered(ShowBlock(), included)[i], Contexts(included)[i];
      |context| <= |block| && block[|block| - |context|..] == context
  {
    NumberedAt(ShowBlock(), included, i);
    BlockEndsWithContext(i + 1, included[i]);
  }

  lemma ContextsOfFront(front: seq<Hit>, all: seq<Hit>)
    requires front <= all
    ensures Contexts(front) <= Contexts(all)
  {
  }

  /** The retry's contexts extend the first pass's: no evidence the first call saw is withdrawn. */
  lemma RetryContextsExtend(hits: seq<Hit>, budget: int)
    ensures Contexts(Included(BlockCost(), Filter(hits, false), budget))
         <= Contexts(Included(BlockCost(), Filter(hits, false) + Filter(hits, true), budget))
  {
    var primary, extra := Filter(hits, false), Filter(hits, true);
    RetryExtends(BlockCost(), primary, extra, budget);
    ContextsOfFront(Included(BlockCost(), primary, budget), Included(BlockCost(), primary + extra, budget));
  }
}
