/** What the parser makes of a model's answer, stated without its loops: which entities of a clause are kept and why the
    others are not, and which items of the answer count.
  */
module EntityAnswers {
  import opened Common
  import opened Entities
  import opened Text

  // ----- which of one clause's entities are kept, and why the others are not -----

  predicate UnknownType(v: Vocabulary, e: RawEntity) {
    e.RawEntity? && v.resolveType(e.typeToken).None?
  }

  predicate BadName(v: Vocabulary, e: RawEntity) {
    e.RawEntity? && v.resolveType(e.typeToken).Some? && !(2 <= |v.normalizeName(e.name)| <= 20)
  }

  predicate Acceptable(v: Vocabulary, e: RawEntity) {
    e.RawEntity? && v.resolveType(e.typeToken).Some? && 2 <= |v.normalizeName(e.name)| <= 20
  }

  function PairFor(v: Vocabulary, e: RawEntity): (string, string)
    requires Acceptable(v, e)
  {
    (v.resolveType(e.typeToken).value, v.normalizeName(e.name))
  }

  /** The pairs of the acceptable entities, in order. */
  function AcceptablePairs(v: Vocabulary, entities: seq<RawEntity>): seq<(string, string)> {
    if entities == [] then []
    else
      var last := entities[|entities| - 1];
      AcceptablePairs(v, entities[..|entities| - 1]) + if Acceptable(v, last) then [PairFor(v, last)] else []
  }

  /** The first five distinct ones. */
  function FirstFive(v: Vocabulary, entities: seq<RawEntity>): seq<(string, string)> {
    SliceTo(Distinct(AcceptablePairs(v, entities)), 5)
  }

  /** The tests an entity is counted by, given the pairs that are kept. */
  datatype Test = IsEntity | HasUnknownType | HasBadName | HasKeptPair | HasOtherPair

  predicate Meets(v: Vocabulary, test: Test, kept: seq<(string, string)>, e: RawEntity) {
    match test
    case IsEntity => e.RawEntity?
    case HasUnknownType => UnknownType(v, e)
    case HasBadName => BadName(v, e)
    case HasKeptPair => Acceptable(v, e) && PairFor(v, e) in kept
    case HasOtherPair => Acceptable(v, e) && PairFor(v, e) !in kept
  }

  function HowMany(v: Vocabulary, test: Test, kept: seq<(string, string)>, entities: seq<RawEntity>): nat {
    if entities == [] then 0
    else
      HowMany(v, test, kept, entities[..|entities| - 1])
        + if Meets(v, test, kept, entities[|entities| - 1]) then 1 else 0
  }

  lemma AcceptablePairsSnoc(v: Vocabulary, init: seq<RawEntity>, e: RawEntity)
    ensures AcceptablePairs(v, init + [e])
         == AcceptablePairs(v, init) + if Acceptable(v, e) then [PairFor(v, e)] else []
    ensures var distinct := Distinct(AcceptablePairs(v, init));
      Distinct(AcceptablePairs(v, init + [e]))
        == distinct + if Acceptable(v, e) && PairFor(v, e) !in distinct then [PairFor(v, e)] else []
  {
    assert (init + [e])[..|init|] == init;
    var pairs := AcceptablePairs(v, init);
    if Acceptable(v, e) {
      assert (pairs + [PairFor(v, e)])[..|pairs|] == pairs;
    } else {
      assert pairs + [] == pairs;
    }
  }

  lemma KeptNext(v: Vocabulary, distinct: seq<(string, string)>, t: Tally, e: RawEntity)
    requires t.kept == SliceTo(distinct, 5) && (t.overLimit > 0 ==> |t.kept| == 5)
    ensures var t' := Judge(v, t, e);
      && t'.kept
           == SliceTo(distinct + if Acceptable(v, e) && PairFor(v, e) !in distinct then [PairFor(v, e)] else [], 5)
      && (t'.overLimit > 0 ==> |t'.kept| == 5)
  {
    if Acceptable(v, e) {
      var pair := PairFor(v, e);
      if pair !in distinct {
        assert pair !in t.kept by { assert forall k :: 0 <= k < |t.kept| ==> t.kept[k] == distinct[k]; }
      } else if |distinct| <= 5 {
        assert t.kept == distinct;
      }
    }
  }

  lemma {:induction false} PairsAreCollected(v: Vocabulary, entities: seq<RawEntity>, i: nat)
    requires i < |entities| && Acceptable(v, entities[i])
    ensures PairFor(v, entities[i]) in AcceptablePairs(v, entities)
  {
    if i < |entities| - 1 { PairsAreCollected(v, entities[..|entities| - 1], i); }
  }

  /** An entity is kept when its pair is one of the first five distinct acceptable ones and it is its first bearer. */
  lemma {:induction false} KeptAreTheFirstFive(v: Vocabulary, entities: seq<RawEntity>)
    ensures JudgeAll(v, entities).kept == FirstFive(v, entities)
    ensures JudgeAll(v, entities).overLimit > 0 ==> |JudgeAll(v, entities).kept| == 5
  {
    if entities != [] {
      var init, last := entities[..|entities| - 1], entities[|entities| - 1];
      KeptAreTheFirstFive(v, init);
      assert entities == init + [last];
      AcceptablePairsSnoc(v, init, last);
      KeptNext(v, Distinct(AcceptablePairs(v, init)), JudgeAll(v, init), last);
    }
  }

  /** While fewer than five are kept, every acceptable pair so far is kept. */
  lemma RoomKeepsAll(v: Vocabulary, entities: seq<RawEntity>, i: nat)
    requires i < |entities| && Acceptable(v, entities[i]) && |FirstFive(v, entities)| < 5
    ensures PairFor(v, entities[i]) in FirstFive(v, entities)
  {
    PairsAreCollected(v, entities, i);
    assert FirstFive(v, entities) == Distinct(AcceptablePairs(v, entities));
  }

  /** How often each reason applies: unknown types and bad names as they are tested, duplicates among the kept pairs,
      and whatever acceptable pair is not kept is over the limit.
    */
  ghost predicate ReasonsCounted(v: Vocabulary, entities: seq<RawEntity>, t: Tally) {
    && t.raw == HowMany(v, IsEntity, t.kept, entities)
    && t.unknownTypes == HowMany(v, HasUnknownType, t.kept, entities)
    && t.invalidNames == HowMany(v, HasBadName, t.kept, entities)
    && t.duplicates + |t.kept| == HowMany(v, HasKeptPair, t.kept, entities)
    && t.overLimit == HowMany(v, HasOtherPair, t.kept, entities)
  }

  lemma {:induction false} HowManyAgree(v: Vocabulary, test: Test, kept: seq<(string, string)>,
                                        kept': seq<(string, string)>, entities: seq<RawEntity>)
    requires forall i :: 0 <= i < |entities| ==> Meets(v, test, kept, entities[i]) == Meets(v, test, kept', entities[i])
    ensures HowMany(v, test, kept, entities) == HowMany(v, test, kept', entities)
  {
    if entities != [] { HowManyAgree(v, test, kept, kept', entities[..|entities| - 1]); }
  }

  lemma KeptPairsNext(v: Vocabulary, test: Test, init: seq<RawEntity>, kept: seq<(string, string)>,
                      kept': seq<(string, string)>)
    requires kept == FirstFive(v, init) && kept <= kept' && (kept' == kept || |kept| < 5)
    ensures HowMany(v, test, kept', init) == HowMany(v, test, kept, init)
  {
    if kept' != kept {
      forall i | 0 <= i < |init| && Acceptable(v, init[i]) ensures PairFor(v, init[i]) in kept {
        RoomKeepsAll(v, init, i);
      }
      assert forall p :: p in kept ==> p in kept';
    }
    HowManyAgree(v, test, kept', kept, init);
  }

  lemma {:induction false} ReasonsAreCounted(v: Vocabulary, entities: seq<RawEntity>)
    ensures ReasonsCounted(v, entities, JudgeAll(v, entities))
  {
    if entities != [] {
      var init, last := entities[..|entities| - 1], entities[|entities| - 1];
      ReasonsAreCounted(v, init);
      KeptAreTheFirstFive(v, init);
      forall test: Test
        ensures HowMany(v, test, JudgeAll(v, entities).kept, init) == HowMany(v, test, JudgeAll(v, init).kept, init)
      {
        KeptPairsNext(v, test, init, JudgeAll(v, init).kept, JudgeAll(v, entities).kept);
      }
    }
  }

  /** What is kept of one clause's entities and how the rest is counted. */
  lemma EntitiesAreJudged(v: Vocabulary, entities: seq<RawEntity>)
    ensures var t := JudgeAll(v, entities);
      && t.kept == SliceTo(Distinct(AcceptablePairs(v, entities)), 5)
      && ReasonsCounted(v, entities, t)
      && (t.overLimit > 0 ==> |t.kept| == 5)
  {
    KeptAreTheFirstFive(v, entities);
    ReasonsAreCounted(v, entities);
  }

  // ----- what a whole answer comes to, clause by clause -----

  /** The first item of the answer with its reference. */
  predicate FirstWithRef(items: seq<RawItem>, i: nat)
    requires i < |items|
  {
    items[i].RawItem?
    && forall j :: 0 <= j < i && items[j].RawItem? ==> Strip(items[j].ref) != Strip(items[i].ref)
  }

  /** A clause the model answered for, and the entities it gave. */
  datatype Reply = Reply(ref: string, clauseId: string, entities: seq<RawEntity>)

  function AnsweredBy(refs: map<string, string>, item: RawItem): Reply
    requires item.RawItem? && Strip(item.ref) in refs
  {
    Reply(Strip(item.ref), refs[Strip(item.ref)], if item.entities.None? then [] else item.entities.value)
  }

  /** The first item for each reference that was sent, in the order of the answer. */
  function Answers(refs: map<string, string>, items: seq<RawItem>): seq<Reply> {
    if items == [] then []
    else
      var n := |items| - 1;
      Answers(refs, items[..n])
        + if FirstWithRef(items, n) && Strip(items[n].ref) in refs then [AnsweredBy(refs, items[n])] else []
  }

  /** How many different references were never sent. */
  function StrayRefs(refs: map<string, string>, items: seq<RawItem>): nat {
    if items == [] then 0
    else
      var n := |items| - 1;
      StrayRefs(refs, items[..n]) + if FirstWithRef(items, n) && Strip(items[n].ref) !in refs then 1 else 0
  }

  function MentionsOf(v: Vocabulary, answers: seq<Reply>): seq<Mention> {
    if answers == [] then []
    else
      var last := answers[|answers| - 1];
      MentionsOf(v, answers[..|answers| - 1]) + MentionsFrom(last.clauseId, FirstFive(v, last.entities))
  }

  /** Over all answered clauses, how many entities meet a test. */
  function Total(v: Vocabulary, test: Test, answers: seq<Reply>): nat {
    if answers == [] then 0
    else
      var last := answers[|answers| - 1];
      Total(v, test, answers[..|answers| - 1]) + HowMany(v, test, FirstFive(v, last.entities), last.entities)
  }

  lemma {:induction false} SeenAreTheRefs(v: Vocabulary, refs: map<string, string>, items: seq<RawItem>, ref: string)
    ensures ref in ReadItems(v, refs, items).seen <==>
              exists j :: 0 <= j < |items| && items[j].RawItem? && Strip(items[j].ref) == ref
  {
    if items != [] {
      var init := items[..|items| - 1];
      SeenAreTheRefs(v, refs, init, ref);
      assert forall j :: 0 <= j < |init| ==> init[j] == items[j];
    }
  }

  lemma FirstIsUnseen(v: Vocabulary, refs: map<string, string>, items: seq<RawItem>)
    requires items != []
    ensures var n := |items| - 1;
      FirstWithRef(items, n) <==>
        items[n].RawItem? && Strip(items[n].ref) !in ReadItems(v, refs, items[..n]).seen
  {
    var n := |items| - 1;
    if items[n].RawItem? {
      SeenAreTheRefs(v, refs, items[..n], Strip(items[n].ref));
      assert forall j :: 0 <= j < n ==> items[..n][j] == items[j];
    }
  }

  /** What the reading holds after all items: the kept pairs of the answered clauses, and every count. */
  ghost predicate ReadingIs(v: Vocabulary, refs: map<string, string>, items: seq<RawItem>, e: Extraction) {
    var answers := Answers(refs, items);
    && e.mentions == MentionsOf(v, answers)
    && e.stats.refsSent == |refs| && e.stats.refsReturned == |answers| && e.stats.refsUnknown == StrayRefs(refs, items)
    && e.stats.rawEntities == Total(v, IsEntity, answers)
    && e.stats.unknownTypes == Total(v, HasUnknownType, answers)
    && e.stats.invalidNames == Total(v, HasBadName, answers)
    && e.stats.duplicates + |e.mentions| == Total(v, HasKeptPair, answers)
    && e.stats.overLimit == Total(v, HasOtherPair, answers)
  }

  lemma AnswerJoins(v: Vocabulary, answers: seq<Reply>, last: Reply)
    ensures MentionsOf(v, answers + [last])
         == MentionsOf(v, answers) + MentionsFrom(last.clauseId, FirstFive(v, last.entities))
    ensures forall test: Test ::
              Total(v, test, answers + [last])
                == Total(v, test, answers) + HowMany(v, test, FirstFive(v, last.entities), last.entities)
  {
    assert (answers + [last])[..|answers|] == answers;
  }

  lemma NothingFromNone(v: Vocabulary, clauseId: string, before: seq<Mention>)
    ensures FirstFive(v, []) == [] && before + MentionsFrom(clauseId, FirstFive(v, [])) == before
    ensures forall test: Test, kept :: HowMany(v, test, kept, []) == 0
  {
  }

  /** A counted item adds one answered clause. */
  lemma ReadingGrows(v: Vocabulary, refs: map<string, string>, items: seq<RawItem>, before: Reading)
    requires items != [] && ReadingIs(v, refs, items[..|items| - 1], before.result)
    requires FirstWithRef(items, |items| - 1) && Strip(items[|items| - 1].ref) in refs
    requires Strip(items[|items| - 1].ref) !in before.seen
    ensures ReadingIs(v, refs, items, ReadItem(v, refs, before, items[|items| - 1]).result)
  {
    var n := |items| - 1;
    var last := AnsweredBy(refs, items[n]);
    AnswerJoins(v, Answers(refs, items[..n]), last);
    EntitiesAreJudged(v, last.entities);
    assert Answers(refs, items) == Answers(refs, items[..n]) + [last];
    if items[n].entities.None? {
      NothingFromNone(v, last.clauseId, MentionsOf(v, Answers(refs, items[..n])));
    }
  }

  lemma ReadingNext(v: Vocabulary, refs: map<string, string>, items: seq<RawItem>)
    requires items != []
    requires ReadingIs(v, refs, items[..|items| - 1], ReadItems(v, refs, items[..|items| - 1]).result)
    ensures ReadingIs(v, refs, items, ReadItems(v, refs, items).result)
  {
    var n := |items| - 1;
    FirstIsUnseen(v, refs, items);
    if FirstWithRef(items, n) && Strip(items[n].ref) in refs {
      ReadingGrows(v, refs, items, ReadItems(v, refs, items[..n]));
    } else {
      assert Answers(refs, items) == Answers(refs, items[..n]);
    }
  }

  lemma {:induction false} ReadItemsAre(v: Vocabulary, refs: map<string, string>, items: seq<RawItem>)
    ensures ReadingIs(v, refs, items, ReadItems(v, refs, items).result)
  {
    if items != [] {
      ReadItemsAre(v, refs, items[..|items| - 1]);
      ReadingNext(v, refs, items);
    }
  }

  /** What a parse returns, whatever the model answered: the first five distinct acceptable pairs of each answered
      clause, in the order of the answer, and every count.
    */
  lemma ParsedIs(v: Vocabulary, refs: map<string, string>, items: seq<RawItem>)
    ensures var e, answers := Parsed(v, refs, items), Answers(refs, items);
      && ReadingIs(v, refs, items, e)
      && e.stats.refsMissing == |refs| - |answers| && e.stats.mentions == |e.mentions|
      && e.stats.entities == |set m | m in e.mentions :: (m.typeKey, m.name)|
  {
    ReadItemsAre(v, refs, items);
  }

  lemma {:induction false} AnswersAreSent(refs: map<string, string>, items: seq<RawItem>, k: nat) returns (j: nat)
    requires k < |Answers(refs, items)|
    ensures j < |items| && FirstWithRef(items, j) && Strip(items[j].ref) in refs
    ensures Answers(refs, items)[k] == AnsweredBy(refs, items[j])
  {
    var n := |items| - 1;
    if k < |Answers(refs, items[..n])| {
      j := AnswersAreSent(refs, items[..n], k);
      assert forall i :: 0 <= i <= j ==> items[..n][i] == items[i];
    } else {
      j := n;
    }
  }

  lemma {:induction false} AnswersDiffer(refs: map<string, string>, items: seq<RawItem>, k: nat, l: nat)
    requires k < l < |Answers(refs, items)|
    ensures Answers(refs, items)[k].ref != Answers(refs, items)[l].ref
  {
    var n := |items| - 1;
    if l < |Answers(refs, items[..n])| {
      AnswersDiffer(refs, items[..n], k, l);
    } else {
      var j := AnswersAreSent(refs, items[..n], k);
      assert items[..n][j] == items[j];
    }
  }

  lemma {:induction false} NoAnswerFor(v: Vocabulary, answers: seq<Reply>, id: string)
    requires forall l :: 0 <= l < |answers| ==> answers[l].clauseId != id
    ensures PairsOf(MentionsOf(v, answers), id) == []
  {
    if answers != [] {
      var init, last := answers[..|answers| - 1], answers[|answers| - 1];
      NoAnswerFor(v, init, id);
      PairsOfAppend(MentionsOf(v, init), MentionsFrom(last.clauseId, FirstFive(v, last.entities)), id);
      PairsOfMentionsFrom(last.clauseId, FirstFive(v, last.entities), id);
    }
  }

  lemma {:induction false} OnlyAnswerFor(v: Vocabulary, answers: seq<Reply>, k: nat)
    requires k < |answers|
    requires forall l :: 0 <= l < |answers| && l != k ==> answers[l].clauseId != answers[k].clauseId
    ensures PairsOf(MentionsOf(v, answers), answers[k].clauseId) == FirstFive(v, answers[k].entities)
  {
    var init, last, id := answers[..|answers| - 1], answers[|answers| - 1], answers[k].clauseId;
    PairsOfAppend(MentionsOf(v, init), MentionsFrom(last.clauseId, FirstFive(v, last.entities)), id);
    PairsOfMentionsFrom(last.clauseId, FirstFive(v, last.entities), id);
    assert forall l :: 0 <= l < |init| ==> init[l] == answers[l];
    if k < |init| {
      OnlyAnswerFor(v, init, k);
      assert FirstFive(v, init[k].entities) + [] == FirstFive(v, init[k].entities);
    } else {
      NoAnswerFor(v, init, id);
    }
  }

  lemma AnsweredClausesDiffer(clauses: seq<ClauseInput>, items: seq<RawItem>, k: nat, l: nat)
    requires NoDuplicates(ClauseIds(clauses)) && k < l < |Answers(RefMap(clauses), items)|
    ensures Answers(RefMap(clauses), items)[k].clauseId != Answers(RefMap(clauses), items)[l].clauseId
  {
    var answers := Answers(RefMap(clauses), items);
    var i := AnswersAreSent(RefMap(clauses), items, k);
    var j := AnswersAreSent(RefMap(clauses), items, l);
    AnswersDiffer(RefMap(clauses), items, k, l);
    if answers[k].clauseId == answers[l].clauseId {
      RefsSeparateClauses(clauses, answers[k].ref, answers[l].ref);
    }
  }

  /** An answered clause has the first five distinct acceptable pairs of its first item. */
  lemma AnsweredClauseIs(v: Vocabulary, clauses: seq<ClauseInput>, items: seq<RawItem>, k: nat)
    requires NoDuplicates(ClauseIds(clauses)) && k < |Answers(RefMap(clauses), items)|
    ensures var answers := Answers(RefMap(clauses), items);
      PairsOf(Parsed(v, RefMap(clauses), items).mentions, answers[k].clauseId) == FirstFive(v, answers[k].entities)
  {
    var answers := Answers(RefMap(clauses), items);
    ParsedIs(v, RefMap(clauses), items);
    forall l | 0 <= l < |answers| && l != k ensures answers[l].clauseId != answers[k].clauseId {
      AnsweredClausesDiffer(clauses, items, if k < l then k else l, if k < l then l else k);
    }
    OnlyAnswerFor(v, answers, k);
  }

  /** A clause that was not answered has nothing. */
  lemma UnansweredClauseIs(v: Vocabulary, refs: map<string, string>, items: seq<RawItem>, id: string)
    requires forall k :: 0 <= k < |Answers(refs, items)| ==> Answers(refs, items)[k].clauseId != id
    ensures PairsOf(Parsed(v, refs, items).mentions, id) == []
  {
    ParsedIs(v, refs, items);
    NoAnswerFor(v, Answers(refs, items), id);
  }
}
