/** The entity layer's deterministic half: batching clauses into calls, numbering them, and validating
    a model's answer. JSON decoding, type lookup and name normalisation are arbitrary functions.
  */
module Entities {
  import opened Common
  import opened Text

  datatype ClauseInput = ClauseInput(clauseId: string, section: string, text: string)

  // ----- batching -----

  function Size(c: ClauseInput): nat {
    |c.text| + |c.section| + 8
  }

  function Chars(batch: seq<ClauseInput>): nat {
    if batch == [] then 0 else Chars(batch[..|batch| - 1]) + Size(batch[|batch| - 1])
  }

  /** The rule for one call: a lone clause always fits, several only within both caps. */
  predicate Obeys(batch: seq<ClauseInput>, maxClauses: int, maxChars: int) {
    |batch| == 1 || (|batch| > 1 && |batch| <= maxClauses && Chars(batch) <= maxChars)
  }

  function Flatten(batches: seq<seq<ClauseInput>>): seq<ClauseInput> {
    if batches == [] then [] else Flatten(batches[..|batches| - 1]) + batches[|batches| - 1]
  }

  datatype Batching = Batching(closed: seq<seq<ClauseInput>>, current: seq<ClauseInput>)

  function AddClause(b: Batching, c: ClauseInput, maxClauses: int, maxChars: int): Batching {
    if b.current != [] && (|b.current| >= maxClauses || Chars(b.current) + Size(c) > maxChars)
    then Batching(b.closed + [b.current], [c])
    else Batching(b.closed, b.current + [c])
  }

  function BatchUp(clauses: seq<ClauseInput>, maxClauses: int, maxChars: int): Batching {
    if clauses == [] then Batching([], [])
    else
      AddClause(BatchUp(clauses[..|clauses| - 1], maxClauses, maxChars), clauses[|clauses| - 1], maxClauses, maxChars)
  }

  function AllBatches(b: Batching): seq<seq<ClauseInput>> {
    if b.current == [] then b.closed else b.closed + [b.current]
  }

  function Batches(clauses: seq<ClauseInput>, maxClauses: int, maxChars: int): seq<seq<ClauseInput>> {
    AllBatches(BatchUp(clauses, maxClauses, maxChars))
  }

  lemma BatchUpNext(clauses: seq<ClauseInput>, i: nat, maxClauses: int, maxChars: int)
    requires i < |clauses|
    ensures BatchUp(clauses[..i + 1], maxClauses, maxChars)
         == AddClause(BatchUp(clauses[..i], maxClauses, maxChars), clauses[i], maxClauses, maxChars)
  {
    assert clauses[..i + 1][..i] == clauses[..i];
  }

  lemma CharsSnoc(batch: seq<ClauseInput>, c: ClauseInput)
    ensures Chars(batch + [c]) == Chars(batch) + Size(c)
  {
    assert (batch + [c])[..|batch|] == batch;
  }

  /** What a batch weighs: every clause's text and section, and eight characters for each. */
  lemma {:induction false} CharsAddUp(a: seq<ClauseInput>, b: seq<ClauseInput>, c: ClauseInput)
    ensures Chars(a + b) == Chars(a) + Chars(b) && Chars([c]) == |c.text| + |c.section| + 8
    decreases |b|
  {
    assert [c][..0] == [];
    if b == [] {
      assert a + b == a;
    } else {
      assert (a + b)[..|a + b| - 1] == a + b[..|b| - 1];
      CharsAddUp(a, b[..|b| - 1], c);
    }
  }

  method SplitBatch(clauses: seq<ClauseInput>, maxClauses: int, maxChars: int) returns (batches: seq<seq<ClauseInput>>)
    ensures batches == Batches(clauses, maxClauses, maxChars)
  {
    batches := [];
    var current: seq<ClauseInput> := [];
    var chars := 0;
    for i := 0 to |clauses|
      invariant Batching(batches, current) == BatchUp(clauses[..i], maxClauses, maxChars)
      invariant chars == Chars(current)
    {
      var clause := clauses[i];
      BatchUpNext(clauses, i, maxClauses, maxChars);
      var size := |clause.text| + |clause.section| + 8;
      if current != [] && (|current| >= maxClauses || chars + size > maxChars) {
        batches := batches + [current];
        current, chars := [], 0;
      }
      CharsSnoc(current, clause);
      current := current + [clause];
      chars := chars + size;
    }
    assert clauses[..|clauses|] == clauses;
    if current != [] {
      batches := batches + [current];
    }
  }

  /** The next batch starts where its first clause no longer fits. */
  ghost predicate FullBefore(batch: seq<ClauseInput>, next: seq<ClauseInput>, maxClauses: int, maxChars: int) {
    next != [] && (|batch| >= maxClauses || Chars(batch) + Chars([next[0]]) > maxChars)
  }

  ghost predicate EachFull(batches: seq<seq<ClauseInput>>, maxClauses: int, maxChars: int) {
    forall i :: 0 <= i < |batches| - 1 ==> FullBefore(batches[i], batches[i + 1], maxClauses, maxChars)
  }

  lemma AddClauseFull(b: Batching, c: ClauseInput, maxClauses: int, maxChars: int)
    requires EachFull(b.closed + [b.current], maxClauses, maxChars) && b.current != []
    ensures var next := AddClause(b, c, maxClauses, maxChars);
      EachFull(next.closed + [next.current], maxClauses, maxChars) && next.current != []
  {
    var next, before := AddClause(b, c, maxClauses, maxChars), b.closed + [b.current];
    var after := next.closed + [next.current];
    assert Chars([c]) == Size(c) by { CharsAddUp([], [], c); }
    forall i | 0 <= i < |after| - 1 ensures FullBefore(after[i], after[i + 1], maxClauses, maxChars) {
      if i < |before| - 1 { assert FullBefore(before[i], before[i + 1], maxClauses, maxChars); }
    }
  }

  lemma {:induction false} BatchUpIsFull(clauses: seq<ClauseInput>, maxClauses: int, maxChars: int)
    requires clauses != []
    ensures var b := BatchUp(clauses, maxClauses, maxChars);
      EachFull(b.closed + [b.current], maxClauses, maxChars) && b.current != []
  {
    var init, last := clauses[..|clauses| - 1], clauses[|clauses| - 1];
    if init == [] {
      assert BatchUp(clauses, maxClauses, maxChars).closed == [];
    } else {
      BatchUpIsFull(init, maxClauses, maxChars);
      AddClauseFull(BatchUp(init, maxClauses, maxChars), last, maxClauses, maxChars);
    }
  }

  /** Every batch takes as many clauses as fit. */
  lemma BatchesAreFull(clauses: seq<ClauseInput>, maxClauses: int, maxChars: int)
    ensures EachFull(Batches(clauses, maxClauses, maxChars), maxClauses, maxChars)
  {
    if clauses != [] { BatchUpIsFull(clauses, maxClauses, maxChars); }
  }

  /** A split of the clauses: consecutive, complete, and obeying the rule throughout. */
  ghost predicate LegalSplit(split: seq<seq<ClauseInput>>, clauses: seq<ClauseInput>, maxClauses: int, maxChars: int) {
    && Flatten(split) == clauses
    && forall i :: 0 <= i < |split| ==> Obeys(split[i], maxClauses, maxChars)
  }

  lemma FlattenSnoc(batches: seq<seq<ClauseInput>>, last: seq<ClauseInput>)
    ensures Flatten(batches + [last]) == Flatten(batches) + last
  {
    assert (batches + [last])[..|batches|] == batches;
  }

  lemma OneMoreBatch(split: seq<seq<ClauseInput>>, clauses: seq<ClauseInput>, c: ClauseInput, maxClauses: int,
                     maxChars: int)
    requires LegalSplit(split, clauses, maxClauses, maxChars)
    ensures LegalSplit(split + [[c]], clauses + [c], maxClauses, maxChars)
  {
    FlattenSnoc(split, [c]);
  }

  lemma LongerBatch(closed: seq<seq<ClauseInput>>, current: seq<ClauseInput>, clauses: seq<ClauseInput>, c: ClauseInput,
                    maxClauses: int, maxChars: int)
    requires LegalSplit(closed + [current], clauses, maxClauses, maxChars) && Obeys(current + [c], maxClauses, maxChars)
    ensures LegalSplit(closed + [current + [c]], clauses + [c], maxClauses, maxChars)
  {
    var before, after := closed + [current], closed + [current + [c]];
    FlattenSnoc(closed, current);
    FlattenSnoc(closed, current + [c]);
    Associative(Flatten(closed), current, [c]);
    forall i | 0 <= i < |after| ensures Obeys(after[i], maxClauses, maxChars) {
      if i < |closed| {
        assert after[i] == before[i];
      }
    }
  }

  lemma AddClauseIsLegal(b: Batching, clauses: seq<ClauseInput>, c: ClauseInput, maxClauses: int, maxChars: int)
    requires LegalSplit(AllBatches(b), clauses, maxClauses, maxChars) && (clauses != [] ==> b.current != [])
    ensures var b' := AddClause(b, c, maxClauses, maxChars);
      LegalSplit(AllBatches(b'), clauses + [c], maxClauses, maxChars) && b'.current != []
  {
    if b.current == [] || |b.current| >= maxClauses || Chars(b.current) + Size(c) > maxChars {
      OneMoreBatch(AllBatches(b), clauses, c, maxClauses, maxChars);
    } else {
      CharsSnoc(b.current, c);
      LongerBatch(b.closed, b.current, clauses, c, maxClauses, maxChars);
    }
  }

  /** The greedy batches lose and reorder nothing, and each obeys both caps unless it is a lone clause. */
  lemma {:induction false} BatchesAreLegal(clauses: seq<ClauseInput>, maxClauses: int, maxChars: int)
    ensures LegalSplit(Batches(clauses, maxClauses, maxChars), clauses, maxClauses, maxChars)
    ensures clauses != [] ==> BatchUp(clauses, maxClauses, maxChars).current != []
  {
    if clauses != [] {
      var init, c := clauses[..|clauses| - 1], clauses[|clauses| - 1];
      var b := BatchUp(init, maxClauses, maxChars);
      BatchesAreLegal(init, maxClauses, maxChars);
      AddClauseIsLegal(b, init, c, maxClauses, maxChars);
      assert clauses == init + [c] && BatchUp(clauses, maxClauses, maxChars) == AddClause(b, c, maxClauses, maxChars);
    }
  }

  lemma {:induction false} CharsOfSuffix(batch: seq<ClauseInput>, k: nat)
    requires k <= |batch|
    ensures Chars(batch[k..]) <= Chars(batch)
  {
    if batch != [] && k < |batch| {
      var init := batch[..|batch| - 1];
      CharsOfSuffix(init, k);
      assert batch[k..][..|batch[k..]| - 1] == init[k..];
    }
  }

  /** Dropping the last clause of a legal split leaves a legal split. */
  function DropLast(split: seq<seq<ClauseInput>>): seq<seq<ClauseInput>>
    requires split != [] && split[|split| - 1] != []
  {
    var n := |split| - 1;
    if |split[n]| == 1 then split[..n] else split[..n] + [split[n][..|split[n]| - 1]]
  }

  lemma DropLastIsLegal(split: seq<seq<ClauseInput>>, clauses: seq<ClauseInput>, maxClauses: int, maxChars: int)
    requires clauses != [] && split != [] && LegalSplit(split, clauses, maxClauses, maxChars)
    ensures split[|split| - 1] != [] && split[|split| - 1] == clauses[|clauses| - |split[|split| - 1]|..]
    ensures LegalSplit(DropLast(split), clauses[..|clauses| - 1], maxClauses, maxChars)
  {
    var n := |split| - 1;
    var last := split[n];
    assert Obeys(last, maxClauses, maxChars);
    assert Flatten(split) == Flatten(split[..n]) + last;
    if |last| == 1 {
      assert clauses[..|clauses| - 1] == Flatten(split[..n]);
    } else {
      FlattenSnoc(split[..n], last[..|last| - 1]);
      assert clauses[..|clauses| - 1] == Flatten(split[..n]) + last[..|last| - 1];
    }
  }

  predicate Fits(current: seq<ClauseInput>, c: ClauseInput, maxClauses: int, maxChars: int) {
    current == [] || (|current| < maxClauses && Chars(current) + Size(c) <= maxChars)
  }

  lemma AddClauseCounts(b: Batching, c: ClauseInput, maxClauses: int, maxChars: int)
    ensures var b' := AddClause(b, c, maxClauses, maxChars);
      if Fits(b.current, c, maxClauses, maxChars)
      then b'.closed == b.closed && |b'.current| == |b.current| + 1
      else |AllBatches(b')| == |AllBatches(b)| + 1 && |b'.current| == 1
    ensures b.current != [] && Fits(b.current, c, maxClauses, maxChars) ==>
      |AllBatches(AddClause(b, c, maxClauses, maxChars))| == |AllBatches(b)|
  {
  }

  lemma CurrentIsSuffix(clauses: seq<ClauseInput>, c: ClauseInput, maxClauses: int, maxChars: int)
    ensures var current := BatchUp(clauses, maxClauses, maxChars).current;
      |current| <= |clauses| && current + [c] == (clauses + [c])[|clauses| - |current|..]
  {
    BatchesAreLegal(clauses, maxClauses, maxChars);
    var b := BatchUp(clauses, maxClauses, maxChars);
    if b.current != [] {
      FlattenSnoc(b.closed, b.current);
      assert clauses == Flatten(b.closed) + b.current;
    }
  }

  /** Greedy stays ahead: no legal split uses fewer batches, and one that uses as many has a last batch at
      least as long as the greedy one's.
    */
  ghost predicate Ahead(split: seq<seq<ClauseInput>>, b: Batching) {
    && |split| >= |AllBatches(b)|
    && (|split| == |AllBatches(b)| && split != [] ==> |split[|split| - 1]| >= |b.current|)
  }

  lemma LongLastBatchFits(current: seq<ClauseInput>, c: ClauseInput, last: seq<ClauseInput>, clauses: seq<ClauseInput>,
                          maxClauses: int, maxChars: int)
    requires |last| > 1 && Obeys(last, maxClauses, maxChars) && |current| <= |last| - 1 && |last| <= |clauses|
    requires last == clauses[|clauses| - |last|..]
    requires current + [c] == clauses[|clauses| - |current| - 1..]
    ensures |current| < maxClauses && Chars(current) + Size(c) <= maxChars
  {
    CharsSnoc(current, c);
    CharsOfSuffix(last, |last| - |current| - 1);
    assert current + [c] == last[|last| - |current| - 1..];
  }

  lemma AheadNext(split: seq<seq<ClauseInput>>, init: seq<ClauseInput>, c: ClauseInput, maxClauses: int, maxChars: int)
    requires split != [] && split[|split| - 1] != [] && Obeys(split[|split| - 1], maxClauses, maxChars)
    requires |split[|split| - 1]| <= |init| + 1
    requires split[|split| - 1] == (init + [c])[|init| + 1 - |split[|split| - 1]|..]
    requires Ahead(DropLast(split), BatchUp(init, maxClauses, maxChars))
    requires init == [] ==> DropLast(split) == []
    ensures Ahead(split, AddClause(BatchUp(init, maxClauses, maxChars), c, maxClauses, maxChars))
  {
    var b, last := BatchUp(init, maxClauses, maxChars), split[|split| - 1];
    var clauses := init + [c];
    AddClauseCounts(b, c, maxClauses, maxChars);
    CurrentIsSuffix(init, c, maxClauses, maxChars);
    if |last| > 1 && |b.current| <= |last| - 1 {
      assert |clauses| - |b.current| - 1 == |init| - |b.current|;
      LongLastBatchFits(b.current, c, last, clauses, maxClauses, maxChars);
    }
  }

  lemma {:induction false} GreedyStaysAhead(split: seq<seq<ClauseInput>>, clauses: seq<ClauseInput>, maxClauses: int,
                                            maxChars: int)
    requires LegalSplit(split, clauses, maxClauses, maxChars)
    ensures Ahead(split, BatchUp(clauses, maxClauses, maxChars))
    decreases |clauses|
  {
    if clauses != [] {
      var init, c := clauses[..|clauses| - 1], clauses[|clauses| - 1];
      assert split != [];
      DropLastIsLegal(split, clauses, maxClauses, maxChars);
      GreedyStaysAhead(DropLast(split), init, maxClauses, maxChars);
      AheadNext(split, init, c, maxClauses, maxChars);
      assert clauses == init + [c];
    }
  }

  /** The greedy split uses the fewest calls. */
  lemma FewestBatches(split: seq<seq<ClauseInput>>, clauses: seq<ClauseInput>, maxClauses: int, maxChars: int)
    requires LegalSplit(split, clauses, maxClauses, maxChars)
    ensures |Batches(clauses, maxClauses, maxChars)| <= |split|
  {
    GreedyStaysAhead(split, clauses, maxClauses, maxChars);
  }

  // ----- numbering -----

  function Ref(index: nat): string {
    "c" + Decimal(index)
  }

  function RefMap(clauses: seq<ClauseInput>): map<string, string> {
    if clauses == [] then map[]
    else RefMap(clauses[..|clauses| - 1])[Ref(|clauses|) := clauses[|clauses| - 1].clauseId]
  }

  method AssignRefs(clauses: seq<ClauseInput>) returns (refs: map<string, string>, rows: seq<(string, string, string)>)
    ensures refs == RefMap(clauses)
    ensures |rows| == |clauses|
    ensures forall i :: 0 <= i < |clauses| ==> rows[i] == (Ref(i + 1), clauses[i].section, clauses[i].text)
  {
    refs, rows := map[], [];
    for i := 0 to |clauses|
      invariant refs == RefMap(clauses[..i]) && |rows| == i
      invariant forall j :: 0 <= j < i ==> rows[j] == (Ref(j + 1), clauses[j].section, clauses[j].text)
    {
      assert clauses[..i + 1][..i] == clauses[..i];
      var ref := "c" + Decimal(i + 1);
      refs := refs[ref := clauses[i].clauseId];
      rows := rows + [(ref, clauses[i].section, clauses[i].text)];
    }
    assert clauses[..|clauses|] == clauses;
  }

  lemma RefInjective(i: nat, j: nat)
    requires Ref(i) == Ref(j)
    ensures i == j
  {
    assert Ref(i)[1..] == Decimal(i) && Ref(j)[1..] == Decimal(j);
    DecimalRoundTrip(i);
    DecimalRoundTrip(j);
  }

  /** Every ref leads to the clause at its own position. */
  lemma {:induction false} RefLeadsTo(clauses: seq<ClauseInput>, ref: string) returns (i: nat)
    requires ref in RefMap(clauses)
    ensures i < |clauses| && ref == Ref(i + 1) && RefMap(clauses)[ref] == clauses[i].clauseId
  {
    if ref == Ref(|clauses|) {
      i := |clauses| - 1;
    } else {
      i := RefLeadsTo(clauses[..|clauses| - 1], ref);
    }
  }

  /** Every clause gets its own ref: no two collide, so the map has one entry per clause. */
  lemma {:induction false} RefMapSize(clauses: seq<ClauseInput>)
    ensures |RefMap(clauses)| == |clauses|
  {
    if clauses != [] {
      var init, last := clauses[..|clauses| - 1], Ref(|clauses|);
      RefMapSize(init);
      if last in RefMap(init) {
        var i := RefLeadsTo(init, last);
        RefInjective(i + 1, |clauses|);
      }
    }
  }

  lemma {:induction false} RefOfClause(clauses: seq<ClauseInput>, i: nat)
    requires i < |clauses|
    ensures Ref(i + 1) in RefMap(clauses) && RefMap(clauses)[Ref(i + 1)] == clauses[i].clauseId
  {
    if i < |clauses| - 1 {
      RefOfClause(clauses[..|clauses| - 1], i);
      if Ref(i + 1) == Ref(|clauses|) { RefInjective(i + 1, |clauses|); }
    }
  }

  function ClauseIds(clauses: seq<ClauseInput>): (r: seq<string>)
    ensures |r| == |clauses|
  {
    seq(|clauses|, i requires 0 <= i < |clauses| => clauses[i].clauseId)
  }

  /** With distinct clause ids, two refs that lead to one clause are the same ref. */
  lemma RefsSeparateClauses(clauses: seq<ClauseInput>, a: string, b: string)
    requires NoDuplicates(ClauseIds(clauses)) && a in RefMap(clauses) && b in RefMap(clauses)
    requires RefMap(clauses)[a] == RefMap(clauses)[b]
    ensures a == b
  {
    var i := RefLeadsTo(clauses, a);
    var j := RefLeadsTo(clauses, b);
    assert ClauseIds(clauses)[i] == ClauseIds(clauses)[j];
  }

  // ----- validating one clause's entities -----

  const MAX_ENTITIES_PER_CLAUSE := 5
  const MIN_NAME_CHARS := 2
  const MAX_NAME_CHARS := 20

  /** The closed vocabulary and the name canonicaliser. */
  datatype Vocabulary = Vocabulary(resolveType: string -> Option<string>, normalizeName: string -> string)

  /** List elements that are not JSON objects are `NotAnObject`. */
  datatype RawEntity = NotAnEntity | RawEntity(typeToken: string, name: string)

  datatype RawItem = NotAnItem | RawItem(ref: string, entities: Option<seq<RawEntity>>)

  datatype Tally = Tally(
    raw: nat, unknownTypes: nat, invalidNames: nat, duplicates: nat, overLimit: nat, kept: seq<(string, string)>)

  function Judge(v: Vocabulary, t: Tally, e: RawEntity): Tally {
    if e.NotAnEntity? then t else
    var seen := t.(raw := t.raw + 1);
    var typeKey, name := v.resolveType(e.typeToken), v.normalizeName(e.name);
    if typeKey.None? then seen.(unknownTypes := t.unknownTypes + 1)
    else if !(MIN_NAME_CHARS <= |name| <= MAX_NAME_CHARS) then seen.(invalidNames := t.invalidNames + 1)
    else if (typeKey.value, name) in t.kept then seen.(duplicates := t.duplicates + 1)
    else if |t.kept| >= MAX_ENTITIES_PER_CLAUSE then seen.(overLimit := t.overLimit + 1)
    else seen.(kept := t.kept + [(typeKey.value, name)])
  }

  function JudgeAll(v: Vocabulary, entities: seq<RawEntity>): Tally {
    if entities == [] then Tally(0, 0, 0, 0, 0, [])
    else Judge(v, JudgeAll(v, entities[..|entities| - 1]), entities[|entities| - 1])
  }

  ghost predicate Sound(v: Vocabulary, t: Tally) {
    && t.raw == t.unknownTypes + t.invalidNames + t.duplicates + t.overLimit + |t.kept|
    && |t.kept| <= MAX_ENTITIES_PER_CLAUSE && NoDuplicates(t.kept)
    && forall i :: 0 <= i < |t.kept| ==> MIN_NAME_CHARS <= |t.kept[i].1| <= MAX_NAME_CHARS
  }

  /** Every entity is either kept or counted under exactly one reason; at most five distinct ones are kept. */
  lemma {:induction false} JudgeAllSound(v: Vocabulary, entities: seq<RawEntity>)
    ensures Sound(v, JudgeAll(v, entities))
  {
    if entities != [] {
      var before := JudgeAll(v, entities[..|entities| - 1]);
      JudgeAllSound(v, entities[..|entities| - 1]);
      var e := entities[|entities| - 1];
      assert e.RawEntity? ==> forall i :: 0 <= i < |before.kept| ==> before.kept[i] in before.kept;
    }
  }

  // ----- validating a whole answer -----

  datatype Mention = Mention(clauseId: string, typeKey: string, name: string, extractor: string)

  datatype Stats = Stats(
    refsSent: nat, refsReturned: nat, refsMissing: int, refsUnknown: nat,
    rawEntities: nat, unknownTypes: nat, invalidNames: nat, duplicates: nat, overLimit: nat,
    mentions: nat, entities: nat)

  datatype Extraction = Extraction(mentions: seq<Mention>, stats: Stats)

  function NoStats(): Stats {
    Stats(0, 0, 0, 0, 0, 0, 0, 0, 0, 0, 0)
  }

  function AddStats(a: Stats, b: Stats): Stats {
    Stats(a.refsSent + b.refsSent, a.refsReturned + b.refsReturned, a.refsMissing + b.refsMissing,
          a.refsUnknown + b.refsUnknown, a.rawEntities + b.rawEntities, a.unknownTypes + b.unknownTypes,
          a.invalidNames + b.invalidNames, a.duplicates + b.duplicates, a.overLimit + b.overLimit,
          a.mentions + b.mentions,
          a.entities + b.entities)
  }

  function Joined(a: Extraction, b: Extraction): Extraction {
    Extraction(a.mentions + b.mentions, AddStats(a.stats, b.stats))
  }

  /** The distinct entities mentioned, wherever they are mentioned. */
  function EntitiesOf(mentions: seq<Mention>): set<(string, string)> {
    set m | m in mentions :: (m.typeKey, m.name)
  }

  function MentionsFrom(clauseId: string, kept: seq<(string, string)>): (r: seq<Mention>)
    ensures |r| == |kept|
  {
    seq(|kept|, i requires 0 <= i < |kept| => Mention(clauseId, kept[i].0, kept[i].1, ""))
  }

  datatype Reading = Reading(seen: set<string>, result: Extraction)

  /** One item of the answer; `refs_missing` is settled at the end. */
  function ReadItem(v: Vocabulary, refs: map<string, string>, r: Reading, item: RawItem): Reading {
    if item.NotAnItem? || Strip(item.ref) in r.seen then r else
    var ref, s := Strip(item.ref), r.result.stats;
    var seen := r.seen + {ref};
    if ref !in refs then
      Reading(seen, r.result.(stats := s.(refsUnknown := s.refsUnknown + 1)))
    else if item.entities.None? then
      Reading(seen, r.result.(stats := s.(refsReturned := s.refsReturned + 1)))
    else
      var t := JudgeAll(v, item.entities.value);
      Reading(seen, Extraction(
        r.result.mentions + MentionsFrom(refs[ref], t.kept),
        s.(refsReturned := s.refsReturned + 1,
           rawEntities := s.rawEntities + t.raw, unknownTypes := s.unknownTypes + t.unknownTypes,
           invalidNames := s.invalidNames + t.invalidNames, duplicates := s.duplicates + t.duplicates,
           overLimit := s.overLimit + t.overLimit)))
  }

  function ReadItems(v: Vocabulary, refs: map<string, string>, items: seq<RawItem>): Reading {
    if items == [] then Reading({}, Extraction([], NoStats().(refsSent := |refs|)))
    else ReadItem(v, refs, ReadItems(v, refs, items[..|items| - 1]), items[|items| - 1])
  }

  function Parsed(v: Vocabulary, refs: map<string, string>, items: seq<RawItem>): Extraction {
    var e := ReadItems(v, refs, items).result;
    e.(stats := e.stats.(refsMissing := |refs| - e.stats.refsReturned, mentions := |e.mentions|,
                               entities := |EntitiesOf(e.mentions)|))
  }

  /** Decoding the model's answer: no JSON object, no 'clauses' array, or its items. */
  datatype Payload = Unusable(reason: string) | NoClausesArray | Items(items: seq<RawItem>)

  /** The inner loop over one clause's entities. */
  method JudgeEntities(v: Vocabulary, entities: seq<RawEntity>) returns (t: Tally)
    ensures t == JudgeAll(v, entities)
  {
    t := Tally(0, 0, 0, 0, 0, []);
    for i := 0 to |entities|
      invariant t == JudgeAll(v, entities[..i])
    {
      assert entities[..i + 1][..i] == entities[..i];
      var entity := entities[i];
      if entity.NotAnEntity? {
        continue;
      }
      t := t.(raw := t.raw + 1);
      var typeKey := v.resolveType(entity.typeToken);
      if typeKey.None? {
        t := t.(unknownTypes := t.unknownTypes + 1);
        continue;
      }
      var name := v.normalizeName(entity.name);
      if !(MIN_NAME_CHARS <= |name| <= MAX_NAME_CHARS) {
        t := t.(invalidNames := t.invalidNames + 1);
        continue;
      }
      var pair := (typeKey.value, name);
      if pair in t.kept || |t.kept| >= MAX_ENTITIES_PER_CLAUSE {
        t := if pair in t.kept then t.(duplicates := t.duplicates + 1) else t.(overLimit := t.overLimit + 1);
        continue;
      }
      t := t.(kept := t.kept + [pair]);
    }
    assert entities[..|entities|] == entities;
  }

  /** The loop body of the parser. */
  method ReadOneItem(v: Vocabulary, refs: map<string, string>, seen: set<string>, result: Extraction, item: RawItem)
      returns (seen': set<string>, result': Extraction)
    ensures Reading(seen', result') == ReadItem(v, refs, Reading(seen, result), item)
  {
    seen', result' := seen, result;
    if item.NotAnItem? {
      return;
    }
    var ref := Strip(item.ref);
    if ref in seen {
      return;
    }
    seen' := seen + {ref};
    var s := result.stats;
    if ref !in refs {
      result' := result.(stats := s.(refsUnknown := s.refsUnknown + 1));
      return;
    }
    if item.entities.None? {
      result' := result.(stats := s.(refsReturned := s.refsReturned + 1));
      return;
    }
    var tally := JudgeEntities(v, item.entities.value);
    result' := Extraction(
      result.mentions + MentionsFrom(refs[ref], tally.kept),
      s.(refsReturned := s.refsReturned + 1,
         rawEntities := s.rawEntities + tally.raw, unknownTypes := s.unknownTypes + tally.unknownTypes,
         invalidNames := s.invalidNames + tally.invalidNames, duplicates := s.duplicates + tally.duplicates,
         overLimit := s.overLimit + tally.overLimit));
  }

  method ParseExtraction(v: Vocabulary, payload: Payload, refs: map<string, string>)
      returns (r: Result<Extraction, string>)
    ensures r.Err? <==> !payload.Items?
    ensures payload.Items? ==> r == Ok(Parsed(v, refs, payload.items))
  {
    match payload {
      case Unusable(reason) => return Err(reason);
      case NoClausesArray => return Err("missing 'clauses' array");
      case Items(_) =>
    }
    var items := payload.items;
    var seen: set<string> := {};
    var result := Extraction([], NoStats().(refsSent := |refs|));
    for i := 0 to |items|
      invariant Reading(seen, result) == ReadItems(v, refs, items[..i])
    {
      assert items[..i + 1][..i] == items[..i];
      seen, result := ReadOneItem(v, refs, seen, result, items[i]);
    }
    assert items[..|items|] == items;
    var missing := |refs| - result.stats.refsReturned;
    r := Ok(result.(stats := result.stats.(refsMissing := missing, mentions := |result.mentions|,
                                           entities := |EntitiesOf(result.mentions)|)));
  }

  /** The mentions of one clause, as (type, name) pairs. */
  function PairsOf(mentions: seq<Mention>, clauseId: string): seq<(string, string)> {
    if mentions == [] then [] else
    var last := mentions[|mentions| - 1];
    PairsOf(mentions[..|mentions| - 1], clauseId)
      + if last.clauseId == clauseId then [(last.typeKey, last.name)] else []
  }

  /** Nothing is lost without being counted. */
  predicate Balanced(e: Extraction) {
    && e.stats.mentions == |e.mentions|
    && e.stats.rawEntities
         == e.stats.unknownTypes + e.stats.invalidNames + e.stats.duplicates + e.stats.overLimit + |e.mentions|
    && e.stats.refsReturned + e.stats.refsMissing == e.stats.refsSent && e.stats.refsMissing >= 0
  }

  predicate FewDistinct(pairs: seq<(string, string)>) {
    |pairs| <= MAX_ENTITIES_PER_CLAUSE && NoDuplicates(pairs)
  }

  /** What an extraction of some clauses must satisfy, whoever computed it and in however many calls. */
  ghost predicate AccountsFor(e: Extraction, clauses: seq<ClauseInput>) {
    && Balanced(e) && e.stats.refsSent == |clauses|
    && |EntitiesOf(e.mentions)| <= e.stats.entities <= |e.mentions|
    && (NoDuplicates(ClauseIds(clauses)) ==> forall id :: FewDistinct(PairsOf(e.mentions, id)))
    && forall id :: id !in ClauseIds(clauses) ==> PairsOf(e.mentions, id) == []
  }

  lemma {:induction false} PairsOfAppend(a: seq<Mention>, b: seq<Mention>, id: string)
    ensures PairsOf(a + b, id) == PairsOf(a, id) + PairsOf(b, id)
    decreases |b|
  {
    if b == [] {
      assert a + b == a;
    } else {
      assert (a + b)[..|a + b| - 1] == a + b[..|b| - 1];
      PairsOfAppend(a, b[..|b| - 1], id);
    }
  }

  lemma {:induction false} PairsOfMentionsFrom(clauseId: string, kept: seq<(string, string)>, id: string)
    ensures PairsOf(MentionsFrom(clauseId, kept), id) == if id == clauseId then kept else []
  {
    if kept != [] {
      var init := kept[..|kept| - 1];
      assert MentionsFrom(clauseId, kept)[..|kept| - 1] == MentionsFrom(clauseId, init);
      PairsOfMentionsFrom(clauseId, init, id);
    }
  }

  /** While items are being read the counts balance, and every known ref seen so far was counted once. */
  ghost predicate ReadingBalanced(refs: map<string, string>, r: Reading) {
    var s := r.result.stats;
    && s.rawEntities == s.unknownTypes + s.invalidNames + s.duplicates + s.overLimit + |r.result.mentions|
    && s.refsSent == |refs| && s.refsReturned == |r.seen * refs.Keys|
  }

  lemma SeenOnce(seen: set<string>, keys: set<string>, ref: string)
    requires ref !in seen
    ensures |(seen + {ref}) * keys| == |seen * keys| + if ref in keys then 1 else 0
  {
    if ref in keys {
      assert (seen + {ref}) * keys == seen * keys + {ref};
    } else {
      assert (seen + {ref}) * keys == seen * keys;
    }
  }

  lemma ReadItemBalanced(v: Vocabulary, refs: map<string, string>, r: Reading, item: RawItem)
    requires ReadingBalanced(refs, r)
    ensures ReadingBalanced(refs, ReadItem(v, refs, r, item))
  {
    if item.RawItem? && Strip(item.ref) !in r.seen {
      var ref := Strip(item.ref);
      SeenOnce(r.seen, refs.Keys, ref);
      if ref in refs && item.entities.Some? {
        JudgeAllSound(v, item.entities.value);
      }
    }
  }

  lemma {:induction false} ReadItemsBalanced(v: Vocabulary, refs: map<string, string>, items: seq<RawItem>)
    ensures ReadingBalanced(refs, ReadItems(v, refs, items))
  {
    if items == [] {
      assert {} * refs.Keys == {};
    } else {
      ReadItemsBalanced(v, refs, items[..|items| - 1]);
      ReadItemBalanced(v, refs, ReadItems(v, refs, items[..|items| - 1]), items[|items| - 1]);
    }
  }

  ghost predicate SeenFor(refs: map<string, string>, seen: set<string>, id: string) {
    exists ref :: ref in seen && ref in refs && refs[ref] == id
  }

  ghost predicate Separating(refs: map<string, string>) {
    forall a, b :: a in refs && b in refs && refs[a] == refs[b] ==> a == b
  }

  /** A clause has mentions only once its ref was seen, and then at most five distinct ones. */
  ghost predicate ReadingSoundFor(refs: map<string, string>, r: Reading, id: string) {
    (PairsOf(r.result.mentions, id) != [] ==> SeenFor(refs, r.seen, id))
    && (Separating(refs) ==> FewDistinct(PairsOf(r.result.mentions, id)))
  }

  lemma ReadItemSoundFor(v: Vocabulary, refs: map<string, string>, r: Reading, item: RawItem, id: string)
    requires ReadingSoundFor(refs, r, id)
    ensures ReadingSoundFor(refs, ReadItem(v, refs, r, item), id)
  {
    var r' := ReadItem(v, refs, r, item);
    if SeenFor(refs, r.seen, id) {
      var ref :| ref in r.seen && ref in refs && refs[ref] == id;
      assert ref in r'.seen;
    }
    if r'.result.mentions != r.result.mentions {
      var ref, t := Strip(item.ref), JudgeAll(v, item.entities.value);
      JudgeAllSound(v, item.entities.value);
      PairsOfAppend(r.result.mentions, MentionsFrom(refs[ref], t.kept), id);
      PairsOfMentionsFrom(refs[ref], t.kept, id);
      if refs[ref] == id {
        assert ref in r'.seen;
        if Separating(refs) {
          assert PairsOf(r.result.mentions, id) == [];
          assert [] + t.kept == t.kept;
        }
      }
    }
  }

  lemma {:induction false} ReadItemsSoundFor(v: Vocabulary, refs: map<string, string>, items: seq<RawItem>, id: string)
    ensures ReadingSoundFor(refs, ReadItems(v, refs, items), id)
  {
    if items != [] {
      ReadItemsSoundFor(v, refs, items[..|items| - 1], id);
      ReadItemSoundFor(v, refs, ReadItems(v, refs, items[..|items| - 1]), items[|items| - 1], id);
    }
  }

  lemma EntitiesOfAppend(a: seq<Mention>, b: seq<Mention>)
    ensures EntitiesOf(a + b) == EntitiesOf(a) + EntitiesOf(b)
  {
    forall m | m in a || m in b ensures m in a + b {
    }
  }

  lemma {:induction false} EntitiesAtMostMentions(mentions: seq<Mention>)
    ensures |EntitiesOf(mentions)| <= |mentions|
  {
    if mentions != [] {
      var init, last := mentions[..|mentions| - 1], mentions[|mentions| - 1];
      EntitiesAtMostMentions(init);
      EntitiesOfAppend(init, [last]);
      assert mentions == init + [last];
      assert EntitiesOf([last]) == {(last.typeKey, last.name)};
    }
  }

  lemma SeenIdsAreClauses(clauses: seq<ClauseInput>, seen: set<string>, id: string)
    ensures SeenFor(RefMap(clauses), seen, id) ==> id in ClauseIds(clauses)
  {
    if SeenFor(RefMap(clauses), seen, id) {
      var ref :| ref in seen && ref in RefMap(clauses) && RefMap(clauses)[ref] == id;
      var i := RefLeadsTo(clauses, ref);
      assert ClauseIds(clauses)[i] == id;
    }
  }

  /** Whatever a model answers, the parsed result accounts for every clause and every entity of the call. */
  lemma ParsedAccounts(v: Vocabulary, clauses: seq<ClauseInput>, items: seq<RawItem>)
    ensures AccountsFor(Parsed(v, RefMap(clauses), items), clauses)
  {
    var refs := RefMap(clauses);
    var r := ReadItems(v, refs, items);
    RefMapSize(clauses);
    ReadItemsBalanced(v, refs, items);
    SetBound(r.seen * refs.Keys, refs.Keys);
    EntitiesAtMostMentions(r.result.mentions);
    assert |refs.Keys| == |refs|;
    if NoDuplicates(ClauseIds(clauses)) {
      forall a, b | a in refs && b in refs && refs[a] == refs[b] ensures a == b {
        RefsSeparateClauses(clauses, a, b);
      }
      forall id ensures FewDistinct(PairsOf(r.result.mentions, id)) {
        ReadItemsSoundFor(v, refs, items, id);
      }
    }
    forall id | id !in ClauseIds(clauses) ensures PairsOf(r.result.mentions, id) == [] {
      ReadItemsSoundFor(v, refs, items, id);
      SeenIdsAreClauses(clauses, r.seen, id);
    }
  }

  lemma OnlyOneHalf(xs: seq<string>, ys: seq<string>, id: string)
    requires NoDuplicates(xs + ys)
    ensures id !in xs || id !in ys
  {
    assert forall i :: 0 <= i < |xs| ==> (xs + ys)[i] == xs[i];
    assert forall j :: 0 <= j < |ys| ==> (xs + ys)[|xs| + j] == ys[j];
  }

  /** Accounting composes: joining two halves accounts for both lists of clauses. */
  lemma JoinedAccounts(a: Extraction, xs: seq<ClauseInput>, b: Extraction, ys: seq<ClauseInput>)
    requires AccountsFor(a, xs) && AccountsFor(b, ys)
    ensures AccountsFor(Joined(a, b), xs + ys)
  {
    EntitiesOfAppend(a.mentions, b.mentions);
    var ids := ClauseIds(xs + ys);
    assert ids == ClauseIds(xs) + ClauseIds(ys);
    forall id ensures PairsOf(Joined(a, b).mentions, id) == PairsOf(a.mentions, id) + PairsOf(b.mentions, id) {
      PairsOfAppend(a.mentions, b.mentions, id);
    }
    if NoDuplicates(ids) {
      assert NoDuplicates(ClauseIds(xs)) by {
        assert forall i :: 0 <= i < |xs| ==> ids[i] == ClauseIds(xs)[i];
      }
      assert NoDuplicates(ClauseIds(ys)) by {
        assert forall i :: 0 <= i < |ys| ==> ids[|xs| + i] == ClauseIds(ys)[i];
      }
      forall id ensures FewDistinct(PairsOf(Joined(a, b).mentions, id)) {
        OnlyOneHalf(ClauseIds(xs), ClauseIds(ys), id);
        var p, q := PairsOf(a.mentions, id), PairsOf(b.mentions, id);
        assert p == [] || q == [];
        assert p + q == if p == [] then q else p;
      }
    }
  }

  lemma NoPairsAreFew(pairs: seq<(string, string)>)
    requires pairs == []
    ensures FewDistinct(pairs)
  {
  }

  lemma NothingAccounts(nothing: Extraction, none: seq<ClauseInput>)
    requires nothing == Extraction([], NoStats()) && none == []
    ensures AccountsFor(nothing, none)
  {
    var mentions := nothing.mentions;
    assert EntitiesOf(mentions) == {};
    forall id ensures PairsOf(mentions, id) == [] && FewDistinct(PairsOf(mentions, id)) {
      NoPairsAreFew(PairsOf(mentions, id));
    }
  }

  /** The stamp of which model answered changes nothing that is counted. */
  function Stamped(e: Extraction, model: string): Extraction {
    e.(mentions := seq(|e.mentions|, i requires 0 <= i < |e.mentions| => e.mentions[i].(extractor := model)))
  }

  lemma {:induction false} StampedPairs(mentions: seq<Mention>, stamped: seq<Mention>, model: string, id: string)
    requires |stamped| == |mentions|
    requires forall i :: 0 <= i < |mentions| ==> stamped[i] == mentions[i].(extractor := model)
    ensures PairsOf(stamped, id) == PairsOf(mentions, id)
  {
    if mentions != [] { StampedPairs(mentions[..|mentions| - 1], stamped[..|mentions| - 1], model, id); }
  }

  lemma StampedEntities(e: Extraction, model: string)
    ensures EntitiesOf(Stamped(e, model).mentions) == EntitiesOf(e.mentions)
  {
    var stamped := Stamped(e, model).mentions;
    forall m | m in e.mentions ensures (m.typeKey, m.name) in EntitiesOf(stamped) {
      var i :| 0 <= i < |e.mentions| && e.mentions[i] == m;
      assert stamped[i] in stamped;
    }
    forall m | m in stamped ensures (m.typeKey, m.name) in EntitiesOf(e.mentions) {
      var i :| 0 <= i < |stamped| && stamped[i] == m;
      assert e.mentions[i] in e.mentions;
    }
  }

  lemma StampedAccounts(e: Extraction, model: string, clauses: seq<ClauseInput>)
    requires AccountsFor(e, clauses)
    ensures AccountsFor(Stamped(e, model), clauses)
  {
    StampedEntities(e, model);
    forall id ensures PairsOf(Stamped(e, model).mentions, id) == PairsOf(e.mentions, id) {
      StampedPairs(e.mentions, Stamped(e, model).mentions, model, id);
    }
  }

  // ----- truncated answers -----

  function CountOf(s: string, c: char): nat {
    if s == "" then 0 else CountOf(s[..|s| - 1], c) + if s[|s| - 1] == c then 1 else 0
  }

  predicate IsTruncated(finishReason: string, content: string) {
    finishReason == "length" || CountOf(Strip(content), '{') > CountOf(Strip(content), '}')
  }
}
