/** What one add does to the store, said of the entries and the call alone. */
module MemoryAdds {
  import opened Common
  import opened Memory

  /** A known scope and source, and a key unless the memory is everyone's. */
  predicate MayBeAdded(c: Call) {
    && c.scope in ["user", "project", "global"] && c.source in ["user", "llm", "manual"]
    && (c.scope != "global" ==> c.scopeKey != "")
  }

  function EffectiveKey(c: Call): string {
    if c.scope == "global" then "global" else c.scopeKey
  }

  /** The entry is of the call's memory type, scope and owner. */
  predicate Beside(e: Entry, c: Call) {
    && e.partition.memoryType == c.memoryType && e.partition.scope == c.scope
    && e.partition.scopeKey == EffectiveKey(c)
  }

  /** More important, or as important and newer. */
  predicate ListedBefore(entries: seq<Entry>, i: nat, j: nat)
    requires i < |entries| && j < |entries|
  {
    entries[i].importance > entries[j].importance || (entries[i].importance == entries[j].importance && i > j)
  }

  /** The entries beside the call, most important first, the newest first among equals. */
  ghost predicate ListsAll(entries: seq<Entry>, c: Call, positions: seq<nat>) {
    && (forall k :: 0 <= k < |positions| ==> positions[k] < |entries|)
    && (forall i: nat :: i in positions <==> i < |entries| && Beside(entries[i], c))
    && forall k, l :: 0 <= k < l < |positions| ==> ListedBefore(entries, positions[k], positions[l])
  }

  /** The two texts state the same thing; `similarity` says how surely. */
  predicate StatesSame(m: Matching, text: string, other: string, similarity: real) {
    var a, b := m.normalize(text), m.normalize(other);
    && a != "" && b != ""
    && (if a == b then similarity == 1.0
        else m.threshold > 0.0 && similarity == m.similarity(a, b) && similarity >= m.threshold)
  }

  /** Which of the first 200 listed entries is the first to state the same as the call, and how surely. */
  ghost predicate FirstSame(m: Matching, entries: seq<Entry>, c: Call, positions: seq<nat>, k: nat, similarity: real) {
    && k < |positions| && k < 200 && positions[k] < |entries|
    && StatesSame(m, entries[positions[k]].content, c.content, similarity)
    && forall l, s :: 0 <= l < k && positions[l] < |entries| ==>
         !StatesSame(m, entries[positions[l]].content, c.content, s)
  }

  /** An id list grows by the leftover single id, at the front, and the new one, at the end, if they are not in it. */
  predicate IdsGrow(single: Option<string>, ids: Option<seq<string>>, more: Option<string>,
                    after: Option<seq<string>>)
  {
    var list := if ids.Some? then ids.value else [];
    var moved := if single.Some? && single.value !in list then [single.value] + list else list;
    if single.None? && ids.None? && more.None? then after == None
    else after == Some(if more.Some? && more.value !in moved then moved + [more.value] else moved)
  }

  /** The entry e with the call merged into it. */
  predicate MergedAs(e: Entry, c: Call, similarity: real, after: Entry) {
    && after.partition == e.partition && after.source == e.source
    && after.content == (if |c.content| > |e.content| then c.content else e.content)
    && after.importance == (if c.importance > e.importance then c.importance else e.importance)
    && after.tags == Distinct(e.tags + c.tags)
    && after.meta.requestId == None && after.meta.sessionId == None
    && IdsGrow(e.meta.requestId, e.meta.requestIds, c.meta.requestId, after.meta.requestIds)
    && IdsGrow(e.meta.sessionId, e.meta.sessionIds, c.meta.sessionId, after.meta.sessionIds)
    && after.meta.mergeCount == Some(1 + if e.meta.mergeCount.Some? then e.meta.mergeCount.value else 0)
    && after.meta.lastSimilarity == Some(similarity)
    && after.meta.other.Keys == e.meta.other.Keys + c.meta.other.Keys
    && forall name :: name in after.meta.other ==>
         after.meta.other[name] == if name in c.meta.other then c.meta.other[name] else e.meta.other[name]
  }

  /** The call as an entry of its own. */
  predicate StartedAs(c: Call, e: Entry) {
    && Beside(e, c) && e.content == c.content && e.source == c.source && e.importance == c.importance
    && e.tags == c.tags
    && e.meta == Meta(c.meta.requestId, c.meta.sessionId, None, None, None, None, c.meta.other)
  }

  // ----- the listing -----

  lemma {:induction false} RowsAreBeside(entries: seq<Entry>, p: Partition, row: Row)
    ensures row in RowsOf(entries, p) <==>
      row.position < |entries| && entries[row.position].partition == p
      && row.importance == entries[row.position].importance
  {
    if entries != [] { RowsAreBeside(entries[..|entries| - 1], p, row); }
  }

  lemma {:induction false} RowsDiffer(entries: seq<Entry>, p: Partition)
    ensures NoDuplicates(RowsOf(entries, p))
  {
    if entries != [] {
      var init := entries[..|entries| - 1];
      RowsDiffer(init, p);
      assert forall i :: 0 <= i < |RowsOf(init, p)| ==> RowsOf(init, p)[i].position < |init|;
    }
  }

  function PositionsIn(rows: seq<Row>): (r: seq<nat>)
    ensures |r| == |rows|
  {
    seq(|rows|, i requires 0 <= i < |rows| => rows[i].position)
  }

  lemma SortedRows(entries: seq<Entry>, p: Partition, sorted: seq<Row>)
    requires sorted == Sorted(RowsOf(entries, p), RowLeq)
    ensures forall row :: row in sorted <==> row in RowsOf(entries, p)
    ensures forall k :: 0 <= k < |sorted| ==>
              && sorted[k].position < |entries| && entries[sorted[k].position].partition == p
              && sorted[k].importance == entries[sorted[k].position].importance
    ensures forall k, l :: 0 <= k < l < |sorted| ==> RowLeq(sorted[k], sorted[l]) && sorted[k] != sorted[l]
  {
    var rows := RowsOf(entries, p);
    assert TotalOrder(RowLeq);
    SortedIsPermutation(rows, RowLeq);
    SameMultisetSameElements(sorted, rows);
    RowsDiffer(entries, p);
    SameMultisetNoDuplicates(rows, sorted);
    forall k | 0 <= k < |sorted|
      ensures && sorted[k].position < |entries| && entries[sorted[k].position].partition == p
              && sorted[k].importance == entries[sorted[k].position].importance
    {
      assert sorted[k] in rows;
      RowsAreBeside(entries, p, sorted[k]);
    }
  }

  lemma PositionIsListed(entries: seq<Entry>, p: Partition, sorted: seq<Row>, i: nat)
    requires forall row :: row in sorted <==> row in RowsOf(entries, p)
    ensures i in PositionsIn(sorted) <==> i < |entries| && entries[i].partition == p
  {
    if i < |entries| && entries[i].partition == p {
      var row := Row(i, entries[i].importance);
      RowsAreBeside(entries, p, row);
      var k :| 0 <= k < |sorted| && sorted[k] == row;
      assert PositionsIn(sorted)[k] == i;
    }
    if i in PositionsIn(sorted) {
      var k :| 0 <= k < |sorted| && PositionsIn(sorted)[k] == i;
      RowsAreBeside(entries, p, sorted[k]);
    }
  }

  lemma ListingReads(entries: seq<Entry>, c: Call) returns (positions: seq<nat>)
    ensures ListsAll(entries, c, positions)
    ensures PositionsIn(Listed(entries, PartitionOf(c), MERGE_CANDIDATE_LIMIT)) == positions[..Min(200, |positions|)]
  {
    var p := PartitionOf(c);
    var sorted := Sorted(RowsOf(entries, p), RowLeq);
    SortedRows(entries, p, sorted);
    positions := PositionsIn(sorted);
    forall i: nat ensures i in positions <==> i < |entries| && Beside(entries[i], c) {
      PositionIsListed(entries, p, sorted, i);
    }
  }

  // ----- the add -----

  lemma MatchIsSame(m: Matching, text: string, other: string)
    requires m.normalize(other) != ""
    ensures var found := Match(m, m.normalize(text), m.normalize(other));
      forall s :: StatesSame(m, text, other, s) <==> found == Some(s)
  {
  }

  lemma MergeReads(e: Entry, c: Call, similarity: real)
    ensures MergedAs(e, c, similarity, Merge(e, c, similarity))
  {
  }

  /** None of the first n listed entries states the same as the call. */
  ghost predicate NoneSame(m: Matching, entries: seq<Entry>, c: Call, positions: seq<nat>, n: int)
    requires ListsAll(entries, c, positions)
  {
    forall l: nat, s :: l < n && l < |positions| ==> !StatesSame(m, entries[positions[l]].content, c.content, s)
  }

  lemma NoMatchMeansNoneSame(m: Matching, entries: seq<Entry>, c: Call, positions: seq<nat>, n: nat)
    requires ListsAll(entries, c, positions) && n <= |positions|
    requires m.normalize(c.content) == ""
             || forall l :: 0 <= l < n ==> !Passes(m, entries[positions[l]], m.normalize(c.content))
    ensures NoneSame(m, entries, c, positions, n)
  {
    forall l: nat, s | l < n ensures !StatesSame(m, entries[positions[l]].content, c.content, s) {
      if m.normalize(c.content) != "" {
        MatchIsSame(m, entries[positions[l]].content, c.content);
        assert !Passes(m, entries[positions[l]], m.normalize(c.content));
      }
    }
  }

  lemma FoundAt(m: Matching, entries: seq<Entry>, rows: seq<Row>, target: string, found: Found) returns (k: nat)
    requires forall i :: 0 <= i < |rows| ==> rows[i].position < |entries|
    requires FindIn(m, entries, rows, target) == Some(found)
    ensures k < |rows| && rows[k].position == found.position
    ensures Match(m, m.normalize(entries[found.position].content), target) == Some(found.similarity)
    ensures forall j :: 0 <= j < k ==> !Passes(m, entries[rows[j].position], target)
  {
    var i :| 0 <= i < |rows| && rows[i].position == found.position
             && Match(m, m.normalize(entries[rows[i].position].content), target) == Some(found.similarity)
             && forall j :: 0 <= j < i ==> !Passes(m, entries[rows[j].position], target);
    k := i;
  }

  /** The duplicate an add finds is the first of the 200 listed entries that states the same. */
  lemma DuplicateReads(m: Matching, entries: seq<Entry>, c: Call, positions: seq<nat>)
      returns (k: nat, similarity: real)
    requires ListsAll(entries, c, positions)
    requires PositionsIn(Listed(entries, PartitionOf(c), MERGE_CANDIDATE_LIMIT)) == positions[..Min(200, |positions|)]
    ensures var found := Duplicate(m, entries, PartitionOf(c), c.content);
      if found.Some? then
        && FirstSame(m, entries, c, positions, k, similarity) && found.value == Found(positions[k], similarity)
      else NoneSame(m, entries, c, positions, 200)
  {
    k, similarity := 0, 0.0;
    var rows, target := Listed(entries, PartitionOf(c), MERGE_CANDIDATE_LIMIT), m.normalize(c.content);
    var found := Duplicate(m, entries, PartitionOf(c), c.content);
    assert forall i :: 0 <= i < |rows| ==> rows[i].position == PositionsIn(rows)[i] == positions[i];
    if found.Some? {
      k := FoundAt(m, entries, rows, target, found.value);
      similarity := found.value.similarity;
      MatchIsSame(m, entries[positions[k]].content, c.content);
      NoMatchMeansNoneSame(m, entries, c, positions, k);
    } else {
      NoMatchMeansNoneSame(m, entries, c, positions, Min(200, |positions|));
    }
  }

  /** The call is merged into the entry listed k-th; no other entry changes. */
  ghost predicate JoinsAt(m: Matching, entries: seq<Entry>, c: Call, positions: seq<nat>, k: nat, similarity: real,
                          after: seq<Entry>)
  {
    && FirstSame(m, entries, c, positions, k, similarity)
    && |after| == |entries| && MergedAs(entries[positions[k]], c, similarity, after[positions[k]])
    && forall i :: 0 <= i < |entries| && i != positions[k] ==> after[i] == entries[i]
  }

  ghost predicate JoinsSome(m: Matching, entries: seq<Entry>, c: Call, positions: seq<nat>, after: seq<Entry>) {
    exists k: nat, similarity: real :: JoinsAt(m, entries, c, positions, k, similarity, after)
  }

  ghost predicate SomeSame(m: Matching, entries: seq<Entry>, c: Call, positions: seq<nat>) {
    exists k: nat, similarity: real :: FirstSame(m, entries, c, positions, k, similarity)
  }

  predicate StartsEntry(entries: seq<Entry>, c: Call, after: seq<Entry>) {
    |after| == |entries| + 1 && after[..|entries|] == entries && StartedAs(c, after[|entries|])
  }

  lemma JoinReads(m: Matching, entries: seq<Entry>, c: Call, positions: seq<nat>, k: nat, similarity: real)
    requires FirstSame(m, entries, c, positions, k, similarity)
    ensures JoinsSome(m, entries, c, positions, Merged(entries, Found(positions[k], similarity), c))
  {
    var after := Merged(entries, Found(positions[k], similarity), c);
    MergeReads(entries[positions[k]], c, similarity);
    assert JoinsAt(m, entries, c, positions, k, similarity, after);
  }

  lemma StartReads(entries: seq<Entry>, c: Call)
    ensures StartsEntry(entries, c, entries + [NewEntry(c)])
  {
  }

  lemma NoneOrSome(m: Matching, entries: seq<Entry>, c: Call, positions: seq<nat>, k: nat, similarity: real,
                   found: Option<Found>)
    requires ListsAll(entries, c, positions)
    requires found.Some? ==> FirstSame(m, entries, c, positions, k, similarity)
    requires found.None? ==> NoneSame(m, entries, c, positions, 200)
    ensures found.Some? <==> SomeSame(m, entries, c, positions)
  {
  }

  /** What an add does: nothing to a call that is not acceptable; otherwise it merges into the first of the first 200
      entries beside it that states the same, and only if there is none starts an entry.
    */
  lemma AddReads(m: Matching, mergeDuplicates: bool, entries: seq<Entry>, c: Call) returns (positions: seq<nat>)
    ensures ListsAll(entries, c, positions)
    ensures var after := Add(m, mergeDuplicates, entries, c);
      if !MayBeAdded(c) then after == entries
      else if mergeDuplicates && SomeSame(m, entries, c, positions) then JoinsSome(m, entries, c, positions, after)
      else StartsEntry(entries, c, after)
  {
    positions := ListingReads(entries, c);
    var k, similarity := DuplicateReads(m, entries, c, positions);
    var found := Duplicate(m, entries, PartitionOf(c), c.content);
    assert Accepted(c) <==> MayBeAdded(c);
    if found.Some? { JoinReads(m, entries, c, positions, k, similarity); }
    StartReads(entries, c);
    NoneOrSome(m, entries, c, positions, k, similarity, found);
  }
}
