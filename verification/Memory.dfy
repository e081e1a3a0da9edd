/** Durable memories: an add either merges into the entry that states the same thing or creates one.
    Text normalisation and the similarity of two normalised texts are arbitrary functions.
  */
module Memory {
  import opened Common

  datatype Partition = Partition(memoryType: string, scope: string, scopeKey: string)

  /** Provenance a caller may attach; the merge bookkeeping keys are not the caller's to set. */
  datatype CallMeta = CallMeta(requestId: Option<string>, sessionId: Option<string>, other: map<string, string>)

  datatype Call = Call(
    memoryType: string, content: string, scope: string, scopeKey: string, source: string,
    importance: int, tags: seq<string>, meta: CallMeta)

  datatype Meta = Meta(
    requestId: Option<string>, sessionId: Option<string>,
    requestIds: Option<seq<string>>, sessionIds: Option<seq<string>>,
    mergeCount: Option<nat>, lastSimilarity: Option<real>,
    other: map<string, string>)

  datatype Entry = Entry(
    partition: Partition, content: string, source: string, importance: int, tags: seq<string>, meta: Meta)

  /** How statements are compared; a threshold of 0 switches near-duplicate wording off. */
  datatype Matching = Matching(normalize: string -> string, similarity: (string, string) -> real, threshold: real)

  const MERGE_CANDIDATE_LIMIT := 200
  const GLOBAL_SCOPE_KEY := "global"

  predicate ValidScope(scope: string) {
    scope == "user" || scope == "project" || scope == "global"
  }

  predicate ValidSource(source: string) {
    source == "user" || source == "llm" || source == "manual"
  }

  predicate Accepted(c: Call) {
    ValidScope(c.scope) && ValidSource(c.source) && (c.scope == "global" || c.scopeKey != "")
  }

  function PartitionOf(c: Call): Partition {
    Partition(c.memoryType, c.scope, if c.scope == "global" then GLOBAL_SCOPE_KEY else c.scopeKey)
  }

  function NewEntry(c: Call): Entry {
    Entry(PartitionOf(c), c.content, c.source, c.importance, c.tags,
          Meta(c.meta.requestId, c.meta.sessionId, None, None, None, None, c.meta.other))
  }

  // ----- merging -----

  function AsList(ids: Option<seq<string>>): seq<string> {
    if ids.Some? then ids.value else []
  }

  /** A leftover singular id moves to the front of the list; an incoming one is appended when new. */
  function MergeIds(legacy: Option<string>, ids: Option<seq<string>>, incoming: Option<string>): Option<seq<string>> {
    var migrated := if legacy.None? then ids
                    else if legacy.value in AsList(ids) then Some(AsList(ids))
                    else Some([legacy.value] + AsList(ids));
    if incoming.None? then migrated
    else if incoming.value in AsList(migrated) then Some(AsList(migrated))
    else Some(AsList(migrated) + [incoming.value])
  }

  function MergeMeta(m: Meta, c: CallMeta, similarity: real): Meta {
    Meta(None, None,
         MergeIds(m.requestId, m.requestIds, c.requestId),
         MergeIds(m.sessionId, m.sessionIds, c.sessionId),
         Some((if m.mergeCount.Some? then m.mergeCount.value else 0) + 1),
         Some(similarity),
         m.other + c.other)
  }

  function Merge(e: Entry, c: Call, similarity: real): Entry {
    e.(content := if |c.content| > |e.content| then c.content else e.content,
       importance := Max(e.importance, c.importance),
       tags := Distinct(e.tags + c.tags),
       meta := MergeMeta(e.meta, c.meta, similarity))
  }

  // ----- which entry an add merges into -----

  /** A listed row: where the entry is stored and how it ranks. */
  datatype Row = Row(position: nat, importance: int)

  /** Most important first, then most recently created. */
  predicate RowLeq(a: Row, b: Row) {
    a.importance > b.importance || (a.importance == b.importance && a.position >= b.position)
  }

  function RowsOf(entries: seq<Entry>, p: Partition): (r: seq<Row>)
    ensures forall i :: 0 <= i < |r| ==> r[i].position < |entries| && entries[r[i].position].partition == p
  {
    if entries == [] then [] else
    var last := |entries| - 1;
    RowsOf(entries[..last], p) + if entries[last].partition == p then [Row(last, entries[last].importance)] else []
  }

  /** What the repository lists for a partition, at most `limit` rows. */
  function Listed(entries: seq<Entry>, p: Partition, limit: nat): (r: seq<Row>)
    ensures forall i :: 0 <= i < |r| ==> r[i].position < |entries| && entries[r[i].position].partition == p
  {
    var rows := RowsOf(entries, p);
    assert TotalOrder(RowLeq);
    SortedIsPermutation(rows, RowLeq);
    SameMultisetSameElements(Sorted(rows, RowLeq), rows);
    var r := SliceTo(Sorted(rows, RowLeq), limit);
    assert forall i :: 0 <= i < |r| ==> r[i] in Sorted(rows, RowLeq);
    r
  }

  lemma {:induction false} RowsOfComplete(entries: seq<Entry>, p: Partition, i: nat)
    requires i < |entries| && entries[i].partition == p
    ensures Row(i, entries[i].importance) in RowsOf(entries, p)
  {
    var last := |entries| - 1;
    if i < last { RowsOfComplete(entries[..last], p, i); }
  }

  /** Below the limit nothing is left out of the listing. */
  lemma ListedComplete(entries: seq<Entry>, p: Partition, limit: nat, i: nat)
    requires |RowsOf(entries, p)| <= limit && i < |entries| && entries[i].partition == p
    ensures Row(i, entries[i].importance) in Listed(entries, p, limit)
  {
    RowsOfComplete(entries, p, i);
    assert TotalOrder(RowLeq);
    SortedIsPermutation(RowsOf(entries, p), RowLeq);
    SameMultisetSameElements(Sorted(RowsOf(entries, p), RowLeq), RowsOf(entries, p));
  }

  /** Near enough to pass for the same statement. */
  predicate Similar(m: Matching, candidateKey: string, targetKey: string) {
    m.threshold > 0.0 && m.similarity(candidateKey, targetKey) >= m.threshold
  }

  /** How well a candidate matches, if it does. */
  function Match(m: Matching, candidateKey: string, targetKey: string): Option<real> {
    if candidateKey == "" then None
    else if candidateKey == targetKey then Some(1.0)
    else if Similar(m, candidateKey, targetKey) then Some(m.similarity(candidateKey, targetKey))
    else None
  }

  /** The entry passes for the statement. */
  predicate Passes(m: Matching, e: Entry, key: string) {
    Match(m, m.normalize(e.content), key).Some?
  }

  datatype Found = Found(position: nat, similarity: real)

  /** The first listed row that matches `target`. */
  function FindIn(m: Matching, entries: seq<Entry>, rows: seq<Row>, target: string): (r: Option<Found>)
    requires forall i :: 0 <= i < |rows| ==> rows[i].position < |entries|
    ensures r.Some? ==> exists i :: 0 <= i < |rows| && rows[i].position == r.value.position
                          && Match(m, m.normalize(entries[rows[i].position].content), target)
                               == Some(r.value.similarity)
                          && forall j :: 0 <= j < i ==> !Passes(m, entries[rows[j].position], target)
    ensures r.None? ==> forall i :: 0 <= i < |rows| ==> !Passes(m, entries[rows[i].position], target)
  {
    if rows == [] then None
    else
      var match0 := Match(m, m.normalize(entries[rows[0].position].content), target);
      if match0.Some? then
        var r := Found(rows[0].position, match0.value);
        assert rows[0].position == r.position;
        Some(r)
      else
        var r := FindIn(m, entries, rows[1..], target);
        assert forall i :: 0 <= i < |rows[1..]| ==> rows[1..][i] == rows[i + 1];
        r
  }

  lemma FindInNext(m: Matching, entries: seq<Entry>, rows: seq<Row>, i: nat, target: string)
    requires (forall j :: 0 <= j < |rows| ==> rows[j].position < |entries|) && i < |rows|
    ensures var here := Match(m, m.normalize(entries[rows[i].position].content), target);
      FindIn(m, entries, rows[i..], target)
        == if here.Some? then Some(Found(rows[i].position, here.value)) else FindIn(m, entries, rows[i + 1..], target)
  {
    assert rows[i..][0] == rows[i] && rows[i..][1..] == rows[i + 1..];
  }

  function Duplicate(m: Matching, entries: seq<Entry>, p: Partition, content: string): (r: Option<Found>)
    ensures r.Some? ==> r.value.position < |entries| && entries[r.value.position].partition == p
                        && Match(m, m.normalize(entries[r.value.position].content), m.normalize(content))
                             == Some(r.value.similarity)
  {
    var rows := Listed(entries, p, MERGE_CANDIDATE_LIMIT);
    if m.normalize(content) == "" then None else FindIn(m, entries, rows, m.normalize(content))
  }

  function Merged(entries: seq<Entry>, found: Found, c: Call): seq<Entry>
    requires found.position < |entries|
  {
    entries[found.position := Merge(entries[found.position], c, found.similarity)]
  }

  /** The store after one add. */
  function Add(m: Matching, mergeDuplicates: bool, entries: seq<Entry>, c: Call): seq<Entry> {
    if !Accepted(c) then entries else
    var found := if mergeDuplicates then Duplicate(m, entries, PartitionOf(c), c.content) else None;
    if found.Some? then Merged(entries, found.value, c) else entries + [NewEntry(c)]
  }

  class MemoryService {
    const matching: Matching
    const mergeDuplicates: bool
    var entries: seq<Entry>

    constructor (matching: Matching, mergeDuplicates: bool)
      ensures this.matching == matching && this.mergeDuplicates == mergeDuplicates && entries == []
    {
      this.matching := matching;
      this.mergeDuplicates := mergeDuplicates;
      entries := [];
    }

    method FindDuplicate(p: Partition, content: string) returns (r: Option<Found>)
      ensures r == Duplicate(matching, entries, p, content)
    {
      var targetKey := matching.normalize(content);
      if targetKey == "" {
        return None;
      }
      var threshold := matching.threshold;
      var candidates := Listed(entries, p, MERGE_CANDIDATE_LIMIT);
      for i := 0 to |candidates|
        invariant forall j :: 0 <= j < |candidates| ==> candidates[j].position < |entries|
        invariant Duplicate(matching, entries, p, content) == FindIn(matching, entries, candidates[i..], targetKey)
      {
        var candidate := candidates[i].position;
        FindInNext(matching, entries, candidates, i, targetKey);
        var candidateKey := matching.normalize(entries[candidate].content);
        if candidateKey == "" {
          continue;
        }
        if candidateKey == targetKey {
          return Some(Found(candidate, 1.0));
        }
        if threshold > 0.0 {
          var similarity := matching.similarity(candidateKey, targetKey);
          if similarity >= threshold {
            return Some(Found(candidate, similarity));
          }
        }
      }
      return None;
    }

    method MergeInto(position: nat, c: Call, similarity: real)
      requires position < |entries|
      modifies this
      ensures entries == old(entries)[position := Merge(old(entries)[position], c, similarity)]
    {
      var existing := entries[position];
      if |c.content| > |existing.content| {
        existing := existing.(content := c.content);
      }
      existing := existing.(importance := Max(existing.importance, c.importance));
      existing := existing.(tags := Distinct(existing.tags + c.tags));
      var merged := existing.meta;
      merged :=
        merged.(requestIds := MergeIds(merged.requestId, merged.requestIds, c.meta.requestId), requestId := None);
      merged :=
        merged.(sessionIds := MergeIds(merged.sessionId, merged.sessionIds, c.meta.sessionId), sessionId := None);
      merged := merged.(other := merged.other + c.meta.other);
      merged := merged.(mergeCount := Some((if merged.mergeCount.Some? then merged.mergeCount.value else 0) + 1));
      merged := merged.(lastSimilarity := Some(similarity));
      existing := existing.(meta := merged);
      entries := entries[position := existing];
    }

    method AddMemory(c: Call) returns (r: Result<Entry, string>)
      modifies this
      ensures r.Err? <==> !Accepted(c)
      ensures entries == Add(matching, mergeDuplicates, old(entries), c)
      ensures r.Ok? ==>
        var found := if mergeDuplicates then Duplicate(matching, old(entries), PartitionOf(c), c.content) else None;
        var position := if found.Some? then found.value.position else |old(entries)|;
        position < |entries| && r.value == entries[position]
    {
      if !ValidScope(c.scope) {
        return Err("Invalid memory scope");
      }
      if !ValidSource(c.source) {
        return Err("Invalid memory source");
      }
      if c.scope != "global" && c.scopeKey == "" {
        return Err("scope_key is required for user/project memories.");
      }
      if mergeDuplicates {
        var duplicate := FindDuplicate(PartitionOf(c), c.content);
        match duplicate {
          case Some(found) =>
            MergeInto(found.position, c, found.similarity);
            return Ok(entries[found.position]);
          case None =>
        }
      }
      entries := entries + [NewEntry(c)];
      r := Ok(entries[|entries| - 1]);
    }
  }

  // ----- whole histories -----

  function Run(m: Matching, calls: seq<Call>): seq<Entry> {
    if calls == [] then [] else Add(m, true, Run(m, calls[..|calls| - 1]), calls[|calls| - 1])
  }

  predicate States(m: Matching, e: Entry, p: Partition, key: string) {
    e.partition == p && m.normalize(e.content) == key
  }

  predicate Concerns(m: Matching, c: Call, p: Partition, key: string) {
    Accepted(c) && PartitionOf(c) == p && m.normalize(c.content) == key
  }

  function EntriesWith(m: Matching, entries: seq<Entry>, p: Partition, key: string): seq<Entry> {
    if entries == [] then [] else
    var last := |entries| - 1;
    EntriesWith(m, entries[..last], p, key)
      + if States(m, entries[last], p, key) then [entries[last]] else []
  }

  function CallsWith(m: Matching, calls: seq<Call>, p: Partition, key: string): seq<Call> {
    if calls == [] then [] else
    var last := |calls| - 1;
    CallsWith(m, calls[..last], p, key)
      + if Concerns(m, calls[last], p, key) then [calls[last]] else []
  }

  /** One statement's entry, from the calls that made it. */
  function FoldEntry(calls: seq<Call>): Entry
    requires calls != []
  {
    if |calls| == 1 then NewEntry(calls[0]) else Merge(FoldEntry(calls[..|calls| - 1]), calls[|calls| - 1], 1.0)
  }

  lemma AppendedHere(m: Matching, entries: seq<Entry>, e: Entry, p: Partition, key: string)
    ensures EntriesWith(m, entries + [e], p, key)
         == EntriesWith(m, entries, p, key) + if States(m, e, p, key) then [e] else []
  {
    assert (entries + [e])[..|entries|] == entries;
  }

  lemma {:induction false} UpdateElsewhere(m: Matching, entries: seq<Entry>, i: nat, e: Entry,
                                           p: Partition, key: string)
    requires i < |entries| && !States(m, entries[i], p, key) && !States(m, e, p, key)
    ensures EntriesWith(m, entries[i := e], p, key) == EntriesWith(m, entries, p, key)
  {
    var last := |entries| - 1;
    if i < last {
      UpdateElsewhere(m, entries[..last], i, e, p, key);
      assert entries[i := e][..last] == entries[..last][i := e];
    } else {
      assert entries[i := e][..last] == entries[..last];
    }
  }

  lemma {:induction false} FoundIsThere(m: Matching, entries: seq<Entry>, i: nat, p: Partition,
                                        key: string)
    requires i < |entries| && States(m, entries[i], p, key)
    ensures |EntriesWith(m, entries, p, key)| >= 1
  {
    var last := |entries| - 1;
    if i < last { FoundIsThere(m, entries[..last], i, p, key); }
  }

  lemma {:induction false} UpdateOnly(m: Matching, entries: seq<Entry>, i: nat, e: Entry, p: Partition,
                                      key: string)
    requires i < |entries| && States(m, entries[i], p, key) && States(m, e, p, key)
    requires |EntriesWith(m, entries, p, key)| == 1
    ensures EntriesWith(m, entries, p, key) == [entries[i]]
    ensures EntriesWith(m, entries[i := e], p, key) == [e]
  {
    var init, last := entries[..|entries| - 1], entries[|entries| - 1];
    assert entries == init + [last];
    AppendedHere(m, init, last, p, key);
    if i < |init| {
      FoundIsThere(m, init, i, p, key);
      UpdateOnly(m, init, i, e, p, key);
      assert entries[i := e] == init[i := e] + [last];
      AppendedHere(m, init[i := e], last, p, key);
    } else {
      assert entries[i := e] == init + [e];
      AppendedHere(m, init, e, p, key);
    }
  }

  lemma {:induction false} PickOne(m: Matching, entries: seq<Entry>, p: Partition, key: string)
      returns (i: nat)
    requires |EntriesWith(m, entries, p, key)| >= 1
    ensures i < |entries| && States(m, entries[i], p, key)
  {
    var last := |entries| - 1;
    if States(m, entries[last], p, key) {
      i := last;
    } else {
      i := PickOne(m, entries[..last], p, key);
    }
  }

  /** No entry of the partition passes for the statement without making it. */
  ghost predicate Distinguished(m: Matching, entries: seq<Entry>, p: Partition, key: string) {
    forall i :: 0 <= i < |entries| && entries[i].partition == p && m.normalize(entries[i].content) !in ["", key] ==>
      !Similar(m, m.normalize(entries[i].content), key)
  }

  lemma DuplicateIsExact(m: Matching, entries: seq<Entry>, p: Partition, content: string)
    requires Distinguished(m, entries, p, m.normalize(content))
    ensures var found := Duplicate(m, entries, p, content);
      found.Some? ==> States(m, entries[found.value.position], p, m.normalize(content)) && found.value.similarity == 1.0
  {
  }

  /** With the whole partition listed, a duplicate is found whenever there is one. */
  lemma DuplicateFound(m: Matching, entries: seq<Entry>, p: Partition, content: string)
    requires |RowsOf(entries, p)| <= MERGE_CANDIDATE_LIMIT && m.normalize(content) != ""
    requires Distinguished(m, entries, p, m.normalize(content))
    ensures Duplicate(m, entries, p, content).Some?
       <==> |EntriesWith(m, entries, p, m.normalize(content))| >= 1
  {
    var key, found := m.normalize(content), Duplicate(m, entries, p, content);
    if found.Some? {
      DuplicateIsExact(m, entries, p, content);
      FoundIsThere(m, entries, found.value.position, p, key);
    }
    if |EntriesWith(m, entries, p, key)| >= 1 {
      var i := PickOne(m, entries, p, key);
      ListedComplete(entries, p, MERGE_CANDIDATE_LIMIT, i);
      var rows := Listed(entries, p, MERGE_CANDIDATE_LIMIT);
      var j :| 0 <= j < |rows| && rows[j] == Row(i, entries[i].importance);
      assert Passes(m, entries[rows[j].position], key);
    }
  }

  /** One add changes only its own statement's entry. */
  lemma AddElsewhere(m: Matching, entries: seq<Entry>, c: Call, p: Partition, key: string)
    requires !Concerns(m, c, p, key)
    requires Accepted(c) && PartitionOf(c) == p && m.normalize(c.content) != "" ==>
               Distinguished(m, entries, p, m.normalize(c.content))
    ensures EntriesWith(m, Add(m, true, entries, c), p, key) == EntriesWith(m, entries, p, key)
  {
    if Accepted(c) {
      var found := Duplicate(m, entries, PartitionOf(c), c.content);
      if found.Some? {
        if PartitionOf(c) == p { DuplicateIsExact(m, entries, p, c.content); }
        var e := entries[found.value.position];
        UpdateElsewhere(m, entries, found.value.position, Merge(e, c, found.value.similarity), p, key);
      } else {
        AppendedHere(m, entries, NewEntry(c), p, key);
      }
    }
  }

  lemma AddHere(m: Matching, entries: seq<Entry>, c: Call, p: Partition, key: string)
    requires Concerns(m, c, p, key) && key != "" && |RowsOf(entries, p)| <= MERGE_CANDIDATE_LIMIT
    requires |EntriesWith(m, entries, p, key)| <= 1 && Distinguished(m, entries, p, key)
    ensures var before := EntriesWith(m, entries, p, key);
            EntriesWith(m, Add(m, true, entries, c), p, key)
              == [if before == [] then NewEntry(c) else Merge(before[0], c, 1.0)]
  {
    DuplicateFound(m, entries, p, c.content);
    DuplicateIsExact(m, entries, p, c.content);
    var found := Duplicate(m, entries, p, c.content);
    if found.Some? {
      UpdateOnly(m, entries, found.value.position, Merge(entries[found.value.position], c, 1.0), p, key);
    } else {
      AppendedHere(m, entries, NewEntry(c), p, key);
    }
  }

  function Folded(mine: seq<Call>): seq<Entry> {
    if mine == [] then [] else [FoldEntry(mine)]
  }

  lemma FoldedNext(mine: seq<Call>, c: Call)
    ensures Folded(mine + [c]) == [if mine == [] then NewEntry(c) else Merge(FoldEntry(mine), c, 1.0)]
  {
    assert (mine + [c])[..|mine|] == mine;
  }

  /** The partition is fully listed before each of the calls. */
  ghost predicate AlwaysListed(m: Matching, calls: seq<Call>, p: Partition) {
    forall n: nat :: n < |calls| ==> |RowsOf(Run(m, calls[..n]), p)| <= MERGE_CANDIDATE_LIMIT
  }

  lemma AlwaysListedBefore(m: Matching, calls: seq<Call>, p: Partition)
    requires calls != [] && AlwaysListed(m, calls, p)
    ensures AlwaysListed(m, calls[..|calls| - 1], p)
    ensures |RowsOf(Run(m, calls[..|calls| - 1]), p)| <= MERGE_CANDIDATE_LIMIT
  {
    var init := calls[..|calls| - 1];
    forall n: nat | n < |init| ensures |RowsOf(Run(m, init[..n]), p)| <= MERGE_CANDIDATE_LIMIT {
      assert init[..n] == calls[..n];
    }
  }

  predicate ApartAt(m: Matching, a: Call, b: Call, p: Partition) {
    var x, y := m.normalize(a.content), m.normalize(b.content);
    Accepted(a) && Accepted(b) && PartitionOf(a) == p == PartitionOf(b) && x != y && x != "" && y != "" ==>
      !Similar(m, x, y)
  }

  /** No two different statements made in the partition pass for each other. */
  ghost predicate Apart(m: Matching, calls: seq<Call>, p: Partition) {
    forall i, j :: 0 <= i < |calls| && 0 <= j < |calls| ==> ApartAt(m, calls[i], calls[j], p)
  }

  /** Some accepted call gave the entry its wording. */
  ghost predicate WordedBy(calls: seq<Call>, e: Entry) {
    exists j :: 0 <= j < |calls| && Accepted(calls[j]) && PartitionOf(calls[j]) == e.partition
                && calls[j].content == e.content
  }

  lemma WordedLater(calls: seq<Call>, e: Entry)
    requires calls != [] && WordedBy(calls[..|calls| - 1], e)
    ensures WordedBy(calls, e)
  {
    var init := calls[..|calls| - 1];
    var j :| 0 <= j < |init| && Accepted(init[j]) && PartitionOf(init[j]) == e.partition
             && init[j].content == e.content;
    assert calls[j] == init[j];
  }

  lemma {:induction false} EntriesAreWorded(m: Matching, calls: seq<Call>, i: nat)
    requires i < |Run(m, calls)|
    ensures WordedBy(calls, Run(m, calls)[i])
  {
    var init, last := calls[..|calls| - 1], calls[|calls| - 1];
    var before, e := Run(m, init), Run(m, calls)[i];
    if i < |before| && e.content == before[i].content && e.partition == before[i].partition {
      EntriesAreWorded(m, init, i);
      WordedLater(calls, before[i]);
    } else {
      assert Accepted(last) && PartitionOf(last) == e.partition && last.content == e.content;
    }
  }

  lemma ApartDistinguishes(m: Matching, calls: seq<Call>, p: Partition, key: string)
    requires calls != [] && Apart(m, calls, p) && Concerns(m, calls[|calls| - 1], p, key) && key != ""
    ensures Distinguished(m, Run(m, calls[..|calls| - 1]), p, key)
  {
    var init := calls[..|calls| - 1];
    var entries := Run(m, init);
    forall i | 0 <= i < |entries| && entries[i].partition == p && m.normalize(entries[i].content) !in ["", key]
      ensures !Similar(m, m.normalize(entries[i].content), key)
    {
      EntriesAreWorded(m, init, i);
      var j :| 0 <= j < |init| && Accepted(init[j]) && PartitionOf(init[j]) == p
               && init[j].content == entries[i].content;
      assert ApartAt(m, calls[j], calls[|calls| - 1], p);
    }
  }

  lemma ApartBefore(m: Matching, calls: seq<Call>, p: Partition)
    requires calls != [] && Apart(m, calls, p)
    ensures Apart(m, calls[..|calls| - 1], p)
  {
    var init := calls[..|calls| - 1];
    forall i, j | 0 <= i < |init| && 0 <= j < |init| ensures ApartAt(m, init[i], init[j], p) {
      assert ApartAt(m, calls[i], calls[j], p);
    }
  }

  /** Every statement ends as one entry, the fold of exactly the calls that made it. */
  lemma {:induction false} StatementIsFoldOfItsCalls(m: Matching, calls: seq<Call>, p: Partition, key: string)
    requires key != "" && AlwaysListed(m, calls, p) && Apart(m, calls, p)
    ensures EntriesWith(m, Run(m, calls), p, key) == Folded(CallsWith(m, calls, p, key))
  {
    if calls != [] {
      var init, last := calls[..|calls| - 1], calls[|calls| - 1];
      var lastKey := m.normalize(last.content);
      AlwaysListedBefore(m, calls, p);
      ApartBefore(m, calls, p);
      StatementIsFoldOfItsCalls(m, init, p, key);
      if Accepted(last) && PartitionOf(last) == p && lastKey != "" {
        ApartDistinguishes(m, calls, p, lastKey);
      }
      if Concerns(m, last, p, key) {
        AddHere(m, Run(m, init), last, p, key);
        FoldedNext(CallsWith(m, init, p, key), last);
      } else {
        AddElsewhere(m, Run(m, init), last, p, key);
        assert CallsWith(m, calls, p, key) == CallsWith(m, init, p, key);
      }
    }
  }

  /** In every history, in every partition that stays within the listing limit, each statement has one entry, the fold
      of its calls.
    */
  ghost predicate MergingIsExact(m: Matching) {
    forall calls: seq<Call>, p, key :: key != "" && AlwaysListed(m, calls, p) ==>
      EntriesWith(m, Run(m, calls), p, key) == Folded(CallsWith(m, calls, p, key))
  }

  /** No two texts with different keys pass for each other. */
  ghost predicate NeverConfuses(m: Matching) {
    forall x: string, y: string ::
      m.normalize(x) != m.normalize(y) && m.normalize(x) != "" && m.normalize(y) != "" ==>
        !Similar(m, m.normalize(x), m.normalize(y))
  }

  function Stating(x: string): Call {
    Call("fact", x, "user", "u", "manual", 3, [], CallMeta(None, None, map[]))
  }

  lemma OneRowListed(e: Entry)
    ensures RowsOf([e], e.partition) == [Row(0, e.importance)] == Listed([e], e.partition, MERGE_CANDIDATE_LIMIT)
  {
    var row := Row(0, e.importance);
    assert [e][..0] == [] && [row][..0] == [];
    assert RowsOf([e], e.partition) == [row];
    assert Sorted([row], RowLeq) == [row];
  }

  lemma FoundInOne(m: Matching, e: Entry, content: string)
    requires m.normalize(e.content) != "" && m.normalize(content) != ""
    requires m.normalize(e.content) != m.normalize(content)
    requires Similar(m, m.normalize(e.content), m.normalize(content))
    ensures Duplicate(m, [e], e.partition, content)
         == Some(Found(0, m.similarity(m.normalize(e.content), m.normalize(content))))
  {
    OneRowListed(e);
  }

  lemma FirstAdd(m: Matching, c: Call)
    requires Accepted(c)
    ensures Run(m, [c]) == [NewEntry(c)]
  {
    assert [c][..0] == [];
    assert RowsOf([], PartitionOf(c)) == [];
    assert Run(m, []) == [];
    assert Listed([], PartitionOf(c), MERGE_CANDIDATE_LIMIT) == [];
  }

  /** A second statement that passes for the first has no entry of its own. */
  lemma ConfusedAdd(m: Matching, x: string, y: string, calls: seq<Call>)
    requires m.normalize(x) != "" && m.normalize(y) != ""
    requires m.normalize(x) != m.normalize(y) && Similar(m, m.normalize(x), m.normalize(y))
    requires calls == [Stating(x), Stating(y)]
    ensures Run(m, calls) == [Merge(NewEntry(Stating(x)), Stating(y), m.similarity(m.normalize(x), m.normalize(y)))]
    ensures AlwaysListed(m, calls, PartitionOf(Stating(y)))
  {
    var a, b := Stating(x), Stating(y);
    var e, p := NewEntry(a), PartitionOf(b);
    assert calls[..0] == [] && calls[..1] == [a];
    FirstAdd(m, a);
    OneRowListed(e);
    FoundInOne(m, e, y);
    assert Run(m, calls) == Add(m, true, [e], b);
    forall n: nat | n < |calls| ensures |RowsOf(Run(m, calls[..n]), p)| <= MERGE_CANDIDATE_LIMIT {
      if n == 0 { assert Run(m, calls[..0]) == []; }
    }
  }

  /** Nothing it leaves in the store is an entry made by one call. */
  lemma MergedIsNotNew(m: Matching, e: Entry, p: Partition, key: string, c: Call)
    requires e.meta.mergeCount.Some?
    ensures EntriesWith(m, [e], p, key) != [NewEntry(c)]
  {
    AppendedHere(m, [], e, p, key);
    assert [] + [e] == [e] && EntriesWith(m, [], p, key) == [];
    assert NewEntry(c).meta.mergeCount.None?;
  }

  lemma OnlyTheSecondConcerns(m: Matching, a: Call, b: Call, p: Partition, key: string)
    requires !Concerns(m, a, p, key) && Concerns(m, b, p, key)
    ensures Folded(CallsWith(m, [a, b], p, key)) == [NewEntry(b)]
  {
    assert [a, b][..1] == [a] && [a][..0] == [];
    assert CallsWith(m, [a], p, key) == [];
    assert CallsWith(m, [a, b], p, key) == [b];
  }

  lemma ConfusedIsNotFolded(m: Matching, x: string, y: string)
    requires m.normalize(x) != "" && m.normalize(y) != ""
    requires m.normalize(x) != m.normalize(y) && Similar(m, m.normalize(x), m.normalize(y))
    ensures !MergingIsExact(m)
  {
    var a, b := Stating(x), Stating(y);
    var p, key := PartitionOf(b), m.normalize(y);
    ConfusedAdd(m, x, y, [a, b]);
    MergedIsNotNew(m, Run(m, [a, b])[0], p, key, b);
    OnlyTheSecondConcerns(m, a, b, p, key);
    assert EntriesWith(m, Run(m, [a, b]), p, key) != Folded(CallsWith(m, [a, b], p, key));
  }

  /** Merging keeps every statement to itself if and only if no two statements pass for each other; with the threshold
      at 0 none do.
    */
  lemma MergingIsExactIff(m: Matching)
    ensures MergingIsExact(m) <==> NeverConfuses(m)
    ensures m.threshold <= 0.0 ==> NeverConfuses(m)
  {
    if NeverConfuses(m) {
      forall calls: seq<Call>, p, key | key != "" && AlwaysListed(m, calls, p)
        ensures EntriesWith(m, Run(m, calls), p, key) == Folded(CallsWith(m, calls, p, key))
      {
        StatementIsFoldOfItsCalls(m, calls, p, key);
      }
    } else {
      var x: string, y: string :| m.normalize(x) != m.normalize(y) && m.normalize(x) != "" && m.normalize(y) != ""
                                  && Similar(m, m.normalize(x), m.normalize(y));
      ConfusedIsNotFolded(m, x, y);
    }
  }

  lemma {:induction false} OnlyOneStates(m: Matching, entries: seq<Entry>, p: Partition, key: string,
                                         i: nat, j: nat)
    requires i < |entries| && j < |entries| && |EntriesWith(m, entries, p, key)| == 1
    requires States(m, entries[i], p, key) && States(m, entries[j], p, key)
    ensures i == j
  {
    var last := |entries| - 1;
    if i < last {
      FoundIsThere(m, entries[..last], i, p, key);
      if j < last { OnlyOneStates(m, entries[..last], p, key, i, j); }
    } else if j < last {
      FoundIsThere(m, entries[..last], j, p, key);
    }
  }

  lemma {:induction false} RowsOfImportance(entries: seq<Entry>, p: Partition, i: nat)
    requires i < |RowsOf(entries, p)|
    ensures var row := RowsOf(entries, p)[i];
      row.position < |entries| && row.importance == entries[row.position].importance
  {
    var last := |entries| - 1;
    if i < |RowsOf(entries[..last], p)| { RowsOfImportance(entries[..last], p, i); }
  }

  lemma RowsCarryImportance(entries: seq<Entry>, p: Partition, limit: nat, position: nat)
    requires exists i :: 0 <= i < |Listed(entries, p, limit)| && Listed(entries, p, limit)[i].position == position
    ensures position < |entries| && Row(position, entries[position].importance) in Listed(entries, p, limit)
  {
    var rows, listed := RowsOf(entries, p), Listed(entries, p, limit);
    var i :| 0 <= i < |listed| && listed[i].position == position;
    assert TotalOrder(RowLeq);
    SortedIsPermutation(rows, RowLeq);
    SameMultisetSameElements(Sorted(rows, RowLeq), rows);
    assert listed[i] in Sorted(rows, RowLeq);
    var j :| 0 <= j < |rows| && rows[j] == listed[i];
    RowsOfImportance(entries, p, j);
    assert listed[i] in listed;
  }

  lemma FoundIsListed(m: Matching, entries: seq<Entry>, p: Partition, content: string)
    requires Duplicate(m, entries, p, content).Some?
    ensures var rows := Listed(entries, p, MERGE_CANDIDATE_LIMIT);
      exists i :: 0 <= i < |rows| && rows[i].position == Duplicate(m, entries, p, content).value.position
  {
  }

  /** The entry stored at `position` is listed, and nothing listed before it passes for the statement. */
  ghost predicate ListedFirst(m: Matching, entries: seq<Entry>, p: Partition, key: string, position: nat) {
    var rows := Listed(entries, p, MERGE_CANDIDATE_LIMIT);
    exists j :: 0 <= j < |rows| && rows[j].position == position
                && forall k :: 0 <= k < j ==> !Passes(m, entries[rows[k].position], key)
  }

  /** An add of a stated fact merges into the entry that states it if and only if that entry is among the listed rows
      and nothing listed before it passes for the same statement.
    */
  lemma MergesIntoItsOwnIff(m: Matching, entries: seq<Entry>, c: Call, i: nat)
    requires m.normalize(c.content) != "" && i < |entries|
    requires States(m, entries[i], PartitionOf(c), m.normalize(c.content))
    ensures var p, key := PartitionOf(c), m.normalize(c.content);
      var found := Duplicate(m, entries, p, c.content);
      found.Some? && found.value.position == i <==> ListedFirst(m, entries, p, key, i)
  {
    var p, key := PartitionOf(c), m.normalize(c.content);
    var rows, found := Listed(entries, p, MERGE_CANDIDATE_LIMIT), Duplicate(m, entries, p, c.content);
    if ListedFirst(m, entries, p, key, i) {
      var j :| 0 <= j < |rows| && rows[j].position == i
               && forall k :: 0 <= k < j ==> !Passes(m, entries[rows[k].position], key);
      assert Passes(m, entries[rows[j].position], key);
    }
  }

  /** Past the limit the promise depends on the listing: where nothing else passes for it, an add of a stated fact
      merges exactly when the entry stating it is among the listed rows, and otherwise leaves two entries for one
      statement.
    */
  lemma MergesExactlyWhenListed(m: Matching, entries: seq<Entry>, c: Call, i: nat)
    requires Accepted(c) && m.normalize(c.content) != "" && i < |entries|
    requires States(m, entries[i], PartitionOf(c), m.normalize(c.content))
    requires |EntriesWith(m, entries, PartitionOf(c), m.normalize(c.content))| == 1
    requires Distinguished(m, entries, PartitionOf(c), m.normalize(c.content))
    ensures var p, key := PartitionOf(c), m.normalize(c.content);
      |EntriesWith(m, Add(m, true, entries, c), p, key)|
        == if Row(i, entries[i].importance) in Listed(entries, p, MERGE_CANDIDATE_LIMIT) then 1 else 2
  {
    var p, key := PartitionOf(c), m.normalize(c.content);
    var rows, found := Listed(entries, p, MERGE_CANDIDATE_LIMIT), Duplicate(m, entries, p, c.content);
    var row := Row(i, entries[i].importance);
    DuplicateIsExact(m, entries, p, c.content);
    if row in rows {
      var j :| 0 <= j < |rows| && rows[j] == row;
      assert Passes(m, entries[rows[j].position], key);
      UpdateOnly(m, entries, found.value.position, Merge(entries[found.value.position], c, 1.0), p, key);
    } else {
      if found.Some? {
        OnlyOneStates(m, entries, p, key, i, found.value.position);
        FoundIsListed(m, entries, p, c.content);
        RowsCarryImportance(entries, p, MERGE_CANDIDATE_LIMIT, found.value.position);
      }
      AppendedHere(m, entries, NewEntry(c), p, key);
    }
  }

  // ----- the fold in closed form -----

  function AllTags(calls: seq<Call>): seq<string> {
    if calls == [] then [] else AllTags(calls[..|calls| - 1]) + calls[|calls| - 1].tags
  }

  function Given(id: Option<string>): seq<string> {
    if id.Some? then [id.value] else []
  }

  function RequestIds(calls: seq<Call>): seq<string> {
    if calls == [] then [] else RequestIds(calls[..|calls| - 1]) + Given(calls[|calls| - 1].meta.requestId)
  }

  function SessionIds(calls: seq<Call>): seq<string> {
    if calls == [] then [] else SessionIds(calls[..|calls| - 1]) + Given(calls[|calls| - 1].meta.sessionId)
  }

  /** The ids recorded so far, wherever the metadata keeps them. */
  predicate Records(legacy: Option<string>, ids: Option<seq<string>>, given: seq<string>) {
    (legacy.Some? && ids.None? && given == [legacy.value])
    || (legacy.None? && AsList(ids) == Distinct(given) && (ids.None? <==> given == []))
  }

  lemma {:induction false} DistinctTwice(a: seq<string>, b: seq<string>)
    ensures Distinct(Distinct(a) + b) == Distinct(a + b)
    decreases |b|
  {
    if b == [] {
      assert Distinct(a) + b == Distinct(a) && a + b == a;
      DistinctOfNoDuplicates(Distinct(a));
    } else {
      var init, last := b[..|b| - 1], b[|b| - 1];
      assert (Distinct(a) + b)[..|Distinct(a) + b| - 1] == Distinct(a) + init;
      assert (a + b)[..|a + b| - 1] == a + init;
      DistinctTwice(a, init);
    }
  }

  lemma DistinctSnoc(s: seq<string>, x: string)
    ensures Distinct(s + [x]) == if x in s then Distinct(s) else Distinct(s) + [x]
  {
    assert (s + [x])[..|s|] == s;
  }

  lemma MergeIdsRecords(legacy: Option<string>, ids: Option<seq<string>>, given: seq<string>, incoming: Option<string>)
    requires Records(legacy, ids, given)
    ensures Records(None, MergeIds(legacy, ids, incoming), given + Given(incoming))
  {
    if legacy.Some? {
      DistinctOfNoDuplicates(given);
    }
    if incoming.Some? {
      DistinctSnoc(given, incoming.value);
    } else {
      assert given + [] == given;
    }
  }

  /** The first call that brought the longest wording supplies it. */
  ghost predicate FirstLongest(calls: seq<Call>, content: string, i: nat) {
    && i < |calls| && calls[i].content == content
    && (forall j :: 0 <= j < i ==> |calls[j].content| < |content|)
    && forall j :: i < j < |calls| ==> |calls[j].content| <= |content|
  }

  lemma {:induction false} FoldedContent(calls: seq<Call>) returns (i: nat)
    requires calls != []
    ensures FirstLongest(calls, FoldEntry(calls).content, i)
  {
    if |calls| == 1 {
      i := 0;
    } else {
      i := FoldedContent(calls[..|calls| - 1]);
      if |calls[|calls| - 1].content| > |FoldEntry(calls[..|calls| - 1]).content| {
        i := |calls| - 1;
      }
    }
  }

  lemma {:induction false} FoldedImportance(calls: seq<Call>)
    requires calls != []
    ensures forall i :: 0 <= i < |calls| ==> calls[i].importance <= FoldEntry(calls).importance
    ensures exists i :: 0 <= i < |calls| && calls[i].importance == FoldEntry(calls).importance
  {
    if |calls| > 1 {
      var init := calls[..|calls| - 1];
      FoldedImportance(init);
      var last, now := calls[|calls| - 1].importance, FoldEntry(calls).importance;
      assert now == Max(FoldEntry(init).importance, last);
      var k :| 0 <= k < |init| && init[k].importance == FoldEntry(init).importance;
      assert calls[k].importance == FoldEntry(init).importance && calls[|calls| - 1].importance == last;
      forall i | 0 <= i < |calls| ensures calls[i].importance <= now {
        if i < |init| { assert calls[i] == init[i]; }
      }
    }
  }

  /** After a merge the tags are all tags ever given, each once, in order of arrival. */
  lemma {:induction false} FoldedTags(calls: seq<Call>)
    requires calls != []
    ensures FoldEntry(calls).tags == if |calls| == 1 then calls[0].tags else Distinct(AllTags(calls))
  {
    if |calls| > 1 {
      var init := calls[..|calls| - 1];
      FoldedTags(init);
      if |init| == 1 {
        assert AllTags(init[..0]) == [];
        assert AllTags(init) == init[0].tags;
      } else {
        DistinctTwice(AllTags(init), calls[|calls| - 1].tags);
      }
    }
  }

  /** The bookkeeping: merges counted, every request and session id kept once, in order of arrival. */
  lemma {:induction false} FoldedMeta(calls: seq<Call>)
    requires calls != []
    ensures var meta := FoldEntry(calls).meta;
      && meta.mergeCount == (if |calls| == 1 then None else Some(|calls| - 1))
      && Records(meta.requestId, meta.requestIds, RequestIds(calls))
      && Records(meta.sessionId, meta.sessionIds, SessionIds(calls))
      && (|calls| > 1 ==> meta.requestId.None? && meta.sessionId.None?)
  {
    var last := calls[|calls| - 1];
    if |calls| == 1 {
      assert calls[..0] == [];
      assert RequestIds(calls) == Given(last.meta.requestId) && SessionIds(calls) == Given(last.meta.sessionId);
    } else {
      var init := calls[..|calls| - 1];
      FoldedMeta(init);
      var meta := FoldEntry(init).meta;
      MergeIdsRecords(meta.requestId, meta.requestIds, RequestIds(init), last.meta.requestId);
      MergeIdsRecords(meta.sessionId, meta.sessionIds, SessionIds(init), last.meta.sessionId);
    }
  }
}
