/** Memories of one user or project, and of one kind, are untouched by everyone else's: what a store holds for them is
    what it would hold had nobody else ever added anything.
  */
module Isolation {
  import opened Common
  import opened Memory

  /** The call is accepted and goes to this kind, scope and key; the global scope has one key for all. */
  predicate FiledUnder(c: Call, memoryType: string, scope: string, key: string) {
    && c.scope in ["user", "project", "global"] && c.source in ["user", "llm", "manual"]
    && c.memoryType == memoryType && c.scope == scope
    && if scope == "global" then key == "global" else c.scopeKey == key && key != ""
  }

  function CallsUnder(calls: seq<Call>, memoryType: string, scope: string, key: string): seq<Call> {
    if calls == [] then []
    else
      var last := calls[|calls| - 1];
      CallsUnder(calls[..|calls| - 1], memoryType, scope, key)
        + if FiledUnder(last, memoryType, scope, key) then [last] else []
  }

  function EntriesUnder(entries: seq<Entry>, memoryType: string, scope: string, key: string): seq<Entry> {
    if entries == [] then []
    else
      var last := entries[|entries| - 1];
      EntriesUnder(entries[..|entries| - 1], memoryType, scope, key)
        + if last.partition == Partition(memoryType, scope, key) then [last] else []
  }

  // ----- positions in the store and among one's own entries -----

  function Own(entries: seq<Entry>, p: Partition): seq<Entry> {
    EntriesUnder(entries, p.memoryType, p.scope, p.scopeKey)
  }

  /** How many of one's own entries come before position i. */
  function Rank(entries: seq<Entry>, p: Partition, i: nat): nat
    requires i <= |entries|
  {
    |Own(entries[..i], p)|
  }

  lemma OwnSnoc(entries: seq<Entry>, e: Entry, p: Partition)
    ensures Own(entries + [e], p) == Own(entries, p) + if e.partition == p then [e] else []
  {
    assert (entries + [e])[..|entries|] == entries;
  }

  lemma {:induction false} RankGrows(entries: seq<Entry>, p: Partition, i: nat, j: nat)
    requires i <= j <= |entries|
    ensures Own(entries[..i], p) <= Own(entries[..j], p)
    ensures i < j && entries[i].partition == p ==> Rank(entries, p, i) < Rank(entries, p, j)
    decreases j
  {
    if i < j {
      assert entries[..j] == entries[..j - 1] + [entries[j - 1]];
      OwnSnoc(entries[..j - 1], entries[j - 1], p);
      RankGrows(entries, p, i, j - 1);
    }
  }

  lemma OwnAtRank(entries: seq<Entry>, p: Partition, i: nat)
    requires i < |entries| && entries[i].partition == p
    ensures Rank(entries, p, i) < |Own(entries, p)| && Own(entries, p)[Rank(entries, p, i)] == entries[i]
  {
    assert entries[..i + 1] == entries[..i] + [entries[i]] && entries[..|entries|] == entries;
    OwnSnoc(entries[..i], entries[i], p);
    RankGrows(entries, p, i + 1, |entries|);
  }

  // ----- the listing of the whole store and of one's own entries -----

  /** The same entry, listed from the whole store and from one's own entries. */
  ghost predicate Twin(entries: seq<Entry>, p: Partition, row: Row, own: Row) {
    && row.position < |entries| && entries[row.position].partition == p
    && own == Row(Rank(entries, p, row.position), row.importance)
  }

  ghost predicate Parallel(entries: seq<Entry>, p: Partition, rows: seq<Row>, own: seq<Row>) {
    |rows| == |own| && forall i :: 0 <= i < |rows| ==> Twin(entries, p, rows[i], own[i])
  }

  lemma TwinsCompare(entries: seq<Entry>, p: Partition, a: Row, a': Row, b: Row, b': Row)
    requires Twin(entries, p, a, a') && Twin(entries, p, b, b')
    ensures RowLeq(a, b) <==> RowLeq(a', b')
  {
    if a.position < b.position {
      RankGrows(entries, p, a.position, b.position);
    } else if b.position < a.position {
      RankGrows(entries, p, b.position, a.position);
    }
  }

  lemma ParallelSnoc(entries: seq<Entry>, p: Partition, rows: seq<Row>, own: seq<Row>, row: Row, row': Row)
    requires Parallel(entries, p, rows, own) && Twin(entries, p, row, row')
    ensures Parallel(entries, p, rows + [row], own + [row'])
  {
  }

  lemma {:induction false} ParallelInsert(entries: seq<Entry>, p: Partition, rows: seq<Row>, own: seq<Row>, x: Row,
                                          x': Row)
    requires Parallel(entries, p, rows, own) && Twin(entries, p, x, x')
    ensures Parallel(entries, p, Insert(rows, x, RowLeq), Insert(own, x', RowLeq))
  {
    if rows == [] {
      ParallelSnoc(entries, p, rows, own, x, x');
    } else {
      var n := |rows| - 1;
      TwinsCompare(entries, p, rows[n], own[n], x, x');
      if RowLeq(rows[n], x) {
        ParallelSnoc(entries, p, rows, own, x, x');
      } else {
        ParallelInsert(entries, p, rows[..n], own[..n], x, x');
        ParallelSnoc(entries, p, Insert(rows[..n], x, RowLeq), Insert(own[..n], x', RowLeq), rows[n], own[n]);
      }
    }
  }

  lemma {:induction false} ParallelSorted(entries: seq<Entry>, p: Partition, rows: seq<Row>, own: seq<Row>)
    requires Parallel(entries, p, rows, own)
    ensures Parallel(entries, p, Sorted(rows, RowLeq), Sorted(own, RowLeq))
  {
    if rows != [] {
      var n := |rows| - 1;
      ParallelSorted(entries, p, rows[..n], own[..n]);
      ParallelInsert(entries, p, Sorted(rows[..n], RowLeq), Sorted(own[..n], RowLeq), rows[n], own[n]);
    }
  }

  lemma RowsSnoc(entries: seq<Entry>, e: Entry, p: Partition)
    ensures RowsOf(entries + [e], p)
         == RowsOf(entries, p) + if e.partition == p then [Row(|entries|, e.importance)] else []
  {
    assert (entries + [e])[..|entries|] == entries;
  }

  lemma {:induction false} ParallelRows(entries: seq<Entry>, p: Partition, n: nat)
    requires n <= |entries|
    ensures Parallel(entries, p, RowsOf(entries[..n], p), RowsOf(Own(entries[..n], p), p))
  {
    if n > 0 {
      var init, last := entries[..n - 1], entries[n - 1];
      assert entries[..n] == init + [last] && entries[..n][..n - 1] == init;
      OwnSnoc(init, last, p);
      ParallelRows(entries, p, n - 1);
      RowsSnoc(init, last, p);
      if last.partition == p {
        var own := Own(init, p);
        RowsSnoc(own, last, p);
        ParallelSnoc(entries, p, RowsOf(init, p), RowsOf(own, p), Row(n - 1, last.importance),
                     Row(|own|, last.importance));
      } else {
        assert Own(entries[..n], p) == Own(init, p);
      }
    }
  }

  lemma ParallelListed(entries: seq<Entry>, p: Partition, limit: nat)
    ensures Parallel(entries, p, Listed(entries, p, limit), Listed(Own(entries, p), p, limit))
  {
    assert entries[..|entries|] == entries;
    ParallelRows(entries, p, |entries|);
    ParallelSorted(entries, p, RowsOf(entries, p), RowsOf(Own(entries, p), p));
  }

  lemma {:induction false} ParallelFind(m: Matching, entries: seq<Entry>, p: Partition, rows: seq<Row>, own: seq<Row>,
                                        target: string)
    requires Parallel(entries, p, rows, own)
    requires forall i :: 0 <= i < |own| ==> own[i].position < |Own(entries, p)|
    ensures var found, found' := FindIn(m, entries, rows, target), FindIn(m, Own(entries, p), own, target);
      && (found.Some? <==> found'.Some?)
      && (found.Some? ==>
            && found.value.position < |entries| && entries[found.value.position].partition == p
            && found'.value == Found(Rank(entries, p, found.value.position), found.value.similarity))
  {
    if rows != [] {
      assert Twin(entries, p, rows[0], own[0]);
      OwnAtRank(entries, p, rows[0].position);
      forall i | 0 <= i < |rows[1..]| ensures Twin(entries, p, rows[1..][i], own[1..][i]) {
        var next := i + 1;
        assert Twin(entries, p, rows[next], own[next]);
      }
      ParallelFind(m, entries, p, rows[1..], own[1..], target);
    }
  }

  /** A duplicate is sought among one's own entries only. */
  lemma ParallelDuplicate(m: Matching, entries: seq<Entry>, p: Partition, content: string)
    ensures var found, found' := Duplicate(m, entries, p, content), Duplicate(m, Own(entries, p), p, content);
      && (found.Some? <==> found'.Some?)
      && (found.Some? ==>
            && found.value.position < |entries| && entries[found.value.position].partition == p
            && found'.value == Found(Rank(entries, p, found.value.position), found.value.similarity))
  {
    ParallelListed(entries, p, MERGE_CANDIDATE_LIMIT);
    ParallelFind(m, entries, p, Listed(entries, p, MERGE_CANDIDATE_LIMIT),
                 Listed(Own(entries, p), p, MERGE_CANDIDATE_LIMIT), m.normalize(content));
  }

  // ----- one add -----

  lemma {:induction false} UpdateOwn(entries: seq<Entry>, p: Partition, i: nat, e: Entry)
    requires i < |entries| && entries[i].partition == p == e.partition
    ensures Rank(entries, p, i) < |Own(entries, p)|
    ensures Own(entries[i := e], p) == Own(entries, p)[Rank(entries, p, i) := e]
  {
    var n := |entries| - 1;
    var init, last := entries[..n], entries[n];
    assert entries == init + [last];
    OwnSnoc(init, last, p);
    OwnAtRank(entries, p, i);
    if i < n {
      UpdateOwn(init, p, i, e);
      assert entries[i := e] == init[i := e] + [last] && entries[..i] == init[..i];
      OwnSnoc(init[i := e], last, p);
    } else {
      assert entries[i := e] == init + [e] && entries[..i] == init;
      OwnSnoc(init, e, p);
    }
  }

  lemma {:induction false} UpdateOther(entries: seq<Entry>, p: Partition, i: nat, e: Entry)
    requires i < |entries| && entries[i].partition != p && e.partition != p
    ensures Own(entries[i := e], p) == Own(entries, p)
  {
    var n := |entries| - 1;
    var init, last := entries[..n], entries[n];
    assert entries == init + [last];
    OwnSnoc(init, last, p);
    if i < n {
      UpdateOther(init, p, i, e);
      assert entries[i := e] == init[i := e] + [last];
      OwnSnoc(init[i := e], last, p);
    } else {
      assert entries[i := e] == init + [e];
      OwnSnoc(init, e, p);
    }
  }

  lemma FiledIsAccepted(c: Call, p: Partition)
    ensures FiledUnder(c, p.memoryType, p.scope, p.scopeKey) <==> Accepted(c) && PartitionOf(c) == p
  {
  }

  lemma AddOfAnother(m: Matching, entries: seq<Entry>, c: Call, p: Partition)
    requires !FiledUnder(c, p.memoryType, p.scope, p.scopeKey)
    ensures Own(Add(m, true, entries, c), p) == Own(entries, p)
  {
    FiledIsAccepted(c, p);
    if Accepted(c) {
      var found := Duplicate(m, entries, PartitionOf(c), c.content);
      if found.Some? {
        var e := entries[found.value.position];
        UpdateOther(entries, p, found.value.position, Merge(e, c, found.value.similarity));
      } else {
        OwnSnoc(entries, NewEntry(c), p);
      }
    }
  }

  lemma AddOfOwn(m: Matching, entries: seq<Entry>, c: Call, p: Partition)
    requires FiledUnder(c, p.memoryType, p.scope, p.scopeKey)
    ensures Own(Add(m, true, entries, c), p) == Add(m, true, Own(entries, p), c)
  {
    FiledIsAccepted(c, p);
    ParallelDuplicate(m, entries, p, c.content);
    var found := Duplicate(m, entries, p, c.content);
    if found.Some? {
      var e := entries[found.value.position];
      OwnAtRank(entries, p, found.value.position);
      UpdateOwn(entries, p, found.value.position, Merge(e, c, found.value.similarity));
    } else {
      OwnSnoc(entries, NewEntry(c), p);
    }
  }

  /** An add under another kind, scope or key changes none of these entries. */
  lemma OthersChangeNothing(m: Matching, entries: seq<Entry>, c: Call, memoryType: string, scope: string, key: string)
    requires !FiledUnder(c, memoryType, scope, key)
    ensures EntriesUnder(Add(m, true, entries, c), memoryType, scope, key)
         == EntriesUnder(entries, memoryType, scope, key)
  {
    AddOfAnother(m, entries, c, Partition(memoryType, scope, key));
  }

  /** After any history, the entries of one kind, scope and key are those of the history of that kind, scope and key. */
  lemma {:induction false} StoresAreIsolated(m: Matching, calls: seq<Call>, memoryType: string, scope: string,
                                             key: string)
    ensures EntriesUnder(Run(m, calls), memoryType, scope, key)
         == Run(m, CallsUnder(calls, memoryType, scope, key))
  {
    var p := Partition(memoryType, scope, key);
    if calls != [] {
      var init, last := calls[..|calls| - 1], calls[|calls| - 1];
      StoresAreIsolated(m, init, memoryType, scope, key);
      if FiledUnder(last, memoryType, scope, key) {
        AddOfOwn(m, Run(m, init), last, p);
        var own := CallsUnder(init, memoryType, scope, key);
        assert (own + [last])[..|own|] == own;
      } else {
        AddOfAnother(m, Run(m, init), last, p);
        assert CallsUnder(calls, memoryType, scope, key) == CallsUnder(init, memoryType, scope, key);
      }
    }
  }
}
