/** The graph leg as a whole: each query's clauses are ranked and cut at the cap, then merged by clause, ranked and cut
    again. The graph's answers are arbitrary rows.
  */
module Expansion {
  import opened Common
  import opened Expand
  import opened Hits

  const KIND_MENTIONS := "mentions"

  /** What one query brought back. */
  datatype Leg = Leg(kind: string, rows: seq<Row>)

  // ----- merging one clause's candidates -----

  function Plus(a: Neighbor, b: Neighbor): Neighbor {
    Neighbor(a.clauseId, a.weight + b.weight, a.kinds + b.kinds, Max(a.seedCount, b.seedCount))
  }

  /** All candidates for one clause: weights add, kinds unite, the larger seed count stays. */
  function Combined(ns: seq<Neighbor>, id: string): (r: Neighbor)
    ensures r.clauseId == id
  {
    if ns == [] then Neighbor(id, 0, {}, 0)
    else
      var before, last := Combined(ns[..|ns| - 1], id), ns[|ns| - 1];
      if last.clauseId == id then Plus(before, last) else before
  }

  function Names(ns: seq<Neighbor>): (r: seq<string>)
    ensures |r| == |ns| && forall i :: 0 <= i < |r| ==> r[i] == ns[i].clauseId
  {
    seq(|ns|, i requires 0 <= i < |ns| => ns[i].clauseId)
  }

  function MergedNeighbors(ns: seq<Neighbor>): (r: seq<Neighbor>)
    ensures |r| == |Distinct(Names(ns))|
    ensures forall i :: 0 <= i < |r| ==> r[i] == Combined(ns, Distinct(Names(ns))[i])
  {
    var ids := Distinct(Names(ns));
    seq(|ids|, i requires 0 <= i < |ids| => Combined(ns, ids[i]))
  }

  lemma MergedMembers(ns: seq<Neighbor>)
    ensures NoDuplicates(MergedNeighbors(ns))
    ensures forall n :: n in MergedNeighbors(ns) <==> n.clauseId in Names(ns) && n == Combined(ns, n.clauseId)
  {
    var ids, merged := Distinct(Names(ns)), MergedNeighbors(ns);
    forall i, j | 0 <= i < j < |merged| ensures merged[i] != merged[j] {
      assert merged[i].clauseId == ids[i] && merged[j].clauseId == ids[j];
    }
    forall n ensures n in merged <==> n.clauseId in Names(ns) && n == Combined(ns, n.clauseId) {
      if n in merged {
        var i :| 0 <= i < |merged| && merged[i] == n;
        assert n.clauseId == ids[i] && ids[i] in ids;
      }
      if n.clauseId in Names(ns) && n == Combined(ns, n.clauseId) {
        var i :| 0 <= i < |ids| && ids[i] == n.clauseId;
        assert merged[i] == n;
      }
    }
  }

  lemma {:induction false} CombinedAppend(a: seq<Neighbor>, b: seq<Neighbor>, id: string)
    ensures Combined(a + b, id) == Plus(Combined(a, id), Combined(b, id))
    decreases |b|
  {
    if b == [] {
      assert a + b == a;
    } else {
      assert (a + b)[..|a + b| - 1] == a + b[..|b| - 1];
      CombinedAppend(a, b[..|b| - 1], id);
      var x, y, z := Combined(a, id).kinds, Combined(b[..|b| - 1], id).kinds, b[|b| - 1].kinds;
      assert (x + y) + z == x + (y + z);
    }
  }

  lemma {:induction false} CombinedOfNone(ns: seq<Neighbor>, id: string)
    requires id !in Names(ns)
    ensures Combined(ns, id) == Neighbor(id, 0, {}, 0)
  {
    if ns != [] {
      var init := ns[..|ns| - 1];
      assert Names(ns)[|ns| - 1] == ns[|ns| - 1].clauseId;
      assert forall i :: 0 <= i < |init| ==> Names(init)[i] == Names(ns)[i];
      CombinedOfNone(init, id);
    }
  }

  // ----- one leg and its cut -----

  function Best(leg: Leg, cap: nat): seq<Neighbor> {
    SliceTo(RankedNeighbors(leg.rows, leg.kind), cap)
  }

  /** Counts are never negative. */
  ghost predicate Counts(rows: seq<Row>) {
    forall i :: 0 <= i < |rows| ==> rows[i].weight >= 0
  }

  /** Nothing about g is better than about f. */
  predicate Dominates(f: Neighbor, g: Neighbor) {
    f.clauseId == g.clauseId && f.weight >= g.weight && f.seedCount >= g.seedCount && g.kinds <= f.kinds
  }

  lemma {:induction false} CountsAddUp(rows: seq<Row>, id: string)
    requires Counts(rows)
    ensures Fold(rows, WeightStep(id), 0) >= 0
  {
    if rows != [] { CountsAddUp(rows[..|rows| - 1], id); }
  }

  lemma {:induction false} CombinedGrows(ns: seq<Neighbor>, id: string, kind: string)
    requires forall i :: 0 <= i < |ns| ==> ns[i].weight >= 0 && ns[i].kinds == {kind}
    ensures Combined(ns, id).weight >= 0
    ensures Combined(ns, id).kinds == if id in Names(ns) then {kind} else {}
  {
    if ns == [] {
      assert Names(ns) == [];
    } else {
      var init, last := ns[..|ns| - 1], ns[|ns| - 1];
      CombinedGrows(init, id, kind);
      assert Names(ns) == Names(init) + [last.clauseId];
    }
  }

  lemma RankedShape(leg: Leg, n: Neighbor)
    requires Counts(leg.rows) && n in RankedNeighbors(leg.rows, leg.kind)
    ensures n.weight >= 0 && n.kinds == {leg.kind} && n.clauseId in Reached(leg.rows)
  {
    RankedNeighborsHoldEveryClause(leg.rows, leg.kind);
    CountsAddUp(leg.rows, n.clauseId);
  }

  lemma ReachedAreRanked(leg: Leg, id: string)
    ensures id in Names(RankedNeighbors(leg.rows, leg.kind)) <==> id in Reached(leg.rows)
  {
    var ranked := RankedNeighbors(leg.rows, leg.kind);
    RankedNeighborsHoldEveryClause(leg.rows, leg.kind);
    if id in Reached(leg.rows) {
      var n := NeighborOf(leg.rows, leg.kind, id);
      assert n in ranked;
      var i :| 0 <= i < |ranked| && ranked[i] == n;
      assert Names(ranked)[i] == id;
    }
    if id in Names(ranked) {
      var i :| 0 <= i < |ranked| && Names(ranked)[i] == id;
      assert ranked[i] in ranked;
    }
  }

  lemma RankedIdsDiffer(leg: Leg, i: nat, j: nat)
    requires i < j < |RankedNeighbors(leg.rows, leg.kind)|
    ensures var ranked := RankedNeighbors(leg.rows, leg.kind); ranked[i].clauseId != ranked[j].clauseId
  {
    var ranked := RankedNeighbors(leg.rows, leg.kind);
    RankedNeighborsHoldEveryClause(leg.rows, leg.kind);
    assert ranked[i] in ranked && ranked[j] in ranked;
    assert ranked[i] == NeighborOf(leg.rows, leg.kind, ranked[i].clauseId);
    assert ranked[j] == NeighborOf(leg.rows, leg.kind, ranked[j].clauseId);
  }

  /** A clause kept by the cut is not also in what was cut. */
  lemma KeptOrCut(leg: Leg, cap: nat, id: string)
    requires id in Names(Best(leg, cap))
    ensures id !in Names(RankedNeighbors(leg.rows, leg.kind)[|Best(leg, cap)|..])
  {
    var ranked, top := RankedNeighbors(leg.rows, leg.kind), Best(leg, cap);
    var rest := ranked[|top|..];
    var i :| 0 <= i < |top| && Names(top)[i] == id;
    assert ranked[i] == top[i];
    forall j | 0 <= j < |rest| ensures Names(rest)[j] != id {
      RankedIdsDiffer(leg, i, |top| + j);
    }
  }

  lemma PartGrows(leg: Leg, i: nat, j: nat, id: string)
    requires Counts(leg.rows) && i <= j <= |RankedNeighbors(leg.rows, leg.kind)|
    ensures var part := RankedNeighbors(leg.rows, leg.kind)[i..j];
      && Combined(part, id).weight >= 0
      && Combined(part, id).kinds == if id in Names(part) then {leg.kind} else {}
  {
    var ranked := RankedNeighbors(leg.rows, leg.kind);
    var part := ranked[i..j];
    forall k | 0 <= k < |part| ensures part[k].weight >= 0 && part[k].kinds == {leg.kind} {
      assert part[k] == ranked[i + k] && ranked[i + k] in ranked;
      RankedShape(leg, part[k]);
    }
    CombinedGrows(part, id, leg.kind);
  }

  lemma PartsOfCut(leg: Leg, cap: nat, id: string)
    requires Counts(leg.rows)
    ensures var all, top := RankedNeighbors(leg.rows, leg.kind), Best(leg, cap);
      var rest := all[|top|..];
      && Combined(all, id) == Plus(Combined(top, id), Combined(rest, id))
      && Combined(rest, id).weight >= 0
      && Combined(top, id).kinds == (if id in Names(top) then {leg.kind} else {})
      && Combined(all, id).kinds == (if id in Names(all) then {leg.kind} else {})
  {
    var all, top := RankedNeighbors(leg.rows, leg.kind), Best(leg, cap);
    var rest := all[|top|..];
    assert all == top + rest;
    CombinedAppend(top, rest, id);
    PartGrows(leg, 0, |top|, id);
    PartGrows(leg, |top|, |all|, id);
    PartGrows(leg, 0, |all|, id);
    assert all[0..|top|] == top && all[|top|..|all|] == rest && all[0..|all|] == all;
  }

  /** What the cut does to one clause of one leg. */
  lemma CutOfLeg(leg: Leg, cap: nat, id: string)
    requires Counts(leg.rows)
    ensures var all, top := RankedNeighbors(leg.rows, leg.kind), Best(leg, cap);
      && Dominates(Combined(all, id), Combined(top, id))
      && (id in Names(top) || id !in Reached(leg.rows) ==> Combined(top, id) == Combined(all, id))
      && Combined(top, id).kinds == (if id in Names(top) then {leg.kind} else {})
      && Combined(all, id).kinds == (if id in Reached(leg.rows) then {leg.kind} else {})
  {
    var all, top := RankedNeighbors(leg.rows, leg.kind), Best(leg, cap);
    var rest := all[|top|..];
    assert all == top + rest;
    PartsOfCut(leg, cap, id);
    ReachedAreRanked(leg, id);
    if id in Names(top) {
      KeptOrCut(leg, cap, id);
      CombinedOfNone(rest, id);
    } else if id !in Reached(leg.rows) {
      CombinedOfNone(all, id);
      CombinedOfNone(top, id);
    }
  }

  // ----- all legs, with and without their cuts -----

  /** Everything the queries reached. */
  function Found(legs: seq<Leg>): seq<Neighbor> {
    if legs == [] then []
    else Found(legs[..|legs| - 1]) + RankedNeighbors(legs[|legs| - 1].rows, legs[|legs| - 1].kind)
  }

  /** What is left when each leg is cut at the cap. */
  function Gathered(legs: seq<Leg>, cap: nat): seq<Neighbor> {
    if legs == [] then [] else Gathered(legs[..|legs| - 1], cap) + Best(legs[|legs| - 1], cap)
  }

  predicate SurvivesIn(leg: Leg, cap: nat, id: string) {
    id in Reached(leg.rows) ==> id in Names(Best(leg, cap))
  }

  /** The clause is cut from no leg that reached it. */
  ghost predicate Survives(legs: seq<Leg>, cap: nat, id: string) {
    forall i :: 0 <= i < |legs| ==> SurvivesIn(legs[i], cap, id)
  }

  ghost predicate AllCount(legs: seq<Leg>) {
    forall i :: 0 <= i < |legs| ==> Counts(legs[i].rows)
  }

  ghost predicate KindsDiffer(legs: seq<Leg>) {
    forall i, j :: 0 <= i < j < |legs| ==> legs[i].kind != legs[j].kind
  }

  lemma NamesAppend(a: seq<Neighbor>, b: seq<Neighbor>, id: string)
    ensures id in Names(a + b) <==> id in Names(a) || id in Names(b)
  {
    assert Names(a + b) == Names(a) + Names(b);
  }

  lemma {:induction false} CutsDominated(legs: seq<Leg>, cap: nat, id: string)
    requires AllCount(legs)
    ensures Dominates(Combined(Found(legs), id), Combined(Gathered(legs, cap), id))
    ensures Survives(legs, cap, id) ==> Combined(Gathered(legs, cap), id) == Combined(Found(legs), id)
  {
    if legs != [] {
      var init, last := legs[..|legs| - 1], legs[|legs| - 1];
      CutsDominated(init, cap, id);
      CutOfLeg(last, cap, id);
      CombinedAppend(Found(init), RankedNeighbors(last.rows, last.kind), id);
      CombinedAppend(Gathered(init, cap), Best(last, cap), id);
      if Survives(legs, cap, id) {
        assert SurvivesIn(last, cap, id);
        assert forall i :: 0 <= i < |init| ==> init[i] == legs[i];
      }
    }
  }

  /** A leg of this kind reached the clause. */
  predicate ReachedAs(legs: seq<Leg>, id: string, kind: string) {
    exists i :: 0 <= i < |legs| && legs[i].kind == kind && id in Reached(legs[i].rows)
  }

  /** A leg of this kind kept it. */
  predicate KeptAs(legs: seq<Leg>, cap: nat, id: string, kind: string) {
    exists i :: 0 <= i < |legs| && legs[i].kind == kind && id in Names(Best(legs[i], cap))
  }

  lemma ReachedAsSnoc(init: seq<Leg>, last: Leg, id: string, kind: string)
    ensures ReachedAs(init + [last], id, kind) <==>
              ReachedAs(init, id, kind) || (last.kind == kind && id in Reached(last.rows))
  {
    var legs := init + [last];
    assert forall i :: 0 <= i < |init| ==> legs[i] == init[i];
    assert legs[|init|] == last;
  }

  lemma KeptAsSnoc(init: seq<Leg>, last: Leg, cap: nat, id: string, kind: string)
    ensures KeptAs(init + [last], cap, id, kind) <==>
              KeptAs(init, cap, id, kind) || (last.kind == kind && id in Names(Best(last, cap)))
  {
    var legs := init + [last];
    assert forall i :: 0 <= i < |init| ==> legs[i] == init[i];
    assert legs[|init|] == last;
  }

  lemma KindsJoin(a: seq<Neighbor>, b: seq<Neighbor>, id: string, kind: string)
    ensures kind in Combined(a + b, id).kinds <==> kind in Combined(a, id).kinds || kind in Combined(b, id).kinds
  {
    CombinedAppend(a, b, id);
  }

  lemma BestKinds(leg: Leg, cap: nat, id: string)
    requires Counts(leg.rows)
    ensures Combined(Best(leg, cap), id).kinds == (if id in Names(Best(leg, cap)) then {leg.kind} else {})
    ensures Combined(RankedNeighbors(leg.rows, leg.kind), id).kinds
         == (if id in Reached(leg.rows) then {leg.kind} else {})
  {
    PartsOfCut(leg, cap, id);
    ReachedAreRanked(leg, id);
  }

  /** A clause's kinds tell which legs reached it. */
  lemma {:induction false} KindsTell(legs: seq<Leg>, id: string, kind: string)
    requires AllCount(legs)
    ensures kind in Combined(Found(legs), id).kinds <==> ReachedAs(legs, id, kind)
  {
    if legs != [] {
      var init, last := legs[..|legs| - 1], legs[|legs| - 1];
      KindsTell(init, id, kind);
      assert legs == init + [last];
      assert Found(legs) == Found(init) + RankedNeighbors(last.rows, last.kind);
      KindsJoin(Found(init), RankedNeighbors(last.rows, last.kind), id, kind);
      BestKinds(last, 0, id);
      ReachedAsSnoc(init, last, id, kind);
    }
  }

  /** And, after the cuts, which kept it. */
  lemma {:induction false} KeptKindsTell(legs: seq<Leg>, cap: nat, id: string, kind: string)
    requires AllCount(legs)
    ensures kind in Combined(Gathered(legs, cap), id).kinds <==> KeptAs(legs, cap, id, kind)
  {
    if legs != [] {
      var init, last := legs[..|legs| - 1], legs[|legs| - 1];
      KeptKindsTell(init, cap, id, kind);
      assert legs == init + [last];
      assert Gathered(legs, cap) == Gathered(init, cap) + Best(last, cap);
      KindsJoin(Gathered(init, cap), Best(last, cap), id, kind);
      BestKinds(last, cap, id);
      KeptAsSnoc(init, last, cap, id, kind);
    }
  }

  lemma SameKindsSurvive(legs: seq<Leg>, cap: nat, id: string)
    requires AllCount(legs) && KindsDiffer(legs)
    requires Combined(Gathered(legs, cap), id).kinds == Combined(Found(legs), id).kinds
    ensures Survives(legs, cap, id)
  {
    forall i | 0 <= i < |legs| ensures SurvivesIn(legs[i], cap, id) {
      KindsTell(legs, id, legs[i].kind);
      KeptKindsTell(legs, cap, id, legs[i].kind);
      if id in Reached(legs[i].rows) {
        assert ReachedAs(legs, id, legs[i].kind);
        var j :| 0 <= j < |legs| && legs[j].kind == legs[i].kind && id in Names(Best(legs[j], cap));
        assert i == j;
      }
    }
  }

  lemma {:induction false} GatheredAreFound(legs: seq<Leg>, cap: nat, id: string)
    ensures id in Names(Gathered(legs, cap)) ==> id in Names(Found(legs))
    ensures id in Names(Found(legs)) && Survives(legs, cap, id) ==> id in Names(Gathered(legs, cap))
  {
    if legs != [] {
      var init, last := legs[..|legs| - 1], legs[|legs| - 1];
      var all, top := RankedNeighbors(last.rows, last.kind), Best(last, cap);
      GatheredAreFound(init, cap, id);
      NamesAppend(Found(init), all, id);
      NamesAppend(Gathered(init, cap), top, id);
      assert all == top + all[|top|..];
      NamesAppend(top, all[|top|..], id);
      ReachedAreRanked(last, id);
      if Survives(legs, cap, id) {
        assert SurvivesIn(last, cap, id);
        assert forall i :: 0 <= i < |init| ==> init[i] == legs[i];
      }
    }
  }

  // ----- the best of a list that knows less -----

  function Others(ns: seq<Neighbor>, top: seq<Neighbor>): (r: seq<Neighbor>) {
    if ns == [] then []
    else Others(ns[..|ns| - 1], top) + if ns[|ns| - 1] in top then [] else [ns[|ns| - 1]]
  }

  lemma {:induction false} OthersMembers(ns: seq<Neighbor>, top: seq<Neighbor>)
    ensures forall n :: n in Others(ns, top) <==> n in ns && n !in top
    ensures NoDuplicates(ns) ==> NoDuplicates(Others(ns, top))
  {
    if ns != [] {
      OthersMembers(ns[..|ns| - 1], top);
      assert ns == ns[..|ns| - 1] + [ns[|ns| - 1]];
    }
  }

  function Top(ns: seq<Neighbor>, cap: nat): seq<Neighbor> {
    SliceTo(Sorted(ns, NeighborLeq), cap)
  }

  lemma TopShape(ns: seq<Neighbor>, cap: nat)
    requires NoDuplicates(ns)
    ensures var top := Top(ns, cap);
      && Ordered(top, NeighborLeq) && NoDuplicates(top) && |top| <= cap
      && (forall n :: n in top ==> n in ns)
      && (forall t, n :: t in top && n in ns && n !in top ==> NeighborLeq(t, n))
      && (forall n :: n in ns && n !in top ==> |top| == cap)
  {
    var sorted, top := Sorted(ns, NeighborLeq), Top(ns, cap);
    NeighborLeqTotal();
    SortedIsPermutation(ns, NeighborLeq);
    SameMultisetSameElements(sorted, ns);
    SameMultisetNoDuplicates(ns, sorted);
    forall n | n in top ensures n in ns {
      assert n in sorted;
    }
    forall n | n in ns && n !in top ensures |top| == cap && forall t :: t in top ==> NeighborLeq(t, n) {
      var j :| 0 <= j < |sorted| && sorted[j] == n;
      assert forall k :: 0 <= k < |top| ==> top[k] == sorted[k] && top[k] in top;
      forall t | t in top ensures NeighborLeq(t, n) {
        var i :| 0 <= i < |top| && top[i] == t;
        assert sorted[i] == t;
      }
    }
  }

  /** Something that is not among the best ranks no worse than n. */
  ghost predicate LeftOut(all: seq<Neighbor>, cap: nat, n: Neighbor) {
    exists full :: full in all && full !in Top(all, cap) && NeighborLeq(full, n)
  }

  lemma RestFollows(all: seq<Neighbor>, cap: nat, top: seq<Neighbor>, rest: seq<Neighbor>)
    requires NoDuplicates(all) && top == Top(all, cap) && Ordered(rest, NeighborLeq)
    requires forall n :: n in rest ==> LeftOut(all, cap, n)
    ensures Ordered(top + rest, NeighborLeq)
  {
    TopShape(all, cap);
    NeighborLeqTotal();
    var joined := top + rest;
    forall i, j | 0 <= i < j < |joined| ensures NeighborLeq(joined[i], joined[j]) {
      if i < |top| <= j {
        var t, n := top[i], rest[j - |top|];
        assert t in top && n in rest && LeftOut(all, cap, n);
        var full :| full in all && full !in top && NeighborLeq(full, n);
        assert NeighborLeq(t, full);
      }
    }
  }

  lemma NoDuplicatesAppend(a: seq<Neighbor>, b: seq<Neighbor>)
    requires NoDuplicates(a) && NoDuplicates(b) && forall n :: n in a ==> n !in b
    ensures NoDuplicates(a + b)
  {
    var joined := a + b;
    forall i, j | 0 <= i < j < |joined| ensures joined[i] != joined[j] {
      if i < |a| <= j {
        assert joined[i] in a && joined[j] in b;
      }
    }
  }

  lemma RestIsArranged(some: seq<Neighbor>, top: seq<Neighbor>, rest: seq<Neighbor>)
    requires NoDuplicates(some) && rest == Sorted(Others(some, top), NeighborLeq)
    ensures Ordered(rest, NeighborLeq) && NoDuplicates(rest)
    ensures forall n :: n in rest <==> n in some && n !in top
  {
    OthersMembers(some, top);
    NeighborLeqTotal();
    SortedIsPermutation(Others(some, top), NeighborLeq);
    SameMultisetSameElements(rest, Others(some, top));
    SameMultisetNoDuplicates(Others(some, top), rest);
  }

  lemma ArrangementIsSorted(some: seq<Neighbor>, arranged: seq<Neighbor>)
    requires NoDuplicates(some) && NoDuplicates(arranged) && Ordered(arranged, NeighborLeq)
    requires forall n :: n in arranged <==> n in some
    requires forall x, y :: x in some && y in some && x.clauseId == y.clauseId ==> x == y
    ensures Sorted(some, NeighborLeq) == arranged
  {
    NeighborLeqTotal();
    SortedIsPermutation(some, NeighborLeq);
    SameElementsSameMultiset(arranged, some);
    forall x, y | x in arranged && y in arranged && NeighborLeq(x, y) && NeighborLeq(y, x) ensures x == y {
      StringLeqAntisymmetric(x.clauseId, y.clauseId);
    }
    OrderedUnique(arranged, Sorted(some, NeighborLeq), NeighborLeq);
  }

  /** If the best of `all` are known in full to `some`, and whatever else `some` knows ranks no better than something
      left out of the best, then both have the same best.
    */
  lemma SameTop(all: seq<Neighbor>, some: seq<Neighbor>, cap: nat)
    requires NoDuplicates(all) && NoDuplicates(some)
    requires forall x, y :: x in some && y in some && x.clauseId == y.clauseId ==> x == y
    requires forall t :: t in Top(all, cap) ==> t in some
    requires forall n :: n in some && n !in Top(all, cap) ==> LeftOut(all, cap, n)
    ensures Top(some, cap) == Top(all, cap)
  {
    var top := Top(all, cap);
    var rest := Sorted(Others(some, top), NeighborLeq);
    TopShape(all, cap);
    RestIsArranged(some, top, rest);
    RestFollows(all, cap, top, rest);
    NoDuplicatesAppend(top, rest);
    ArrangementIsSorted(some, top + rest);
    if rest != [] {
      assert rest[0] in rest && LeftOut(all, cap, rest[0]);
    }
  }

  // ----- cutting each leg before the merge -----

  /** What the leg returns. */
  function Expanded(legs: seq<Leg>, cap: nat): seq<Neighbor> {
    Top(MergedNeighbors(Gathered(legs, cap)), cap)
  }

  /** The best of everything the queries reached. */
  function Ideal(legs: seq<Leg>, cap: nat): seq<Neighbor> {
    Top(MergedNeighbors(Found(legs)), cap)
  }

  lemma DominatingPrecedes(f: Neighbor, g: Neighbor)
    requires Dominates(f, g)
    ensures NeighborLeq(f, g)
  {
    StringLeqTotal(f.clauseId, f.clauseId);
  }

  lemma SurvivorsSuffice(legs: seq<Leg>, cap: nat)
    requires AllCount(legs) && forall n :: n in Ideal(legs, cap) ==> Survives(legs, cap, n.clauseId)
    ensures Expanded(legs, cap) == Ideal(legs, cap)
  {
    var all, some := MergedNeighbors(Found(legs)), MergedNeighbors(Gathered(legs, cap));
    MergedMembers(Found(legs));
    MergedMembers(Gathered(legs, cap));
    TopShape(all, cap);
    forall t | t in Top(all, cap) ensures t in some {
      GatheredAreFound(legs, cap, t.clauseId);
      CutsDominated(legs, cap, t.clauseId);
    }
    forall n | n in some && n !in Top(all, cap) ensures LeftOut(all, cap, n) {
      var full := Combined(Found(legs), n.clauseId);
      GatheredAreFound(legs, cap, n.clauseId);
      CutsDominated(legs, cap, n.clauseId);
      DominatingPrecedes(full, n);
      assert full in all && full !in Top(all, cap);
    }
    SameTop(all, some, cap);
  }

  /** Cutting each leg before the merge costs nothing if and only if no clause of the true best was cut from a leg that
      reached it.
    */
  lemma CutIsHarmlessIff(legs: seq<Leg>, cap: nat)
    requires AllCount(legs) && KindsDiffer(legs)
    ensures Expanded(legs, cap) == Ideal(legs, cap) <==>
              forall n :: n in Ideal(legs, cap) ==> Survives(legs, cap, n.clauseId)
  {
    if Expanded(legs, cap) == Ideal(legs, cap) {
      MergedMembers(Found(legs));
      MergedMembers(Gathered(legs, cap));
      TopShape(MergedNeighbors(Found(legs)), cap);
      TopShape(MergedNeighbors(Gathered(legs, cap)), cap);
      forall n | n in Ideal(legs, cap) ensures Survives(legs, cap, n.clauseId) {
        assert n == Combined(Found(legs), n.clauseId) == Combined(Gathered(legs, cap), n.clauseId);
        SameKindsSurvive(legs, cap, n.clauseId);
      }
    }
    if forall n :: n in Ideal(legs, cap) ==> Survives(legs, cap, n.clauseId) {
      SurvivorsSuffice(legs, cap);
    }
  }

  /** It costs nothing when no leg reaches more clauses than the cap. */
  lemma NarrowLegsAreExact(legs: seq<Leg>, cap: nat)
    requires AllCount(legs) && forall i :: 0 <= i < |legs| ==> |Reached(legs[i].rows)| <= cap
    ensures Expanded(legs, cap) == Ideal(legs, cap)
  {
    forall n | n in Ideal(legs, cap) ensures Survives(legs, cap, n.clauseId) {
      forall i | 0 <= i < |legs| ensures SurvivesIn(legs[i], cap, n.clauseId) {
        RankedNeighborsHoldEveryClause(legs[i].rows, legs[i].kind);
        ReachedAreRanked(legs[i], n.clauseId);
      }
    }
    SurvivorsSuffice(legs, cap);
  }

  // ----- it can cost the best clause -----

  function TwoRows(kind: string, x: string, wx: int, y: string, wy: int): Leg {
    Leg(kind, [Row(x, wx, "s"), Row(y, wy, "s")])
  }

  lemma TwoRowsReach(kind: string, x: string, wx: int, y: string, wy: int)
    requires x != y && x != "" && y != ""
    ensures var rows := TwoRows(kind, x, wx, y, wy).rows;
      && Reached(rows) == [x, y]
      && NeighborOf(rows, kind, x).weight == wx && NeighborOf(rows, kind, y).weight == wy
  {
    var r0, r1 := Row(x, wx, "s"), Row(y, wy, "s");
    var rows := [r0, r1];
    assert rows[..1] == [r0] && [r0][..0] == [];
    assert Reached([r0]) == [x];
    assert Fold([r0], WeightStep(x), 0) == wx && Fold([r0], WeightStep(y), 0) == 0;
  }

  lemma FavouriteStays(leg: Leg, x: string, y: string)
    requires x in Reached(leg.rows) && y in Reached(leg.rows)
    requires NeighborOf(leg.rows, leg.kind, x).weight > NeighborOf(leg.rows, leg.kind, y).weight
    ensures y !in Names(Best(leg, 1))
  {
    var top := Best(leg, 1);
    RankedNeighborsHoldEveryClause(leg.rows, leg.kind);
    if y in Names(top) {
      var i :| 0 <= i < |top| && Names(top)[i] == y;
      var kept, cut := top[i], NeighborOf(leg.rows, leg.kind, x);
      assert kept in RankedNeighbors(leg.rows, leg.kind);
      TopNeighbors(leg.rows, leg.kind, 1, kept, cut);
    }
  }

  function WeightIn(leg: Leg, id: string): int {
    if id in Reached(leg.rows) then NeighborOf(leg.rows, leg.kind, id).weight else 0
  }

  lemma {:induction false} OnlyOneNamed(leg: Leg, i: nat, n: nat)
    requires i < n <= |RankedNeighbors(leg.rows, leg.kind)|
    ensures var ranked := RankedNeighbors(leg.rows, leg.kind);
      Combined(ranked[..n], ranked[i].clauseId).weight == ranked[i].weight
  {
    var ranked := RankedNeighbors(leg.rows, leg.kind);
    assert ranked[..n][..n - 1] == ranked[..n - 1];
    if i < n - 1 {
      RankedIdsDiffer(leg, i, n - 1);
      OnlyOneNamed(leg, i, n - 1);
    } else {
      var names := Names(ranked[..i]);
      forall j | 0 <= j < |names| ensures names[j] != ranked[i].clauseId {
        RankedIdsDiffer(leg, j, i);
      }
      CombinedOfNone(ranked[..i], ranked[i].clauseId);
    }
  }

  lemma WeightIsTotal(leg: Leg, id: string)
    ensures Combined(RankedNeighbors(leg.rows, leg.kind), id).weight == WeightIn(leg, id)
  {
    var ranked := RankedNeighbors(leg.rows, leg.kind);
    ReachedAreRanked(leg, id);
    if id in Reached(leg.rows) {
      var i :| 0 <= i < |ranked| && Names(ranked)[i] == id;
      RankedNeighborsHoldEveryClause(leg.rows, leg.kind);
      assert ranked[i] in ranked;
      OnlyOneNamed(leg, i, |ranked|);
      assert ranked[..|ranked|] == ranked;
    } else {
      CombinedOfNone(ranked, id);
    }
  }

  lemma WeightOfTwo(a: Leg, b: Leg, id: string)
    ensures Combined(Found([a, b]), id).weight
         == WeightIn(a, id) + WeightIn(b, id)
    ensures id in Names(Found([a, b])) <==> id in Reached(a.rows) || id in Reached(b.rows)
  {
    var ra, rb := RankedNeighbors(a.rows, a.kind), RankedNeighbors(b.rows, b.kind);
    assert [a, b][..1] == [a] && [a][..0] == [];
    assert Found([a]) == [] + ra == ra;
    assert Found([a, b]) == ra + rb;
    CombinedAppend(ra, rb, id);
    NamesAppend(ra, rb, id);
    ReachedAreRanked(a, id);
    ReachedAreRanked(b, id);
    WeightIsTotal(a, id);
    WeightIsTotal(b, id);
  }

  lemma HeaviestIsTop(all: seq<Neighbor>, n: Neighbor)
    requires NoDuplicates(all) && n in all && forall m :: m in all && m != n ==> m.weight < n.weight
    ensures n in Top(all, 1)
  {
    var top := Top(all, 1);
    TopShape(all, 1);
    assert forall t :: t in top && t != n ==> !NeighborLeq(t, n);
    assert top != [] ==> top[0] in top;
  }

  lemma BestOfBoth(a: Leg, b: Leg, x: string, y: string, z: string, w: int, v: int)
    requires Reached(a.rows) == [x, y] && Reached(b.rows) == [z, y] && x != y && x != z && y != z
    requires WeightIn(a, x) == w && WeightIn(a, y) == v && WeightIn(b, z) == w && WeightIn(b, y) == v
    requires 0 <= v < w < 2 * v
    ensures exists n :: n in Ideal([a, b], 1) && n.clauseId == y
  {
    var found := Found([a, b]);
    var all, shared := MergedNeighbors(found), Combined(found, y);
    MergedMembers(found);
    WeightOfTwo(a, b, y);
    forall m | m in all && m != shared ensures m.weight < shared.weight {
      WeightOfTwo(a, b, m.clauseId);
      assert m == Combined(found, m.clauseId);
      assert m.clauseId == x || m.clauseId == z;
    }
    HeaviestIsTop(all, shared);
  }

  lemma LostToFavourites(a: Leg, b: Leg, x: string, y: string, z: string, w: int, v: int)
    requires Reached(a.rows) == [x, y] && Reached(b.rows) == [z, y] && x != y && x != z && y != z
    requires WeightIn(a, x) == w && WeightIn(a, y) == v && WeightIn(b, z) == w && WeightIn(b, y) == v
    requires 0 <= v < w < 2 * v && a.kind != b.kind && Counts(a.rows) && Counts(b.rows)
    ensures exists n :: n in Ideal([a, b], 1) && n.clauseId == y
    ensures Expanded([a, b], 1) != Ideal([a, b], 1)
  {
    var legs := [a, b];
    BestOfBoth(a, b, x, y, z, w, v);
    var n :| n in Ideal(legs, 1) && n.clauseId == y;
    FavouriteStays(a, x, y);
    assert !SurvivesIn(legs[0], 1, n.clauseId);
    CutIsHarmlessIff(legs, 1);
  }

  /** With a cap of 1 each leg keeps its own favourite; the clause both reach, best of all together, is in neither. */
  lemma SharedClauseIsLost(x: string, y: string, z: string, w: int, v: int)
    requires x != y && x != z && y != z && x != "" && y != "" && z != ""
    requires 0 <= v < w < 2 * v
    ensures var legs := [TwoRows(KIND_CITES, x, w, y, v), TwoRows(KIND_MENTIONS, z, w, y, v)];
      && (exists n :: n in Ideal(legs, 1) && n.clauseId == y)
      && Expanded(legs, 1) != Ideal(legs, 1)
  {
    TwoRowsReach(KIND_CITES, x, w, y, v);
    TwoRowsReach(KIND_MENTIONS, z, w, y, v);
    assert |KIND_CITES| != |KIND_MENTIONS|;
    LostToFavourites(TwoRows(KIND_CITES, x, w, y, v), TwoRows(KIND_MENTIONS, z, w, y, v), x, y, z, w, v);
  }

  // ----- the loops of _merge_kinds and expand -----

  ghost predicate MergedAt(done: seq<Neighbor>, weight: map<string, int>, kinds: map<string, set<string>>,
                           seeds: map<string, nat>, id: string)
  {
    if id in Names(done) then
      && id in weight && id in kinds && id in seeds
      && Combined(done, id) == Neighbor(id, weight[id], kinds[id], seeds[id])
    else
      && id !in weight && id !in kinds && id !in seeds
      && Combined(done, id) == Neighbor(id, 0, {}, 0)
  }

  ghost predicate MergedTables(done: seq<Neighbor>, weight: map<string, int>, kinds: map<string, set<string>>,
                               seeds: map<string, nat>)
  {
    forall id :: MergedAt(done, weight, kinds, seeds, id)
  }

  lemma NamesSnoc(done: seq<Neighbor>, n: Neighbor)
    ensures Names(done + [n]) == Names(done) + [n.clauseId]
    ensures Distinct(Names(done + [n]))
         == Distinct(Names(done)) + if n.clauseId in Names(done) then [] else [n.clauseId]
  {
    assert Names(done + [n]) == Names(done) + [n.clauseId];
    assert (Names(done) + [n.clauseId])[..|done|] == Names(done);
  }

  lemma MergedTablesNext(done: seq<Neighbor>, n: Neighbor, weight: map<string, int>, kinds: map<string, set<string>>,
                         seeds: map<string, nat>, weight': map<string, int>, kinds': map<string, set<string>>,
                         seeds': map<string, nat>)
    requires MergedTables(done, weight, kinds, seeds)
    requires var id := n.clauseId;
      && weight' == weight[id := (if id in weight then weight[id] else 0) + n.weight]
      && kinds' == kinds[id := (if id in kinds then kinds[id] else {}) + n.kinds]
      && seeds' == seeds[id := Max(if id in seeds then seeds[id] else 0, n.seedCount)]
    ensures MergedTables(done + [n], weight', kinds', seeds')
  {
    NamesSnoc(done, n);
    assert (done + [n])[..|done|] == done;
    forall id ensures MergedAt(done + [n], weight', kinds', seeds', id) {
      assert MergedAt(done, weight, kinds, seeds, id);
    }
  }

  /** The comprehension over the merged clauses. */
  method ListMerged(ghost done: seq<Neighbor>, order: seq<string>, weight: map<string, int>,
                    kinds: map<string, set<string>>, seeds: map<string, nat>)
      returns (merged: seq<Neighbor>)
    requires order == Distinct(Names(done)) && MergedTables(done, weight, kinds, seeds)
    ensures merged == MergedNeighbors(done)
  {
    merged := [];
    for i := 0 to |order|
      invariant |merged| == i && forall j :: 0 <= j < i ==> merged[j] == Combined(done, order[j])
    {
      var id := order[i];
      assert id in order && MergedAt(done, weight, kinds, seeds, id);
      merged := merged + [Neighbor(id, weight[id], kinds[id], seeds[id])];
    }
  }

  /** The loop body: one candidate of either leg. */
  method MergeOne(ghost done: seq<Neighbor>, n: Neighbor, order: seq<string>, weight: map<string, int>,
                  kinds: map<string, set<string>>, seeds: map<string, nat>)
      returns (order': seq<string>, weight': map<string, int>, kinds': map<string, set<string>>,
               seeds': map<string, nat>)
    requires order == Distinct(Names(done)) && MergedTables(done, weight, kinds, seeds)
    ensures order' == Distinct(Names(done + [n])) && MergedTables(done + [n], weight', kinds', seeds')
  {
    var id := n.clauseId;
    NamesSnoc(done, n);
    assert MergedAt(done, weight, kinds, seeds, id);
    order' := if id in weight then order else order + [id];
    weight' := weight[id := (if id in weight then weight[id] else 0) + n.weight];
    kinds' := kinds[id := (if id in kinds then kinds[id] else {}) + n.kinds];
    seeds' := seeds[id := Max(if id in seeds then seeds[id] else 0, n.seedCount)];
    MergedTablesNext(done, n, weight, kinds, seeds, weight', kinds', seeds');
  }

  method MergeKinds(neighbors: seq<Neighbor>) returns (merged: seq<Neighbor>)
    ensures merged == MergedNeighbors(neighbors)
  {
    var order: seq<string>, weight: map<string, int> := [], map[];
    var kinds: map<string, set<string>>, seeds: map<string, nat> := map[], map[];
    for i := 0 to |neighbors|
      invariant order == Distinct(Names(neighbors[..i]))
      invariant MergedTables(neighbors[..i], weight, kinds, seeds)
    {
      assert neighbors[..i + 1] == neighbors[..i] + [neighbors[i]];
      order, weight, kinds, seeds := MergeOne(neighbors[..i], neighbors[i], order, weight, kinds, seeds);
    }
    assert neighbors[..|neighbors|] == neighbors;
    merged := ListMerged(neighbors, order, weight, kinds, seeds);
  }

  datatype Settings = Settings(enabled: bool, useCites: bool, useMentions: bool, maxResults: int)

  function Kinds(s: Settings): seq<string> {
    (if s.useCites then [KIND_CITES] else []) + if s.useMentions then [KIND_MENTIONS] else []
  }

  function Cap(s: Settings, limit: Option<int>): int {
    if limit.None? then s.maxResults else Min(s.maxResults, limit.value)
  }

  /** What the graph answers to each of the queries. */
  function LegsOf(kinds: seq<string>, query: string -> seq<Row>): (r: seq<Leg>)
    ensures |r| == |kinds|
  {
    seq(|kinds|, i requires 0 <= i < |kinds| => Leg(kinds[i], query(kinds[i])))
  }

  function KindLabel(kinds: set<string>): string {
    if KIND_CITES in kinds && KIND_MENTIONS in kinds then "cites+mentions"
    else if KIND_CITES in kinds then KIND_CITES
    else KIND_MENTIONS
  }

  /** A clause's snapshot hit, marked with how the graph reached it. */
  function Marked(h: Hit, n: Neighbor): Hit {
    h.(payload := h.payload["graph_expanded" := Flag(true)]["graph_kind" := Text(KindLabel(n.kinds))]
                           ["graph_weight" := Number(n.weight)]["graph_seeds" := Number(n.seedCount)])
  }

  /** The snapshot hits of the clauses; a clause without one is dropped. */
  function Rehydrated(index: map<string, Hit>, ns: seq<Neighbor>): seq<Hit> {
    if ns == [] then []
    else
      var last := ns[|ns| - 1];
      Rehydrated(index, ns[..|ns| - 1]) + if last.clauseId in index then [Marked(index[last.clauseId], last)] else []
  }

  function ExpandedHits(s: Settings, query: string -> seq<Row>, index: map<string, Hit>, seeds: seq<string>,
                        limit: Option<int>): seq<Hit> {
    if seeds == [] || !s.enabled || Cap(s, limit) < 1 then []
    else Rehydrated(index, Expanded(LegsOf(Kinds(s), query), Cap(s, limit)))
  }

  /** The loop over the enabled queries. */
  method GatherLegs(kinds: seq<string>, query: string -> seq<Row>, cap: nat) returns (neighbors: seq<Neighbor>)
    ensures neighbors == Gathered(LegsOf(kinds, query), cap)
  {
    neighbors := [];
    ghost var legs := LegsOf(kinds, query);
    for i := 0 to |kinds|
      invariant neighbors == Gathered(legs[..i], cap)
    {
      assert legs[..i + 1][..i] == legs[..i];
      var best := RankNeighbors(query(kinds[i]), kinds[i], cap);
      neighbors := neighbors + best;
    }
    assert legs[..|legs|] == legs;
  }

  /** The loop over the best candidates. */
  method Rehydrate(index: map<string, Hit>, top: seq<Neighbor>) returns (hits: seq<Hit>)
    ensures hits == Rehydrated(index, top)
  {
    hits := [];
    for i := 0 to |top|
      invariant hits == Rehydrated(index, top[..i])
    {
      assert top[..i + 1][..i] == top[..i];
      if top[i].clauseId in index {
        hits := hits + [Marked(index[top[i].clauseId], top[i])];
      }
    }
    assert top[..|top|] == top;
  }

  /** `query` answers for the seeds and the per-seed settings it is run with. */
  method ExpandSeeds(s: Settings, query: string -> seq<Row>, index: map<string, Hit>, seeds: seq<string>,
                     limit: Option<int>)
      returns (hits: seq<Hit>)
    ensures hits == ExpandedHits(s, query, index, seeds, limit)
  {
    if seeds == [] || !s.enabled {
      return [];
    }
    var cap := s.maxResults;
    if limit.Some? {
      cap := Min(cap, limit.value);
    }
    if cap < 1 {
      return [];
    }
    var neighbors := GatherLegs(Kinds(s), query, cap);
    var merged := MergeKinds(neighbors);
    hits := Rehydrate(index, SliceTo(Sorted(merged, NeighborLeq), cap));
  }

  lemma {:induction false} RehydratedFits(index: map<string, Hit>, ns: seq<Neighbor>)
    ensures |Rehydrated(index, ns)| <= |ns|
    ensures (forall i :: 0 <= i < |ns| ==> ns[i].clauseId in index) ==> |Rehydrated(index, ns)| == |ns|
  {
    if ns != [] {
      var init := ns[..|ns| - 1];
      assert forall i :: 0 <= i < |init| ==> init[i] == ns[i];
      RehydratedFits(index, init);
    }
  }

  lemma ExpandedSize(legs: seq<Leg>, cap: nat)
    ensures |Expanded(legs, cap)| == Min(cap, |Distinct(Names(Gathered(legs, cap)))|)
    ensures forall n :: n in Expanded(legs, cap) ==> n.clauseId in Names(Gathered(legs, cap))
  {
    var merged := MergedNeighbors(Gathered(legs, cap));
    MergedMembers(Gathered(legs, cap));
    TopShape(merged, cap);
    NeighborLeqTotal();
    SortedIsPermutation(merged, NeighborLeq);
    SameMultisetSameElements(Sorted(merged, NeighborLeq), merged);
  }

  /** A caller's limit only ever tightens the configured cap. */
  lemma LimitOnlyTightens(s: Settings, query: string -> seq<Row>, index: map<string, Hit>, seeds: seq<string>,
                          limit: Option<int>)
    ensures var hits := ExpandedHits(s, query, index, seeds, limit);
      |hits| <= Max(0, s.maxResults) && (limit.Some? ==> |hits| <= Max(0, limit.value))
  {
    if seeds != [] && s.enabled && Cap(s, limit) >= 1 {
      var legs := LegsOf(Kinds(s), query);
      ExpandedSize(legs, Cap(s, limit));
      RehydratedFits(index, Expanded(legs, Cap(s, limit)));
    }
  }

  /** With every clause in the snapshot the leg returns as many of the clauses it gathered as it may. */
  lemma ExpansionIsFull(s: Settings, query: string -> seq<Row>, index: map<string, Hit>, seeds: seq<string>,
                        limit: Option<int>)
    requires seeds != [] && s.enabled && Cap(s, limit) >= 1
    requires forall id :: id in Names(Gathered(LegsOf(Kinds(s), query), Cap(s, limit))) ==> id in index
    ensures |ExpandedHits(s, query, index, seeds, limit)|
         == Min(Cap(s, limit), |Distinct(Names(Gathered(LegsOf(Kinds(s), query), Cap(s, limit))))|)
  {
    var legs := LegsOf(Kinds(s), query);
    ExpandedSize(legs, Cap(s, limit));
    RehydratedFits(index, Expanded(legs, Cap(s, limit)));
  }
}
