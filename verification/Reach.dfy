/** The graph leg, said of the rows and hits themselves: where it starts, what each clause is worth, and in which order
    the clauses come back.
  */
module Reach {
  import opened Common
  import opened Hits
  import opened Text
  import opened Expand
  import Expansion

  // ----- where the expansion starts -----

  /** A hit names a clause: its stripped parent, or itself when that is blank. */
  predicate NamesClause(h: Hit, key: string) {
    key != "" && key == if Strip(h.parentId) == "" then h.id else Strip(h.parentId)
  }

  datatype Place = Place(depth: nat, leg: nat)

  predicate Occupied(legs: seq<seq<Hit>>, p: Place) {
    p.leg < |legs| && p.depth < |legs[p.leg]|
  }

  /** Every leg's first hit comes before any leg's second. */
  predicate Sooner(p: Place, q: Place) {
    p.depth < q.depth || (p.depth == q.depth && p.leg < q.leg)
  }

  predicate NamedAt(legs: seq<seq<Hit>>, p: Place, key: string) {
    Occupied(legs, p) && NamesClause(legs[p.leg][p.depth], key)
  }

  ghost predicate FirstNamedAt(legs: seq<seq<Hit>>, p: Place, key: string) {
    NamedAt(legs, p, key) && forall q :: NamedAt(legs, q, key) ==> !Sooner(q, p)
  }

  function PlacesAt(legs: seq<seq<Hit>>, rank: nat, n: nat): seq<Place>
    requires n <= |legs|
  {
    if n == 0 then []
    else PlacesAt(legs, rank, n - 1) + if rank < |legs[n - 1]| then [Place(rank, n - 1)] else []
  }

  function Places(legs: seq<seq<Hit>>, depth: nat): seq<Place> {
    if depth == 0 then [] else Places(legs, depth - 1) + PlacesAt(legs, depth - 1, |legs|)
  }

  predicate Keyed(legs: seq<seq<Hit>>, p: Place, key: string) {
    Occupied(legs, p) && key == SeedKey(legs[p.leg][p.depth])
  }

  /** The places hold these keys, soonest first. */
  ghost predicate Holds(legs: seq<seq<Hit>>, places: seq<Place>, keys: seq<string>) {
    && |places| == |keys|
    && (forall i :: 0 <= i < |places| ==> Keyed(legs, places[i], keys[i]))
    && forall i, j :: 0 <= i < j < |places| ==> Sooner(places[i], places[j])
  }

  lemma HoldsAppend(legs: seq<seq<Hit>>, a: seq<Place>, ka: seq<string>, b: seq<Place>, kb: seq<string>)
    requires Holds(legs, a, ka) && Holds(legs, b, kb)
    requires forall p, q :: p in a && q in b ==> Sooner(p, q)
    ensures Holds(legs, a + b, ka + kb)
  {
    var places, keys := a + b, ka + kb;
    forall i | 0 <= i < |places| ensures Keyed(legs, places[i], keys[i]) {
      if i < |a| {
        assert Keyed(legs, a[i], ka[i]);
      } else {
        assert Keyed(legs, b[i - |a|], kb[i - |a|]);
      }
    }
    forall i, j | 0 <= i < j < |places| ensures Sooner(places[i], places[j]) {
      if i < |a| <= j {
        assert places[i] in a && places[j] in b;
      } else if j < |a| {
        assert Sooner(a[i], a[j]);
      } else {
        assert Sooner(b[i - |a|], b[j - |a|]);
      }
    }
  }

  lemma InEither(a: seq<Place>, b: seq<Place>, p: Place)
    ensures p in a + b <==> p in a || p in b
  {
  }

  lemma {:induction false} PlacesAtAre(legs: seq<seq<Hit>>, rank: nat, n: nat, p: Place)
    requires n <= |legs|
    ensures p in PlacesAt(legs, rank, n) <==> Occupied(legs, p) && p.depth == rank && p.leg < n
  {
    if n > 0 { PlacesAtAre(legs, rank, n - 1, p); }
  }

  lemma {:induction false} PlacesAre(legs: seq<seq<Hit>>, depth: nat, p: Place)
    ensures p in Places(legs, depth) <==> Occupied(legs, p) && p.depth < depth
  {
    if depth > 0 {
      var above, here := Places(legs, depth - 1), PlacesAt(legs, depth - 1, |legs|);
      PlacesAre(legs, depth - 1, p);
      PlacesAtAre(legs, depth - 1, |legs|, p);
      InEither(above, here, p);
    }
  }

  lemma {:induction false} PlacesAtHold(legs: seq<seq<Hit>>, rank: nat, n: nat)
    requires n <= |legs|
    ensures Holds(legs, PlacesAt(legs, rank, n), AtRank(legs, rank, n))
  {
    if n > 0 {
      PlacesAtHold(legs, rank, n - 1);
      if rank < |legs[n - 1]| {
        var before, key := PlacesAt(legs, rank, n - 1), SeedKey(legs[n - 1][rank]);
        forall p | p in before ensures Sooner(p, Place(rank, n - 1)) { PlacesAtAre(legs, rank, n - 1, p); }
        HoldsAppend(legs, before, AtRank(legs, rank, n - 1), [Place(rank, n - 1)], [key]);
      }
    }
  }

  lemma AboveIsSooner(legs: seq<seq<Hit>>, depth: nat, above: seq<Place>, here: seq<Place>)
    requires above == Places(legs, depth) && here == PlacesAt(legs, depth, |legs|)
    ensures forall p, q :: p in above && q in here ==> Sooner(p, q)
  {
    forall p, q | p in above && q in here ensures Sooner(p, q) {
      PlacesAre(legs, depth, p);
      PlacesAtAre(legs, depth, |legs|, q);
    }
  }

  lemma {:induction false} PlacesHold(legs: seq<seq<Hit>>, depth: nat)
    ensures Holds(legs, Places(legs, depth), Interleaved(legs, depth))
  {
    if depth > 0 {
      var above, here := Places(legs, depth - 1), PlacesAt(legs, depth - 1, |legs|);
      PlacesHold(legs, depth - 1);
      PlacesAtHold(legs, depth - 1, |legs|);
      AboveIsSooner(legs, depth - 1, above, here);
      HoldsAppend(legs, above, Interleaved(legs, depth - 1), here, AtRank(legs, depth - 1, |legs|));
    }
  }

  lemma {:induction false} SeedsAreNamed(keys: seq<string>, key: string)
    ensures key in Seeds(keys) <==> key in keys && key != ""
  {
    if keys != [] {
      var init, last := keys[..|keys| - 1], keys[|keys| - 1];
      assert keys == init + [last];
      SeedsExtend(init, last);
      SeedsAreNamed(init, key);
    }
  }

  lemma {:induction false} SeedsKeepOrder(keys: seq<string>, a: nat, b: nat) returns (i: nat, j: nat)
    requires a < b < |Seeds(keys)|
    ensures FirstAt(keys, Seeds(keys)[a], i) && FirstAt(keys, Seeds(keys)[b], j) && i < j
  {
    var init, last := keys[..|keys| - 1], keys[|keys| - 1];
    assert keys == init + [last];
    SeedsExtend(init, last);
    if b < |Seeds(init)| {
      i, j := SeedsKeepOrder(init, a, b);
      assert keys[..i] == init[..i] && keys[..j] == init[..j];
    } else {
      j := |keys| - 1;
      SeedsAreNamed(init, last);
      SeedsAreNamed(init, Seeds(init)[a]);
      i := FirstOccurrence(init, Seeds(init)[a]);
      assert keys[..i] == init[..i] && keys[..j] == init;
    }
  }

  lemma NamedIsKeyed(legs: seq<seq<Hit>>, p: Place, key: string)
    ensures NamedAt(legs, p, key) <==> Keyed(legs, p, key) && key != ""
  {
  }

  lemma PlaceOf(legs: seq<seq<Hit>>, depth: nat, p: Place, key: string) returns (i: nat)
    requires Keyed(legs, p, key) && p.depth < depth
    requires Holds(legs, Places(legs, depth), Interleaved(legs, depth))
    ensures i < |Interleaved(legs, depth)| && Places(legs, depth)[i] == p && Interleaved(legs, depth)[i] == key
  {
    var places := Places(legs, depth);
    PlacesAre(legs, depth, p);
    i :| 0 <= i < |places| && places[i] == p;
    assert Keyed(legs, places[i], Interleaved(legs, depth)[i]);
  }

  lemma NotBeforeFirst(keys: seq<string>, key: string, i: nat, k: nat)
    requires FirstAt(keys, key, i) && k < |keys| && keys[k] == key
    ensures k >= i
  {
    assert forall m :: 0 <= m < i ==> keys[m] in keys[..i];
  }

  lemma FirstPlace(legs: seq<seq<Hit>>, places: seq<Place>, keys: seq<string>, i: nat, key: string)
    requires key != "" && FirstAt(keys, key, i) && Holds(legs, places, keys)
    requires places == Places(legs, LongestLeg(legs)) && keys == Interleaved(legs, LongestLeg(legs))
    ensures FirstNamedAt(legs, places[i], key)
  {
    assert Keyed(legs, places[i], keys[i]);
    NamedIsKeyed(legs, places[i], key);
    forall q | NamedAt(legs, q, key) ensures !Sooner(q, places[i]) {
      NamedIsKeyed(legs, q, key);
      var k := PlaceOf(legs, LongestLeg(legs), q, key);
      NotBeforeFirst(keys, key, i, k);
      assert k > i ==> Sooner(places[i], places[k]);
    }
  }

  lemma SeedIsNamed(legs: seq<seq<Hit>>, keys: seq<string>, key: string)
    requires keys == Interleaved(legs, LongestLeg(legs)) && key in Seeds(keys)
    ensures exists p :: NamedAt(legs, p, key)
  {
    PlacesHold(legs, LongestLeg(legs));
    SeedsAreNamed(keys, key);
    var i :| 0 <= i < |keys| && keys[i] == key;
    var p := Places(legs, LongestLeg(legs))[i];
    assert Keyed(legs, p, key);
    NamedIsKeyed(legs, p, key);
  }

  lemma NamedIsSeed(legs: seq<seq<Hit>>, keys: seq<string>, p: Place, key: string)
    requires keys == Interleaved(legs, LongestLeg(legs)) && NamedAt(legs, p, key)
    ensures key in Seeds(keys)
  {
    PlacesHold(legs, LongestLeg(legs));
    NamedIsKeyed(legs, p, key);
    var i := PlaceOf(legs, LongestLeg(legs), p, key);
    SeedsAreNamed(keys, key);
  }

  lemma SeedsByRank(legs: seq<seq<Hit>>, keys: seq<string>, a: nat, b: nat) returns (p: Place, q: Place)
    requires keys == Interleaved(legs, LongestLeg(legs)) && a < b < |Seeds(keys)|
    ensures FirstNamedAt(legs, p, Seeds(keys)[a]) && FirstNamedAt(legs, q, Seeds(keys)[b]) && Sooner(p, q)
  {
    var seeds, places := Seeds(keys), Places(legs, LongestLeg(legs));
    PlacesHold(legs, LongestLeg(legs));
    assert seeds[a] in seeds && seeds[b] in seeds;
    SeedsAreNamed(keys, seeds[a]);
    SeedsAreNamed(keys, seeds[b]);
    var i, j := SeedsKeepOrder(keys, a, b);
    FirstPlace(legs, places, keys, i, seeds[a]);
    FirstPlace(legs, places, keys, j, seeds[b]);
    p, q := places[i], places[j];
  }

  /** x is named before y. */
  ghost predicate NamedSooner(legs: seq<seq<Hit>>, x: string, y: string) {
    exists p, q :: FirstNamedAt(legs, p, x) && FirstNamedAt(legs, q, y) && Sooner(p, q)
  }

  /** The seeds are the clauses the legs name, each once, in the order in which the legs' ranks first name them. */
  lemma SeedsAreFirstNamed(legs: seq<seq<Hit>>)
    ensures var seeds := Seeds(Interleaved(legs, LongestLeg(legs)));
      && NoDuplicates(seeds)
      && (forall key :: key in seeds <==> exists p :: NamedAt(legs, p, key))
      && forall a, b :: 0 <= a < b < |seeds| ==>
           NamedSooner(legs, seeds[a], seeds[b])
  {
    var keys := Interleaved(legs, LongestLeg(legs));
    var seeds := Seeds(keys);
    forall key ensures key in seeds <==> exists p :: NamedAt(legs, p, key) {
      if key in seeds { SeedIsNamed(legs, keys, key); }
      if p :| NamedAt(legs, p, key) { NamedIsSeed(legs, keys, p, key); }
    }
    forall a, b | 0 <= a < b < |seeds| ensures NamedSooner(legs, seeds[a], seeds[b]) {
      var p, q := SeedsByRank(legs, keys, a, b);
    }
  }

  // ----- what the rows of one query come to -----

  function TotalWeight(rows: seq<Row>, id: string): int {
    if rows == [] then 0
    else (if rows[0].clauseId == id then rows[0].weight else 0) + TotalWeight(rows[1..], id)
  }

  /** The different seeds that reached a clause. */
  function SeedsOf(rows: seq<Row>, id: string): set<string> {
    set i | 0 <= i < |rows| && rows[i].clauseId == id && rows[i].seed != "" :: rows[i].seed
  }

  predicate InRows(rows: seq<Row>, id: string) {
    id != "" && exists i :: 0 <= i < |rows| && rows[i].clauseId == id
  }

  /** Heavier first, then reached from more seeds, then cited, then by id. */
  predicate RanksBefore(a: Neighbor, b: Neighbor) {
    || a.weight > b.weight
    || (a.weight == b.weight && a.seedCount > b.seedCount)
    || (a.weight == b.weight && a.seedCount == b.seedCount && "cites" in a.kinds && "cites" !in b.kinds)
    || (a.weight == b.weight && a.seedCount == b.seedCount && ("cites" in a.kinds <==> "cites" in b.kinds)
        && StringLeq(a.clauseId, b.clauseId) && a.clauseId != b.clauseId)
  }

  lemma {:induction false} TotalWeightSnoc(rows: seq<Row>, row: Row, id: string)
    ensures TotalWeight(rows + [row], id) == TotalWeight(rows, id) + if row.clauseId == id then row.weight else 0
  {
    if rows == [] {
      assert (rows + [row])[1..] == [];
    } else {
      assert (rows + [row])[1..] == rows[1..] + [row];
      TotalWeightSnoc(rows[1..], row, id);
    }
  }

  lemma {:induction false} WeightReads(rows: seq<Row>, id: string)
    ensures Fold(rows, WeightStep(id), 0) == TotalWeight(rows, id)
  {
    if rows != [] {
      var init, last := rows[..|rows| - 1], rows[|rows| - 1];
      assert rows == init + [last];
      WeightReads(init, id);
      TotalWeightSnoc(init, last, id);
    }
  }

  lemma SeedsOfSnoc(rows: seq<Row>, row: Row, id: string)
    ensures SeedsOf(rows + [row], id)
         == SeedsOf(rows, id) + if row.clauseId == id && row.seed != "" then {row.seed} else {}
  {
    var more := rows + [row];
    assert forall i :: 0 <= i < |rows| ==> more[i] == rows[i];
    assert more[|rows|] == row;
  }

  lemma {:induction false} SeedsRead(rows: seq<Row>, id: string)
    ensures Fold(rows, SeedStep(id), {}) == SeedsOf(rows, id)
  {
    if rows != [] {
      var init, last := rows[..|rows| - 1], rows[|rows| - 1];
      assert rows == init + [last];
      SeedsRead(init, id);
      SeedsOfSnoc(init, last, id);
    }
  }

  lemma NeighborReads(rows: seq<Row>, kind: string, id: string)
    ensures NeighborOf(rows, kind, id) == Neighbor(id, TotalWeight(rows, id), {kind}, |SeedsOf(rows, id)|)
  {
    WeightReads(rows, id);
    SeedsRead(rows, id);
  }

  lemma OrderedRanksBefore(ns: seq<Neighbor>, i: nat, j: nat)
    requires Ordered(ns, NeighborLeq) && i < j < |ns| && ns[i].clauseId != ns[j].clauseId
    ensures RanksBefore(ns[i], ns[j])
  {
    assert NeighborLeq(ns[i], ns[j]);
  }

  /** A query's clauses: each reached clause once, with all its rows' weight and its different seeds, best first. */
  lemma RankedReads(rows: seq<Row>, kind: string)
    ensures forall n :: n in RankedNeighbors(rows, kind) <==>
              && InRows(rows, n.clauseId)
              && n == Neighbor(n.clauseId, TotalWeight(rows, n.clauseId), {kind}, |SeedsOf(rows, n.clauseId)|)
    ensures forall i, j :: 0 <= i < j < |RankedNeighbors(rows, kind)| ==>
              RanksBefore(RankedNeighbors(rows, kind)[i], RankedNeighbors(rows, kind)[j])
  {
    var ranked := RankedNeighbors(rows, kind);
    RankedNeighborsHoldEveryClause(rows, kind);
    forall n
      ensures n in ranked <==>
        && InRows(rows, n.clauseId)
        && n == Neighbor(n.clauseId, TotalWeight(rows, n.clauseId), {kind}, |SeedsOf(rows, n.clauseId)|)
    {
      ReachedMembers(rows, n.clauseId);
      NeighborReads(rows, kind, n.clauseId);
    }
    forall i, j | 0 <= i < j < |ranked| ensures RanksBefore(ranked[i], ranked[j]) {
      Expansion.RankedIdsDiffer(Expansion.Leg(kind, rows), i, j);
      OrderedRanksBefore(ranked, i, j);
    }
  }

  // ----- what the queries come to together -----

  function WeightAmong(ns: seq<Neighbor>, id: string): int {
    if ns == [] then 0 else (if ns[0].clauseId == id then ns[0].weight else 0) + WeightAmong(ns[1..], id)
  }

  function KindsAmong(ns: seq<Neighbor>, id: string): set<string> {
    set i, kind | 0 <= i < |ns| && ns[i].clauseId == id && kind in ns[i].kinds :: kind
  }

  /** The most seeds any one query reached the clause from. */
  ghost predicate MostSeeds(ns: seq<Neighbor>, id: string, seeds: nat) {
    && (forall i :: 0 <= i < |ns| && ns[i].clauseId == id ==> ns[i].seedCount <= seeds)
    && (seeds > 0 ==> exists i :: 0 <= i < |ns| && ns[i].clauseId == id && ns[i].seedCount == seeds)
  }

  lemma {:induction false} WeightAmongSnoc(ns: seq<Neighbor>, n: Neighbor, id: string)
    ensures WeightAmong(ns + [n], id) == WeightAmong(ns, id) + if n.clauseId == id then n.weight else 0
  {
    if ns == [] {
      assert (ns + [n])[1..] == [];
    } else {
      assert (ns + [n])[1..] == ns[1..] + [n];
      WeightAmongSnoc(ns[1..], n, id);
    }
  }

  lemma {:induction false} CombinedReads(ns: seq<Neighbor>, id: string)
    ensures Expansion.Combined(ns, id).weight == WeightAmong(ns, id)
    ensures Expansion.Combined(ns, id).kinds == KindsAmong(ns, id)
    ensures MostSeeds(ns, id, Expansion.Combined(ns, id).seedCount)
  {
    if ns != [] {
      var init, last := ns[..|ns| - 1], ns[|ns| - 1];
      assert ns == init + [last];
      CombinedReads(init, id);
      WeightAmongSnoc(init, last, id);
      assert KindsAmong(ns, id) == KindsAmong(init, id) + if last.clauseId == id then last.kinds else {};
    }
  }

  predicate Named(ns: seq<Neighbor>, id: string) {
    exists i :: 0 <= i < |ns| && ns[i].clauseId == id
  }

  lemma NamedIff(ns: seq<Neighbor>, id: string)
    ensures id in Expansion.Names(ns) <==> Named(ns, id)
  {
    var names := Expansion.Names(ns);
    if Named(ns, id) {
      var i :| 0 <= i < |ns| && ns[i].clauseId == id;
      assert names[i] == id;
    }
  }

  lemma MostIsUnique(ns: seq<Neighbor>, id: string, a: nat, b: nat)
    requires MostSeeds(ns, id, a) && MostSeeds(ns, id, b)
    ensures a == b
  {
  }

  /** A clause's entry is what the candidates for it come to. */
  ghost predicate Sums(ns: seq<Neighbor>, n: Neighbor) {
    && Named(ns, n.clauseId)
    && n.weight == WeightAmong(ns, n.clauseId) && n.kinds == KindsAmong(ns, n.clauseId)
    && MostSeeds(ns, n.clauseId, n.seedCount)
  }

  lemma MergedReads(ns: seq<Neighbor>, n: Neighbor)
    ensures n in Expansion.MergedNeighbors(ns) <==> Sums(ns, n)
  {
    Expansion.MergedMembers(ns);
    CombinedReads(ns, n.clauseId);
    NamedIff(ns, n.clauseId);
    if MostSeeds(ns, n.clauseId, n.seedCount) {
      MostIsUnique(ns, n.clauseId, n.seedCount, Expansion.Combined(ns, n.clauseId).seedCount);
    }
  }

  /** The best of the candidates: `cap` clauses or all there are, best first, and nothing left out ranks before them. */
  ghost predicate AreBest(ns: seq<Neighbor>, cap: nat, top: seq<Neighbor>) {
    && |top| <= cap
    && (forall n :: n in top ==> Sums(ns, n))
    && (forall n :: Sums(ns, n) && n !in top ==> |top| == cap && forall t :: t in top ==> RanksBefore(t, n))
    && (forall i, j :: 0 <= i < j < |top| ==> RanksBefore(top[i], top[j]))
  }

  lemma TopReads(ns: seq<Neighbor>, cap: nat)
    ensures AreBest(ns, cap, Expansion.Top(Expansion.MergedNeighbors(ns), cap))
  {
    var merged, top := Expansion.MergedNeighbors(ns), Expansion.Top(Expansion.MergedNeighbors(ns), cap);
    Expansion.MergedMembers(ns);
    Expansion.TopShape(merged, cap);
    forall n ensures n in merged <==> Sums(ns, n) { MergedReads(ns, n); }
    forall n, t | Sums(ns, n) && n !in top && t in top ensures RanksBefore(t, n) {
      assert NeighborLeq(t, n) && t.clauseId != n.clauseId;
    }
    forall i, j | 0 <= i < j < |top| ensures RanksBefore(top[i], top[j]) {
      assert top[i] in top && top[j] in top && top[i] != top[j];
      OrderedRanksBefore(top, i, j);
    }
  }

  // ----- the hits that come back -----

  /** The snapshot's hit, marked with the kinds, the weight and the seeds of its clause. */
  predicate ComesBackAs(found: Hit, n: Neighbor, h: Hit) {
    && h == found.(payload := h.payload)
    && h.payload == found.payload["graph_expanded" := Flag(true)]["graph_weight" := Number(n.weight)]
                                 ["graph_seeds" := Number(n.seedCount)]
                                 ["graph_kind" := Text(if "cites" !in n.kinds then "mentions"
                                                       else if "mentions" !in n.kinds then "cites"
                                                       else "cites+mentions")]
  }

  /** `at` lists, in order, the clauses the snapshot holds; each comes back once. */
  ghost predicate ComeBack(index: map<string, Hit>, top: seq<Neighbor>, at: seq<nat>, hits: seq<Hit>) {
    && |at| == |hits|
    && (forall i, j :: 0 <= i < j < |at| ==> at[i] < at[j])
    && (forall k :: 0 <= k < |top| ==> (top[k].clauseId in index <==> k in at))
    && forall i :: 0 <= i < |at| ==>
         && at[i] < |top| && top[at[i]].clauseId in index
         && ComesBackAs(index[top[at[i]].clauseId], top[at[i]], hits[i])
  }

  lemma MarkedComesBack(h: Hit, n: Neighbor)
    ensures ComesBackAs(h, n, Expansion.Marked(h, n))
  {
  }

  lemma {:induction false} RehydratedReads(index: map<string, Hit>, top: seq<Neighbor>) returns (at: seq<nat>)
    ensures ComeBack(index, top, at, Expansion.Rehydrated(index, top))
  {
    at := [];
    if top != [] {
      var init, last := top[..|top| - 1], top[|top| - 1];
      at := RehydratedReads(index, init);
      if last.clauseId in index {
        MarkedComesBack(index[last.clauseId], last);
        at := at + [|init|];
        assert at[|at| - 1] == |init|;
      }
    }
  }

  /** One query's best clauses, if the query is switched on. */
  function BestOf(on: bool, kind: string, query: string -> seq<Row>, cap: nat): seq<Neighbor> {
    var ranked := RankedNeighbors(query(kind), kind);
    if on then ranked[..Min(cap, |ranked|)] else []
  }

  lemma GatheredReads(s: Expansion.Settings, query: string -> seq<Row>, cap: nat)
    ensures Expansion.Gathered(Expansion.LegsOf(Expansion.Kinds(s), query), cap)
         == BestOf(s.useCites, "cites", query, cap) + BestOf(s.useMentions, "mentions", query, cap)
  {
    var cites, mentions := Expansion.Leg("cites", query("cites")), Expansion.Leg("mentions", query("mentions"));
    var legs := Expansion.LegsOf(Expansion.Kinds(s), query);
    assert legs == (if s.useCites then [cites] else []) + if s.useMentions then [mentions] else [];
    assert [cites, mentions][..1] == [cites] && [cites][..0] == [] && [mentions][..0] == [];
    assert Expansion.Gathered([cites], cap) == Expansion.Best(cites, cap);
    assert Expansion.Gathered([mentions], cap) == Expansion.Best(mentions, cap);
    assert Expansion.Gathered([cites, mentions], cap) == Expansion.Best(cites, cap) + Expansion.Best(mentions, cap);
  }

  /** What the leg returns: nothing when it is off, has no seeds or no room; otherwise the snapshot's hits for the best
      of the clauses that each query's best add up to.
    */
  lemma ExpansionReads(s: Expansion.Settings, query: string -> seq<Row>, index: map<string, Hit>, seeds: seq<string>,
                       limit: Option<int>, cap: int) returns (top: seq<Neighbor>, at: seq<nat>)
    requires cap == if limit.Some? && limit.value < s.maxResults then limit.value else s.maxResults
    ensures var hits := Expansion.ExpandedHits(s, query, index, seeds, limit);
      if seeds == [] || !s.enabled || cap < 1 then hits == []
      else
        && AreBest(BestOf(s.useCites, "cites", query, cap) + BestOf(s.useMentions, "mentions", query, cap), cap, top)
        && ComeBack(index, top, at, hits)
  {
    top, at := [], [];
    if seeds != [] && s.enabled && cap >= 1 {
      GatheredReads(s, query, cap);
      var ns := BestOf(s.useCites, "cites", query, cap) + BestOf(s.useMentions, "mentions", query, cap);
      TopReads(ns, cap);
      top := Expansion.Top(Expansion.MergedNeighbors(ns), cap);
      at := RehydratedReads(index, top);
    }
  }
}
