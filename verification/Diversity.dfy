/** Post-retrieval diversity: sibling collapse, the per-document quota, parent expansion.
    The quota is a greedy choice of rank positions; it is proved optimal among all choices
    that respect the same two caps.
  */
module Diversity {
  import opened Common
  import opened Hits

  // ----- counting the positions below n that a selection holds -----

  function Taken(sel: set<nat>, n: nat): nat {
    if n == 0 then 0 else Taken(sel, n - 1) + if n - 1 in sel then 1 else 0
  }

  function TakenOf(keys: seq<string>, sel: set<nat>, among: set<string>, n: nat): nat
    requires n <= |keys|
  {
    if n == 0 then 0
    else TakenOf(keys, sel, among, n - 1) + if n - 1 in sel && keys[n - 1] in among then 1 else 0
  }

  /** The selected positions below n, in rank order. */
  function Positions(sel: set<nat>, n: nat): (r: seq<nat>)
    ensures |r| == Taken(sel, n)
    ensures forall i :: 0 <= i < |r| ==> r[i] < n && r[i] in sel
  {
    if n == 0 then [] else Positions(sel, n - 1) + if n - 1 in sel then [n - 1] else []
  }

  lemma {:induction false} PositionsAscend(sel: set<nat>, n: nat)
    ensures forall i, j :: 0 <= i < j < |Positions(sel, n)| ==> Positions(sel, n)[i] < Positions(sel, n)[j]
  {
    if n > 0 { PositionsAscend(sel, n - 1); }
  }

  lemma {:induction false} PositionsComplete(sel: set<nat>, n: nat, p: nat)
    requires p < n && p in sel
    ensures p in Positions(sel, n)
  {
    if p < n - 1 { PositionsComplete(sel, n - 1, p); }
  }

  function At(hits: seq<Hit>, positions: seq<nat>): (r: seq<Hit>)
    requires forall i :: 0 <= i < |positions| ==> positions[i] < |hits|
    ensures |r| == |positions|
  {
    seq(|positions|, i requires 0 <= i < |positions| => hits[positions[i]])
  }

  /** Positions the quota admits among the first n: each source at most m times, at most limit in all. */
  function Quota(keys: seq<string>, m: nat, limit: nat, n: nat): set<nat>
    requires n <= |keys|
  {
    if n == 0 then {}
    else
      var earlier := Quota(keys, m, limit, n - 1);
      if Taken(earlier, n - 1) < limit && TakenOf(keys, earlier, {keys[n - 1]}, n - 1) < m
      then earlier + {n - 1} else earlier
  }

  /** Positions the quota turned away while the pool still had room. */
  function Rejected(keys: seq<string>, m: nat, limit: nat, n: nat): set<nat>
    requires n <= |keys|
  {
    set i: nat | i < n && i !in Quota(keys, m, limit, n) && Taken(Quota(keys, m, limit, n), i) < limit
  }

  // ----- the greedy choice, position by position -----

  lemma {:induction false} TakenAgree(a: set<nat>, b: set<nat>, n: nat)
    requires forall i: nat :: i < n ==> (i in a <==> i in b)
    ensures Taken(a, n) == Taken(b, n)
  {
    if n > 0 { TakenAgree(a, b, n - 1); }
  }

  lemma {:induction false} TakenOfAgree(keys: seq<string>, a: set<nat>, b: set<nat>, among: set<string>, n: nat)
    requires n <= |keys| && forall i: nat :: i < n ==> (i in a <==> i in b)
    ensures TakenOf(keys, a, among, n) == TakenOf(keys, b, among, n)
  {
    if n > 0 { TakenOfAgree(keys, a, b, among, n - 1); }
  }

  /** Looking further down the ranking never revises an earlier decision. */
  lemma {:induction false} QuotaStable(keys: seq<string>, m: nat, limit: nat, p: nat, n: nat)
    requires p <= n <= |keys|
    ensures forall i: nat :: i in Quota(keys, m, limit, n) ==> i < n
    ensures forall i: nat :: i < p ==> (i in Quota(keys, m, limit, p) <==> i in Quota(keys, m, limit, n))
    ensures Taken(Quota(keys, m, limit, p), p) == Taken(Quota(keys, m, limit, n), p)
    decreases n
  {
    if n > 0 {
      QuotaStable(keys, m, limit, if p < n then p else p - 1, n - 1);
    }
    TakenAgree(Quota(keys, m, limit, p), Quota(keys, m, limit, n), p);
  }

  lemma QuotaStableOf(keys: seq<string>, m: nat, limit: nat, p: nat, n: nat, key: string)
    requires p <= n <= |keys|
    ensures TakenOf(keys, Quota(keys, m, limit, p), {key}, p) == TakenOf(keys, Quota(keys, m, limit, n), {key}, p)
  {
    QuotaStable(keys, m, limit, p, n);
    TakenOfAgree(keys, Quota(keys, m, limit, p), Quota(keys, m, limit, n), {key}, p);
  }

  lemma QuotaDecides(keys: seq<string>, m: nat, limit: nat, i: nat)
    requires i < |keys|
    ensures var earlier := Quota(keys, m, limit, i);
            i in Quota(keys, m, limit, i + 1)
            <==> Taken(earlier, i) < limit && TakenOf(keys, earlier, {keys[i]}, i) < m
  {
    QuotaStable(keys, m, limit, i, i);
    assert i !in Quota(keys, m, limit, i);
  }

  lemma QuotaStableAt(keys: seq<string>, m: nat, limit: nat, i: nat, n: nat)
    requires i < n <= |keys|
    ensures i in Quota(keys, m, limit, n) <==> i in Quota(keys, m, limit, i + 1)
    ensures Taken(Quota(keys, m, limit, n), i) == Taken(Quota(keys, m, limit, i), i)
  {
    QuotaStable(keys, m, limit, i + 1, n);
    QuotaStable(keys, m, limit, i, n);
  }

  /** A position is admitted exactly when both caps still have room for it. */
  lemma QuotaAdmits(keys: seq<string>, m: nat, limit: nat, i: nat, n: nat, quota: set<nat>)
    requires i < n <= |keys| && quota == Quota(keys, m, limit, n)
    ensures i in quota <==> Taken(quota, i) < limit && TakenOf(keys, quota, {keys[i]}, i) < m
  {
    QuotaStableAt(keys, m, limit, i, n);
    QuotaStableOf(keys, m, limit, i, n, keys[i]);
    QuotaDecides(keys, m, limit, i);
  }

  ghost predicate WithinCaps(keys: seq<string>, sel: set<nat>, m: nat, limit: nat) {
    && Taken(sel, |keys|) <= limit
    && forall key :: TakenOf(keys, sel, {key}, |keys|) <= m
  }

  lemma {:induction false} TakenMonotone(sel: set<nat>, p: nat, n: nat)
    requires p <= n
    ensures Taken(sel, p) <= Taken(sel, n) <= Taken(sel, p) + (n - p)
    decreases n - p
  {
    if p < n { TakenMonotone(sel, p + 1, n); }
  }

  lemma {:induction false} TakenOfMonotone(keys: seq<string>, sel: set<nat>, among: set<string>, p: nat, n: nat)
    requires p <= n <= |keys|
    ensures TakenOf(keys, sel, among, p) <= TakenOf(keys, sel, among, n)
    decreases n - p
  {
    if p < n { TakenOfMonotone(keys, sel, among, p + 1, n); }
  }

  lemma QuotaNext(keys: seq<string>, m: nat, limit: nat, i: nat, key: string)
    requires i < |keys|
    ensures var before, now := Quota(keys, m, limit, i), Quota(keys, m, limit, i + 1);
      && Taken(now, i + 1) == Taken(before, i) + (if i in now then 1 else 0)
      && TakenOf(keys, now, {key}, i + 1)
           == TakenOf(keys, before, {key}, i) + if i in now && keys[i] == key then 1 else 0
  {
    QuotaStable(keys, m, limit, i, i + 1);
    QuotaStableOf(keys, m, limit, i, i + 1, key);
    assert keys[i] in {key} <==> keys[i] == key;
  }

  lemma {:induction false} QuotaCaps(keys: seq<string>, m: nat, limit: nat, n: nat, key: string)
    requires n <= |keys|
    ensures Taken(Quota(keys, m, limit, n), n) <= limit
    ensures TakenOf(keys, Quota(keys, m, limit, n), {key}, n) <= m
  {
    if n > 0 {
      QuotaCaps(keys, m, limit, n - 1, key);
      QuotaDecides(keys, m, limit, n - 1);
      QuotaNext(keys, m, limit, n - 1, key);
    }
  }

  lemma QuotaWithinCaps(keys: seq<string>, m: nat, limit: nat)
    ensures WithinCaps(keys, Quota(keys, m, limit, |keys|), m, limit)
  {
    forall key ensures TakenOf(keys, Quota(keys, m, limit, |keys|), {key}, |keys|) <= m {
      QuotaCaps(keys, m, limit, |keys|, key);
    }
    QuotaCaps(keys, m, limit, |keys|, "");
  }

  // ----- optimality -----

  /** While the pool has room, no admissible choice holds more of one source than the greedy one. */
  lemma {:induction false} QuotaLeadsPerSource(keys: seq<string>, m: nat, limit: nat, sel: set<nat>, p: nat,
                                               key: string)
    requires p <= |keys| && WithinCaps(keys, sel, m, limit)
    requires Taken(Quota(keys, m, limit, p), p) < limit
    ensures TakenOf(keys, sel, {key}, p) <= TakenOf(keys, Quota(keys, m, limit, p), {key}, p)
  {
    if p > 0 {
      QuotaStable(keys, m, limit, p - 1, p);
      QuotaStableOf(keys, m, limit, p - 1, p, key);
      QuotaLeadsPerSource(keys, m, limit, sel, p - 1, key);
      TakenOfMonotone(keys, sel, {key}, p, |keys|);
    }
  }

  lemma {:induction false} TakenOfUnion(keys: seq<string>, sel: set<nat>, among: set<string>, key: string, n: nat)
    requires n <= |keys| && key !in among
    ensures TakenOf(keys, sel, among + {key}, n) == TakenOf(keys, sel, among, n) + TakenOf(keys, sel, {key}, n)
  {
    if n > 0 { TakenOfUnion(keys, sel, among, key, n - 1); }
  }

  lemma {:induction false} TakenOfEverything(keys: seq<string>, sel: set<nat>, among: set<string>, n: nat)
    requires n <= |keys| && forall i: nat :: i < n ==> keys[i] in among
    ensures TakenOf(keys, sel, among, n) == Taken(sel, n)
  {
    if n > 0 { TakenOfEverything(keys, sel, among, n - 1); }
  }

  lemma {:induction false} TakenOfNothing(keys: seq<string>, sel: set<nat>, n: nat)
    requires n <= |keys|
    ensures TakenOf(keys, sel, {}, n) == 0
  {
    if n > 0 { TakenOfNothing(keys, sel, n - 1); }
  }

  /** Leading source by source means leading in total. */
  lemma {:induction false} LeadPerSourceIsLead(keys: seq<string>, a: set<nat>, b: set<nat>, among: set<string>, n: nat)
    requires n <= |keys|
    requires forall key :: TakenOf(keys, a, {key}, n) <= TakenOf(keys, b, {key}, n)
    ensures TakenOf(keys, a, among, n) <= TakenOf(keys, b, among, n)
    decreases among
  {
    if among == {} {
      TakenOfNothing(keys, a, n);
    } else {
      var key :| key in among;
      var rest := among - {key};
      assert among == rest + {key};
      LeadPerSourceIsLead(keys, a, b, rest, n);
      TakenOfUnion(keys, a, rest, key, n);
      TakenOfUnion(keys, b, rest, key, n);
    }
  }

  /** At every cut of the ranking the quota has admitted at least as many hits as any other
      selection obeying the same caps.
    */
  lemma QuotaLeadsEveryPrefix(keys: seq<string>, m: nat, limit: nat, sel: set<nat>, p: nat)
    requires p <= |keys| && WithinCaps(keys, sel, m, limit)
    ensures Taken(sel, p) <= Taken(Quota(keys, m, limit, |keys|), p)
  {
    var greedy := Quota(keys, m, limit, p);
    QuotaStable(keys, m, limit, p, |keys|);
    TakenMonotone(sel, p, |keys|);
    if Taken(greedy, p) < limit {
      forall key ensures TakenOf(keys, sel, {key}, p) <= TakenOf(keys, greedy, {key}, p) {
        QuotaLeadsPerSource(keys, m, limit, sel, p, key);
      }
      var among := set key | key in keys;
      LeadPerSourceIsLead(keys, sel, greedy, among, p);
      TakenOfEverything(keys, sel, among, p);
      TakenOfEverything(keys, greedy, among, p);
    }
  }

  function Total(sel: set<nat>, weights: seq<real>, n: nat): real
    requires n <= |weights|
  {
    if n == 0 then 0.0 else Total(sel, weights, n - 1) + if n - 1 in sel then weights[n - 1] else 0.0
  }

  ghost predicate NonIncreasing(weights: seq<real>) {
    && (forall i :: 0 <= i < |weights| ==> weights[i] >= 0.0)
    && (forall i, j :: 0 <= i < j < |weights| ==> weights[i] >= weights[j])
  }

  function Times(w: real, k: nat): real {
    if k == 0 then 0.0 else Times(w, k - 1) + w
  }

  lemma {:induction false} TimesMonotone(high: real, low: real, k: nat)
    requires high >= low >= 0.0
    ensures Times(high, k) >= Times(low, k) >= 0.0
  {
    if k > 0 { TimesMonotone(high, low, k - 1); }
  }

  /** A lead at every cut, summed by parts, is a lead in total weight. */
  lemma {:induction false} LeadAtEveryCutIsWeight(a: set<nat>, b: set<nat>, weights: seq<real>, n: nat)
    requires 0 < n <= |weights| && NonIncreasing(weights)
    requires forall p: nat :: p <= n ==> Taken(a, p) <= Taken(b, p)
    ensures Total(b, weights, n) - Total(a, weights, n) >= Times(weights[n - 1], Taken(b, n) - Taken(a, n)) >= 0.0
  {
    var lead := Taken(b, n - 1) - Taken(a, n - 1);
    if n > 1 {
      LeadAtEveryCutIsWeight(a, b, weights, n - 1);
      TimesMonotone(weights[n - 2], weights[n - 1], lead);
    }
    assert Total(b, weights, n - 1) - Total(a, weights, n - 1) >= Times(weights[n - 1], lead);
    assert Taken(a, n) <= Taken(b, n);
    TimesMonotone(weights[n - 1], weights[n - 1], Taken(b, n) - Taken(a, n));
  }

  /** No other selection under the same caps is worth more, whatever the scores, as long as
      they fall along the ranking.
    */
  lemma QuotaIsOptimal(keys: seq<string>, m: nat, limit: nat, sel: set<nat>, weights: seq<real>)
    requires WithinCaps(keys, sel, m, limit)
    requires |weights| == |keys| && NonIncreasing(weights)
    ensures WithinCaps(keys, Quota(keys, m, limit, |keys|), m, limit)
    ensures Total(sel, weights, |keys|) <= Total(Quota(keys, m, limit, |keys|), weights, |keys|)
  {
    QuotaWithinCaps(keys, m, limit);
    forall p: nat | p <= |keys| ensures Taken(sel, p) <= Taken(Quota(keys, m, limit, |keys|), p) {
      QuotaLeadsEveryPrefix(keys, m, limit, sel, p);
    }
    if |keys| > 0 {
      LeadAtEveryCutIsWeight(sel, Quota(keys, m, limit, |keys|), weights, |keys|);
    }
  }

  // ----- the pool and the overflow -----

  function Admitted(keys: seq<string>, m: nat, limit: nat): seq<nat> {
    Positions(Quota(keys, m, limit, |keys|), |keys|)
  }

  function TurnedAway(keys: seq<string>, m: nat, limit: nat): seq<nat> {
    Positions(Rejected(keys, m, limit, |keys|), |keys|)
  }

  /** Quota picks first, then the turned-away positions that fill the remaining room. */
  function Pool(keys: seq<string>, m: nat, limit: nat): (r: seq<nat>)
    ensures forall i :: 0 <= i < |r| ==> r[i] < |keys|
  {
    Admitted(keys, m, limit) + SliceTo(TurnedAway(keys, m, limit), Max(0, limit - |Admitted(keys, m, limit)|))
  }

  function Overflow(keys: seq<string>, m: nat, limit: nat, overflowLimit: nat): (r: seq<nat>)
    ensures forall i :: 0 <= i < |r| ==> r[i] < |keys|
  {
    var away := TurnedAway(keys, m, limit);
    var filled := Min(|away|, Max(0, limit - |Admitted(keys, m, limit)|));
    SliceTo(away[filled..], overflowLimit)
  }

  lemma {:induction false} TakenSplit(a: set<nat>, b: set<nat>, n: nat)
    requires forall i: nat :: i < n ==> (i in b <==> i !in a)
    ensures Taken(a, n) + Taken(b, n) == n
  {
    if n > 0 { TakenSplit(a, b, n - 1); }
  }

  /** The pool is full whenever enough candidates exist: the quota never shrinks it. */
  lemma PoolIsFull(keys: seq<string>, m: nat, limit: nat)
    ensures |Pool(keys, m, limit)| == Min(limit, |keys|)
  {
    var quota, rejected := Quota(keys, m, limit, |keys|), Rejected(keys, m, limit, |keys|);
    QuotaCaps(keys, m, limit, |keys|, "");
    if Taken(quota, |keys|) < limit {
      forall i: nat | i < |keys| ensures i in rejected <==> i !in quota {
        TakenMonotone(quota, i, |keys|);
      }
      TakenSplit(quota, rejected, |keys|);
    } else {
      TakenMonotone(quota, 0, |keys|);
    }
  }

  /** Pool followed by overflow is the front of "admitted, then turned away". */
  lemma PoolThenOverflow(keys: seq<string>, m: nat, limit: nat, overflowLimit: nat)
    ensures Pool(keys, m, limit) + Overflow(keys, m, limit, overflowLimit)
         <= Admitted(keys, m, limit) + TurnedAway(keys, m, limit)
  {
  }

  /** Nothing is returned twice, inside the pool or across pool and overflow. */
  lemma PoolAndOverflowDistinct(keys: seq<string>, m: nat, limit: nat, overflowLimit: nat)
    ensures NoDuplicates(Pool(keys, m, limit) + Overflow(keys, m, limit, overflowLimit))
  {
    var admitted, away := Admitted(keys, m, limit), TurnedAway(keys, m, limit);
    PositionsAscend(Quota(keys, m, limit, |keys|), |keys|);
    PositionsAscend(Rejected(keys, m, limit, |keys|), |keys|);
    assert NoDuplicates(admitted + away);
    PoolThenOverflow(keys, m, limit, overflowLimit);
  }

  function Holders(keys: seq<string>, sel: set<nat>, key: string, n: nat): set<nat>
    requires n <= |keys|
  {
    set q: nat | q < n && q in sel && keys[q] == key
  }

  lemma HoldersNext(keys: seq<string>, sel: set<nat>, key: string, n: nat)
    requires n < |keys|
    ensures |Holders(keys, sel, key, n + 1)|
         == |Holders(keys, sel, key, n)| + if n in sel && keys[n] == key then 1 else 0
  {
    var before, now := Holders(keys, sel, key, n), Holders(keys, sel, key, n + 1);
    if n in sel && keys[n] == key {
      assert now == before + {n};
    } else {
      assert now == before;
    }
  }

  lemma {:induction false} TakenOfCardinality(keys: seq<string>, sel: set<nat>, key: string, n: nat)
    requires n <= |keys|
    ensures |Holders(keys, sel, key, n)| == TakenOf(keys, sel, {key}, n)
  {
    if n > 0 {
      TakenOfCardinality(keys, sel, key, n - 1);
      HoldersNext(keys, sel, key, n - 1);
    }
  }

  /** m better-ranked positions of p's own source sit in the pool. */
  ghost predicate SourceSaturated(keys: seq<string>, pool: seq<nat>, m: nat, p: nat, holders: set<nat>)
    requires p < |keys|
  {
    |holders| == m && forall q: nat :: q in holders ==> q < p && q in pool && keys[q] == keys[p]
  }

  /** An overflow hit lost to the quota only: its source already fills its share of the pool from above. */
  lemma OverflowIsSaturated(keys: seq<string>, m: nat, limit: nat, overflowLimit: nat, p: nat)
      returns (holders: set<nat>)
    requires p in Overflow(keys, m, limit, overflowLimit)
    ensures SourceSaturated(keys, Pool(keys, m, limit), m, p, holders)
  {
    var quota := Quota(keys, m, limit, |keys|);
    assert p in TurnedAway(keys, m, limit);
    holders := Holders(keys, quota, keys[p], p);
    TakenOfCardinality(keys, quota, keys[p], p);
    QuotaAdmits(keys, m, limit, p, |keys|, quota);
    QuotaCaps(keys, m, limit, |keys|, keys[p]);
    TakenOfMonotone(keys, quota, {keys[p]}, p, |keys|);
    forall q | q in holders ensures q in Pool(keys, m, limit) {
      PositionsComplete(quota, |keys|, q);
      assert q in Admitted(keys, m, limit);
    }
  }

  // ----- the loop of cap_per_document -----

  lemma {:induction false} PositionsAgree(a: set<nat>, b: set<nat>, n: nat)
    requires forall i: nat :: i < n ==> (i in a <==> i in b)
    ensures Positions(a, n) == Positions(b, n)
  {
    if n > 0 { PositionsAgree(a, b, n - 1); }
  }

  lemma PositionsExtend(keys: seq<string>, m: nat, limit: nat, i: nat)
    requires i < |keys|
    ensures var before, now := Quota(keys, m, limit, i), Quota(keys, m, limit, i + 1);
            Positions(now, i + 1) == Positions(before, i) + if i in now then [i] else []
  {
    var before, now := Quota(keys, m, limit, i), Quota(keys, m, limit, i + 1);
    QuotaStable(keys, m, limit, i, i + 1);
    PositionsAgree(before, now, i);
  }

  lemma RejectedStable(keys: seq<string>, m: nat, limit: nat, i: nat)
    requires i < |keys|
    ensures Positions(Rejected(keys, m, limit, i + 1), i) == Positions(Rejected(keys, m, limit, i), i)
  {
    forall k: nat | k < i ensures k in Rejected(keys, m, limit, i) <==> k in Rejected(keys, m, limit, i + 1) {
      QuotaStableAt(keys, m, limit, k, i);
      QuotaStableAt(keys, m, limit, k, i + 1);
    }
    PositionsAgree(Rejected(keys, m, limit, i), Rejected(keys, m, limit, i + 1), i);
  }

  lemma RejectedExtend(keys: seq<string>, m: nat, limit: nat, i: nat)
    requires i < |keys| && Taken(Quota(keys, m, limit, i), i) < limit
    ensures Positions(Rejected(keys, m, limit, i + 1), i + 1)
         == Positions(Rejected(keys, m, limit, i), i) + if i in Quota(keys, m, limit, i + 1) then [] else [i]
  {
    RejectedStable(keys, m, limit, i);
    QuotaStable(keys, m, limit, i, i + 1);
  }

  lemma FullPoolStays(keys: seq<string>, m: nat, limit: nat, i: nat)
    requires i < |keys| && Taken(Quota(keys, m, limit, i), i) >= limit
    ensures Positions(Quota(keys, m, limit, i + 1), i + 1) == Positions(Quota(keys, m, limit, i), i)
    ensures Positions(Rejected(keys, m, limit, i + 1), i + 1) == Positions(Rejected(keys, m, limit, i), i)
  {
    PositionsExtend(keys, m, limit, i);
    QuotaDecides(keys, m, limit, i);
    RejectedStable(keys, m, limit, i);
    QuotaStable(keys, m, limit, i, i + 1);
  }

  /** What the quota picks and what it turns away among the first n. */
  function Choices(keys: seq<string>, m: nat, limit: nat, n: nat): (seq<nat>, seq<nat>)
    requires n <= |keys|
  {
    (Positions(Quota(keys, m, limit, n), n), Positions(Rejected(keys, m, limit, n), n))
  }

  lemma FullPoolKeepsChoices(keys: seq<string>, m: nat, limit: nat, i: nat)
    requires i < |keys| && |Choices(keys, m, limit, i).0| >= limit
    ensures Choices(keys, m, limit, i + 1) == Choices(keys, m, limit, i)
  {
    FullPoolStays(keys, m, limit, i);
  }

  /** Once the pool is full the rest of the ranking changes nothing. */
  lemma {:induction false} FullPoolIsFinal(keys: seq<string>, m: nat, limit: nat, p: nat, n: nat,
                                           choices: (seq<nat>, seq<nat>))
    requires p <= n <= |keys| && choices == Choices(keys, m, limit, p) && |choices.0| >= limit
    ensures Choices(keys, m, limit, n) == choices
  {
    if p < n {
      FullPoolIsFinal(keys, m, limit, p, n - 1, choices);
      FullPoolKeepsChoices(keys, m, limit, n - 1);
    }
  }

  function CountOf(perSource: map<string, nat>, key: string): nat {
    if key in perSource then perSource[key] else 0
  }

  /** The loop variables after the first i hits, in terms of the positions chosen so far. */
  ghost predicate Tracks(hits: seq<Hit>, m: nat, limit: nat, i: nat,
                         kept: seq<Hit>, skipped: seq<Hit>, perSource: map<string, nat>)
    requires i <= |hits|
  {
    var keys := SourceKeys(hits);
    && kept == At(hits, Positions(Quota(keys, m, limit, i), i))
    && skipped == At(hits, Positions(Rejected(keys, m, limit, i), i))
    && forall key :: CountOf(perSource, key) == TakenOf(keys, Quota(keys, m, limit, i), {key}, i)
  }

  lemma CountsExtend(keys: seq<string>, m: nat, limit: nat, i: nat, key: string)
    requires i < |keys|
    ensures TakenOf(keys, Quota(keys, m, limit, i + 1), {key}, i + 1)
         == TakenOf(keys, Quota(keys, m, limit, i), {key}, i)
          + if i in Quota(keys, m, limit, i + 1) && keys[i] == key then 1 else 0
  {
    QuotaStableOf(keys, m, limit, i, i + 1, key);
    assert keys[i] in {key} <==> keys[i] == key;
  }

  lemma TracksCounts(hits: seq<Hit>, m: nat, limit: nat, i: nat,
                     kept: seq<Hit>, skipped: seq<Hit>, perSource: map<string, nat>)
    requires i < |hits| && Tracks(hits, m, limit, i, kept, skipped, perSource) && |kept| < limit
    ensures var keys, key := SourceKeys(hits), SourceKey(hits[i]);
            && (i in Quota(keys, m, limit, i + 1) <==> CountOf(perSource, key) < m)
            && forall k :: TakenOf(keys, Quota(keys, m, limit, i + 1), {k}, i + 1)
                        == CountOf(perSource, k) + if CountOf(perSource, key) < m && k == key then 1 else 0
  {
    var keys, key := SourceKeys(hits), SourceKey(hits[i]);
    QuotaDecides(keys, m, limit, i);
    forall k
      ensures TakenOf(keys, Quota(keys, m, limit, i + 1), {k}, i + 1)
           == CountOf(perSource, k) + if CountOf(perSource, key) < m && k == key then 1 else 0
    {
      CountsExtend(keys, m, limit, i, k);
    }
  }

  lemma TracksNext(hits: seq<Hit>, m: nat, limit: nat, i: nat,
                   kept: seq<Hit>, skipped: seq<Hit>, perSource: map<string, nat>, key: string)
    requires i < |hits| && Tracks(hits, m, limit, i, kept, skipped, perSource)
    requires |kept| < limit && key == SourceKey(hits[i])
    ensures CountOf(perSource, key) < m ==>
              Tracks(hits, m, limit, i + 1, kept + [hits[i]], skipped, perSource[key := CountOf(perSource, key) + 1])
    ensures CountOf(perSource, key) >= m ==>
              Tracks(hits, m, limit, i + 1, kept, skipped + [hits[i]], perSource)
  {
    var keys := SourceKeys(hits);
    TracksCounts(hits, m, limit, i, kept, skipped, perSource);
    PositionsExtend(keys, m, limit, i);
    RejectedExtend(keys, m, limit, i);
  }

  lemma AtAppend(hits: seq<Hit>, a: seq<nat>, b: seq<nat>)
    requires forall i :: 0 <= i < |a| ==> a[i] < |hits|
    requires forall i :: 0 <= i < |b| ==> b[i] < |hits|
    ensures At(hits, a + b) == At(hits, a) + At(hits, b)
  {
  }

  lemma AtSlices(hits: seq<Hit>, positions: seq<nat>, filled: nat, n: nat)
    requires filled <= |positions| && forall i :: 0 <= i < |positions| ==> positions[i] < |hits|
    ensures At(hits, positions[..filled]) == At(hits, positions)[..filled]
    ensures At(hits, SliceTo(positions[filled..], n)) == SliceTo(At(hits, positions)[filled..], n)
  {
  }

  /** Where the loop stops, its lists are cut into the pool and the overflow. */
  lemma TracksResult(hits: seq<Hit>, m: nat, limit: nat, overflowLimit: nat, i: nat,
                     kept: seq<Hit>, skipped: seq<Hit>, perSource: map<string, nat>)
    requires i <= |hits| && Tracks(hits, m, limit, i, kept, skipped, perSource)
    requires i == |hits| || |kept| >= limit
    ensures var keys, filled := SourceKeys(hits), Min(|skipped|, Max(0, limit - |kept|));
            && kept + skipped[..filled] == At(hits, Pool(keys, m, limit))
            && SliceTo(skipped[filled..], overflowLimit) == At(hits, Overflow(keys, m, limit, overflowLimit))
  {
    var keys := SourceKeys(hits);
    if i < |hits| {
      FullPoolIsFinal(keys, m, limit, i, |hits|, Choices(keys, m, limit, i));
    }
    var admitted, away := Admitted(keys, m, limit), TurnedAway(keys, m, limit);
    assert kept == At(hits, admitted) && skipped == At(hits, away);
    var filled := Min(|skipped|, Max(0, limit - |kept|));
    AtAppend(hits, admitted, away[..filled]);
    AtSlices(hits, away, filled, overflowLimit);
  }

  method CapPerDocument(hits: seq<Hit>, maxPerDocument: int, limit: int, overflowLimit: int)
      returns (r: Result<(seq<Hit>, seq<Hit>), string>)
    ensures r.Err? <==> maxPerDocument < 1 || (limit >= 1 && overflowLimit < 0)
    ensures maxPerDocument >= 1 && limit < 1 ==> r == Ok(([], []))
    ensures maxPerDocument >= 1 && limit >= 1 && overflowLimit >= 0 ==>
              var keys := SourceKeys(hits);
              r == Ok((At(hits, Pool(keys, maxPerDocument, limit)),
                       At(hits, Overflow(keys, maxPerDocument, limit, overflowLimit))))
  {
    if maxPerDocument < 1 {
      return Err("max_per_document must be >= 1");
    }
    if limit < 1 {
      return Ok(([], []));
    }
    if overflowLimit < 0 {
      return Err("overflow_limit must be >= 0");
    }
    var kept: seq<Hit>, skipped: seq<Hit> := [], [];
    var perSource: map<string, nat> := map[];
    for i := 0 to |hits|
      invariant |kept| < limit
      invariant Tracks(hits, maxPerDocument, limit, i, kept, skipped, perSource)
    {
      var key := SourceKey(hits[i]);
      TracksNext(hits, maxPerDocument, limit, i, kept, skipped, perSource, key);
      if CountOf(perSource, key) < maxPerDocument {
        perSource := perSource[key := CountOf(perSource, key) + 1];
        kept := kept + [hits[i]];
        if |kept| >= limit {
          TracksResult(hits, maxPerDocument, limit, overflowLimit, i + 1, kept, skipped, perSource);
          assert kept + skipped[..0] == kept && skipped[0..] == skipped;
          return Ok((kept, SliceTo(skipped, overflowLimit)));
        }
      } else {
        skipped := skipped + [hits[i]];
      }
    }
    TracksResult(hits, maxPerDocument, limit, overflowLimit, |hits|, kept, skipped, perSource);
    var backfill := SliceTo(skipped, Max(0, limit - |kept|));
    return Ok((kept + backfill, SliceTo(skipped[|backfill|..], overflowLimit)));
  }

  // ----- sibling collapse and parent expansion -----

  function FirstIndex(keys: seq<string>, key: string): (r: nat)
    requires key in keys
    ensures r < |keys| && keys[r] == key && key !in keys[..r]
  {
    var init := keys[..|keys| - 1];
    if key in init then
      var r := FirstIndex(init, key);
      assert keys[..r] == init[..r];
      r
    else
      assert keys == init + [keys[|keys| - 1]];
      |keys| - 1
  }

  function Occurrences(keys: seq<string>, key: string, n: nat): nat
    requires n <= |keys|
  {
    if n == 0 then 0 else Occurrences(keys, key, n - 1) + if keys[n - 1] == key then 1 else 0
  }

  lemma {:induction false} OccursIffPresent(keys: seq<string>, key: string, n: nat)
    requires n <= |keys|
    ensures Occurrences(keys, key, n) > 0 <==> key in keys[..n]
  {
    if n > 0 {
      OccursIffPresent(keys, key, n - 1);
      assert keys[..n] == keys[..n - 1] + [keys[n - 1]];
    }
  }

  function Mark(h: Hit, dropped: nat): Hit {
    if dropped == 0 then h else h.(payload := h.payload["collapsed_siblings" := Number(dropped)])
  }

  /** The best-ranked child of a clause, carrying how many siblings it stands for. */
  function Survivor(hits: seq<Hit>, key: string): (h: Hit)
    requires key in ClauseKeys(hits)
    ensures ClauseKey(h) == key
  {
    var keys := ClauseKeys(hits);
    OccursIffPresent(keys, key, |keys|);
    assert keys[..|keys|] == keys;
    Mark(hits[FirstIndex(keys, key)], Occurrences(keys, key, |keys|) - 1)
  }

  lemma DistinctExtend(keys: seq<string>, i: nat)
    requires i < |keys|
    ensures Distinct(keys[..i + 1]) == Distinct(keys[..i]) + if keys[i] in keys[..i] then [] else [keys[i]]
  {
    assert keys[..i + 1][..i] == keys[..i];
    assert keys[..i + 1] == keys[..i] + [keys[i]];
  }

  /** What the grouping dictionaries hold for one clause after the first i hits. */
  ghost predicate GroupedAt(hits: seq<Hit>, i: nat, survivors: map<string, Hit>, dropped: map<string, nat>, key: string)
    requires i <= |hits|
  {
    var keys := ClauseKeys(hits);
    && (key in survivors <==> Occurrences(keys, key, i) > 0)
    && (key in survivors ==> key in keys && survivors[key] == hits[FirstIndex(keys, key)])
    && CountOf(dropped, key) == Max(0, Occurrences(keys, key, i) - 1)
  }

  ghost predicate Grouped(hits: seq<Hit>, i: nat, survivors: map<string, Hit>, dropped: map<string, nat>)
    requires i <= |hits|
  {
    forall key :: GroupedAt(hits, i, survivors, dropped, key)
  }

  lemma FirstIndexIsFirst(keys: seq<string>, i: nat)
    requires i < |keys| && Occurrences(keys, keys[i], i) == 0
    ensures FirstIndex(keys, keys[i]) == i
  {
    OccursIffPresent(keys, keys[i], i);
    var first := FirstIndex(keys, keys[i]);
    assert forall k :: 0 <= k < i ==> keys[k] in keys[..i];
    assert forall k :: 0 <= k < first ==> keys[k] in keys[..first];
  }

  lemma GroupedNext(hits: seq<Hit>, i: nat, survivors: map<string, Hit>, dropped: map<string, nat>, key: string)
    requires i < |hits| && Grouped(hits, i, survivors, dropped) && key == ClauseKey(hits[i])
    ensures key in survivors ==> Grouped(hits, i + 1, survivors, dropped[key := CountOf(dropped, key) + 1])
    ensures key !in survivors ==> Grouped(hits, i + 1, survivors[key := hits[i]], dropped)
  {
    var keys := ClauseKeys(hits);
    var next := i + 1;
    assert key == keys[i] && GroupedAt(hits, i, survivors, dropped, key);
    if key in survivors {
      var dropped' := dropped[key := CountOf(dropped, key) + 1];
      forall k ensures GroupedAt(hits, next, survivors, dropped', k) {
        assert GroupedAt(hits, i, survivors, dropped, k);
      }
    } else {
      FirstIndexIsFirst(keys, i);
      var survivors' := survivors[key := hits[i]];
      forall k ensures GroupedAt(hits, next, survivors', dropped, k) {
        assert GroupedAt(hits, i, survivors, dropped, k);
      }
    }
  }

  /** One survivor per clause, in order of first appearance. */
  function Collapsed(hits: seq<Hit>): (r: seq<Hit>)
    ensures ClauseKeys(r) == Distinct(ClauseKeys(hits))
  {
    var order := Distinct(ClauseKeys(hits));
    assert forall i :: 0 <= i < |order| ==> order[i] in order;
    seq(|order|, i requires 0 <= i < |order| => Survivor(hits, order[i]))
  }

  /** The first loop: group the hits by clause. */
  method GroupByParent(hits: seq<Hit>)
      returns (order: seq<string>, survivors: map<string, Hit>, dropped: map<string, nat>)
    ensures order == Distinct(ClauseKeys(hits)) && Grouped(hits, |hits|, survivors, dropped)
  {
    ghost var keys := ClauseKeys(hits);
    order, survivors, dropped := [], map[], map[];
    for i := 0 to |hits|
      invariant order == Distinct(keys[..i])
      invariant Grouped(hits, i, survivors, dropped)
    {
      var hit := hits[i];
      var key := ClauseKey(hit);
      DistinctExtend(keys, i);
      OccursIffPresent(keys, key, i);
      GroupedNext(hits, i, survivors, dropped, key);
      assert GroupedAt(hits, i, survivors, dropped, key);
      if key in survivors {
        dropped := dropped[key := CountOf(dropped, key) + 1];
      } else {
        survivors := survivors[key := hit];
        order := order + [key];
      }
    }
    assert keys[..|hits|] == keys;
  }

  lemma SurvivorFromGroups(hits: seq<Hit>, survivors: map<string, Hit>, dropped: map<string, nat>, key: string)
    requires Grouped(hits, |hits|, survivors, dropped) && key in ClauseKeys(hits)
    ensures key in survivors && Survivor(hits, key) == Mark(survivors[key], CountOf(dropped, key))
  {
    OccursIffPresent(ClauseKeys(hits), key, |hits|);
    assert ClauseKeys(hits)[..|hits|] == ClauseKeys(hits);
    assert GroupedAt(hits, |hits|, survivors, dropped, key);
  }

  method CollapseByParent(hits: seq<Hit>) returns (collapsed: seq<Hit>)
    ensures collapsed == Collapsed(hits)
  {
    var order, survivors, dropped := GroupByParent(hits);
    collapsed := [];
    for j := 0 to |order|
      invariant |collapsed| == j && forall k :: 0 <= k < j ==> collapsed[k] == Collapsed(hits)[k]
    {
      var key := order[j];
      assert key in order;
      SurvivorFromGroups(hits, survivors, dropped, key);
      var hit := survivors[key];
      if CountOf(dropped, key) != 0 {
        hit := hit.(payload := hit.payload["collapsed_siblings" := Number(CountOf(dropped, key))]);
      }
      collapsed := collapsed + [hit];
    }
  }

  const EXPANSION_KEYS := ["matched_child_id", "matched_child_char_len", "expanded_to_parent"]

  /** A fragment of a clause comes back as the whole clause, noting which child was matched. */
  function ExpandHit(h: Hit): (r: Hit)
    ensures SameChunk(h, r) && r.score == h.score
    ensures r.content == if h.parentText == "" then h.content else h.parentText
    ensures h.parentText != "" ==>
      && "matched_child_id" in r.payload && r.payload["matched_child_id"] == Text(h.id)
      && "matched_child_char_len" in r.payload && r.payload["matched_child_char_len"] == Number(|h.content|)
      && "expanded_to_parent" in r.payload && r.payload["expanded_to_parent"] == Flag(true)
    ensures forall key :: key in h.payload && (h.parentText == "" || key !in EXPANSION_KEYS) ==>
              key in r.payload && r.payload[key] == h.payload[key]
    ensures Flagged(h) <==> Flagged(r)
  {
    if h.parentText == "" then h
    else h.(content := h.parentText,
            payload := h.payload[
              "matched_child_id" := Text(h.id)][
              "matched_child_char_len" := Number(|h.content|)][
              "expanded_to_parent" := Flag(true)])
  }

  method ExpandToParent(hits: seq<Hit>) returns (expanded: seq<Hit>)
    ensures |expanded| == |hits|
    ensures forall i :: 0 <= i < |hits| ==> expanded[i] == ExpandHit(hits[i])
  {
    expanded := [];
    for i := 0 to |hits|
      invariant |expanded| == i && forall k :: 0 <= k < i ==> expanded[k] == ExpandHit(hits[k])
    {
      var hit := hits[i];
      if hit.parentText == "" {
        expanded := expanded + [hit];
      } else {
        expanded := expanded + [ExpandHit(hit)];
      }
    }
  }
}
