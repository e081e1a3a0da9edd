/** Shared vocabulary: optional results, the string order, and the two library
    routines the repository leans on everywhere, `sorted` and "fold over a list".
  */
module Common {
  datatype Option<+T> = None | Some(value: T)

  datatype Result<+T, +E> = Ok(value: T) | Err(error: E)

  function Min(a: int, b: int): int {
    if a <= b then a else b
  }

  function Max(a: int, b: int): int {
    if a <= b then b else a
  }

  /** Python's `s[:n]`: a negative bound counts from the end. */
  function SliceTo<T>(s: seq<T>, n: int): (r: seq<T>)
    ensures r <= s
    ensures n >= 0 ==> |r| == Min(n, |s|)
  {
    if n >= 0 then s[..Min(n, |s|)] else s[..Max(0, |s| + n)]
  }

  lemma Associative<T>(a: seq<T>, b: seq<T>, c: seq<T>)
    ensures (a + b) + c == a + (b + c)
  {
  }

  lemma PrefixSplits<T>(front: seq<T>, all: seq<T>)
    requires front <= all
    ensures all == front + all[|front|..]
  {
  }

  lemma PrefixTransitive<T>(a: seq<T>, b: seq<T>, c: seq<T>)
    requires a <= b <= c
    ensures a <= c
  {
  }

  lemma PrefixUnder<T>(front: seq<T>, a: seq<T>, b: seq<T>)
    requires a <= b
    ensures front + a <= front + b
  {
  }

  // ----- strings compare by code point, first difference decides -----

  predicate StringLeq(a: string, b: string) {
    a == [] || (b != [] && (a[0] < b[0] || (a[0] == b[0] && StringLeq(a[1..], b[1..]))))
  }

  lemma {:induction false} StringLeqTotal(a: string, b: string)
    ensures StringLeq(a, b) || StringLeq(b, a)
  {
    if a != [] && b != [] && a[0] == b[0] {
      StringLeqTotal(a[1..], b[1..]);
    }
  }

  lemma {:induction false} StringLeqAntisymmetric(a: string, b: string)
    requires StringLeq(a, b) && StringLeq(b, a)
    ensures a == b
  {
    if a != [] {
      StringLeqAntisymmetric(a[1..], b[1..]);
      assert a == [a[0]] + a[1..] && b == [b[0]] + b[1..];
    }
  }

  lemma {:induction false} StringLeqTransitive(a: string, b: string, c: string)
    requires StringLeq(a, b) && StringLeq(b, c)
    ensures StringLeq(a, c)
  {
    if a != [] && a[0] == b[0] == c[0] {
      StringLeqTransitive(a[1..], b[1..], c[1..]);
    }
  }

  // ----- lists -----

  predicate NoDuplicates<T(==)>(s: seq<T>) {
    forall i, j :: 0 <= i < j < |s| ==> s[i] != s[j]
  }

  /** The distinct elements of `s`, each at its first position: `dict.fromkeys`. */
  function Distinct<T(==, !new)>(s: seq<T>): (r: seq<T>)
    ensures NoDuplicates(r)
    ensures forall x :: x in r <==> x in s
    ensures |r| <= |s|
  {
    if s == [] then [] else
    var init, last := s[..|s| - 1], s[|s| - 1];
    assert s == init + [last];
    var r := Distinct(init);
    if last in r then r else r + [last]
  }

  /** x first occurs in `s` at i. */
  predicate FirstAt<T(==)>(s: seq<T>, x: T, i: nat) {
    i < |s| && s[i] == x && x !in s[..i]
  }

  lemma {:induction false} FirstOccurrence<T(!new)>(s: seq<T>, x: T) returns (i: nat)
    requires x in s
    ensures FirstAt(s, x, i)
  {
    var init := s[..|s| - 1];
    if x in init {
      i := FirstOccurrence(init, x);
      assert s[..i] == init[..i];
    } else {
      i := |s| - 1;
      assert s == init + [s[|s| - 1]];
    }
  }

  /** The distinct elements keep the order of their first occurrences. */
  lemma {:induction false} DistinctKeepsOrder<T(!new)>(s: seq<T>, a: nat, b: nat) returns (i: nat, j: nat)
    requires a < b < |Distinct(s)|
    ensures FirstAt(s, Distinct(s)[a], i) && FirstAt(s, Distinct(s)[b], j) && i < j
  {
    var init, last := s[..|s| - 1], s[|s| - 1];
    assert s == init + [last];
    if b < |Distinct(init)| {
      i, j := DistinctKeepsOrder(init, a, b);
      assert s[..i] == init[..i] && s[..j] == init[..j];
    } else {
      j := |s| - 1;
      assert s[..j] == init;
      i := FirstOccurrence(init, Distinct(init)[a]);
      assert s[..i] == init[..i];
    }
  }

  lemma {:induction false} DistinctOfNoDuplicates<T(!new)>(s: seq<T>)
    requires NoDuplicates(s)
    ensures Distinct(s) == s
  {
    if s != [] {
      var init := s[..|s| - 1];
      DistinctOfNoDuplicates(init);
      assert s == init + [s[|s| - 1]];
      assert s[|s| - 1] !in init;
    }
  }

  lemma {:induction false} OnceInNoDuplicates<T(!new)>(s: seq<T>, x: T)
    requires NoDuplicates(s)
    ensures multiset(s)[x] <= 1
  {
    if s != [] {
      var init := s[..|s| - 1];
      assert s == init + [s[|s| - 1]];
      OnceInNoDuplicates(init, x);
      if x == s[|s| - 1] { assert x !in init; }
    }
  }

  /** A duplicate-free list is as long as its set of elements is large. */
  lemma {:induction false} NoDuplicatesCount<T(!new)>(s: seq<T>, elements: set<T>)
    requires NoDuplicates(s) && forall x :: x in s <==> x in elements
    ensures |s| == |elements|
  {
    if s != [] {
      var init, last := s[..|s| - 1], s[|s| - 1];
      assert s == init + [last];
      assert last !in init;
      NoDuplicatesCount(init, elements - {last});
    } else {
      assert elements == {};
    }
  }

  lemma SetBound<T>(a: set<T>, b: set<T>)
    requires a <= b
    ensures |a| <= |b|
  {
    assert b == a + (b - a);
  }

  /** The numbers below n. */
  function Below(n: nat): (r: set<nat>)
    ensures |r| == n && forall i :: i in r <==> 0 <= i < n
  {
    if n == 0 then {} else Below(n - 1) + {n - 1}
  }

  /** n different numbers below n are all of them. */
  lemma AllPositionsOccur(order: seq<nat>, n: nat, r: nat)
    requires |order| == n && NoDuplicates(order) && r < n && forall i :: 0 <= i < n ==> order[i] < n
    ensures r in order
  {
    var found := set x | x in order;
    NoDuplicatesCount(order, found);
    if r !in order {
      SetBound(found, Below(n) - {r});
    }
  }

  /** Two duplicate-free lists over one set of elements are arrangements of each other. */
  lemma SameElementsSameMultiset<T(!new)>(a: seq<T>, b: seq<T>)
    requires NoDuplicates(a) && NoDuplicates(b)
    requires forall x :: x in a <==> x in b
    ensures multiset(a) == multiset(b) && |a| == |b|
  {
    forall x ensures multiset(a)[x] == multiset(b)[x] {
      OnceInNoDuplicates(a, x);
      OnceInNoDuplicates(b, x);
      assert x in multiset(a) <==> x in a;
      assert x in multiset(b) <==> x in b;
    }
    assert |multiset(a)| == |a| && |multiset(b)| == |b|;
  }

  // ----- folds over a list depend only on the multiset when steps commute -----

  function Fold<A, T>(s: seq<T>, step: (A, T) -> A, start: A): A {
    if s == [] then start else step(Fold(s[..|s| - 1], step, start), s[|s| - 1])
  }

  lemma FoldSnoc<A, T>(s: seq<T>, x: T, step: (A, T) -> A, start: A)
    ensures Fold(s + [x], step, start) == step(Fold(s, step, start), x)
  {
    assert (s + [x])[..|s|] == s;
  }

  ghost predicate Commutes<A(!new), T(!new)>(step: (A, T) -> A) {
    forall acc, x, y :: step(step(acc, x), y) == step(step(acc, y), x)
  }

  lemma {:induction false} FoldMoveToEnd<A(!new), T(!new)>(before: seq<T>, x: T, after: seq<T>, step: (A, T) -> A,
                                           start: A)
    requires Commutes(step)
    ensures Fold(before + [x] + after, step, start) == step(Fold(before + after, step, start), x)
    decreases |after|
  {
    if after == [] {
      assert before + [x] + after == before + [x] && before + after == before;
      FoldSnoc(before, x, step, start);
    } else {
      var init, last := after[..|after| - 1], after[|after| - 1];
      assert before + [x] + after == (before + [x] + init) + [last];
      assert before + after == (before + init) + [last];
      FoldSnoc(before + [x] + init, last, step, start);
      FoldSnoc(before + init, last, step, start);
      FoldMoveToEnd(before, x, init, step, start);
    }
  }

  lemma WithoutOne<T>(init: seq<T>, x: T, before: seq<T>, after: seq<T>)
    requires multiset(init + [x]) == multiset(before + [x] + after)
    ensures multiset(init) == multiset(before + after)
  {
    assert multiset(init) == multiset(init + [x]) - multiset{x};
    assert multiset(before + after) == multiset(before + [x] + after) - multiset{x};
  }

  lemma {:induction false} FoldPermutation<A(!new), T(!new)>(a: seq<T>, b: seq<T>, step: (A, T) -> A, start: A)
    requires Commutes(step)
    requires multiset(a) == multiset(b)
    ensures Fold(a, step, start) == Fold(b, step, start)
  {
    if a == [] {
      assert |multiset(b)| == 0;
    } else {
      var init, last := a[..|a| - 1], a[|a| - 1];
      assert a == init + [last];
      assert last in multiset(b);
      var j :| 0 <= j < |b| && b[j] == last;
      var before, after := b[..j], b[j + 1..];
      assert b == before + [last] + after;
      WithoutOne(init, last, before, after);
      FoldPermutation(init, before + after, step, start);
      FoldMoveToEnd(before, last, after, step, start);
    }
  }

  // ----- `sorted`: stable, and determined by the elements under a strict total order -----

  ghost predicate TotalOrder<T(!new)>(leq: (T, T) -> bool) {
    && (forall x, y :: leq(x, y) || leq(y, x))
    && (forall x, y, z :: leq(x, y) && leq(y, z) ==> leq(x, z))
  }

  predicate Ordered<T>(s: seq<T>, leq: (T, T) -> bool) {
    forall i, j :: 0 <= i < j < |s| ==> leq(s[i], s[j])
  }

  function Insert<T>(s: seq<T>, x: T, leq: (T, T) -> bool): seq<T> {
    if s == [] || leq(s[|s| - 1], x) then s + [x] else Insert(s[..|s| - 1], x, leq) + [s[|s| - 1]]
  }

  /** Stable insertion sort: an element goes after the earlier ones it ties with. */
  function Sorted<T>(s: seq<T>, leq: (T, T) -> bool): seq<T> {
    if s == [] then [] else Insert(Sorted(s[..|s| - 1], leq), s[|s| - 1], leq)
  }

  lemma {:induction false} InsertOrdered<T(!new)>(s: seq<T>, x: T, leq: (T, T) -> bool)
    requires TotalOrder(leq) && Ordered(s, leq)
    ensures Ordered(Insert(s, x, leq), leq)
    ensures multiset(Insert(s, x, leq)) == multiset(s) + multiset{x}
  {
    if s != [] {
      var init, last := s[..|s| - 1], s[|s| - 1];
      assert s == init + [last];
      if !leq(last, x) {
        InsertOrdered(init, x, leq);
        forall y | y in Insert(init, x, leq) ensures leq(y, last) {
          assert y in multiset(Insert(init, x, leq));
        }
      }
    }
  }

  lemma {:induction false} SortedIsPermutation<T(!new)>(s: seq<T>, leq: (T, T) -> bool)
    requires TotalOrder(leq)
    ensures Ordered(Sorted(s, leq), leq)
    ensures multiset(Sorted(s, leq)) == multiset(s)
  {
    if s != [] {
      var init, last := s[..|s| - 1], s[|s| - 1];
      assert multiset(s) == multiset(init) + multiset{last} by {
        assert s == init + [last];
      }
      SortedIsPermutation(init, leq);
      InsertOrdered(Sorted(init, leq), last, leq);
    }
  }

  lemma {:induction false} InsertAt<T>(s: seq<T>, x: T, leq: (T, T) -> bool) returns (k: nat)
    ensures k <= |s| && Insert(s, x, leq) == s[..k] + [x] + s[k..]
    ensures k > 0 ==> leq(s[k - 1], x)
    ensures forall j :: k <= j < |s| ==> !leq(s[j], x)
  {
    if s == [] || leq(s[|s| - 1], x) {
      k := |s|;
    } else {
      k := InsertAt(s[..|s| - 1], x, leq);
      assert s == s[..|s| - 1] + [s[|s| - 1]];
    }
  }

  /** i comes before j in the stable order of s. */
  predicate ComesFirst<T>(s: seq<T>, leq: (T, T) -> bool, i: nat, j: nat)
    requires i < |s| && j < |s|
  {
    leq(s[i], s[j]) && (leq(s[j], s[i]) ==> i < j)
  }

  /** The positions of `s`, each once, arranged so that ties keep their order. */
  ghost predicate StableOrder<T>(s: seq<T>, leq: (T, T) -> bool, order: seq<nat>) {
    && |order| == |s| && NoDuplicates(order)
    && (forall i :: 0 <= i < |order| ==> order[i] < |s|)
    && forall i, j :: 0 <= i < j < |order| ==> ComesFirst(s, leq, order[i], order[j])
  }

  function Picked<T>(s: seq<T>, order: seq<nat>): (r: seq<T>)
    requires forall i :: 0 <= i < |order| ==> order[i] < |s|
    ensures |r| == |order|
  {
    seq(|order|, i requires 0 <= i < |order| => s[order[i]])
  }

  lemma StableOrderInsert<T(!new)>(s: seq<T>, leq: (T, T) -> bool, order: seq<nat>, k: nat)
    requires TotalOrder(leq) && s != [] && StableOrder(s[..|s| - 1], leq, order) && k <= |order|
    requires k > 0 ==> leq(s[order[k - 1]], s[|s| - 1])
    requires forall j :: k <= j < |order| ==> !leq(s[order[j]], s[|s| - 1])
    ensures StableOrder(s, leq, order[..k] + [|s| - 1] + order[k..])
  {
    var n := |s| - 1;
    var order' := order[..k] + [n] + order[k..];
    forall i | 0 <= i < |order'| ensures order'[i] < |s| {
      assert i != k ==> order'[i] == order[if i < k then i else i - 1];
    }
    forall i, j | 0 <= i < j < |order'| ensures order'[i] != order'[j] && ComesFirst(s, leq, order'[i], order'[j]) {
      var a, b := if i < k then i else i - 1, if j < k then j else j - 1;
      if i == k {
        assert order'[j] == order[b] && order[b] < n;
      } else if j == k {
        assert order'[i] == order[a] && order[a] < n;
        assert a == k - 1 || ComesFirst(s[..n], leq, order[a], order[k - 1]);
      } else {
        assert order'[i] == order[a] && order'[j] == order[b] && ComesFirst(s[..n], leq, order[a], order[b]);
      }
    }
  }

  lemma PickedInsert<T>(s: seq<T>, order: seq<nat>, sorted: seq<T>, k: nat)
    requires s != [] && k <= |order| == |sorted|
    requires forall j :: 0 <= j < |order| ==> order[j] < |s| && sorted[j] == s[order[j]]
    ensures var order' := order[..k] + [|s| - 1] + order[k..];
      && (forall j :: 0 <= j < |order'| ==> order'[j] < |s|)
      && Picked(s, order') == sorted[..k] + [s[|s| - 1]] + sorted[k..]
  {
  }

  lemma StableOneMore<T(!new)>(s: seq<T>, leq: (T, T) -> bool, before: seq<nat>, sorted: seq<T>)
      returns (order: seq<nat>)
    requires TotalOrder(leq) && s != [] && StableOrder(s[..|s| - 1], leq, before)
    requires sorted == Picked(s[..|s| - 1], before)
    ensures StableOrder(s, leq, order) && Insert(sorted, s[|s| - 1], leq) == Picked(s, order)
  {
    var k := InsertAt(sorted, s[|s| - 1], leq);
    assert forall j :: 0 <= j < |before| ==> before[j] < |s| - 1 && sorted[j] == s[before[j]];
    StableOrderInsert(s, leq, before, k);
    PickedInsert(s, before, sorted, k);
    order := before[..k] + [|s| - 1] + before[k..];
  }

  /** `sorted` is stable. */
  lemma {:induction false} SortedIsStable<T(!new)>(s: seq<T>, leq: (T, T) -> bool) returns (order: seq<nat>)
    requires TotalOrder(leq)
    ensures StableOrder(s, leq, order) && Sorted(s, leq) == Picked(s, order)
  {
    if s == [] {
      order := [];
    } else {
      var init, last := s[..|s| - 1], s[|s| - 1];
      var before := SortedIsStable(init, leq);
      order := StableOneMore(s, leq, before, Sorted(init, leq));
    }
  }

  lemma SameMultisetSameElements<T(!new)>(a: seq<T>, b: seq<T>)
    requires multiset(a) == multiset(b)
    ensures |a| == |b|
    ensures forall x :: x in a <==> x in b
  {
    assert |multiset(a)| == |a| && |multiset(b)| == |b|;
    assert forall x :: x in a <==> x in multiset(a);
    assert forall x :: x in b <==> x in multiset(b);
  }

  lemma SameMultisetNoDuplicates<T(!new)>(a: seq<T>, b: seq<T>)
    requires multiset(a) == multiset(b) && NoDuplicates(a)
    ensures NoDuplicates(b)
  {
    forall i, j | 0 <= i < j < |b| ensures b[i] != b[j] {
      if b[i] == b[j] {
        var x := b[i];
        assert b == b[..i] + [x] + b[i + 1..j] + [x] + b[j + 1..];
        assert multiset(a)[x] >= 2;
        OnceInNoDuplicates(a, x);
      }
    }
  }

  lemma LastOfOrderedUnique<T(!new)>(a: seq<T>, b: seq<T>, leq: (T, T) -> bool)
    requires a != [] && b != [] && Ordered(a, leq) && Ordered(b, leq)
    requires forall x :: x in a <==> x in b
    requires forall x, y :: x in a && y in a && leq(x, y) && leq(y, x) ==> x == y
    ensures a[|a| - 1] == b[|b| - 1]
  {
    var x, y := a[|a| - 1], b[|b| - 1];
    assert x in a && y in b;
    var i :| 0 <= i < |b| && b[i] == x;
    var j :| 0 <= j < |a| && a[j] == y;
    if i < |b| - 1 && j < |a| - 1 {
      assert leq(x, y) && leq(y, x);
    }
  }

  lemma DropSameLast<T>(a: seq<T>, b: seq<T>)
    requires a != [] && b != [] && a[|a| - 1] == b[|b| - 1] && multiset(a) == multiset(b)
    ensures multiset(a[..|a| - 1]) == multiset(b[..|b| - 1])
  {
    var x := a[|a| - 1];
    assert a == a[..|a| - 1] + [x] && b == b[..|b| - 1] + [x];
    assert multiset(a[..|a| - 1]) == multiset(a) - multiset{x};
    assert multiset(b[..|b| - 1]) == multiset(b) - multiset{x};
  }

  /** Under an order where only equal elements tie, the ordered arrangement is unique. */
  lemma {:induction false} OrderedUnique<T(!new)>(a: seq<T>, b: seq<T>, leq: (T, T) -> bool)
    requires Ordered(a, leq) && Ordered(b, leq)
    requires multiset(a) == multiset(b)
    requires forall x, y :: x in a && y in a && leq(x, y) && leq(y, x) ==> x == y
    ensures a == b
  {
    SameMultisetSameElements(a, b);
    if a != [] {
      LastOfOrderedUnique(a, b, leq);
      DropSameLast(a, b);
      OrderedUnique(a[..|a| - 1], b[..|b| - 1], leq);
      assert a == a[..|a| - 1] + [a[|a| - 1]] && b == b[..|b| - 1] + [b[|b| - 1]];
    }
  }
}
