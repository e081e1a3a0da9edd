/** Extracting whole documents: one call per batch, and a failed batch is re-sent as two halves.
    The provider is an arbitrary stream of answers, one per call made.
  */
module Extractor {
  import opened Common
  import opened Entities
  import Circuit

  datatype Answer = Broken(error: string) | Answered(finishReason: string, content: string)

  datatype Settings = Settings(
    maxClauses: int, maxChars: int, maxSplitDepth: nat,
    primaryModel: string, fallbackModel: string)

  /** The run-level counters, the breaker's among them. */
  datatype RunStats = RunStats(
    breaker: Circuit.Breaker,
    batches: nat, truncated: nat, parseFailures: nat, splitRetries: nat, mentions: nat,
    discards: Stats)

  /** One more document. */
  function Counted(s: RunStats): (r: RunStats)
    ensures r.breaker.docs == s.breaker.docs + 1 && r == s.(breaker := s.breaker.(docs := r.breaker.docs))
  {
    s.(breaker := s.breaker.(docs := s.breaker.docs + 1))
  }

  function Pow2(n: nat): (r: nat)
    ensures r >= 1
  {
    if n == 0 then 1 else 2 * Pow2(n - 1)
  }

  /** The most batches a split-and-retry tree over n clauses, d levels deep, can send. */
  function TreeBound(n: nat, d: nat): int {
    Min(Pow2(d + 1) - 1, 2 * n - 1)
  }

  lemma TreeBoundPositive(n: nat, d: nat)
    requires n >= 1
    ensures TreeBound(n, d) >= 1
  {
    assert Pow2(d + 1) == 2 * Pow2(d);
  }

  lemma TreeBoundSplits(a: nat, b: nat, d: nat)
    requires a >= 1 && b >= 1
    ensures 1 + TreeBound(a, d) + TreeBound(b, d) <= TreeBound(a + b, d + 1)
  {
    assert Pow2(d + 2) == 2 * Pow2(d + 1);
  }

  /** From breaker a to breaker b: at most `bound` calls, the breaker still sound, and an open circuit
      has made no further primary call.
    */
  ghost predicate Spent(setup: Circuit.Setup, a: Circuit.Breaker, b: Circuit.Breaker, bound: int) {
    && Circuit.Sound(setup, b)
    && 0 <= b.calls - a.calls <= bound && b.docs == a.docs
    && (a.isOpen ==> b.isOpen && b.primaryCalls == a.primaryCalls && b.reason == a.reason)
  }

  lemma SpentTwice(setup: Circuit.Setup, a: Circuit.Breaker, b: Circuit.Breaker, c: Circuit.Breaker, m: int, n: int)
    requires Spent(setup, a, b, m) && Spent(setup, b, c, n)
    ensures Spent(setup, a, c, m + n)
  {
  }

  /** What turns a provider answer into an extraction. */
  datatype Reader = Reader(vocabulary: Vocabulary, decode: string -> Payload, service: nat -> Answer)

  /** A batch that was answered usably, by which call and which model. */
  datatype Leaf = Leaf(batch: seq<ClauseInput>, call: nat, model: string)

  /** A call was answered in full, with a usable list of items. */
  predicate Usable(reader: Reader, call: nat) {
    var a := reader.service(call);
    a.Answered? && !IsTruncated(a.finishReason, a.content) && reader.decode(a.content).Items?
  }

  /** What a leaf contributes; an unusable call would contribute a bare count of its clauses. */
  function LeafReading(reader: Reader, leaf: Leaf): Extraction {
    var items := if Usable(reader, leaf.call) then reader.decode(reader.service(leaf.call).content).items else [];
    Stamped(Parsed(reader.vocabulary, RefMap(leaf.batch), items), leaf.model)
  }

  function LensOf(reader: Reader): Lens {
    Lens((leaf: Leaf) => LeafReading(reader, leaf), (call: nat) => Usable(reader, call))
  }

  /** The lens agrees with the reader; stated so that only a named leaf or call brings up its reading. */
  ghost predicate ReadsLike(lens: Lens, reader: Reader) {
    && (forall leaf: Leaf {:trigger LeafReading(reader, leaf)} :: lens.read(leaf) == LeafReading(reader, leaf))
    && forall call: nat {:trigger Usable(reader, call)} :: lens.usable(call) == Usable(reader, call)
  }

  lemma LeafIsReadBy(lens: Lens, reader: Reader, leaf: Leaf, finishReason: string, content: string)
    requires ReadsLike(lens, reader) && reader.service(leaf.call) == Answered(finishReason, content)
    ensures lens.usable(leaf.call) <==> !IsTruncated(finishReason, content) && reader.decode(content).Items?
    ensures lens.usable(leaf.call) ==>
      lens.read(leaf)
        == Stamped(Parsed(reader.vocabulary, RefMap(leaf.batch), reader.decode(content).items), leaf.model)
  {
    assert lens.usable(leaf.call) == Usable(reader, leaf.call);
    assert lens.read(leaf) == LeafReading(reader, leaf);
  }

  lemma LeafAccounts(reader: Reader, leaf: Leaf)
    ensures AccountsFor(LeafReading(reader, leaf), leaf.batch)
  {
    var items := if Usable(reader, leaf.call) then reader.decode(reader.service(leaf.call).content).items else [];
    ParsedAccounts(reader.vocabulary, leaf.batch, items);
    StampedAccounts(Parsed(reader.vocabulary, RefMap(leaf.batch), items), leaf.model, leaf.batch);
  }

  /** How a leaf is read, and whether its call was usable. */
  datatype Lens = Lens(read: Leaf -> Extraction, usable: nat -> bool)

  function Nothing(): Extraction {
    Extraction([], NoStats())
  }

  /** The joined extraction of some leaves, for any reading of a leaf. */
  function JoinLeaves(lens: Lens, leaves: seq<Leaf>): Extraction {
    if leaves == [] then Nothing()
    else Joined(JoinLeaves(lens, leaves[..|leaves| - 1]), lens.read(leaves[|leaves| - 1]))
  }

  function LeafClauses(leaves: seq<Leaf>): seq<ClauseInput> {
    if leaves == [] then [] else LeafClauses(leaves[..|leaves| - 1]) + leaves[|leaves| - 1].batch
  }

  /** A running total with what the leaves discarded added to it, one leaf at a time. */
  function Tally(lens: Lens, start: Stats, leaves: seq<Leaf>): Stats {
    if leaves == [] then start
    else AddStats(Tally(lens, start, leaves[..|leaves| - 1]), lens.read(leaves[|leaves| - 1]).stats)
  }

  lemma {:induction false} TallyAppend(lens: Lens, start: Stats, xs: seq<Leaf>, ys: seq<Leaf>)
    ensures Tally(lens, start, xs + ys) == Tally(lens, Tally(lens, start, xs), ys)
    decreases |ys|
  {
    if ys == [] {
      assert xs + ys == xs;
    } else {
      assert (xs + ys)[..|xs + ys| - 1] == xs + ys[..|ys| - 1];
      TallyAppend(lens, start, xs, ys[..|ys| - 1]);
    }
  }

  /** Adding up leaf by leaf is adding the joined extraction's counters. */
  lemma {:induction false} TallyIsJoined(lens: Lens, start: Stats, leaves: seq<Leaf>)
    ensures Tally(lens, start, leaves) == AddStats(start, JoinLeaves(lens, leaves).stats)
  {
    if leaves != [] { TallyIsJoined(lens, start, leaves[..|leaves| - 1]); }
  }

  /** Usable answers, in the order of the calls that brought them, all within the given range of calls. */
  ghost predicate InCallOrder(lens: Lens, leaves: seq<Leaf>, from: nat, to: nat) {
    && (forall i :: 0 <= i < |leaves| ==> from <= leaves[i].call < to && lens.usable(leaves[i].call))
    && forall i, j :: 0 <= i < j < |leaves| ==> leaves[i].call < leaves[j].call
  }

  lemma JoinedAssociative(a: Extraction, b: Extraction, c: Extraction)
    ensures Joined(Joined(a, b), c) == Joined(a, Joined(b, c))
    ensures Joined(a, Nothing()) == a == Joined(Nothing(), a)
  {
    assert (a.mentions + b.mentions) + c.mentions == a.mentions + (b.mentions + c.mentions);
    assert a.mentions + [] == a.mentions == [] + a.mentions;
  }

  lemma LeavesSnoc(lens: Lens, leaves: seq<Leaf>, leaf: Leaf)
    ensures JoinLeaves(lens, leaves + [leaf]) == Joined(JoinLeaves(lens, leaves), lens.read(leaf))
    ensures LeafClauses(leaves + [leaf]) == LeafClauses(leaves) + leaf.batch
  {
    assert (leaves + [leaf])[..|leaves|] == leaves;
  }

  lemma JoinNoLeaves(lens: Lens, xs: seq<Leaf>, none: seq<Leaf>)
    requires none == []
    ensures JoinLeaves(lens, xs + none) == Joined(JoinLeaves(lens, xs), JoinLeaves(lens, none))
  {
    assert xs + none == xs;
    var e := JoinLeaves(lens, xs);
    JoinedAssociative(e, e, e);
  }

  lemma {:induction false} JoinLeavesAppend(lens: Lens, xs: seq<Leaf>, ys: seq<Leaf>)
    ensures JoinLeaves(lens, xs + ys) == Joined(JoinLeaves(lens, xs), JoinLeaves(lens, ys))
    decreases |ys|
  {
    if ys == [] {
      JoinNoLeaves(lens, xs, ys);
    } else {
      var init, leaf := ys[..|ys| - 1], ys[|ys| - 1];
      JoinLeavesAppend(lens, xs, init);
      calc {
        JoinLeaves(lens, xs + ys);
        { assert xs + ys == (xs + init) + [leaf]; LeavesSnoc(lens, xs + init, leaf); }
        Joined(JoinLeaves(lens, xs + init), lens.read(leaf));
        Joined(Joined(JoinLeaves(lens, xs), JoinLeaves(lens, init)), lens.read(leaf));
        { JoinedAssociative(JoinLeaves(lens, xs), JoinLeaves(lens, init), lens.read(leaf)); }
        Joined(JoinLeaves(lens, xs), Joined(JoinLeaves(lens, init), lens.read(leaf)));
        { assert ys == init + [leaf]; LeavesSnoc(lens, init, leaf); }
        Joined(JoinLeaves(lens, xs), JoinLeaves(lens, ys));
      }
    }
  }

  lemma {:induction false} LeafClausesAppend(xs: seq<Leaf>, ys: seq<Leaf>)
    ensures LeafClauses(xs + ys) == LeafClauses(xs) + LeafClauses(ys)
    decreases |ys|
  {
    if ys == [] {
      assert xs + ys == xs;
    } else {
      assert (xs + ys)[..|xs + ys| - 1] == xs + ys[..|ys| - 1];
      LeafClausesAppend(xs, ys[..|ys| - 1]);
    }
  }

  lemma CallOrderAppend(lens: Lens, p: seq<Leaf>, q: seq<Leaf>, a: nat, b: nat, c: nat)
    requires InCallOrder(lens, p, a, b) && InCallOrder(lens, q, b, c) && a <= b <= c
    ensures InCallOrder(lens, p + q, a, c)
  {
  }

  /** Whatever the tree of retries looked like, the joined result accounts for every clause and every entity. */
  lemma {:induction false} LeavesAccount(reader: Reader, leaves: seq<Leaf>)
    ensures AccountsFor(JoinLeaves(LensOf(reader), leaves), LeafClauses(leaves))
  {
    if leaves == [] {
      NothingAccounts(JoinLeaves(LensOf(reader), leaves), LeafClauses(leaves));
    } else {
      var init, leaf := leaves[..|leaves| - 1], leaves[|leaves| - 1];
      LeavesAccount(reader, init);
      LeafAccounts(reader, leaf);
      JoinedAccounts(JoinLeaves(LensOf(reader), init), LeafClauses(init), LeafReading(reader, leaf), leaf.batch);
    }
  }

  /** The call bound over several batches. */
  function CallBound(batches: seq<seq<ClauseInput>>, d: nat): int {
    if batches == [] then 0
    else CallBound(batches[..|batches| - 1], d) + 2 * TreeBound(|batches[|batches| - 1]|, d)
  }

  lemma {:induction false} CallBoundInClauses(batches: seq<seq<ClauseInput>>, d: nat)
    ensures CallBound(batches, d) <= 4 * |Flatten(batches)| - 2 * |batches|
  {
    if batches != [] { CallBoundInClauses(batches[..|batches| - 1], d); }
  }

  lemma {:induction false} CallBoundMonotone(batches: seq<seq<ClauseInput>>, d: nat, i: nat)
    requires i <= |batches| && forall b :: 0 <= b < |batches| ==> batches[b] != []
    ensures CallBound(batches[..i], d) <= CallBound(batches, d)
  {
    if i < |batches| {
      var n := |batches| - 1;
      assert batches[..n][..i] == batches[..i];
      CallBoundMonotone(batches[..n], d, i);
      TreeBoundPositive(|batches[n]|, d);
    } else {
      assert batches[..i] == batches;
    }
  }

  lemma {:induction false} BatchFits(batches: seq<seq<ClauseInput>>, b: nat)
    requires b < |batches|
    ensures |batches[b]| <= |Flatten(batches)|
  {
    if b < |batches| - 1 { BatchFits(batches[..|batches| - 1], b); }
  }

  lemma BatchesFit(clauses: seq<ClauseInput>, maxClauses: int, maxChars: int)
    ensures var batches := Batches(clauses, maxClauses, maxChars);
      Flatten(batches) == clauses && forall b :: 0 <= b < |batches| ==> 0 < |batches[b]| <= |clauses|
  {
    var batches := Batches(clauses, maxClauses, maxChars);
    BatchesAreLegal(clauses, maxClauses, maxChars);
    forall b | 0 <= b < |batches| ensures 0 < |batches[b]| <= |clauses| {
      assert Obeys(batches[b], maxClauses, maxChars);
      BatchFits(batches, b);
    }
  }

  lemma BatchAdds(batches: seq<seq<ClauseInput>>, i: nat, d: nat)
    requires i < |batches| && forall b :: 0 <= b < |batches| ==> batches[b] != []
    ensures CallBound(batches[..i + 1], d) == CallBound(batches[..i], d) + 2 * TreeBound(|batches[i]|, d)
    ensures CallBound(batches[..i + 1], d) <= CallBound(batches, d)
    ensures Flatten(batches[..i + 1]) == Flatten(batches[..i]) + batches[i]
  {
    assert batches[..i + 1][..i] == batches[..i];
    CallBoundMonotone(batches, d, i + 1);
  }

  function FromAnswer(a: Answer): Result<(string, string), string> {
    match a
    case Broken(error) => Err(error)
    case Answered(finishReason, content) => Ok((finishReason, content))
  }

  /** The breaker after one request, given the provider's answers by call number. */
  function BreakerAfter(setup: Circuit.Setup, service: nat -> Answer, b: Circuit.Breaker): Circuit.Breaker {
    if b.isOpen then Circuit.StartFallback(b) else
    match service(b.calls)
    case Broken(error) => Circuit.PrimaryFailed(setup, Circuit.StartPrimary(b), error)
    case Answered(_, _) => Circuit.PrimarySucceeded(Circuit.StartPrimary(b))
  }

  /** The last call made decides the request. */
  function AnswerAfter(setup: Circuit.Setup, service: nat -> Answer, b: Circuit.Breaker): Answer {
    if b.isOpen || service(b.calls).Answered? || !setup.hasFallback then service(b.calls) else service(b.calls + 1)
  }

  lemma LastCallDecides(setup: Circuit.Setup, service: nat -> Answer, b: Circuit.Breaker)
    ensures AnswerAfter(setup, service, b) == service(BreakerAfter(setup, service, b).calls - 1)
    ensures BreakerAfter(setup, service, b).calls > b.calls
  {
  }

  lemma RequestSpent(setup: Circuit.Setup, service: nat -> Answer, b: Circuit.Breaker)
    requires Circuit.Sound(setup, b)
    ensures Spent(setup, b, BreakerAfter(setup, service, b), 2) && BreakerAfter(setup, service, b).calls > b.calls
  {
  }

  /** The events one request amounts to when its task runs alone. */
  function RequestEvents(setup: Circuit.Setup, service: nat -> Answer, b: Circuit.Breaker,
                         task: nat): seq<Circuit.Event> {
    if b.isOpen then [Circuit.Begin(task), Circuit.FallbackReturns(task)] else
    match service(b.calls)
    case Answered(_, _) => [Circuit.Begin(task), Circuit.PrimaryAnswers(task)]
    case Broken(error) =>
      [Circuit.Begin(task), Circuit.PrimaryBreaks(task, error)]
        + if setup.hasFallback then [Circuit.FallbackReturns(task)] else []
  }

  /** A request is one of the runs the interleaving model ranges over. */
  lemma RequestIsARun(setup: Circuit.Setup, service: nat -> Answer, s: Circuit.System, task: nat)
    requires Circuit.Sound(setup, s.breaker) && Circuit.PhaseOf(s, task) == Circuit.Idle
    ensures var after := Circuit.RunFrom(setup, s, RequestEvents(setup, service, s.breaker, task));
      && after.Some? && after.value.breaker == BreakerAfter(setup, service, s.breaker)
      && Circuit.PhaseOf(after.value, task) == Circuit.Idle
  {
    var events := RequestEvents(setup, service, s.breaker, task);
    assert events[..1][..0] == [] && events[..2][..1] == events[..1];
    var s1 := Circuit.Next(setup, s, events[0]).value;
    assert Circuit.RunFrom(setup, s, events[..1]) == Some(s1);
    var s2 := Circuit.Next(setup, s1, events[1]).value;
    assert Circuit.RunFrom(setup, s, events[..2]) == Some(s2);
    if |events| == 3 {
      assert events[..3][..2] == events[..2] && events[..3] == events;
    } else {
      assert events[..2] == events;
    }
  }

  /** The provider's two legs: what each call answers, and which model each leg asks. */
  datatype Provider = Provider(
    setup: Circuit.Setup, service: nat -> Answer, primaryModel: string, fallbackModel: string)

  /** How one batch fared: read by a call, lost at one, or sent again as two halves, of which the first may be lost. */
  datatype Tree =
    | Read(batch: seq<ClauseInput>, call: nat, model: string)
    | Lost(batch: seq<ClauseInput>, call: nat)
    | Halved(batch: seq<ClauseInput>, call: nat, left: Tree, right: Tree)
    | LostHalf(batch: seq<ClauseInput>, call: nat, left: Tree)

  predicate IsRead(t: Tree) {
    t.Read? || (t.Halved? && IsRead(t.right))
  }

  function LeavesOf(t: Tree): seq<Leaf> {
    match t
    case Read(batch, call, model) => [Leaf(batch, call, model)]
    case Lost(_, _) => []
    case Halved(_, _, left, right) => LeavesOf(left) + LeavesOf(right)
    case LostHalf(_, _, left) => LeavesOf(left)
  }

  /** The call that decides a request made when the breaker stands at b. */
  function DecidingCall(p: Provider, b: Circuit.Breaker): nat {
    if b.isOpen || p.service(b.calls).Answered? || !p.setup.hasFallback then b.calls else b.calls + 1
  }

  /** The model of the leg that answers it. */
  function AnsweringModel(p: Provider, b: Circuit.Breaker): string {
    if b.isOpen || p.service(b.calls).Broken? then p.fallbackModel else p.primaryModel
  }

  predicate CutOff(a: Answer) {
    a.Answered? && IsTruncated(a.finishReason, a.content)
  }

  /** The counters after one request. */
  function Asked(p: Provider, s: RunStats): RunStats {
    s.(breaker := BreakerAfter(p.setup, p.service, s.breaker),
       truncated := s.truncated + if CutOff(p.service(DecidingCall(p, s.breaker))) then 1 else 0)
  }

  function Retrying(s: RunStats): RunStats {
    s.(parseFailures := s.parseFailures + 1, splitRetries := s.splitRetries + 1)
  }

  /** The counters after the tree's requests, one per node, in order. */
  function StatsPast(lens: Lens, p: Provider, s: RunStats, t: Tree): RunStats
    decreases t
  {
    var asked := Asked(p, s);
    match t
    case Read(batch, call, model) =>
      asked.(batches := asked.batches + 1,
             discards := AddStats(asked.discards, lens.read(Leaf(batch, call, model)).stats))
    case Lost(_, call) =>
      if p.service(call).Answered? then asked.(parseFailures := asked.parseFailures + 1) else asked
    case Halved(_, _, left, right) => StatsPast(lens, p, StatsPast(lens, p, Retrying(asked), left), right)
    case LostHalf(_, _, left) => StatsPast(lens, p, Retrying(asked), left)
  }

  /** What the tree's answers come to: a leaf's reading, or the halves' readings merged one after the other. */
  function ReadingOf(lens: Lens, t: Tree): Extraction {
    match t
    case Read(batch, call, model) => lens.read(Leaf(batch, call, model))
    case Halved(_, _, left, right) =>
      Joined(Joined(Nothing(), ReadingOf(lens, left)), ReadingOf(lens, right))
    case _ => Nothing()
  }

  /** What became of a batch sent with these counters: a usable answer is kept; a batch is halved exactly when its
      answer was unusable and it may still be split; the second half is sent once the first is read; a broken call, or
      an unusable answer for a batch that may not be split, loses it.
    */
  ghost predicate Grows(lens: Lens, p: Provider, t: Tree, batch: seq<ClauseInput>, levels: nat, s: RunStats) {
    var middle, retrying := |batch| / 2, Retrying(Asked(p, s));
    && t.batch == batch && t.call == DecidingCall(p, s.breaker)
    && match t
       case Read(_, call, model) => lens.usable(call) && model == AnsweringModel(p, s.breaker)
       case Lost(_, call) => p.service(call).Broken? || (!lens.usable(call) && (|batch| <= 1 || levels == 0))
       case Halved(_, call, left, right) =>
         && p.service(call).Answered? && !lens.usable(call) && |batch| > 1 && levels > 0
         && IsRead(left) && Grows(lens, p, left, batch[..middle], levels - 1, retrying)
         && Grows(lens, p, right, batch[middle..], levels - 1, StatsPast(lens, p, retrying, left))
       case LostHalf(_, call, left) =>
         && p.service(call).Answered? && !lens.usable(call) && |batch| > 1 && levels > 0
         && !IsRead(left) && Grows(lens, p, left, batch[..middle], levels - 1, retrying)
  }

  // ----- a document's batches -----

  function StatsPastAll(lens: Lens, p: Provider, s: RunStats, trees: seq<Tree>): RunStats {
    if trees == [] then s
    else StatsPast(lens, p, StatsPastAll(lens, p, s, trees[..|trees| - 1]), trees[|trees| - 1])
  }

  function ReadingOfAll(lens: Lens, trees: seq<Tree>): Extraction {
    if trees == [] then Nothing()
    else Joined(ReadingOfAll(lens, trees[..|trees| - 1]), ReadingOf(lens, trees[|trees| - 1]))
  }

  function LeavesOfAll(trees: seq<Tree>): seq<Leaf> {
    if trees == [] then [] else LeavesOfAll(trees[..|trees| - 1]) + LeavesOf(trees[|trees| - 1])
  }

  /** The trees of consecutive batches, each sent with the counters the ones before it left; all but the last are read.
    */
  ghost predicate Grow(lens: Lens, p: Provider, trees: seq<Tree>, batches: seq<seq<ClauseInput>>, levels: nat,
                       s: RunStats)
    decreases |trees|
  {
    trees != [] ==>
      var init, n := trees[..|trees| - 1], |trees| - 1;
      && |trees| <= |batches| && Grow(lens, p, init, batches, levels, s) && (init != [] ==> IsRead(init[|init| - 1]))
      && Grows(lens, p, trees[n], batches[n], levels, StatsPastAll(lens, p, s, init))
  }

  lemma OneMoreTree(lens: Lens, p: Provider, trees: seq<Tree>, t: Tree, batches: seq<seq<ClauseInput>>, levels: nat,
                    s: RunStats)
    requires |trees| < |batches| && Grow(lens, p, trees, batches, levels, s)
    requires trees != [] ==> IsRead(trees[|trees| - 1])
    requires Grows(lens, p, t, batches[|trees|], levels, StatsPastAll(lens, p, s, trees))
    ensures Grow(lens, p, trees + [t], batches, levels, s)
  {
    var more := trees + [t];
    assert more[..|more| - 1] == trees && more[|trees|] == t;
  }

  lemma OneTreePast(lens: Lens, p: Provider, trees: seq<Tree>, t: Tree, s: RunStats)
    ensures StatsPastAll(lens, p, s, trees + [t]) == StatsPast(lens, p, StatsPastAll(lens, p, s, trees), t)
    ensures ReadingOfAll(lens, trees + [t]) == Joined(ReadingOfAll(lens, trees), ReadingOf(lens, t))
  {
    assert (trees + [t])[..|trees|] == trees;
  }

  /** The tree of a batch that was halved. */
  function TreeOver(batch: seq<ClauseInput>, call: nat, halves: seq<Tree>): Tree
    requires 1 <= |halves| <= 2
  {
    if |halves| == 1 then LostHalf(batch, call, halves[0]) else Halved(batch, call, halves[0], halves[1])
  }

  lemma FirstHalf(lens: Lens, p: Provider, s: RunStats, trees: seq<Tree>, batches: seq<seq<ClauseInput>>, levels: nat)
    requires |trees| == 1 && Grow(lens, p, trees, batches, levels, s)
    ensures StatsPastAll(lens, p, s, trees) == StatsPast(lens, p, s, trees[0])
    ensures ReadingOfAll(lens, trees) == Joined(Nothing(), ReadingOf(lens, trees[0]))
    ensures batches != [] && Grows(lens, p, trees[0], batches[0], levels, s)
  {
    assert trees[..0] == [];
  }

  lemma SecondHalf(lens: Lens, p: Provider, s: RunStats, trees: seq<Tree>, batches: seq<seq<ClauseInput>>, levels: nat)
    requires |trees| == 2 && Grow(lens, p, trees, batches, levels, s)
    ensures StatsPastAll(lens, p, s, trees) == StatsPast(lens, p, StatsPast(lens, p, s, trees[0]), trees[1])
    ensures ReadingOfAll(lens, trees)
         == Joined(Joined(Nothing(), ReadingOf(lens, trees[0])), ReadingOf(lens, trees[1]))
    ensures |batches| >= 2 && IsRead(trees[0]) && Grows(lens, p, trees[0], batches[0], levels, s)
    ensures Grows(lens, p, trees[1], batches[1], levels, StatsPast(lens, p, s, trees[0]))
  {
    assert trees[..|trees| - 1] == [trees[0]];
    FirstHalf(lens, p, s, [trees[0]], batches, levels);
  }

  lemma LostHalfGrows(lens: Lens, p: Provider, left: Tree, batch: seq<ClauseInput>, levels: nat, s: RunStats, call: nat)
    requires |batch| > 1 && levels > 0
    requires call == DecidingCall(p, s.breaker) && p.service(call).Answered? && !lens.usable(call)
    requires !IsRead(left) && Grows(lens, p, left, batch[..|batch| / 2], levels - 1, Retrying(Asked(p, s)))
    ensures var t := LostHalf(batch, call, left);
      && Grows(lens, p, t, batch, levels, s) && !IsRead(t)
      && StatsPast(lens, p, s, t) == StatsPast(lens, p, Retrying(Asked(p, s)), left)
  {
  }

  lemma HalvedGrows(lens: Lens, p: Provider, left: Tree, right: Tree, batch: seq<ClauseInput>, levels: nat, s: RunStats,
                    call: nat)
    requires |batch| > 1 && levels > 0
    requires call == DecidingCall(p, s.breaker) && p.service(call).Answered? && !lens.usable(call)
    requires IsRead(left) && Grows(lens, p, left, batch[..|batch| / 2], levels - 1, Retrying(Asked(p, s)))
    requires Grows(lens, p, right, batch[|batch| / 2..], levels - 1, StatsPast(lens, p, Retrying(Asked(p, s)), left))
    ensures var t, between := Halved(batch, call, left, right), StatsPast(lens, p, Retrying(Asked(p, s)), left);
      && Grows(lens, p, t, batch, levels, s) && (IsRead(t) <==> IsRead(right))
      && StatsPast(lens, p, s, t) == StatsPast(lens, p, between, right)
      && ReadingOf(lens, t)
           == Joined(Joined(Nothing(), ReadingOf(lens, left)), ReadingOf(lens, right))
  {
  }

  /** The halves of a batch make a tree of the batch. */
  lemma HalvesGrow(lens: Lens, p: Provider, trees: seq<Tree>, batch: seq<ClauseInput>, halves: seq<seq<ClauseInput>>,
                   levels: nat, s: RunStats, call: nat)
    requires |batch| > 1 && levels > 0 && halves == [batch[..|batch| / 2], batch[|batch| / 2..]]
    requires call == DecidingCall(p, s.breaker) && p.service(call).Answered? && !lens.usable(call)
    requires 1 <= |trees| <= 2 && Grow(lens, p, trees, halves, levels - 1, Retrying(Asked(p, s)))
    requires |trees| == 1 ==> !IsRead(trees[0])
    ensures var t := TreeOver(batch, call, trees);
      && Grows(lens, p, t, batch, levels, s)
      && StatsPast(lens, p, s, t) == StatsPastAll(lens, p, Retrying(Asked(p, s)), trees)
      && (IsRead(t) <==> |trees| == 2 && IsRead(trees[1]))
      && (IsRead(t) ==> ReadingOf(lens, t) == ReadingOfAll(lens, trees))
  {
    var retrying := Retrying(Asked(p, s));
    if |trees| == 1 {
      FirstHalf(lens, p, retrying, trees, halves, levels - 1);
      LostHalfGrows(lens, p, trees[0], batch, levels, s, call);
    } else {
      SecondHalf(lens, p, retrying, trees, halves, levels - 1);
      HalvedGrows(lens, p, trees[0], trees[1], batch, levels, s, call);
    }
  }

  // ----- what a tree costs and brings -----

  function Requests(t: Tree): nat {
    match t
    case Halved(_, _, left, right) => 1 + Requests(left) + Requests(right)
    case LostHalf(_, _, left) => 1 + Requests(left)
    case _ => 1
  }

  /** A request takes at most two calls. */
  lemma {:induction false} RequestsSpend(lens: Lens, p: Provider, s: RunStats, t: Tree)
    requires Circuit.Sound(p.setup, s.breaker)
    ensures Spent(p.setup, s.breaker, StatsPast(lens, p, s, t).breaker, 2 * Requests(t))
    decreases t
  {
    var asked := Asked(p, s);
    RequestSpent(p.setup, p.service, s.breaker);
    match t
    case Halved(_, _, left, right) =>
      var retrying := Retrying(asked);
      var between := StatsPast(lens, p, retrying, left);
      RequestsSpend(lens, p, retrying, left);
      RequestsSpend(lens, p, between, right);
    case LostHalf(_, _, left) => RequestsSpend(lens, p, Retrying(asked), left);
    case _ =>
  }

  /** A batch of n clauses with d levels left takes at most min(2^(d + 1) - 1, 2n - 1) requests. */
  lemma {:induction false} RequestsAreBounded(lens: Lens, p: Provider, t: Tree, batch: seq<ClauseInput>, levels: nat,
                                              s: RunStats)
    requires batch != [] && Grows(lens, p, t, batch, levels, s)
    ensures Requests(t) <= TreeBound(|batch|, levels)
    decreases t
  {
    var middle, retrying := |batch| / 2, Retrying(Asked(p, s));
    TreeBoundPositive(|batch|, levels);
    match t
    case Halved(_, _, left, right) =>
      RequestsAreBounded(lens, p, left, batch[..middle], levels - 1, retrying);
      RequestsAreBounded(lens, p, right, batch[middle..], levels - 1, StatsPast(lens, p, retrying, left));
      TreeBoundSplits(middle, |batch| - middle, levels - 1);
    case LostHalf(_, _, left) =>
      RequestsAreBounded(lens, p, left, batch[..middle], levels - 1, retrying);
      TreeBoundSplits(middle, |batch| - middle, levels - 1);
      TreeBoundPositive(|batch| - middle, levels - 1);
    case _ =>
  }

  lemma TreeSpends(lens: Lens, p: Provider, t: Tree, batch: seq<ClauseInput>, levels: nat, s: RunStats)
    requires Circuit.Sound(p.setup, s.breaker) && batch != [] && Grows(lens, p, t, batch, levels, s)
    ensures Spent(p.setup, s.breaker, StatsPast(lens, p, s, t).breaker, 2 * TreeBound(|batch|, levels))
  {
    RequestsSpend(lens, p, s, t);
    RequestsAreBounded(lens, p, t, batch, levels, s);
  }

  /** From counters a to counters b the leaves were read: in call order, each counted, one retry per extra leaf and one
      unreadable answer per retry.
    */
  ghost predicate Earned(lens: Lens, a: RunStats, b: RunStats, leaves: seq<Leaf>, roots: int) {
    && a.breaker.calls <= b.breaker.calls && InCallOrder(lens, leaves, a.breaker.calls, b.breaker.calls)
    && b.discards == Tally(lens, a.discards, leaves) && b.mentions == a.mentions
    && b.batches - a.batches == |leaves| == b.splitRetries - a.splitRetries + roots
    && b.parseFailures - a.parseFailures == b.splitRetries - a.splitRetries
  }

  lemma EarnedTwice(lens: Lens, a: RunStats, b: RunStats, c: RunStats, p: seq<Leaf>, q: seq<Leaf>, m: int, n: int)
    requires Earned(lens, a, b, p, m) && Earned(lens, b, c, q, n)
    ensures Earned(lens, a, c, p + q, m + n)
  {
    TallyAppend(lens, a.discards, p, q);
    CallOrderAppend(lens, p, q, a.breaker.calls, b.breaker.calls, c.breaker.calls);
  }

  lemma EarnedOne(lens: Lens, p: Provider, s: RunStats, leaf: Leaf)
    requires leaf.call == DecidingCall(p, s.breaker) && lens.usable(leaf.call)
    ensures Earned(lens, s, StatsPast(lens, p, s, Read(leaf.batch, leaf.call, leaf.model)), [leaf], 1)
  {
    assert [leaf][..0] == [];
    assert Tally(lens, s.discards, [leaf]) == AddStats(s.discards, lens.read(leaf).stats);
  }

  /** Two trees under one retry. */
  lemma EarnedUnder(lens: Lens, p: Provider, s: RunStats, b: RunStats, leaves: seq<Leaf>)
    requires Earned(lens, Retrying(Asked(p, s)), b, leaves, 2)
    ensures Earned(lens, s, b, leaves, 1)
  {
    LastCallDecides(p.setup, p.service, s.breaker);
  }

  lemma HalvesEarn(lens: Lens, p: Provider, s: RunStats, between: RunStats, after: RunStats, xs: seq<Leaf>,
                   ys: seq<Leaf>)
    requires Earned(lens, Retrying(Asked(p, s)), between, xs, 1) && Earned(lens, between, after, ys, 1)
    ensures Earned(lens, s, after, xs + ys, 1)
  {
    EarnedTwice(lens, Retrying(Asked(p, s)), between, after, xs, ys, 1, 1);
    EarnedUnder(lens, p, s, after, xs + ys);
  }

  lemma HalvesRead(lens: Lens, xs: seq<Leaf>, ys: seq<Leaf>, e: Extraction, f: Extraction)
    requires e == JoinLeaves(lens, xs) && f == JoinLeaves(lens, ys)
    ensures LeafClauses(xs + ys) == LeafClauses(xs) + LeafClauses(ys)
    ensures Joined(Joined(Nothing(), e), f) == JoinLeaves(lens, xs + ys)
  {
    LeafClausesAppend(xs, ys);
    JoinLeavesAppend(lens, xs, ys);
    JoinedAssociative(e, e, e);
  }

  lemma {:induction false} TreeEarns(lens: Lens, p: Provider, t: Tree, batch: seq<ClauseInput>, levels: nat,
                                     s: RunStats)
    requires IsRead(t) && Grows(lens, p, t, batch, levels, s)
    ensures Earned(lens, s, StatsPast(lens, p, s, t), LeavesOf(t), 1)
    decreases t
  {
    match t
    case Read(_, call, model) => EarnedOne(lens, p, s, Leaf(batch, call, model));
    case Halved(_, _, left, right) =>
      var retrying, middle := Retrying(Asked(p, s)), |batch| / 2;
      var between := StatsPast(lens, p, retrying, left);
      TreeEarns(lens, p, left, batch[..middle], levels - 1, retrying);
      TreeEarns(lens, p, right, batch[middle..], levels - 1, between);
      HalvesEarn(lens, p, s, between, StatsPast(lens, p, between, right), LeavesOf(left), LeavesOf(right));
  }

  lemma CutAndJoined(batch: seq<ClauseInput>, middle: nat)
    requires middle <= |batch|
    ensures batch[..middle] + batch[middle..] == batch
  {
  }

  lemma OneLeaf(lens: Lens, leaf: Leaf)
    ensures LeafClauses([leaf]) == leaf.batch && JoinLeaves(lens, [leaf]) == lens.read(leaf)
  {
    var none: seq<Leaf> := [];
    assert [leaf][..0] == none && [] + leaf.batch == leaf.batch;
    var e := lens.read(leaf);
    JoinedAssociative(e, e, e);
    assert JoinLeaves(lens, [leaf]) == Joined(Nothing(), e);
  }

  /** A tree that is read has leaves that cover its batch in order, and its reading is their readings joined in order.
    */
  lemma {:induction false} TreeReads(lens: Lens, p: Provider, t: Tree, batch: seq<ClauseInput>, levels: nat,
                                     s: RunStats)
    requires IsRead(t) && Grows(lens, p, t, batch, levels, s)
    ensures LeafClauses(LeavesOf(t)) == batch && ReadingOf(lens, t) == JoinLeaves(lens, LeavesOf(t))
    decreases t
  {
    match t
    case Read(_, call, model) => OneLeaf(lens, Leaf(batch, call, model));
    case Halved(_, _, left, right) =>
      var retrying, middle := Retrying(Asked(p, s)), |batch| / 2;
      TreeReads(lens, p, left, batch[..middle], levels - 1, retrying);
      TreeReads(lens, p, right, batch[middle..], levels - 1, StatsPast(lens, p, retrying, left));
      HalvesRead(lens, LeavesOf(left), LeavesOf(right), ReadingOf(lens, left), ReadingOf(lens, right));
      CutAndJoined(batch, middle);
  }

  /** Only an answered call is usable. */
  ghost predicate UsableAreAnswered(lens: Lens, p: Provider) {
    forall call: nat :: lens.usable(call) ==> p.service(call).Answered?
  }

  predicate LostLast(lens: Lens, s: RunStats) {
    s.breaker.calls >= 1 && !lens.usable(s.breaker.calls - 1)
  }

  lemma DecidingCallIsLast(p: Provider, b: Circuit.Breaker)
    ensures DecidingCall(p, b) == BreakerAfter(p.setup, p.service, b).calls - 1
    ensures AnswerAfter(p.setup, p.service, b) == p.service(DecidingCall(p, b))
  {
  }

  /** A tree that is not read ends with a call that brought nothing usable. */
  lemma {:induction false} TreeLoses(lens: Lens, p: Provider, t: Tree, batch: seq<ClauseInput>, levels: nat,
                                     s: RunStats)
    requires UsableAreAnswered(lens, p) && !IsRead(t) && Grows(lens, p, t, batch, levels, s)
    ensures LostLast(lens, StatsPast(lens, p, s, t))
    decreases t
  {
    var middle, retrying := |batch| / 2, Retrying(Asked(p, s));
    match t
    case Lost(_, call) =>
      LastCallDecides(p.setup, p.service, s.breaker);
      DecidingCallIsLast(p, s.breaker);
    case Halved(_, _, left, right) =>
      TreeLoses(lens, p, right, batch[middle..], levels - 1, StatsPast(lens, p, retrying, left));
    case LostHalf(_, _, left) => TreeLoses(lens, p, left, batch[..middle], levels - 1, retrying);
  }

  // ----- what a document's trees cost and bring -----

  lemma {:induction false} TreesSpend(lens: Lens, p: Provider, trees: seq<Tree>, batches: seq<seq<ClauseInput>>,
                                      levels: nat, s: RunStats)
    requires Circuit.Sound(p.setup, s.breaker) && Grow(lens, p, trees, batches, levels, s) && |trees| <= |batches|
    requires forall b :: 0 <= b < |batches| ==> batches[b] != []
    ensures Spent(p.setup, s.breaker, StatsPastAll(lens, p, s, trees).breaker, CallBound(batches[..|trees|], levels))
  {
    if trees != [] {
      var init, n := trees[..|trees| - 1], |trees| - 1;
      TreesSpend(lens, p, init, batches, levels, s);
      var before := StatsPastAll(lens, p, s, init);
      TreeSpends(lens, p, trees[n], batches[n], levels, before);
      BatchAdds(batches, n, levels);
      SpentTwice(p.setup, s.breaker, before.breaker, StatsPastAll(lens, p, s, trees).breaker,
                 CallBound(batches[..n], levels), 2 * TreeBound(|batches[n]|, levels));
    }
  }

  lemma EarnedNothing(lens: Lens, a: RunStats)
    ensures Earned(lens, a, a, [], 0)
  {
  }

  lemma {:induction false} TreesEarn(lens: Lens, p: Provider, trees: seq<Tree>, batches: seq<seq<ClauseInput>>,
                                     levels: nat, s: RunStats)
    requires Grow(lens, p, trees, batches, levels, s) && |trees| <= |batches|
    requires trees != [] ==> IsRead(trees[|trees| - 1])
    ensures Earned(lens, s, StatsPastAll(lens, p, s, trees), LeavesOfAll(trees), |trees|)
  {
    if trees == [] {
      EarnedNothing(lens, s);
    } else {
      var init, n := trees[..|trees| - 1], |trees| - 1;
      TreesEarn(lens, p, init, batches, levels, s);
      var before := StatsPastAll(lens, p, s, init);
      TreeEarns(lens, p, trees[n], batches[n], levels, before);
      EarnedTwice(lens, s, before, StatsPastAll(lens, p, s, trees), LeavesOfAll(init), LeavesOf(trees[n]), n, 1);
    }
  }

  lemma {:induction false} TreesRead(lens: Lens, p: Provider, trees: seq<Tree>, batches: seq<seq<ClauseInput>>,
                                     levels: nat, s: RunStats)
    requires Grow(lens, p, trees, batches, levels, s) && |trees| <= |batches|
    requires trees != [] ==> IsRead(trees[|trees| - 1])
    ensures LeafClauses(LeavesOfAll(trees)) == Flatten(batches[..|trees|])
    ensures ReadingOfAll(lens, trees) == JoinLeaves(lens, LeavesOfAll(trees))
  {
    if trees != [] {
      var init, n := trees[..|trees| - 1], |trees| - 1;
      TreesRead(lens, p, init, batches, levels, s);
      TreeReads(lens, p, trees[n], batches[n], levels, StatsPastAll(lens, p, s, init));
      LeafClausesAppend(LeavesOfAll(init), LeavesOf(trees[n]));
      JoinLeavesAppend(lens, LeavesOfAll(init), LeavesOf(trees[n]));
      assert batches[..|trees|][..n] == batches[..n];
    }
  }

  class EntityExtractor {
    const setup: Circuit.Setup
    const settings: Settings
    const vocabulary: Vocabulary
    const decode: string -> Payload
    const service: nat -> Answer
    var stats: RunStats

    constructor (setup: Circuit.Setup, settings: Settings, vocabulary: Vocabulary, decode: string -> Payload,
                 service: nat -> Answer)
      ensures this.setup == setup && this.settings == settings && this.service == service
      ensures this.vocabulary == vocabulary && this.decode == decode
      ensures stats == RunStats(Circuit.Closed(), 0, 0, 0, 0, 0, NoStats()) && Circuit.Sound(setup, stats.breaker)
    {
      this.setup := setup;
      this.settings := settings;
      this.vocabulary := vocabulary;
      this.decode := decode;
      this.service := service;
      stats := RunStats(Circuit.Closed(), 0, 0, 0, 0, 0, NoStats());
    }

    /** One request, degrading from the primary leg to the fallback leg. */
    method Call() returns (r: Result<(string, string), string>, model: string)
      requires Circuit.Sound(setup, stats.breaker)
      modifies this
      ensures stats == old(stats).(breaker := BreakerAfter(setup, service, old(stats.breaker)))
      ensures r == FromAnswer(AnswerAfter(setup, service, old(stats.breaker)))
      ensures model == if !old(stats.breaker.isOpen) && service(old(stats.breaker.calls)).Answered?
                       then settings.primaryModel else settings.fallbackModel
    {
      model := settings.fallbackModel;
      if stats.breaker.isOpen {
        stats := stats.(breaker := Circuit.StartFallback(stats.breaker));
        r := FromAnswer(service(stats.breaker.calls - 1));
        return;
      }
      stats := stats.(breaker := Circuit.StartPrimary(stats.breaker));
      var first := service(stats.breaker.calls - 1);
      match first {
        case Broken(error) =>
          stats := stats.(breaker := Circuit.PrimaryFailed(setup, stats.breaker, error));
          if !setup.hasFallback {
            return Err(error), model;
          }
          r := FromAnswer(service(stats.breaker.calls - 1));
        case Answered(_, _) =>
          stats := stats.(breaker := Circuit.PrimarySucceeded(stats.breaker));
          r, model := FromAnswer(first), settings.primaryModel;
      }
    }

    /** The provider as this extractor is wired to it. */
    function Line(): Provider {
      Provider(setup, service, settings.primaryModel, settings.fallbackModel)
    }

    function Sees(): Lens {
      LensOf(Reader(vocabulary, decode, service))
    }

    ghost predicate SeenBy(lens: Lens) {
      ReadsLike(lens, Reader(vocabulary, decode, service))
    }

    /** The most recent call brought nothing usable. */
    ghost predicate LastCallFailed(lens: Lens)
      reads this
    {
      LostLast(lens, stats)
    }

    /** A response that was cut off counts as unparseable without being parsed. */
    method ReadResponse(refs: map<string, string>, finishReason: string, content: string)
        returns (parsed: Result<Extraction, string>)
      modifies this
      ensures stats == old(stats).(truncated := stats.truncated)
      ensures stats.truncated == old(stats).truncated + if IsTruncated(finishReason, content) then 1 else 0
      ensures parsed.Ok? <==> !IsTruncated(finishReason, content) && decode(content).Items?
      ensures parsed.Ok? ==> parsed.value == Parsed(vocabulary, refs, decode(content).items)
    {
      if IsTruncated(finishReason, content) {
        stats := stats.(truncated := stats.truncated + 1);
        return Err("response truncated by max_tokens");
      }
      parsed := ParseExtraction(vocabulary, decode(content), refs);
    }

    /** Read a response as a leaf, stamped with the model that gave it. */
    method ReadLeaf(refs: map<string, string>, finishReason: string, content: string, leaf: Leaf, ghost lens: Lens)
        returns (parsed: Result<Extraction, string>)
      requires SeenBy(lens) && refs == RefMap(leaf.batch) && service(leaf.call) == Answered(finishReason, content)
      modifies this
      ensures stats == old(stats).(truncated := stats.truncated)
      ensures stats.truncated == old(stats).truncated + if CutOff(service(leaf.call)) then 1 else 0
      ensures parsed.Ok? <==> lens.usable(leaf.call)
      ensures parsed.Ok? ==> lens.read(leaf) == parsed.value
    {
      parsed := ReadResponse(refs, finishReason, content);
      LeafIsReadBy(lens, Reader(vocabulary, decode, service), leaf, finishReason, content);
      if parsed.Ok? {
        parsed := Ok(Stamped(parsed.value, leaf.model));
      }
    }

    /** Number the clauses and send them; `leaf` says which call answered and whose model it was. */
    method SendBatch(batch: seq<ClauseInput>)
        returns (response: Result<(string, string), string>, refs: map<string, string>, leaf: Leaf)
      requires Circuit.Sound(setup, stats.breaker)
      modifies this
      ensures stats == old(stats).(breaker := BreakerAfter(setup, service, old(stats).breaker))
      ensures refs == RefMap(batch) && leaf.batch == batch && leaf.call == DecidingCall(Line(), old(stats).breaker)
      ensures response == FromAnswer(service(leaf.call))
      ensures leaf.model == AnsweringModel(Line(), old(stats).breaker)
    {
      var rows, model;
      refs, rows := AssignRefs(batch);
      DecidingCallIsLast(Line(), stats.breaker);
      response, model := Call();
      leaf := Leaf(batch, stats.breaker.calls - 1, model);
    }

    /** Ask for one batch: the call may fail, and the answer may be unusable. */
    method Ask(batch: seq<ClauseInput>, ghost lens: Lens)
        returns (r: Result<Result<Extraction, string>, string>, ghost leaf: Leaf)
      requires SeenBy(lens) && Circuit.Sound(setup, stats.breaker)
      modifies this
      ensures stats == Asked(Line(), old(stats)) && Circuit.Sound(setup, stats.breaker)
      ensures leaf == Leaf(batch, DecidingCall(Line(), old(stats).breaker), AnsweringModel(Line(), old(stats).breaker))
      ensures r.Err? <==> service(leaf.call).Broken?
      ensures r.Ok? ==> (r.value.Ok? <==> lens.usable(leaf.call)) && (r.value.Ok? ==> lens.read(leaf) == r.value.value)
    {
      RequestSpent(setup, service, stats.breaker);
      var response, refs, asked := SendBatch(batch);
      leaf := asked;
      if response.Err? {
        return Err(response.error), leaf;
      }
      var parsed := ReadLeaf(refs, response.value.0, response.value.1, asked, lens);
      r := Ok(parsed);
    }

    lemma UsableIsAnswered(lens: Lens, call: nat)
      requires SeenBy(lens)
      ensures lens.usable(call) ==> service(call).Answered?
    {
      assert lens.usable(call) == Usable(Reader(vocabulary, decode, service), call);
    }

    method ExtractBatch(batch: seq<ClauseInput>, depth: nat, ghost lens: Lens)
        returns (r: Result<Extraction, string>, ghost tree: Tree)
      requires SeenBy(lens) && Circuit.Sound(setup, stats.breaker) && batch != [] && depth <= settings.maxSplitDepth
      modifies this
      ensures Circuit.Sound(setup, stats.breaker)
      ensures Grows(lens, Line(), tree, batch, settings.maxSplitDepth - depth, old(stats))
      ensures stats == StatsPast(lens, Line(), old(stats), tree)
      ensures r.Ok? <==> IsRead(tree)
      ensures r.Ok? ==> r.value == ReadingOf(lens, tree)
      decreases |batch|, 1
    {
      ghost var start := stats;
      var asked, leaf := Ask(batch, lens);
      UsableIsAnswered(lens, leaf.call);
      if asked.Err? {
        return Err(asked.error), Lost(batch, leaf.call);
      }
      if asked.value.Ok? {
        r, tree := Ok(asked.value.value), Read(batch, leaf.call, leaf.model);
        stats := stats.(batches := stats.batches + 1, discards := AddStats(stats.discards, r.value.stats));
        return;
      }
      stats := stats.(parseFailures := stats.parseFailures + 1);
      if |batch| > 1 && depth < settings.maxSplitDepth {
        r, tree := SplitAndRetry(batch, depth, lens, leaf.call, start);
      } else {
        r, tree := Err(asked.value.error), Lost(batch, leaf.call);
      }
    }

    /** `start` is what the counters were before the request that failed. */
    method SplitAndRetry(batch: seq<ClauseInput>, depth: nat, ghost lens: Lens, ghost call: nat, ghost start: RunStats)
        returns (r: Result<Extraction, string>, ghost tree: Tree)
      requires SeenBy(lens) && Circuit.Sound(setup, stats.breaker) && |batch| > 1 && depth < settings.maxSplitDepth
      requires call == DecidingCall(Line(), start.breaker) && service(call).Answered? && !lens.usable(call)
      requires stats.(splitRetries := stats.splitRetries + 1) == Retrying(Asked(Line(), start))
      modifies this
      ensures Circuit.Sound(setup, stats.breaker)
      ensures Grows(lens, Line(), tree, batch, settings.maxSplitDepth - depth, start)
      ensures stats == StatsPast(lens, Line(), start, tree)
      ensures r.Ok? <==> IsRead(tree)
      ensures r.Ok? ==> r.value == ReadingOf(lens, tree)
      decreases |batch|, 0
    {
      stats := stats.(splitRetries := stats.splitRetries + 1);
      var middle := |batch| / 2;
      var halves := [batch[..middle], batch[middle..]];
      ghost var retrying, trees := stats, [];
      assert retrying == Retrying(Asked(Line(), start));
      r, trees := ExtractBatches(halves, depth + 1, |batch| - 1, lens);
      tree := TreeOver(batch, call, trees);
      HalvesGrow(lens, Line(), trees, batch, halves, settings.maxSplitDepth - depth, start, call);
    }

    /** The loop over a document's batches, or over the halves of one; the first failure ends it. */
    method ExtractBatches(batches: seq<seq<ClauseInput>>, depth: nat, ghost size: nat, ghost lens: Lens)
        returns (r: Result<Extraction, string>, ghost trees: seq<Tree>)
      requires SeenBy(lens) && Circuit.Sound(setup, stats.breaker) && depth <= settings.maxSplitDepth
      requires forall b :: 0 <= b < |batches| ==> 0 < |batches[b]| <= size
      modifies this
      ensures Circuit.Sound(setup, stats.breaker)
      ensures Grow(lens, Line(), trees, batches, settings.maxSplitDepth - depth, old(stats)) && |trees| <= |batches|
      ensures stats == StatsPastAll(lens, Line(), old(stats), trees)
      ensures r.Ok? ==> |trees| == |batches| && r.value == ReadingOfAll(lens, trees)
      ensures r.Ok? && trees != [] ==> IsRead(trees[|trees| - 1])
      ensures r.Err? ==> trees != [] && !IsRead(trees[|trees| - 1])
      decreases size, 2
    {
      ghost var s0, levels := stats, settings.maxSplitDepth - depth;
      var merged := Nothing();
      trees := [];
      for i := 0 to |batches|
        invariant Circuit.Sound(setup, stats.breaker)
        invariant |trees| == i && Grow(lens, Line(), trees, batches, levels, s0)
        invariant stats == StatsPastAll(lens, Line(), s0, trees) && merged == ReadingOfAll(lens, trees)
        invariant trees != [] ==> IsRead(trees[|trees| - 1])
      {
        var part, tree := ExtractBatch(batches[i], depth, lens);
        OneMoreTree(lens, Line(), trees, tree, batches, levels, s0);
        OneTreePast(lens, Line(), trees, tree, s0);
        trees := trees + [tree];
        if part.Err? {
          return Err(part.error), trees;
        }
        merged := Joined(merged, part.value);
      }
      r := Ok(merged);
    }

    /** The trees of a document's batches, by the counters before and after them. */
    ghost predicate Worked(clauses: seq<ClauseInput>, trees: seq<Tree>, s0: RunStats, s: RunStats, lens: Lens) {
      var batches := Batches(clauses, settings.maxClauses, settings.maxChars);
      && |trees| <= |batches| && Grow(lens, Line(), trees, batches, settings.maxSplitDepth, s0)
      && s == StatsPastAll(lens, Line(), s0, trees)
    }

    lemma DocumentSpends(clauses: seq<ClauseInput>, trees: seq<Tree>, s0: RunStats, s: RunStats, lens: Lens)
      requires Circuit.Sound(setup, s0.breaker) && Worked(clauses, trees, s0, s, lens)
      ensures Spent(setup, s0.breaker, s.breaker,
                    CallBound(Batches(clauses, settings.maxClauses, settings.maxChars), settings.maxSplitDepth))
    {
      var batches := Batches(clauses, settings.maxClauses, settings.maxChars);
      BatchesFit(clauses, settings.maxClauses, settings.maxChars);
      TreesSpend(lens, Line(), trees, batches, settings.maxSplitDepth, s0);
      CallBoundMonotone(batches, settings.maxSplitDepth, |trees|);
    }

    lemma DocumentEarns(clauses: seq<ClauseInput>, trees: seq<Tree>, s0: RunStats, s: RunStats, lens: Lens)
      requires Worked(clauses, trees, s0, s, lens) && (trees != [] ==> IsRead(trees[|trees| - 1]))
      requires |trees| == |Batches(clauses, settings.maxClauses, settings.maxChars)|
      ensures Earned(lens, s0, s, LeavesOfAll(trees), |trees|) && LeafClauses(LeavesOfAll(trees)) == clauses
      ensures ReadingOfAll(lens, trees) == JoinLeaves(lens, LeavesOfAll(trees))
    {
      var batches := Batches(clauses, settings.maxClauses, settings.maxChars);
      BatchesFit(clauses, settings.maxClauses, settings.maxChars);
      TreesEarn(lens, Line(), trees, batches, settings.maxSplitDepth, s0);
      TreesRead(lens, Line(), trees, batches, settings.maxSplitDepth, s0);
      assert batches[..|trees|] == batches;
    }

    lemma DocumentLoses(clauses: seq<ClauseInput>, trees: seq<Tree>, s0: RunStats, s: RunStats, lens: Lens)
      requires SeenBy(lens) && Worked(clauses, trees, s0, s, lens) && trees != [] && !IsRead(trees[|trees| - 1])
      ensures LostLast(lens, s)
    {
      var n := |trees| - 1;
      forall call: nat ensures lens.usable(call) ==> service(call).Answered? { UsableIsAnswered(lens, call); }
      TreeLoses(lens, Line(), trees[n], Batches(clauses, settings.maxClauses, settings.maxChars)[n],
                settings.maxSplitDepth, StatsPastAll(lens, Line(), s0, trees[..n]));
    }

    lemma DocumentIsRead(clauses: seq<ClauseInput>, trees: seq<Tree>, s0: RunStats, s: RunStats, lens: Lens)
      requires lens == Sees() && Worked(clauses, trees, s0, s, lens) && (trees != [] ==> IsRead(trees[|trees| - 1]))
      requires |trees| == |Batches(clauses, settings.maxClauses, settings.maxChars)|
      ensures var e, leaves := ReadingOfAll(lens, trees), LeavesOfAll(trees);
        && AccountsFor(e, clauses) && e == JoinLeaves(lens, leaves) && clauses == LeafClauses(leaves)
        && InCallOrder(lens, leaves, s0.breaker.calls, s.breaker.calls) && s.mentions == s0.mentions
        && s.discards == AddStats(s0.discards, e.stats) && |leaves| == s.splitRetries - s0.splitRetries + |trees|
    {
      DocumentEarns(clauses, trees, s0, s, lens);
      LeavesAccount(Reader(vocabulary, decode, service), LeavesOfAll(trees));
      TallyIsJoined(lens, s0.discards, LeavesOfAll(trees));
    }

    /** Cut a document into batches and send them. */
    method SendDocument(clauses: seq<ClauseInput>, ghost lens: Lens)
        returns (r: Result<Extraction, string>, batchCount: nat, ghost trees: seq<Tree>)
      requires SeenBy(lens) && Circuit.Sound(setup, stats.breaker)
      modifies this
      ensures batchCount == |Batches(clauses, settings.maxClauses, settings.maxChars)|
      ensures Worked(clauses, trees, Counted(old(stats)), stats, lens)
      ensures r.Ok? ==> |trees| == batchCount && r.value == ReadingOfAll(lens, trees)
      ensures r.Ok? && trees != [] ==> IsRead(trees[|trees| - 1])
      ensures r.Err? ==> trees != [] && !IsRead(trees[|trees| - 1])
    {
      var batches := SplitBatch(clauses, settings.maxClauses, settings.maxChars);
      batchCount := |batches|;
      BatchesFit(clauses, settings.maxClauses, settings.maxChars);
      stats := Counted(stats);
      r, trees := ExtractBatches(batches, 0, |clauses|, lens);
    }

    /** A whole document; also returns how many batches it was cut into. */
    method ExtractDocument(clauses: seq<ClauseInput>)
        returns (r: Result<Extraction, string>, batchCount: nat, ghost leaves: seq<Leaf>, ghost trees: seq<Tree>)
      requires Circuit.Sound(setup, stats.breaker)
      modifies this
      ensures Circuit.Sound(setup, stats.breaker) && stats.breaker.docs == old(stats).breaker.docs + 1
      ensures var batches := Batches(clauses, settings.maxClauses, settings.maxChars);
        && batchCount == |batches|
        && stats.breaker.calls - old(stats).breaker.calls <= CallBound(batches, settings.maxSplitDepth)
        && |trees| <= |batches| && Grow(Sees(), Line(), trees, batches, settings.maxSplitDepth, Counted(old(stats)))
      ensures r.Ok? ==>
        && AccountsFor(r.value, clauses)
        && r.value == JoinLeaves(Sees(), leaves) && clauses == LeafClauses(leaves)
        && InCallOrder(Sees(), leaves, old(stats).breaker.calls, stats.breaker.calls)
        && stats.mentions == old(stats).mentions + |r.value.mentions|
        && stats.discards == AddStats(old(stats).discards, r.value.stats)
        && |leaves| == stats.splitRetries - old(stats).splitRetries + batchCount
        && leaves == LeavesOfAll(trees) && |trees| == batchCount
      ensures r.Err? ==> LastCallFailed(Sees()) && trees != [] && !IsRead(trees[|trees| - 1])
    {
      ghost var before := stats;
      r, batchCount, trees := SendDocument(clauses, Sees());
      leaves := LeavesOfAll(trees);
      DocumentSpends(clauses, trees, Counted(before), stats, Sees());
      if r.Err? {
        DocumentLoses(clauses, trees, Counted(before), stats, Sees());
      } else {
        DocumentIsRead(clauses, trees, Counted(before), stats, Sees());
        stats := stats.(mentions := stats.mentions + |r.value.mentions|);
      }
    }
  }
}
