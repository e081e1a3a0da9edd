/** What a document's extraction holds, leaf by leaf: whose mentions, in which order, with which model and which
    counts.
  */
module DocumentReading {
  import opened Common
  import opened Text
  import opened Entities
  import opened Extractor
  import Documents

  // ----- truncated answers -----

  function Places(s: string, c: char): set<nat> {
    set i: nat | i < |s| && s[i] == c
  }

  lemma {:induction false} CountIsPlaces(s: string, c: char)
    ensures CountOf(s, c) == |Places(s, c)|
  {
    if s == "" {
      assert Places(s, c) == {};
    } else {
      var init := s[..|s| - 1];
      CountIsPlaces(init, c);
      assert Places(s, c) == Places(init, c) + if s[|s| - 1] == c then {|s| - 1} else {};
    }
  }

  lemma {:induction false} CountAppend(a: string, b: string, c: char)
    ensures CountOf(a + b, c) == CountOf(a, c) + CountOf(b, c)
    decreases |b|
  {
    if b == "" {
      assert a + b == a;
    } else {
      assert (a + b)[..|a + b| - 1] == a + b[..|b| - 1];
      CountAppend(a, b[..|b| - 1], c);
    }
  }

  lemma {:induction false} NoneInBlank(s: string, c: char)
    requires Blank(s) && !IsSpace(c)
    ensures CountOf(s, c) == 0
  {
    if s != "" { NoneInBlank(s[..|s| - 1], c); }
  }

  lemma BracesAreInk(content: string, left: string, text: string, right: string, c: char)
    requires content == left + text + right && Blank(left) && Blank(right) && !IsSpace(c)
    ensures CountOf(Strip(content), c) == CountOf(text, c)
  {
    var l, r := StripCuts(content);
    var stripped := Strip(content);
    CountAppend(left + text, right, c);
    CountAppend(left, text, c);
    CountAppend(l + stripped, r, c);
    CountAppend(l, stripped, c);
    NoneInBlank(left, c);
    NoneInBlank(right, c);
    NoneInBlank(l, c);
    NoneInBlank(r, c);
  }

  /** An answer is cut off when the provider says so or when its text opens more braces than it closes. */
  lemma TruncatedIff(finishReason: string, content: string, text: string, left: string, right: string)
    requires content == left + text + right && Blank(left) && Blank(right) && (text == "" || Trimmed(text))
    ensures IsTruncated(finishReason, content) <==>
              finishReason == "length" || |Places(text, '{')| > |Places(text, '}')|
  {
    BracesAreInk(content, left, text, right, '{');
    BracesAreInk(content, left, text, right, '}');
    CountIsPlaces(text, '{');
    CountIsPlaces(text, '}');
  }

  // ----- the leaves together -----

  datatype Counter =
    | RefsSent | RefsReturned | RefsMissing | RefsUnknown | RawEntities | UnknownTypes | InvalidNames | Duplicates
    | OverLimit | MentionsKept | DistinctEntities

  function Count(c: Counter, s: Stats): int {
    match c
    case RefsSent => s.refsSent
    case RefsReturned => s.refsReturned
    case RefsMissing => s.refsMissing
    case RefsUnknown => s.refsUnknown
    case RawEntities => s.rawEntities
    case UnknownTypes => s.unknownTypes
    case InvalidNames => s.invalidNames
    case Duplicates => s.duplicates
    case OverLimit => s.overLimit
    case MentionsKept => s.mentions
    case DistinctEntities => s.entities
  }

  /** The leaves' mentions, one leaf after the other. */
  function MentionsInOrder(lens: Lens, leaves: seq<Leaf>): seq<Mention> {
    if leaves == [] then [] else lens.read(leaves[0]).mentions + MentionsInOrder(lens, leaves[1..])
  }

  function CountInAll(lens: Lens, leaves: seq<Leaf>, c: Counter): int {
    if leaves == [] then 0 else Count(c, lens.read(leaves[0]).stats) + CountInAll(lens, leaves[1..], c)
  }

  lemma CountsAdd(c: Counter, a: Stats, b: Stats)
    ensures Count(c, AddStats(a, b)) == Count(c, a) + Count(c, b)
  {
  }

  lemma {:induction false} InOrderSnoc(lens: Lens, leaves: seq<Leaf>, last: Leaf, c: Counter)
    ensures MentionsInOrder(lens, leaves + [last]) == MentionsInOrder(lens, leaves) + lens.read(last).mentions
    ensures CountInAll(lens, leaves + [last], c) == CountInAll(lens, leaves, c) + Count(c, lens.read(last).stats)
  {
    var more := leaves + [last];
    if leaves == [] {
      assert more == [last] && more[1..] == [];
    } else {
      assert more[1..] == leaves[1..] + [last];
      InOrderSnoc(lens, leaves[1..], last, c);
    }
  }

  /** The joined extraction holds every leaf's mentions, in the order of the leaves, and its counters are their sums. */
  lemma {:induction false} LeavesAreJoined(lens: Lens, leaves: seq<Leaf>, c: Counter)
    ensures JoinLeaves(lens, leaves).mentions == MentionsInOrder(lens, leaves)
    ensures Count(c, JoinLeaves(lens, leaves).stats) == CountInAll(lens, leaves, c)
  {
    if leaves != [] {
      var init, last := leaves[..|leaves| - 1], leaves[|leaves| - 1];
      assert leaves == init + [last];
      LeavesAreJoined(lens, init, c);
      InOrderSnoc(lens, init, last, c);
      CountsAdd(c, JoinLeaves(lens, init).stats, lens.read(last).stats);
    }
  }

  /** A usable leaf contributes what its call's answer says of its batch, every mention stamped with the leaf's model.
    */
  lemma LeafReads(reader: Reader, leaf: Leaf, finishReason: string, content: string, items: seq<RawItem>)
    requires reader.service(leaf.call) == Answered(finishReason, content)
    requires !IsTruncated(finishReason, content) && reader.decode(content) == Items(items)
    ensures var parsed, read := Parsed(reader.vocabulary, RefMap(leaf.batch), items), LensOf(reader).read(leaf);
      && LensOf(reader).usable(leaf.call)
      && read.stats == parsed.stats && |read.mentions| == |parsed.mentions|
      && forall i :: 0 <= i < |parsed.mentions| ==>
           read.mentions[i]
             == Mention(parsed.mentions[i].clauseId, parsed.mentions[i].typeKey, parsed.mentions[i].name, leaf.model)
  {
    assert LensOf(reader).read(leaf) == LeafReading(reader, leaf);
  }

  /** An answer is unusable when its call broke, when it was cut off, or when it is not a list of items. */
  lemma UsableIff(reader: Reader, call: nat)
    ensures LensOf(reader).usable(call) <==>
      match reader.service(call)
      case Broken(_) => false
      case Answered(finishReason, content) => !IsTruncated(finishReason, content) && reader.decode(content).Items?
  {
  }

  // ----- a document among others fares as it would alone -----

  /** What a call brings its document. */
  function OutcomeOf(reader: Reader, call: nat, model: string): Documents.Outcome {
    match reader.service(call)
    case Broken(_) => Documents.CallFailed
    case Answered(_, content) =>
      if Usable(reader, call) then Documents.Read(reader.decode(content).items, model) else Documents.Garbled
  }

  /** The outcomes of a tree's requests, in the order they are made. */
  function Outcomes(reader: Reader, t: Tree): seq<Documents.Outcome> {
    match t
    case Read(_, call, model) => [OutcomeOf(reader, call, model)]
    case Lost(_, call) => [OutcomeOf(reader, call, "")]
    case Halved(_, call, left, right) =>
      [OutcomeOf(reader, call, "")] + (Outcomes(reader, left) + Outcomes(reader, right))
    case LostHalf(_, call, left) => [OutcomeOf(reader, call, "")] + Outcomes(reader, left)
  }

  function AfterAll(cfg: Documents.Setup, w: Documents.Work, outcomes: seq<Documents.Outcome>): Documents.Work
    decreases |outcomes|
  {
    if outcomes == [] || w.todo == [] then w
    else AfterAll(cfg, Documents.AfterOutcome(cfg, w, outcomes[0]), outcomes[1..])
  }

  lemma {:induction false} AfterAllAppend(cfg: Documents.Setup, w: Documents.Work, a: seq<Documents.Outcome>,
                                          b: seq<Documents.Outcome>)
    ensures AfterAll(cfg, w, a + b) == AfterAll(cfg, AfterAll(cfg, w, a), b)
    decreases |a|
  {
    if a == [] {
      assert a + b == b;
    } else {
      assert (a + b)[1..] == a[1..] + b;
      if w.todo != [] { AfterAllAppend(cfg, Documents.AfterOutcome(cfg, w, a[0]), a[1..], b); }
    }
  }

  lemma {:induction false} FailedStays(cfg: Documents.Setup, w: Documents.Work, outcomes: seq<Documents.Outcome>)
    requires w.failed
    ensures AfterAll(cfg, w, outcomes).failed
    decreases |outcomes|
  {
    if outcomes != [] && w.todo != [] { FailedStays(cfg, Documents.AfterOutcome(cfg, w, outcomes[0]), outcomes[1..]); }
  }

  /** The document's part was read: its clauses are covered and the leaves' joined reading is merged in. */
  ghost predicate PartRead(lens: Lens, w: Documents.Work, w': Documents.Work, batch: seq<ClauseInput>,
                           leaves: seq<Leaf>)
  {
    && w.todo != [] && w'.todo == w.todo[1..] && w'.failed == w.failed
    && w'.covered == w.covered + batch
    && w'.merged == Joined(w.merged, JoinLeaves(lens, leaves))
  }

  lemma OneOutcome(cfg: Documents.Setup, w: Documents.Work, o: Documents.Outcome)
    requires w.todo != []
    ensures AfterAll(cfg, w, [o]) == Documents.AfterOutcome(cfg, w, o)
  {
    assert [o][1..] == [];
  }

  lemma ReadIsFollowed(cfg: Documents.Setup, reader: Reader, w: Documents.Work, batch: seq<ClauseInput>, depth: nat,
                       call: nat, model: string)
    requires cfg.vocabulary == reader.vocabulary && LensOf(reader).usable(call)
    requires w.todo != [] && w.todo[0] == Documents.Part(batch, depth)
    ensures PartRead(LensOf(reader), w, AfterAll(cfg, w, [OutcomeOf(reader, call, model)]), batch,
                     [Leaf(batch, call, model)])
  {
    var leaf, lens, none := Leaf(batch, call, model), LensOf(reader), [];
    OneOutcome(cfg, w, OutcomeOf(reader, call, model));
    assert lens.read(leaf) == LeafReading(reader, leaf);
    LeavesSnoc(lens, none, leaf);
    assert none + [leaf] == [leaf];
    JoinedAssociative(lens.read(leaf), lens.read(leaf), lens.read(leaf));
  }

  lemma HalvesAreNext(cfg: Documents.Setup, w: Documents.Work, batch: seq<ClauseInput>, depth: nat)
    requires w.todo != [] && w.todo[0] == Documents.Part(batch, depth) && |batch| > 1 && depth < cfg.maxSplitDepth
    ensures Documents.AfterOutcome(cfg, w, Documents.Garbled)
         == w.(todo := [Documents.Part(batch[..|batch| / 2], depth + 1),
                        Documents.Part(batch[|batch| / 2..], depth + 1)] + w.todo[1..])
  {
  }

  lemma BothHalvesRead(lens: Lens, w: Documents.Work, w1: Documents.Work, w2: Documents.Work, w3: Documents.Work,
                       batch: seq<ClauseInput>, left: seq<ClauseInput>, right: seq<ClauseInput>, depth: nat,
                       xs: seq<Leaf>, ys: seq<Leaf>)
    requires w.todo != [] && left + right == batch
    requires w1 == w.(todo := [Documents.Part(left, depth), Documents.Part(right, depth)] + w.todo[1..])
    requires PartRead(lens, w1, w2, left, xs) && PartRead(lens, w2, w3, right, ys)
    ensures PartRead(lens, w, w3, batch, xs + ys)
  {
    assert w1.todo[1..] == [Documents.Part(right, depth)] + w.todo[1..];
    assert w3.todo == w.todo[1..];
    Associative(w.covered, left, right);
    JoinLeavesAppend(lens, xs, ys);
    JoinedAssociative(w.merged, JoinLeaves(lens, xs), JoinLeaves(lens, ys));
  }

  /** The outcome o of the batch's own request, then those of its first half. */
  lemma FirstHalfFollows(cfg: Documents.Setup, w: Documents.Work, batch: seq<ClauseInput>, depth: nat,
                         o: Documents.Outcome, xs: seq<Documents.Outcome>) returns (w1: Documents.Work)
    requires w.todo != [] && w.todo[0] == Documents.Part(batch, depth) && |batch| > 1 && depth < cfg.maxSplitDepth
    requires o == Documents.Garbled
    ensures w1 == w.(todo := [Documents.Part(batch[..|batch| / 2], depth + 1),
                              Documents.Part(batch[|batch| / 2..], depth + 1)] + w.todo[1..])
    ensures w1.todo[0] == Documents.Part(batch[..|batch| / 2], depth + 1)
    ensures w1.todo[1..] == [Documents.Part(batch[|batch| / 2..], depth + 1)] + w.todo[1..]
    ensures AfterAll(cfg, w, [o] + xs) == AfterAll(cfg, w1, xs)
  {
    HalvesAreNext(cfg, w, batch, depth);
    OneOutcome(cfg, w, o);
    w1 := AfterAll(cfg, w, [o]);
    AfterAllAppend(cfg, w, [o], xs);
  }

  lemma UnusableIsGarbled(reader: Reader, call: nat)
    requires reader.service(call).Answered? && !LensOf(reader).usable(call)
    ensures OutcomeOf(reader, call, "") == Documents.Garbled
  {
  }

  lemma LostIsFollowed(cfg: Documents.Setup, reader: Reader, w: Documents.Work, batch: seq<ClauseInput>, depth: nat,
                       call: nat)
    requires w.todo != [] && w.todo[0] == Documents.Part(batch, depth)
    requires reader.service(call).Broken? || (!LensOf(reader).usable(call) && !Documents.Splittable(cfg, w.todo[0]))
    ensures AfterAll(cfg, w, [OutcomeOf(reader, call, "")]).failed
  {
    OneOutcome(cfg, w, OutcomeOf(reader, call, ""));
  }

  /** What a tree's outcomes do to a document that has the batch to send next. */
  ghost predicate Follows(cfg: Documents.Setup, reader: Reader, t: Tree, batch: seq<ClauseInput>, w: Documents.Work) {
    var w' := AfterAll(cfg, w, Outcomes(reader, t));
    if IsRead(t) then PartRead(LensOf(reader), w, w', batch, LeavesOf(t)) else w'.failed
  }

  lemma OutcomesOfHalved(cfg: Documents.Setup, reader: Reader, batch: seq<ClauseInput>, depth: nat, call: nat,
                         left: Tree, right: Tree, w: Documents.Work, w1: Documents.Work)
    requires w.todo != [] && w.todo[0] == Documents.Part(batch, depth) && |batch| > 1 && depth < cfg.maxSplitDepth
    requires reader.service(call).Answered? && !LensOf(reader).usable(call)
    requires w1 == w.(todo := [Documents.Part(batch[..|batch| / 2], depth + 1),
                               Documents.Part(batch[|batch| / 2..], depth + 1)] + w.todo[1..])
    ensures AfterAll(cfg, w, Outcomes(reader, Halved(batch, call, left, right)))
         == AfterAll(cfg, AfterAll(cfg, w1, Outcomes(reader, left)), Outcomes(reader, right))
  {
    var xs, ys := Outcomes(reader, left), Outcomes(reader, right);
    UnusableIsGarbled(reader, call);
    var first := FirstHalfFollows(cfg, w, batch, depth, OutcomeOf(reader, call, ""), xs + ys);
    AfterAllAppend(cfg, w1, xs, ys);
  }

  lemma HalvedIsFollowed(cfg: Documents.Setup, reader: Reader, batch: seq<ClauseInput>, depth: nat, call: nat,
                         left: Tree, right: Tree, w: Documents.Work, w1: Documents.Work, w2: Documents.Work)
    requires w.todo != [] && w.todo[0] == Documents.Part(batch, depth) && |batch| > 1 && depth < cfg.maxSplitDepth
    requires IsRead(left) && reader.service(call).Answered? && !LensOf(reader).usable(call)
    requires w1 == w.(todo := [Documents.Part(batch[..|batch| / 2], depth + 1),
                               Documents.Part(batch[|batch| / 2..], depth + 1)] + w.todo[1..])
    requires w2 == AfterAll(cfg, w1, Outcomes(reader, left))
    requires Follows(cfg, reader, left, batch[..|batch| / 2], w1)
    requires Follows(cfg, reader, right, batch[|batch| / 2..], w2)
    ensures Follows(cfg, reader, Halved(batch, call, left, right), batch, w)
  {
    OutcomesOfHalved(cfg, reader, batch, depth, call, left, right, w, w1);
    if IsRead(right) {
      BothHalvesRead(LensOf(reader), w, w1, w2, AfterAll(cfg, w2, Outcomes(reader, right)), batch,
                     batch[..|batch| / 2], batch[|batch| / 2..], depth + 1, LeavesOf(left), LeavesOf(right));
    }
  }

  lemma LostHalfIsFollowed(cfg: Documents.Setup, reader: Reader, batch: seq<ClauseInput>, call: nat, left: Tree,
                           w: Documents.Work, w1: Documents.Work)
    requires !IsRead(left) && Follows(cfg, reader, left, batch[..|batch| / 2], w1)
    requires AfterAll(cfg, w, [OutcomeOf(reader, call, "")] + Outcomes(reader, left))
          == AfterAll(cfg, w1, Outcomes(reader, left))
    ensures Follows(cfg, reader, LostHalf(batch, call, left), batch, w)
  {
  }

  /** Given the outcomes of a tree's requests, a document does what the extractor does with that batch: it has read the
      batch and holds the leaves' joined reading if the tree is read, and it has failed if not.
    */
  lemma {:induction false} TreeIsFollowed(cfg: Documents.Setup, reader: Reader, p: Provider, t: Tree,
                                          batch: seq<ClauseInput>, depth: nat, s: RunStats, w: Documents.Work)
    requires cfg.vocabulary == reader.vocabulary && p.service == reader.service && depth <= cfg.maxSplitDepth
    requires Grows(LensOf(reader), p, t, batch, cfg.maxSplitDepth - depth, s)
    requires w.todo != [] && w.todo[0] == Documents.Part(batch, depth)
    ensures Follows(cfg, reader, t, batch, w)
    decreases t
  {
    match t
    case Read(_, call, model) => ReadIsFollowed(cfg, reader, w, batch, depth, call, model);
    case Lost(_, call) => LostIsFollowed(cfg, reader, w, batch, depth, call);
    case Halved(_, call, left, right) =>
      var front, back := batch[..|batch| / 2], batch[|batch| / 2..];
      UnusableIsGarbled(reader, call);
      var w1 := FirstHalfFollows(cfg, w, batch, depth, OutcomeOf(reader, call, ""), []);
      var retrying := Retrying(Asked(p, s));
      TreeIsFollowed(cfg, reader, p, left, front, depth + 1, retrying, w1);
      var w2 := AfterAll(cfg, w1, Outcomes(reader, left));
      TreeIsFollowed(cfg, reader, p, right, back, depth + 1, StatsPast(LensOf(reader), p, retrying, left), w2);
      HalvedIsFollowed(cfg, reader, batch, depth, call, left, right, w, w1, w2);
    case LostHalf(_, call, left) =>
      UnusableIsGarbled(reader, call);
      var w1 := FirstHalfFollows(cfg, w, batch, depth, OutcomeOf(reader, call, ""), Outcomes(reader, left));
      TreeIsFollowed(cfg, reader, p, left, batch[..|batch| / 2], depth + 1, Retrying(Asked(p, s)), w1);
      LostHalfIsFollowed(cfg, reader, batch, call, left, w, w1);
  }
}
