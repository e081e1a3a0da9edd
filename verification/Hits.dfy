/** One retrieved chunk and the keys the pipeline groups it by. */
module Hits {
  import opened Common

  /** What a hit's metadata dictionary holds, as far as the pipeline reads it. */
  datatype Value = Flag(on: bool) | Number(n: int) | Score(x: real) | Text(t: string)

  predicate Truthy(v: Value) {
    match v
    case Flag(on) => on
    case Number(n) => n != 0
    case Score(x) => x != 0.0
    case Text(t) => t != ""
  }

  datatype Hit = Hit(
    id: string,
    title: string,
    content: string,
    score: real,
    source: string,
    parentId: string,
    parentText: string,
    payload: map<string, Value>)

  const QUOTA_OVERFLOW_KEY := "quota_overflow"

  predicate Flagged(h: Hit) {
    QUOTA_OVERFLOW_KEY in h.payload && Truthy(h.payload[QUOTA_OVERFLOW_KEY])
  }

  /** Same chunk: equal in everything that identifies and locates it. */
  predicate SameChunk(a: Hit, b: Hit) {
    && a.id == b.id && a.title == b.title && a.source == b.source
    && a.parentId == b.parentId && a.parentText == b.parentText
  }

  /** The clause a hit belongs to; an unparented hit is its own clause. */
  function ClauseKey(h: Hit): string {
    if h.parentId != "" then h.parentId else h.id
  }

  /** The document a hit is charged to; an uncited hit is charged to itself. */
  function SourceKey(h: Hit): string {
    if h.source != "" then h.source else h.id
  }

  function Ids(hits: seq<Hit>): (r: seq<string>)
    ensures |r| == |hits|
  {
    seq(|hits|, i requires 0 <= i < |hits| => hits[i].id)
  }

  function ClauseKeys(hits: seq<Hit>): (r: seq<string>)
    ensures |r| == |hits|
  {
    seq(|hits|, i requires 0 <= i < |hits| => ClauseKey(hits[i]))
  }

  function SourceKeys(hits: seq<Hit>): (r: seq<string>)
    ensures |r| == |hits|
  {
    seq(|hits|, i requires 0 <= i < |hits| => SourceKey(hits[i]))
  }
}
