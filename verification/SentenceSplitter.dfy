/** Cutting a text into sentences. `Ink` ignores whitespace, so "same ink" means that no visible
    character was lost, invented or moved.
  */
module SentenceSplitter {
  import opened Common
  import opened Text

  /** One of the five sentence enders, full-width or half-width. */
  predicate IsEnder(c: char) {
    var n := c as int;
    n == 0x3002 || n == 0xFF01 || n == 0xFF1F || n == 0xFF1B || n == 0x3B
  }

  predicate OnlyEnders(s: string) {
    forall i :: 0 <= i < |s| ==> IsEnder(s[i])
  }

  function DropEnders(s: string): string {
    if s != "" && IsEnder(s[0]) then DropEnders(s[1..]) else s
  }

  lemma {:induction false} DropEndersAppend(a: string, b: string)
    ensures DropEnders(a) != "" ==> DropEnders(a + b) == DropEnders(a) + b
    ensures DropEnders(a) == "" ==> DropEnders(a + b) == DropEnders(b)
  {
    if a == "" {
      assert a + b == b;
    } else if IsEnder(a[0]) {
      assert (a + b)[1..] == a[1..] + b;
      DropEndersAppend(a[1..], b);
    }
  }

  // ----- sentences -----

  datatype Cutting = Cutting(sentences: seq<string>, start: nat)

  /** A closed segment becomes a sentence, unless it is a bare ender, which joins the sentence before it. */
  function CloseSegment(sentences: seq<string>, segment: string): seq<string> {
    if segment != "" && !OnlyEnders(segment) then sentences + [segment]
    else if segment != "" && sentences != [] then
      sentences[..|sentences| - 1] + [sentences[|sentences| - 1] + segment]
    else sentences
  }

  /** The state after scanning the first i characters. */
  function CutTo(text: string, i: nat): (c: Cutting)
    requires i <= |text|
    ensures c.start <= i
  {
    if i == 0 then Cutting([], 0) else
    var c := CutTo(text, i - 1);
    if IsEnder(text[i - 1]) then Cutting(CloseSegment(c.sentences, Strip(text[c.start..i])), i) else c
  }

  function Sentences(text: string): seq<string> {
    var c := CutTo(text, |text|);
    var tail := Strip(text[c.start..]);
    if tail != "" then c.sentences + [tail] else c.sentences
  }

  method SplitSentences(text: string) returns (sentences: seq<string>)
    ensures sentences == Sentences(text)
  {
    sentences := [];
    var start := 0;
    for i := 0 to |text|
      invariant 0 <= start <= i
      invariant Cutting(sentences, start) == CutTo(text, i)
    {
      if IsEnder(text[i]) {
        var segment := Strip(text[start..i + 1]);
        if segment != "" && !OnlyEnders(segment) {
          sentences := sentences + [segment];
        } else if segment != "" && sentences != [] {
          sentences := sentences[..|sentences| - 1] + [sentences[|sentences| - 1] + segment];
        }
        start := i + 1;
      }
    }
    var tail := Strip(text[start..]);
    if tail != "" {
      sentences := sentences + [tail];
    }
  }

  ghost predicate AllTrimmed(sentences: seq<string>) {
    forall i :: 0 <= i < |sentences| ==> Trimmed(sentences[i])
  }

  predicate NoEnder(s: string) {
    forall i :: 0 <= i < |s| ==> !IsEnder(s[i])
  }

  lemma {:induction false} StripLeftSuffix(s: string)
    ensures StripLeft(s) == s[|s| - |StripLeft(s)|..]
  {
    if s != "" && IsSpace(s[0]) { StripLeftSuffix(s[1..]); }
  }

  lemma InkOfOne(c: char)
    requires !IsSpace(c)
    ensures Ink([c]) == [c]
  {
    assert [c][..0] == "" && Ink("") == "";
  }

  /** Stripping a text that ends in ink only drops leading white space. */
  lemma StripKeepsEnd(body: string, ender: char) returns (p: nat)
    requires !IsSpace(ender)
    ensures p <= |body| && Strip(body + [ender]) == body[p..] + [ender]
    ensures p < |body| ==> !IsSpace(body[p])
  {
    var u := body + [ender];
    var left := StripLeft(u);
    InkStripLeft(u);
    InkMembers(u, ender);
    assert u[|body|] == ender;
    assert left != "";
    StripLeftSuffix(u);
    p := |u| - |left|;
    assert left == u[p..] == body[p..] + [ender];
    assert left[|left| - 1] == ender;
  }

  lemma BareEnderIffNoInk(body: string, ender: char, p: nat, segment: string)
    requires NoEnder(body) && IsEnder(ender) && p <= |body| && segment == body[p..] + [ender]
    requires p < |body| ==> !IsSpace(body[p])
    requires Ink(segment) == Ink(body) + [ender]
    ensures OnlyEnders(segment) <==> Ink(body) == ""
  {
    if p < |body| {
      assert segment[0] == body[p];
      InkMembers(body, body[p]);
    } else {
      InkOfOne(ender);
      assert segment == [ender];
      assert |Ink(segment)| == |Ink(body)| + 1;
    }
  }

  /** A segment closed by an ender is either that bare ender or starts with a visible non-ender. */
  lemma ClosedSegment(body: string, ender: char)
    requires NoEnder(body) && IsEnder(ender)
    ensures var segment := Strip(body + [ender]);
            && Trimmed(segment)
            && Ink(segment) == Ink(body) + [ender]
            && (OnlyEnders(segment) <==> Ink(body) == "")
            && (Ink(body) != "" ==> !IsEnder(Ink(body)[0]))
  {
    var p := StripKeepsEnd(body, ender);
    InkStrip(body + [ender]);
    InkAppend(body, [ender]);
    InkOfOne(ender);
    BareEnderIffNoInk(body, ender, p, Strip(body + [ender]));
    if Ink(body) != "" {
      InkMembers(body, Ink(body)[0]);
    }
  }

  lemma ConcatGrownLast(parts: seq<string>, more: string)
    requires parts != []
    ensures Concat(parts[..|parts| - 1] + [parts[|parts| - 1] + more]) == Concat(parts) + more
  {
    var init, last := parts[..|parts| - 1], parts[|parts| - 1];
    ConcatSnoc(init, last + more);
    Associative(Concat(init), last, more);
  }

  lemma GrownLastTrimmed(parts: seq<string>, more: string)
    requires parts != [] && AllTrimmed(parts) && Trimmed(more)
    ensures AllTrimmed(parts[..|parts| - 1] + [parts[|parts| - 1] + more])
  {
    var last := parts[|parts| - 1];
    var grown := last + more;
    assert grown[0] == last[0] && grown[|grown| - 1] == more[|more| - 1];
  }

  lemma CloseSegmentKeepsInk(sentences: seq<string>, segment: string)
    requires AllTrimmed(sentences) && Trimmed(segment)
    ensures var closed := CloseSegment(sentences, segment);
            && AllTrimmed(closed)
            && (!OnlyEnders(segment) || sentences != [] ==>
                  closed != [] && Ink(Concat(closed)) == Ink(Concat(sentences)) + Ink(segment))
            && (OnlyEnders(segment) && sentences == [] ==> closed == [])
  {
    if !OnlyEnders(segment) {
      ConcatSnoc(sentences, segment);
      InkAppend(Concat(sentences), segment);
    } else if sentences != [] {
      ConcatGrownLast(sentences, segment);
      InkAppend(Concat(sentences), segment);
      GrownLastTrimmed(sentences, segment);
    }
  }

  /** The sentences account for the visible characters of `done`, leading enders aside. */
  ghost predicate Accounts(sentences: seq<string>, done: string) {
    && AllTrimmed(sentences)
    && Ink(Concat(sentences)) == DropEnders(Ink(done))
    && (sentences == [] <==> DropEnders(Ink(done)) == "")
  }

  lemma AccountsMore(sentences: seq<string>, done: string, closed: seq<string>, more: string)
    requires Accounts(sentences, done) && AllTrimmed(closed) && closed != []
    requires Ink(Concat(closed)) == Ink(Concat(sentences)) + Ink(more)
    requires sentences == [] ==> Ink(more) != "" && !IsEnder(Ink(more)[0])
    ensures Accounts(closed, done + more)
  {
    InkAppend(done, more);
    DropEndersAppend(Ink(done), Ink(more));
    assert Concat([]) == "";
  }

  lemma AccountsBareEnder(done: string, more: string)
    requires DropEnders(Ink(done)) == "" && |Ink(more)| == 1 && IsEnder(Ink(more)[0])
    ensures DropEnders(Ink(done + more)) == ""
  {
    InkAppend(done, more);
    DropEndersAppend(Ink(done), Ink(more));
  }

  lemma ClosingKeepsInk(sentences: seq<string>, done: string, body: string, ender: char)
    requires Accounts(sentences, done) && NoEnder(body) && IsEnder(ender)
    ensures Accounts(CloseSegment(sentences, Strip(body + [ender])), done + (body + [ender]))
  {
    var segment, more := Strip(body + [ender]), body + [ender];
    ClosedSegment(body, ender);
    InkStrip(more);
    CloseSegmentKeepsInk(sentences, segment);
    if OnlyEnders(segment) && sentences == [] {
      AccountsBareEnder(done, more);
    } else {
      AccountsMore(sentences, done, CloseSegment(sentences, segment), more);
    }
  }

  lemma OneMoreChar(text: string, start: nat, i: nat)
    requires start <= i < |text|
    ensures text[start..i + 1] == text[start..i] + [text[i]]
    ensures text[..i + 1] == text[..start] + text[start..i + 1]
  {
  }

  lemma {:induction false} CutToKeepsInk(text: string, i: nat)
    requires i <= |text|
    ensures var c := CutTo(text, i); Accounts(c.sentences, text[..c.start]) && NoEnder(text[c.start..i])
  {
    if i > 0 {
      CutToKeepsInk(text, i - 1);
      var c := CutTo(text, i - 1);
      OneMoreChar(text, c.start, i - 1);
      if IsEnder(text[i - 1]) {
        ClosingKeepsInk(c.sentences, text[..c.start], text[c.start..i - 1], text[i - 1]);
      }
    }
  }

  /** Text that ends no sentence, then the enders that end it; only the last sentence may lack them. */
  predicate EndsOnce(sentence: string, k: nat) {
    && 0 < k <= |sentence|
    && (forall i :: 0 <= i < k ==> sentence[i] !in "。！？；;")
    && forall i :: k <= i < |sentence| ==> sentence[i] in "。！？；;"
  }

  ghost predicate Ended(sentence: string) {
    exists k: nat :: EndsOnce(sentence, k) && k < |sentence|
  }

  ghost predicate Open(sentence: string) {
    EndsOnce(sentence, |sentence|)
  }

  ghost predicate AllEnded(sentences: seq<string>) {
    forall i :: 0 <= i < |sentences| ==> Ended(sentences[i])
  }

  lemma TheEnders(c: char)
    ensures IsEnder(c) <==> c in "。！？；;"
  {
  }

  lemma NewSentenceEndsOnce(body: string, p: nat, ender: char)
    requires NoEnder(body) && IsEnder(ender) && p < |body|
    ensures EndsOnce(body[p..] + [ender], |body| - p)
  {
    var sentence, k := body[p..] + [ender], |body| - p;
    forall i | 0 <= i < |sentence| ensures sentence[i] in "。！？；;" <==> i >= k { TheEnders(sentence[i]); }
  }

  lemma ClosingEndsOnce(sentences: seq<string>, body: string, ender: char)
    requires AllEnded(sentences) && NoEnder(body) && IsEnder(ender)
    ensures AllEnded(CloseSegment(sentences, Strip(body + [ender])))
  {
    var p := StripKeepsEnd(body, ender);
    var segment := Strip(body + [ender]);
    if p < |body| {
      NewSentenceEndsOnce(body, p, ender);
      assert segment[0] == body[p] && Ended(segment);
    } else if sentences != [] {
      assert segment == [ender];
      TheEnders(ender);
      var last := sentences[|sentences| - 1];
      var k: nat :| EndsOnce(last, k) && k < |last|;
      assert EndsOnce(last + segment, k);
      assert Ended(last + segment);
    }
  }

  lemma {:induction false} CutToEndsOnce(text: string, i: nat)
    requires i <= |text|
    ensures AllEnded(CutTo(text, i).sentences)
  {
    if i > 0 {
      CutToEndsOnce(text, i - 1);
      CutToKeepsInk(text, i - 1);
      var c := CutTo(text, i - 1);
      OneMoreChar(text, c.start, i - 1);
      if IsEnder(text[i - 1]) { ClosingEndsOnce(c.sentences, text[c.start..i - 1], text[i - 1]); }
    }
  }

  lemma TailIsOpen(rest: string)
    requires NoEnder(rest) && Strip(rest) != ""
    ensures Open(Strip(rest))
  {
    var left, right := StripCuts(rest);
    var tail := Strip(rest);
    forall i | 0 <= i < |tail| ensures tail[i] !in "。！？；;" {
      TheEnders(tail[i]);
      assert tail[i] == rest[|left| + i];
    }
  }

  /** Sentences are cut exactly after runs of enders; only the last may lack its run. */
  lemma SentencesEndOnce(text: string)
    ensures var sentences := Sentences(text);
      sentences != [] ==>
        && AllEnded(sentences[..|sentences| - 1])
        && (Ended(sentences[|sentences| - 1]) || Open(sentences[|sentences| - 1]))
  {
    var c := CutTo(text, |text|);
    CutToEndsOnce(text, |text|);
    CutToKeepsInk(text, |text|);
    assert text[c.start..|text|] == text[c.start..];
    if Strip(text[c.start..]) != "" { TailIsOpen(text[c.start..]); }
  }

  lemma OpenTail(rest: string)
    requires NoEnder(rest)
    ensures Ink(Strip(rest)) == Ink(rest)
    ensures Strip(rest) != "" ==> Trimmed(Strip(rest)) && Ink(rest) != "" && !IsEnder(Ink(rest)[0])
  {
    InkStrip(rest);
    StripResult(rest);
    if Strip(rest) != "" {
      InkMembers(Strip(rest), Strip(rest)[0]);
      InkMembers(rest, Ink(rest)[0]);
    }
  }

  lemma TailAccounts(sentences: seq<string>, done: string, rest: string, tail: string)
    requires Accounts(sentences, done) && NoEnder(rest) && tail == Strip(rest)
    ensures tail == "" ==> Ink(done + rest) == Ink(done)
    ensures tail != "" ==> Accounts(sentences + [tail], done + rest)
  {
    OpenTail(rest);
    InkAppend(done, rest);
    if tail != "" {
      ConcatSnoc(sentences, tail);
      InkAppend(Concat(sentences), tail);
      AccountsMore(sentences, done, sentences + [tail], rest);
    }
  }

  /** Splitting into sentences keeps every visible character but a leading run of enders. */
  lemma SentencesKeepInk(text: string)
    ensures AllTrimmed(Sentences(text))
    ensures Ink(Concat(Sentences(text))) == DropEnders(Ink(text))
  {
    CutToKeepsInk(text, |text|);
    var c := CutTo(text, |text|);
    assert text[c.start..|text|] == text[c.start..] && text == text[..c.start] + text[c.start..];
    TailAccounts(c.sentences, text[..c.start], text[c.start..], Strip(text[c.start..]));
  }
}
