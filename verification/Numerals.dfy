/** Article numbers, written in Arabic or in Chinese numerals. */
module Numerals {
  import opened Common
  import opened Text

  function ChineseDigit(c: char): Option<nat> {
    match c
    case '零' => Some(0)
    case '〇' => Some(0)
    case '一' => Some(1)
    case '二' => Some(2)
    case '两' => Some(2)
    case '三' => Some(3)
    case '四' => Some(4)
    case '五' => Some(5)
    case '六' => Some(6)
    case '七' => Some(7)
    case '八' => Some(8)
    case '九' => Some(9)
    case _ => None
  }

  function ChineseUnit(c: char): Option<nat> {
    match c
    case '十' => Some(10)
    case '百' => Some(100)
    case '千' => Some(1000)
    case _ => None
  }

  predicate IsNumeralChar(c: char) {
    ChineseDigit(c).Some? || ChineseUnit(c).Some? || c == '万'
  }

  /** The parser's running state: finished 万-groups, the open group, and a pending digit. */
  datatype Tally = Tally(total: nat, section: nat, number: nat)

  function Read(t: Tally, c: char): Option<Tally> {
    if ChineseDigit(c).Some? then Some(t.(number := ChineseDigit(c).value))
    else if ChineseUnit(c).Some? then
      var count := if t.number == 0 then 1 else t.number;
      Some(Tally(t.total, t.section + count * ChineseUnit(c).value, 0))
    else if c == '万' then Some(Tally(t.total + (t.section + t.number) * 10000, 0, 0))
    else None
  }

  function ReadAll(t: Tally, s: string): Option<Tally> {
    if s == "" then Some(t) else
    var before := ReadAll(t, s[..|s| - 1]);
    if before.None? then None else Read(before.value, s[|s| - 1])
  }

  /** Python's digit test, the decimal value of the digits that have one (a superscript digit has none), and how many
      digits `int` converts: 4300, unless the interpreter is configured otherwise.
    */
  datatype Digits = Digits(accepts: char -> bool, decimal: char -> Option<nat>, limit: nat)

  /** ASCII digits are digits with their own values, and no Chinese numeral is a digit. */
  ghost predicate Sensible(d: Digits) {
    && (forall c :: IsDigit(c) ==> d.accepts(c) && d.decimal(c) == Some(DigitValue(c)))
    && (forall c :: IsNumeralChar(c) ==> !d.accepts(c))
  }

  predicate AllDigits(d: Digits, s: string) {
    forall i :: 0 <= i < |s| ==> d.accepts(s[i])
  }

  /** The value of a text of digits; none when one of them has no decimal value. */
  function IntOf(d: Digits, s: string): Option<nat> {
    if s == "" then Some(0)
    else
      match (IntOf(d, s[..|s| - 1]), d.decimal(s[|s| - 1]))
      case (Some(front), Some(last)) => Some(10 * front + last)
      case (_, _) => None
  }

  function Worth(t: Option<Tally>): Option<nat> {
    if t.None? then None else Some(t.value.total + t.value.section + t.value.number)
  }

  /** `int(s)` of a text of digits: its value, or the ValueError it raises. */
  function ToInt(d: Digits, s: string): Result<nat, string> {
    match IntOf(d, s)
    case None => Err("invalid literal for int()")
    case Some(n) => if |s| > d.limit then Err("Exceeds the limit for integer string conversion") else Ok(n)
  }

  /** What a call returns, or the error it raises. */
  function Interpret(d: Digits, s: string): Result<Option<nat>, string> {
    if s == "" then Ok(None)
    else if AllDigits(d, s) then
      match ToInt(d, s) case Ok(n) => Ok(Some(n)) case Err(error) => Err(error)
    else Ok(Worth(ReadAll(Tally(0, 0, 0), s)))
  }

  /** The value of a numeral, whitespace ignored. */
  function Parse(d: Digits, text: string): Result<Option<nat>, string> {
    Interpret(d, Ink(text))
  }

  lemma {:induction false} ReadPrefixFails(t: Tally, s: string, i: nat)
    requires i <= |s| && ReadAll(t, s[..i]).None?
    ensures ReadAll(t, s).None?
  {
    if i < |s| {
      assert s[..|s| - 1][..i] == s[..i];
      ReadPrefixFails(t, s[..|s| - 1], i);
    } else {
      assert s[..i] == s;
    }
  }

  method CnToInt(d: Digits, text: string) returns (r: Result<Option<nat>, string>)
    ensures r == Parse(d, text)
  {
    var s := Ink(text);
    if s == "" {
      return Ok(None);
    }
    if AllDigits(d, s) {
      var n := ToInt(d, s);
      return if n.Ok? then Ok(Some(n.value)) else Err(n.error);
    }
    var total: nat, section: nat, number: nat := 0, 0, 0;
    for i := 0 to |s|
      invariant ReadAll(Tally(0, 0, 0), s[..i]) == Some(Tally(total, section, number))
    {
      var ch := s[i];
      assert s[..i + 1][..i] == s[..i];
      if ChineseDigit(ch).Some? {
        number := ChineseDigit(ch).value;
      } else if ChineseUnit(ch).Some? {
        section := section + (if number == 0 then 1 else number) * ChineseUnit(ch).value;
        number := 0;
      } else if ch == '万' {
        section := (section + number) * 10000;
        total := total + section;
        section := 0;
        number := 0;
      } else {
        ReadPrefixFails(Tally(0, 0, 0), s, i + 1);
        return Ok(None);
      }
    }
    assert s[..|s|] == s;
    return Ok(Some(total + section + number));
  }

  lemma {:induction false} ReadAllRejects(t: Tally, s: string)
    ensures ReadAll(t, s).None? <==> exists i :: 0 <= i < |s| && !IsNumeralChar(s[i])
  {
    if s != "" {
      var init := s[..|s| - 1];
      ReadAllRejects(t, init);
      if exists i :: 0 <= i < |init| && !IsNumeralChar(init[i]) {
        var i :| 0 <= i < |init| && !IsNumeralChar(init[i]);
        assert !IsNumeralChar(s[i]);
      }
    }
  }

  /** A text is rejected exactly when nothing visible is left, or it is not all digits and some visible character is no
      Chinese numeral.
    */
  lemma ParseRejects(d: Digits, text: string)
    ensures Parse(d, text) == Ok(None) <==>
              || Ink(text) == ""
              || (!AllDigits(d, Ink(text)) && exists i :: 0 <= i < |Ink(text)| && !IsNumeralChar(Ink(text)[i]))
  {
    ReadAllRejects(Tally(0, 0, 0), Ink(text));
  }

  lemma {:induction false} IntOfFails(d: Digits, s: string)
    ensures IntOf(d, s).None? <==> exists i :: 0 <= i < |s| && d.decimal(s[i]).None?
  {
    if s != "" {
      var init := s[..|s| - 1];
      IntOfFails(d, init);
      if exists i :: 0 <= i < |init| && d.decimal(init[i]).None? {
        var i :| 0 <= i < |init| && d.decimal(init[i]).None?;
        assert d.decimal(s[i]).None?;
      }
    }
  }

  /** A text is not rejected but raises exactly when it is all digits, and one of them has no decimal value or there are
      more than `int` converts.
    */
  lemma ParseRaisesIff(d: Digits, text: string)
    ensures Parse(d, text).Err? <==>
              && AllDigits(d, Ink(text))
              && (|Ink(text)| > d.limit || exists i :: 0 <= i < |Ink(text)| && d.decimal(Ink(text)[i]).None?)
  {
    IntOfFails(d, Ink(text));
  }

  // ----- the texts callers send -----

  /** A character of the class the citation and section patterns match numerals with. */
  predicate IsArticleChar(c: char) {
    IsDigit(c) || IsNumeralChar(c)
  }

  predicate Citable(text: string) {
    forall i :: 0 <= i < |text| ==> IsArticleChar(text[i])
  }

  lemma {:induction false} SolidInk(s: string)
    requires forall i :: 0 <= i < |s| ==> !IsSpace(s[i])
    ensures Ink(s) == s
  {
    if s != "" {
      SolidInk(s[..|s| - 1]);
      assert s == s[..|s| - 1] + [s[|s| - 1]];
    }
  }

  lemma ArticleCharIsInk(c: char)
    requires IsArticleChar(c)
    ensures !IsSpace(c)
  {
  }

  lemma CitableInk(s: string)
    requires Citable(s)
    ensures Ink(s) == s
  {
    forall i | 0 <= i < |s| ensures !IsSpace(s[i]) {
      ArticleCharIsInk(s[i]);
    }
    SolidInk(s);
  }

  /** Of the texts the patterns let through, exactly those of too many ASCII digits raise. */
  lemma CitableRaisesIff(d: Digits, text: string)
    requires Sensible(d) && Citable(text)
    ensures Parse(d, text).Err? <==> |text| > d.limit && forall i :: 0 <= i < |text| ==> IsDigit(text[i])
  {
    CitableInk(text);
    ParseRaisesIff(d, text);
    if AllDigits(d, text) {
      forall i | 0 <= i < |text| ensures IsDigit(text[i]) && d.decimal(text[i]).Some? {
        assert d.accepts(text[i]) && IsArticleChar(text[i]);
      }
    }
  }

  /** n ones. */
  function Ones(n: nat): (r: string)
    ensures |r| == n && forall i :: 0 <= i < n ==> r[i] == '1'
  {
    seq(n, _ => '1')
  }

  /** One digit more than `int` converts is such a text. */
  lemma OverlongNumeralRaises(d: Digits)
    requires Sensible(d)
    ensures Citable(Ones(d.limit + 1)) && Parse(d, Ones(d.limit + 1)).Err?
  {
    CitableRaisesIff(d, Ones(d.limit + 1));
  }

  // ----- the canonical way to write a number -----

  function Digit(d: nat): (c: char)
    requires 1 <= d <= 9
    ensures ChineseDigit(c) == Some(d)
  {
    "一二三四五六七八九"[d - 1]
  }

  /** One group below 10000, with 零 for skipped places. */
  function Group(g: nat): string
    requires 1 <= g < 10000
    decreases g, 0
  {
    if g >= 1000 then [Digit(g / 1000), '千'] + Rest(g % 1000, 100)
    else if g >= 100 then [Digit(g / 100), '百'] + Rest(g % 100, 10)
    else if g >= 10 then [Digit(g / 10), '十'] + Rest(g % 10, 1)
    else [Digit(g)]
  }

  /** What follows a unit: nothing, the next places, or 零 and the next places when one is skipped. */
  function Rest(r: nat, next: nat): string
    requires r < 10000
    decreases r, 1
  {
    if r == 0 then "" else if r < next then "零" + Group(r) else Group(r)
  }

  /** Ten to nineteen open with 十 rather than 一十. */
  function Opening(g: nat): string
    requires 1 <= g < 10000
  {
    if 10 <= g < 20 then "十" + Rest(g % 10, 1) else Group(g)
  }

  function Canonical(n: nat): string
    requires n < 100_000_000
  {
    if n == 0 then "零"
    else if n < 10000 then Opening(n)
    else Opening(n / 10000) + "万" + Rest(n % 10000, 1000)
  }

  lemma {:induction false} ReadAppend(t: Tally, a: string, b: string)
    requires ReadAll(t, a).Some?
    ensures ReadAll(t, a + b) == ReadAll(ReadAll(t, a).value, b)
    decreases |b|
  {
    if b == "" {
      assert a + b == a;
    } else {
      assert (a + b)[..|a + b| - 1] == a + b[..|b| - 1];
      ReadAppend(t, a, b[..|b| - 1]);
    }
  }

  lemma ReadOne(t: Tally, c: char)
    ensures ReadAll(t, [c]) == Read(t, c)
  {
    assert [c][..0] == "";
  }

  lemma ReadTwo(t: Tally, d: nat, unit: char)
    requires 1 <= d <= 9 && ChineseUnit(unit).Some?
    ensures ReadAll(t, [Digit(d), unit]) == Some(Tally(t.total, t.section + d * ChineseUnit(unit).value, 0))
  {
    ReadOne(t, Digit(d));
    ReadOne(t.(number := d), unit);
    assert [Digit(d), unit] == [Digit(d)] + [unit];
    ReadAppend(t, [Digit(d)], [unit]);
  }

  lemma ModTen(m: nat, r: nat)
    ensures (10 * m + r) % 10 == r % 10
  {
  }

  lemma Place(g: nat, place: nat)
    requires place == 10 || place == 100 || place == 1000 || place == 10000
    ensures g / place * place + g % place == g && g % place % 10 == g % 10
  {
    ModTen(place / 10 * (g / place), g % place);
  }

  /** A leading digit with its unit, then the lower places. */
  lemma {:induction false} ReadLeading(t: Tally, g: nat, unit: char, place: nat, next: nat)
    requires ChineseUnit(unit) == Some(place) && place in {10, 100, 1000} && place <= g < 10 * place && t.number == 0
    ensures ReadAll(t, [Digit(g / place), unit] + Rest(g % place, next))
         == Some(Tally(t.total, t.section + g - g % 10, g % 10))
    decreases g, 0
  {
    Place(g, place);
    ReadPlace(t, g / place, unit, place, g % place, next);
  }

  /** Reading a group adds its value to the open section, the last digit still pending. */
  lemma {:induction false} ReadGroup(t: Tally, g: nat)
    requires 1 <= g < 10000 && t.number == 0
    ensures ReadAll(t, Group(g)) == Some(Tally(t.total, t.section + g - g % 10, g % 10))
    decreases g, 1
  {
    if g >= 1000 {
      ReadLeading(t, g, '千', 1000, 100);
    } else if g >= 100 {
      ReadLeading(t, g, '百', 100, 10);
    } else if g >= 10 {
      ReadLeading(t, g, '十', 10, 1);
    } else {
      ReadOne(t, Digit(g));
    }
  }

  /** A digit, its unit and the places after it add up. */
  lemma {:induction false} ReadPlace(t: Tally, d: nat, unit: char, place: nat, r: nat, next: nat)
    requires 1 <= d <= 9 && ChineseUnit(unit) == Some(place) && r < 10000 && t.number == 0
    ensures ReadAll(t, [Digit(d), unit] + Rest(r, next))
         == Some(Tally(t.total, t.section + d * place + r - r % 10, r % 10))
    decreases r, 3
  {
    ReadTwo(t, d, unit);
    ReadRest(Tally(t.total, t.section + d * place, 0), r, next);
    ReadAppend(t, [Digit(d), unit], Rest(r, next));
  }

  lemma {:induction false} ReadRest(t: Tally, r: nat, next: nat)
    requires r < 10000 && t.number == 0
    ensures ReadAll(t, Rest(r, next)) == Some(Tally(t.total, t.section + r - r % 10, r % 10))
    decreases r, 2
  {
    if r > 0 {
      ReadGroup(t, r);
      if r < next {
        ReadOne(t, '零');
        ReadAppend(t, "零", Group(r));
      }
    }
  }

  lemma ReadOpening(start: Tally, g: nat)
    requires start == Tally(0, 0, 0) && 1 <= g < 10000
    ensures ReadAll(start, Opening(g)) == Some(Tally(0, g - g % 10, g % 10))
  {
    if 10 <= g < 20 {
      ReadOne(start, '十');
      ReadRest(Tally(0, 10, 0), g % 10, 1);
      ReadAppend(start, "十", Rest(g % 10, 1));
    } else {
      ReadGroup(start, g);
    }
  }

  lemma ReadThree(t: Tally, a: string, b: string, c: string, ta: Tally, tb: Tally, tc: Tally)
    requires ReadAll(t, a) == Some(ta) && ReadAll(ta, b) == Some(tb) && ReadAll(tb, c) == Some(tc)
    ensures ReadAll(t, a + b + c) == Some(tc)
  {
    ReadAppend(t, a, b);
    ReadAppend(t, a + b, c);
  }

  lemma ReadTenThousand(t: Tally, wan: string)
    requires wan == "万"
    ensures ReadAll(t, wan) == Some(Tally(t.total + (t.section + t.number) * 10000, 0, 0))
  {
    ReadOne(t, '万');
  }

  lemma ReadAroundWan(start: Tally, opening: string, wan: string, rest: string, high: nat,
                      full: Tally, end: Tally)
    requires full == Tally(high * 10000, 0, 0)
    requires wan == "万" && ReadAll(start, opening) == Some(Tally(0, high - high % 10, high % 10))
    requires ReadAll(full, rest) == Some(end)
    ensures ReadAll(start, opening + wan + rest) == Some(end)
  {
    var before := Tally(0, high - high % 10, high % 10);
    ReadTenThousand(before, wan);
    ReadThree(start, opening, wan, rest, before, full, end);
  }

  /** What is tallied after a 万-group and a group below it. */
  function BigTally(high: nat, low: nat): Tally {
    Tally(high * 10000, low - low % 10, low % 10)
  }

  lemma ReadBig(start: Tally, high: nat, opening: string, wan: string, rest: string, low: nat)
    requires start == Tally(0, 0, 0) && wan == "万" && 1 <= high < 10000 && low < 10000
    requires opening == Opening(high) && rest == Rest(low, 1000)
    ensures ReadAll(start, opening + wan + rest) == Some(BigTally(high, low))
  {
    var full := Tally(high * 10000, 0, 0);
    ReadOpening(start, high);
    ReadRest(full, low, 1000);
    ReadAroundWan(start, opening, wan, rest, high, full, BigTally(high, low));
  }

  lemma ReadSmallCanonical(start: Tally, n: nat)
    requires start == Tally(0, 0, 0) && n < 10000
    ensures Worth(ReadAll(start, Canonical(n))) == Some(n)
  {
    if n == 0 {
      ReadOne(start, '零');
    } else {
      ReadOpening(start, n);
    }
  }

  lemma ReadLargeCanonical(start: Tally, n: nat, high: nat, low: nat)
    requires start == Tally(0, 0, 0) && 10000 <= n < 100_000_000 && high == n / 10000 && low == n % 10000
    ensures Worth(ReadAll(start, Canonical(n))) == Some(n)
  {
    var wan := "万";
    ReadBig(start, high, Opening(high), wan, Rest(low, 1000), low);
    assert Canonical(n) == Opening(high) + wan + Rest(low, 1000);
    Place(n, 10000);
    assert high * 10000 + (low - low % 10) + low % 10 == n;
  }

  lemma ReadCanonical(start: Tally, n: nat)
    requires start == Tally(0, 0, 0) && n < 100_000_000
    ensures Worth(ReadAll(start, Canonical(n))) == Some(n)
  {
    if n < 10000 {
      ReadSmallCanonical(start, n);
    } else {
      ReadLargeCanonical(start, n, n / 10000, n % 10000);
    }
  }

  lemma InterpretChinese(d: Digits, start: Tally, s: string)
    requires start == Tally(0, 0, 0) && s != "" && !d.accepts(s[0])
    ensures Interpret(d, s) == Ok(Worth(ReadAll(start, s)))
  {
    assert !AllDigits(d, s);
  }

  lemma OpeningOpens(g: nat)
    requires 1 <= g < 10000
    ensures Opening(g) != "" && IsNumeralChar(Opening(g)[0])
  {
  }

  lemma CanonicalOpens(n: nat)
    requires n < 100_000_000
    ensures Canonical(n) != "" && IsNumeralChar(Canonical(n)[0])
  {
    if n >= 10000 {
      OpeningOpens(n / 10000);
      assert Canonical(n)[0] == Opening(n / 10000)[0];
    } else if n > 0 {
      OpeningOpens(n);
    }
  }

  lemma InterpretCanonical(d: Digits, n: nat)
    requires Sensible(d) && n < 100_000_000
    ensures Interpret(d, Canonical(n)) == Ok(Some(n))
    ensures forall i :: 0 <= i < |Canonical(n)| ==> IsNumeralChar(Canonical(n)[i])
  {
    var start := Tally(0, 0, 0);
    ReadCanonical(start, n);
    ReadAllRejects(start, Canonical(n));
    CanonicalOpens(n);
    InterpretChinese(d, start, Canonical(n));
  }

  /** Writing any number below 10^8 canonically and parsing it gives the number back. */
  lemma CanonicalRoundTrip(d: Digits, n: nat)
    requires Sensible(d) && n < 100_000_000
    ensures Parse(d, Canonical(n)) == Ok(Some(n))
  {
    InterpretCanonical(d, n);
    CitableInk(Canonical(n));
  }

  lemma {:induction false} IntOfDecimal(d: Digits, s: string)
    requires Sensible(d) && forall i :: 0 <= i < |s| ==> IsDigit(s[i])
    ensures IntOf(d, s) == Some(DecimalValue(s))
  {
    if s != "" {
      IntOfDecimal(d, s[..|s| - 1]);
      assert IsDigit(s[|s| - 1]);
    }
  }

  /** An Arabic numeral parses to the number it writes if and only if `int` converts that many digits. */
  lemma ArabicRoundTrip(d: Digits, n: nat)
    requires Sensible(d)
    ensures Parse(d, Decimal(n)) == Ok(Some(n)) <==> |Decimal(n)| <= d.limit
    ensures |Decimal(n)| > d.limit ==> Parse(d, Decimal(n)).Err?
  {
    DecimalRoundTrip(n);
    CitableInk(Decimal(n));
    IntOfDecimal(d, Decimal(n));
    assert AllDigits(d, Decimal(n));
  }
}
