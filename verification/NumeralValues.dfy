/** What any text of numeral characters is worth, well-formed or not, said character by character. */
module NumeralValues {
  import opened Common
  import opened Text
  import opened Numerals

  function DigitOf(c: char): nat {
    if c == '一' then 1 else if c == '二' || c == '两' then 2 else if c == '三' then 3 else if c == '四' then 4
    else if c == '五' then 5 else if c == '六' then 6 else if c == '七' then 7 else if c == '八' then 8
    else if c == '九' then 9 else 0
  }

  predicate IsUnit(c: char) {
    c == '十' || c == '百' || c == '千'
  }

  /** The digit right before position i; nothing else counts. */
  function Before(s: string, i: nat): nat
    requires i <= |s|
  {
    if i == 0 then 0 else DigitOf(s[i - 1])
  }

  /** A unit counts once, or as often as the digit before it says. */
  function UnitWorth(s: string, i: nat): nat
    requires i < |s| && IsUnit(s[i])
  {
    var unit := if s[i] == '十' then 10 else if s[i] == '百' then 100 else 1000;
    if Before(s, i) == 0 then unit else Before(s, i) * unit
  }

  /** Among the first n characters: units followed by some 万, and digits right before one, count ten thousandfold. */
  function Thousands(s: string, n: nat): nat
    requires n <= |s|
  {
    if n == 0 then 0 else
    Thousands(s, n - 1)
      + if IsUnit(s[n - 1]) && '万' in s[n..] then UnitWorth(s, n - 1) * 10000
        else if s[n - 1] == '万' then Before(s, n - 1) * 10000
        else 0
  }

  /** Units followed by no 万. */
  function Ones(s: string, n: nat): nat
    requires n <= |s|
  {
    if n == 0 then 0 else Ones(s, n - 1) + if IsUnit(s[n - 1]) && '万' !in s[n..] then UnitWorth(s, n - 1) else 0
  }

  lemma Later(s: string, c: char, n: nat)
    requires n <= |s|
    ensures '万' in (s + [c])[n..] <==> '万' in s[n..] || c == '万'
  {
    assert (s + [c])[n..] == s[n..] + [c];
  }

  lemma {:induction false} OneMoreChar(s: string, c: char, n: nat)
    requires n <= |s|
    ensures c != '万' ==> Thousands(s + [c], n) == Thousands(s, n) && Ones(s + [c], n) == Ones(s, n)
    ensures c == '万' ==> Thousands(s + [c], n) == Thousands(s, n) + 10000 * Ones(s, n) && Ones(s + [c], n) == 0
  {
    if n > 0 {
      OneMoreChar(s, c, n - 1);
      Later(s, c, n);
      assert (s + [c])[n - 1] == s[n - 1] && Before(s + [c], n - 1) == Before(s, n - 1);
    }
  }

  lemma CharsRead(c: char)
    ensures ChineseDigit(c).Some? ==> ChineseDigit(c).value == DigitOf(c) && !IsUnit(c) && c != '万'
    ensures IsUnit(c) <==> ChineseUnit(c).Some?
    ensures IsUnit(c) ==> ChineseUnit(c).value == if c == '十' then 10 else if c == '百' then 100 else 1000
    ensures IsUnit(c) || c == '万' ==> DigitOf(c) == 0
  {
  }

  predicate InNumerals(c: char) {
    c == '零' || c == '〇' || DigitOf(c) > 0 || IsUnit(c) || c == '万'
  }

  predicate Numeric(s: string) {
    forall i :: 0 <= i < |s| ==> InNumerals(s[i])
  }

  lemma NumericIsRead(c: char)
    ensures InNumerals(c) <==> IsNumeralChar(c)
  {
  }

  lemma UnitOneMore(init: string, c: char, t: Tally)
    requires IsUnit(c) && t.number == Before(init, |init|)
    ensures ChineseDigit(c).None? && ChineseUnit(c).Some?
    ensures Read(t, c) == Some(Tally(t.total, t.section + UnitWorth(init + [c], |init|), 0))
  {
    CharsRead(c);
    var s, n := init + [c], |init|;
    assert Before(s, n) == Before(init, n) && s[n] == c;
    if c == '十' {
      assert UnitWorth(s, n) == (if t.number == 0 then 1 else t.number) * 10;
    } else if c == '百' {
      assert UnitWorth(s, n) == (if t.number == 0 then 1 else t.number) * 100;
    } else {
      assert UnitWorth(s, n) == (if t.number == 0 then 1 else t.number) * 1000;
    }
  }

  lemma ReadOneMore(init: string, c: char, t: Tally)
    requires InNumerals(c) && t == Tally(Thousands(init, |init|), Ones(init, |init|), Before(init, |init|))
    ensures var s := init + [c]; Read(t, c) == Some(Tally(Thousands(s, |s|), Ones(s, |s|), Before(s, |s|)))
  {
    var s, n := init + [c], |init|;
    NumericIsRead(c);
    CharsRead(c);
    OneMoreChar(init, c, n);
    assert Before(s, n) == Before(init, n) && s[n] == c && s[|s|..] == "";
    if IsUnit(c) {
      UnitOneMore(init, c, t);
    }
  }

  /** After any numeral characters the reader holds the thousands, the ones, and the last digit if nothing followed it.
    */
  lemma {:induction false} ReadHolds(s: string)
    requires Numeric(s)
    ensures ReadAll(Tally(0, 0, 0), s) == Some(Tally(Thousands(s, |s|), Ones(s, |s|), Before(s, |s|)))
  {
    if s != "" {
      var init, c := s[..|s| - 1], s[|s| - 1];
      assert s == init + [c];
      ReadHolds(init);
      ReadOneMore(init, c, Tally(Thousands(init, |init|), Ones(init, |init|), Before(init, |init|)));
    }
  }

  lemma OthersAreNotRead(s: string, i: nat)
    requires i < |s| && !InNumerals(s[i])
    ensures ReadAll(Tally(0, 0, 0), s).None?
  {
    NumericIsRead(s[i]);
    assert s[..i + 1][..i] == s[..i];
    ReadPrefixFails(Tally(0, 0, 0), s, i + 1);
  }

  /** A text is worth nothing unless every character is a numeral one, else the sum over its characters. */
  function WorthOf(s: string): Option<nat> {
    if Numeric(s) then Some(Thousands(s, |s|) + Ones(s, |s|) + Before(s, |s|)) else None
  }

  lemma ReadIsWorth(s: string)
    ensures Worth(ReadAll(Tally(0, 0, 0), s)) == WorthOf(s)
  {
    if Numeric(s) {
      ReadHolds(s);
    } else {
      var i :| 0 <= i < |s| && !InNumerals(s[i]);
      OthersAreNotRead(s, i);
    }
  }

  /** What parsing returns for any text that is not blank and not all digits. */
  lemma NumeralsAreWorth(d: Digits, text: string)
    requires Ink(text) != "" && !AllDigits(d, Ink(text))
    ensures Parse(d, text) == Ok(WorthOf(Ink(text)))
  {
    ReadIsWorth(Ink(text));
  }
}
