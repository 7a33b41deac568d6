/** Printing amounts of money, and reading them back. */
module Money {
  import opened Basics

  predicate IsDigit(c: char) {
    '0' <= c <= '9'
  }

  predicate AllDigits(s: string) {
    forall i :: 0 <= i < |s| ==> IsDigit(s[i])
  }

  function DigitOf(c: char): nat {
    if IsDigit(c) then c as int - '0' as int else 0
  }

  function CharOf(d: nat): (c: char)
    requires d < 10
    ensures IsDigit(c) && DigitOf(c) == d
  {
    ('0' as int + d) as char
  }

  /** Decimal digits, without leading zeros. */
  function Digits(n: nat): (s: string)
    ensures s != "" && AllDigits(s)
  {
    if n < 10 then [CharOf(n)] else Digits(n / 10) + [CharOf(n % 10)]
  }

  function Value(s: string): nat {
    if s == "" then 0 else 10 * Value(s[..|s| - 1]) + DigitOf(s[|s| - 1])
  }

  lemma {:induction false} ValueOfDigits(n: nat)
    ensures Value(Digits(n)) == n
  {
    if n < 10 {
      assert Digits(n)[..0] == "";
    } else {
      ValueOfDigits(n / 10);
      assert Digits(n)[..|Digits(n)| - 1] == Digits(n / 10);
    }
  }

  lemma {:induction false} NoLeadingZero(n: nat)
    ensures Digits(n)[0] == '0' <==> n == 0
  {
    if 10 <= n {
      NoLeadingZero(n / 10);
    }
  }

  /** The two digits of a fraction. */
  function TwoDigits(f: nat): (s: string)
    requires f < 100
    ensures |s| == 2 && AllDigits(s)
  {
    [CharOf(f / 10), CharOf(f % 10)]
  }

  lemma ValueOfTwoDigits(f: nat)
    requires f < 100
    ensures Value(TwoDigits(f)) == f
  {
    var s := TwoDigits(f);
    assert s[..1] == [s[0]] && s[..1][..0] == "";
    assert Value(s[..1]) == DigitOf(s[0]);
  }

  /** toFixed(2) of an amount in kobo. */
  function Fixed(kobo: int): string {
    var size := if kobo < 0 then -kobo else kobo;
    (if kobo < 0 then "-" else "") + Digits(size / 100) + "." + TwoDigits(size % 100)
  }

  /** A comma before every group of three digits counted from the right. */
  function Grouped(s: string): string {
    if |s| <= 3 then s else Grouped(s[..|s| - 3]) + "," + s[|s| - 3..]
  }

  const NAIRA_SIGN: char := '\U{20A6}'

  /** The figure after the sign: the fraction is dropped when it is zero. */
  function Figure(kobo: nat): string {
    Grouped(Digits(kobo / 100)) + if kobo % 100 == 0 then "" else "." + TwoDigits(kobo % 100)
  }

  function Naira(kobo: nat): string {
    [NAIRA_SIGN] + Figure(kobo)
  }

  // ---------- Reading ----------

  function WithoutCommas(s: string): string {
    if s == "" then "" else WithoutCommas(s[..|s| - 1]) + if s[|s| - 1] == ',' then "" else [s[|s| - 1]]
  }

  /** Where the decimal point is, or the end. */
  function PointAt(s: string): (i: nat)
    ensures i <= |s|
    ensures forall j :: 0 <= j < i ==> s[j] != '.'
    ensures i < |s| ==> s[i] == '.'
  {
    if s == "" || s[0] == '.' then 0 else 1 + PointAt(s[1..])
  }

  /** The first two decimals, rounded half up. */
  function Hundredths(f: string): nat {
    if f == "" then 0
    else if |f| == 1 then 10 * DigitOf(f[0])
    else if |f| == 2 then Value(f)
    else Value(f[..2]) + if '5' <= f[2] then 1 else 0
  }

  /** The amount in kobo that a matched figure stands for, to two decimals. A figure without digits is an error. */
  function ReadFigure(s: string): Option<nat> {
    var plain := WithoutCommas(s);
    var i := PointAt(plain);
    if plain == "" then None
    else Some(100 * Value(plain[..i]) + if i < |plain| then Hundredths(plain[i + 1..]) else 0)
  }

  /** A third decimal rounds to the nearest kobo, halves up, and later ones do not count. */
  lemma ThirdDecimalRounds(f: string)
    requires 3 <= |f| && AllDigits(f)
    ensures 10 * Hundredths(f) - 5 <= Value(f[..3]) < 10 * Hundredths(f) + 5
  {
    assert f[..3][..2] == f[..2];
    assert Value(f[..3]) == 10 * Value(f[..2]) + DigitOf(f[2]);
    hide Value;
  }

  lemma {:induction false} WithoutCommasConcat(s: string, t: string)
    ensures WithoutCommas(s + t) == WithoutCommas(s) + WithoutCommas(t)
  {
    if t == "" {
      assert s + t == s;
    } else {
      var n := |t| - 1;
      assert (s + t)[..|s + t| - 1] == s + t[..n];
      WithoutCommasConcat(s, t[..n]);
    }
  }

  lemma {:induction false} NoCommas(s: string)
    requires forall i :: 0 <= i < |s| ==> s[i] != ','
    ensures WithoutCommas(s) == s
  {
    if s != "" {
      NoCommas(s[..|s| - 1]);
    }
  }

  lemma OneComma()
    ensures WithoutCommas(",") == ""
  {
    assert ","[..0] == "";
  }

  lemma WithoutOneComma(s: string, group: string)
    requires AllDigits(group)
    ensures WithoutCommas(s + "," + group) == WithoutCommas(s) + group
  {
    hide WithoutCommas;
    OneComma();
    NoCommas(group);
    WithoutCommasConcat(s + ",", group);
    WithoutCommasConcat(s, ",");
  }

  lemma GroupedStep(s: string)
    requires AllDigits(s)
    ensures |s| <= 3 ==> Grouped(s) == s
    ensures |s| > 3 ==> Grouped(s) == Grouped(s[..|s| - 3]) + "," + s[|s| - 3..]
    ensures |s| > 3 ==> AllDigits(s[..|s| - 3]) && AllDigits(s[|s| - 3..])
  {
  }

  lemma {:induction false} UngroupGrouped(s: string)
    requires AllDigits(s)
    ensures WithoutCommas(Grouped(s)) == s
  {
    hide Grouped;
    GroupedStep(s);
    if |s| <= 3 {
      NoCommas(s);
    } else {
      hide WithoutCommas;
      var n := |s| - 3;
      UngroupGrouped(s[..n]);
      WithoutOneComma(Grouped(s[..n]), s[n..]);
      assert s[..n] + s[n..] == s;
    }
  }

  lemma {:induction false} PointAfterDigits(s: string, rest: string)
    requires AllDigits(s) && (rest == "" || rest[0] == '.')
    ensures PointAt(s + rest) == |s|
  {
    if s == "" {
      assert s + rest == rest;
    } else {
      assert (s + rest)[1..] == s[1..] + rest;
      PointAfterDigits(s[1..], rest);
    }
  }

  lemma ReadPlain(s: string, whole: string, f: nat)
    requires AllDigits(whole) && whole != "" && f < 100
    requires WithoutCommas(s) == whole + if f == 0 then "" else "." + TwoDigits(f)
    ensures ReadFigure(s) == Some(100 * Value(whole) + f)
  {
    var fraction := if f == 0 then "" else "." + TwoDigits(f);
    var plain := whole + fraction;
    PointAfterDigits(whole, fraction);
    ValueOfTwoDigits(f);
    assert plain[..|whole|] == whole;
    if f != 0 {
      assert plain[|whole| + 1..] == TwoDigits(f);
      assert Hundredths(TwoDigits(f)) == f;
    }
    hide TwoDigits, PointAt, WithoutCommas, Value, Hundredths;
  }

  lemma FractionHasNoCommas(f: nat)
    requires f < 100
    ensures WithoutCommas("." + TwoDigits(f)) == "." + TwoDigits(f)
  {
    NoCommas("." + TwoDigits(f));
  }

  /** Reading a printed figure returns the amount, for every amount. */
  lemma ReadingUndoesPrinting(kobo: nat)
    ensures ReadFigure(Figure(kobo)) == Some(kobo)
  {
    hide Digits, Value, ReadFigure, Figure, WithoutCommas, TwoDigits, AllDigits;
    var whole, f := Digits(kobo / 100), kobo % 100;
    PlainFigure(kobo);
    ValueOfDigits(kobo / 100);
    ReadPlain(Figure(kobo), whole, f);
    DivMod(kobo);
  }

  lemma DivMod(kobo: nat)
    ensures 100 * (kobo / 100) + kobo % 100 == kobo
  {
  }

  lemma PlainFigure(kobo: nat)
    ensures WithoutCommas(Figure(kobo)) == Digits(kobo / 100) + if kobo % 100 == 0 then "" else "." + TwoDigits(kobo % 100)
  {
    var whole, f := Digits(kobo / 100), kobo % 100;
    UngroupGrouped(whole);
    FractionHasNoCommas(f);
    WithoutCommasConcat(Grouped(whole), if f == 0 then "" else "." + TwoDigits(f));
    assert WithoutCommas("") == "";
    hide Digits, TwoDigits, Grouped, WithoutCommas;
  }

  // ---------- Where the commas are ----------

  /** Counting from the right, every fourth character is a comma and no other is. */
  lemma {:induction false} CommasEveryThreeDigits(s: string, k: nat)
    requires AllDigits(s) && k < |Grouped(s)|
    ensures Grouped(s)[|Grouped(s)| - 1 - k] == ',' <==> k % 4 == 3
    ensures s != "" ==> Grouped(s)[0] != ','
  {
    hide Grouped;
    GroupedStep(s);
    if 3 < |s| {
      var n := |s| - 3;
      GroupedHasDigits(s[..n]);
      CommaBefore(s[..n], s[n..], k);
      hide AllDigits;
      CommasEveryThreeDigits(s[..n], if 4 <= k then k - 4 else 0);
      assert 4 <= k ==> k % 4 == (k - 4) % 4;
    }
  }

  lemma GroupedHasDigits(s: string)
    requires s != ""
    ensures Grouped(s) != ""
  {
  }

  lemma CommaBefore(s: string, group: string, k: nat)
    requires |group| == 3
    ensures var t := Grouped(s) + "," + group;
      k < |t| ==> t[|t| - 1 - k] == if k < 3 then group[2 - k] else if k == 3 then ',' else Grouped(s)[|Grouped(s)| - 1 - (k - 4)]
  {
    hide Grouped;
  }

  // ---------- toFixed(2) read back ----------

  /** A number with an optional minus sign, in kobo. */
  function ReadFixed(s: string): Option<int> {
    var negative := s != "" && s[0] == '-';
    var size := ReadFigure(if negative then s[1..] else s);
    if size.None? then None else Some(if negative then -(size.value as int) else size.value)
  }

  /** Every amount, negative ones included, is read back from its two decimals. */
  lemma FixedReadsBack(kobo: int)
    ensures ReadFixed(Fixed(kobo)) == Some(kobo)
  {
    var size := if kobo < 0 then -kobo else kobo;
    var plain := Digits(size / 100) + "." + TwoDigits(size % 100);
    PlainReadsBack(size);
    hide Digits, TwoDigits, ReadFigure;
    assert Fixed(kobo) == (if kobo < 0 then "-" else "") + plain;
    if kobo < 0 {
      assert Fixed(kobo)[1..] == plain;
    } else {
      assert Fixed(kobo) == plain;
    }
  }

  lemma PlainReadsBack(size: nat)
    ensures var plain := Digits(size / 100) + "." + TwoDigits(size % 100);
      plain != "" && plain[0] != '-' && ReadFigure(plain) == Some(size)
  {
    var whole, f := Digits(size / 100), size % 100;
    var fraction := "." + TwoDigits(f);
    var plain := whole + fraction;
    assert Digits(size / 100) + "." + TwoDigits(f) == plain;
    hide TwoDigits, Digits, Value, WithoutCommas, PointAt;
    NoCommas(whole);
    FractionHasNoCommas(f);
    WithoutCommasConcat(whole, fraction);
    PointAfterDigits(whole, fraction);
    ValueOfDigits(size / 100);
    ValueOfTwoDigits(f);
    assert plain[..|whole|] == whole && plain[|whole| + 1..] == TwoDigits(f);
    assert plain[0] == whole[0];
    DivMod(size);
  }
}
