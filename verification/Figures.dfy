/** The check that a text quotes only figures we calculated, scanning as its two patterns do. */
module Figures {
  import opened Basics
  import opened Money

  // ---------- The patterns ----------

  predicate IsSpace(c: char) {
    || c == ' ' || '\t' <= c <= '\r' || c == '\U{00A0}' || c == '\U{1680}' || '\U{2000}' <= c <= '\U{200A}'
    || c == '\U{2028}' || c == '\U{2029}' || c == '\U{202F}' || c == '\U{205F}' || c == '\U{3000}' || c == '\U{FEFF}'
  }

  predicate InFigure(c: char) {
    IsDigit(c) || c == ','
  }

  /** How many characters at the start of `s` satisfy `p`. */
  function Run(s: string, p: char -> bool): (n: nat)
    ensures n <= |s|
    ensures forall i :: 0 <= i < n ==> p(s[i])
    ensures n < |s| ==> !p(s[n])
  {
    if s == "" || !p(s[0]) then 0 else 1 + Run(s[1..], p)
  }

  /** The length of a point with digits after it, or 0. */
  function Fraction(s: string): (n: nat)
    ensures n <= |s|
  {
    if s != "" && s[0] == '.' && 0 < Run(s[1..], IsDigit) then 1 + Run(s[1..], IsDigit) else 0
  }

  datatype Match = Match(figure: string, length: nat)

  /** The longest run of `p` at the start of `s`, with the fraction after it. */
  function NumberAt(s: string, p: char -> bool): (r: Option<string>)
    ensures r.Some? ==> 0 < |r.value| <= |s| && r.value == s[..|r.value|]
  {
    var run := Run(s, p);
    if run == 0 then None else Some(s[..run + Fraction(s[run..])])
  }

  /** A naira sign, at most one space, and a figure. */
  function AmountAt(s: string): (m: Option<Match>)
    requires s != ""
    ensures m.Some? ==> 1 <= m.value.length <= |s|
  {
    var skip := if 1 < |s| && IsSpace(s[1]) then 2 else 1;
    var figure := NumberAt(s[skip..], InFigure);
    if s[0] != NAIRA_SIGN || figure.None? then None else Some(Match(figure.value, skip + |figure.value|))
  }

  function AmountMatches(s: string): seq<string>
    decreases |s|
  {
    if s == "" then []
    else
      var m := AmountAt(s);
      if m.Some? then [m.value.figure] + AmountMatches(s[m.value.length..]) else AmountMatches(s[1..])
  }

  /** Digits, perhaps with a fraction, at most one space, and a per cent sign. */
  function PercentAt(s: string): (m: Option<Match>)
    requires s != ""
    ensures m.Some? ==> 1 <= m.value.length <= |s|
  {
    var figure := NumberAt(s, IsDigit);
    var n := if figure.None? then 0 else |figure.value|;
    var skip := if n < |s| && IsSpace(s[n]) then n + 1 else n;
    if n == 0 || |s| <= skip || s[skip] != '%' then None else Some(Match(figure.value, skip + 1))
  }

  function PercentMatches(s: string): seq<string>
    decreases |s|
  {
    if s == "" then []
    else
      var m := PercentAt(s);
      if m.Some? then [m.value.figure] + PercentMatches(s[m.value.length..]) else PercentMatches(s[1..])
  }

  // ---------- The check ----------

  /** The amounts, in kobo, and the whole percentages a text may quote. */
  datatype Allowed = Allowed(amounts: set<nat>, percents: set<nat>)

  datatype Verdict = Passes | Fails | Throws

  function VerdictOfAmount(figure: string, allowed: Allowed): Verdict {
    var kobo := ReadFigure(figure);
    if kobo.None? then Throws else if kobo.value in allowed.amounts then Passes else Fails
  }

  /** A percentage is a number: 5, 5.0 and 05 are the same. */
  function VerdictOfPercent(figure: string, allowed: Allowed): Verdict {
    var i := PointAt(figure);
    if Value(figure[..i]) in allowed.percents && forall j :: i < j < |figure| ==> figure[j] == '0' then Passes else Fails
  }

  function FirstNot(verdicts: seq<Verdict>): Verdict {
    if verdicts == [] then Passes else if verdicts[0] != Passes then verdicts[0] else FirstNot(verdicts[1..])
  }

  function AmountVerdicts(figures: seq<string>, allowed: Allowed): seq<Verdict> {
    seq(|figures|, i requires 0 <= i < |figures| => VerdictOfAmount(figures[i], allowed))
  }

  function PercentVerdicts(figures: seq<string>, allowed: Allowed): seq<Verdict> {
    seq(|figures|, i requires 0 <= i < |figures| => VerdictOfPercent(figures[i], allowed))
  }

  lemma {:induction false} FirstNotAt(verdicts: seq<Verdict>, k: nat)
    requires k <= |verdicts| && forall i :: 0 <= i < k ==> verdicts[i] == Passes
    ensures FirstNot(verdicts) == if k < |verdicts| then FirstNot(verdicts[k..]) else Passes
  {
    if 0 < k {
      FirstNotAt(verdicts[1..], k - 1);
      assert k < |verdicts| ==> verdicts[1..][k - 1..] == verdicts[k..];
    }
  }

  lemma FirstNotIs(verdicts: seq<Verdict>, k: nat)
    requires k < |verdicts| && verdicts[k] != Passes && forall i :: 0 <= i < k ==> verdicts[i] == Passes
    ensures FirstNot(verdicts) == verdicts[k]
  {
    FirstNotAt(verdicts, k);
  }

  /** Every amount and every percentage in the text is one we calculated. */
  predicate Accepted(text: string, allowed: Allowed) {
    && (forall figure :: figure in AmountMatches(text) ==> VerdictOfAmount(figure, allowed) == Passes)
    && (forall figure :: figure in PercentMatches(text) ==> VerdictOfPercent(figure, allowed) == Passes)
  }

  lemma AllPass(amounts: seq<string>, percents: seq<string>, allowed: Allowed)
    requires forall j :: 0 <= j < |amounts| + |percents| ==> (AmountVerdicts(amounts, allowed) + PercentVerdicts(percents, allowed))[j] == Passes
    ensures forall figure :: figure in amounts ==> VerdictOfAmount(figure, allowed) == Passes
    ensures forall figure :: figure in percents ==> VerdictOfPercent(figure, allowed) == Passes
  {
    var all := AmountVerdicts(amounts, allowed) + PercentVerdicts(percents, allowed);
    hide VerdictOfAmount, VerdictOfPercent;
    forall i | 0 <= i < |amounts| ensures VerdictOfAmount(amounts[i], allowed) == Passes { assert all[i] == Passes; }
    forall i | 0 <= i < |percents| ensures VerdictOfPercent(percents[i], allowed) == Passes { assert all[|amounts| + i] == Passes; }
  }

  /** Goes through the amounts, then the percentages, and stops at the first that is not allowed. */
  method UsesOnlyAllowedFigures(text: string, allowed: Allowed) returns (v: Verdict)
    ensures v == FirstNot(AmountVerdicts(AmountMatches(text), allowed) + PercentVerdicts(PercentMatches(text), allowed))
    ensures v == Passes <==> Accepted(text, allowed)
  {
    var amounts, percents := AmountMatches(text), PercentMatches(text);
    hide AmountMatches, PercentMatches, VerdictOfAmount, VerdictOfPercent, FirstNot;
    ghost var all := AmountVerdicts(amounts, allowed) + PercentVerdicts(percents, allowed);
    for i := 0 to |amounts|
      invariant forall j :: 0 <= j < i ==> all[j] == Passes
    {
      v := VerdictOfAmount(amounts[i], allowed);
      if v != Passes {
        assert all[i] == v;
        FirstNotIs(all, i);
        return;
      }
    }
    for i := 0 to |percents|
      invariant forall j :: 0 <= j < |amounts| + i ==> all[j] == Passes
    {
      v := VerdictOfPercent(percents[i], allowed);
      if v != Passes {
        assert all[|amounts| + i] == v;
        FirstNotIs(all, |amounts| + i);
        return;
      }
    }
    FirstNotAt(all, |all|);
    v := Passes;
    AllPass(amounts, percents, allowed);
  }

  // ---------- Texts made of words and printed figures ----------

  datatype Piece = Words(text: string) | Amount(kobo: nat) | Percent(n: nat)

  function Printed(p: Piece): string {
    match p
    case Words(text) => text
    case Amount(kobo) => Naira(kobo)
    case Percent(n) => Digits(n) + "%"
  }

  function Text(pieces: seq<Piece>): string {
    if pieces == [] then "" else Printed(pieces[0]) + Text(pieces[1..])
  }

  predicate Clean(s: string) {
    forall i :: 0 <= i < |s| ==> s[i] != NAIRA_SIGN && s[i] != '%'
  }

  predicate EndsInSpace(s: string) {
    s != "" && s[|s| - 1] == ' '
  }

  predicate StartsInSpace(p: Piece) {
    p.Words? && p.text != "" && p.text[0] == ' '
  }

  /** Words quote no figures, a space follows every amount, and one comes before every percentage. `spaced` says whether one comes before these pieces. */
  predicate WellFormed(pieces: seq<Piece>, spaced: bool) {
    pieces == [] ||
    match pieces[0]
    case Words(text) => Clean(text) && WellFormed(pieces[1..], if text == "" then spaced else EndsInSpace(text))
    case Amount(_) => (1 < |pieces| ==> StartsInSpace(pieces[1])) && WellFormed(pieces[1..], false)
    case Percent(_) => spaced && WellFormed(pieces[1..], false)
  }

  function AmountsIn(pieces: seq<Piece>): seq<string> {
    if pieces == [] then []
    else (if pieces[0].Amount? then [Figure(pieces[0].kobo)] else []) + AmountsIn(pieces[1..])
  }

  function PercentsIn(pieces: seq<Piece>): seq<string> {
    if pieces == [] then []
    else (if pieces[0].Percent? then [Digits(pieces[0].n)] else []) + PercentsIn(pieces[1..])
  }

  lemma {:induction false} SkipWords(p: string, t: string)
    requires forall i :: 0 <= i < |p| ==> p[i] != NAIRA_SIGN
    ensures AmountMatches(p + t) == AmountMatches(t)
  {
    if p == "" {
      assert p + t == t;
    } else {
      assert (p + t)[1..] == p[1..] + t;
      SkipWords(p[1..], t);
    }
  }

  lemma {:induction false} RunOver(a: string, b: string, p: char -> bool)
    requires (forall i :: 0 <= i < |a| ==> p(a[i])) && (b == "" || !p(b[0]))
    ensures Run(a + b, p) == |a|
  {
    if a == "" {
      assert a + b == b;
    } else {
      assert (a + b)[1..] == a[1..] + b;
      RunOver(a[1..], b, p);
    }
  }

  lemma {:induction false} GroupedInFigure(s: string)
    requires AllDigits(s)
    ensures |s| <= |Grouped(s)| && forall i :: 0 <= i < |Grouped(s)| ==> InFigure(Grouped(s)[i])
  {
    if 3 < |s| {
      GroupedInFigure(s[..|s| - 3]);
    }
  }

  lemma FractionOf(f: nat, rest: string)
    requires f < 100 && (rest == "" || rest[0] == ' ')
    ensures Fraction((if f == 0 then "" else "." + TwoDigits(f)) + rest) == if f == 0 then 0 else 3
  {
    if f != 0 {
      var s := "." + TwoDigits(f) + rest;
      assert s[1..] == TwoDigits(f) + rest;
      RunOver(TwoDigits(f), rest, IsDigit);
    } else {
      assert "" + rest == rest;
    }
  }

  /** A point counts only with a digit after it, and then with all the digits that follow. */
  lemma FractionIs(digits: string, rest: string)
    requires AllDigits(digits) && (rest == "" || !IsDigit(rest[0]))
    ensures Fraction("." + digits + rest) == if digits == "" then 0 else 1 + |digits|
    ensures Fraction("." + digits + rest) <= |"." + digits + rest|
  {
    var s := "." + digits + rest;
    assert s[1..] == digits + rest;
    RunOver(digits, rest, IsDigit);
  }

  lemma NumberAtParts(whole: string, tail: string, p: char -> bool)
    requires whole != "" && (forall i :: 0 <= i < |whole| ==> p(whole[i])) && (tail == "" || !p(tail[0]))
    ensures NumberAt(whole + tail, p) == Some(whole + tail[..Fraction(tail)])
  {
    RunOver(whole, tail, p);
    assert (whole + tail)[|whole|..] == tail;
    hide Run, Fraction;
    var n := Fraction(tail);
    assert (whole + tail)[..|whole| + n] == whole + tail[..n];
  }

  lemma FigureIsRead(kobo: nat, rest: string)
    requires rest == "" || rest[0] == ' '
    ensures NumberAt(Figure(kobo) + rest, InFigure) == Some(Figure(kobo))
  {
    var whole, f := Grouped(Digits(kobo / 100)), kobo % 100;
    GroupedInFigure(Digits(kobo / 100));
    FractionOf(f, rest);
    hide Grouped, Digits, TwoDigits, NumberAt, Fraction;
    WholeAndCents(whole, if f == 0 then "" else "." + TwoDigits(f), rest);
  }

  lemma WholeAndCents(whole: string, cents: string, rest: string)
    requires whole != "" && (forall i :: 0 <= i < |whole| ==> InFigure(whole[i]))
    requires (rest == "" || rest[0] == ' ') && (cents == "" || cents[0] == '.') && Fraction(cents + rest) == |cents|
    ensures NumberAt(whole + cents + rest, InFigure) == Some(whole + cents)
  {
    NumberAtParts(whole, cents + rest, InFigure);
    hide NumberAt, Fraction;
    assert (cents + rest)[..|cents|] == cents;
    assert whole + (cents + rest) == whole + cents + rest;
  }

  lemma FigureStarts(kobo: nat)
    ensures Figure(kobo) != "" && InFigure(Figure(kobo)[0])
  {
    GroupedInFigure(Digits(kobo / 100));
  }

  lemma AmountIsFound(kobo: nat, rest: string)
    requires rest == "" || rest[0] == ' '
    ensures AmountAt(Naira(kobo) + rest) == Some(Match(Figure(kobo), 1 + |Figure(kobo)|))
  {
    hide Figure, NumberAt, AmountAt, InFigure;
    FigureIsRead(kobo, rest);
    FigureStarts(kobo);
    SignFirst(Figure(kobo) + rest);
    assert (Figure(kobo) + rest)[0] == Figure(kobo)[0];
    assert [NAIRA_SIGN] + (Figure(kobo) + rest) == Naira(kobo) + rest;
  }

  /** A sign straight in front of a figure. */
  lemma SignFirst(s: string)
    requires s != "" && InFigure(s[0])
    ensures var figure := NumberAt(s, InFigure);
      AmountAt([NAIRA_SIGN] + s) == if figure.None? then None else Some(Match(figure.value, 1 + |figure.value|))
  {
    NoSpaceInFigures(s[0]);
    hide NumberAt, InFigure, IsSpace, NAIRA_SIGN;
    assert ([NAIRA_SIGN] + s)[1..] == s;
    assert ([NAIRA_SIGN] + s)[1] == s[0];
  }

  lemma NoSpaceInFigures(c: char)
    requires InFigure(c)
    ensures !IsSpace(c)
  {
  }

  lemma ReadAmount(kobo: nat, rest: string)
    requires rest == "" || rest[0] == ' '
    ensures AmountMatches(Naira(kobo) + rest) == [Figure(kobo)] + AmountMatches(rest)
  {
    AmountIsFound(kobo, rest);
    hide Figure, AmountAt;
    assert (Naira(kobo) + rest)[1 + |Figure(kobo)|..] == rest;
  }

  lemma TextStart(pieces: seq<Piece>)
    requires pieces != [] && StartsInSpace(pieces[0])
    ensures Text(pieces) != "" && Text(pieces)[0] == ' '
  {
  }

  /** The amounts found in a text are exactly those printed into it, in order. */
  lemma {:induction false} AmountsAreFound(pieces: seq<Piece>, spaced: bool)
    requires WellFormed(pieces, spaced)
    ensures AmountMatches(Text(pieces)) == AmountsIn(pieces)
  {
    if pieces != [] {
      var rest := pieces[1..];
      match pieces[0]
      case Words(text) =>
        AmountsAreFound(rest, if text == "" then spaced else EndsInSpace(text));
        SkipWords(text, Text(rest));
      case Percent(n) =>
        AmountsAreFound(rest, false);
        SkipWords(Digits(n) + "%", Text(rest));
      case Amount(kobo) =>
        AmountsAreFound(rest, false);
        if rest != [] { TextStart(rest); }
        ReadAmount(kobo, Text(rest));
    }
  }

  // ---------- Percentages ----------

  /** No percentage starts inside words that end in a space, unless its sign is in them. */
  lemma NoPercentStarts(p: string, t: string)
    requires EndsInSpace(p) && (forall i :: 0 <= i < |p| ==> p[i] != '%') && (t == "" || t[0] != '%')
    ensures PercentAt(p + t).None?
  {
    var s := p + t;
    var run := Run(s, IsDigit);
    assert s[|p| - 1] == ' ';
    assert run < |p|;
    FractionStaysWithin(p, t, run);
    hide Run, Fraction;
  }

  lemma FractionStaysWithin(p: string, t: string, run: nat)
    requires EndsInSpace(p) && run < |p|
    ensures run + Fraction((p + t)[run..]) < |p|
  {
    var s := (p + t)[run..];
    assert s[|p| - 1 - run] == ' ';
    if 0 < Fraction(s) {
      assert s[1..][|p| - 2 - run] == ' ';
    }
  }

  lemma {:induction false} SkipToPercent(p: string, t: string)
    requires (p == "" || EndsInSpace(p)) && (forall i :: 0 <= i < |p| ==> p[i] != '%') && (t == "" || t[0] != '%')
    ensures PercentMatches(p + t) == PercentMatches(t)
  {
    if p == "" {
      assert p + t == t;
    } else {
      NoPercentStarts(p, t);
      assert (p + t)[1..] == p[1..] + t;
      hide PercentAt;
      SkipToPercent(p[1..], t);
    }
  }

  lemma {:induction false} NoSignNoPercent(s: string)
    requires forall i :: 0 <= i < |s| ==> s[i] != '%'
    ensures PercentMatches(s) == []
  {
    if s != "" {
      NoSignNoPercent(s[1..]);
    }
  }

  lemma ReadPercent(n: nat, rest: string)
    ensures PercentMatches(Digits(n) + "%" + rest) == [Digits(n)] + PercentMatches(rest)
  {
    var d, tail := Digits(n), "%" + rest;
    assert d + "%" + rest == d + tail;
    NumberAtParts(d, tail, IsDigit);
    assert Fraction(tail) == 0 && tail[..0] == "";
    hide Digits, NumberAt, Fraction, PercentMatches;
    SignAfter(d, tail);
    PercentStep(d + tail, d, rest);
  }

  lemma SignAfter(d: string, tail: string)
    requires d != "" && tail != "" && tail[0] == '%' && NumberAt(d + tail, IsDigit) == Some(d)
    ensures PercentAt(d + tail) == Some(Match(d, |d| + 1)) && (d + tail)[|d| + 1..] == tail[1..]
  {
    hide NumberAt;
    assert (d + tail)[|d|] == '%';
  }

  lemma PercentStep(s: string, figure: string, rest: string)
    requires s != "" && PercentAt(s).Some? && PercentAt(s).value.figure == figure && s[PercentAt(s).value.length..] == rest
    ensures PercentMatches(s) == [figure] + PercentMatches(rest)
  {
  }

  /** The percentages found after `p`, words and amounts already passed, are exactly those printed. */
  lemma {:induction false} PercentsAreFound(p: string, pieces: seq<Piece>)
    requires WellFormed(pieces, EndsInSpace(p)) && forall i :: 0 <= i < |p| ==> p[i] != '%'
    ensures PercentMatches(p + Text(pieces)) == PercentsIn(pieces)
    decreases |pieces|
  {
    hide PercentMatches, Naira, Digits;
    if pieces == [] {
      assert p + Text(pieces) == p;
      NoSignNoPercent(p);
    } else {
      var rest := pieces[1..];
      var head := Printed(pieces[0]);
      assert p + Text(pieces) == (p + head) + Text(rest);
      match pieces[0]
      case Words(text) =>
        PercentsAreFound(p + text, rest);
      case Amount(kobo) =>
        NairaHasNoSign(kobo);
        PercentsAreFound(p + head, rest);
      case Percent(n) =>
        assert p + Text(pieces) == p + (Digits(n) + "%" + Text(rest));
        SkipToPercent(p, Digits(n) + "%" + Text(rest));
        ReadPercent(n, Text(rest));
        PercentsAreFound("", rest);
        assert "" + Text(rest) == Text(rest);
    }
  }

  lemma NairaHasNoSign(kobo: nat)
    ensures Naira(kobo) != "" && !EndsInSpace(Naira(kobo))
    ensures forall i :: 0 <= i < |Naira(kobo)| ==> Naira(kobo)[i] != '%'
  {
    GroupedInFigure(Digits(kobo / 100));
  }

  // ---------- What the patterns read ----------

  function Decimal(whole: string, decimals: string): string {
    if decimals == "" then whole else whole + "." + decimals
  }

  function Gap(space: bool): string {
    if space then " " else ""
  }

  /** A percentage is the whole number before a point, or with its decimals, and may stand one space before the sign. */
  lemma PercentIsRead(whole: string, decimals: string, space: bool, rest: string)
    requires AllDigits(whole) && AllDigits(decimals) && whole != ""
    ensures var figure, tail := Decimal(whole, decimals), Gap(space) + "%";
      PercentAt(figure + tail + rest) == Some(Match(figure, |figure| + |tail|))
  {
    var figure, tail := Decimal(whole, decimals), Gap(space) + "%" + rest;
    assert figure + (Gap(space) + "%") + rest == figure + tail;
    TailIs(space, rest);
    NumberIsRead(whole, decimals, tail, IsDigit);
    hide NumberAt, Decimal, Gap, AllDigits;
    PercentFollows(figure, tail, space);
  }

  lemma TailIs(space: bool, rest: string)
    ensures var tail := Gap(space) + "%" + rest;
      tail != "" && (if space then 1 < |tail| && tail[0] == ' ' && tail[1] == '%' else tail[0] == '%')
  {
  }

  lemma PercentFollows(figure: string, tail: string, space: bool)
    requires figure != "" && tail != "" && NumberAt(figure + tail, IsDigit) == Some(figure)
    requires if space then 1 < |tail| && tail[0] == ' ' && tail[1] == '%' else tail[0] == '%'
    ensures PercentAt(figure + tail) == Some(Match(figure, |figure| + if space then 2 else 1))
  {
    hide NumberAt;
    var s := figure + tail;
    assert s[|figure|] == tail[0];
    if space { assert s[|figure| + 1] == tail[1]; }
  }

  /** An amount may stand one space after the sign, and have decimals. */
  lemma AmountIsRead(whole: string, decimals: string, space: bool, rest: string)
    requires AllDigits(whole) && AllDigits(decimals) && whole != "" && (rest == "" || (!InFigure(rest[0]) && rest[0] != '.'))
    ensures var figure, before := Decimal(whole, decimals), [NAIRA_SIGN] + Gap(space);
      AmountAt(before + figure + rest) == Some(Match(figure, |before| + |figure|))
  {
    hide NumberAt, Decimal, Gap, AllDigits, InFigure, AmountAt, NAIRA_SIGN, IsSpace;
    var figure, before := Decimal(whole, decimals), [NAIRA_SIGN] + Gap(space);
    AmountNumber(whole, decimals, rest);
    StartsWithDigit(whole, decimals);
    assert before + figure + rest == before + (figure + rest);
    BeforeIs(space);
    AmountFollows(before, figure, rest, space);
  }

  lemma AmountNumber(whole: string, decimals: string, rest: string)
    requires AllDigits(whole) && AllDigits(decimals) && whole != "" && (rest == "" || (!InFigure(rest[0]) && rest[0] != '.'))
    ensures NumberAt(Decimal(whole, decimals) + rest, InFigure) == Some(Decimal(whole, decimals))
  {
    hide NumberAt, Decimal, AllDigits;
    NumberIsRead(whole, decimals, rest, InFigure);
  }

  lemma StartsWithDigit(whole: string, decimals: string)
    requires AllDigits(whole) && whole != ""
    ensures Decimal(whole, decimals) != "" && !IsSpace(Decimal(whole, decimals)[0])
  {
    assert Decimal(whole, decimals)[0] == whole[0];
  }

  lemma BeforeIs(space: bool)
    ensures var before := [NAIRA_SIGN] + Gap(space);
      before[0] == NAIRA_SIGN && |before| == (if space then 2 else 1) && (space ==> IsSpace(before[1]))
  {
  }

  lemma AmountFollows(before: string, figure: string, rest: string, space: bool)
    requires |before| == (if space then 2 else 1) && before[0] == NAIRA_SIGN && (space ==> IsSpace(before[1]))
    requires figure != "" && !IsSpace(figure[0]) && NumberAt(figure + rest, InFigure) == Some(figure)
    ensures AmountAt(before + (figure + rest)) == Some(Match(figure, |before| + |figure|))
  {
    hide NumberAt, IsSpace;
    var s := before + (figure + rest);
    assert s[0] == before[0] && s[|before|..] == figure + rest;
    assert 1 < |s| && s[1] == if space then before[1] else figure[0];
  }

  lemma NumberIsRead(whole: string, decimals: string, rest: string, p: char -> bool)
    requires AllDigits(whole) && AllDigits(decimals) && whole != "" && forall c: char :: IsDigit(c) ==> p(c)
    requires !p('.') && (rest == "" || (!p(rest[0]) && rest[0] != '.' && !IsDigit(rest[0])))
    ensures NumberAt(Decimal(whole, decimals) + rest, p) == Some(Decimal(whole, decimals))
  {
    if decimals == "" {
      NumberAtParts(whole, rest, p);
      assert whole + "" == whole && rest[..0] == "";
    } else {
      var tail := "." + decimals + rest;
      FractionIs(decimals, rest);
      NumberAtParts(whole, tail, p);
      hide NumberAt, Fraction;
      assert (whole + "." + decimals) + rest == whole + tail;
      assert tail[..1 + |decimals|] == "." + decimals;
      assert whole + ("." + decimals) == whole + "." + decimals;
    }
  }

  /** A percentage with decimals passes exactly when they are all zero and the whole number is allowed. */
  lemma DecimalsMustBeZero(whole: string, decimals: string, allowed: Allowed)
    requires AllDigits(whole) && whole != "" && AllDigits(decimals)
    ensures VerdictOfPercent(Decimal(whole, decimals), allowed) ==
            (if Value(whole) in allowed.percents && Value(decimals) == 0 then Passes else Fails)
  {
    var figure := Decimal(whole, decimals);
    var tail := if decimals == "" then "" else "." + decimals;
    assert figure == whole + tail by { assert whole + ("." + decimals) == whole + "." + decimals && whole + "" == whole; }
    hide Decimal;
    PointAfterDigits(whole, tail);
    ZerosAreNothing(decimals);
    hide Value, PointAt, AllDigits;
    assert figure[..|whole|] == whole;
    ZerosAfter(whole, decimals, figure);
  }

  lemma ZerosAfter(whole: string, decimals: string, figure: string)
    requires figure == whole + if decimals == "" then "" else "." + decimals
    ensures (forall j :: |whole| < j < |figure| ==> figure[j] == '0') <==> (forall i :: 0 <= i < |decimals| ==> decimals[i] == '0')
  {
    if decimals != "" {
      assert forall i :: 0 <= i < |decimals| ==> figure[|whole| + 1 + i] == decimals[i];
      if forall j :: |whole| < j < |figure| ==> figure[j] == '0' {
        forall i | 0 <= i < |decimals| ensures decimals[i] == '0' { assert figure[|whole| + 1 + i] == '0'; }
      }
      if forall i :: 0 <= i < |decimals| ==> decimals[i] == '0' {
        forall j | |whole| < j < |figure| ensures figure[j] == '0' { assert figure[|whole| + 1 + (j - |whole| - 1)] == decimals[j - |whole| - 1]; }
      }
    }
  }

  lemma {:induction false} ZerosAreNothing(s: string)
    requires AllDigits(s)
    ensures Value(s) == 0 <==> forall i :: 0 <= i < |s| ==> s[i] == '0'
  {
    if s != "" {
      var n := |s| - 1;
      ZerosAreNothing(s[..n]);
      assert (forall i :: 0 <= i < |s| ==> s[i] == '0') <==> (forall i :: 0 <= i < n ==> s[..n][i] == '0') && s[n] == '0';
    }
  }
}
