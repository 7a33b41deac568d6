/** The plain-sentence insights of the template, and why every figure in them passes the check of its texts. */
module Insights {
  import opened Basics
  import opened Money
  import opened Figures

  datatype SpendingCategory = Food | Bills | Transport | Shopping | Entertainment | Health | FamilyFriends | Savings | OtherSpending | Uncategorised

  function Label(c: SpendingCategory): string {
    match c
    case Food => "Food & drink"
    case Bills => "Bills & rent"
    case Transport => "Transport"
    case Shopping => "Shopping"
    case Entertainment => "Entertainment"
    case Health => "Health"
    case FamilyFriends => "Family & friends"
    case Savings => "Savings"
    case OtherSpending => "Other"
    case Uncategorised => "Not categorised yet"
  }

  function Lower(s: string): (r: string)
    ensures |r| == |s|
  {
    seq(|s|, i requires 0 <= i < |s| => if 'A' <= s[i] <= 'Z' then (s[i] as int + 32) as char else s[i])
  }

  // Amounts are in kobo; names and dates are as they will be shown
  datatype Summary = Summary(moneyIn: nat, spent: nat, withdrawn: nat)
  datatype CategoryFact = CategoryFact(category: SpendingCategory, current: nat, previous: nat, changePercent: Option<int>)
  datatype RecipientFact = RecipientFact(name: string, total: nat, count: nat)
  datatype RegularFact = RegularFact(name: string, typicalAmount: nat)
  datatype UnusualFact = UnusualFact(amount: nat, date: string, recipient: Option<string>, timesTypical: nat)

  datatype InsightFacts = InsightFacts(
    current: Summary,
    previous: Summary,
    spentChangePercent: Option<int>,
    categories: seq<CategoryFact>,
    topRecipients: seq<RecipientFact>,
    largestSpend: Option<nat>,
    regularPayments: seq<RegularFact>,
    unusualSpends: seq<UnusualFact>)

  function Abs(p: int): nat {
    if p < 0 then -p else p
  }

  /** The figures a text about these facts may quote. */
  function AllowedFor(facts: InsightFacts): Allowed {
    Allowed(
      {facts.current.moneyIn, facts.current.spent, facts.current.withdrawn,
       facts.previous.moneyIn, facts.previous.spent, facts.previous.withdrawn}
      + (set i | 0 <= i < |facts.categories| :: facts.categories[i].current)
      + (set i | 0 <= i < |facts.categories| :: facts.categories[i].previous)
      + (set i | 0 <= i < |facts.topRecipients| :: facts.topRecipients[i].total)
      + (if facts.largestSpend.Some? then {facts.largestSpend.value} else {})
      + (set i | 0 <= i < |facts.regularPayments| :: facts.regularPayments[i].typicalAmount)
      + (set i | 0 <= i < |facts.unusualSpends| :: facts.unusualSpends[i].amount),
      (if facts.spentChangePercent.Some? then {Abs(facts.spentChangePercent.value)} else {})
      + (set i | 0 <= i < |facts.categories| && facts.categories[i].changePercent.Some? :: Abs(facts.categories[i].changePercent.value)))
  }

  // ---------- The sentences ----------

  datatype InsightKind = CategoryInsight | RecipientInsight | RegularInsight | UnusualInsight | Tip

  /** A title and a body; the check reads them with a space between. */
  datatype Insight = Insight(kind: InsightKind, title: seq<Piece>, body: seq<Piece>)

  function Checked(i: Insight): seq<Piece> {
    i.title + [Words(" ")] + i.body
  }

  const THIS_PERIOD: string := " in the last 30 days"

  function Headline(facts: InsightFacts): seq<Piece> {
    var opening := [Words("You spent "), Amount(facts.current.spent)];
    match facts.spentChangePercent
    case None => opening + [Words(THIS_PERIOD + ".")]
    case Some(p) =>
      if p == 0 then opening + [Words(THIS_PERIOD + ", the same as the 30 days before.")]
      else opening + [Words(THIS_PERIOD + ", "), Percent(Abs(p)), Words((if p < 0 then " less" else " more") + " than the 30 days before.")]
  }

  function CategorySentence(top: CategoryFact): Insight {
    var opening := [Words("You spent "), Amount(top.current), Words(" on " + Lower(Label(top.category)))];
    Insight(CategoryInsight,
            [Words(Label(top.category) + " led your spending")],
            match top.changePercent
            case None => opening + [Words(".")]
            case Some(p) =>
              if p == 0 then opening + [Words(", the same as before.")]
              else opening + [Words(if 0 < p then ", up " else ", down "), Percent(Abs(p)), Words(" on the 30 days before.")])
  }

  function RecipientSentence(r: RecipientFact): Insight {
    Insight(RecipientInsight,
            [Words("You sent the most to " + r.name)],
            [Amount(r.total), Words(" across " + Digits(r.count) + " payment" + (if r.count == 1 then "" else "s") + " this period.")])
  }

  function RegularSentence(r: RegularFact): Insight {
    Insight(RegularInsight,
            [Words("A regular payment to " + r.name)],
            [Words("You've paid " + r.name + " about "), Amount(r.typicalAmount), Words(" in each of the last three months.")])
  }

  function UnusualSentence(u: UnusualFact): Insight {
    Insight(UnusualInsight,
            [Words("A larger payment than usual")],
            [Amount(u.amount),
             Words((if u.recipient.Some? then " to " + u.recipient.value else "") + " on " + u.date + " is about "
                   + Digits(u.timesTypical) + " times your typical payment.")])
  }

  /** The first named category with spending this period. */
  function TopCategory(categories: seq<CategoryFact>): (r: Option<nat>)
    ensures r.Some? ==> r.value < |categories|
  {
    if categories == [] then None
    else if categories[0].category != Uncategorised && categories[0].current != 0 then Some(0)
    else
      var rest := TopCategory(categories[1..]);
      if rest.None? then None else Some(rest.value + 1)
  }

  /** Names and dates quote no figures. */
  predicate CleanNames(facts: InsightFacts) {
    && (forall i :: 0 <= i < |facts.topRecipients| ==> Clean(facts.topRecipients[i].name))
    && (forall i :: 0 <= i < |facts.regularPayments| ==> Clean(facts.regularPayments[i].name))
    && (forall i :: 0 <= i < |facts.unusualSpends| ==>
          Clean(facts.unusualSpends[i].date) && (facts.unusualSpends[i].recipient.Some? ==> Clean(facts.unusualSpends[i].recipient.value)))
  }

  /** Every figure among the pieces is one of those allowed. */
  predicate Quotes(pieces: seq<Piece>, allowed: Allowed) {
    forall p :: p in pieces ==> (p.Amount? ==> p.kobo in allowed.amounts) && (p.Percent? ==> p.n in allowed.percents)
  }

  lemma PercentReadsBack(n: nat, allowed: Allowed)
    ensures VerdictOfPercent(Digits(n), allowed) == Passes <==> n in allowed.percents
  {
    ValueOfDigits(n);
    assert Digits(n) + "" == Digits(n);
    PointAfterDigits(Digits(n), "");
    assert Digits(n)[..|Digits(n)|] == Digits(n);
  }

  lemma AmountReadsBack(kobo: nat, allowed: Allowed)
    ensures VerdictOfAmount(Figure(kobo), allowed) == Passes <==> kobo in allowed.amounts
  {
    ReadingUndoesPrinting(kobo);
    hide Figure, ReadFigure;
  }

  predicate FiguresPass(pieces: seq<Piece>, allowed: Allowed) {
    && (forall figure :: figure in AmountsIn(pieces) ==> VerdictOfAmount(figure, allowed) == Passes)
    && (forall figure :: figure in PercentsIn(pieces) ==> VerdictOfPercent(figure, allowed) == Passes)
  }

  lemma {:induction false} QuotesPass(pieces: seq<Piece>, allowed: Allowed)
    ensures FiguresPass(pieces, allowed) <==> Quotes(pieces, allowed)
  {
    if pieces != [] {
      var first, rest := pieces[0], pieces[1..];
      QuotesPass(rest, allowed);
      assert pieces == [first] + rest;
      assert Quotes(pieces, allowed) <==> Quotes([first], allowed) && Quotes(rest, allowed);
      match first
      case Words(_) =>
      case Amount(kobo) => AmountReadsBack(kobo, allowed);
      case Percent(n) => PercentReadsBack(n, allowed);
    }
  }

  /**
   * A text of words and printed figures passes the check exactly when each amount and each percentage
   * in it is allowed: right figures are never refused, and a wrong one is always caught.
   */
  lemma CheckIsExact(pieces: seq<Piece>, allowed: Allowed)
    requires WellFormed(pieces, false)
    ensures Accepted(Text(pieces), allowed) <==> Quotes(pieces, allowed)
  {
    AmountsAreFound(pieces, false);
    PercentsAreFound("", pieces);
    assert "" + Text(pieces) == Text(pieces);
    QuotesPass(pieces, allowed);
    hide AmountMatches, PercentMatches, Text, WellFormed, VerdictOfAmount, VerdictOfPercent;
  }

  // ---------- The template's texts ----------

  lemma DigitsAreClean(n: nat)
    ensures Clean(Digits(n))
  {
  }

  lemma LabelsAreClean(c: SpendingCategory)
    ensures Clean(Label(c)) && Clean(Lower(Label(c)))
  {
    if c.Food? || c.Bills? || c.FamilyFriends? || c.Uncategorised? {
      LabelOfWords(c);
    } else {
      LabelOfOneWord(c);
    }
    hide Label;
    LowerIsClean(Label(c));
  }

  lemma LabelOfWords(c: SpendingCategory)
    requires c.Food? || c.Bills? || c.FamilyFriends? || c.Uncategorised?
    ensures Clean(Label(c))
  {
    match c
    case Food => assert Clean("Food & drink");
    case Bills => assert Clean("Bills & rent");
    case FamilyFriends => assert Clean("Family & friends");
    case Uncategorised => assert Clean("Not categorised yet");
  }

  lemma LabelOfOneWord(c: SpendingCategory)
    requires !c.Food? && !c.Bills? && !c.FamilyFriends? && !c.Uncategorised?
    ensures Clean(Label(c))
  {
    match c
    case Transport => assert Clean("Transport");
    case Shopping => assert Clean("Shopping");
    case Entertainment => assert Clean("Entertainment");
    case Health => assert Clean("Health");
    case Savings => assert Clean("Savings");
    case OtherSpending => assert Clean("Other");
  }

  lemma LowerIsClean(s: string)
    requires Clean(s)
    ensures Clean(Lower(s))
  {
  }

  lemma CleanConcat(a: string, b: string)
    ensures Clean(a + b) <==> Clean(a) && Clean(b)
  {
    if Clean(a + b) {
      forall i | 0 <= i < |a| ensures a[i] != NAIRA_SIGN && a[i] != '%' { assert (a + b)[i] == a[i]; }
      forall i | 0 <= i < |b| ensures b[i] != NAIRA_SIGN && b[i] != '%' { assert (a + b)[|a| + i] == b[i]; }
    }
  }

  lemma EmptyIsWellFormed(spaced: bool)
    ensures WellFormed([], spaced)
  {
  }

  lemma StartWithWords(text: string, rest: seq<Piece>, spaced: bool)
    requires Clean(text) && WellFormed(rest, if text == "" then spaced else EndsInSpace(text))
    ensures WellFormed([Words(text)] + rest, spaced)
  {
    assert ([Words(text)] + rest)[1..] == rest;
  }

  lemma StartWithAmount(kobo: nat, rest: seq<Piece>, spaced: bool)
    requires WellFormed(rest, false) && (rest != [] ==> StartsInSpace(rest[0]))
    ensures WellFormed([Amount(kobo)] + rest, spaced)
  {
    assert ([Amount(kobo)] + rest)[1..] == rest;
  }

  lemma StartWithPercent(n: nat, rest: seq<Piece>)
    requires WellFormed(rest, false)
    ensures WellFormed([Percent(n)] + rest, true)
  {
    assert ([Percent(n)] + rest)[1..] == rest;
  }

  lemma LastWords(text: string, spaced: bool)
    requires Clean(text)
    ensures WellFormed([Words(text)], spaced)
  {
    EmptyIsWellFormed(if text == "" then spaced else EndsInSpace(text));
    StartWithWords(text, [], spaced);
    assert [Words(text)] + [] == [Words(text)];
  }

  /** An amount, and words after it. */
  lemma AmountThenWords(kobo: nat, after: string, spaced: bool)
    requires Clean(after) && after != "" && after[0] == ' '
    ensures WellFormed([Amount(kobo), Words(after)], spaced)
  {
    hide Clean, WellFormed;
    LastWords(after, false);
    StartWithAmount(kobo, [Words(after)], spaced);
    assert [Amount(kobo)] + [Words(after)] == [Amount(kobo), Words(after)];
  }

  /** Words, an amount, words. */
  lemma OneAmount(before: string, kobo: nat, after: string, spaced: bool)
    requires Clean(before) && Clean(after) && after != "" && after[0] == ' '
    ensures WellFormed([Words(before), Amount(kobo), Words(after)], spaced)
  {
    hide Clean, WellFormed;
    AmountThenWords(kobo, after, if before == "" then spaced else EndsInSpace(before));
    StartWithWords(before, [Amount(kobo), Words(after)], spaced);
    assert [Words(before)] + [Amount(kobo), Words(after)] == [Words(before), Amount(kobo), Words(after)];
  }

  /** Words up to a percentage, and words after it. */
  lemma OnePercent(before: string, n: nat, after: string, spaced: bool)
    requires Clean(before) && EndsInSpace(before) && Clean(after)
    ensures WellFormed([Words(before), Percent(n), Words(after)], spaced)
  {
    hide Clean, WellFormed;
    LastWords(after, false);
    StartWithPercent(n, [Words(after)]);
    StartWithWords(before, [Percent(n)] + [Words(after)], spaced);
    assert [Words(before)] + ([Percent(n)] + [Words(after)]) == [Words(before), Percent(n), Words(after)];
  }

  /** Words and an amount in front of pieces that start with a space. */
  lemma OpenWithAmount(before: string, kobo: nat, rest: seq<Piece>, spaced: bool)
    requires Clean(before) && rest != [] && StartsInSpace(rest[0]) && WellFormed(rest, false)
    ensures WellFormed([Words(before), Amount(kobo)] + rest, spaced)
  {
    hide Clean, WellFormed;
    StartWithAmount(kobo, rest, if before == "" then spaced else EndsInSpace(before));
    StartWithWords(before, [Amount(kobo)] + rest, spaced);
    assert [Words(before)] + ([Amount(kobo)] + rest) == [Words(before), Amount(kobo)] + rest;
  }

  lemma TitleFirst(title: string, body: seq<Piece>)
    requires Clean(title) && WellFormed(body, true)
    ensures WellFormed([Words(title)] + [Words(" ")] + body, false)
  {
    StartWithWords(" ", body, if title == "" then false else EndsInSpace(title));
    StartWithWords(title, [Words(" ")] + body, false);
    assert [Words(title)] + ([Words(" ")] + body) == [Words(title)] + [Words(" ")] + body;
  }

  lemma PeriodWords(tail: string)
    requires Clean(tail)
    ensures Clean(THIS_PERIOD + tail) && (THIS_PERIOD + tail)[0] == ' '
  {
    CleanConcat(THIS_PERIOD, tail);
  }

  lemma HeadlineIsWellFormed(facts: InsightFacts)
    ensures WellFormed(Headline(facts), false)
  {
    var spent := facts.current.spent;
    hide Clean, WellFormed, THIS_PERIOD;
    CleanHeadline();
    match facts.spentChangePercent {
      case None =>
        OneAmount("You spent ", spent, THIS_PERIOD + ".", false);
        assert Headline(facts) == [Words("You spent "), Amount(spent), Words(THIS_PERIOD + ".")];
      case Some(p) =>
        OneAmount("You spent ", spent, THIS_PERIOD + ", the same as the 30 days before.", false);
        var after := (if p < 0 then " less" else " more") + " than the 30 days before.";
        var rest := [Words(THIS_PERIOD + ", "), Percent(Abs(p)), Words(after)];
        OnePercent(THIS_PERIOD + ", ", Abs(p), after, false);
        OpenWithAmount("You spent ", spent, rest, false);
        if p == 0 {
          assert Headline(facts) == [Words("You spent "), Amount(spent), Words(THIS_PERIOD + ", the same as the 30 days before.")];
        } else {
          assert Headline(facts) == [Words("You spent "), Amount(spent)] + rest;
        }
    }
  }

  lemma CleanParts()
    ensures Clean("You spent ")
    ensures Clean(".") && Clean(", the same as the 30 days before.") && Clean(", ")
    ensures EndsInSpace(THIS_PERIOD + ", ")
  {
  }

  lemma MoreOrLess()
    ensures Clean(" less" + " than the 30 days before.") && Clean(" more" + " than the 30 days before.")
  {
    CleanConcat(" less", " than the 30 days before.");
    CleanConcat(" more", " than the 30 days before.");
  }

  lemma CleanHeadline()
    ensures Clean("You spent ")
    ensures Clean(THIS_PERIOD + ".") && (THIS_PERIOD + ".")[0] == ' '
    ensures Clean(THIS_PERIOD + ", the same as the 30 days before.") && (THIS_PERIOD + ", the same as the 30 days before.")[0] == ' '
    ensures Clean(THIS_PERIOD + ", ") && (THIS_PERIOD + ", ")[0] == ' ' && EndsInSpace(THIS_PERIOD + ", ")
    ensures Clean(" less" + " than the 30 days before.") && Clean(" more" + " than the 30 days before.")
  {
    hide Clean, THIS_PERIOD;
    CleanParts();
    PeriodWords(".");
    PeriodWords(", the same as the 30 days before.");
    PeriodWords(", ");
    MoreOrLess();
  }

  lemma HeadlineQuotes(facts: InsightFacts)
    ensures Quotes(Headline(facts), AllowedFor(facts))
  {
    hide THIS_PERIOD;
  }

  lemma CategoryIsWellFormed(c: CategoryFact)
    ensures WellFormed(Checked(CategorySentence(c)), false)
  {
    var name := Label(c.category);
    var on := " on " + Lower(name);
    CleanCategory(c.category);
    hide Clean, WellFormed, Label, Lower;
    var title, body := name + " led your spending", CategorySentence(c).body;
    match c.changePercent {
      case None =>
        LastWords(".", false);
        LastWords(".", true);
        CloseCategory(c.current, on, [Words(".")]);
        assert body == [Words("You spent "), Amount(c.current), Words(on)] + [Words(".")];
      case Some(p) =>
        if p == 0 {
          LastWords(", the same as before.", false);
          LastWords(", the same as before.", true);
          CloseCategory(c.current, on, [Words(", the same as before.")]);
          assert body == [Words("You spent "), Amount(c.current), Words(on)] + [Words(", the same as before.")];
        } else {
          var direction := if 0 < p then ", up " else ", down ";
          var rest := [Words(direction), Percent(Abs(p)), Words(" on the 30 days before.")];
          OnePercent(direction, Abs(p), " on the 30 days before.", false);
          OnePercent(direction, Abs(p), " on the 30 days before.", true);
          CloseCategory(c.current, on, rest);
          assert body == [Words("You spent "), Amount(c.current), Words(on)] + rest;
        }
    }
    TitleFirst(title, body);
  }

  lemma CleanCategory(c: SpendingCategory)
    ensures Clean("You spent ") && Clean(".") && Clean(", the same as before.") && Clean(" on the 30 days before.")
    ensures Clean(", up ") && Clean(", down ") && EndsInSpace(", up ") && EndsInSpace(", down ")
    ensures Clean(Label(c) + " led your spending") && Clean(" on " + Lower(Label(c)))
    ensures (" on " + Lower(Label(c)))[0] == ' '
  {
    LabelsAreClean(c);
    CleanConcat(Label(c), " led your spending");
    CleanConcat(" on ", Lower(Label(c)));
  }

  lemma CloseCategory(kobo: nat, on: string, rest: seq<Piece>)
    requires Clean("You spent ") && Clean(on) && on != "" && on[0] == ' '
    requires WellFormed(rest, false) && WellFormed(rest, true)
    ensures WellFormed([Words("You spent "), Amount(kobo), Words(on)] + rest, true)
  {
    hide Clean, WellFormed;
    StartWithWords(on, rest, false);
    OpenWithAmount("You spent ", kobo, [Words(on)] + rest, true);
    assert [Words("You spent "), Amount(kobo)] + ([Words(on)] + rest) == [Words("You spent "), Amount(kobo), Words(on)] + rest;
  }

  lemma CleanRecipient()
    ensures Clean("You sent the most to ") && Clean(" across ") && Clean(" payment") && Clean("s") && Clean("") && Clean(" this period.")
  {
  }

  lemma RecipientIsWellFormed(r: RecipientFact)
    requires Clean(r.name)
    ensures WellFormed(Checked(RecipientSentence(r)), false)
  {
    var count, plural := Digits(r.count), if r.count == 1 then "" else "s";
    DigitsAreClean(r.count);
    CleanRecipient();
    hide Clean, WellFormed, Digits;
    CleanConcat("You sent the most to ", r.name);
    CleanConcat(" across ", count);
    CleanConcat(" across " + count, " payment");
    CleanConcat(" across " + count + " payment", plural);
    CleanConcat(" across " + count + " payment" + plural, " this period.");
    var after := " across " + count + " payment" + plural + " this period.";
    assert after[0] == ' ';
    AmountThenWords(r.total, after, true);
    TitleFirst("You sent the most to " + r.name, [Amount(r.total), Words(after)]);
  }

  lemma CleanRegular()
    ensures Clean("A regular payment to ") && Clean("You've paid ") && Clean(" about ")
  {
  }

  lemma CleanThreeMonths()
    ensures Clean(" in each of the last three months.")
  {
  }

  lemma RegularIsWellFormed(r: RegularFact)
    requires Clean(r.name)
    ensures WellFormed(Checked(RegularSentence(r)), false)
  {
    CleanRegular();
    CleanThreeMonths();
    hide Clean, WellFormed;
    CleanConcat("A regular payment to ", r.name);
    CleanConcat("You've paid ", r.name);
    CleanConcat("You've paid " + r.name, " about ");
    OneAmount("You've paid " + r.name + " about ", r.typicalAmount, " in each of the last three months.", true);
    TitleFirst("A regular payment to " + r.name, RegularSentence(r).body);
  }

  lemma CleanUnusual()
    ensures Clean("A larger payment than usual") && Clean(" to ") && Clean("") && Clean(" on ") && Clean(" is about ")
    ensures Clean(" times your typical payment.")
  {
    CleanTypical();
  }

  lemma CleanTypical()
    ensures Clean(" times your typical payment.")
  {
  }

  lemma UnusualWordsAreClean(u: UnusualFact, to: string)
    requires Clean(u.date) && Clean(to)
    ensures Clean(to + " on " + u.date + " is about " + Digits(u.timesTypical) + " times your typical payment.")
  {
    var times := Digits(u.timesTypical);
    DigitsAreClean(u.timesTypical);
    CleanUnusual();
    hide Clean, Digits;
    CleanConcat(to, " on ");
    CleanConcat(to + " on ", u.date);
    CleanConcat(to + " on " + u.date, " is about ");
    CleanConcat(to + " on " + u.date + " is about ", times);
    CleanConcat(to + " on " + u.date + " is about " + times, " times your typical payment.");
  }

  lemma UnusualIsWellFormed(u: UnusualFact)
    requires Clean(u.date) && (u.recipient.Some? ==> Clean(u.recipient.value))
    ensures WellFormed(Checked(UnusualSentence(u)), false)
  {
    var to := if u.recipient.Some? then " to " + u.recipient.value else "";
    CleanUnusual();
    hide Clean, WellFormed, Digits;
    if u.recipient.Some? { CleanConcat(" to ", u.recipient.value); }
    UnusualWordsAreClean(u, to);
    var after := to + " on " + u.date + " is about " + Digits(u.timesTypical) + " times your typical payment.";
    assert after[0] == ' ';
    AmountThenWords(u.amount, after, true);
    TitleFirst("A larger payment than usual", [Amount(u.amount), Words(after)]);
  }

  // ---------- The template ----------

  /** Nothing was spent and nothing came in. */
  predicate Quiet(facts: InsightFacts) {
    facts.current.spent == 0 && facts.current.moneyIn == 0
  }

  const QUIET_TEXT: string := "Not much has happened in your wallet" + THIS_PERIOD + "."
  const QUIET_ADVICE: string := "Once you add, send or withdraw money," + " your insights will appear here."
  const QUIET_HEADLINE: seq<Piece> := [Words(QUIET_TEXT)]
  const QUIET_TIP: Insight := Insight(Tip, [Words("Nothing to analyse yet")], [Words(QUIET_ADVICE)])

  predicate AcceptedInsight(i: Insight, allowed: Allowed) {
    Accepted(Text(Checked(i)), allowed)
  }

  function CategoryPart(facts: InsightFacts): seq<Insight> {
    var top := TopCategory(facts.categories);
    if top.Some? then [CategorySentence(facts.categories[top.value])] else []
  }

  function RecipientPart(facts: InsightFacts): seq<Insight> {
    if facts.topRecipients != [] then [RecipientSentence(facts.topRecipients[0])] else []
  }

  function RegularPart(facts: InsightFacts): seq<Insight> {
    if facts.regularPayments != [] then [RegularSentence(facts.regularPayments[0])] else []
  }

  function UnusualPart(facts: InsightFacts): seq<Insight> {
    if facts.unusualSpends != [] then [UnusualSentence(facts.unusualSpends[0])] else []
  }

  /** Everything the template says: the headline and at most one insight of each kind, in this order. */
  function Template(facts: InsightFacts): (seq<Piece>, seq<Insight>) {
    if Quiet(facts) then (QUIET_HEADLINE, [QUIET_TIP])
    else (Headline(facts), CategoryPart(facts) + RecipientPart(facts) + RegularPart(facts) + UnusualPart(facts))
  }

  method TemplateInsights(facts: InsightFacts) returns (headline: seq<Piece>, insights: seq<Insight>)
    ensures (headline, insights) == Template(facts)
    ensures |insights| <= 4
    ensures headline == (if facts.current.spent == 0 && facts.current.moneyIn == 0 then QUIET_HEADLINE else Headline(facts))
    ensures facts.current.spent == 0 && facts.current.moneyIn == 0 ==> insights == [QUIET_TIP]
    ensures facts.current.spent != 0 || facts.current.moneyIn != 0 ==>
              insights == (var top := TopCategory(facts.categories); if top.Some? then [CategorySentence(facts.categories[top.value])] else [])
                          + (if facts.topRecipients != [] then [RecipientSentence(facts.topRecipients[0])] else [])
                          + (if facts.regularPayments != [] then [RegularSentence(facts.regularPayments[0])] else [])
                          + (if facts.unusualSpends != [] then [UnusualSentence(facts.unusualSpends[0])] else [])
  {
    if facts.current.spent == 0 && facts.current.moneyIn == 0 {
      return QUIET_HEADLINE, [QUIET_TIP];
    }
    headline := Headline(facts);
    hide Headline, TopCategory, CategorySentence, RecipientSentence, RegularSentence, UnusualSentence;
    insights := [];
    var top := TopCategory(facts.categories);
    if top.Some? {
      insights := insights + [CategorySentence(facts.categories[top.value])];
    }
    assert insights == CategoryPart(facts);
    if facts.topRecipients != [] {
      insights := insights + [RecipientSentence(facts.topRecipients[0])];
    }
    assert insights == CategoryPart(facts) + RecipientPart(facts);
    if facts.regularPayments != [] {
      insights := insights + [RegularSentence(facts.regularPayments[0])];
    }
    assert insights == CategoryPart(facts) + RecipientPart(facts) + RegularPart(facts);
    if facts.unusualSpends != [] {
      insights := insights + [UnusualSentence(facts.unusualSpends[0])];
    }
    assert insights == CategoryPart(facts) + RecipientPart(facts) + RegularPart(facts) + UnusualPart(facts);
  }

  /** When names and dates quote no figures, every text of the template passes the check built from the same facts. */
  lemma {:induction false} TemplatePasses(facts: InsightFacts)
    requires CleanNames(facts)
    ensures Accepted(Text(Template(facts).0), AllowedFor(facts))
    ensures forall i :: i in Template(facts).1 ==> AcceptedInsight(i, AllowedFor(facts))
  {
    QuietIsAccepted(AllowedFor(facts));
    HeadlineIsAccepted(facts);
    PartsAreAccepted(facts);
    hide CleanNames, Accepted, AcceptedInsight, AllowedFor, Headline, Text, QUIET_HEADLINE, QUIET_TIP;
    hide CategoryPart, RecipientPart, RegularPart, UnusualPart;
  }

  lemma PartsAreAccepted(facts: InsightFacts)
    requires CleanNames(facts)
    ensures forall i :: i in CategoryPart(facts) + RecipientPart(facts) + RegularPart(facts) + UnusualPart(facts) ==>
              AcceptedInsight(i, AllowedFor(facts))
  {
    hide CleanNames, AcceptedInsight, AllowedFor, TopCategory;
    hide CategorySentence, RecipientSentence, RegularSentence, UnusualSentence;
    var top := TopCategory(facts.categories);
    if top.Some? { CategoryIsAccepted(facts, top.value); }
    if facts.topRecipients != [] { RecipientIsAccepted(facts); }
    if facts.regularPayments != [] { RegularIsAccepted(facts); }
    if facts.unusualSpends != [] { UnusualIsAccepted(facts); }
  }

  lemma QuietIsAccepted(allowed: Allowed)
    ensures Accepted(Text(QUIET_HEADLINE), allowed) && AcceptedInsight(QUIET_TIP, allowed)
  {
    CleanQuiet();
    hide QUIET_TEXT, QUIET_ADVICE, Clean, WellFormed, Text;
    LastWords(QUIET_TEXT, false);
    LastWords(QUIET_ADVICE, true);
    TitleFirst("Nothing to analyse yet", [Words(QUIET_ADVICE)]);
    CheckIsExact(QUIET_HEADLINE, allowed);
    CheckIsExact(Checked(QUIET_TIP), allowed);
  }

  lemma CleanQuiet()
    ensures Clean(QUIET_TEXT) && Clean("Nothing to analyse yet") && Clean(QUIET_ADVICE)
  {
    CleanNotMuch();
    CleanOnceYou();
    CleanYourInsights();
    PeriodWords(".");
    hide Clean, THIS_PERIOD;
    CleanConcat("Not much has happened in your wallet", THIS_PERIOD + ".");
    assert "Not much has happened in your wallet" + (THIS_PERIOD + ".") == QUIET_TEXT;
    CleanConcat("Once you add, send or withdraw money,", " your insights will appear here.");
  }

  lemma CleanNotMuch()
    ensures Clean("Not much has happened in your wallet")
  {
  }

  lemma CleanOnceYou()
    ensures Clean("Once you add, send or withdraw money,") && Clean("Nothing to analyse yet")
  {
  }

  lemma CleanYourInsights()
    ensures Clean(" your insights will appear here.")
  {
  }

  lemma HeadlineIsAccepted(facts: InsightFacts)
    ensures Accepted(Text(Headline(facts)), AllowedFor(facts))
  {
    HeadlineIsWellFormed(facts);
    HeadlineQuotes(facts);
    hide *;
    CheckIsExact(Headline(facts), AllowedFor(facts));
  }

  lemma CategoryIsAccepted(facts: InsightFacts, i: nat)
    requires i < |facts.categories|
    ensures AcceptedInsight(CategorySentence(facts.categories[i]), AllowedFor(facts))
  {
    var c, allowed := facts.categories[i], AllowedFor(facts);
    assert c.current in allowed.amounts && (c.changePercent.Some? ==> Abs(c.changePercent.value) in allowed.percents);
    hide AllowedFor, WellFormed, Accepted, Text, Label, Lower, CategorySentence, Quotes;
    CategoryIsWellFormed(c);
    CategoryQuotes(c, allowed);
    CheckIsExact(Checked(CategorySentence(c)), allowed);
  }

  lemma CategoryQuotes(c: CategoryFact, allowed: Allowed)
    requires c.current in allowed.amounts && (c.changePercent.Some? ==> Abs(c.changePercent.value) in allowed.percents)
    ensures Quotes(Checked(CategorySentence(c)), allowed)
  {
    hide Label, Lower;
  }

  lemma RecipientIsAccepted(facts: InsightFacts)
    requires facts.topRecipients != []
    ensures CleanNames(facts) ==> AcceptedInsight(RecipientSentence(facts.topRecipients[0]), AllowedFor(facts))
  {
    var r, allowed := facts.topRecipients[0], AllowedFor(facts);
    assert r.total in allowed.amounts;
    hide AllowedFor, WellFormed, Accepted, Text, Digits;
    if CleanNames(facts) {
      RecipientIsWellFormed(r);
      assert Quotes(Checked(RecipientSentence(r)), allowed);
      CheckIsExact(Checked(RecipientSentence(r)), allowed);
    }
  }

  lemma RegularIsAccepted(facts: InsightFacts)
    requires facts.regularPayments != []
    ensures CleanNames(facts) ==> AcceptedInsight(RegularSentence(facts.regularPayments[0]), AllowedFor(facts))
  {
    var r, allowed := facts.regularPayments[0], AllowedFor(facts);
    assert r.typicalAmount in allowed.amounts;
    hide AllowedFor, WellFormed, Accepted, Text;
    if CleanNames(facts) {
      RegularIsWellFormed(r);
      assert Quotes(Checked(RegularSentence(r)), allowed);
      CheckIsExact(Checked(RegularSentence(r)), allowed);
    }
  }

  lemma UnusualIsAccepted(facts: InsightFacts)
    requires facts.unusualSpends != []
    ensures CleanNames(facts) ==> AcceptedInsight(UnusualSentence(facts.unusualSpends[0]), AllowedFor(facts))
  {
    var u, allowed := facts.unusualSpends[0], AllowedFor(facts);
    assert u.amount in allowed.amounts;
    hide AllowedFor, WellFormed, Accepted, Text, Digits;
    if CleanNames(facts) {
      UnusualIsWellFormed(u);
      assert Quotes(Checked(UnusualSentence(u)), allowed);
      CheckIsExact(Checked(UnusualSentence(u)), allowed);
    }
  }

  // ---------- How the sentences read ----------

  lemma {:induction false} TextConcat(a: seq<Piece>, b: seq<Piece>)
    ensures Text(a + b) == Text(a) + Text(b)
  {
    if a == [] {
      assert a + b == b;
    } else {
      assert (a + b)[1..] == a[1..] + b;
      TextConcat(a[1..], b);
    }
  }

  lemma TextOfOne(p: Piece)
    ensures Text([p]) == match p case Words(t) => t case Amount(k) => Naira(k) case Percent(n) => Digits(n) + "%"
  {
    assert [p][1..] == [];
    assert Text([]) == "";
  }

  lemma ThreePieces(a: string, k: nat, c: string)
    ensures Text([Words(a), Amount(k), Words(c)]) == a + Naira(k) + c
  {
    hide Text, Naira;
    assert [Words(a), Amount(k), Words(c)] == [Words(a)] + [Amount(k)] + [Words(c)];
    TextConcat([Words(a)] + [Amount(k)], [Words(c)]);
    TextConcat([Words(a)], [Amount(k)]);
    TextOfOne(Words(a));
    TextOfOne(Amount(k));
    TextOfOne(Words(c));
  }

  lemma FivePieces(a: string, k: nat, c: string, n: nat, d: string)
    ensures Text([Words(a), Amount(k), Words(c), Percent(n), Words(d)]) == a + Naira(k) + c + Digits(n) + "%" + d
  {
    hide Text, Naira, Digits;
    assert [Words(a), Amount(k), Words(c), Percent(n), Words(d)] == [Words(a), Amount(k), Words(c)] + [Percent(n)] + [Words(d)];
    TextConcat([Words(a), Amount(k), Words(c)] + [Percent(n)], [Words(d)]);
    TextConcat([Words(a), Amount(k), Words(c)], [Percent(n)]);
    ThreePieces(a, k, c);
    TextOfOne(Percent(n));
    TextOfOne(Words(d));
  }

  lemma Five(a: Piece, b: Piece, c: Piece, d: Piece, e: Piece)
    ensures [a, b] + [c] == [a, b, c]
    ensures [a, b] + [c, d, e] == [a, b, c, d, e]
  {
  }

  /** The headline, as a reader sees it: less exactly when the change is below zero. */
  lemma HeadlineReads(facts: InsightFacts)
    ensures var spent := Naira(facts.current.spent);
      Text(Headline(facts)) ==
      match facts.spentChangePercent
      case None => "You spent " + spent + (THIS_PERIOD + ".")
      case Some(p) =>
        if p == 0 then "You spent " + spent + (THIS_PERIOD + ", the same as the 30 days before.")
        else "You spent " + spent + (THIS_PERIOD + ", ") + Digits(Abs(p)) + "%" + ((if p < 0 then " less" else " more") + " than the 30 days before.")
  {
    hide Text, Naira, Digits, THIS_PERIOD;
    var you, spent := "You spent ", facts.current.spent;
    match facts.spentChangePercent
    case None =>
      Five(Words(you), Amount(spent), Words(THIS_PERIOD + "."), Words(you), Words(you));
      ThreePieces(you, spent, THIS_PERIOD + ".");
    case Some(p) =>
      if p == 0 {
        Five(Words(you), Amount(spent), Words(THIS_PERIOD + ", the same as the 30 days before."), Words(you), Words(you));
        ThreePieces(you, spent, THIS_PERIOD + ", the same as the 30 days before.");
      } else {
        var ending := (if p < 0 then " less" else " more") + " than the 30 days before.";
        Five(Words(you), Amount(spent), Words(THIS_PERIOD + ", "), Percent(Abs(p)), Words(ending));
        FivePieces(you, spent, THIS_PERIOD + ", ", Abs(p), ending);
      }
  }

  lemma PeriodReads()
    ensures THIS_PERIOD == " in the last 30 days"
  {
  }

  /** The category sentence: up exactly when the change is above zero. */
  lemma CategoryReads(top: CategoryFact)
    ensures var says := CategorySentence(top);
      && Text(says.title) == Label(top.category) + " led your spending"
      && var opening := "You spent " + Naira(top.current) + (" on " + Lower(Label(top.category)));
         Text(says.body) ==
         match top.changePercent
         case None => opening + "."
         case Some(p) =>
           if p == 0 then opening + ", the same as before."
           else opening + (if 0 < p then ", up " else ", down ") + Digits(Abs(p)) + "%" + " on the 30 days before."
  {
    hide Text, Naira, Digits, Label, Lower;
    var you, on := "You spent ", " on " + Lower(Label(top.category));
    TextOfOne(Words(Label(top.category) + " led your spending"));
    var opening := [Words(you), Amount(top.current), Words(on)];
    ThreePieces(you, top.current, on);
    match top.changePercent
    case None =>
      TextConcat(opening, [Words(".")]);
      TextOfOne(Words("."));
    case Some(p) =>
      if p == 0 {
        TextConcat(opening, [Words(", the same as before.")]);
        TextOfOne(Words(", the same as before."));
      } else {
        ChangeReads(opening, if 0 < p then ", up " else ", down ", Abs(p), " on the 30 days before.");
      }
  }

  lemma ChangeReads(opening: seq<Piece>, a: string, n: nat, b: string)
    ensures Text(opening + [Words(a), Percent(n), Words(b)]) == Text(opening) + a + Digits(n) + "%" + b
  {
    hide Text, Digits;
    assert opening + [Words(a), Percent(n), Words(b)] == opening + [Words(a)] + [Percent(n)] + [Words(b)];
    TextConcat(opening + [Words(a)] + [Percent(n)], [Words(b)]);
    TextConcat(opening + [Words(a)], [Percent(n)]);
    TextConcat(opening, [Words(a)]);
    TextOfOne(Words(a));
    TextOfOne(Percent(n));
    TextOfOne(Words(b));
  }

  lemma AmountThen(k: nat, c: string)
    ensures Text([Amount(k), Words(c)]) == Naira(k) + c
  {
    hide Text, Naira;
    assert [Amount(k), Words(c)] == [Amount(k)] + [Words(c)];
    TextConcat([Amount(k)], [Words(c)]);
    TextOfOne(Amount(k));
    TextOfOne(Words(c));
  }

  /** The other three. */
  lemma OthersRead(r: RecipientFact, regular: RegularFact, u: UnusualFact)
    ensures Text(RecipientSentence(r).title) == "You sent the most to " + r.name
    ensures Text(RecipientSentence(r).body) ==
            Naira(r.total) + (" across " + Digits(r.count) + " payment" + (if r.count == 1 then "" else "s") + " this period.")
    ensures Text(RegularSentence(regular).title) == "A regular payment to " + regular.name
    ensures Text(RegularSentence(regular).body) ==
            "You've paid " + regular.name + " about " + Naira(regular.typicalAmount) + " in each of the last three months."
    ensures Text(UnusualSentence(u).title) == "A larger payment than usual"
    ensures Text(UnusualSentence(u).body) ==
            Naira(u.amount) + ((if u.recipient.Some? then " to " + u.recipient.value else "") + " on " + u.date + " is about "
                               + Digits(u.timesTypical) + " times your typical payment.")
  {
    hide Text, Naira, Digits;
    TextOfOne(Words("You sent the most to " + r.name));
    AmountThen(r.total, " across " + Digits(r.count) + " payment" + (if r.count == 1 then "" else "s") + " this period.");
    TextOfOne(Words("A regular payment to " + regular.name));
    ThreePieces("You've paid " + regular.name + " about ", regular.typicalAmount, " in each of the last three months.");
    TextOfOne(Words("A larger payment than usual"));
    AmountThen(u.amount, (if u.recipient.Some? then " to " + u.recipient.value else "") + " on " + u.date + " is about "
                         + Digits(u.timesTypical) + " times your typical payment.");
  }

  /** The category told of is the first named one with spending. */
  lemma {:induction false} TopIsFirst(categories: seq<CategoryFact>, i: nat)
    ensures var top := TopCategory(categories);
      && (top.Some? ==> categories[top.value].category != Uncategorised && categories[top.value].current != 0)
      && (i < |categories| && categories[i].category != Uncategorised && categories[i].current != 0 ==> top.Some? && top.value <= i)
  {
    if categories != [] {
      TopIsFirst(categories[1..], if 0 < i then i - 1 else 0);
      if 0 < i < |categories| { assert categories[1..][i - 1] == categories[i]; }
    }
  }

  /** The figures a text may quote are those of the facts, and no others. */
  lemma AllowedAre(facts: InsightFacts, kobo: nat, n: nat)
    ensures kobo in AllowedFor(facts).amounts <==>
            || kobo == facts.current.moneyIn || kobo == facts.current.spent || kobo == facts.current.withdrawn
            || kobo == facts.previous.moneyIn || kobo == facts.previous.spent || kobo == facts.previous.withdrawn
            || (exists c :: c in facts.categories && (kobo == c.current || kobo == c.previous))
            || (exists r :: r in facts.topRecipients && kobo == r.total)
            || facts.largestSpend == Some(kobo)
            || (exists r :: r in facts.regularPayments && kobo == r.typicalAmount)
            || (exists u :: u in facts.unusualSpends && kobo == u.amount)
    ensures n in AllowedFor(facts).percents <==>
            || facts.spentChangePercent == Some(n) || facts.spentChangePercent == Some(0 - n)
            || (exists c :: c in facts.categories && (c.changePercent == Some(n) || c.changePercent == Some(0 - n)))
  {
  }
}
