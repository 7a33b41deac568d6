/** The double-entry journal: posting, mirroring and reading it. */
module Ledger {
  import opened Basics
  import opened Tables

  // ---------- Writing ----------

  /** The two-line entry of a movement: `debit` gains `amount`, `credit` loses it. */
  function Movement(kind: EntryType, amount: Amount, debit: Account, credit: Account,
                    reference: Option<Reference>, transactionId: Option<TxId>, at: int): Entry {
    Entry(kind, reference, transactionId, [Line(debit, amount), Line(credit, -(amount as int))], at)
  }

  function NegatedLines(lines: seq<Line>): seq<Line> {
    seq(|lines|, i requires 0 <= i < |lines| => Line(lines[i].account, -lines[i].amount))
  }

  /** The reversal of an earlier entry: every line negated, same business reference. */
  function Mirror(e: Entry, transactionId: Option<TxId>, at: int): Entry {
    Entry(ReversalEntry, e.reference, transactionId, NegatedLines(e.lines), at)
  }

  // ---------- Looking entries up ----------

  predicate ForTransaction(e: Entry, id: TxId) {
    e.transactionId == Some(id)
  }

  predicate ForTransfer(e: Entry, transfer: nat) {
    e.reference == Some(TransferRef(transfer)) && e.kind != ReversalEntry
  }

  predicate OpensWallet(e: Entry, u: UserId) {
    e.kind == OpeningBalance && exists i :: 0 <= i < |e.lines| && e.lines[i].account == Wallet(u)
  }

  /** The first entry matching `p`, as findFirst. */
  function FindEntry(journal: seq<Entry>, p: Entry -> bool): (r: Option<nat>)
    ensures r.Some? ==> r.value < |journal| && p(journal[r.value])
    ensures r.None? ==> forall k :: 0 <= k < |journal| ==> !p(journal[k])
  {
    if journal == [] then None
    else
      var n := |journal| - 1;
      var earlier := FindEntry(journal[..n], p);
      if earlier.Some? then earlier
      else if p(journal[n]) then Some(n)
      else None
  }

  lemma FindEntryAppend(journal: seq<Entry>, e: Entry, p: Entry -> bool)
    requires !p(e)
    ensures FindEntry(journal + [e], p) == FindEntry(journal, p)
  {
    assert (journal + [e])[..|journal|] == journal;
  }

  function FindByTransaction(journal: seq<Entry>, id: TxId): Option<nat> {
    FindEntry(journal, e => ForTransaction(e, id))
  }

  function FindByTransfer(journal: seq<Entry>, transfer: nat): Option<nat> {
    FindEntry(journal, e => ForTransfer(e, transfer))
  }

  function Opens(u: UserId): Entry -> bool {
    e => OpensWallet(e, u)
  }

  function FindOpening(journal: seq<Entry>, u: UserId): Option<nat> {
    FindEntry(journal, Opens(u))
  }

  // ---------- Reading balances ----------

  function OnAccount(a: Account): Line -> int {
    (l: Line) => if l.account == a then l.amount else 0
  }

  function LineAmount(): Line -> int {
    (l: Line) => l.amount
  }

  function EntryOn(a: Account): Entry -> int {
    (e: Entry) => SumBy(e.lines, OnAccount(a))
  }

  function EntryTotal(): Entry -> int {
    (e: Entry) => SumBy(e.lines, LineAmount())
  }

  function AccountBalance(journal: seq<Entry>, a: Account): int {
    SumBy(journal, EntryOn(a))
  }

  /** A wallet's balance according to the ledger: a liability, so minus the sum of its lines. */
  function WalletLedgerBalance(journal: seq<Entry>, u: UserId): int {
    -AccountBalance(journal, Wallet(u))
  }

  /** The sum of every line of the ledger. */
  function TrialBalance(journal: seq<Entry>): int {
    SumBy(journal, EntryTotal())
  }

  /** What the database's deferred trigger demands of every entry. */
  predicate Balanced(e: Entry) {
    2 <= |e.lines| && EntryTotal()(e) == 0
  }

  // ---------- What posting does to the readings ----------

  lemma SumOfTwo(a: Line, b: Line, f: Line -> int)
    ensures SumBy([a, b], f) == f(a) + f(b)
  {
    assert [a, b][..1] == [a];
    assert [a][..0] == [];
    assert SumBy([a], f) == f(a);
  }

  lemma TwoLines(e: Entry, d: Account, c: Account, amount: int, a: Account)
    requires e.lines == [Line(d, amount), Line(c, -amount)]
    ensures EntryOn(a)(e) == (if a == d then amount else 0) - (if a == c then amount else 0)
    ensures Balanced(e)
  {
    SumOfTwo(e.lines[0], e.lines[1], OnAccount(a));
    SumOfTwo(e.lines[0], e.lines[1], LineAmount());
  }

  lemma {:induction false} NegatedSum(lines: seq<Line>, f: Line -> int)
    requires forall l: Line :: f(Line(l.account, -l.amount)) == -f(l)
    ensures SumBy(NegatedLines(lines), f) == -SumBy(lines, f)
  {
    if lines != [] {
      var n := |lines| - 1;
      assert NegatedLines(lines)[..n] == NegatedLines(lines[..n]);
      NegatedSum(lines[..n], f);
    }
  }

  /** A mirror takes back, on every account, exactly what its original did. */
  lemma MirrorUndoes(e: Entry, transactionId: Option<TxId>, at: int, a: Account)
    ensures EntryOn(a)(Mirror(e, transactionId, at)) == -EntryOn(a)(e)
    ensures Balanced(e) ==> Balanced(Mirror(e, transactionId, at))
  {
    NegatedSum(e.lines, OnAccount(a));
    NegatedSum(e.lines, LineAmount());
  }

  lemma PostMoves(journal: seq<Entry>, e: Entry, a: Account)
    ensures AccountBalance(journal + [e], a) == AccountBalance(journal, a) + EntryOn(a)(e)
  {
    SumAppend(journal, e, EntryOn(a));
  }

  /** A ledger of balanced entries adds up to zero. */
  lemma TrialBalanceIsZero(journal: seq<Entry>)
    requires forall k :: 0 <= k < |journal| ==> Balanced(journal[k])
    ensures TrialBalance(journal) == 0
  {
    SumZero(journal, EntryTotal());
  }
}
