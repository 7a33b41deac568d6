/**
 * The database the services write to: one field per table. A service method runs each of its
 * database transactions under the wallets' locks, so a transaction's reads and writes are one
 * stretch of code; a transaction that throws has written nothing.
 */
module Database {
  import opened Basics
  import opened Tables
  import opened Ledger
  import opened Limits
  import opened Steps
  import opened LimitProofs

  /** Why a request fails. */
  datatype Failure =
    | WalletNotFound
    | InsufficientFunds
    | OverTheLimit(why: LimitError)
    | ReceiverNotFound
    | ReceiverHasNoWallet
    | ToYourself
    | TransactionNotFound
    | NotReversible
    | AlreadyReversed
    | PairNotFound
    | UserNotFound
    | PaymentNotFound
    | NoAnswerFromPaystack
    | InvalidAdjustment
    | AdjustmentNotFound
    | AlreadyDecided
    | NeedsAnotherAdmin
    | LockBusy

  class Store {
    var wallets: map<UserId, int>
    var rows: seq<Transaction>
    var journal: seq<Entry>
    var deposits: seq<Deposit>
    var withdrawals: seq<Withdrawal>
    var adjustments: seq<Adjustment>
    var tiers: map<UserId, Tier>
    var approvers: set<UserId>
    var transfers: nat
    ghost var commits: seq<TxId>
    const ledgerStart: int
    var clock: int

    constructor (ledgerStart: int)
      ensures State() == Db(map[], [], [], [], [], [], map[], {}, 0, [], ledgerStart, ledgerStart + 1)
    {
      wallets, rows, journal := map[], [], [];
      deposits, withdrawals, adjustments := [], [], [];
      tiers, approvers, transfers := map[], {}, 0;
      commits := [];
      this.ledgerStart := ledgerStart;
      clock := ledgerStart + 1;
    }

    /** All tables together. */
    ghost function State(): Db
      reads this
    {
      Db(wallets, rows, journal, deposits, withdrawals, adjustments, tiers, approvers, transfers, commits, ledgerStart, clock)
    }

    /** Refuses a payment over the per-payment or daily limit. */
    method AssertCanSend(u: UserId, amount: int) returns (refused: Option<LimitError>)
      ensures refused == CheckSend(State(), u, amount)
      ensures refused.None? <==> CanSend(State(), u, amount)
      ensures refused == Some(NoSuchUser) <==> u !in tiers
      ensures u in tiers ==>
                var per := if tiers[u] == Tier1 then 5_000_000 else 50_000_000;
                && (refused == Some(LimitError(PerTransactionLimit, per)) <==> per < amount)
                && (NothingAhead(State()) && 0 < amount <= per ==>
                      var left := (if tiers[u] == Tier1 then 20_000_000 else 200_000_000) - DaySpent(State(), u, DayStart(clock));
                      refused == if amount <= left then None else Some(LimitError(DailyLimit, Max(left, 0))))
    {
      if NothingAhead(State()) { CheckCountsTheDay(State(), u); }
      hide DaySpent, DayStart, SumBy;
      if u !in tiers {
        return Some(NoSuchUser);
      }
      var since := DayStart(clock);
      var spent := SumBy(rows, TransferOut(u, since)) + SumBy(withdrawals, WithdrawnOut(u, since));
      if PerTransaction(tiers[u]) < amount {
        return Some(LimitError(PerTransactionLimit, PerTransaction(tiers[u])));
      }
      var left := Max(DailyOut(tiers[u]) - spent, 0);
      if left < amount {
        return Some(LimitError(DailyLimit, left));
      }
      return None;
    }

    /** Refuses to add money past the tier's cap. */
    method AssertCanReceive(u: UserId, amount: int) returns (refused: Option<LimitError>)
      ensures refused == CheckReceive(State(), u, amount)
      ensures refused.None? <==> CanReceive(State(), u, amount)
      ensures 0 < amount ==>
                refused == if u !in tiers || (tiers[u] == Tier1 && u !in wallets) then Some(NoSuchUser)
                           else if tiers[u] == Tier1 && 50_000_000 < wallets[u] + amount
                           then Some(LimitError(BalanceCap, Max(50_000_000 - wallets[u], 0))) else None
    {
      if u !in tiers {
        return Some(NoSuchUser);
      }
      if MaxBalance(tiers[u]).None? {
        return None;
      }
      if u !in wallets {
        return Some(NoSuchUser);
      }
      var room := Max(MaxBalance(tiers[u]).value - wallets[u], 0);
      if room < amount {
        return Some(LimitError(BalanceCap, room));
      }
      return None;
    }

    /** Adds a row and returns its id. */
    method CreateRow(row: Transaction) returns (i: TxId)
      modifies this`rows
      ensures State() == AddRow(old(State()), row) && i == |old(rows)|
    {
      i := |rows|;
      rows := rows + [row];
    }

    method MarkRow(i: TxId, status: TxStatus)
      requires i < |rows|
      modifies this`rows
      ensures State() == SetStatus(old(State()), i, status)
    {
      rows := rows[i := rows[i].(status := status)];
    }

    /** Moves a wallet's balance by a row's amount and settles the row with the balances around it. */
    method Book(i: TxId)
      requires i < |rows| && rows[i].user in wallets
      modifies this`wallets, this`rows, this`commits
      ensures State() == BookRow(old(State()), i)
    {
      var row := rows[i];
      var balanceBefore := wallets[row.user];
      var balanceAfter := if row.kind == Credit then balanceBefore + row.amount else balanceBefore - row.amount;
      wallets := wallets[row.user := balanceAfter];
      rows := rows[i := row.(status := TxStatus.Successful, balanceBefore := balanceBefore, balanceAfter := balanceAfter)];
      commits := commits + [i];
    }

    /** Posts the two-line entry of a movement. */
    method Post(kind: EntryType, amount: Amount, debit: Account, credit: Account, reference: Option<Reference>, transactionId: Option<TxId>)
      modifies this`journal
      ensures State() == PostEntry(old(State()), Movement(kind, amount, debit, credit, reference, transactionId, clock))
    {
      var lines := [Line(debit, amount), Line(credit, -(amount as int))];
      journal := journal + [Entry(kind, reference, transactionId, lines, clock)];
    }

    /** Posts the mirror of the first entry with `p`, if there is one. */
    method PostMirror(p: Entry -> bool, transactionId: TxId) returns (mirrored: bool)
      modifies this`journal
      ensures mirrored <==> FindEntry(old(journal), p).Some?
      ensures State() == if mirrored
                         then PostEntry(old(State()), Mirror(old(journal)[FindEntry(old(journal), p).value], Some(transactionId), clock))
                         else old(State())
    {
      var found := FindEntry(journal, p);
      mirrored := found.Some?;
      if mirrored {
        journal := journal + [Mirror(journal[found.value], Some(transactionId), clock)];
      }
    }
  }
}
