/** Tier limits and the day they are counted over. */
module Limits {
  import opened Basics
  import opened Tables

  // Amounts in kobo
  const TIER_1_PER_TRANSACTION: int := 5_000_000
  const TIER_1_DAILY_OUT: int := 20_000_000
  const TIER_1_MAX_BALANCE: int := 50_000_000
  const TIER_2_PER_TRANSACTION: int := 50_000_000
  const TIER_2_DAILY_OUT: int := 200_000_000

  const LIMITS_UTC_OFFSET_HOURS: int := 1
  const DAY_MS: int := 24 * 60 * 60 * 1000
  const OFFSET_MS: int := LIMITS_UTC_OFFSET_HOURS * 60 * 60 * 1000

  function PerTransaction(t: Tier): int {
    if t == Tier1 then TIER_1_PER_TRANSACTION else TIER_2_PER_TRANSACTION
  }

  function DailyOut(t: Tier): int {
    if t == Tier1 then TIER_1_DAILY_OUT else TIER_2_DAILY_OUT
  }

  function MaxBalance(t: Tier): Option<int> {
    if t == Tier1 then Some(TIER_1_MAX_BALANCE) else None
  }

  /** Midnight Nigerian time at the start of the day holding `now`. Dafny's `/` floors here. */
  function DayStart(now: int): int {
    (now + OFFSET_MS) / DAY_MS * DAY_MS - OFFSET_MS
  }

  function ResetsAt(now: int): int {
    DayStart(now) + DAY_MS
  }

  function TransferOut(u: UserId, since: int): Transaction -> int {
    (t: Transaction) =>
      if t.user == u && t.kind == Debit && t.status == TxStatus.Successful && t.transferId.Some? && since <= t.timestamp
      then t.amount else 0
  }

  function WithdrawnOut(u: UserId, since: int): Withdrawal -> int {
    (w: Withdrawal) =>
      if w.user == u && w.status != WithdrawalStatus.Failed && w.status != WithdrawalStatus.Reversed && since <= w.createdAt
      then w.amount else 0
  }

  /** What has left the wallet today: transfers sent plus withdrawals still standing. */
  function SpentToday(db: Db, u: UserId): int {
    var since := DayStart(db.clock);
    SumBy(db.rows, TransferOut(u, since)) + SumBy(db.withdrawals, WithdrawnOut(u, since))
  }

  datatype LimitCode = PerTransactionLimit | DailyLimit | BalanceCap

  /** Why a payment is refused, and how much could still be moved. */
  datatype LimitError = NoSuchUser | LimitError(code: LimitCode, remaining: int)

  function CheckSend(db: Db, u: UserId, amount: int): Option<LimitError> {
    if u !in db.tiers then Some(NoSuchUser)
    else
      var per := PerTransaction(db.tiers[u]);
      var left := Max(DailyOut(db.tiers[u]) - SpentToday(db, u), 0);
      if per < amount then Some(LimitError(PerTransactionLimit, per))
      else if left < amount then Some(LimitError(DailyLimit, left))
      else None
  }

  function CheckReceive(db: Db, u: UserId, amount: int): Option<LimitError> {
    if u !in db.tiers then Some(NoSuchUser)
    else if MaxBalance(db.tiers[u]).None? then None
    else if u !in db.wallets then Some(NoSuchUser)
    else
      var room := Max(MaxBalance(db.tiers[u]).value - db.wallets[u], 0);
      if room < amount then Some(LimitError(BalanceCap, room)) else None
  }

  /** A refusal names the most that would have been accepted under the limit it quotes. */
  lemma RefusalNamesTheMost(db: Db, u: UserId, amount: int, other: int)
    ensures CheckSend(db, u, amount).None? <==> CanSend(db, u, amount)
    ensures CheckReceive(db, u, amount).None? <==> CanReceive(db, u, amount)
    ensures CheckSend(db, u, amount).Some? && CheckSend(db, u, amount).value.LimitError? ==>
              var e := CheckSend(db, u, amount).value;
              && 0 <= e.remaining < amount
              && (e.code == DailyLimit ==> (CanSend(db, u, other) <==> other <= e.remaining && other <= PerTransaction(db.tiers[u])))
              && (e.code == PerTransactionLimit ==> (e.remaining < other ==> !CanSend(db, u, other)))
    ensures CheckReceive(db, u, amount).Some? && CheckReceive(db, u, amount).value.LimitError? ==>
              (CanReceive(db, u, other) <==> other <= CheckReceive(db, u, amount).value.remaining)
  {
  }

  /** assertCanSend does not throw. */
  predicate CanSend(db: Db, u: UserId, amount: int) {
    && u in db.tiers
    && amount <= PerTransaction(db.tiers[u])
    && amount <= Max(DailyOut(db.tiers[u]) - SpentToday(db, u), 0)
  }

  /** assertCanReceive does not throw. */
  predicate CanReceive(db: Db, u: UserId, amount: int) {
    && u in db.tiers
    && (MaxBalance(db.tiers[u]).Some? ==>
          && u in db.wallets
          && amount <= Max(MaxBalance(db.tiers[u]).value - db.wallets[u], 0))
  }
}
