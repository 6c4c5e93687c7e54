/**
 * What each billing transaction does to the tables, as a function of the tables
 * before it. A transaction that fails rolls back, so it leaves them alone.
 */
module LedgerTransactions {
  import opened Wrappers
  import opened Pricing
  import opened Money
  import opened Sums
  import opened LedgerState

  // ----- Reading rows

  /** A wallet row, or the zero row `ensureBalanceRow` would insert. */
  function WalletOf(db: Db, a: Account): Wallet {
    if a in db.balances then db.balances[a] else Wallet(0, 0)
  }

  function EnsureRow(db: Db, a: Account): Db {
    db.(balances := db.balances[a := WalletOf(db, a)])
  }

  // ----- Credit

  ghost function CreditTx(db: Db, a: Account, amount: int, kind: EventKind): Db {
    if amount <= 0 then EnsureRow(db, a)
    else
      var w := WalletOf(db, a);
      db.(balances := db.balances[a := w.(available := w.available + amount)],
          events := db.events + [BalanceEvent(a, kind, amount, None)])
  }

  // ----- Reserve

  function NewRow(q: ReserveRequest, amount: int, poolDate: Option<Date>): Reservation {
    Reservation(q.account, q.key, amount, 0, Open, q.funding, poolDate, q.route, None, None, q.now)
  }

  /** Spend a key has been authorized for: metered, or held, or settled and not yet metered. */
  function MeteredFor(u: UsageEvent, k: string): int {
    if u.key == Some(k) && u.status == Succeeded then u.cost else 0
  }

  function UnsettledFor(r: Reservation, metered: bool, k: string): int {
    if r.key != Some(k) then 0
    else if r.status == Open then r.reserved
    else if r.status == Settled && !metered then r.charged
    else 0
  }

  function MeteredAmounts(db: Db, k: string): map<RequestId, int> {
    map id | id in db.usage :: MeteredFor(db.usage[id], k)
  }

  function UnsettledAmounts(db: Db, k: string): map<RequestId, int> {
    map id | id in db.reservations :: UnsettledFor(db.reservations[id], id in db.usage, k)
  }

  ghost function AuthorizedFor(db: Db, k: string): int {
    Sum(MeteredAmounts(db, k)) + Sum(UnsettledAmounts(db, k))
  }

  /** The limit in force: a connected grant's cap replaces the key's own limit. */
  function EffectiveLimit(q: ReserveRequest): Option<int> {
    match q.grant
    case NoGrant => q.keyLimit
    case Inactive => None
    case Active(cap) => cap
  }

  ghost function KeyRefusal(db: Db, q: ReserveRequest, amount: int): Option<BillingError> {
    if !q.grant.NoGrant? && !HasKey(q.key) then Some(GrantWithoutKey)
    else if q.grant.Inactive? then Some(GrantInactive)
    else if amount > 0 && HasKey(q.key) && EffectiveLimit(q).Some? then
      if !q.keyBelongs then Some(KeyMissing)
      else if AuthorizedFor(db, q.key.value) + amount > Max(0, EffectiveLimit(q).value) then Some(KeyLimitExceeded)
      else None
    else None
  }

  ghost function HoldWallet(db: Db, q: ReserveRequest, amount: int): Result<Db, BillingError> {
    var w := WalletOf(db, q.account);
    if amount > 0 && w.available < amount then Err(InsufficientBalance)
    else
      var db := db.(reservations := db.reservations[q.id := NewRow(q, amount, None)]);
      if amount == 0 then Ok(db)
      else Ok(db.(
        balances := db.balances[q.account := Wallet(w.available - amount, w.reserved + amount)],
        events := db.events + [BalanceEvent(q.account, Hold, amount, Some(q.id))]))
  }

  ghost function HoldTrial(db: Db, q: ReserveRequest, amount: int): Result<Db, BillingError> {
    if q.account !in db.entitlements then Err(TrialNotAvailable)
    else
      var e := db.entitlements[q.account];
      var remaining := Max(0, e.ceiling - e.spent - e.reserved);
      if e.expiresAt <= q.now then Err(TrialExpired)
      else if e.repliesUsed >= e.repliesTotal then Err(TrialExhausted)
      else if e.inputUsed + q.route.estInputTokens > e.inputBudget then Err(TrialExhausted)
      else if remaining <= 0 || amount > remaining then Err(TrialExhausted)
      else Ok(db.(
        entitlements := db.entitlements[q.account := e.(reserved := e.reserved + amount)],
        reservations := db.reservations[q.id := NewRow(q, amount, None)]))
  }

  /**
   * `trial_pool_admit`: commits the account's whole frozen allowance against the
   * day's budget, once per account and day, or says why it cannot.
   */
  ghost function AdmitTx(db: Db, a: Account, today: Date, offer: PoolOffer): Result<Db, BillingError> {
    if !offer.enabled then Err(PoolDisabled)
    else if (today, a) in db.userDays && today in db.days then Ok(db)
    else if (today, a) in db.userDays || !offer.eligible then Err(TrialNotAvailable)
    else
      var day := if today in db.days then db.days[today] else PoolDay(offer.dailyBudget, 0, 0, 0);
      if day.committed + offer.allowance > day.budget then Err(PoolExhausted)
      else Ok(db.(
        days := db.days[today := day.(committed := day.committed + offer.allowance)],
        userDays := db.userDays[(today, a) :=
          UserDay(offer.allowance, 0, 0, offer.repliesTotal, 0, offer.inputBudget, 0)]))
  }

  ghost function HoldPool(db: Db, q: ReserveRequest, amount: int): Result<Db, BillingError> {
    match AdmitTx(db, q.account, q.today, q.offer)
    case Err(e) => Err(e)
    case Ok(db) =>
      var p := (q.today, q.account);
      if q.today !in db.days || p !in db.userDays then Err(TrialNotAvailable)
      else
        var day, u := db.days[q.today], db.userDays[p];
        if u.repliesUsed >= u.repliesTotal then Err(TrialExhausted)
        else if u.inputUsed + q.route.estInputTokens > u.inputBudget then Err(TrialExhausted)
        else if !InRange(u.committed) || !InRange(u.reserved) || !InRange(u.spent) then Err(MoneyOutOfRange)
        else if u.committed - u.reserved - u.spent <= 0 then Err(TrialExhausted)
        else if !InRange(amount) then Err(MoneyOutOfRange)
        else if amount > u.committed - u.reserved - u.spent then Err(TrialExhausted)
        else Ok(db.(
          days := db.days[q.today := day.(reserved := day.reserved + amount)],
          userDays := db.userDays[p := u.(reserved := u.reserved + amount)],
          reservations := db.reservations[q.id := NewRow(q, amount, Some(q.today))]))
  }

  ghost function HoldFor(db: Db, q: ReserveRequest, amount: int): Result<Db, BillingError> {
    match q.funding
    case FromWallet => HoldWallet(db, q, amount)
    case FromTrial => HoldTrial(db, q, amount)
    case FromPool => HoldPool(db, q, amount)
  }

  /** The balance row is ensured before the transaction, so it survives a rollback. */
  ghost function ReserveTx(before: Db, q: ReserveRequest): (Db, Result<int, BillingError>) {
    var db := EnsureRow(before, q.account);
    var amount := Max(0, q.amount);
    if q.id in db.reservations then
      var row := db.reservations[q.id];
      if row.account != q.account || row.key != q.key then (db, Err(IdReused))
      else if row.status != Open then (db, Err(AlreadyFinalized))
      else (db, Ok(row.reserved))
    else
      var held := HoldFor(db, q, amount);
      var refusal := KeyRefusal(db, q, amount);
      if held.Err? then (db, Err(held.error))
      else if refusal.Some? then (db, Err(refusal.value))
      else (held.value, Ok(amount))
  }

  // ----- Reroute and fences

  function RerouteTx(db: Db, id: RequestId, route: Route): (Db, bool) {
    if id in db.reservations && db.reservations[id].status == Open then
      (db.(reservations := db.reservations[id := db.reservations[id].(route := route)]), true)
    else (db, false)
  }

  function OrElse(at: Option<int>, now: int): Option<int> {
    if at.Some? then at else Some(now)
  }

  /** `providerKnown` and `providerUp` answer the joins on the provider tables. */
  function AttemptTx(db: Db, id: RequestId, now: int, providerKnown: bool, providerUp: bool)
    : (Db, Result<int, BillingError>)
  {
    if id !in db.reservations || !providerKnown then (db, Err(ReservationNotFound))
    else if !providerUp then (db, Err(ProviderUnavailable))
    else
      var row := db.reservations[id];
      if row.status != Open then
        (db, if row.attemptedAt.Some? then Ok(row.attemptedAt.value) else Err(AlreadyFinalized))
      else
        var fenced := row.(attemptedAt := OrElse(row.attemptedAt, now));
        (db.(reservations := db.reservations[id := fenced]), Ok(fenced.attemptedAt.value))
  }

  function DeliveryTx(db: Db, id: RequestId, now: int): (Db, Result<int, BillingError>) {
    if id !in db.reservations then (db, Err(ReservationNotFound))
    else
      var row := db.reservations[id];
      if row.status != Open then
        (db, if row.deliveredAt.Some? then Ok(row.deliveredAt.value) else Err(AlreadyFinalized))
      else
        var fenced := row.(attemptedAt := OrElse(row.attemptedAt, now), deliveredAt := OrElse(row.deliveredAt, now));
        (db.(reservations := db.reservations[id := fenced]), Ok(fenced.deliveredAt.value))
  }

  // ----- Finalize

  predicate CapturesCeiling(row: Reservation, q: FinalizeRequest) {
    q.outcome == Capture
    || (q.outcome == Abort
        && (row.deliveredAt.Some? || (row.attemptedAt.Some? && !q.providerRejected)))
  }

  function ProviderCost(row: Reservation, q: FinalizeRequest): int {
    if q.usage.Some? then CostMicros(q.usage.value, row.route.pricing)
    else if CapturesCeiling(row, q) then row.reserved
    else 0
  }

  function ChargeFor(row: Reservation, q: FinalizeRequest): int {
    if CapturesCeiling(row, q) then row.reserved
    else if q.outcome == Settle then Min(ProviderCost(row, q), row.reserved)
    else 0
  }

  function Reported(cost: int, charge: int): Settlement {
    Settlement(charge, cost, Max(0, cost - charge))
  }

  /** The row once finalized: `settled` exactly when something was charged. */
  function Closed(row: Reservation, charge: int): Reservation {
    row.(charged := charge, status := if charge > 0 then Settled else Released)
  }

  function BilledTokens(row: Reservation, q: FinalizeRequest): int {
    if q.outcome == Settle || CapturesCeiling(row, q) then
      Max(0, if q.usage.Some? then q.usage.value.inputTokens else row.route.estInputTokens)
    else 0
  }

  function ReplyConsumed(q: FinalizeRequest): int {
    if q.outcome == Settle && q.usage.Some? then 1 else 0
  }

  /** The release and charge events of a wallet settlement; zero amounts write none. */
  function SettlementEvents(a: Account, id: RequestId, reserved: int, charge: int): seq<BalanceEvent> {
    (if reserved > 0 then [BalanceEvent(a, Release, reserved, Some(id))] else [])
    + (if charge > 0 then [BalanceEvent(a, Charge, -charge, Some(id))] else [])
  }

  function SettleWallet(db: Db, id: RequestId, row: Reservation, charge: int): Db {
    var w := WalletOf(db, row.account);
    var paid := Wallet(w.available + Max(0, row.reserved - charge), w.reserved - row.reserved);
    db.(balances := if row.account in db.balances then db.balances[row.account := paid] else db.balances,
        events := db.events + SettlementEvents(row.account, id, row.reserved, charge))
  }

  function SettleTrial(db: Db, row: Reservation, q: FinalizeRequest, charge: int): Db {
    if row.account !in db.entitlements then db
    else
      var e := db.entitlements[row.account];
      db.(entitlements := db.entitlements[row.account := e.(
        reserved := Max(0, e.reserved - row.reserved),
        spent := e.spent + charge,
        inputUsed := e.inputUsed + BilledTokens(row, q),
        repliesUsed := Min(e.repliesTotal, e.repliesUsed + ReplyConsumed(q)))])
  }

  /** `trial_pool_release_unused`: gives back what is neither reserved nor spent. */
  function ReleaseUnused(db: Db, d: Date, a: Account): Db {
    if (d, a) !in db.userDays || d !in db.days then db
    else
      var u, day := db.userDays[(d, a)], db.days[d];
      var unused := u.committed - u.reserved - u.spent;
      db.(days := db.days[d := day.(committed := day.committed - unused)],
          userDays := db.userDays[(d, a) := u.(committed := u.committed - unused)])
  }

  function SettlePool(db: Db, row: Reservation, q: FinalizeRequest, charge: int): Db
    requires row.poolDate.Some?
  {
    var d, p := row.poolDate.value, (row.poolDate.value, row.account);
    var spend := Min(row.reserved, charge);
    var onDay := if d !in db.days then db
                 else
                   var day := db.days[d];
                   db.(days := db.days[d := day.(
                     reserved := Max(0, day.reserved - row.reserved),
                     spent := day.spent + spend)]);
    if p !in db.userDays then onDay
    else
      var u := db.userDays[p];
      var v := u.(reserved := Max(0, u.reserved - row.reserved),
                  spent := u.spent + spend,
                  inputUsed := u.inputUsed + BilledTokens(row, q),
                  repliesUsed := Min(u.repliesTotal, u.repliesUsed + ReplyConsumed(q)));
      var onBoth := onDay.(userDays := onDay.userDays[p := v]);
      if v.repliesUsed >= v.repliesTotal then ReleaseUnused(onBoth, d, row.account) else onBoth
  }

  function SettleFunding(db: Db, row: Reservation, q: FinalizeRequest, charge: int): Db
    requires row.funding.FromPool? ==> row.poolDate.Some?
  {
    match row.funding
    case FromWallet => SettleWallet(db, q.id, row, charge)
    case FromTrial => SettleTrial(db, row, q, charge)
    case FromPool => SettlePool(db, row, q, charge)
  }

  function UsageOf(row: Reservation, q: FinalizeRequest, charge: int): UsageEvent {
    UsageEvent(
      row.account,
      row.key,
      if row.funding.FromWallet? then charge else 0,
      ProviderCost(row, q),
      if q.outcome == Settle || CapturesCeiling(row, q) then Succeeded else q.abortStatus)
  }

  /** The metering insert does nothing when the request already has an event. */
  function Metered(db: Db, id: RequestId, u: UsageEvent): Db {
    if id in db.usage then db else db.(usage := db.usage[id := u])
  }

  function FinalizeRefusal(row: Reservation, q: FinalizeRequest): Option<BillingError> {
    if row.funding.FromPool? && (!InRange(row.reserved) || !InRange(ChargeFor(row, q))) then Some(MoneyOutOfRange)
    else if row.funding.FromPool? && row.poolDate.None? then Some(PoolDateMissing)
    else if q.recordUsage && !q.meterable then Some(UsageNotWritable)
    else None
  }

  function FinalizeTx(db: Db, q: FinalizeRequest): (Db, Result<Settlement, BillingError>) {
    if q.id !in db.reservations then (db, Ok(Settlement(0, 0, 0)))
    else
      var row := db.reservations[q.id];
      var cost := ProviderCost(row, q);
      if row.status != Open then (db, Ok(Reported(cost, row.charged)))
      else
        var charge := ChargeFor(row, q);
        if FinalizeRefusal(row, q).Some? then (db, Err(FinalizeRefusal(row, q).value))
        else
          var settled := SettleFunding(db, row, q, charge);
          var closed := settled.(reservations := settled.reservations[q.id := Closed(row, charge)]);
          (if q.recordUsage then Metered(closed, q.id, UsageOf(row, q, charge)) else closed,
           Ok(Reported(cost, charge)))
  }

  // ----- Reconcile, the wallet-only settlement

  function ReconcileTx(db: Db, q: ReconcileRequest): (Db, Result<Settlement, BillingError>) {
    var expected, cost := Max(0, q.reserved), Max(0, q.finalCost);
    if q.id !in db.reservations then
      (db, if expected <= 0 && cost <= 0 then Ok(Settlement(0, 0, 0)) else Err(NoDurableReservation))
    else
      var row := db.reservations[q.id];
      if !row.funding.FromWallet? then (db, Err(NotWalletFunded))
      else if row.account != q.account then (db, Err(AccountMismatch))
      else if expected > 0 && row.reserved != expected then (db, Err(AmountMismatch))
      else if row.status != Open then (db, Ok(Reported(cost, row.charged)))
      else
        var charge := Min(cost, row.reserved);
        var settled := SettleWallet(db, q.id, row, charge);
        (settled.(reservations := settled.reservations[q.id := Closed(row, charge)]), Ok(Reported(cost, charge)))
  }
}
