/**
 * What each billing operation answers and leaves behind, said of the request and the
 * rows it finds: who is refused and why, and what a success has moved.
 */
module LedgerAnswers {
  import opened Wrappers
  import opened Pricing
  import opened Money
  import opened LedgerState
  import opened LedgerTransactions
  import opened LedgerInvariant
  import opened LedgerPreservation
  import opened LedgerRuns
  import opened LedgerHistory

  // ----- Credit

  lemma CreditAnswers(db: Db, a: Account, amount: int, adjustment: bool)
    ensures var db' := Next(db, CreditStep(a, amount, adjustment));
      && db' == db.(balances := db'.balances, events := db'.events)
      && db'.balances == db.balances[a := WalletOf(db, a).(available := WalletOf(db, a).available + Max(0, amount))]
      && db'.events == if amount <= 0 then db.events
                       else db.events + [BalanceEvent(a, if adjustment then Adjustment else Credit, amount, None)]
  {
  }

  // ----- Reserve: a request id that is known

  /** The tables of a reservation that inserts nothing: at most a zero wallet row is new. */
  predicate OnlyEnsures(db: Db, db': Db, a: Account) {
    && a in db'.balances && db'.balances - {a} == db.balances - {a}
    && db'.balances[a] == (if a in db.balances then db.balances[a] else Wallet(0, 0))
    && db'.(balances := db.balances) == db
  }

  /** Retrying an open reservation answers what it holds; another account or key, or a finalized id, is refused. */
  lemma RetryAnswers(db: Db, q: ReserveRequest)
    requires q.id in db.reservations
    ensures var row := db.reservations[q.id];
      && OnlyEnsures(db, ReserveTx(db, q).0, q.account)
      && ReserveTx(db, q).1 == if row.account != q.account || row.key != q.key then Err(IdReused)
                               else if row.status == Open then Ok(row.reserved)
                               else Err(AlreadyFinalized)
  {
  }

  // ----- Reserve: a fresh request id

  /** A key has room for an amount under a limit, and belongs to the account. */
  ghost predicate HasRoom(db: Db, q: ReserveRequest, limit: int)
    requires q.key.Some?
  {
    q.amount <= 0 || (q.keyBelongs && AuthorizedFor(db, q.key.value) + q.amount <= Max(0, limit))
  }

  /**
   * The grant and the key let the amount through. Without a grant the key's own limit
   * binds, if there are both; an active grant needs a key and replaces its limit by the
   * cap, if it has one; an inactive grant lets nothing through.
   */
  ghost predicate KeyAllows(db: Db, q: ReserveRequest) {
    match q.grant
    case NoGrant => q.key == None || q.key == Some("") || q.keyLimit == None || HasRoom(db, q, q.keyLimit.value)
    case Active(cap) => q.key != None && q.key != Some("") && (cap == None || HasRoom(db, q, cap.value))
    case Inactive => false
  }

  /** A refusal by the grant or the key says which of them it was. */
  ghost predicate KeyRefusalSays(db: Db, q: ReserveRequest, e: BillingError) {
    var keyed := q.key != None && q.key != Some("");
    match e
    case GrantWithoutKey => q.grant != NoGrant && !keyed
    case GrantInactive => q.grant == Inactive && keyed
    case KeyMissing => keyed && q.grant != Inactive && !q.keyBelongs
    case KeyLimitExceeded => keyed && q.grant != Inactive && q.keyBelongs
    case _ => false
  }

  lemma KeyAnswers(db: Db, q: ReserveRequest)
    ensures KeyRefusal(db, q, Max(0, q.amount)) == None <==> KeyAllows(db, q)
    ensures var refusal := KeyRefusal(db, q, Max(0, q.amount));
      refusal.Some? ==> KeyRefusalSays(db, q, refusal.value)
  {
  }

  /** What the wallet says to a fresh reservation. */
  predicate WalletAllows(db: Db, q: ReserveRequest) {
    q.amount <= 0 || (q.account in db.balances && q.amount <= db.balances[q.account].available)
  }

  /** The trial lets it through: unexpired, a reply left, and input budget and ceiling hold it. */
  predicate TrialAllows(db: Db, q: ReserveRequest) {
    && q.account in db.entitlements
    && var e := db.entitlements[q.account];
       && q.now < e.expiresAt
       && e.repliesUsed < e.repliesTotal
       && e.inputUsed + q.route.estInputTokens <= e.inputBudget
       && e.spent + e.reserved < e.ceiling
       && e.spent + e.reserved + q.amount <= e.ceiling
  }

  /** The account has its allowance of the day, or can be given it within the day's budget. */
  predicate PoolAdmits(db: Db, q: ReserveRequest) {
    && q.offer.enabled
    && if (q.today, q.account) in db.userDays then q.today in db.days
       else
         && q.offer.eligible
         && if q.today in db.days then db.days[q.today].committed + q.offer.allowance <= db.days[q.today].budget
            else q.offer.allowance <= q.offer.dailyBudget
  }

  /** The account's allowance of the day: the one it has, or a fresh one. */
  function Allowance(db: Db, q: ReserveRequest): UserDay {
    if (q.today, q.account) in db.userDays then db.userDays[(q.today, q.account)]
    else UserDay(q.offer.allowance, 0, 0, q.offer.repliesTotal, 0, q.offer.inputBudget, 0)
  }

  function DayBefore(db: Db, q: ReserveRequest): PoolDay {
    if q.today in db.days then db.days[q.today] else PoolDay(q.offer.dailyBudget, 0, 0, 0)
  }

  /** The pool lets it through: a reply left, and the allowance and the input budget hold it. */
  predicate PoolAllows(db: Db, q: ReserveRequest) {
    && PoolAdmits(db, q)
    && var u := Allowance(db, q);
       && u.repliesUsed < u.repliesTotal
       && u.inputUsed + q.route.estInputTokens <= u.inputBudget
       && InRange(u.committed) && InRange(u.reserved) && InRange(u.spent)
       && (q.amount > 0 ==> InRange(q.amount))
       && u.reserved + u.spent < u.committed
       && u.reserved + u.spent + q.amount <= u.committed
  }

  predicate FundingAllows(db: Db, q: ReserveRequest) {
    match q.funding
    case FromWallet => WalletAllows(db, q)
    case FromTrial => TrialAllows(db, q)
    case FromPool => PoolAllows(db, q)
  }

  /** A refusal by the funding says what was missing. */
  predicate FundingRefusalSays(db: Db, q: ReserveRequest, e: BillingError) {
    match q.funding
    case FromWallet => e == InsufficientBalance
    case FromTrial =>
      if q.account !in db.entitlements then e == TrialNotAvailable
      else if db.entitlements[q.account].expiresAt <= q.now then e == TrialExpired
      else e == TrialExhausted
    case FromPool =>
      if !q.offer.enabled then e == PoolDisabled
      else if (q.today, q.account) !in db.userDays && !q.offer.eligible then e == TrialNotAvailable
      else if (q.today, q.account) in db.userDays && q.today !in db.days then e == TrialNotAvailable
      else if !PoolAdmits(db, q) then e == PoolExhausted
      else e == TrialExhausted || e == MoneyOutOfRange
  }

  lemma FundingAnswers(db: Db, q: ReserveRequest)
    ensures var held := HoldFor(db, q, Max(0, q.amount));
      && (held.Ok? <==> FundingAllows(db, q))
      && (held.Err? ==> FundingRefusalSays(db, q, held.error))
  {
    match q.funding
    case FromWallet =>
    case FromTrial =>
    case FromPool => PoolAnswers(db, q, Max(0, q.amount));
  }

  lemma PoolAnswers(db: Db, q: ReserveRequest, amount: int)
    requires amount == Max(0, q.amount)
    ensures HoldPool(db, q, amount).Ok? <==> PoolAllows(db, q)
    ensures q.funding == FromPool && HoldPool(db, q, amount).Err? ==>
              FundingRefusalSays(db, q, HoldPool(db, q, amount).error)
  {
    AdmissionAnswers(db, q);
  }

  /** Admission: `trial_pool_admit` gives an account its allowance once a day, against the day's budget. */
  lemma AdmissionAnswers(db: Db, q: ReserveRequest)
    ensures var admitted := AdmitTx(db, q.account, q.today, q.offer);
      && (admitted.Ok? <==> PoolAdmits(db, q))
      && (admitted.Ok? ==>
            var db', first := admitted.value, (q.today, q.account) !in db.userDays;
            && db'.userDays == db.userDays[(q.today, q.account) := Allowance(db, q)]
            && db'.days == db.days[q.today := DayBefore(db, q).(
                 committed := DayBefore(db, q).committed + if first then q.offer.allowance else 0)]
            && db' == db.(days := db'.days, userDays := db'.userDays))
      && (admitted.Err? ==> admitted.error == if !q.offer.enabled then PoolDisabled
                                              else if (q.today, q.account) !in db.userDays && q.offer.eligible
                                              then PoolExhausted else TrialNotAvailable)
  {
  }

  /**
   * A fresh reservation is made exactly when its funding and its key let it through.
   * A refusal names what refused, the funding before the key, and leaves at most a zero
   * wallet row behind.
   */
  lemma FreshReservationAnswers(db: Db, q: ReserveRequest)
    requires q.id !in db.reservations
    ensures var (db', r) := ReserveTx(db, q);
      && (r.Ok? <==> FundingAllows(db, q) && KeyAllows(db, q))
      && (r.Ok? ==> r.value == Max(0, q.amount))
      && (r.Err? ==>
            && OnlyEnsures(db, db', q.account)
            && if !FundingAllows(db, q) then FundingRefusalSays(db, q, r.error) else KeyRefusalSays(db, q, r.error))
  {
    var db0 := EnsureRow(db, q.account);
    FundingAnswers(db0, q);
    KeyAnswers(db0, q);
    EnsuringChangesNoAnswer(db, q);
  }

  lemma EnsuringChangesNoAnswer(db: Db, q: ReserveRequest)
    ensures var db0 := EnsureRow(db, q.account);
      && (FundingAllows(db0, q) <==> FundingAllows(db, q))
      && (KeyAllows(db0, q) <==> KeyAllows(db, q))
  {
    var db0 := EnsureRow(db, q.account);
    if q.key.Some? {
      assert MeteredAmounts(db0, q.key.value) == MeteredAmounts(db, q.key.value);
      assert UnsettledAmounts(db0, q.key.value) == UnsettledAmounts(db, q.key.value);
    }
  }

  /** A reservation that is made is one new open row, with everything the request said. */
  lemma FreshReservationInserts(db: Db, q: ReserveRequest)
    requires q.id !in db.reservations && ReserveTx(db, q).1.Ok?
    ensures var db' := ReserveTx(db, q).0;
      && db'.reservations == db.reservations[q.id :=
           Reservation(q.account, q.key, Max(0, q.amount), 0, Open, q.funding,
                       if q.funding == FromPool then Some(q.today) else None, q.route, None, None, q.now)]
      && db'.usage == db.usage
      && (q.funding != FromPool ==> db'.days == db.days && db'.userDays == db.userDays)
      && (q.funding != FromTrial ==> db'.entitlements == db.entitlements)
      && (q.funding != FromWallet ==> db'.events == db.events && forall a :: WalletOf(db', a) == WalletOf(db, a))
  {
    var db0 := EnsureRow(db, q.account);
    if q.funding == FromPool {
      AdmissionAnswers(db0, q);
    }
  }

  /** What it moves: its amount is held of the wallet, the entitlement, or the allowance and its day. */
  lemma FreshReservationHolds(db: Db, q: ReserveRequest)
    requires q.id !in db.reservations && ReserveTx(db, q).1.Ok?
    ensures var db', amount, w := ReserveTx(db, q).0, Max(0, q.amount), WalletOf(db, q.account);
      q.funding == FromWallet ==>
        && db'.balances == db.balances[q.account := Wallet(w.available - amount, w.reserved + amount)]
        && db'.events == db.events + if amount > 0 then [BalanceEvent(q.account, Hold, amount, Some(q.id))] else []
    ensures var db', amount := ReserveTx(db, q).0, Max(0, q.amount);
      q.funding == FromTrial ==>
        && q.account in db.entitlements
        && var e := db.entitlements[q.account];
           db'.entitlements == db.entitlements[q.account := e.(reserved := e.reserved + amount)]
    ensures var db', amount := ReserveTx(db, q).0, Max(0, q.amount);
      q.funding == FromPool ==>
        var u, day, first := Allowance(db, q), DayBefore(db, q), (q.today, q.account) !in db.userDays;
        && db'.userDays == db.userDays[(q.today, q.account) := u.(reserved := u.reserved + amount)]
        && db'.days == db.days[q.today := day.(
             committed := day.committed + (if first then q.offer.allowance else 0),
             reserved := day.reserved + amount)]
  {
    if q.funding == FromPool {
      AdmissionAnswers(EnsureRow(db, q.account), q);
    }
  }

  // ----- Reroute and fences

  /** An open reservation takes the new route, and nothing else changes; any other is left alone. */
  lemma RerouteAnswers(db: Db, id: RequestId, route: Route)
    ensures var (db', updated) := RerouteTx(db, id, route);
      && (updated <==> id in db.reservations && db.reservations[id].status == Open)
      && (updated ==> db' == db.(reservations := db.reservations[id := db.reservations[id].(route := route)]))
      && (!updated ==> db' == db)
  {
  }

  /**
   * A dispatch may go ahead exactly when its row is open and its provider up, or it was
   * fenced before it closed. The fence is then set, at its first instant.
   */
  lemma AttemptAnswers(db: Db, id: RequestId, now: int, known: bool, up: bool)
    ensures var (db', r) := AttemptTx(db, id, now, known, up);
      && (r.Ok? <==> && id in db.reservations && known && up
                     && (db.reservations[id].status == Open || db.reservations[id].attemptedAt.Some?))
      && (r.Err? ==>
            && db' == db
            && r.error == if id !in db.reservations || !known then ReservationNotFound
                          else if !up then ProviderUnavailable else AlreadyFinalized)
      && (r.Ok? ==>
            var row := db.reservations[id];
            && db'.reservations == db.reservations[id := row.(attemptedAt := Some(r.value))]
            && db' == db.(reservations := db'.reservations)
            && r.value == if row.attemptedAt.Some? then row.attemptedAt.value else now)
  {
    if id in db.reservations {
      assert db.reservations[id := db.reservations[id]] == db.reservations;
    }
  }

  /** A delivery may start exactly when its row is open, or had started before it closed; it fences the attempt too. */
  lemma DeliveryAnswers(db: Db, id: RequestId, now: int)
    ensures var (db', r) := DeliveryTx(db, id, now);
      && (r.Ok? <==> && id in db.reservations
                     && (db.reservations[id].status == Open || db.reservations[id].deliveredAt.Some?))
      && (r.Err? ==>
            db' == db && r.error == if id !in db.reservations then ReservationNotFound else AlreadyFinalized)
      && (r.Ok? && db.reservations[id].status != Open ==> db' == db && Some(r.value) == db.reservations[id].deliveredAt)
      && (r.Ok? && db.reservations[id].status == Open ==>
            var row := db.reservations[id];
            && r.value == (if row.deliveredAt.Some? then row.deliveredAt.value else now)
            && db' == db.(reservations := db.reservations[id := row.(
                 deliveredAt := Some(r.value),
                 attemptedAt := if row.attemptedAt.Some? then row.attemptedAt else Some(now))]))
  {
  }

  // ----- Finalize

  /** The whole hold is taken: a capture, or an abort of delivered work or of a dispatch nobody attests was rejected. */
  predicate IsCaptured(row: Reservation, q: FinalizeRequest) {
    || q.outcome == Capture
    || (q.outcome == Abort && row.deliveredAt != None)
    || (q.outcome == Abort && row.attemptedAt != None && !q.providerRejected)
  }

  /** What the provider costs: what was measured, else the hold if it is captured. */
  function CostOf(row: Reservation, q: FinalizeRequest): int {
    match q.usage
    case Some(usage) => CostMicros(usage, row.route.pricing)
    case None => if IsCaptured(row, q) then row.reserved else 0
  }

  /** What is charged: the captured hold, or on a settlement the cost up to the hold. */
  function PriceOf(row: Reservation, q: FinalizeRequest): int {
    if IsCaptured(row, q) then row.reserved
    else if q.outcome == Settle then (if CostOf(row, q) < row.reserved then CostOf(row, q) else row.reserved)
    else 0
  }

  predicate Finalizable(row: Reservation, q: FinalizeRequest) {
    && (row.funding == FromPool ==> InRange(row.reserved) && InRange(PriceOf(row, q)) && row.poolDate != None)
    && (q.recordUsage ==> q.meterable)
  }

  /** Finalizing an unknown or a finalized request changes nothing and reports what was charged. */
  lemma FinalizeAgainAnswers(db: Db, q: FinalizeRequest)
    requires q.id in db.reservations ==> db.reservations[q.id].status != Open
    ensures FinalizeTx(db, q).0 == db
    ensures q.id !in db.reservations ==> FinalizeTx(db, q).1 == Ok(Settlement(0, 0, 0))
    ensures q.id in db.reservations ==>
      var row := db.reservations[q.id];
      FinalizeTx(db, q).1 == Ok(Settlement(row.charged, CostOf(row, q), Max(0, CostOf(row, q) - row.charged)))
  {
  }

  /** Finalizing an open request: when it succeeds, what it reports, how the row closes and what is metered. */
  lemma FinalizeAnswers(db: Db, q: FinalizeRequest)
    requires q.id in db.reservations && db.reservations[q.id].status == Open
    ensures var ((db', r), row) := (FinalizeTx(db, q), db.reservations[q.id]);
      && (r.Ok? <==> Finalizable(row, q))
      && (r.Err? ==> db' == db)
      && (r.Ok? ==>
            var charge, cost := PriceOf(row, q), CostOf(row, q);
            && r.value == Settlement(charge, cost, Max(0, cost - charge))
            && db'.reservations == db.reservations[q.id :=
                 row.(charged := charge, status := if charge > 0 then Settled else Released)]
            && db'.usage == if !q.recordUsage || q.id in db.usage then db.usage else db.usage[q.id :=
                 UsageEvent(row.account, row.key, if row.funding == FromWallet then charge else 0, cost,
                            if q.outcome == Settle || IsCaptured(row, q) then Succeeded else q.abortStatus)])
  {
    FinalizeLeavesOtherRows(db, q);
    var row := db.reservations[q.id];
    if FinalizeRefusal(row, q).None? {
      FundingLeavesRows(db, row, q, ChargeFor(row, q));
    }
  }

  /** A wallet gets back what it held and pays what is charged, with an event for each that is not zero. */
  lemma WalletFinalizeMoves(db: Db, q: FinalizeRequest)
    requires Inv(db) && q.id in db.reservations && db.reservations[q.id].status == Open
    requires db.reservations[q.id].funding == FromWallet && FinalizeTx(db, q).1.Ok?
    ensures var (db', row) := (FinalizeTx(db, q).0, db.reservations[q.id]);
      var (a, charge, w) := (row.account, PriceOf(row, q), WalletOf(db, row.account));
      && db'.balances == db.balances[a := Wallet(w.available + row.reserved - charge, w.reserved - row.reserved)]
      && db'.events == db.events
           + (if row.reserved > 0 then [BalanceEvent(a, Release, row.reserved, Some(q.id))] else [])
           + (if charge > 0 then [BalanceEvent(a, Charge, -charge, Some(q.id))] else [])
      && db'.entitlements == db.entitlements && db'.days == db.days && db'.userDays == db.userDays
  {
    var row := db.reservations[q.id];
    assert RowOk(row) && Anchored(db, row);
    ChargeWithinHold(row, q);
  }

  /** The prompt tokens a trial counts: measured or else estimated, of delivered or captured work. */
  function TokensOf(row: Reservation, q: FinalizeRequest): int {
    if q.outcome != Settle && !IsCaptured(row, q) then 0
    else Max(0, match q.usage case Some(usage) => usage.inputTokens case None => row.route.estInputTokens)
  }

  /** A reply is consumed by a settlement with usage, and by nothing else. */
  function RepliesAfter(used: int, total: int, q: FinalizeRequest): int {
    if q.outcome == Settle && q.usage != None then Min(total, used + 1) else Min(total, used)
  }

  lemma TrialFinalizeMoves(db: Db, q: FinalizeRequest)
    requires Inv(db) && q.id in db.reservations && db.reservations[q.id].status == Open
    requires db.reservations[q.id].funding == FromTrial && FinalizeTx(db, q).1.Ok?
    ensures var (db', row) := (FinalizeTx(db, q).0, db.reservations[q.id]);
      && db'.balances == db.balances && db'.events == db.events
      && db'.days == db.days && db'.userDays == db.userDays
      && row.account in db.entitlements
    ensures var (db', row) := (FinalizeTx(db, q).0, db.reservations[q.id]);
      var e := db.entitlements[row.account];
      db'.entitlements == db.entitlements[row.account := e.(
        reserved := e.reserved - row.reserved,
        spent := e.spent + PriceOf(row, q),
        inputUsed := e.inputUsed + TokensOf(row, q),
        repliesUsed := RepliesAfter(e.repliesUsed, e.repliesTotal, q))]
  {
    TrialClampNeverBinds(db, q.id);
  }

  /** The user-day of a pool settlement, its allowance aside. */
  function UserDayAfter(u: UserDay, row: Reservation, q: FinalizeRequest): UserDay {
    u.(reserved := u.reserved - row.reserved,
       spent := u.spent + PriceOf(row, q),
       inputUsed := u.inputUsed + TokensOf(row, q),
       repliesUsed := RepliesAfter(u.repliesUsed, u.repliesTotal, q))
  }

  /**
   * A pool settlement moves the user-day and its day alike, on the day of the hold. An
   * account with no reply left keeps of its allowance only what is held or spent, and
   * the day gets the rest back; any other keeps it whole.
   */
  lemma PoolFinalizeMoves(db: Db, q: FinalizeRequest)
    requires Inv(db) && q.id in db.reservations && db.reservations[q.id].status == Open
    requires db.reservations[q.id].funding == FromPool && FinalizeTx(db, q).1.Ok?
    ensures var (db', row) := (FinalizeTx(db, q).0, db.reservations[q.id]);
      && db'.balances == db.balances && db'.events == db.events && db'.entitlements == db.entitlements
      && row.poolDate != None && row.poolDate.value in db.days
      && (row.poolDate.value, row.account) in db.userDays
    ensures var (db', row) := (FinalizeTx(db, q).0, db.reservations[q.id]);
      var (d, p) := (row.poolDate.value, (row.poolDate.value, row.account));
      var (day, u) := (db.days[d], UserDayAfter(db.userDays[p], row, q));
      var kept := if u.repliesUsed >= u.repliesTotal then u.reserved + u.spent else u.committed;
      && db'.userDays == db.userDays[p := u.(committed := kept)]
      && db'.days == db.days[d := day.(
           reserved := day.reserved - row.reserved,
           spent := day.spent + PriceOf(row, q),
           committed := day.committed - (u.committed - kept))]
  {
    PoolClampsNeverBind(db, q.id);
    var row := db.reservations[q.id];
    assert RowOk(row);
    ChargeWithinHold(row, q);
    PoolCountersMove(db, row, q);
  }

  lemma PoolCountersMove(db: Db, row: Reservation, q: FinalizeRequest)
    requires row.poolDate != None && row.poolDate.value in db.days && (row.poolDate.value, row.account) in db.userDays
    requires PriceOf(row, q) <= row.reserved
    requires row.reserved <= db.userDays[(row.poolDate.value, row.account)].reserved
    requires row.reserved <= db.days[row.poolDate.value].reserved
    ensures var (d, p) := (row.poolDate.value, (row.poolDate.value, row.account));
      var (day, u) := (db.days[d], UserDayAfter(db.userDays[p], row, q));
      var kept := if u.repliesUsed >= u.repliesTotal then u.reserved + u.spent else u.committed;
      SettlePool(db, row, q, PriceOf(row, q)) == db.(
        userDays := db.userDays[p := u.(committed := kept)],
        days := db.days[d := day.(
          reserved := day.reserved - row.reserved,
          spent := day.spent + PriceOf(row, q),
          committed := day.committed - (u.committed - kept))])
  {
  }

  // ----- Reconcile and meter

  predicate Reconcilable(db: Db, q: ReconcileRequest) {
    && q.id in db.reservations
    && var row := db.reservations[q.id];
       && row.funding == FromWallet && row.account == q.account
       && (q.reserved > 0 ==> row.reserved == q.reserved)
  }

  /** Reconciling: refused without the caller's own wallet hold of that amount; a finalized one is only reported. */
  lemma ReconcileAnswers(db: Db, q: ReconcileRequest)
    ensures var ((db', r), cost) := (ReconcileTx(db, q), Max(0, q.finalCost));
      && (r.Ok? <==> Reconcilable(db, q) || (q.id !in db.reservations && q.reserved <= 0 && q.finalCost <= 0))
      && (q.id !in db.reservations && r.Ok? ==> r.value == Settlement(0, 0, 0))
      && (r.Err? || q.id !in db.reservations || db.reservations[q.id].status != Open ==> db' == db)
      && (r.Err? ==> r.error == if q.id !in db.reservations then NoDurableReservation
                                else if db.reservations[q.id].funding != FromWallet then NotWalletFunded
                                else if db.reservations[q.id].account != q.account then AccountMismatch
                                else AmountMismatch)
      && (r.Ok? && q.id in db.reservations ==>
            var row := db.reservations[q.id];
            var charge := if row.status != Open then row.charged
                          else if cost < row.reserved then cost else row.reserved;
            && r.value == Settlement(charge, cost, Max(0, cost - charge))
            && (row.status == Open ==>
                  db'.reservations == db.reservations[q.id :=
                    row.(charged := charge, status := if charge > 0 then Settled else Released)]))
  {
  }

  /** A separate metering call writes its event once, and never touches another table. */
  lemma MeteringAnswers(db: Db, id: RequestId, u: UsageEvent)
    ensures var db' := Next(db, RecordUsageStep(id, u));
      && db' == db.(usage := db'.usage)
      && id in db'.usage && db'.usage - {id} == db.usage - {id}
      && db'.usage[id] == if id in db.usage then db.usage[id] else u
  {
  }

  // ----- From dispatch to charge

  /** Work whose dispatch was allowed is paid for, whatever runs until its reservation closes. */
  lemma DispatchedWorkIsCharged(db: Db, id: RequestId, now: int, steps: seq<Step>) returns (i: nat)
    requires id in db.reservations && db.reservations[id].status == Open
    requires AttemptTx(db, id, now, true, true).1.Ok?
    requires var after := Run(db, [AttemptStep(id, now, true, true)] + steps);
      id in after.reservations && after.reservations[id].status != Open
    ensures i < |steps|
    ensures var mid := Run(db, [AttemptStep(id, now, true, true)] + steps[..i]);
      && id in mid.reservations
      && var charged := Run(db, [AttemptStep(id, now, true, true)] + steps).reservations[id].charged;
         charged <= 0 <==> db.reservations[id].reserved <= 0 || EndsUncharged(steps[i], mid.reservations[id])
  {
    var first := [AttemptStep(id, now, true, true)];
    var fenced := Next(db, first[0]);
    assert Run(db, first) == fenced by {
      assert first[1..] == [];
    }
    RunSplits(db, first, steps);
    i := NoFreeProviderWork(fenced, steps, id);
    RunSplits(db, first, steps[..i]);
  }
}
