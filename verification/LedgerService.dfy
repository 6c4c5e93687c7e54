/**
 * The exported billing operations, statement by statement. A transaction works
 * on its own copy of the tables and commits by storing it, so leaving early is
 * the rollback.
 */
module LedgerService {
  import opened Wrappers
  import opened Pricing
  import opened Money
  import opened Sums
  import opened LedgerState
  import opened LedgerTransactions
  import opened LedgerRuns
  import opened LedgerSweep

  /** `SELECT SUM(...)` over the metering events. */
  method SumMetered(db: Db, k: string) returns (total: int)
    ensures total == Sum(MeteredAmounts(db, k))
  {
    total := 0;
    var ids := db.usage.Keys;
    ghost var left := MeteredAmounts(db, k);
    while ids != {}
      invariant ids <= db.usage.Keys && left.Keys == ids
      invariant forall id :: id in ids ==> left[id] == MeteredFor(db.usage[id], k)
      invariant total + Sum(left) == Sum(MeteredAmounts(db, k))
      decreases ids
    {
      var id :| id in ids;
      SumTakes(left, id);
      total := total + MeteredFor(db.usage[id], k);
      left := left - {id};
      ids := ids - {id};
    }
    assert left == map[];
  }

  /** `SELECT SUM(CASE ...)` over the reservations. */
  method SumUnsettled(db: Db, k: string) returns (total: int)
    ensures total == Sum(UnsettledAmounts(db, k))
  {
    total := 0;
    var ids := db.reservations.Keys;
    ghost var left := UnsettledAmounts(db, k);
    while ids != {}
      invariant ids <= db.reservations.Keys && left.Keys == ids
      invariant forall id :: id in ids ==> left[id] == UnsettledFor(db.reservations[id], id in db.usage, k)
      invariant total + Sum(left) == Sum(UnsettledAmounts(db, k))
      decreases ids
    {
      var id :| id in ids;
      SumTakes(left, id);
      total := total + UnsettledFor(db.reservations[id], id in db.usage, k);
      left := left - {id};
      ids := ids - {id};
    }
    assert left == map[];
  }

  /** The grant and key-limit checks of `reserveBalance`. */
  method CheckKey(db: Db, q: ReserveRequest, amount: int) returns (refusal: Option<BillingError>)
    ensures refusal == KeyRefusal(db, q, amount)
  {
    var limit := q.keyLimit;
    if !q.grant.NoGrant? {
      if !HasKey(q.key) {
        return Some(GrantWithoutKey);
      }
      if q.grant.Inactive? {
        return Some(GrantInactive);
      }
      limit := q.grant.cap;
    }
    if amount > 0 && HasKey(q.key) && limit.Some? {
      if !q.keyBelongs {
        return Some(KeyMissing);
      }
      var committed := SumMetered(db, q.key.value);
      var unsettled := SumUnsettled(db, q.key.value);
      if committed + unsettled + amount > Max(0, limit.value) {
        return Some(KeyLimitExceeded);
      }
    }
    return None;
  }

  /** The outcome `held` has but for its reservation row, which is not inserted yet; errors are the same. */
  ghost predicate AllButTheRow(db: Db, r: Result<Db, BillingError>, held: Result<Db, BillingError>) {
    if held.Err? then r == Err(held.error)
    else
      && r.Ok? && r.value.reservations == db.reservations
      && r.value.(reservations := held.value.reservations) == held.value
  }

  /** The trial branch of `reserveBalance`, up to the entitlement update. */
  method ReserveTrial(db: Db, q: ReserveRequest, amount: int) returns (r: Result<Db, BillingError>)
    ensures AllButTheRow(db, r, HoldTrial(db, q, amount))
  {
    if q.account !in db.entitlements {
      return Err(TrialNotAvailable);
    }
    var row := db.entitlements[q.account];
    if row.expiresAt <= q.now {
      return Err(TrialExpired);
    }
    if row.repliesUsed >= row.repliesTotal {
      return Err(TrialExhausted);
    }
    if row.inputUsed + q.route.estInputTokens > row.inputBudget {
      return Err(TrialExhausted);
    }
    var remaining := Max(0, row.ceiling - row.spent - row.reserved);
    if remaining <= 0 {
      return Err(TrialExhausted);
    }
    if amount > remaining {
      return Err(TrialExhausted);
    }
    return Ok(db.(entitlements := db.entitlements[q.account := row.(reserved := row.reserved + amount)]));
  }

  /** `billing.trial_pool_admit`, from its stated contract. */
  method Admit(db: Db, a: Account, today: Date, offer: PoolOffer) returns (r: Result<Db, BillingError>)
    ensures r == AdmitTx(db, a, today, offer)
  {
    if !offer.enabled {
      return Err(PoolDisabled);
    }
    if (today, a) in db.userDays && today in db.days {
      return Ok(db);
    }
    if (today, a) in db.userDays || !offer.eligible {
      return Err(TrialNotAvailable);
    }
    var day := PoolDay(offer.dailyBudget, 0, 0, 0);
    if today in db.days {
      day := db.days[today];
    }
    if day.committed + offer.allowance > day.budget {
      return Err(PoolExhausted);
    }
    var days := db.days[today := day.(committed := day.committed + offer.allowance)];
    var userDay := UserDay(offer.allowance, 0, 0, offer.repliesTotal, 0, offer.inputBudget, 0);
    return Ok(db.(days := days, userDays := db.userDays[(today, a) := userDay]));
  }

  /** The pool branch of `reserveBalance`, up to the two counter updates. */
  method ReservePool(db: Db, q: ReserveRequest, amount: int) returns (r: Result<Db, BillingError>)
    ensures AllButTheRow(db, r, HoldPool(db, q, amount))
  {
    var admitted := Admit(db, q.account, q.today, q.offer);
    if admitted.Err? {
      return admitted;
    }
    var tx := admitted.value;
    if q.today !in tx.days {
      return Err(TrialNotAvailable);
    }
    var p := (q.today, q.account);
    if p !in tx.userDays {
      return Err(TrialNotAvailable);
    }
    var u := tx.userDays[p];
    if u.repliesUsed >= u.repliesTotal {
      return Err(TrialExhausted);
    }
    if u.inputUsed + q.route.estInputTokens > u.inputBudget {
      return Err(TrialExhausted);
    }
    if !(InRange(u.committed) && InRange(u.reserved) && InRange(u.spent)) {
      return Err(MoneyOutOfRange);
    }
    var remaining := u.committed - u.reserved - u.spent;
    if remaining <= 0 {
      return Err(TrialExhausted);
    }
    if !InRange(amount) {
      return Err(MoneyOutOfRange);
    }
    if amount > remaining {
      return Err(TrialExhausted);
    }
    var day := tx.days[q.today];
    tx := tx.(days := tx.days[q.today := day.(reserved := day.reserved + amount)]);
    tx := tx.(userDays := tx.userDays[p := u.(reserved := u.reserved + amount)]);
    return Ok(tx);
  }

  /** The pool branch of `finalizeInferenceReservation`: the day, then the user-day, then the remainder. */
  method SettlePoolCounters(db: Db, row: Reservation, q: FinalizeRequest, charge: int) returns (tx: Db)
    requires row.poolDate.Some?
    ensures tx == SettlePool(db, row, q, charge)
  {
    tx := db;
    var chargeMicros := Min(row.reserved, charge);
    var d := row.poolDate.value;
    if d in tx.days {
      var day := tx.days[d];
      tx := tx.(days := tx.days[d :=
        day.(reserved := Max(0, day.reserved - row.reserved), spent := day.spent + chargeMicros)]);
    }
    var p := (d, row.account);
    if p in tx.userDays {
      var u := tx.userDays[p];
      var tokens, reply := 0, 0;
      if q.outcome == Settle || CapturesCeiling(row, q) {
        tokens := Max(0, if q.usage.Some? then q.usage.value.inputTokens else row.route.estInputTokens);
      }
      if q.outcome == Settle && q.usage.Some? {
        reply := 1;
      }
      u := u.(
        reserved := Max(0, u.reserved - row.reserved),
        spent := u.spent + chargeMicros,
        inputUsed := u.inputUsed + tokens,
        repliesUsed := Min(u.repliesTotal, u.repliesUsed + reply));
      tx := tx.(userDays := tx.userDays[p := u]);
      if u.repliesUsed >= u.repliesTotal {
        tx := ReleaseUnused(tx, d, row.account);
      }
    }
  }

  /** The wallet settlement both finalization paths share: the balance row, then its events. */
  method SettleWalletRow(db: Db, id: RequestId, row: Reservation, charge: int) returns (tx: Db)
    ensures tx == SettleWallet(db, id, row, charge)
  {
    tx := db;
    if row.account in tx.balances {
      var w := tx.balances[row.account];
      tx := tx.(balances := tx.balances[row.account :=
        Wallet(w.available + Max(0, row.reserved - charge), w.reserved - row.reserved)]);
    }
    if row.reserved > 0 {
      tx := tx.(events := tx.events + [BalanceEvent(row.account, Release, row.reserved, Some(id))]);
    }
    if charge > 0 {
      tx := tx.(events := tx.events + [BalanceEvent(row.account, Charge, -charge, Some(id))]);
    }
    assert tx.events == db.events + SettlementEvents(row.account, id, row.reserved, charge);
  }

  class BillingLedger {
    var db: Db

    constructor (entitlements: map<Account, Entitlement>)
      ensures db == Db(map[], [], map[], map[], entitlements, map[], map[])
    {
      db := Db(map[], [], map[], map[], entitlements, map[], map[]);
    }

    method EnsureBalanceRow(a: Account)
      modifies this
      ensures db == EnsureRow(old(db), a)
    {
      if a !in db.balances {
        db := db.(balances := db.balances[a := Wallet(0, 0)]);
      } else {
        assert db.balances[a := db.balances[a]] == db.balances;
      }
    }

    method CreditBalance(a: Account, amount: int, adjustment: bool)
      modifies this
      ensures db == CreditTx(old(db), a, amount, if adjustment then Adjustment else Credit)
    {
      if amount <= 0 {
        EnsureBalanceRow(a);
        return;
      }
      var tx := db;
      if a !in tx.balances {
        tx := tx.(balances := tx.balances[a := Wallet(amount, 0)]);
      } else {
        var w := tx.balances[a];
        tx := tx.(balances := tx.balances[a := w.(available := w.available + amount)]);
      }
      tx := tx.(events := tx.events + [BalanceEvent(a, if adjustment then Adjustment else Credit, amount, None)]);
      db := tx;
    }

    method ReserveBalance(q: ReserveRequest) returns (r: Result<int, BillingError>)
      modifies this
      ensures (db, r) == ReserveTx(old(db), q)
    {
      EnsureBalanceRow(q.account);
      var amount := Max(0, q.amount);
      var poolDate: Option<Date> := None;
      var tx := db;
      if q.id in tx.reservations {
        var existing := tx.reservations[q.id];
        if existing.account != q.account || existing.key != q.key {
          return Err(IdReused);
        }
        if existing.status != Open {
          return Err(AlreadyFinalized);
        }
        return Ok(existing.reserved);
      }
      if q.funding.FromTrial? {
        var held := ReserveTrial(tx, q, amount);
        if held.Err? {
          return Err(held.error);
        }
        tx := held.value;
      } else if q.funding.FromPool? {
        var held := ReservePool(tx, q, amount);
        if held.Err? {
          return Err(held.error);
        }
        tx := held.value;
        poolDate := Some(q.today);
      } else if amount > 0 && tx.balances[q.account].available < amount {
        return Err(InsufficientBalance);
      }
      var refusal := CheckKey(db, q, amount);
      if refusal.Some? {
        return Err(refusal.value);
      }
      tx := tx.(reservations := tx.reservations[q.id := NewRow(q, amount, poolDate)]);
      if amount > 0 && q.funding.FromWallet? {
        var w := tx.balances[q.account];
        tx := tx.(balances := tx.balances[q.account := Wallet(w.available - amount, w.reserved + amount)]);
        tx := tx.(events := tx.events + [BalanceEvent(q.account, Hold, amount, Some(q.id))]);
      }
      db := tx;
      return Ok(amount);
    }

    method UpdateInferenceReservationRoute(id: RequestId, route: Route) returns (updated: bool)
      modifies this
      ensures (db, updated) == RerouteTx(old(db), id, route)
    {
      updated := id in db.reservations && db.reservations[id].status == Open;
      if updated {
        db := db.(reservations := db.reservations[id := db.reservations[id].(route := route)]);
      }
    }

    method MarkInferenceProviderAttemptStarted(id: RequestId, now: int, providerKnown: bool, providerUp: bool)
      returns (r: Result<int, BillingError>)
      modifies this
      ensures (db, r) == AttemptTx(old(db), id, now, providerKnown, providerUp)
    {
      if id !in db.reservations || !providerKnown {
        return Err(ReservationNotFound);
      }
      if !providerUp {
        return Err(ProviderUnavailable);
      }
      var row := db.reservations[id];
      if row.status != Open {
        if row.attemptedAt.Some? {
          return Ok(row.attemptedAt.value);
        }
        return Err(AlreadyFinalized);
      }
      var at := if row.attemptedAt.Some? then row.attemptedAt.value else now;
      db := db.(reservations := db.reservations[id := row.(attemptedAt := Some(at))]);
      return Ok(at);
    }

    method MarkInferenceDeliveryStarted(id: RequestId, now: int) returns (r: Result<int, BillingError>)
      modifies this
      ensures (db, r) == DeliveryTx(old(db), id, now)
    {
      if id in db.reservations && db.reservations[id].status == Open {
        var row := db.reservations[id];
        var attempted := if row.attemptedAt.Some? then row.attemptedAt.value else now;
        var delivered := if row.deliveredAt.Some? then row.deliveredAt.value else now;
        db := db.(reservations :=
          db.reservations[id := row.(attemptedAt := Some(attempted), deliveredAt := Some(delivered))]);
        return Ok(delivered);
      }
      if id !in db.reservations {
        return Err(ReservationNotFound);
      }
      if db.reservations[id].deliveredAt.Some? {
        return Ok(db.reservations[id].deliveredAt.value);
      }
      return Err(AlreadyFinalized);
    }

    method FinalizeInferenceReservation(q: FinalizeRequest) returns (r: Result<Settlement, BillingError>)
      modifies this
      ensures (db, r) == FinalizeTx(old(db), q)
    {
      var tx := db;
      if q.id !in tx.reservations {
        return Ok(Settlement(0, 0, 0));
      }
      var row := tx.reservations[q.id];
      var capture := q.outcome == Capture
        || (q.outcome == Abort
            && (row.deliveredAt.Some? || (row.attemptedAt.Some? && !q.providerRejected)));
      var cost := 0;
      if q.usage.Some? {
        cost := CostMicros(q.usage.value, row.route.pricing);
      } else if capture {
        cost := row.reserved;
      }
      if row.status != Open {
        return Ok(Settlement(row.charged, cost, Max(0, cost - row.charged)));
      }
      var charge := 0;
      if capture {
        charge := row.reserved;
      } else if q.outcome == Settle {
        charge := Min(cost, row.reserved);
      }
      assert charge == ChargeFor(row, q) && cost == ProviderCost(row, q);
      if row.funding.FromPool? {
        if !InRange(row.reserved) || !InRange(charge) {
          return Err(MoneyOutOfRange);
        }
        if row.poolDate.None? {
          return Err(PoolDateMissing);
        }
        tx := SettlePoolCounters(tx, row, q, charge);
      } else if row.funding.FromTrial? {
        tx := SettleTrial(tx, row, q, charge);
      } else {
        tx := SettleWalletRow(tx, q.id, row, charge);
      }
      assert tx == SettleFunding(old(db), row, q, charge);
      tx := tx.(reservations := tx.reservations[q.id := Closed(row, charge)]);
      if q.recordUsage {
        if !q.meterable {
          return Err(UsageNotWritable);
        }
        var status := if q.outcome == Settle || capture then Succeeded else q.abortStatus;
        var billed := if row.funding.FromWallet? then charge else 0;
        if q.id !in tx.usage {
          tx := tx.(usage := tx.usage[q.id := UsageEvent(row.account, row.key, billed, cost, status)]);
        }
      }
      db := tx;
      return Ok(Settlement(charge, cost, Max(0, cost - charge)));
    }

    method ReconcileReservedBalance(q: ReconcileRequest) returns (r: Result<Settlement, BillingError>)
      modifies this
      ensures (db, r) == ReconcileTx(old(db), q)
    {
      var expected, cost := Max(0, q.reserved), Max(0, q.finalCost);
      var tx := db;
      if q.id in tx.reservations && !tx.reservations[q.id].funding.FromWallet? {
        return Err(NotWalletFunded);
      }
      if q.id !in tx.reservations {
        if expected <= 0 && cost <= 0 {
          return Ok(Settlement(0, 0, 0));
        }
        return Err(NoDurableReservation);
      }
      var row := tx.reservations[q.id];
      if row.account != q.account {
        return Err(AccountMismatch);
      }
      if expected > 0 && row.reserved != expected {
        return Err(AmountMismatch);
      }
      if row.status != Open {
        return Ok(Settlement(row.charged, cost, Max(0, cost - row.charged)));
      }
      var charge := Min(cost, row.reserved);
      tx := SettleWalletRow(tx, q.id, row, charge);
      db := tx.(reservations := tx.reservations[q.id := Closed(row, charge)]);
      return Ok(Settlement(charge, cost, Max(0, cost - charge)));
    }

    method RecordUsageEvent(id: RequestId, u: UsageEvent)
      modifies this
      ensures db == Metered(old(db), id, u)
    {
      if id !in db.usage {
        db := db.(usage := db.usage[id := u]);
      }
    }

    /** Some other caller's transaction, whichever it is. */
    method Perform(s: Step)
      modifies this
      ensures db == Next(old(db), s)
    {
      match s
      case CreditStep(a, amount, adjustment) => CreditBalance(a, amount, adjustment);
      case ReserveStep(q) => var _ := ReserveBalance(q);
      case RerouteStep(id, route) => var _ := UpdateInferenceReservationRoute(id, route);
      case AttemptStep(id, now, known, up) => var _ := MarkInferenceProviderAttemptStarted(id, now, known, up);
      case DeliveryStep(id, now) => var _ := MarkInferenceDeliveryStarted(id, now);
      case FinalizeStep(q) => var _ := FinalizeInferenceReservation(q);
      case ReconcileStep(q) => var _ := ReconcileReservedBalance(q);
      case RecordUsageStep(id, u) => RecordUsageEvent(id, u);
    }

    method PerformAll(steps: seq<Step>)
      modifies this
      ensures db == Run(old(db), steps)
    {
      var i := 0;
      while i < |steps|
        invariant 0 <= i <= |steps|
        invariant Run(db, steps[i..]) == Run(old(db), steps)
      {
        Perform(steps[i]);
        assert steps[i..][1..] == steps[i + 1..];
        i := i + 1;
      }
    }

    /** The turns of a sweep over `batch`, each holding the row as the sweep read it. */
    function Turns(batch: seq<RequestId>, others: seq<seq<Step>>, meterable: set<RequestId>): seq<Turn>
      reads this
      requires |others| == |batch| && forall i :: 0 <= i < |batch| ==> batch[i] in db.reservations
    {
      seq(|batch|, i requires 0 <= i < |batch| reads this
                     requires |others| == |batch| && forall i :: 0 <= i < |batch| ==> batch[i] in db.reservations =>
        Turn(batch[i], db.reservations[batch[i]], others[i], batch[i] in meterable))
    }

    /**
     * `releaseStaleBalanceReservations`. `batch` is what the query returned, and
     * `others[i]` is whatever other callers commit before row `i` has its turn.
     */
    method ReleaseStaleBalanceReservations(
        cutoff: int, batch: seq<RequestId>, others: seq<seq<Step>>, meterable: set<RequestId>)
      returns (r: Result<nat, seq<RequestId>>)
      requires IsStaleBatch(db, cutoff, batch) && |others| == |batch|
      modifies this
      ensures var swept := Sweep(old(db), Tally(0, 0, []), old(Turns(batch, others, meterable)));
              && db == swept.0
              && r == if swept.1.finalized == 0 && swept.1.failures != [] then Err(swept.1.failures)
                      else Ok(swept.1.released)
    {
      var turns := Turns(batch, others, meterable);
      var tally := Tally(0, 0, []);
      var i := 0;
      while i < |turns|
        invariant 0 <= i <= |turns|
        invariant Sweep(db, tally, turns[i..]) == Sweep(old(db), Tally(0, 0, []), turns)
      {
        tally := TakeTurn(turns[i], tally);
        assert turns[i..][1..] == turns[i + 1..];
        i := i + 1;
      }
      if |tally.failures| > 0 && tally.finalized == 0 {
        return Err(tally.failures);
      }
      return Ok(tally.released);
    }

    /** One row of the sweep loop, a failure of which is counted and does not end the loop. */
    method TakeTurn(t: Turn, tally: Tally) returns (r: Tally)
      modifies this
      ensures (db, r) == TurnTx(old(db), tally, t)
    {
      PerformAll(t.others);
      var result := FinalizeInferenceReservation(Request(t));
      r := tally;
      if result.Ok? {
        r := r.(finalized := r.finalized + 1);
        if result.value.charged == 0 {
          r := r.(released := r.released + 1);
        }
      } else {
        r := r.(failures := r.failures + [t.id]);
      }
    }
  }
}
