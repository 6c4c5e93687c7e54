/**
 * The wallet rows against their append-only events: by how much they part over a
 * run, and exactly when they do not.
 */
module LedgerReplay {
  import opened Wrappers
  import opened Pricing
  import opened Sums
  import opened LedgerState
  import opened LedgerTransactions
  import opened LedgerInvariant
  import opened LedgerPreservation
  import opened LedgerRuns
  import opened LedgerHistory

  // ----- Replaying the append-only balance events

  function Applied(w: Wallet, e: BalanceEvent): Wallet {
    match e.kind
    case Credit => w.(available := w.available + e.amount)
    case Adjustment => w.(available := w.available + e.amount)
    case Hold => Wallet(w.available - e.amount, w.reserved + e.amount)
    case Release => Wallet(w.available + e.amount, w.reserved - e.amount)
    case Charge => w.(available := w.available + e.amount)
  }

  function Replay(events: seq<BalanceEvent>, a: Account): Wallet {
    if events == [] then Wallet(0, 0)
    else
      var w, e := Replay(events[..|events| - 1], a), events[|events| - 1];
      if e.account == a then Applied(w, e) else w
  }

  /** Appending one event replays it on top of what was there. */
  lemma ReplayAppends(events: seq<BalanceEvent>, e: BalanceEvent, a: Account)
    ensures Replay(events + [e], a) == if e.account == a then Applied(Replay(events, a), e) else Replay(events, a)
  {
    assert (events + [e])[..|events|] == events;
  }

  /** Release then charge replays to what the balance update wrote, less what a negative charge pays out. */
  lemma SettlementReplays(events: seq<BalanceEvent>, b: Account, id: RequestId, reserved: int, charge: int, a: Account)
    requires 0 <= reserved && charge <= reserved
    ensures var before, after := Replay(events, a), Replay(events + SettlementEvents(b, id, reserved, charge), a);
            after == if a != b then before else
              Wallet(before.available + reserved - Max(0, charge), before.reserved - reserved)
  {
    var release := BalanceEvent(b, Release, reserved, Some(id));
    var taken := BalanceEvent(b, Charge, -charge, Some(id));
    var held := if reserved > 0 then events + [release] else events;
    ReplayAppends(events, release, a);
    ReplayAppends(held, taken, a);
    assert events + SettlementEvents(b, id, reserved, charge) == if charge > 0 then held + [taken] else held;
  }

  // ----- Settlements priced below zero

  /** A settle call that would price the response below zero, found before anything is written. */
  predicate PricesBelowZero(db: Db, q: FinalizeRequest) {
    && q.id in db.reservations && db.reservations[q.id].status == Open
    && q.outcome == Settle && q.usage.Some?
    && CostMicros(q.usage.value, db.reservations[q.id].route.pricing) < 0
  }

  /** The step commits a settlement priced below zero. */
  predicate PaysOut(db: Db, s: Step) {
    s.FinalizeStep? && PricesBelowZero(db, s.finalize) && FinalizeTx(db, s.finalize).1.Ok?
  }

  /** It does so to the wallet of account `a`. */
  predicate PaysTo(db: Db, s: Step, a: Account) {
    && PaysOut(db, s)
    && db.reservations[s.finalize.id].funding == FromWallet && db.reservations[s.finalize.id].account == a
  }

  function PaidTo(db: Db, s: Step, a: Account): (n: nat)
    ensures n > 0 <==> PaysTo(db, s, a)
  {
    if PaysTo(db, s, a) then -ChargeFor(db.reservations[s.finalize.id], s.finalize) else 0
  }

  /** What settlements priced below zero paid to a wallet along a run. */
  ghost function PaidAlong(db: Db, steps: seq<Step>, a: Account): nat
    decreases |steps|
  {
    if steps == [] then 0 else PaidTo(db, steps[0], a) + PaidAlong(Next(db, steps[0]), steps[1..], a)
  }

  ghost predicate NeverPaysTo(db: Db, steps: seq<Step>, a: Account)
    decreases |steps|
  {
    steps == [] || (!PaysTo(db, steps[0], a) && NeverPaysTo(Next(db, steps[0]), steps[1..], a))
  }

  ghost predicate NeverPaysOut(db: Db, steps: seq<Step>)
    decreases |steps|
  {
    steps == [] || (!PaysOut(db, steps[0]) && NeverPaysOut(Next(db, steps[0]), steps[1..]))
  }

  /** Nonnegative prices and a nonnegative output count never price below zero. */
  lemma NonNegativeUsageNeverPaysOut(db: Db, q: FinalizeRequest)
    requires q.id in db.reservations && NonNegativePrices(db.reservations[q.id].route.pricing)
    requires q.usage.Some? ==> q.usage.value.outputTokens >= 0
    ensures !PaysOut(db, FinalizeStep(q))
  {
    if q.usage.Some? {
      CostNonNegative(q.usage.value, db.reservations[q.id].route.pricing);
    }
  }

  // ----- By how much a row parts from its events

  /** The row of `a` has `gap` more available than its events say, and holds what they say. */
  ghost predicate Apart(db: Db, a: Account, gap: int) {
    var r := Replay(db.events, a);
    WalletOf(db, a) == Wallet(r.available + gap, r.reserved)
  }

  lemma CreditApart(db: Db, c: Account, amount: int, kind: EventKind, a: Account, gap: int)
    requires Apart(db, a, gap) && (kind == Credit || kind == Adjustment)
    ensures Apart(CreditTx(db, c, amount, kind), a, gap)
  {
    ReplayAppends(db.events, BalanceEvent(c, kind, amount, None), a);
  }

  lemma ReserveApart(db: Db, q: ReserveRequest, a: Account, gap: int)
    requires Apart(db, a, gap)
    ensures Apart(ReserveTx(db, q).0, a, gap)
  {
    var db0, amount := EnsureRow(db, q.account), Max(0, q.amount);
    assert Apart(db0, a, gap);
    match q.funding
    case FromWallet => HoldWalletApart(db0, q, amount, a, gap);
    case FromTrial =>
    case FromPool => PoolHoldLeavesWallets(db0, q, amount);
  }

  lemma HoldWalletApart(db: Db, q: ReserveRequest, amount: int, a: Account, gap: int)
    requires Apart(db, a, gap)
    ensures HoldWallet(db, q, amount).Ok? ==> Apart(HoldWallet(db, q, amount).value, a, gap)
  {
    ReplayAppends(db.events, BalanceEvent(q.account, Hold, amount, Some(q.id)), a);
  }

  lemma PoolHoldLeavesWallets(db: Db, q: ReserveRequest, amount: int)
    ensures HoldPool(db, q, amount).Ok? ==>
              HoldPool(db, q, amount).value.balances == db.balances && HoldPool(db, q, amount).value.events == db.events
  {
    var admitted := AdmitTx(db, q.account, q.today, q.offer);
    assert admitted.Ok? ==> admitted.value.balances == db.balances && admitted.value.events == db.events;
  }

  lemma SettleWalletApart(db: Db, id: RequestId, row: Reservation, charge: int, a: Account, gap: int)
    requires Apart(db, a, gap) && row.account in db.balances
    requires 0 <= row.reserved && charge <= row.reserved
    ensures Apart(SettleWallet(db, id, row, charge), a, if row.account == a then gap + Max(0, -charge) else gap)
  {
    SettlementReplays(db.events, row.account, id, row.reserved, charge, a);
  }

  lemma FinalizeApart(db: Db, q: FinalizeRequest, a: Account, gap: int)
    requires RowsOk(db) && Apart(db, a, gap)
    ensures Apart(FinalizeTx(db, q).0, a, gap + PaidTo(db, FinalizeStep(q), a))
  {
    if q.id in db.reservations && db.reservations[q.id].status == Open {
      var row := db.reservations[q.id];
      assert RowOk(row) && Anchored(db, row);
      ChargeWithinHold(row, q);
      if FinalizeRefusal(row, q).None? {
        PaidIsTheNegativeCharge(db, q, a);
        SettleFundingApart(db, row, q, ChargeFor(row, q), a, gap);
      }
    }
  }

  lemma PaidIsTheNegativeCharge(db: Db, q: FinalizeRequest, a: Account)
    requires q.id in db.reservations && db.reservations[q.id].status == Open
    requires db.reservations[q.id].reserved >= 0 && FinalizeRefusal(db.reservations[q.id], q).None?
    ensures var row := db.reservations[q.id];
            PaidTo(db, FinalizeStep(q), a)
            == if row.funding == FromWallet && row.account == a then Max(0, -ChargeFor(row, q)) else 0
  {
  }

  lemma SettleFundingApart(db: Db, row: Reservation, q: FinalizeRequest, charge: int, a: Account, gap: int)
    requires Apart(db, a, gap) && RowOk(row) && Anchored(db, row) && charge <= row.reserved
    ensures Apart(SettleFunding(db, row, q, charge), a,
                  if row.funding == FromWallet && row.account == a then gap + Max(0, -charge) else gap)
  {
    match row.funding
    case FromWallet => SettleWalletApart(db, q.id, row, charge, a, gap);
    case FromTrial =>
    case FromPool => PoolSettlementLeavesWallets(db, row, q, charge);
  }

  lemma PoolSettlementLeavesWallets(db: Db, row: Reservation, q: FinalizeRequest, charge: int)
    requires row.poolDate.Some?
    ensures var paid := SettlePool(db, row, q, charge); paid.balances == db.balances && paid.events == db.events
  {
  }

  lemma ReconcileApart(db: Db, q: ReconcileRequest, a: Account, gap: int)
    requires RowsOk(db) && Apart(db, a, gap)
    ensures Apart(ReconcileTx(db, q).0, a, gap)
  {
    if ReconcileTx(db, q).0 != db {
      var row := db.reservations[q.id];
      assert RowOk(row) && Anchored(db, row);
      SettleWalletApart(db, q.id, row, Min(Max(0, q.finalCost), row.reserved), a, gap);
    }
  }

  lemma StepApart(db: Db, s: Step, a: Account, gap: int)
    requires RowsOk(db) && Apart(db, a, gap)
    ensures Apart(Next(db, s), a, gap + PaidTo(db, s, a))
  {
    match s
    case CreditStep(c, amount, adjustment) =>
      CreditApart(db, c, amount, if adjustment then Adjustment else Credit, a, gap);
    case ReserveStep(q) => ReserveApart(db, q, a, gap);
    case FinalizeStep(q) => FinalizeApart(db, q, a, gap);
    case ReconcileStep(q) => ReconcileApart(db, q, a, gap);
    case RerouteStep(_, _) =>
    case AttemptStep(_, _, _, _) =>
    case DeliveryStep(_, _) =>
    case RecordUsageStep(_, _) =>
  }

  lemma {:induction false} RunApart(db: Db, steps: seq<Step>, a: Account, gap: int)
    requires Inv(db) && Apart(db, a, gap)
    ensures Apart(Run(db, steps), a, gap + PaidAlong(db, steps, a))
    decreases |steps|
  {
    if steps != [] {
      StepApart(db, steps[0], a, gap);
      StepKeeps(db, steps[0]);
      RunApart(Next(db, steps[0]), steps[1..], a, gap + PaidTo(db, steps[0], a));
    }
  }

  lemma {:induction false} NothingPaidIffNever(db: Db, steps: seq<Step>, a: Account)
    ensures PaidAlong(db, steps, a) == 0 <==> NeverPaysTo(db, steps, a)
    decreases |steps|
  {
    if steps != [] {
      NothingPaidIffNever(Next(db, steps[0]), steps[1..], a);
    }
  }

  /**
   * After any run a wallet row is the replay of its events plus exactly what
   * settlements priced below zero paid to it; so it equals the replay if and only
   * if no committed wallet settlement of the account along the run priced below zero.
   */
  lemma ReplayHoldsUnlessPaidOut(start: Db, steps: seq<Step>, a: Account)
    requires Init(start)
    ensures var db, r := Run(start, steps), Replay(Run(start, steps).events, a);
            && WalletOf(db, a) == Wallet(r.available + PaidAlong(start, steps, a), r.reserved)
            && (WalletOf(db, a) == r <==> NeverPaysTo(start, steps, a))
  {
    InitEstablishes(start);
    RunApart(start, steps, a, 0);
    NothingPaidIffNever(start, steps, a);
  }

  // ----- When spending is never negative

  ghost predicate AllCharged(db: Db) {
    forall id :: id in db.reservations ==> db.reservations[id].charged >= 0
  }

  lemma NewRowsAreUncharged(db: Db, s: Step, id: RequestId)
    requires id !in db.reservations && id in Next(db, s).reservations
    ensures Next(db, s).reservations[id].charged == 0
  {
    if s.FinalizeStep? {
      FinalizeLeavesOtherRows(db, s.finalize);
    }
    if s.ReserveStep? && s.reserve.funding.FromPool? {
      PoolHoldAddsOneRow(EnsureRow(db, s.reserve.account), s.reserve, Max(0, s.reserve.amount));
    }
  }

  lemma PoolHoldAddsOneRow(db: Db, q: ReserveRequest, amount: int)
    ensures HoldPool(db, q, amount).Ok? ==>
              HoldPool(db, q, amount).value.reservations == db.reservations[q.id := NewRow(q, amount, Some(q.today))]
  {
    var admitted := AdmitTx(db, q.account, q.today, q.offer);
    assert admitted.Ok? ==> admitted.value.reservations == db.reservations;
  }

  /** A step leaves a row charged below zero exactly when it was, or the step pays out on it. */
  lemma StepCharges(db: Db, s: Step, id: RequestId)
    requires RowsOk(db) && id in db.reservations
    ensures id in Next(db, s).reservations
    ensures Next(db, s).reservations[id].charged < 0
       <==> db.reservations[id].charged < 0 || (PaysOut(db, s) && s.finalize.id == id)
  {
    assert RowOk(db.reservations[id]);
    if s.FinalizeStep? && s.finalize.id == id && db.reservations[id].status == Open {
      FinalizeCharges(db, s.finalize);
    } else {
      RowEvolves(db, s, id);
    }
  }

  lemma FinalizeCharges(db: Db, q: FinalizeRequest)
    requires q.id in db.reservations && db.reservations[q.id].status == Open && RowOk(db.reservations[q.id])
    ensures var db' := FinalizeTx(db, q).0;
            q.id in db'.reservations && (db'.reservations[q.id].charged < 0 <==> PaysOut(db, FinalizeStep(q)))
  {
    var row := db.reservations[q.id];
    ChargeWithinHold(row, q);
    if FinalizeRefusal(row, q).None? {
      FundingLeavesRows(db, row, q, ChargeFor(row, q));
    }
  }

  lemma StepKeepsCharges(db: Db, s: Step)
    requires RowsOk(db)
    ensures AllCharged(Next(db, s)) <==> AllCharged(db) && !PaysOut(db, s)
  {
    var db' := Next(db, s);
    forall id | id in db.reservations
      ensures id in db'.reservations
      ensures db'.reservations[id].charged < 0
         <==> db.reservations[id].charged < 0 || (PaysOut(db, s) && s.finalize.id == id)
    {
      StepCharges(db, s, id);
    }
    forall id | id in db'.reservations && id !in db.reservations
      ensures db'.reservations[id].charged == 0
    {
      NewRowsAreUncharged(db, s, id);
    }
  }

  /** Every recorded charge is nonnegative if and only if no settlement along the run was priced below zero. */
  lemma {:induction false} ChargesAreNonNegativeUnlessPaidOut(db: Db, steps: seq<Step>)
    requires Inv(db)
    ensures AllCharged(Run(db, steps)) <==> AllCharged(db) && NeverPaysOut(db, steps)
    decreases |steps|
  {
    if steps != [] {
      StepKeepsCharges(db, steps[0]);
      StepKeeps(db, steps[0]);
      ChargesAreNonNegativeUnlessPaidOut(Next(db, steps[0]), steps[1..]);
    }
  }

  lemma ChargedNonNegative(db: Db, g: Gauge)
    requires AllCharged(db) && !Holds(g)
    ensures Total(db.reservations, g) >= 0
  {
    SumAtLeast(Weights(db.reservations, g));
  }

  /** Without such a settlement neither trial nor pool spending is ever negative. */
  lemma SpendingIsNonNegative(start: Db, steps: seq<Step>, d: Date, a: Account)
    requires Init(start) && NeverPaysOut(start, steps)
    ensures var db := Run(start, steps); EntitlementOf(db, a).spent >= 0 && UserDayOf(db, d, a).spent >= 0
  {
    var db := Run(start, steps);
    InitEstablishes(start);
    RunKeeps(start, steps);
    ChargesAreNonNegativeUnlessPaidOut(start, steps);
    assert TrialOk(db, a) && UserDayOk(db, d, a);
    ChargedNonNegative(db, TrialCharged(a));
    ChargedNonNegative(db, PoolCharged(d, a));
  }

  // ----- A run that pays out

  /** A free wallet reservation with one micro-USD output tokens, as `ReserveTx` inserts it. */
  const FREE_REQUEST := ReserveRequest(
    "acct", 0, "req", None, None, NoGrant, false, FromWallet,
    Route(None, None, ModelPricing(0.0, 1.0, None, None), 0, 0), 0, 0, PoolOffer(false, false, 0, 0, 0, 0))

  const NEGATIVE_SETTLE :=
    FinalizeRequest("req", Settle, Some(TokenUsage(0, -3, 0, None)), Failed, false, false, false)

  /**
   * The settle schema (src/routes/internal/rpcSchemas.ts) does not exclude a
   * negative output count, so the row and its events can part: three micro-USD
   * appear in a wallet nobody credited.
   */
  lemma NegativeOutputPartsRowFromEvents(start: Db)
    requires Init(start)
    ensures var db := Run(start, [ReserveStep(FREE_REQUEST), FinalizeStep(NEGATIVE_SETTLE)]);
            WalletOf(db, "acct") == Wallet(3, 0) && Replay(db.events, "acct") == Wallet(0, 0)
  {
    NegativeOutputCost();
    var steps := [ReserveStep(FREE_REQUEST), FinalizeStep(NEGATIVE_SETTLE)];
    var held := Next(start, steps[0]);
    var row := NewRow(FREE_REQUEST, 0, None);
    assert held == EnsureRow(start, "acct").(reservations := map["req" := row]);
    assert ChargeFor(row, NEGATIVE_SETTLE) == -3;
    var db := Next(held, steps[1]);
    assert db.balances["acct"] == Wallet(3, 0) && db.events == [];
    assert steps[1..] == [FinalizeStep(NEGATIVE_SETTLE)] && steps[1..][1..] == [];
    assert Run(held, steps[1..]) == db;
  }
}
