/** Runs: any interleaving of billing transactions, and what holds over all of them. */
module LedgerRuns {
  import opened Wrappers
  import opened LedgerState
  import opened LedgerTransactions
  import opened LedgerInvariant
  import opened LedgerPreservation

  /** One committed or rolled back transaction. `RecordUsage` is `recordUsageEvent` in src/metering/usage.ts. */
  datatype Step =
    | CreditStep(account: Account, amount: int, adjustment: bool)
    | ReserveStep(reserve: ReserveRequest)
    | RerouteStep(id: RequestId, route: Route)
    | AttemptStep(id: RequestId, now: int, providerKnown: bool, providerUp: bool)
    | DeliveryStep(id: RequestId, now: int)
    | FinalizeStep(finalize: FinalizeRequest)
    | ReconcileStep(reconcile: ReconcileRequest)
    | RecordUsageStep(id: RequestId, event: UsageEvent)

  ghost function Next(db: Db, s: Step): Db {
    match s
    case CreditStep(a, amount, adjustment) => CreditTx(db, a, amount, if adjustment then Adjustment else Credit)
    case ReserveStep(q) => ReserveTx(db, q).0
    case RerouteStep(id, route) => RerouteTx(db, id, route).0
    case AttemptStep(id, now, known, up) => AttemptTx(db, id, now, known, up).0
    case DeliveryStep(id, now) => DeliveryTx(db, id, now).0
    case FinalizeStep(q) => FinalizeTx(db, q).0
    case ReconcileStep(q) => ReconcileTx(db, q).0
    case RecordUsageStep(id, u) => Metered(db, id, u)
  }

  ghost function Run(db: Db, steps: seq<Step>): Db
    decreases |steps|
  {
    if steps == [] then db else Run(Next(db, steps[0]), steps[1..])
  }

  lemma {:induction false} RunSplits(db: Db, first: seq<Step>, second: seq<Step>)
    ensures Run(db, first + second) == Run(Run(db, first), second)
    decreases |first|
  {
    if first == [] {
      assert first + second == second;
    } else {
      assert (first + second)[1..] == first[1..] + second;
      RunSplits(Next(db, first[0]), first[1..], second);
    }
  }

  // ----- Money: what holds in every reachable state

  lemma StepKeeps(db: Db, s: Step)
    requires Inv(db)
    ensures Inv(Next(db, s))
  {
    match s
    case CreditStep(a, amount, adjustment) => CreditKeeps(db, a, amount, if adjustment then Adjustment else Credit);
    case ReserveStep(q) => ReserveKeeps(db, q);
    case RerouteStep(id, route) => RerouteKeeps(db, id, route);
    case AttemptStep(id, now, known, up) => AttemptKeeps(db, id, now, known, up);
    case DeliveryStep(id, now) => DeliveryKeeps(db, id, now);
    case FinalizeStep(q) => FinalizeKeeps(db, q);
    case ReconcileStep(q) => ReconcileKeeps(db, q);
    case RecordUsageStep(id, u) => MeteredKeeps(db, id, u);
  }

  lemma {:induction false} RunKeeps(db: Db, steps: seq<Step>)
    requires Inv(db)
    ensures Inv(Run(db, steps))
    decreases |steps|
  {
    if steps != [] {
      StepKeeps(db, steps[0]);
      RunKeeps(Next(db, steps[0]), steps[1..]);
    }
  }

  /**
   * In every reachable state of every run a wallet holds exactly its open
   * reservations, is never overdrawn, and loses no money.
   */
  lemma WalletsBalance(start: Db, steps: seq<Step>, a: Account)
    requires Init(start)
    ensures var db := Run(start, steps);
            var w := WalletOf(db, a);
            && w.available >= 0 && w.reserved >= 0
            && w.reserved == Total(db.reservations, WalletHeld(a))
            && w.available + w.reserved + Total(db.reservations, WalletCharged(a)) == Credited(db.events, a)
  {
    InitEstablishes(start);
    RunKeeps(start, steps);
    var db := Run(start, steps);
    assert WalletOk(db, a);
    TotalNonNegative(db, WalletHeld(a));
  }

  /**
   * In every reachable state of every run the pool's counters are the sums they
   * summarize, no account passes its commitment and no day passes its budget,
   * whatever day a settlement falls on.
   */
  lemma PoolStaysWithinBudget(start: Db, steps: seq<Step>, d: Date, a: Account)
    requires Init(start)
    ensures var db := Run(start, steps);
            var u, day := UserDayOf(db, d, a), DayOf(db, d);
            && u.reserved == Total(db.reservations, PoolHeld(d, a))
            && u.spent == Total(db.reservations, PoolCharged(d, a))
            && 0 <= u.reserved && u.reserved + u.spent <= u.committed
            && day.reserved == DayTotal(db.userDays, d, Reserved)
            && day.spent == DayTotal(db.userDays, d, Spent)
            && day.committed == DayTotal(db.userDays, d, Committed)
            && day.reserved + day.spent <= day.committed <= day.budget
  {
    InitEstablishes(start);
    RunKeeps(start, steps);
    var db := Run(start, steps);
    assert UserDayOk(db, d, a) && DayOk(db, d);
    TotalNonNegative(db, PoolHeld(d, a));
    DayWithinCommitment(db, d);
  }

  /** The v1 trial never holds and spends more than its ceiling. */
  lemma TrialStaysWithinCeiling(start: Db, steps: seq<Step>, a: Account)
    requires Init(start)
    ensures var db := Run(start, steps);
            var e := EntitlementOf(db, a);
            && e.reserved == Total(db.reservations, TrialHeld(a))
            && e.spent == Total(db.reservations, TrialCharged(a))
            && 0 <= e.reserved && e.reserved + e.spent <= e.ceiling
  {
    InitEstablishes(start);
    RunKeeps(start, steps);
    var db := Run(start, steps);
    assert TrialOk(db, a);
    TotalNonNegative(db, TrialHeld(a));
  }

  /** In every reachable state no settlement is rounded up to zero by a `GREATEST(0, ...)` clamp. */
  lemma ClampsNeverBind(start: Db, steps: seq<Step>, id: RequestId)
    requires Init(start)
    requires id in Run(start, steps).reservations && Run(start, steps).reservations[id].status == Open
    ensures var db := Run(start, steps);
            var r := db.reservations[id];
            && (r.funding == FromTrial ==> r.reserved <= EntitlementOf(db, r.account).reserved)
            && (r.funding == FromPool ==>
                  && r.poolDate.Some?
                  && r.reserved <= UserDayOf(db, r.poolDate.value, r.account).reserved
                  && r.reserved <= DayOf(db, r.poolDate.value).reserved)
  {
    InitEstablishes(start);
    RunKeeps(start, steps);
    var db := Run(start, steps);
    match db.reservations[id].funding
    case FromWallet =>
    case FromTrial => TrialClampNeverBinds(db, id);
    case FromPool => PoolClampsNeverBind(db, id);
  }

  lemma DayWithinCommitment(db: Db, d: Date)
    requires Inv(db)
    ensures DayOf(db, d).reserved + DayOf(db, d).spent <= DayOf(db, d).committed
  {
    forall p | p in db.userDays
      ensures db.userDays[p].reserved + db.userDays[p].spent <= db.userDays[p].committed
    {
      assert UserDayOk(db, p.0, p.1);
    }
    ColumnsAddUp(db.userDays, d);
    assert DayOk(db, d);
  }
}
