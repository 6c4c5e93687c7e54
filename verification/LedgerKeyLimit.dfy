/** The spending limit of one API key, over every interleaving. */
module LedgerKeyLimit {
  import opened Wrappers
  import opened Pricing
  import opened Sums
  import opened LedgerState
  import opened LedgerTransactions
  import opened LedgerInvariant
  import opened LedgerPreservation
  import opened LedgerRuns
  import opened LedgerHistory

  /** A metering event belongs to a finalized reservation and never claims more than it charged. */
  predicate EventOk(db: Db, id: RequestId, u: UsageEvent) {
    && id in db.reservations
    && db.reservations[id].status != Open
    && u.key == db.reservations[id].key
    && (u.status == Succeeded ==> u.cost <= Max(0, db.reservations[id].charged))
  }

  ghost predicate UsageOk(db: Db) {
    forall id :: id in db.usage ==> EventOk(db, id, db.usage[id])
  }

  /** What one request counts against its key: its hold, or its charge, or its metered cost. */
  function Counted(db: Db, id: RequestId, k: string): int
    requires id in db.reservations
  {
    var r := db.reservations[id];
    if r.key != Some(k) then 0
    else if r.status == Open then r.reserved
    else if id in db.usage then (if db.usage[id].status == Succeeded then db.usage[id].cost else 0)
    else if r.status == Settled then r.charged
    else 0
  }

  function CountedAmounts(db: Db, k: string): map<RequestId, int> {
    map id | id in db.reservations :: Counted(db, id, k)
  }

  // ----- No request is counted twice

  /** Adding a map of events to a map of reservations that covers it, key by key. */
  lemma {:induction false} SumsMerge(a: map<RequestId, int>, b: map<RequestId, int>, c: map<RequestId, int>)
    requires a.Keys <= b.Keys && c.Keys == b.Keys
    requires forall id :: id in b ==> c[id] == b[id] + (if id in a then a[id] else 0)
    ensures Sum(a) + Sum(b) == Sum(c)
    decreases |b|
  {
    if b == map[] {
      assert a.Keys == {} && c.Keys == {};
      assert a == map[] && c == map[];
    } else {
      var id :| id in b;
      SumTakes(b, id);
      SumTakes(c, id);
      if id in a {
        SumTakes(a, id);
      } else {
        assert a - {id} == a;
      }
      SumsMerge(a - {id}, b - {id}, c - {id});
    }
  }

  /**
   * The two sums the key check adds up, one over metering events and one over
   * reservations, count every request exactly once.
   */
  lemma AuthorizedCountsEachRequestOnce(db: Db, k: string)
    requires UsageOk(db)
    ensures AuthorizedFor(db, k) == Sum(CountedAmounts(db, k))
  {
    forall id | id in db.usage
      ensures id in db.reservations
    {
      assert EventOk(db, id, db.usage[id]);
    }
    forall id | id in db.reservations
      ensures Counted(db, id, k)
           == UnsettledFor(db.reservations[id], id in db.usage, k)
              + (if id in db.usage then MeteredFor(db.usage[id], k) else 0)
    {
      if id in db.usage {
        assert EventOk(db, id, db.usage[id]);
      }
    }
    SumsMerge(MeteredAmounts(db, k), UnsettledAmounts(db, k), CountedAmounts(db, k));
  }

  // ----- Each step

  /** `recordUsageEvent` called for a settled request, at its charge and under its key. */
  predicate MetersTheCharge(db: Db, id: RequestId, u: UsageEvent) {
    && id in db.reservations && db.reservations[id].status == Settled
    && u.key == db.reservations[id].key && u.cost == db.reservations[id].charged
  }

  /** A metering call that writes an event meters a finalized request, under its key and within its charge. */
  predicate MetersWithinCharge(db: Db, s: Step) {
    s.RecordUsageStep? && s.id !in db.usage ==> EventOk(db, s.id, s.event)
  }

  /** The limit a reservation comes with: an active grant's cap, or without a grant the key's own. */
  predicate ComesWith(q: ReserveRequest, limit: int) {
    match q.grant
    case NoGrant => q.keyLimit == Some(limit)
    case Active(cap) => cap == Some(limit)
    case Inactive => false
  }

  /** Every reservation under key `k` comes with the same limit, or with an inactive grant. */
  predicate LimitFixed(s: Step, k: string, limit: int) {
    s.ReserveStep? && s.reserve.key == Some(k) ==> s.reserve.grant.Inactive? || ComesWith(s.reserve, limit)
  }

  lemma CountedMonotone(db: Db, db': Db, k: string)
    requires UsageOk(db) && UsageOk(db') && db.reservations.Keys == db'.reservations.Keys
    requires forall id :: id in db.reservations ==> Counted(db', id, k) <= Counted(db, id, k)
    ensures AuthorizedFor(db', k) <= AuthorizedFor(db, k)
  {
    AuthorizedCountsEachRequestOnce(db, k);
    AuthorizedCountsEachRequestOnce(db', k);
    SumMonotone(CountedAmounts(db', k), CountedAmounts(db, k));
  }

  lemma SameBooks(db: Db, db': Db, k: string)
    requires db'.reservations == db.reservations && db'.usage == db.usage
    ensures UsageOk(db) ==> UsageOk(db')
    ensures AuthorizedFor(db', k) == AuthorizedFor(db, k)
  {
    assert MeteredAmounts(db', k) == MeteredAmounts(db, k);
    assert UnsettledAmounts(db', k) == UnsettledAmounts(db, k);
    if UsageOk(db) {
      forall i | i in db'.usage
        ensures EventOk(db', i, db'.usage[i])
      {
        assert EventOk(db, i, db.usage[i]);
      }
    }
  }

  /** `db'` is `db` with the open row `id` closed at `charge` and perhaps metered. */
  predicate ClosedIn(db: Db, db': Db, id: RequestId, charge: int) {
    && id in db.reservations && db.reservations[id].status == Open
    && charge <= db.reservations[id].reserved
    && db'.reservations == db.reservations[id := Closed(db.reservations[id], charge)]
    && (db'.usage == db.usage
        || (&& id !in db.usage && id in db'.usage
            && db'.usage == db.usage[id := db'.usage[id]]
            && db'.usage[id].key == db.reservations[id].key
            && db'.usage[id].cost <= Max(0, charge)))
  }

  lemma ClosingKeepsUsage(db: Db, db': Db, id: RequestId, charge: int)
    requires UsageOk(db) && ClosedIn(db, db', id, charge)
    ensures UsageOk(db') && id !in db.usage
  {
    assert id in db.usage ==> EventOk(db, id, db.usage[id]);
    forall i | i in db'.usage
      ensures EventOk(db', i, db'.usage[i])
    {
      if i != id {
        assert EventOk(db, i, db.usage[i]);
      }
    }
  }

  /** Finalizing a request never makes it count for more. */
  lemma ClosingNeverCountsMore(db: Db, db': Db, id: RequestId, charge: int, k: string)
    requires RowsOk(db) && UsageOk(db) && ClosedIn(db, db', id, charge)
    ensures UsageOk(db') && AuthorizedFor(db', k) <= AuthorizedFor(db, k)
  {
    ClosingKeepsUsage(db, db', id, charge);
    forall i | i in db.reservations
      ensures Counted(db', i, k) <= Counted(db, i, k)
    {
      assert RowOk(db.reservations[i]);
    }
    CountedMonotone(db, db', k);
  }

  lemma FinalizeNeverCountsMore(db: Db, q: FinalizeRequest, k: string)
    requires RowsOk(db) && UsageOk(db)
    ensures UsageOk(FinalizeTx(db, q).0) && AuthorizedFor(FinalizeTx(db, q).0, k) <= AuthorizedFor(db, k)
  {
    var db' := FinalizeTx(db, q).0;
    FinalizeLeavesOtherRows(db, q);
    if db'.reservations == db.reservations && db'.usage == db.usage {
      SameBooks(db, db', k);
    } else {
      var row := db.reservations[q.id];
      ChargeWithinHold(row, q);
      ClosingNeverCountsMore(db, db', q.id, ChargeFor(row, q), k);
    }
  }

  lemma ReconcileNeverCountsMore(db: Db, q: ReconcileRequest, k: string)
    requires RowsOk(db) && UsageOk(db)
    ensures UsageOk(ReconcileTx(db, q).0) && AuthorizedFor(ReconcileTx(db, q).0, k) <= AuthorizedFor(db, k)
  {
    var db' := ReconcileTx(db, q).0;
    if db' == db {
      SameBooks(db, db', k);
    } else {
      ClosingNeverCountsMore(db, db', q.id, Min(Max(0, q.finalCost), db.reservations[q.id].reserved), k);
    }
  }

  lemma MeteringKeepsUsage(db: Db, id: RequestId, u: UsageEvent)
    requires UsageOk(db) && MetersWithinCharge(db, RecordUsageStep(id, u))
    ensures UsageOk(Metered(db, id, u))
  {
    var db' := Metered(db, id, u);
    forall i | i in db'.usage
      ensures EventOk(db', i, db'.usage[i])
    {
      if i in db.usage {
        assert EventOk(db, i, db.usage[i]);
      }
    }
  }

  lemma MeteringNeverCountsMore(db: Db, id: RequestId, u: UsageEvent, k: string)
    requires RowsOk(db) && UsageOk(db) && MetersWithinCharge(db, RecordUsageStep(id, u))
    ensures UsageOk(Metered(db, id, u)) && AuthorizedFor(Metered(db, id, u), k) <= AuthorizedFor(db, k)
  {
    var db' := Metered(db, id, u);
    MeteringKeepsUsage(db, id, u);
    forall i | i in db.reservations
      ensures Counted(db', i, k) <= Counted(db, i, k)
    {
      assert RowOk(db.reservations[i]);
    }
    CountedMonotone(db, db', k);
  }

  lemma MeteredCountsTheSame(db: Db, id: RequestId, u: UsageEvent, i: RequestId, k: string)
    requires MetersTheCharge(db, id, u) && u.status == Succeeded && i in db.reservations
    ensures Counted(db, i, k) <= Counted(Metered(db, id, u), i, k)
  {
  }

  /** Metering a settled charge moves it between the two sums and changes neither total. */
  lemma MeteringMovesTheCharge(db: Db, id: RequestId, u: UsageEvent, k: string)
    requires RowsOk(db) && UsageOk(db) && MetersTheCharge(db, id, u) && u.status == Succeeded
    ensures AuthorizedFor(Metered(db, id, u), k) == AuthorizedFor(db, k)
  {
    var db' := Metered(db, id, u);
    assert MetersWithinCharge(db, RecordUsageStep(id, u));
    MeteringKeepsUsage(db, id, u);
    MeteringNeverCountsMore(db, id, u, k);
    forall i | i in db.reservations
      ensures Counted(db, i, k) <= Counted(db', i, k)
    {
      MeteredCountsTheSame(db, id, u, i, k);
    }
    CountedMonotone(db', db, k);
  }

  /** The request inserts a new reservation under the key. */
  ghost predicate Adds(db: Db, q: ReserveRequest, k: string) {
    q.id !in db.reservations && ReserveTx(db, q).1.Ok? && q.key == Some(k)
  }

  lemma RowAddedCounts(db: Db, db': Db, id: RequestId, k: string)
    requires id !in db.reservations && id in db'.reservations
    requires db'.reservations == db.reservations[id := db'.reservations[id]] && db'.usage == db.usage
    requires db'.reservations[id].status == Open
    ensures AuthorizedFor(db', k)
         == AuthorizedFor(db, k) + if db'.reservations[id].key == Some(k) then db'.reservations[id].reserved else 0
  {
    var v := UnsettledFor(db'.reservations[id], id in db.usage, k);
    SumWrites(UnsettledAmounts(db, k), id, v);
    UnsettledWritten(db, db', id, k);
  }

  lemma UnsettledWritten(db: Db, db': Db, id: RequestId, k: string)
    requires id in db'.reservations
    requires db'.reservations == db.reservations[id := db'.reservations[id]] && db'.usage == db.usage
    ensures UnsettledAmounts(db', k)
         == UnsettledAmounts(db, k)[id := UnsettledFor(db'.reservations[id], id in db.usage, k)]
  {
  }

  lemma RowAdded(db: Db, db': Db, id: RequestId, k: string)
    requires UsageOk(db) && id !in db.reservations && id in db'.reservations
    requires db'.reservations == db.reservations[id := db'.reservations[id]] && db'.usage == db.usage
    requires db'.reservations[id].status == Open
    ensures UsageOk(db')
    ensures AuthorizedFor(db', k)
         == AuthorizedFor(db, k) + if db'.reservations[id].key == Some(k) then db'.reservations[id].reserved else 0
  {
    RowAddedCounts(db, db', id, k);
    forall i | i in db'.usage
      ensures EventOk(db', i, db'.usage[i])
    {
      assert EventOk(db, i, db.usage[i]);
    }
  }

  lemma ReserveAddsOneRow(db: Db, q: ReserveRequest)
    requires q.id !in db.reservations && ReserveTx(db, q).1.Ok?
    ensures var db' := ReserveTx(db, q).0;
            && db'.usage == db.usage
            && q.id in db'.reservations
            && db'.reservations == db.reservations[q.id := db'.reservations[q.id]]
            && db'.reservations[q.id].key == q.key && db'.reservations[q.id].status == Open
            && db'.reservations[q.id].reserved == Max(0, q.amount)
  {
    var db0, amount := EnsureRow(db, q.account), Max(0, q.amount);
    match q.funding
    case FromWallet =>
    case FromTrial =>
    case FromPool =>
      var admitted := AdmitTx(db0, q.account, q.today, q.offer);
      assert admitted.Ok? ==> admitted.value.reservations == db0.reservations && admitted.value.usage == db0.usage;
  }

  /** A fresh reservation adds exactly its amount to its key, and only if that fits the limit. */
  lemma ReserveCountsItsAmount(db: Db, q: ReserveRequest, k: string, limit: int)
    requires UsageOk(db)
    ensures UsageOk(ReserveTx(db, q).0)
    ensures var db', added := ReserveTx(db, q).0, if Adds(db, q, k) then Max(0, q.amount) else 0;
            && AuthorizedFor(db', k) == AuthorizedFor(db, k) + added
            && (added > 0 && k != "" && ComesWith(q, limit) ==> AuthorizedFor(db', k) <= Max(0, limit))
            && (added > 0 ==> !q.grant.Inactive?)
  {
    var db0, db' := EnsureRow(db, q.account), ReserveTx(db, q).0;
    SameBooks(db, db0, k);
    if q.id in db.reservations || ReserveTx(db, q).1.Err? {
      assert db' == db0;
    } else {
      ReserveAddsOneRow(db, q);
      RowAdded(db, db', q.id, k);
      assert KeyRefusal(db0, q, Max(0, q.amount)).None?;
    }
  }

  /** Writing a row with the same key, status and amounts changes no count. */
  lemma RelabelCountsTheSame(db: Db, id: RequestId, r: Reservation, k: string)
    requires UsageOk(db) && id in db.reservations && SameMoney(db.reservations[id], r)
    ensures UsageOk(db.(reservations := db.reservations[id := r]))
    ensures AuthorizedFor(db.(reservations := db.reservations[id := r]), k) == AuthorizedFor(db, k)
  {
    var db' := db.(reservations := db.reservations[id := r]);
    forall i | i in db'.usage
      ensures EventOk(db', i, db'.usage[i])
    {
      assert EventOk(db, i, db.usage[i]);
    }
    assert MeteredAmounts(db', k) == MeteredAmounts(db, k);
    assert UnsettledAmounts(db', k) == UnsettledAmounts(db, k);
  }

  ghost predicate WithinLimit(db: Db, k: string, limit: int) {
    Inv(db) && UsageOk(db) && AuthorizedFor(db, k) <= Max(0, limit)
  }

  lemma ClosingStepsNeverCountMore(db: Db, s: Step, k: string)
    requires RowsOk(db) && UsageOk(db)
    requires s.FinalizeStep? || s.ReconcileStep?
    ensures UsageOk(Next(db, s)) && AuthorizedFor(Next(db, s), k) <= AuthorizedFor(db, k)
  {
    if s.FinalizeStep? {
      FinalizeNeverCountsMore(db, s.finalize, k);
      assert Next(db, s) == FinalizeTx(db, s.finalize).0;
    } else {
      ReconcileNeverCountsMore(db, s.reconcile, k);
      assert Next(db, s) == ReconcileTx(db, s.reconcile).0;
    }
  }

  /** Every step except a reservation leaves the key authorized for no more than before. */
  lemma OnlyReservingCountsMore(db: Db, s: Step, k: string)
    requires RowsOk(db) && UsageOk(db) && MetersWithinCharge(db, s) && !s.ReserveStep?
    ensures UsageOk(Next(db, s)) && AuthorizedFor(Next(db, s), k) <= AuthorizedFor(db, k)
  {
    if s.FinalizeStep? || s.ReconcileStep? {
      ClosingStepsNeverCountMore(db, s, k);
    } else if s.RecordUsageStep? {
      MeteringNeverCountsMore(db, s.id, s.event, k);
    } else if s.CreditStep? {
      SameBooks(db, Next(db, s), k);
    } else {
      RelabelingCountsTheSame(db, s, s.id, k);
    }
  }

  lemma RelabelingCountsTheSame(db: Db, s: Step, id: RequestId, k: string)
    requires UsageOk(db) && (s.RerouteStep? || s.AttemptStep? || s.DeliveryStep?) && s.id == id
    ensures UsageOk(Next(db, s)) && AuthorizedFor(Next(db, s), k) == AuthorizedFor(db, k)
  {
    if Next(db, s) != db {
      RelabelCountsTheSame(db, id, Next(db, s).reservations[id], k);
    }
  }

  lemma StepKeepsLimit(db: Db, s: Step, k: string, limit: int)
    requires k != "" && WithinLimit(db, k, limit)
    requires MetersWithinCharge(db, s) && LimitFixed(s, k, limit)
    ensures WithinLimit(Next(db, s), k, limit)
  {
    StepKeeps(db, s);
    if s.ReserveStep? {
      ReserveCountsItsAmount(db, s.reserve, k, limit);
    } else {
      OnlyReservingCountsMore(db, s, k);
    }
  }

  /** Every metering call along the run stays within the charge of the request it meters. */
  ghost predicate Metering(db: Db, steps: seq<Step>)
    decreases |steps|
  {
    steps == []
    || (MetersWithinCharge(db, steps[0])
        && Metering(Next(db, steps[0]), steps[1..]))
  }

  lemma {:induction false} RunKeepsLimit(db: Db, steps: seq<Step>, k: string, limit: int)
    requires k != "" && WithinLimit(db, k, limit) && Metering(db, steps)
    requires forall s :: s in steps ==> LimitFixed(s, k, limit)
    ensures WithinLimit(Run(db, steps), k, limit)
    decreases |steps|
  {
    if steps != [] {
      StepKeepsLimit(db, steps[0], k, limit);
      RunKeepsLimit(Next(db, steps[0]), steps[1..], k, limit);
    }
  }

  /**
   * In no reachable state does a key whose limit is fixed stand authorized for
   * more than that limit, each of its requests counted once.
   */
  lemma KeyNeverExceedsItsLimit(start: Db, steps: seq<Step>, k: string, limit: int)
    requires Init(start) && k != "" && Metering(start, steps)
    requires forall s :: s in steps ==> LimitFixed(s, k, limit)
    ensures AuthorizedFor(Run(start, steps), k) <= Max(0, limit)
    ensures Sum(CountedAmounts(Run(start, steps), k)) <= Max(0, limit)
  {
    InitEstablishes(start);
    SumOfZeros(MeteredAmounts(start, k));
    SumOfZeros(UnsettledAmounts(start, k));
    RunKeepsLimit(start, steps, k, limit);
    AuthorizedCountsEachRequestOnce(Run(start, steps), k);
  }

  // ----- What a key is charged

  function MeteredCost(u: UsageEvent): int {
    if u.status == Succeeded then u.cost else 0
  }

  /** The event of a wallet-funded request counts at least what the request was charged; no other counts below zero. */
  predicate CountsTheCharge(r: Reservation, u: UsageEvent) {
    if r.funding == FromWallet then r.charged <= MeteredCost(u) else 0 <= MeteredCost(u)
  }

  ghost predicate ChargesCounted(db: Db) {
    forall id :: id in db.usage && id in db.reservations ==> CountsTheCharge(db.reservations[id], db.usage[id])
  }

  /**
   * Finalizing an open request that has no event yet writes one under its account and
   * key; for a wallet-funded request it costs exactly what the request is charged, for
   * any other nothing, and what was charged counts as succeeded.
   */
  lemma FinalizeMetersTheCharge(db: Db, q: FinalizeRequest)
    requires q.id in db.reservations && db.reservations[q.id].status == Open && q.id !in db.usage
    requires q.recordUsage && FinalizeTx(db, q).1.Ok?
    ensures var db', before := FinalizeTx(db, q).0, db.reservations[q.id];
            && q.id in db'.usage && q.id in db'.reservations
            && var u, after := db'.usage[q.id], db'.reservations[q.id];
               && u.account == before.account && u.key == before.key
               && u.cost == (if before.funding == FromWallet then after.charged else 0)
               && (after.charged > 0 ==> u.status == Succeeded)
  {
    FinalizeLeavesOtherRows(db, q);
  }

  /** A metering call that writes an event meters a settled request as succeeded, at exactly its charge. */
  predicate MetersExactly(db: Db, s: Step) {
    s.RecordUsageStep? && s.id !in db.usage ==> MetersTheCharge(db, s.id, s.event) && s.event.status == Succeeded
  }

  ghost predicate MeteringExactly(db: Db, steps: seq<Step>)
    decreases |steps|
  {
    steps == [] || (MetersExactly(db, steps[0]) && MeteringExactly(Next(db, steps[0]), steps[1..]))
  }

  lemma ExactIsWithin(db: Db, s: Step)
    requires MetersExactly(db, s)
    ensures MetersWithinCharge(db, s)
  {
  }

  /** An event a step adds is for a finalized request, and counts its charge. */
  lemma NewEventCounts(db: Db, s: Step, id: RequestId)
    requires RowsOk(db) && MetersExactly(db, s) && id !in db.usage && id in Next(db, s).usage
    requires id in Next(db, s).reservations
    ensures CountsTheCharge(Next(db, s).reservations[id], Next(db, s).usage[id])
  {
    if s.FinalizeStep? {
      FinalizeEventCounts(db, s.finalize, id);
    } else if s.RecordUsageStep? {
      assert RowOk(db.reservations[id]);
    } else {
      OtherStepsAddNoEvent(db, s);
    }
  }

  lemma OtherStepsAddNoEvent(db: Db, s: Step)
    requires !s.FinalizeStep? && !s.RecordUsageStep?
    ensures Next(db, s).usage == db.usage
  {
    if s.ReserveStep? {
      ReserveAddsNoEvent(db, s.reserve);
    }
  }

  lemma FinalizeEventCounts(db: Db, q: FinalizeRequest, id: RequestId)
    requires id !in db.usage && id in FinalizeTx(db, q).0.usage
    ensures id in FinalizeTx(db, q).0.reservations
    ensures CountsTheCharge(FinalizeTx(db, q).0.reservations[id], FinalizeTx(db, q).0.usage[id])
  {
    FinalizeLeavesOtherRows(db, q);
    FinalizeMetersTheCharge(db, q);
  }

  lemma ReserveAddsNoEvent(db: Db, q: ReserveRequest)
    ensures ReserveTx(db, q).0.usage == db.usage
  {
    if q.id !in db.reservations && ReserveTx(db, q).1.Ok? {
      ReserveAddsOneRow(db, q);
    }
  }

  lemma EventsStay(db: Db, s: Step, id: RequestId)
    requires id in db.usage
    ensures id in Next(db, s).usage && Next(db, s).usage[id] == db.usage[id]
  {
    if s.FinalizeStep? {
      FinalizeLeavesOtherRows(db, s.finalize);
    } else if !s.RecordUsageStep? {
      OtherStepsAddNoEvent(db, s);
    }
  }

  lemma StepKeepsChargesCounted(db: Db, s: Step)
    requires RowsOk(db) && UsageOk(db) && ChargesCounted(db) && MetersExactly(db, s)
    ensures ChargesCounted(Next(db, s))
  {
    var db' := Next(db, s);
    forall id | id in db'.usage && id in db'.reservations
      ensures CountsTheCharge(db'.reservations[id], db'.usage[id])
    {
      if id in db.usage {
        EventsStay(db, s, id);
        assert EventOk(db, id, db.usage[id]);
        RowEvolves(db, s, id);
      } else {
        NewEventCounts(db, s, id);
      }
    }
  }

  lemma {:induction false} RunKeepsChargesCounted(db: Db, steps: seq<Step>, k: string, limit: int)
    requires k != "" && WithinLimit(db, k, limit) && ChargesCounted(db) && MeteringExactly(db, steps)
    requires forall s :: s in steps ==> LimitFixed(s, k, limit)
    ensures WithinLimit(Run(db, steps), k, limit) && ChargesCounted(Run(db, steps))
    decreases |steps|
  {
    if steps != [] {
      ExactIsWithin(db, steps[0]);
      StepKeepsLimit(db, steps[0], k, limit);
      StepKeepsChargesCounted(db, steps[0]);
      RunKeepsChargesCounted(Next(db, steps[0]), steps[1..], k, limit);
    }
  }

  /** What a wallet-funded row holds of its wallet, or took from it. */
  function Taken(r: Reservation, k: string): int {
    if r.key != Some(k) || r.funding != FromWallet then 0
    else if r.status == Open then r.reserved
    else r.charged
  }

  function TakenAmounts(rows: map<RequestId, Reservation>, k: string): map<RequestId, int> {
    map id | id in rows :: Taken(rows[id], k)
  }

  lemma TakenIsCounted(db: Db, k: string)
    requires RowsOk(db) && UsageOk(db) && ChargesCounted(db)
    ensures Sum(TakenAmounts(db.reservations, k)) <= Sum(CountedAmounts(db, k))
  {
    forall id | id in db.reservations
      ensures Taken(db.reservations[id], k) <= Counted(db, id, k)
    {
      assert RowOk(db.reservations[id]);
      if id in db.usage {
        assert EventOk(db, id, db.usage[id]) && CountsTheCharge(db.reservations[id], db.usage[id]);
      }
    }
    SumMonotone(TakenAmounts(db.reservations, k), CountedAmounts(db, k));
  }

  /**
   * In every run with a fixed limit, what the requests of a key hold of wallets and
   * took from them never exceeds the limit.
   */
  lemma KeyTakesNoMoreThanItsLimit(start: Db, steps: seq<Step>, k: string, limit: int)
    requires Init(start) && k != "" && MeteringExactly(start, steps)
    requires forall s :: s in steps ==> LimitFixed(s, k, limit)
    ensures Sum(TakenAmounts(Run(start, steps).reservations, k)) <= Max(0, limit)
  {
    InitEstablishes(start);
    SumOfZeros(MeteredAmounts(start, k));
    SumOfZeros(UnsettledAmounts(start, k));
    RunKeepsChargesCounted(start, steps, k, limit);
    var db := Run(start, steps);
    AuthorizedCountsEachRequestOnce(db, k);
    TakenIsCounted(db, k);
  }
}
