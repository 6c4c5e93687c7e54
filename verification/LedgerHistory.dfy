/** The life of one reservation: what may change, and what finalizes it. */
module LedgerHistory {
  import opened Wrappers
  import opened Pricing
  import opened LedgerState
  import opened LedgerTransactions
  import opened LedgerPreservation
  import opened LedgerRuns

  /** A fence, once set, keeps its first instant. */
  predicate FencesKept(r: Reservation, s: Reservation) {
    && (r.attemptedAt.Some? ==> s.attemptedAt == r.attemptedAt)
    && (r.deliveredAt.Some? ==> s.deliveredAt == r.deliveredAt)
  }

  /** Step `s` finalizes the open row `r` under `id` as `closed`. */
  predicate Closes(s: Step, id: RequestId, r: Reservation, closed: Reservation) {
    match s
    case FinalizeStep(q) => q.id == id && closed == Closed(r, ChargeFor(r, q))
    case ReconcileStep(q) =>
      q.id == id && r.funding == FromWallet && closed == Closed(r, Min(Max(0, q.finalCost), r.reserved))
    case _ => false
  }

  /** The ways a reservation may change in one transaction. */
  predicate Evolves(s: Step, id: RequestId, r: Reservation, r': Reservation) {
    || r' == r
    || (r.status == Open && SameMoney(r, r') && FencesKept(r, r') && (r'.route != r.route ==> s.RerouteStep?))
    || (r.status == Open && r'.status != Open && Closes(s, id, r, r'))
  }

  /** Everything one transaction can do to a reservation that is already there. */
  lemma RowEvolves(db: Db, s: Step, id: RequestId)
    requires id in db.reservations
    ensures id in Next(db, s).reservations
    ensures Evolves(s, id, db.reservations[id], Next(db, s).reservations[id])
  {
    match s
    case CreditStep(_, _, _) =>
    case ReserveStep(q) => ReserveLeavesRows(db, q, id);
    case RerouteStep(_, _) =>
    case AttemptStep(_, _, _, _) => FenceEvolves(db, s, id);
    case DeliveryStep(_, _) => FenceEvolves(db, s, id);
    case FinalizeStep(q) => FinalizeLeavesOtherRows(db, q);
    case ReconcileStep(q) => ReconcileLeavesOtherRows(db, q);
    case RecordUsageStep(_, _) =>
  }

  lemma FenceEvolves(db: Db, s: Step, id: RequestId)
    requires id in db.reservations && (s.AttemptStep? || s.DeliveryStep?)
    ensures id in Next(db, s).reservations
    ensures Evolves(s, id, db.reservations[id], Next(db, s).reservations[id])
  {
  }

  lemma ReconcileLeavesOtherRows(db: Db, q: ReconcileRequest)
    ensures var db' := ReconcileTx(db, q).0;
            || db' == db
            || (q.id in db.reservations && db.reservations[q.id].status == Open
                && var r := db.reservations[q.id];
                && r.funding == FromWallet
                && db'.reservations == db.reservations[q.id := Closed(r, Min(Max(0, q.finalCost), r.reserved))])
  {
  }

  lemma ReserveLeavesRows(db: Db, q: ReserveRequest, id: RequestId)
    requires id in db.reservations
    ensures id in ReserveTx(db, q).0.reservations
    ensures ReserveTx(db, q).0.reservations[id] == db.reservations[id]
  {
    var db0, amount := EnsureRow(db, q.account), Max(0, q.amount);
    if q.id !in db0.reservations {
      assert q.id != id;
      var held := HoldFor(db0, q, amount);
      match q.funding
      case FromWallet =>
      case FromTrial =>
      case FromPool =>
        var admitted := AdmitTx(db0, q.account, q.today, q.offer);
        assert admitted.Ok? ==> admitted.value.reservations == db0.reservations;
    }
  }

  /** A finalization closes its own row and meters it at most once; or it changes neither table. */
  lemma FinalizeLeavesOtherRows(db: Db, q: FinalizeRequest)
    ensures var db' := FinalizeTx(db, q).0;
            || (db'.reservations == db.reservations && db'.usage == db.usage)
            || (q.id in db.reservations && db.reservations[q.id].status == Open
                && var r := db.reservations[q.id];
                && db'.reservations == db.reservations[q.id := Closed(r, ChargeFor(r, q))]
                && (db'.usage == db.usage
                    || (q.id !in db.usage && db'.usage == db.usage[q.id := UsageOf(r, q, ChargeFor(r, q))])))
  {
    if q.id in db.reservations && db.reservations[q.id].status == Open {
      var row := db.reservations[q.id];
      if FinalizeRefusal(row, q).None? {
        FundingLeavesRows(db, row, q, ChargeFor(row, q));
      }
    }
  }

  predicate SameRows(db: Db, db': Db) {
    db'.reservations == db.reservations && db'.usage == db.usage
  }

  lemma FundingLeavesRows(db: Db, row: Reservation, q: FinalizeRequest, charge: int)
    requires row.funding.FromPool? ==> row.poolDate.Some?
    ensures SameRows(db, SettleFunding(db, row, q, charge))
  {
    match row.funding
    case FromWallet =>
    case FromTrial => TrialLeavesRows(db, row, q, charge);
    case FromPool => PoolLeavesRows(db, row, q, charge);
  }

  lemma TrialLeavesRows(db: Db, row: Reservation, q: FinalizeRequest, charge: int)
    ensures SameRows(db, SettleTrial(db, row, q, charge))
  {
  }

  lemma PoolLeavesRows(db: Db, row: Reservation, q: FinalizeRequest, charge: int)
    requires row.poolDate.Some?
    ensures SameRows(db, SettlePool(db, row, q, charge))
  {
  }

  // ----- Finalized once

  /** Nothing that runs later touches a finalized reservation. */
  lemma {:induction false} FinalizedForever(db: Db, steps: seq<Step>, id: RequestId)
    requires id in db.reservations && db.reservations[id].status != Open
    ensures id in Run(db, steps).reservations && Run(db, steps).reservations[id] == db.reservations[id]
    decreases |steps|
  {
    if steps != [] {
      RowEvolves(db, steps[0], id);
      FinalizedForever(Next(db, steps[0]), steps[1..], id);
    }
  }

  /**
   * However long after, settling, aborting, capturing or reconciling a finalized
   * request again leaves every table alone and reports the charge that was fixed,
   * and its id can never be reserved again.
   */
  lemma LaterCallsReportTheFirstCharge(
      db: Db, steps: seq<Step>, again: FinalizeRequest, recon: ReconcileRequest, reserve: ReserveRequest)
    requires again.id in db.reservations && db.reservations[again.id].status != Open
    requires recon.id == again.id && reserve.id == again.id
    ensures var later, charged := Run(db, steps), db.reservations[again.id].charged;
            && FinalizeTx(later, again).0 == later
            && FinalizeTx(later, again).1.Ok? && FinalizeTx(later, again).1.value.charged == charged
            && ReconcileTx(later, recon).0 == later
            && (ReconcileTx(later, recon).1.Ok? ==> ReconcileTx(later, recon).1.value.charged == charged)
            && ReserveTx(later, reserve).1.Err?
            && ReserveTx(later, reserve).0 == EnsureRow(later, reserve.account)
  {
    FinalizedForever(db, steps, again.id);
  }

  /** An open row stays open with its money, or some step along the run closes it. */
  lemma {:induction false} OpenOrClosed(db: Db, steps: seq<Step>, id: RequestId)
      returns (i: nat)
    requires id in db.reservations && db.reservations[id].status == Open
    ensures id in Run(db, steps).reservations
    ensures i <= |steps|
    ensures var before := Run(db, steps[..i]);
            && id in before.reservations
            && SameMoney(db.reservations[id], before.reservations[id])
            && FencesKept(db.reservations[id], before.reservations[id])
    ensures i == |steps| <==> Run(db, steps).reservations[id].status == Open
    ensures i < |steps| ==>
              Closes(steps[i], id, Run(db, steps[..i]).reservations[id], Run(db, steps).reservations[id])
    decreases |steps|
  {
    if steps == [] {
      return 0;
    }
    var next := Next(db, steps[0]);
    RowEvolves(db, steps[0], id);
    if next.reservations[id].status == Open {
      var j := OpenOrClosed(next, steps[1..], id);
      i := j + 1;
      RunPrefix(db, steps, j);
    } else {
      FinalizedForever(next, steps[1..], id);
      i := 0;
      assert steps[..0] == [];
    }
  }

  lemma RunPrefix(db: Db, steps: seq<Step>, j: nat)
    requires j < |steps|
    ensures Run(db, steps[..j + 1]) == Run(Next(db, steps[0]), steps[1..][..j])
  {
    assert steps[..j + 1][1..] == steps[1..][..j];
  }

  /** Whatever finalizes a hold charges at most the amount first reserved, reroutes included. */
  lemma ChargeNeverExceedsHold(db: Db, steps: seq<Step>, id: RequestId)
    requires id in db.reservations && db.reservations[id].status == Open
    requires 0 == db.reservations[id].charged <= db.reservations[id].reserved
    ensures id in Run(db, steps).reservations
    ensures Run(db, steps).reservations[id].reserved == db.reservations[id].reserved
    ensures Run(db, steps).reservations[id].charged <= db.reservations[id].reserved
  {
    var i := OpenOrClosed(db, steps, id);
    if i < |steps| {
      var before := Run(db, steps[..i]).reservations[id];
      match steps[i]
      case FinalizeStep(q) => ChargeWithinHold(before, q);
      case _ =>
    } else {
      assert steps[..i] == steps;
    }
  }

  // ----- No free provider work

  /** The charge a finalizing step may fix, given the row it found. */
  predicate FairCharge(s: Step, row: Reservation, charged: int) {
    match s
    case FinalizeStep(q) =>
      (match q.outcome
       case Settle =>
         charged == Min(if q.usage.Some? then CostMicros(q.usage.value, row.route.pricing) else 0, row.reserved)
       case Capture => charged == row.reserved
       case Abort => charged == row.reserved || (charged == 0 && q.providerRejected && row.deliveredAt.None?))
    case ReconcileStep(q) => charged == Min(Max(0, q.finalCost), row.reserved)
    case _ => false
  }

  /**
   * The step ends a fenced hold uncharged: a settlement whose usage costs nothing or
   * is missing (src/inference/rpc.ts requires it), an abort that attests a provider
   * rejection before any delivery, or a reconciliation at no cost.
   */
  predicate EndsUncharged(s: Step, row: Reservation) {
    match s
    case FinalizeStep(q) =>
      || (q.outcome == Settle && (q.usage.None? || CostMicros(q.usage.value, row.route.pricing) <= 0))
      || (q.outcome == Abort && q.providerRejected && row.deliveredAt.None?)
    case ReconcileStep(q) => q.finalCost <= 0
    case _ => false
  }

  /**
   * Once an attempt fence is set, the step that closes the hold charges the ceiling,
   * the measured cost or the reconciled cost; and it charges nothing for a hold that
   * holds something exactly when it is one of the three kinds above.
   */
  lemma NoFreeProviderWork(db: Db, steps: seq<Step>, id: RequestId)
      returns (i: nat)
    requires id in db.reservations && db.reservations[id].status == Open
    requires db.reservations[id].attemptedAt.Some?
    requires id in Run(db, steps).reservations && Run(db, steps).reservations[id].status != Open
    ensures i < |steps|
    ensures var before := Run(db, steps[..i]);
            && id in before.reservations && before.reservations[id].status == Open
            && before.reservations[id].reserved == db.reservations[id].reserved
            && (db.reservations[id].deliveredAt.Some? ==> before.reservations[id].deliveredAt.Some?)
    ensures var row, charged := Run(db, steps[..i]).reservations[id], Run(db, steps).reservations[id].charged;
            && FairCharge(steps[i], row, charged)
            && (charged <= 0 <==> row.reserved <= 0 || EndsUncharged(steps[i], row))
  {
    i := OpenOrClosed(db, steps, id);
    ClosesFairly(steps[i], id, Run(db, steps[..i]).reservations[id], Run(db, steps).reservations[id]);
  }

  lemma ClosesFairly(s: Step, id: RequestId, row: Reservation, closed: Reservation)
    requires row.attemptedAt.Some? && Closes(s, id, row, closed)
    ensures FairCharge(s, row, closed.charged)
    ensures closed.charged <= 0 <==> row.reserved <= 0 || EndsUncharged(s, row)
  {
    match s
    case FinalizeStep(q) =>
      assert q.outcome == Settle ==> !CapturesCeiling(row, q);
      assert q.outcome == Abort && !CapturesCeiling(row, q) ==> q.providerRejected && row.deliveredAt.None?;
    case _ =>
  }

  /** `reconcileReservedBalance` heeds no fence: at no cost it releases even a delivered hold uncharged. */
  lemma ReconcileReleasesDeliveredHold(db: Db, q: ReconcileRequest)
    requires q.id in db.reservations && q.finalCost <= 0
    requires var row := db.reservations[q.id];
             && row.status == Open && row.funding == FromWallet && row.account == q.account
             && row.deliveredAt.Some? && row.reserved > 0 && q.reserved == row.reserved
    ensures var after := Run(db, [ReconcileStep(q)]).reservations;
            q.id in after && after[q.id] == Closed(db.reservations[q.id], 0) && after[q.id].status == Released
  {
    var steps := [ReconcileStep(q)];
    assert steps[1..] == [];
    assert Run(db, steps) == Next(db, steps[0]);
  }

  /** What `releaseStaleBalanceReservations` asks for, decided from the row as it read it. */
  function SweepRequest(id: RequestId, read: Reservation, meterable: bool): FinalizeRequest {
    FinalizeRequest(
      id,
      if read.attemptedAt.Some? || read.deliveredAt.Some? then Capture else Abort,
      None, Failed, false,
      read.route.provider.Some? && read.route.model.Some?,
      meterable)
  }

  /**
   * The sweeper decides from an earlier read. If a fence was set after that read
   * the finalization still captures the whole hold; without one it releases it.
   */
  lemma StaleSweepStillCaptures(db: Db, steps: seq<Step>, id: RequestId, meterable: bool)
    requires id in db.reservations && db.reservations[id].status == Open
    requires id in Run(db, steps).reservations && Run(db, steps).reservations[id].status == Open
    ensures var read, found := db.reservations[id], Run(db, steps).reservations[id];
            var swept := FinalizeTx(Run(db, steps), SweepRequest(id, read, meterable));
            swept.1.Ok? ==>
              && id in swept.0.reservations
              && swept.0.reservations[id]
                 == Closed(found, if found.attemptedAt.Some? || found.deliveredAt.Some? then read.reserved else 0)
  {
    var i := OpenOrClosed(db, steps, id);
    assert steps[..i] == steps;
    var found, q := Run(db, steps).reservations[id], SweepRequest(id, db.reservations[id], meterable);
    assert ChargeFor(found, q)
        == if found.attemptedAt.Some? || found.deliveredAt.Some? then db.reservations[id].reserved else 0;
    if FinalizeRefusal(found, q).None? {
      FundingLeavesRows(Run(db, steps), found, q, ChargeFor(found, q));
    }
  }
}
