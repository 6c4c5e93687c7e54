/** The stale sweep: a batch read once, then finalized row by row while other transactions run. */
module LedgerSweep {
  import opened Wrappers
  import opened LedgerState
  import opened LedgerTransactions
  import opened LedgerInvariant
  import opened LedgerPreservation
  import opened LedgerRuns
  import opened LedgerHistory

  const BATCH: nat := 100

  predicate Stale(db: Db, cutoff: int, id: RequestId) {
    id in db.reservations && db.reservations[id].status == Open && db.reservations[id].createdAt < cutoff
  }

  /** `ORDER BY created_at LIMIT 100` over the open rows created before the cutoff. */
  predicate IsStaleBatch(db: Db, cutoff: int, batch: seq<RequestId>) {
    && |batch| <= BATCH
    && (forall i :: 0 <= i < |batch| ==> Stale(db, cutoff, batch[i]))
    && (forall i, j :: 0 <= i < j < |batch| ==>
          batch[i] != batch[j] && db.reservations[batch[i]].createdAt <= db.reservations[batch[j]].createdAt)
    && (forall id :: id in db.reservations && Stale(db, cutoff, id) && id !in batch ==>
          |batch| == BATCH
          && forall i :: 0 <= i < |batch| ==> db.reservations[batch[i]].createdAt <= db.reservations[id].createdAt)
  }

  /** One row of the batch: what was read, what ran before its turn, and whether metering accepts it. */
  datatype Turn = Turn(id: RequestId, read: Reservation, others: seq<Step>, meterable: bool)

  datatype Tally = Tally(released: nat, finalized: nat, failures: seq<RequestId>)

  function Request(t: Turn): FinalizeRequest {
    SweepRequest(t.id, t.read, t.meterable)
  }

  function Count(c: Tally, id: RequestId, r: Result<Settlement, BillingError>): Tally {
    match r
    case Ok(s) => Tally(if s.charged == 0 then c.released + 1 else c.released, c.finalized + 1, c.failures)
    case Err(_) => c.(failures := c.failures + [id])
  }

  /** The other callers' transactions, then this row's finalization, counted. */
  ghost function TurnTx(db: Db, c: Tally, t: Turn): (Db, Tally) {
    var r := FinalizeTx(Run(db, t.others), Request(t));
    (r.0, Count(c, t.id, r.1))
  }

  ghost function Sweep(db: Db, c: Tally, turns: seq<Turn>): (Db, Tally)
    decreases |turns|
  {
    if turns == [] then (db, c)
    else
      var r := TurnTx(db, c, turns[0]);
      Sweep(r.0, r.1, turns[1..])
  }

  /** The interleaving a sweep is. */
  function Script(turns: seq<Turn>): seq<Step> {
    if turns == [] then []
    else turns[0].others + [FinalizeStep(Request(turns[0]))] + Script(turns[1..])
  }

  /** A sweep is a run, so everything proved about runs holds of it. */
  lemma {:induction false} SweepIsARun(db: Db, c: Tally, turns: seq<Turn>)
    ensures Sweep(db, c, turns).0 == Run(db, Script(turns))
    decreases |turns|
  {
    if turns != [] {
      var t := turns[0];
      var mid := Run(db, t.others);
      var next := FinalizeTx(mid, Request(t)).0;
      RunSplits(db, t.others + [FinalizeStep(Request(t))], Script(turns[1..]));
      RunSplits(db, t.others, [FinalizeStep(Request(t))]);
      assert Run(mid, [FinalizeStep(Request(t))]) == next;
      SweepIsARun(next, Count(c, t.id, FinalizeTx(mid, Request(t)).1), turns[1..]);
    }
  }

  /** Nothing is lost from the count: every turn either finalized or is listed as a failure. */
  lemma {:induction false} SweepCountsEveryTurn(db: Db, c: Tally, turns: seq<Turn>)
    ensures var d := Sweep(db, c, turns).1;
            && d.finalized + |d.failures| == c.finalized + |c.failures| + |turns|
            && d.released - c.released <= d.finalized - c.finalized
    decreases |turns|
  {
    if turns != [] {
      var r := FinalizeTx(Run(db, turns[0].others), Request(turns[0]));
      SweepCountsEveryTurn(r.0, Count(c, turns[0].id, r.1), turns[1..]);
    }
  }

  /** Metering accepts the event this turn would write, or the turn writes none. */
  predicate Writable(t: Turn) {
    t.meterable || !Request(t).recordUsage
  }

  lemma WritableTurnFinalizes(db: Db, t: Turn)
    requires Inv(db) && t.id in db.reservations && Writable(t)
    ensures FinalizeTx(db, Request(t)).1.Ok?
    ensures t.id in FinalizeTx(db, Request(t)).0.reservations
    ensures FinalizeTx(db, Request(t)).0.reservations[t.id].status != Open
  {
    var row := db.reservations[t.id];
    assert RowOk(row);
    if row.status == Open {
      assert ChargeFor(row, Request(t)) == row.reserved || ChargeFor(row, Request(t)) == 0;
      assert FinalizeRefusal(row, Request(t)).None?;
    }
  }

  predicate Fenced(r: Reservation) {
    r.attemptedAt != None || r.deliveredAt != None
  }

  /**
   * One turn over a row still open: it is finalized unless metering refuses an event the
   * row calls for. A row fenced by then, or already when it was read, is charged its
   * whole hold; any other is released, and only such rows count as released.
   */
  lemma TurnAnswers(db: Db, c: Tally, t: Turn)
    requires Inv(db) && t.id in Run(db, t.others).reservations
    requires Run(db, t.others).reservations[t.id].status == Open
    ensures var (r, row) := (TurnTx(db, c, t), Run(db, t.others).reservations[t.id]);
      var charged := if Fenced(t.read) || Fenced(row) then row.reserved else 0;
      if t.meterable || t.read.route.provider == None || t.read.route.model == None then
        && t.id in r.0.reservations
        && r.0.reservations[t.id] == row.(charged := charged, status := if charged > 0 then Settled else Released)
        && r.1 == Tally(c.released + (if charged == 0 then 1 else 0), c.finalized + 1, c.failures)
      else
        r == (Run(db, t.others), Tally(c.released, c.finalized, c.failures + [t.id]))
  {
    RunKeeps(db, t.others);
    var mid := Run(db, t.others);
    var row, q := mid.reservations[t.id], Request(t);
    assert RowOk(row);
    if FinalizeRefusal(row, q).None? {
      FundingLeavesRows(mid, row, q, ChargeFor(row, q));
    }
  }

  lemma {:induction false} ReservationsStay(db: Db, steps: seq<Step>, id: RequestId)
    requires id in db.reservations
    ensures id in Run(db, steps).reservations
    decreases |steps|
  {
    if steps != [] {
      RowEvolves(db, steps[0], id);
      ReservationsStay(Next(db, steps[0]), steps[1..], id);
    }
  }

  /** Everything one turn guarantees, whatever the others ran before it. */
  lemma TurnFacts(db: Db, c: Tally, t: Turn, id: RequestId)
    requires Inv(db) && id in db.reservations
    ensures var r := TurnTx(db, c, t);
            && Inv(r.0) && id in r.0.reservations && r.1.finalized >= c.finalized
            && (id == t.id && Writable(t) ==> r.0.reservations[id].status != Open && r.1.finalized > c.finalized)
  {
    var mid := Run(db, t.others);
    RunKeeps(db, t.others);
    ReservationsStay(db, t.others, id);
    FinalizeKeeps(mid, Request(t));
    FinalizeLeavesOtherRows(mid, Request(t));
    if id == t.id && Writable(t) {
      WritableTurnFinalizes(mid, t);
    }
  }

  /**
   * One bad row does not end the batch: whatever happens to the other rows and
   * whatever else runs meanwhile, a row metering can accept ends finalized, and
   * the sweep that finalized it does not raise.
   */
  lemma {:induction false} NoHeadOfLineBlock(db: Db, c: Tally, turns: seq<Turn>, i: nat)
    requires Inv(db) && i < |turns|
    requires turns[i].id in db.reservations && Writable(turns[i])
    ensures turns[i].id in Sweep(db, c, turns).0.reservations
    ensures Sweep(db, c, turns).0.reservations[turns[i].id].status != Open
    ensures Sweep(db, c, turns).1.finalized > c.finalized
    decreases |turns|
  {
    var r := TurnTx(db, c, turns[0]);
    TurnFacts(db, c, turns[0], turns[i].id);
    assert Sweep(db, c, turns) == Sweep(r.0, r.1, turns[1..]);
    if i == 0 {
      StaysFinalized(r.0, r.1, turns[1..], turns[0].id);
    } else {
      NoHeadOfLineBlock(r.0, r.1, turns[1..], i - 1);
    }
  }

  lemma StaysFinalized(db: Db, c: Tally, turns: seq<Turn>, id: RequestId)
    requires id in db.reservations && db.reservations[id].status != Open
    ensures var after := Sweep(db, c, turns);
            && id in after.0.reservations && after.0.reservations[id].status != Open
            && after.1.finalized >= c.finalized
  {
    SweepIsARun(db, c, turns);
    FinalizedForever(db, Script(turns), id);
    FinalizedGrows(db, c, turns);
  }

  lemma {:induction false} FinalizedGrows(db: Db, c: Tally, turns: seq<Turn>)
    ensures Sweep(db, c, turns).1.finalized >= c.finalized
    decreases |turns|
  {
    if turns != [] {
      var r := FinalizeTx(Run(db, turns[0].others), Request(turns[0]));
      FinalizedGrows(r.0, Count(c, turns[0].id, r.1), turns[1..]);
    }
  }
}
