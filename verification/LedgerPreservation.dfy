/** Every billing transaction keeps the invariant. */
module LedgerPreservation {
  import opened Wrappers
  import opened Pricing
  import opened Money
  import opened LedgerState
  import opened LedgerTransactions
  import opened LedgerInvariant

  // ----- Frames: what a write to one funding source leaves alone

  /** The reservations after writing row `r` under `id`, and `f` is not involved. */
  predicate Elsewhere(db: Db, db': Db, id: RequestId, r: Reservation, f: Funding) {
    && db'.reservations == db.reservations[id := r]
    && r.funding != f
    && (id in db.reservations ==> db.reservations[id].funding != f)
  }

  function FundingOf(g: Gauge): Funding {
    if g.WalletHeld? || g.WalletCharged? then FromWallet
    else if g.TrialHeld? || g.TrialCharged? then FromTrial
    else FromPool
  }

  lemma GaugeUntouched(db: Db, db': Db, id: RequestId, r: Reservation, g: Gauge)
    requires Elsewhere(db, db', id, r, FundingOf(g))
    ensures Total(db'.reservations, g) == Total(db.reservations, g)
  {
    RowWritten(db.reservations, id, r, g);
  }

  /** No table loses a row, so every other reservation stays anchored. */
  lemma RowsStay(db: Db, db': Db, id: RequestId, r: Reservation)
    requires RowsOk(db) && db'.reservations == db.reservations[id := r]
    requires RowOk(r) && Anchored(db', r)
    requires db.balances.Keys <= db'.balances.Keys && db.entitlements.Keys <= db'.entitlements.Keys
    requires db.days.Keys <= db'.days.Keys && db.userDays.Keys <= db'.userDays.Keys
    ensures RowsOk(db')
  {
    forall i | i in db'.reservations
      ensures RowOk(db'.reservations[i]) && Anchored(db', db'.reservations[i])
    {
      if i != id {
        assert Anchored(db, db.reservations[i]);
      }
    }
  }

  lemma AnchorsStay(db: Db, db': Db)
    requires RowsOk(db) && db'.reservations == db.reservations
    requires db.balances.Keys <= db'.balances.Keys && db.entitlements.Keys <= db'.entitlements.Keys
    requires db.days.Keys <= db'.days.Keys && db.userDays.Keys <= db'.userDays.Keys
    ensures RowsOk(db')
  {
    forall i | i in db'.reservations
      ensures RowOk(db'.reservations[i]) && Anchored(db', db'.reservations[i])
    {
      assert Anchored(db, db.reservations[i]);
    }
  }

  lemma WalletsUntouched(db: Db, db': Db, id: RequestId, r: Reservation)
    requires WalletsOk(db) && Elsewhere(db, db', id, r, FromWallet)
    requires db'.balances == db.balances && db'.events == db.events
    ensures WalletsOk(db')
  {
    forall a
      ensures WalletOk(db', a)
    {
      assert WalletOk(db, a);
      GaugeUntouched(db, db', id, r, WalletHeld(a));
      GaugeUntouched(db, db', id, r, WalletCharged(a));
    }
  }

  lemma TrialsUntouched(db: Db, db': Db, id: RequestId, r: Reservation)
    requires TrialsOk(db) && Elsewhere(db, db', id, r, FromTrial)
    requires db'.entitlements == db.entitlements
    ensures TrialsOk(db')
  {
    forall a
      ensures TrialOk(db', a)
    {
      assert TrialOk(db, a);
      GaugeUntouched(db, db', id, r, TrialHeld(a));
      GaugeUntouched(db, db', id, r, TrialCharged(a));
    }
  }

  lemma UserDaysUntouched(db: Db, db': Db, id: RequestId, r: Reservation)
    requires UserDaysOk(db) && Elsewhere(db, db', id, r, FromPool)
    requires db'.userDays == db.userDays
    ensures UserDaysOk(db')
  {
    forall d, a
      ensures UserDayOk(db', d, a)
    {
      assert UserDayOk(db, d, a);
      GaugeUntouched(db, db', id, r, PoolHeld(d, a));
      GaugeUntouched(db, db', id, r, PoolCharged(d, a));
    }
  }

  lemma DaysUntouched(db: Db, db': Db)
    requires DaysOk(db) && db'.days == db.days && db'.userDays == db.userDays
    ensures DaysOk(db')
  {
    forall d
      ensures DayOk(db', d)
    {
      assert DayOk(db, d);
    }
  }

  /** The wallet and trial parts when neither their tables nor the reservations change. */
  lemma HoldersUntouched(db: Db, db': Db)
    requires WalletsOk(db) && TrialsOk(db)
    requires db'.reservations == db.reservations && db'.entitlements == db.entitlements
    requires db'.events == db.events && forall a :: WalletOf(db', a) == WalletOf(db, a)
    ensures WalletsOk(db') && TrialsOk(db')
  {
    forall a
      ensures WalletOk(db', a) && TrialOk(db', a)
    {
      assert WalletOk(db, a) && TrialOk(db, a);
    }
  }

  /** The pool part when neither its tables nor the reservations change. */
  lemma PoolUntouched(db: Db, db': Db)
    requires UserDaysOk(db) && DaysOk(db)
    requires db'.reservations == db.reservations && db'.days == db.days && db'.userDays == db.userDays
    ensures UserDaysOk(db') && DaysOk(db')
  {
    DaysUntouched(db, db');
    forall d, a
      ensures UserDayOk(db', d, a)
    {
      assert UserDayOk(db, d, a);
    }
  }

  // ----- Ensuring rows and crediting

  lemma EnsureRowKeeps(db: Db, a: Account)
    requires Inv(db)
    ensures Inv(EnsureRow(db, a))
  {
    HoldersUntouched(db, EnsureRow(db, a));
    PoolUntouched(db, EnsureRow(db, a));
  }

  lemma CreditedAppends(events: seq<BalanceEvent>, e: BalanceEvent, a: Account)
    ensures Credited(events + [e], a)
         == Credited(events, a) + if e.account == a && (e.kind.Credit? || e.kind.Adjustment?) then e.amount else 0
  {
    assert (events + [e])[..|events|] == events;
  }

  lemma CreditKeepsWallet(db: Db, a: Account, amount: int, kind: EventKind, b: Account)
    requires WalletOk(db, b) && (kind == Credit || kind == Adjustment) && amount > 0
    ensures WalletOk(CreditTx(db, a, amount, kind), b)
  {
    CreditedAppends(db.events, BalanceEvent(a, kind, amount, None), b);
  }

  lemma CreditKeepsTrial(db: Db, a: Account, amount: int, kind: EventKind, b: Account)
    requires TrialOk(db, b)
    ensures TrialOk(CreditTx(db, a, amount, kind), b)
  {
  }

  lemma CreditKeeps(db: Db, a: Account, amount: int, kind: EventKind)
    requires Inv(db) && (kind == Credit || kind == Adjustment)
    ensures Inv(CreditTx(db, a, amount, kind))
  {
    if amount <= 0 {
      EnsureRowKeeps(db, a);
    } else {
      var db' := CreditTx(db, a, amount, kind);
      forall b
        ensures WalletOk(db', b) && TrialOk(db', b)
      {
        CreditKeepsWallet(db, a, amount, kind, b);
        CreditKeepsTrial(db, a, amount, kind, b);
      }
      PoolUntouched(db, db');
    }
  }

  // ----- Steps that move no money

  /** The fields no fence and no reroute may touch. */
  predicate SameMoney(r: Reservation, s: Reservation) {
    && r.account == s.account && r.key == s.key && r.reserved == s.reserved && r.charged == s.charged
    && r.status == s.status && r.funding == s.funding && r.poolDate == s.poolDate && r.createdAt == s.createdAt
  }

  lemma SameMoneySameTotal(rows: map<RequestId, Reservation>, id: RequestId, r: Reservation, g: Gauge)
    requires id in rows && SameMoney(rows[id], r)
    ensures Total(rows[id := r], g) == Total(rows, g)
  {
    RowWritten(rows, id, r, g);
  }

  lemma RelabelKeeps(db: Db, id: RequestId, r: Reservation)
    requires Inv(db) && id in db.reservations && SameMoney(db.reservations[id], r) && RowOk(r)
    ensures Inv(db.(reservations := db.reservations[id := r]))
  {
    var db' := db.(reservations := db.reservations[id := r]);
    forall a
      ensures WalletOk(db', a) && TrialOk(db', a)
    {
      assert WalletOk(db, a) && TrialOk(db, a);
      SameMoneySameTotal(db.reservations, id, r, WalletHeld(a));
      SameMoneySameTotal(db.reservations, id, r, WalletCharged(a));
      SameMoneySameTotal(db.reservations, id, r, TrialHeld(a));
      SameMoneySameTotal(db.reservations, id, r, TrialCharged(a));
    }
    forall d, a
      ensures UserDayOk(db', d, a)
    {
      assert UserDayOk(db, d, a);
      SameMoneySameTotal(db.reservations, id, r, PoolHeld(d, a));
      SameMoneySameTotal(db.reservations, id, r, PoolCharged(d, a));
    }
    DaysUntouched(db, db');
  }

  lemma RerouteKeeps(db: Db, id: RequestId, route: Route)
    requires Inv(db)
    ensures Inv(RerouteTx(db, id, route).0)
  {
    if RerouteTx(db, id, route).1 {
      RelabelKeeps(db, id, db.reservations[id].(route := route));
    }
  }

  lemma AttemptKeeps(db: Db, id: RequestId, now: int, known: bool, up: bool)
    requires Inv(db)
    ensures Inv(AttemptTx(db, id, now, known, up).0)
  {
    if id in db.reservations && known && up && db.reservations[id].status == Open {
      var row := db.reservations[id];
      RelabelKeeps(db, id, row.(attemptedAt := OrElse(row.attemptedAt, now)));
    }
  }

  lemma DeliveryKeeps(db: Db, id: RequestId, now: int)
    requires Inv(db)
    ensures Inv(DeliveryTx(db, id, now).0)
  {
    if id in db.reservations && db.reservations[id].status == Open {
      var row := db.reservations[id];
      RelabelKeeps(db, id,
        row.(attemptedAt := OrElse(row.attemptedAt, now), deliveredAt := OrElse(row.deliveredAt, now)));
    }
  }

  // ----- Reserving

  lemma HoldWalletFor(db: Db, q: ReserveRequest, amount: int, a: Account)
    requires WalletOk(db, a) && q.id !in db.reservations
    requires amount >= 0 && q.funding.FromWallet? && HoldWallet(db, q, amount).Ok?
    ensures WalletOk(HoldWallet(db, q, amount).value, a)
  {
    var r := NewRow(q, amount, None);
    RowWritten(db.reservations, q.id, r, WalletHeld(a));
    RowWritten(db.reservations, q.id, r, WalletCharged(a));
    CreditedAppends(db.events, BalanceEvent(q.account, Hold, amount, Some(q.id)), a);
  }

  lemma HoldWalletKeeps(db: Db, q: ReserveRequest, amount: int)
    requires Inv(db) && q.id !in db.reservations && q.account in db.balances
    requires amount >= 0 && q.funding.FromWallet? && HoldWallet(db, q, amount).Ok?
    ensures Inv(HoldWallet(db, q, amount).value)
  {
    var db' := HoldWallet(db, q, amount).value;
    var r := NewRow(q, amount, None);
    forall a
      ensures WalletOk(db', a)
    {
      assert WalletOk(db, a);
      HoldWalletFor(db, q, amount, a);
    }
    TrialsUntouched(db, db', q.id, r);
    UserDaysUntouched(db, db', q.id, r);
    DaysUntouched(db, db');
    RowsStay(db, db', q.id, r);
  }

  lemma HoldTrialKeeps(db: Db, q: ReserveRequest, amount: int)
    requires Inv(db) && q.id !in db.reservations
    requires amount >= 0 && q.funding.FromTrial? && HoldTrial(db, q, amount).Ok?
    ensures Inv(HoldTrial(db, q, amount).value)
  {
    var db' := HoldTrial(db, q, amount).value;
    var r := NewRow(q, amount, None);
    forall a
      ensures TrialOk(db', a)
    {
      assert TrialOk(db, a);
      RowWritten(db.reservations, q.id, r, TrialHeld(a));
      RowWritten(db.reservations, q.id, r, TrialCharged(a));
    }
    WalletsUntouched(db, db', q.id, r);
    UserDaysUntouched(db, db', q.id, r);
    DaysUntouched(db, db');
  }

  /** Some account's user-day and the day itself move by the same amounts. */
  lemma DayMoves(db: Db, db': Db, d: Date, a: Account, e: Date)
    requires DayOk(db, e) && (d, a) in db'.userDays
    requires db'.userDays == db.userDays[(d, a) := db'.userDays[(d, a)]]
    requires d in db'.days && db'.days == db.days[d := db'.days[d]]
    requires var day, u, v := DayOf(db, d), UserDayOf(db, d, a), db'.userDays[(d, a)];
             && db'.days[d].committed - day.committed == v.committed - u.committed
             && db'.days[d].reserved - day.reserved == v.reserved - u.reserved
             && db'.days[d].spent - day.spent == v.spent - u.spent
             && db'.days[d].committed <= db'.days[d].budget
    ensures DayOk(db', e)
  {
    var v := db'.userDays[(d, a)];
    UserDayWritten(db.userDays, (d, a), v, e, Committed);
    UserDayWritten(db.userDays, (d, a), v, e, Reserved);
    UserDayWritten(db.userDays, (d, a), v, e, Spent);
  }

  lemma AdmitKeepsUserDay(db: Db, a: Account, today: Date, offer: PoolOffer, d: Date, b: Account)
    requires UserDayOk(db, d, b) && AdmitTx(db, a, today, offer).Ok?
    ensures UserDayOk(AdmitTx(db, a, today, offer).value, d, b)
  {
  }

  lemma AdmitKeepsDay(db: Db, a: Account, today: Date, offer: PoolOffer, d: Date)
    requires DayOk(db, d) && DayOk(db, today)
    requires AdmitTx(db, a, today, offer).Ok? && AdmitTx(db, a, today, offer).value != db
    ensures DayOk(AdmitTx(db, a, today, offer).value, d)
  {
    DayMoves(db, AdmitTx(db, a, today, offer).value, today, a, d);
  }

  lemma AdmitKeeps(db: Db, a: Account, today: Date, offer: PoolOffer)
    requires Inv(db) && AdmitTx(db, a, today, offer).Ok?
    ensures var db' := AdmitTx(db, a, today, offer).value;
            Inv(db') && db'.reservations == db.reservations && today in db'.days && (today, a) in db'.userDays
  {
    var db' := AdmitTx(db, a, today, offer).value;
    if db' != db {
      HoldersUntouched(db, db');
      forall d, b
        ensures UserDayOk(db', d, b)
      {
        AdmitKeepsUserDay(db, a, today, offer, d, b);
      }
      forall d
        ensures DayOk(db', d)
      {
        AdmitKeepsDay(db, a, today, offer, d);
      }
    }
  }

  lemma OtherUserDay(db: Db, db': Db, id: RequestId, r: Reservation, d: Date, a: Account, e: Date, b: Account)
    requires UserDayOk(db, e, b) && (e, b) != (d, a) && (d, a) in db'.userDays
    requires db'.reservations == db.reservations[id := r] && r.poolDate == Some(d) && r.account == a
    requires id in db.reservations ==> db.reservations[id].poolDate == Some(d) && db.reservations[id].account == a
    requires db'.userDays == db.userDays[(d, a) := db'.userDays[(d, a)]]
    ensures UserDayOk(db', e, b)
  {
    RowWritten(db.reservations, id, r, PoolHeld(e, b));
    RowWritten(db.reservations, id, r, PoolCharged(e, b));
  }

  /** A pool row and its two counters move together. */
  lemma PoolMoves(db: Db, db': Db, id: RequestId, r: Reservation, d: Date, a: Account, day: PoolDay, u: UserDay)
    requires UserDaysOk(db) && DaysOk(db) && d in db.days && (d, a) in db.userDays
    requires db'.days == db.days[d := day] && db'.userDays == db.userDays[(d, a) := u]
    requires db'.reservations == db.reservations[id := r]
    requires r.funding == FromPool && r.poolDate == Some(d) && r.account == a
    requires id in db.reservations ==>
               var s := db.reservations[id]; s.funding == FromPool && s.poolDate == Some(d) && s.account == a
    requires UserDayOk(db', d, a)
    requires day.committed - db.days[d].committed == u.committed - db.userDays[(d, a)].committed
    requires day.reserved - db.days[d].reserved == u.reserved - db.userDays[(d, a)].reserved
    requires day.spent - db.days[d].spent == u.spent - db.userDays[(d, a)].spent
    requires day.committed <= day.budget
    ensures UserDaysOk(db') && DaysOk(db')
  {
    forall e, b
      ensures UserDayOk(db', e, b)
    {
      assert UserDayOk(db, e, b);
      if (e, b) != (d, a) {
        OtherUserDay(db, db', id, r, d, a, e, b);
      }
    }
    forall e
      ensures DayOk(db', e)
    {
      assert DayOk(db, e);
      DayMoves(db, db', d, a, e);
    }
  }

  lemma HoldPoolKeeps(db: Db, q: ReserveRequest, amount: int)
    requires Inv(db) && q.id !in db.reservations
    requires amount >= 0 && q.funding.FromPool? && HoldPool(db, q, amount).Ok?
    ensures Inv(HoldPool(db, q, amount).value)
  {
    AdmitKeeps(db, q.account, q.today, q.offer);
    HoldAdmittedKeeps(AdmitTx(db, q.account, q.today, q.offer).value, HoldPool(db, q, amount).value, q, amount);
  }

  lemma HoldAdmittedKeeps(db: Db, db': Db, q: ReserveRequest, amount: int)
    requires Inv(db) && q.id !in db.reservations && q.today in db.days && (q.today, q.account) in db.userDays
    requires q.funding.FromPool? && InRange(amount)
    requires var day, u := db.days[q.today], db.userDays[(q.today, q.account)];
             && 0 <= amount <= u.committed - u.reserved - u.spent
             && db' == db.(
                  days := db.days[q.today := day.(reserved := day.reserved + amount)],
                  userDays := db.userDays[(q.today, q.account) := u.(reserved := u.reserved + amount)],
                  reservations := db.reservations[q.id := NewRow(q, amount, Some(q.today))])
    ensures Inv(db')
  {
    var p := (q.today, q.account);
    var r := NewRow(q, amount, Some(q.today));
    assert DayOk(db, q.today);
    HoldAdmittedUserDay(db, db', q, amount, r);
    PoolMoves(db, db', q.id, r, q.today, q.account, db'.days[q.today], db'.userDays[p]);
    WalletsUntouched(db, db', q.id, r);
    TrialsUntouched(db, db', q.id, r);
  }

  lemma HoldAdmittedUserDay(db: Db, db': Db, q: ReserveRequest, amount: int, r: Reservation)
    requires UserDayOk(db, q.today, q.account) && q.id !in db.reservations && (q.today, q.account) in db.userDays
    requires q.funding.FromPool? && r == NewRow(q, amount, Some(q.today))
    requires var u := db.userDays[(q.today, q.account)];
             && 0 <= amount <= u.committed - u.reserved - u.spent
             && db'.userDays == db.userDays[(q.today, q.account) := u.(reserved := u.reserved + amount)]
             && db'.reservations == db.reservations[q.id := r]
    ensures UserDayOk(db', q.today, q.account)
  {
    RowWritten(db.reservations, q.id, r, PoolHeld(q.today, q.account));
    RowWritten(db.reservations, q.id, r, PoolCharged(q.today, q.account));
  }

  lemma ReserveKeeps(db: Db, q: ReserveRequest)
    requires Inv(db)
    ensures Inv(ReserveTx(db, q).0)
  {
    EnsureRowKeeps(db, q.account);
    var db0 := EnsureRow(db, q.account);
    var amount := Max(0, q.amount);
    if q.id !in db0.reservations && HoldFor(db0, q, amount).Ok? {
      match q.funding
      case FromWallet => HoldWalletKeeps(db0, q, amount);
      case FromTrial => HoldTrialKeeps(db0, q, amount);
      case FromPool => HoldPoolKeeps(db0, q, amount);
    }
  }

  // ----- Settling

  /** The reservations once the open row `id` is finalized at `charge`. */
  function WithClosed(db: Db, id: RequestId, charge: int): Db
    requires id in db.reservations
  {
    db.(reservations := db.reservations[id := Closed(db.reservations[id], charge)])
  }

  /** An open row that can be finalized at `charge`. */
  predicate Payable(db: Db, id: RequestId, f: Funding, charge: int) {
    && id in db.reservations && db.reservations[id].status == Open && db.reservations[id].funding == f
    && charge <= db.reservations[id].reserved
  }

  lemma WalletSettlementFor(db: Db, id: RequestId, charge: int, a: Account)
    requires Payable(db, id, FromWallet, charge) && WalletOk(db, a) && db.reservations[id].charged == 0
    requires db.reservations[id].account in db.balances && db.reservations[id].reserved >= 0
    ensures WalletOk(WithClosed(SettleWallet(db, id, db.reservations[id], charge), id, charge), a)
  {
    var row := db.reservations[id];
    var r := Closed(row, charge);
    RowWritten(db.reservations, id, r, WalletHeld(a));
    RowWritten(db.reservations, id, r, WalletCharged(a));
    SettlementsCreditNothing(db.events, row.account, id, row.reserved, charge, a);
  }

  lemma WalletSettlementKeeps(db: Db, id: RequestId, charge: int)
    requires Inv(db) && Payable(db, id, FromWallet, charge)
    ensures Inv(WithClosed(SettleWallet(db, id, db.reservations[id], charge), id, charge))
  {
    var db' := WithClosed(SettleWallet(db, id, db.reservations[id], charge), id, charge);
    var r := Closed(db.reservations[id], charge);
    forall a
      ensures WalletOk(db', a)
    {
      assert WalletOk(db, a);
      WalletSettlementFor(db, id, charge, a);
    }
    TrialsUntouched(db, db', id, r);
    UserDaysUntouched(db, db', id, r);
    DaysUntouched(db, db');
    RowsStay(db, db', id, r);
  }

  lemma SettlementsCreditNothing(
      events: seq<BalanceEvent>, b: Account, id: RequestId, reserved: int, charge: int, a: Account)
    ensures Credited(events + SettlementEvents(b, id, reserved, charge), a) == Credited(events, a)
  {
    var release := BalanceEvent(b, Release, reserved, Some(id));
    var taken := BalanceEvent(b, Charge, -charge, Some(id));
    var held := if reserved > 0 then events + [release] else events;
    CreditedAppends(events, release, a);
    CreditedAppends(held, taken, a);
    assert events + SettlementEvents(b, id, reserved, charge) == if charge > 0 then held + [taken] else held;
  }

  lemma TrialSettlementFor(db: Db, q: FinalizeRequest, charge: int, a: Account)
    requires Payable(db, q.id, FromTrial, charge) && TrialOk(db, a) && db.reservations[q.id].charged == 0
    requires db.reservations[q.id].account in db.entitlements
    requires db.reservations[q.id].reserved <= db.entitlements[db.reservations[q.id].account].reserved
    ensures TrialOk(WithClosed(SettleTrial(db, db.reservations[q.id], q, charge), q.id, charge), a)
  {
    var r := Closed(db.reservations[q.id], charge);
    RowWritten(db.reservations, q.id, r, TrialHeld(a));
    RowWritten(db.reservations, q.id, r, TrialCharged(a));
  }

  /** The trial hold being released is part of the entitlement's counter. */
  lemma TrialClampNeverBinds(db: Db, id: RequestId)
    requires Inv(db) && id in db.reservations
    requires db.reservations[id].funding == FromTrial && db.reservations[id].status == Open
    ensures db.reservations[id].account in db.entitlements
    ensures db.reservations[id].reserved <= db.entitlements[db.reservations[id].account].reserved
  {
    var row := db.reservations[id];
    TotalCovers(db, id, TrialHeld(row.account));
    assert TrialOk(db, row.account);
  }

  lemma TrialSettlementKeeps(db: Db, q: FinalizeRequest, charge: int)
    requires Inv(db) && Payable(db, q.id, FromTrial, charge)
    ensures Inv(WithClosed(SettleTrial(db, db.reservations[q.id], q, charge), q.id, charge))
  {
    var row := db.reservations[q.id];
    var db' := WithClosed(SettleTrial(db, row, q, charge), q.id, charge);
    var r := Closed(row, charge);
    TrialClampNeverBinds(db, q.id);
    forall a
      ensures TrialOk(db', a)
    {
      assert TrialOk(db, a);
      TrialSettlementFor(db, q, charge, a);
    }
    WalletsUntouched(db, db', q.id, r);
    UserDaysUntouched(db, db', q.id, r);
    DaysUntouched(db, db');
    RowsStay(db, db', q.id, r);
  }

  /** The pool settlement before any unused allowance is given back. */
  function SettleCounters(db: Db, row: Reservation, q: FinalizeRequest, charge: int): Db
    requires row.poolDate.Some? && row.poolDate.value in db.days
    requires (row.poolDate.value, row.account) in db.userDays
  {
    var d, p := row.poolDate.value, (row.poolDate.value, row.account);
    var day, u := db.days[d], db.userDays[p];
    db.(days := db.days[d := day.(
          reserved := day.reserved - row.reserved,
          spent := day.spent + charge)],
        userDays := db.userDays[p := u.(
          reserved := u.reserved - row.reserved,
          spent := u.spent + charge,
          inputUsed := u.inputUsed + BilledTokens(row, q),
          repliesUsed := Min(u.repliesTotal, u.repliesUsed + ReplyConsumed(q)))])
  }

  /** The hold being released is part of both counters, so neither clamp ever binds. */
  lemma PoolClampsNeverBind(db: Db, id: RequestId)
    requires Inv(db) && id in db.reservations
    requires db.reservations[id].funding == FromPool && db.reservations[id].status == Open
    ensures var row := db.reservations[id];
            && row.poolDate.Some? && row.poolDate.value in db.days
            && (row.poolDate.value, row.account) in db.userDays
            && row.reserved <= db.userDays[(row.poolDate.value, row.account)].reserved
                            <= db.days[row.poolDate.value].reserved
  {
    var row := db.reservations[id];
    var d := row.poolDate.value;
    TotalCovers(db, id, PoolHeld(d, row.account));
    assert UserDayOk(db, d, row.account) && DayOk(db, d);
    DayCovers(db, d, row.account);
  }

  lemma SettleCountersFor(db: Db, q: FinalizeRequest, charge: int, d: Date, a: Account)
    requires Payable(db, q.id, FromPool, charge) && db.reservations[q.id].charged == 0
    requires db.reservations[q.id].poolDate == Some(d) && db.reservations[q.id].account == a
    requires d in db.days && (d, a) in db.userDays && UserDayOk(db, d, a)
    ensures UserDayOk(WithClosed(SettleCounters(db, db.reservations[q.id], q, charge), q.id, charge), d, a)
  {
    var r := Closed(db.reservations[q.id], charge);
    RowWritten(db.reservations, q.id, r, PoolHeld(d, a));
    RowWritten(db.reservations, q.id, r, PoolCharged(d, a));
  }

  lemma SettleCountersKeeps(db: Db, q: FinalizeRequest, charge: int)
    requires Inv(db) && Payable(db, q.id, FromPool, charge)
    requires db.reservations[q.id].poolDate.Some? && Anchored(db, db.reservations[q.id])
    ensures Inv(WithClosed(SettleCounters(db, db.reservations[q.id], q, charge), q.id, charge))
  {
    var row := db.reservations[q.id];
    var d, a := row.poolDate.value, row.account;
    var db' := WithClosed(SettleCounters(db, row, q, charge), q.id, charge);
    var r := Closed(row, charge);
    assert UserDayOk(db, d, a) && DayOk(db, d);
    SettleCountersFor(db, q, charge, d, a);
    RowsStay(db, db', q.id, r);
    PoolMoves(db, db', q.id, r, d, a, db'.days[d], db'.userDays[(d, a)]);
    WalletsUntouched(db, db', q.id, r);
    TrialsUntouched(db, db', q.id, r);
  }

  lemma ReleaseUnusedKeeps(db: Db, d: Date, a: Account)
    requires Inv(db) && d in db.days && (d, a) in db.userDays
    ensures Inv(ReleaseUnused(db, d, a))
  {
    var db' := ReleaseUnused(db, d, a);
    HoldersUntouched(db, db');
    AnchorsStay(db, db');
    assert UserDayOk(db, d, a) && DayOk(db, d);
    forall e, b
      ensures UserDayOk(db', e, b)
    {
      assert UserDayOk(db, e, b);
    }
    forall e
      ensures DayOk(db', e)
    {
      assert DayOk(db, e);
      DayMoves(db, db', d, a, e);
    }
  }

  lemma PoolSettlementKeeps(db: Db, q: FinalizeRequest, charge: int)
    requires Inv(db) && Payable(db, q.id, FromPool, charge) && db.reservations[q.id].poolDate.Some?
    ensures Inv(WithClosed(SettlePool(db, db.reservations[q.id], q, charge), q.id, charge))
  {
    var row := db.reservations[q.id];
    var d, p := row.poolDate.value, (row.poolDate.value, row.account);
    PoolClampsNeverBind(db, q.id);
    SettleCountersKeeps(db, q, charge);
    var mid := SettleCounters(db, row, q, charge);
    var u := mid.userDays[p];
    if u.repliesUsed >= u.repliesTotal {
      ReleaseUnusedKeeps(WithClosed(mid, q.id, charge), d, row.account);
      assert ReleaseUnused(WithClosed(mid, q.id, charge), d, row.account)
          == WithClosed(ReleaseUnused(mid, d, row.account), q.id, charge);
      assert SettlePool(db, row, q, charge) == ReleaseUnused(mid, d, row.account);
    } else {
      assert SettlePool(db, row, q, charge) == mid;
    }
  }

  lemma MeteredKeeps(db: Db, id: RequestId, u: UsageEvent)
    requires Inv(db)
    ensures Inv(Metered(db, id, u))
  {
    HoldersUntouched(db, Metered(db, id, u));
    PoolUntouched(db, Metered(db, id, u));
  }

  /** The amount a finalization charges stays within the hold, and is negative only when usage says so. */
  lemma ChargeWithinHold(row: Reservation, q: FinalizeRequest)
    requires row.reserved >= 0
    ensures ChargeFor(row, q) <= row.reserved
    ensures ChargeFor(row, q) < 0 ==> q.outcome == Settle && q.usage.Some? && ProviderCost(row, q) < 0
  {
  }

  lemma FinalizeKeeps(db: Db, q: FinalizeRequest)
    requires Inv(db)
    ensures Inv(FinalizeTx(db, q).0)
  {
    if q.id in db.reservations && db.reservations[q.id].status == Open {
      var row := db.reservations[q.id];
      var charge := ChargeFor(row, q);
      ChargeWithinHold(row, q);
      if FinalizeRefusal(row, q).None? {
        match row.funding {
          case FromWallet => WalletSettlementKeeps(db, q.id, charge);
          case FromTrial => TrialSettlementKeeps(db, q, charge);
          case FromPool => PoolSettlementKeeps(db, q, charge);
        }
        var paid := SettleFunding(db, row, q, charge);
        assert paid.reservations == db.reservations;
        assert Inv(WithClosed(paid, q.id, charge));
        if q.recordUsage {
          MeteredKeeps(WithClosed(paid, q.id, charge), q.id, UsageOf(row, q, charge));
        }
      }
    }
  }

  lemma ReconcileKeeps(db: Db, q: ReconcileRequest)
    requires Inv(db)
    ensures Inv(ReconcileTx(db, q).0)
  {
    if ReconcileTx(db, q).0 != db {
      var row := db.reservations[q.id];
      WalletSettlementKeeps(db, q.id, Min(Max(0, q.finalCost), row.reserved));
    }
  }
}
