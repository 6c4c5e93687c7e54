/**
 * What the billing tables promise together: every stored counter is the sum of
 * the rows it summarizes, and no counter passes its ceiling.
 */
module LedgerInvariant {
  import opened Wrappers
  import opened Money
  import opened Sums
  import opened LedgerState
  import opened LedgerTransactions

  // ----- Sums over reservations

  /** What a sum over the reservations counts. */
  datatype Gauge =
    | WalletHeld(a: Account)
    | WalletCharged(a: Account)
    | TrialHeld(a: Account)
    | TrialCharged(a: Account)
    | PoolHeld(d: Date, a: Account)
    | PoolCharged(d: Date, a: Account)

  predicate Counts(g: Gauge, r: Reservation) {
    match g
    case WalletHeld(a) => r.funding == FromWallet && r.account == a && r.status == Open
    case WalletCharged(a) => r.funding == FromWallet && r.account == a
    case TrialHeld(a) => r.funding == FromTrial && r.account == a && r.status == Open
    case TrialCharged(a) => r.funding == FromTrial && r.account == a
    case PoolHeld(d, a) => r.funding == FromPool && r.account == a && r.poolDate == Some(d) && r.status == Open
    case PoolCharged(d, a) => r.funding == FromPool && r.account == a && r.poolDate == Some(d)
  }

  function Weight(g: Gauge, r: Reservation): int {
    if !Counts(g, r) then 0
    else if Holds(g) then r.reserved
    else r.charged
  }

  function Weights(rows: map<RequestId, Reservation>, g: Gauge): map<RequestId, int> {
    map id | id in rows :: Weight(g, rows[id])
  }

  ghost function Total(rows: map<RequestId, Reservation>, g: Gauge): int {
    Sum(Weights(rows, g))
  }

  // ----- Sums over pool user-days

  datatype Column = Committed | Reserved | Spent

  function Cell(c: Column, u: UserDay): int {
    match c
    case Committed => u.committed
    case Reserved => u.reserved
    case Spent => u.spent
  }

  function Cells(userDays: map<(Date, Account), UserDay>, d: Date, c: Column): map<(Date, Account), int> {
    map p | p in userDays :: if p.0 == d then Cell(c, userDays[p]) else 0
  }

  ghost function DayTotal(userDays: map<(Date, Account), UserDay>, d: Date, c: Column): int {
    Sum(Cells(userDays, d, c))
  }

  // ----- Credits

  function Credited(events: seq<BalanceEvent>, a: Account): int {
    if events == [] then 0
    else
      var e := events[|events| - 1];
      Credited(events[..|events| - 1], a)
      + if e.account == a && (e.kind.Credit? || e.kind.Adjustment?) then e.amount else 0
  }

  // ----- The invariant

  predicate RowOk(r: Reservation) {
    && 0 <= r.reserved && r.charged <= r.reserved
    && (r.status == Open ==> r.charged == 0)
    && (r.status == Settled ==> r.charged > 0)
    && (r.status == Released ==> r.charged <= 0)
    && (r.funding.FromPool? <==> r.poolDate.Some?)
    && (r.funding.FromPool? ==> InRange(r.reserved))
    && (r.deliveredAt.Some? ==> r.attemptedAt.Some?)
  }

  /** The rows a settlement of `r` will update are there to be updated. */
  predicate Anchored(db: Db, r: Reservation) {
    match r.funding
    case FromWallet => r.account in db.balances
    case FromTrial => r.account in db.entitlements
    case FromPool => r.poolDate.Some? && r.poolDate.value in db.days && (r.poolDate.value, r.account) in db.userDays
  }

  ghost predicate RowsOk(db: Db) {
    forall id :: id in db.reservations ==> RowOk(db.reservations[id]) && Anchored(db, db.reservations[id])
  }

  /** A wallet row is not overdrawn, holds its open reservations, and conserves what was credited. */
  ghost predicate WalletOk(db: Db, a: Account) {
    var w := WalletOf(db, a);
    && w.available >= 0
    && w.reserved == Total(db.reservations, WalletHeld(a))
    && w.available + w.reserved + Total(db.reservations, WalletCharged(a)) == Credited(db.events, a)
  }

  function EntitlementOf(db: Db, a: Account): Entitlement {
    if a in db.entitlements then db.entitlements[a] else Entitlement(0, 0, 0, 0, 0, 0, 0, 0)
  }

  ghost predicate TrialOk(db: Db, a: Account) {
    var e := EntitlementOf(db, a);
    && e.reserved == Total(db.reservations, TrialHeld(a))
    && e.spent == Total(db.reservations, TrialCharged(a))
    && e.reserved + e.spent <= e.ceiling
  }

  function UserDayOf(db: Db, d: Date, a: Account): UserDay {
    if (d, a) in db.userDays then db.userDays[(d, a)] else UserDay(0, 0, 0, 0, 0, 0, 0)
  }

  ghost predicate UserDayOk(db: Db, d: Date, a: Account) {
    var u := UserDayOf(db, d, a);
    && u.reserved == Total(db.reservations, PoolHeld(d, a))
    && u.spent == Total(db.reservations, PoolCharged(d, a))
    && u.reserved + u.spent <= u.committed
  }

  function DayOf(db: Db, d: Date): PoolDay {
    if d in db.days then db.days[d] else PoolDay(0, 0, 0, 0)
  }

  ghost predicate DayOk(db: Db, d: Date) {
    var day := DayOf(db, d);
    && day.committed == DayTotal(db.userDays, d, Committed)
    && day.reserved == DayTotal(db.userDays, d, Reserved)
    && day.spent == DayTotal(db.userDays, d, Spent)
    && day.committed <= day.budget
    && (d !in db.days ==> forall a :: (d, a) !in db.userDays)
  }

  ghost predicate WalletsOk(db: Db) {
    forall a :: WalletOk(db, a)
  }

  ghost predicate TrialsOk(db: Db) {
    forall a :: TrialOk(db, a)
  }

  ghost predicate UserDaysOk(db: Db) {
    forall d, a :: UserDayOk(db, d, a)
  }

  ghost predicate DaysOk(db: Db) {
    forall d :: DayOk(db, d)
  }

  ghost predicate Inv(db: Db) {
    RowsOk(db) && WalletsOk(db) && TrialsOk(db) && UserDaysOk(db) && DaysOk(db)
  }

  /** Empty tables, apart from trial entitlements nobody has drawn on yet. */
  ghost predicate Init(db: Db) {
    && db.balances == map[] && db.events == [] && db.reservations == map[] && db.usage == map[]
    && db.days == map[] && db.userDays == map[]
    && forall a :: a in db.entitlements ==>
                     var e := db.entitlements[a]; e.reserved == 0 && e.spent == 0 && e.ceiling >= 0
  }

  lemma InitEstablishes(db: Db)
    requires Init(db)
    ensures Inv(db)
  {
    forall g
      ensures Total(db.reservations, g) == 0
    {
      SumOfZeros(Weights(db.reservations, g));
    }
    forall d, c
      ensures DayTotal(db.userDays, d, c) == 0
    {
      SumOfZeros(Cells(db.userDays, d, c));
    }
  }

  // ----- How single writes move the sums

  /** Writing one row moves a gauge by the difference in that row's weight. */
  lemma RowWritten(rows: map<RequestId, Reservation>, id: RequestId, r: Reservation, g: Gauge)
    ensures Total(rows[id := r], g)
         == Total(rows, g) + Weight(g, r) - (if id in rows then Weight(g, rows[id]) else 0)
  {
    SumWrites(Weights(rows, g), id, Weight(g, r));
    assert Weights(rows, g)[id := Weight(g, r)] == Weights(rows[id := r], g);
  }

  lemma UserDayWritten(us: map<(Date, Account), UserDay>, p: (Date, Account), u: UserDay, d: Date, c: Column)
    ensures DayTotal(us[p := u], d, c)
         == DayTotal(us, d, c) + (if p.0 == d then Cell(c, u) - (if p in us then Cell(c, us[p]) else 0) else 0)
  {
    var v := if p.0 == d then Cell(c, u) else 0;
    SumWrites(Cells(us, d, c), p, v);
    assert Cells(us, d, c)[p := v] == Cells(us[p := u], d, c);
  }

  /** Sums of open holds; what was charged may be negative, what is held is not. */
  predicate Holds(g: Gauge) {
    g.WalletHeld? || g.TrialHeld? || g.PoolHeld?
  }

  /** With well-formed rows what is held is at least what any one row holds. */
  lemma TotalCovers(db: Db, id: RequestId, g: Gauge)
    requires RowsOk(db) && id in db.reservations && Holds(g)
    ensures 0 <= Weight(g, db.reservations[id]) <= Total(db.reservations, g)
  {
    SumAtLeast(Weights(db.reservations, g));
    assert Weights(db.reservations, g)[id] == Weight(g, db.reservations[id]);
  }

  lemma TotalNonNegative(db: Db, g: Gauge)
    requires RowsOk(db) && Holds(g)
    ensures Total(db.reservations, g) >= 0
  {
    SumAtLeast(Weights(db.reservations, g));
  }

  /** A day's counter is at least what any one account holds of it. */
  lemma DayCovers(db: Db, d: Date, a: Account)
    requires RowsOk(db) && UserDaysOk(db) && (d, a) in db.userDays
    ensures db.userDays[(d, a)].reserved <= DayTotal(db.userDays, d, Reserved)
  {
    var m := Cells(db.userDays, d, Reserved);
    forall p | p in m
      ensures m[p] >= 0
    {
      assert UserDayOk(db, p.0, p.1);
      TotalNonNegative(db, PoolHeld(p.0, p.1));
    }
    SumAtLeast(m);
    assert m[(d, a)] == db.userDays[(d, a)].reserved;
  }

  /** Rows that keep within their commitment add up to a day that does. */
  lemma {:induction false} ColumnsAddUp(us: map<(Date, Account), UserDay>, d: Date)
    requires forall p :: p in us ==> us[p].reserved + us[p].spent <= us[p].committed
    ensures DayTotal(us, d, Reserved) + DayTotal(us, d, Spent) <= DayTotal(us, d, Committed)
    decreases |us|
  {
    if us == map[] {
      SumOfZeros(Cells(us, d, Reserved));
      SumOfZeros(Cells(us, d, Spent));
      SumOfZeros(Cells(us, d, Committed));
    } else {
      var p :| p in us;
      ColumnsAddUp(us - {p}, d);
      assert (us - {p})[p := us[p]] == us;
      UserDayWritten(us - {p}, p, us[p], d, Reserved);
      UserDayWritten(us - {p}, p, us[p], d, Spent);
      UserDayWritten(us - {p}, p, us[p], d, Committed);
    }
  }
}
