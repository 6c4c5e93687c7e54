/**
 * The billing tables (src/metering/billing.ts) as maps of rows. Money is a
 * whole number of micro-USD and dates and instants are numbers.
 */
module LedgerState {
  import opened Wrappers
  import opened Pricing

  type Account = string
  type RequestId = string
  type Date = int

  datatype Funding = FromWallet | FromTrial | FromPool

  datatype Status = Open | Settled | Released

  datatype Wallet = Wallet(available: int, reserved: int)

  datatype EventKind = Credit | Adjustment | Hold | Release | Charge

  datatype BalanceEvent = BalanceEvent(account: Account, kind: EventKind, amount: int, request: Option<RequestId>)

  /** The settlement context a reroute may replace. */
  datatype Route = Route(
    provider: Option<string>,
    model: Option<string>,
    pricing: ModelPricing,
    estInputTokens: int,
    estOutputTokens: int)

  datatype Reservation = Reservation(
    account: Account,
    key: Option<string>,
    reserved: int,
    charged: int,
    status: Status,
    funding: Funding,
    poolDate: Option<Date>,
    route: Route,
    attemptedAt: Option<int>,
    deliveredAt: Option<int>,
    createdAt: int)

  datatype UsageStatus = Succeeded | Failed | RateLimited | Insufficient

  datatype UsageEvent = UsageEvent(
    account: Account, key: Option<string>, cost: int, providerCost: int, status: UsageStatus)

  datatype Entitlement = Entitlement(
    repliesTotal: int,
    repliesUsed: int,
    inputBudget: int,
    inputUsed: int,
    ceiling: int,
    spent: int,
    reserved: int,
    expiresAt: int)

  datatype PoolDay = PoolDay(budget: int, committed: int, reserved: int, spent: int)

  datatype UserDay = UserDay(
    committed: int,
    reserved: int,
    spent: int,
    repliesTotal: int,
    repliesUsed: int,
    inputBudget: int,
    inputUsed: int)

  datatype Db = Db(
    balances: map<Account, Wallet>,
    events: seq<BalanceEvent>,
    reservations: map<RequestId, Reservation>,
    usage: map<RequestId, UsageEvent>,
    entitlements: map<Account, Entitlement>,
    days: map<Date, PoolDay>,
    userDays: map<(Date, Account), UserDay>)

  datatype BillingError =
    | InsufficientBalance
    | AlreadyFinalized
    | IdReused
    | TrialNotAvailable
    | TrialExpired
    | TrialExhausted
    | PoolDisabled
    | PoolExhausted
    | MoneyOutOfRange
    | GrantInactive
    | GrantWithoutKey
    | KeyMissing
    | KeyLimitExceeded
    | ReservationNotFound
    | ProviderUnavailable
    | NotWalletFunded
    | NoDurableReservation
    | AccountMismatch
    | AmountMismatch
    | PoolDateMissing
    | UsageNotWritable

  /** The result of settling, aborting or capturing one reservation. */
  datatype Settlement = Settlement(charged: int, providerCost: int, overage: int)

  // ----- Requests, with what the environment answers while they run

  /** What the connected-app tables say about the grant named by the request. */
  datatype Grant = NoGrant | Inactive | Active(cap: Option<int>)

  /** What `trial_pool_admit` finds: the pause switch, eligibility and the frozen allowance. */
  datatype PoolOffer = PoolOffer(
    enabled: bool, eligible: bool, allowance: nat, repliesTotal: int, inputBudget: int, dailyBudget: nat)

  datatype ReserveRequest = ReserveRequest(
    account: Account,
    amount: int,
    id: RequestId,
    key: Option<string>,
    keyLimit: Option<int>,
    grant: Grant,
    keyBelongs: bool,
    funding: Funding,
    route: Route,
    now: int,
    today: Date,
    offer: PoolOffer)

  datatype Outcome = Settle | Abort | Capture

  /** `meterable` answers whether the metering insert satisfies its foreign keys. */
  datatype FinalizeRequest = FinalizeRequest(
    id: RequestId,
    outcome: Outcome,
    usage: Option<TokenUsage>,
    abortStatus: UsageStatus,
    providerRejected: bool,
    recordUsage: bool,
    meterable: bool)

  datatype ReconcileRequest = ReconcileRequest(account: Account, reserved: int, finalCost: int, id: RequestId)

  /** A key id that JavaScript would treat as present. */
  predicate HasKey(key: Option<string>) {
    key.Some? && key.value != ""
  }
}
