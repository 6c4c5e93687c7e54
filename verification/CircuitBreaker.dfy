/** The operational circuit breaker (src/providers/circuitBreaker.ts). */
module CircuitBreaker {
  import opened Wrappers

  datatype CircuitState = Closed | Open | HalfOpen

  /** `id` is the permit's object identity, which the settled set remembers. */
  datatype Permit = Permit(id: nat, probe: bool, generation: int)

  datatype Config = Config(consecutiveThreshold: int, burstThreshold: int, window: int, openFor: int)

  datatype Circuit = Circuit(
    state: CircuitState,
    consecutive: int,
    recent: seq<int>,
    openedAt: int,
    generation: int,
    settled: set<nat>)

  const START := Circuit(Closed, 0, [], 0, 0, {})

  // ----- What each call does to the circuit

  /** Failures still inside the burst window at one instant. */
  function Within(recent: seq<int>, now: int, window: int): seq<int> {
    if recent == [] then []
    else
      var kept, last := Within(recent[..|recent| - 1], now, window), recent[|recent| - 1];
      if now - last <= window then kept + [last] else kept
  }

  /** The same filter when the clock is read again for every element. */
  function Pruned(recent: seq<int>, readings: seq<int>, window: int): seq<int>
    requires |readings| == |recent|
  {
    if recent == [] then []
    else
      var last, at := recent[|recent| - 1], readings[|recent| - 1];
      var kept := Pruned(recent[..|recent| - 1], readings[..|recent| - 1], window);
      if at - last <= window then kept + [last] else kept
  }

  function Tripped(c: Circuit, now: int): Circuit {
    c.(state := Open, openedAt := now, generation := c.generation + 1)
  }

  function AcquireTx(c: Circuit, cfg: Config, now: int, id: nat): (Circuit, Option<Permit>) {
    if c.state == Open && now - c.openedAt >= cfg.openFor then
      (c.(state := HalfOpen), Some(Permit(id, true, c.generation)))
    else if c.state != Closed then (c, None)
    else (c, Some(Permit(id, false, c.generation)))
  }

  /** The outcome counts: first for its permit, and of the current generation. */
  predicate Counts(c: Circuit, p: Permit) {
    p.id !in c.settled && p.generation == c.generation
  }

  function Settle(c: Circuit, p: Permit): Circuit {
    c.(settled := c.settled + {p.id})
  }

  function SuccessTx(c: Circuit, cfg: Config, p: Permit, readings: seq<int>): Circuit
    requires |readings| == |c.recent|
  {
    if !Counts(c, p) then Settle(c, p)
    else
      var recovered := p.probe || c.state == HalfOpen;
      Settle(c, p).(
        state := Closed,
        consecutive := 0,
        recent := if recovered then [] else Pruned(c.recent, readings, cfg.window),
        openedAt := 0)
  }

  function FailureTx(c: Circuit, cfg: Config, p: Permit, now: int): Circuit {
    if !Counts(c, p) then Settle(c, p)
    else if p.probe || c.state == HalfOpen then Tripped(Settle(c, p), now)
    else
      var counted := Settle(c, p).(
        consecutive := c.consecutive + 1,
        recent := Within(c.recent, now, cfg.window) + [now]);
      if counted.consecutive >= cfg.consecutiveThreshold || |counted.recent| >= cfg.burstThreshold then
        Tripped(counted, now)
      else counted
  }

  function NeutralTx(c: Circuit, cfg: Config, p: Permit, now: int): Circuit {
    if Counts(c, p) && p.probe && c.state == HalfOpen then
      Settle(c, p).(state := Open, openedAt := now - cfg.openFor)
    else Settle(c, p)
  }

  // ----- The class

  class OperationalCircuitBreaker {
    const cfg: Config
    var state: CircuitState
    var consecutiveFailures: int
    var recentFailures: seq<int>
    var openedAt: int
    var generation: int
    var settledPermits: set<nat>

    function Value(): Circuit
      reads this
    {
      Circuit(state, consecutiveFailures, recentFailures, openedAt, generation, settledPermits)
    }

    constructor (cfg: Config)
      ensures Value() == START && this.cfg == cfg
    {
      this.cfg := cfg;
      state := Closed;
      consecutiveFailures := 0;
      recentFailures := [];
      openedAt := 0;
      generation := 0;
      settledPermits := {};
    }

    /** `None` is the thrown `provider_unavailable`. */
    method Acquire(now: int, id: nat) returns (permit: Option<Permit>)
      modifies this
      ensures (Value(), permit) == AcquireTx(old(Value()), cfg, now, id)
    {
      if state == Open && now - openedAt >= cfg.openFor {
        state := HalfOpen;
        return Some(Permit(id, true, generation));
      }
      if state != Closed {
        return None;
      }
      return Some(Permit(id, false, generation));
    }

    method RecordSuccess(p: Permit, readings: seq<int>)
      requires |readings| == |recentFailures|
      modifies this
      ensures Value() == SuccessTx(old(Value()), cfg, p, readings)
    {
      var first := SettlePermit(p);
      if !first || p.generation != generation {
        return;
      }
      var recovered := p.probe || state == HalfOpen;
      state := Closed;
      consecutiveFailures := 0;
      var kept := [];
      if !recovered {
        var i := 0;
        while i < |recentFailures|
          invariant 0 <= i <= |recentFailures|
          invariant kept == Pruned(recentFailures[..i], readings[..i], cfg.window)
        {
          assert recentFailures[..i + 1][..i] == recentFailures[..i] && readings[..i + 1][..i] == readings[..i];
          if readings[i] - recentFailures[i] <= cfg.window {
            kept := kept + [recentFailures[i]];
          }
          i := i + 1;
        }
        assert recentFailures[..i] == recentFailures && readings[..i] == readings;
      }
      recentFailures := kept;
      openedAt := 0;
    }

    method RecordOperationalFailure(p: Permit, now: int)
      modifies this
      ensures Value() == FailureTx(old(Value()), cfg, p, now)
    {
      var first := SettlePermit(p);
      if !first || p.generation != generation {
        return;
      }
      if p.probe || state == HalfOpen {
        Trip(now);
        return;
      }
      consecutiveFailures := consecutiveFailures + 1;
      var kept, i := [], 0;
      while i < |recentFailures|
        invariant 0 <= i <= |recentFailures|
        invariant kept == Within(recentFailures[..i], now, cfg.window)
      {
        assert recentFailures[..i + 1][..i] == recentFailures[..i];
        if now - recentFailures[i] <= cfg.window {
          kept := kept + [recentFailures[i]];
        }
        i := i + 1;
      }
      assert recentFailures[..i] == recentFailures;
      recentFailures := kept + [now];
      if consecutiveFailures >= cfg.consecutiveThreshold || |recentFailures| >= cfg.burstThreshold {
        Trip(now);
      }
    }

    method RecordNeutral(p: Permit, now: int)
      modifies this
      ensures Value() == NeutralTx(old(Value()), cfg, p, now)
    {
      var first := SettlePermit(p);
      if !first || p.generation != generation {
        return;
      }
      if p.probe && state == HalfOpen {
        state := Open;
        openedAt := now - cfg.openFor;
      }
    }

    method Trip(now: int)
      modifies this
      ensures Value() == Tripped(old(Value()), now)
    {
      state := Open;
      openedAt := now;
      generation := generation + 1;
    }

    method SettlePermit(p: Permit) returns (first: bool)
      modifies this
      ensures Value() == Settle(old(Value()), p)
      ensures first == (p.id !in old(settledPermits))
    {
      first := p.id !in settledPermits;
      settledPermits := settledPermits + {p.id};
    }
  }

  // ----- Runs: permits handed out, outcomes reported late, twice and in any order

  datatype Outcome = Outcome(failed: bool, at: int)

  /**
   * The circuit, every permit handed out, the last clock reading, and the
   * outcomes that counted in the closed state since the last recovery.
   */
  datatype World = World(circuit: Circuit, issued: seq<Permit>, clock: int, history: seq<Outcome>)

  datatype Event =
    | Acquired(now: int)
    | Succeeded(permit: nat, readings: seq<int>, now: int)
    | Failed(permit: nat, now: int)
    | Cancelled(permit: nat, now: int)

  const BEGIN := World(START, [], 0, [])

  /** Callers report on permits they hold, and the clock does not go back. */
  predicate Possible(w: World, e: Event) {
    && w.clock <= e.now
    && (!e.Acquired? ==> e.permit < |w.issued|)
    && (e.Succeeded? ==>
          && |e.readings| == |w.circuit.recent|
          && forall i :: 0 <= i < |e.readings| ==> e.readings[i] <= e.now)
  }

  function Next(w: World, cfg: Config, e: Event): World
    requires Possible(w, e)
  {
    var c := w.circuit;
    match e
    case Acquired(now) =>
      var (c', permit) := AcquireTx(c, cfg, now, |w.issued|);
      World(c', if permit.Some? then w.issued + [permit.value] else w.issued, now, w.history)
    case Succeeded(i, readings, now) =>
      var p := w.issued[i];
      World(SuccessTx(c, cfg, p, readings), w.issued, now,
            if !Counts(c, p) then w.history
            else if p.probe || c.state == HalfOpen then []
            else w.history + [Outcome(false, now)])
    case Failed(i, now) =>
      var p := w.issued[i];
      World(FailureTx(c, cfg, p, now), w.issued, now,
            if Counts(c, p) && !p.probe && c.state != HalfOpen then w.history + [Outcome(true, now)] else w.history)
    case Cancelled(i, now) =>
      World(NeutralTx(c, cfg, w.issued[i], now), w.issued, now, w.history)
  }

  predicate PossibleRun(w: World, cfg: Config, events: seq<Event>)
    decreases |events|
  {
    events == [] || (Possible(w, events[0]) && PossibleRun(Next(w, cfg, events[0]), cfg, events[1..]))
  }

  function Run(w: World, cfg: Config, events: seq<Event>): World
    requires PossibleRun(w, cfg, events)
    decreases |events|
  {
    if events == [] then w else Run(Next(w, cfg, events[0]), cfg, events[1..])
  }

  // ----- Safety

  /** A permit that has not been settled and belongs to the current generation. */
  predicate Live(w: World, i: nat) {
    i < |w.issued| && i !in w.circuit.settled && w.issued[i].generation == w.circuit.generation
  }

  predicate Numbered(w: World) {
    && (forall i :: 0 <= i < |w.issued| ==> w.issued[i].id == i && w.issued[i].generation <= w.circuit.generation)
    && (forall i :: i in w.circuit.settled ==> i < |w.issued|)
  }

  /**
   * Half-open: exactly one live permit, a probe. Open: none. Closed: none of the
   * live ones is a probe.
   */
  ghost predicate Safe(w: World) {
    && Numbered(w)
    && (w.circuit.state == Open ==> forall i: nat :: !Live(w, i))
    && (w.circuit.state == Closed ==> forall i: nat :: Live(w, i) ==> !w.issued[i].probe)
    && (w.circuit.state == HalfOpen ==>
          exists i: nat :: Live(w, i) && w.issued[i].probe && forall j: nat :: Live(w, j) ==> j == i)
  }

  lemma StepIsSafe(w: World, cfg: Config, e: Event)
    requires Safe(w) && Possible(w, e)
    ensures Safe(Next(w, cfg, e))
  {
    var w' := Next(w, cfg, e);
    match e
    case Acquired(now) =>
      forall j: nat | Live(w', j)
        ensures j == |w.issued| || Live(w, j)
      {
      }
      if w.circuit.state == Open && w'.circuit.state == HalfOpen {
        assert Live(w', |w.issued|) && w'.issued[|w.issued|].probe;
      } else if w.circuit.state == HalfOpen {
        assert w'.circuit == w.circuit && w'.issued == w.issued;
        assert forall j: nat :: Live(w', j) <==> Live(w, j);
      }
    case Succeeded(i, _, _) => OutcomeIsSafe(w, w', i);
    case Failed(i, _) => OutcomeIsSafe(w, w', i);
    case Cancelled(i, _) => OutcomeIsSafe(w, w', i);
  }

  /** How an outcome may move the state, given whether it counts. */
  lemma OutcomeIsSafe(w: World, w': World, i: nat)
    requires Safe(w) && i < |w.issued| && w'.issued == w.issued
    requires w'.circuit.settled == w.circuit.settled + {i}
    requires !Live(w, i) ==> w'.circuit == w.circuit.(settled := w'.circuit.settled)
    requires Live(w, i) ==>
               || (w'.circuit.generation == w.circuit.generation + 1 && w'.circuit.state == Open)
               || (w'.circuit.generation == w.circuit.generation && w'.circuit.state == Closed)
               || (w'.circuit.generation == w.circuit.generation
                   && w.circuit.state == HalfOpen && w'.circuit.state == Open)
    ensures Safe(w')
  {
    assert forall j: nat :: Live(w', j) ==> Live(w, j) && j != i;
    if !Live(w, i) {
      assert forall j: nat :: Live(w', j) <==> Live(w, j);
    }
  }

  lemma {:induction false} RunIsSafe(w: World, cfg: Config, events: seq<Event>)
    requires Safe(w) && PossibleRun(w, cfg, events)
    ensures Safe(Run(w, cfg, events))
    decreases |events|
  {
    if events != [] {
      StepIsSafe(w, cfg, events[0]);
      RunIsSafe(Next(w, cfg, events[0]), cfg, events[1..]);
    }
  }

  /**
   * In every reachable state: half-open holds exactly while a live probe exists,
   * and then it is the only live permit; open means there is no live permit.
   */
  lemma HalfOpenIsOneProbe(cfg: Config, events: seq<Event>)
    requires PossibleRun(BEGIN, cfg, events)
    ensures var w := Run(BEGIN, cfg, events);
            && (w.circuit.state == HalfOpen <==> exists i: nat :: Live(w, i) && w.issued[i].probe)
            && (forall i: nat, j: nat :: Live(w, i) && w.issued[i].probe && Live(w, j) ==> i == j)
            && (w.circuit.state == Open ==> forall i: nat :: !Live(w, i))
  {
    RunIsSafe(BEGIN, cfg, events);
  }

  /** An outcome of an older generation, or a second outcome for one permit, changes nothing else. */
  lemma StaleOutcomesAreIgnored(w: World, cfg: Config, e: Event)
    requires Possible(w, e) && Numbered(w) && !e.Acquired? && !Live(w, e.permit)
    ensures Next(w, cfg, e).circuit == w.circuit.(settled := w.circuit.settled + {e.permit})
    ensures Next(w, cfg, e).history == w.history
  {
  }

  /** A cancelled probe leaves the circuit open, and the next acquire gets a probe at once. */
  lemma CancelledProbeIsRetried(w: World, cfg: Config, e: Event, now: int, id: nat)
    requires Possible(w, e) && Safe(w) && e.Cancelled? && w.circuit.state == HalfOpen && Live(w, e.permit)
    requires e.now <= now
    ensures var c := Next(w, cfg, e).circuit;
            && c.state == Open && c.generation == w.circuit.generation
            && AcquireTx(c, cfg, now, id).1 == Some(Permit(id, true, c.generation))
  {
  }

  // ----- The pruned counters stand for the whole history

  /** The length of the run of failures at the end of the history. */
  function TrailingFailures(h: seq<Outcome>): nat {
    if h == [] || !h[|h| - 1].failed then 0 else TrailingFailures(h[..|h| - 1]) + 1
  }

  function FailureTimes(h: seq<Outcome>): seq<int> {
    if h == [] then []
    else
      var times, last := FailureTimes(h[..|h| - 1]), h[|h| - 1];
      if last.failed then times + [last.at] else times
  }

  /** Whatever was pruned is outside the window from now on. */
  ghost predicate Refines(w: World, cfg: Config) {
    w.circuit.state == Closed ==>
      && w.circuit.consecutive == TrailingFailures(w.history)
      && forall now :: w.clock <= now ==>
           Within(w.circuit.recent, now, cfg.window) == Within(FailureTimes(w.history), now, cfg.window)
  }

  lemma {:induction false} PruningLosesNothing(recent: seq<int>, readings: seq<int>, now: int, window: int)
    requires |readings| == |recent| && forall i :: 0 <= i < |readings| ==> readings[i] <= now
    ensures Within(Pruned(recent, readings, window), now, window) == Within(recent, now, window)
  {
    if recent != [] {
      var n := |recent| - 1;
      PruningLosesNothing(recent[..n], readings[..n], now, window);
      WithinAppends(Pruned(recent[..n], readings[..n], window), recent[n], now, window);
    }
  }

  lemma WithinAppends(recent: seq<int>, at: int, now: int, window: int)
    ensures var kept := Within(recent, now, window);
            Within(recent + [at], now, window) == if now - at <= window then kept + [at] else kept
  {
    assert (recent + [at])[..|recent|] == recent;
  }

  lemma {:induction false} LaterWindowIsSmaller(recent: seq<int>, now: int, later: int, window: int)
    requires now <= later
    ensures Within(Within(recent, now, window), later, window) == Within(recent, later, window)
  {
    if recent != [] {
      var n := |recent| - 1;
      LaterWindowIsSmaller(recent[..n], now, later, window);
      WithinAppends(Within(recent[..n], now, window), recent[n], later, window);
    }
  }

  lemma FailureTimesAppends(h: seq<Outcome>, o: Outcome)
    ensures FailureTimes(h + [o]) == if o.failed then FailureTimes(h) + [o.at] else FailureTimes(h)
    ensures TrailingFailures(h + [o]) == if o.failed then TrailingFailures(h) + 1 else 0
  {
    assert (h + [o])[..|h|] == h;
  }

  lemma StepRefines(w: World, cfg: Config, e: Event)
    requires Safe(w) && Refines(w, cfg) && Possible(w, e)
    ensures Refines(Next(w, cfg, e), cfg)
  {
    if !e.Acquired? && Live(w, e.permit) && w.circuit.state == Closed {
      if e.Succeeded? {
        SuccessRefines(w, cfg, e);
      } else if e.Failed? {
        FailureRefines(w, cfg, e);
      }
    }
  }

  lemma SuccessRefines(w: World, cfg: Config, e: Event)
    requires Refines(w, cfg) && Possible(w, e) && e.Succeeded?
    requires Numbered(w) && Live(w, e.permit) && w.circuit.state == Closed && !w.issued[e.permit].probe
    ensures Refines(Next(w, cfg, e), cfg)
  {
    var w' := Next(w, cfg, e);
    FailureTimesAppends(w.history, Outcome(false, e.now));
    forall now | e.now <= now
      ensures Within(w'.circuit.recent, now, cfg.window) == Within(FailureTimes(w'.history), now, cfg.window)
    {
      PruningLosesNothing(w.circuit.recent, e.readings, now, cfg.window);
    }
  }

  lemma FailureRefines(w: World, cfg: Config, e: Event)
    requires Refines(w, cfg) && Possible(w, e) && e.Failed?
    requires Numbered(w) && Live(w, e.permit) && w.circuit.state == Closed && !w.issued[e.permit].probe
    ensures Refines(Next(w, cfg, e), cfg)
  {
    var w' := Next(w, cfg, e);
    CountedFailure(w, cfg, e);
    if w'.circuit.state == Closed {
      FailureTimesAppends(w.history, Outcome(true, e.now));
      OneMoreFailureLater(w.circuit.recent, FailureTimes(w.history), w.clock, e.now, cfg.window);
    }
  }

  lemma CountedFailure(w: World, cfg: Config, e: Event)
    requires Possible(w, e) && e.Failed?
    requires Numbered(w) && Live(w, e.permit) && w.circuit.state == Closed && !w.issued[e.permit].probe
    ensures var w' := Next(w, cfg, e);
      && w'.clock == e.now && w'.history == w.history + [Outcome(true, e.now)]
      && (w'.circuit.state == Closed ==>
            && w'.circuit.consecutive == w.circuit.consecutive + 1
            && w'.circuit.recent == Within(w.circuit.recent, e.now, cfg.window) + [e.now])
  {
  }

  lemma OneMoreFailureLater(recent: seq<int>, times: seq<int>, clock: int, at: int, window: int)
    requires clock <= at && forall now :: clock <= now ==> Within(recent, now, window) == Within(times, now, window)
    ensures forall now :: at <= now ==>
              Within(Within(recent, at, window) + [at], now, window) == Within(times + [at], now, window)
  {
    forall now | at <= now
      ensures Within(Within(recent, at, window) + [at], now, window) == Within(times + [at], now, window)
    {
      OneMoreFailure(recent, times, at, now, window);
    }
  }

  /** Pruning at `at` and counting it looks the same, later, as counting it in the whole list. */
  lemma OneMoreFailure(recent: seq<int>, times: seq<int>, at: int, now: int, window: int)
    requires at <= now && Within(recent, now, window) == Within(times, now, window)
    ensures Within(Within(recent, at, window) + [at], now, window) == Within(times + [at], now, window)
  {
    LaterWindowIsSmaller(recent, at, now, window);
    WithinAppends(Within(recent, at, window), at, now, window);
    WithinAppends(times, at, now, window);
  }

  lemma {:induction false} RunRefines(w: World, cfg: Config, events: seq<Event>)
    requires Safe(w) && Refines(w, cfg) && PossibleRun(w, cfg, events)
    ensures Safe(Run(w, cfg, events)) && Refines(Run(w, cfg, events), cfg)
    decreases |events|
  {
    if events != [] {
      StepIsSafe(w, cfg, events[0]);
      StepRefines(w, cfg, events[0]);
      RunRefines(Next(w, cfg, events[0]), cfg, events[1..]);
    }
  }

  /**
   * In a closed circuit a failure that counts trips it exactly when, over every
   * outcome since the last recovery, the failures in a row reach the consecutive
   * threshold or this one and those inside the window reach the burst threshold.
   */
  lemma TripsExactlyOnTheFullHistory(cfg: Config, events: seq<Event>, permit: nat, now: int)
    requires PossibleRun(BEGIN, cfg, events)
    requires var w := Run(BEGIN, cfg, events);
             w.circuit.state == Closed && Live(w, permit) && w.clock <= now
    ensures var w := Run(BEGIN, cfg, events);
            var h := w.history + [Outcome(true, now)];
            Next(w, cfg, Failed(permit, now)).circuit.state == Open <==>
              || TrailingFailures(h) >= cfg.consecutiveThreshold
              || |Within(FailureTimes(w.history), now, cfg.window)| + 1 >= cfg.burstThreshold
  {
    RunRefines(BEGIN, cfg, events);
    var w := Run(BEGIN, cfg, events);
    FailureTimesAppends(w.history, Outcome(true, now));
  }

  // ----- The open interval

  /** Acquiring: everyone in a closed circuit, one probe once the open interval is over, nobody else. */
  lemma AcquireMeans(c: Circuit, cfg: Config, now: int, id: nat)
    ensures var (c', permit) := AcquireTx(c, cfg, now, id);
      && (permit.Some? <==> c.state == Closed || (c.state == Open && c.openedAt + cfg.openFor <= now))
      && (permit.Some? ==> permit.value == Permit(id, c.state == Open, c.generation))
      && c' == c.(state := if permit.Some? && c.state == Open then HalfOpen else c.state)
  {
  }

  /** While the circuit is open no outcome counts: it only marks its permit settled. */
  lemma OutcomesLeaveOpenAlone(w: World, cfg: Config, e: Event)
    requires Safe(w) && w.circuit.state == Open && Possible(w, e) && !e.Acquired?
    ensures Next(w, cfg, e).circuit == w.circuit.(settled := w.circuit.settled + {w.issued[e.permit].id})
  {
    assert !Live(w, e.permit);
  }

  predicate AllBefore(events: seq<Event>, instant: int) {
    forall e :: e in events && e.Acquired? ==> e.now < instant
  }

  /** No acquire before the interval is over, and no outcome at any time, moves an open circuit. */
  lemma {:induction false} OpenStays(w: World, cfg: Config, events: seq<Event>)
    requires Safe(w) && w.circuit.state == Open && PossibleRun(w, cfg, events)
    requires AllBefore(events, w.circuit.openedAt + cfg.openFor)
    ensures var c := Run(w, cfg, events).circuit; c == w.circuit.(settled := c.settled)
    decreases |events|
  {
    if events != [] {
      var e := events[0];
      var next := Next(w, cfg, e);
      StepIsSafe(w, cfg, e);
      if !e.Acquired? {
        OutcomesLeaveOpenAlone(w, cfg, e);
      }
      OpenStays(next, cfg, events[1..]);
    }
  }

  /**
   * In any run, a counted failure that opens the circuit at an instant shuts it for the whole
   * interval: whatever late, duplicate or stale outcomes and refused acquires come after it, an
   * acquire gets no permit before the interval is over, and the first one from then on gets a probe.
   */
  lemma OpenIntervalHolds(
    cfg: Config, before: seq<Event>, failed: nat, at: int, events: seq<Event>, now: int, id: nat)
    requires PossibleRun(BEGIN, cfg, before)
    requires var w := Run(BEGIN, cfg, before);
      Possible(w, Failed(failed, at)) && Live(w, failed) && Next(w, cfg, Failed(failed, at)).circuit.state == Open
    requires var tripped := Next(Run(BEGIN, cfg, before), cfg, Failed(failed, at));
      PossibleRun(tripped, cfg, events) && AllBefore(events, at + cfg.openFor)
    ensures var after := Run(Next(Run(BEGIN, cfg, before), cfg, Failed(failed, at)), cfg, events);
      AcquireTx(after.circuit, cfg, now, id).1
      == if now < at + cfg.openFor then None else Some(Permit(id, true, after.circuit.generation))
  {
    RunIsSafe(BEGIN, cfg, before);
    OpenIntervalAfter(Run(BEGIN, cfg, before), cfg, failed, at, events, now, id);
  }

  lemma OpenIntervalAfter(w: World, cfg: Config, failed: nat, at: int, events: seq<Event>, now: int, id: nat)
    requires Safe(w) && Possible(w, Failed(failed, at)) && Live(w, failed)
    requires Next(w, cfg, Failed(failed, at)).circuit.state == Open
    requires PossibleRun(Next(w, cfg, Failed(failed, at)), cfg, events) && AllBefore(events, at + cfg.openFor)
    ensures var after := Run(Next(w, cfg, Failed(failed, at)), cfg, events);
      AcquireTx(after.circuit, cfg, now, id).1
      == if now < at + cfg.openFor then None else Some(Permit(id, true, after.circuit.generation))
  {
    var tripped := Next(w, cfg, Failed(failed, at));
    StepIsSafe(w, cfg, Failed(failed, at));
    OpensAtTheFailure(w, cfg, failed, at);
    OpenStays(tripped, cfg, events);
  }

  lemma OpensAtTheFailure(w: World, cfg: Config, failed: nat, at: int)
    requires Safe(w) && Possible(w, Failed(failed, at)) && Live(w, failed)
    requires Next(w, cfg, Failed(failed, at)).circuit.state == Open
    ensures var c := Next(w, cfg, Failed(failed, at)).circuit;
      c.openedAt == at && c.generation == w.circuit.generation + 1
  {
  }

  /** The probe decides: its success closes the circuit with nothing counted, its failure opens it anew. */
  lemma ProbeDecides(w: World, cfg: Config, probe: nat, readings: seq<int>, now: int)
    requires Safe(w) && w.circuit.state == HalfOpen && Live(w, probe)
    requires Possible(w, Failed(probe, now)) && Possible(w, Succeeded(probe, readings, now))
    ensures var c := Next(w, cfg, Succeeded(probe, readings, now)).circuit;
      c.state == Closed && c.consecutive == 0 && c.recent == [] && c.generation == w.circuit.generation
    ensures var c := Next(w, cfg, Failed(probe, now)).circuit;
      c.state == Open && c.openedAt == now && c.generation == w.circuit.generation + 1
  {
  }
}
