/** The first-come, first-served concurrency gate (`createGate` in src/roles.ts). */
module ConcurrencyGate {

  type Task = nat

  /**
   * `active` and `waiting` are the gate's own variables. `handed` are waiters
   * whose promise was resolved and whose continuation has not run yet.
   */
  datatype Gate = Gate(
    limit: int,
    active: int,
    waiting: seq<Task>,
    handed: seq<Task>,
    running: set<Task>)

  function ArriveTx(g: Gate, t: Task): Gate {
    if g.active >= g.limit then g.(waiting := g.waiting + [t])
    else g.(active := g.active + 1, running := g.running + {t})
  }

  /** The continuation of the longest handed-off waiter runs. */
  function ResumeTx(g: Gate): Gate
    requires g.handed != []
  {
    g.(handed := g.handed[1..], running := g.running + {g.handed[0]})
  }

  /** The `finally` block, reached whether the task returned or threw. */
  function FinishTx(g: Gate, t: Task): Gate {
    var left := g.(running := g.running - {t});
    if g.waiting != [] then left.(waiting := g.waiting[1..], handed := g.handed + [g.waiting[0]])
    else left.(active := g.active - 1)
  }

  class GateCell {
    const limit: int
    var active: int
    var waiting: seq<Task>
    ghost var handed: seq<Task>
    ghost var running: set<Task>

    ghost function Value(): Gate
      reads this
    {
      Gate(limit, active, waiting, handed, running)
    }

    constructor (limit: int)
      ensures Value() == Gate(limit, 0, [], [], {})
    {
      this.limit := limit;
      active, waiting := 0, [];
      handed, running := [], {};
    }

    method Arrive(t: Task) returns (started: bool)
      modifies this
      ensures Value() == ArriveTx(old(Value()), t)
      ensures started == (old(active) < limit)
    {
      if active >= limit {
        waiting := waiting + [t];
        return false;
      }
      active := active + 1;
      running := running + {t};
      return true;
    }

    method Finish(t: Task)
      modifies this
      ensures Value() == FinishTx(old(Value()), t)
    {
      running := running - {t};
      if waiting != [] {
        var next := waiting[0];
        waiting := waiting[1..];
        handed := handed + [next];
      } else {
        active := active - 1;
      }
    }

    ghost method Resume()
      requires handed != []
      modifies this
      ensures Value() == ResumeTx(old(Value()))
    {
      running := running + {handed[0]};
      handed := handed[1..];
    }
  }

  // ----- Runs

  datatype Event = Arrive(task: Task) | Resume | Finish(task: Task, threw: bool)

  /** The gate, everyone who ever arrived, who had to queue, which of those started, and who is done. */
  datatype World = World(gate: Gate, arrived: set<Task>, queued: seq<Task>, dequeued: seq<Task>, done: set<Task>)

  function Begin(limit: int): World {
    World(Gate(limit, 0, [], [], {}), {}, [], [], {})
  }

  /** Calls are distinct, continuations run only once resolved, and only running tasks finish. */
  predicate Possible(w: World, e: Event) {
    match e
    case Arrive(t) => t !in w.arrived
    case Resume => w.gate.handed != []
    case Finish(t, _) => t in w.gate.running
  }

  function Next(w: World, e: Event): World
    requires Possible(w, e)
  {
    match e
    case Arrive(t) =>
      World(ArriveTx(w.gate, t), w.arrived + {t},
            if w.gate.active >= w.gate.limit then w.queued + [t] else w.queued, w.dequeued, w.done)
    case Resume => w.(gate := ResumeTx(w.gate), dequeued := w.dequeued + [w.gate.handed[0]])
    case Finish(t, _) => w.(gate := FinishTx(w.gate, t), done := w.done + {t})
  }

  predicate PossibleRun(w: World, events: seq<Event>)
    decreases |events|
  {
    events == [] || (Possible(w, events[0]) && PossibleRun(Next(w, events[0]), events[1..]))
  }

  function Run(w: World, events: seq<Event>): World
    requires PossibleRun(w, events)
    decreases |events|
  {
    if events == [] then w else Run(Next(w, events[0]), events[1..])
  }

  predicate Distinct(s: seq<Task>) {
    forall i, j :: 0 <= i < j < |s| ==> s[i] != s[j]
  }

  /** Slots: one per running or handed-off task, never over the limit, and none idle while anyone waits. */
  predicate SlotsOk(g: Gate) {
    && g.active == |g.running| + |g.handed|
    && g.active <= (if g.limit > 0 then g.limit else 0)
    && (g.waiting != [] ==> g.active >= g.limit)
  }

  /** The queue's order is the order of arrival, and nobody queues twice. */
  predicate QueueOk(w: World) {
    && w.queued == w.dequeued + w.gate.handed + w.gate.waiting
    && Distinct(w.queued)
    && forall t :: t in w.queued ==> t in w.arrived
  }

  function Bit(b: bool): nat {
    if b then 1 else 0
  }

  /** In how many places a task is found: waiting, handed a slot, running, done. */
  function Places(w: World, t: Task): nat {
    Bit(t in w.gate.waiting) + Bit(t in w.gate.handed) + Bit(t in w.gate.running) + Bit(t in w.done)
  }

  /** Everyone who arrived is in exactly one place, and nobody else is anywhere. */
  ghost predicate PlacesOk(w: World) {
    forall t :: Places(w, t) == Bit(t in w.arrived)
  }

  lemma SlotsKept(w: World, e: Event)
    requires SlotsOk(w.gate) && Possible(w, e) && PlacesOk(w)
    ensures SlotsOk(Next(w, e).gate)
  {
    match e
    case Arrive(t) => assert Places(w, t) == 0;
    case Resume =>
      assert w.gate.handed[0] in w.gate.handed && Places(w, w.gate.handed[0]) <= 1;
    case Finish(_, _) =>
  }

  lemma DistinctAppend(s: seq<Task>, t: Task)
    requires Distinct(s) && t !in s
    ensures Distinct(s + [t])
  {
  }

  lemma QueueKept(w: World, e: Event)
    requires QueueOk(w) && Possible(w, e)
    ensures QueueOk(Next(w, e))
  {
    var g := w.gate;
    match e
    case Arrive(t) =>
      if g.active >= g.limit {
        assert w.dequeued + g.handed + (g.waiting + [t]) == w.dequeued + g.handed + g.waiting + [t];
        DistinctAppend(w.queued, t);
      }
    case Resume =>
      assert w.dequeued + g.handed == w.dequeued + [g.handed[0]] + g.handed[1..];
    case Finish(_, _) =>
      if g.waiting != [] {
        assert w.dequeued + g.handed + g.waiting == w.dequeued + (g.handed + [g.waiting[0]]) + g.waiting[1..];
      }
  }

  /** The head of a part of the queue is nowhere else in it. */
  lemma HeadIsOnce(before: seq<Task>, s: seq<Task>, after: seq<Task>)
    requires Distinct(before + s + after) && s != []
    ensures s[0] !in s[1..] && s[0] !in after
    ensures forall t :: t in s <==> t == s[0] || t in s[1..]
  {
    var q := before + s + after;
    assert forall i :: 0 <= i < |s| ==> q[|before| + i] == s[i];
    assert forall i :: 0 <= i < |after| ==> q[|before| + |s| + i] == after[i];
    assert s == [s[0]] + s[1..];
  }

  lemma PlacesKept(w: World, e: Event, t: Task)
    requires PlacesOk(w) && QueueOk(w) && Possible(w, e)
    ensures Places(Next(w, e), t) == Bit(t in Next(w, e).arrived)
  {
    var g := w.gate;
    assert Places(w, t) == Bit(t in w.arrived);
    match e
    case Arrive(u) => assert Places(w, u) == 0;
    case Resume => HeadIsOnce(w.dequeued, g.handed, g.waiting);
    case Finish(_, _) =>
      if g.waiting != [] {
        assert w.queued + [] == w.queued;
        HeadIsOnce(w.dequeued + g.handed, g.waiting, []);
      }
  }

  ghost predicate Ok(w: World) {
    SlotsOk(w.gate) && QueueOk(w) && PlacesOk(w)
  }

  lemma {:induction false} RunKeeps(w: World, events: seq<Event>)
    requires Ok(w) && PossibleRun(w, events)
    ensures Ok(Run(w, events)) && Run(w, events).gate.limit == w.gate.limit
    decreases |events|
  {
    if events != [] {
      SlotsKept(w, events[0]);
      QueueKept(w, events[0]);
      forall t
        ensures Places(Next(w, events[0]), t) == Bit(t in Next(w, events[0]).arrived)
      {
        PlacesKept(w, events[0], t);
      }
      RunKeeps(Next(w, events[0]), events[1..]);
    }
  }

  /** In every reachable state slots are counted exactly, and the gate is full whenever someone waits. */
  lemma NoSlotLostOrDuplicated(limit: int, events: seq<Event>)
    requires PossibleRun(Begin(limit), events)
    ensures var g := Run(Begin(limit), events).gate;
            && g.active == |g.running| + |g.handed|
            && 0 <= g.active <= (if limit > 0 then limit else 0)
            && (g.waiting != [] ==> g.active >= limit)
  {
    RunKeeps(Begin(limit), events);
  }

  /** Whatever tasks do, throw included, everyone who arrived waits, holds a slot, runs or is done, once. */
  lemma EveryTaskIsInOnePlace(limit: int, events: seq<Event>, t: Task)
    requires PossibleRun(Begin(limit), events)
    ensures var w := Run(Begin(limit), events); Places(w, t) == Bit(t in w.arrived)
  {
    RunKeeps(Begin(limit), events);
  }

  /** Once nothing runs and nothing was handed a slot, nobody is left waiting. */
  lemma IdleGateHasNoWaiters(limit: int, events: seq<Event>)
    requires limit > 0 && PossibleRun(Begin(limit), events)
    ensures var g := Run(Begin(limit), events).gate;
            g.running == {} && g.handed == [] ==> g.waiting == [] && g.active == 0
  {
    RunKeeps(Begin(limit), events);
  }

  /** The waiters that have started are the first that queued, in the order they queued. */
  lemma WaitersStartInArrivalOrder(limit: int, events: seq<Event>)
    requires PossibleRun(Begin(limit), events)
    ensures var w := Run(Begin(limit), events);
            w.dequeued <= w.queued && w.queued == w.dequeued + w.gate.handed + w.gate.waiting && Distinct(w.queued)
  {
    RunKeeps(Begin(limit), events);
    var w := Run(Begin(limit), events);
    assert w.dequeued + w.gate.handed + w.gate.waiting == w.dequeued + (w.gate.handed + w.gate.waiting);
  }
}
