/** Durable one-time use of capabilities (src/credentials/consumedCapabilities.ts). */
module ConsumedCapabilities {
  import opened Wrappers
  import opened Json

  const GRACE_MS: int := 24 * 60 * 60 * 1000
  const MAX_ENTRIES: nat := 10_000
  const MAX_SAFE_INTEGER: int := 9_007_199_254_740_991

  datatype Entry = Entry(id: string, consumedAt: int, expiresAt: int)

  /** What is found at the log's path. `None` contents do not decode. */
  datatype File = Missing | NotAFile | Contents(json: Option<Json>)

  predicate IsIdStart(c: char) {
    'a' <= c <= 'z' || '0' <= c <= '9'
  }

  /** CAPABILITY_ID_PATTERN. */
  predicate IsCapabilityId(s: string) {
    && 3 <= |s| <= 64
    && IsIdStart(s[0])
    && forall i :: 1 <= i < |s| ==> IsIdStart(s[i]) || s[i] == '_' || s[i] == '-'
  }

  predicate IsCount(n: int) {
    0 <= n <= MAX_SAFE_INTEGER
  }

  predicate EntryOk(e: Entry) {
    IsCapabilityId(e.id) && IsCount(e.consumedAt) && IsCount(e.expiresAt)
  }

  predicate HasId(entries: seq<Entry>, id: string) {
    exists i :: 0 <= i < |entries| && entries[i].id == id
  }

  predicate DistinctIds(entries: seq<Entry>) {
    forall i, j :: 0 <= i < j < |entries| ==> entries[i].id != entries[j].id
  }

  /** The states the log may hold. */
  predicate StateOk(entries: seq<Entry>) {
    && |entries| <= MAX_ENTRIES
    && DistinctIds(entries)
    && forall i :: 0 <= i < |entries| ==> EntryOk(entries[i])
  }

  function EntryJson(e: Entry): Json {
    JObject(map[
      "capabilityId" := JString(e.id),
      "consumedAtMs" := JInt(e.consumedAt),
      "expiresAtMs" := JInt(e.expiresAt)])
  }

  function StateJson(entries: seq<Entry>): Json {
    JArray(seq(|entries|, i requires 0 <= i < |entries| => EntryJson(entries[i])))
  }

  // ----- parseState

  method ParseEntry(raw: Json, seen: set<string>) returns (r: Option<Entry>)
    ensures r.Some? ==> EntryOk(r.value) && raw == EntryJson(r.value) && r.value.id !in seen
    ensures r.Some? ==>
      && raw.fields.Keys == {"capabilityId", "consumedAtMs", "expiresAtMs"}
      && raw.fields["capabilityId"] == JString(r.value.id)
      && raw.fields["consumedAtMs"] == JInt(r.value.consumedAt) && raw.fields["expiresAtMs"] == JInt(r.value.expiresAt)
    ensures r.None? ==> forall e :: EntryOk(e) && raw == EntryJson(e) ==> e.id in seen
  {
    if !raw.JObject? {
      return None;
    }
    var o := raw.fields;
    if o.Keys != {"capabilityId", "consumedAtMs", "expiresAtMs"} {
      assert forall e :: EntryJson(e).fields.Keys == {"capabilityId", "consumedAtMs", "expiresAtMs"};
      return None;
    }
    var id, consumed, expires := o["capabilityId"], o["consumedAtMs"], o["expiresAtMs"];
    assert forall e :: raw == EntryJson(e) ==>
             id == JString(e.id) && consumed == JInt(e.consumedAt) && expires == JInt(e.expiresAt);
    if !id.JString? || !IsCapabilityId(id.s) {
      return None;
    }
    if id.s in seen {
      return None;
    }
    if !consumed.JInt? || !IsCount(consumed.n) || !expires.JInt? || !IsCount(expires.n) {
      return None;
    }
    r := Some(Entry(id.s, consumed.n, expires.n));
    assert o == EntryJson(r.value).fields;
  }

  /** `parseState` accepts exactly the printed forms of the allowed states, and reads them back. */
  method ParseState(parsed: Json) returns (r: Option<seq<Entry>>)
    ensures r.Some? ==> StateOk(r.value) && parsed == StateJson(r.value)
    ensures r.None? ==> forall entries :: StateOk(entries) ==> parsed != StateJson(entries)
  {
    if !parsed.JArray? || |parsed.items| > MAX_ENTRIES {
      return None;
    }
    var entries: seq<Entry> := [];
    var seen: set<string> := {};
    var i := 0;
    while i < |parsed.items|
      invariant 0 <= i <= |parsed.items| && |entries| == i
      invariant forall k :: 0 <= k < i ==> EntryOk(entries[k]) && parsed.items[k] == EntryJson(entries[k])
      invariant DistinctIds(entries)
      invariant forall x :: x in seen <==> HasId(entries, x)
    {
      var entry := ParseEntry(parsed.items[i], seen);
      if entry.None? {
        forall other | StateOk(other) && |entries| < |other|
          ensures parsed != StateJson(other)
        {
          NoOtherReading(parsed, entries, seen, other);
        }
        return None;
      }
      ghost var before := entries;
      seen := seen + {entry.value.id};
      entries := entries + [entry.value];
      HasIdAppends(before, entry.value);
      i := i + 1;
    }
    return Some(entries);
  }

  lemma HasIdAppends(entries: seq<Entry>, e: Entry)
    ensures forall x :: HasId(entries + [e], x) <==> x == e.id || HasId(entries, x)
  {
    forall x
      ensures HasId(entries + [e], x) <==> x == e.id || HasId(entries, x)
    {
      if HasId(entries, x) {
        var i :| 0 <= i < |entries| && entries[i].id == x;
        assert (entries + [e])[i].id == x;
      }
      if x == e.id {
        assert (entries + [e])[|entries|].id == x;
      }
    }
  }

  lemma EntryJsonInjective(a: Entry, b: Entry)
    requires EntryJson(a) == EntryJson(b)
    ensures a == b
  {
    assert EntryJson(a).fields["capabilityId"] == EntryJson(b).fields["capabilityId"];
    assert EntryJson(a).fields["consumedAtMs"] == EntryJson(b).fields["consumedAtMs"];
    assert EntryJson(a).fields["expiresAtMs"] == EntryJson(b).fields["expiresAtMs"];
  }

  /** An element the parser refuses is not the printed form of the next entry of any allowed state. */
  lemma NoOtherReading(parsed: Json, entries: seq<Entry>, seen: set<string>, other: seq<Entry>)
    requires StateOk(other) && parsed.JArray? && |entries| < |other| && |entries| < |parsed.items|
    requires forall k :: 0 <= k < |entries| ==> parsed.items[k] == EntryJson(entries[k])
    requires forall x :: x in seen <==> HasId(entries, x)
    requires forall e :: EntryOk(e) && parsed.items[|entries|] == EntryJson(e) ==> e.id in seen
    ensures parsed != StateJson(other)
  {
    var n := |entries|;
    if parsed.items[n] == EntryJson(other[n]) {
      var k :| 0 <= k < n && entries[k].id == other[n].id;
      if parsed.items[k] == EntryJson(other[k]) {
        EntryJsonInjective(entries[k], other[k]);
      }
    }
  }

  /** Printing loses nothing: two states with one printed form are one state. */
  lemma StateJsonInjective(a: seq<Entry>, b: seq<Entry>)
    requires StateJson(a) == StateJson(b)
    ensures a == b
  {
    assert |StateJson(a).items| == |a| && |StateJson(b).items| == |b|;
    forall i | 0 <= i < |a|
      ensures a[i] == b[i]
    {
      assert StateJson(a).items[i] == StateJson(b).items[i];
      EntryJsonInjective(a[i], b[i]);
    }
  }

  // ----- The log

  /** What the operating system does to one write: it fails before or after the atomic rename, or not at all. */
  datatype Fault = NoFault | BeforeRename | AfterRename

  datatype Log = Log(file: File, observed: bool)

  /** The state a decoded document stands for. */
  ghost function ReadState(parsed: Json): (r: Option<seq<Entry>>) {
    if exists entries :: StateOk(entries) && parsed == StateJson(entries) then
      var entries :| StateOk(entries) && parsed == StateJson(entries);
      Some(entries)
    else None
  }

  lemma ReadStateReads(entries: seq<Entry>)
    requires StateOk(entries)
    ensures ReadState(StateJson(entries)) == Some(entries)
  {
    StateJsonInjective(entries, ReadState(StateJson(entries)).value);
  }

  ghost function ReadFile(file: File): (r: Option<seq<Entry>>) {
    if file.Contents? && file.json.Some? then ReadState(file.json.value) else None
  }

  /** `load`: an absent file is an empty log only to a process that never saw one; `None` is a thrown error. */
  ghost function LoadTx(l: Log): (r: (Log, Option<seq<Entry>>)) {
    if l.file == Missing then (l, if l.observed then None else Some([]))
    else if l.file == NotAFile then (l, None)
    else (l.(observed := true), ReadFile(l.file))
  }

  function Retained(entries: seq<Entry>, now: int): (r: seq<Entry>) {
    if entries == [] then []
    else
      var kept, last := Retained(entries[..|entries| - 1], now), entries[|entries| - 1];
      if last.expiresAt + GRACE_MS > now then kept + [last] else kept
  }

  predicate RequestOk(id: string, expiresAtSeconds: int, now: int) {
    && IsCapabilityId(id)
    && IsCount(expiresAtSeconds) && IsCount(expiresAtSeconds * 1000)
    && IsCount(now)
  }

  /** The state a first use persists. */
  function WithUse(entries: seq<Entry>, id: string, expiresAtSeconds: int, now: int): (r: seq<Entry>) {
    Retained(entries, now) + [Entry(id, now, expiresAtSeconds * 1000)]
  }

  /** `consume`: the reported first use, or `None` for a thrown error. */
  ghost function ConsumeTx(l: Log, id: string, expiresAtSeconds: int, now: int, fault: Fault)
    : (r: (Log, Option<bool>))
  {
    var (seen, loaded) := LoadTx(l);
    if loaded.None? then (seen, None)
    else if HasId(loaded.value, id) then (seen, Some(false))
    else if !RequestOk(id, expiresAtSeconds, now) || |Retained(loaded.value, now)| >= MAX_ENTRIES then (seen, None)
    else if fault == BeforeRename then (seen, None)
    else
      var written := Contents(Some(StateJson(WithUse(loaded.value, id, expiresAtSeconds, now))));
      (Log(written, true), if fault == AfterRename then None else Some(true))
  }

  class ConsumedCapabilityLog {
    /** The mount, which outlives the process. */
    var file: File
    var observedPersistedState: bool

    ghost function Value(): Log
      reads this
    {
      Log(file, observedPersistedState)
    }

    /** A process starts having observed nothing. */
    constructor (mounted: File)
      ensures Value() == Log(mounted, false)
    {
      file := mounted;
      observedPersistedState := false;
    }

    method Load() returns (r: Option<seq<Entry>>)
      modifies this`observedPersistedState
      ensures (Value(), r) == LoadTx(old(Value()))
      ensures r.Some? ==> StateOk(r.value)
    {
      if file == Missing {
        return if observedPersistedState then None else Some([]);
      }
      if file == NotAFile {
        return None;
      }
      observedPersistedState := true;
      if file.json.None? {
        return None;
      }
      r := ParseState(file.json.value);
      if r.Some? {
        ReadStateReads(r.value);
      }
    }

    method Persist(entries: seq<Entry>, fault: Fault) returns (ok: bool)
      modifies this
      ensures fault == BeforeRename ==> Value() == old(Value())
      ensures fault != BeforeRename ==> Value() == Log(Contents(Some(StateJson(entries))), true)
      ensures ok == (fault == NoFault)
    {
      if fault == BeforeRename {
        return false;
      }
      file := Contents(Some(StateJson(entries)));
      observedPersistedState := true;
      ok := fault == NoFault;
    }

    method Consume(id: string, expiresAtSeconds: int, now: int, fault: Fault) returns (r: Option<bool>)
      modifies this
      ensures (Value(), r) == ConsumeTx(old(Value()), id, expiresAtSeconds, now, fault)
    {
      var entries := Load();
      if entries.None? {
        return None;
      }
      if HasId(entries.value, id) {
        return Some(false);
      }
      if !RequestOk(id, expiresAtSeconds, now) {
        return None;
      }
      var retained := Retained(entries.value, now);
      if |retained| >= MAX_ENTRIES {
        return None;
      }
      var ok := Persist(retained + [Entry(id, now, expiresAtSeconds * 1000)], fault);
      r := if ok then Some(true) else None;
    }

    method WasConsumed(id: string) returns (r: Option<bool>)
      modifies this`observedPersistedState
      ensures Value() == LoadTx(old(Value())).0
      ensures r.Some? <==> LoadTx(old(Value())).1.Some?
      ensures r.Some? ==> (r.value <==> HasId(LoadTx(old(Value())).1.value, id))
    {
      var entries := Load();
      r := if entries.None? then None else Some(HasId(entries.value, id));
    }
  }

  // ----- What retention keeps

  predicate HasEntry(entries: seq<Entry>, e: Entry) {
    exists i :: 0 <= i < |entries| && entries[i] == e
  }

  /** Retention drops exactly the entries whose grace is over. */
  lemma {:induction false} RetainedIsExact(entries: seq<Entry>, now: int, e: Entry)
    ensures HasEntry(Retained(entries, now), e) <==> HasEntry(entries, e) && e.expiresAt + GRACE_MS > now
  {
    if entries != [] {
      var front, last := entries[..|entries| - 1], entries[|entries| - 1];
      RetainedIsExact(front, now, e);
      assert entries == front + [last];
      HasEntryAppends(front, last, e);
      HasEntryAppends(Retained(front, now), last, e);
    }
  }

  lemma HasEntryAppends(entries: seq<Entry>, last: Entry, e: Entry)
    ensures HasEntry(entries + [last], e) <==> HasEntry(entries, e) || e == last
  {
    if HasEntry(entries, e) {
      var i :| 0 <= i < |entries| && entries[i] == e;
      assert (entries + [last])[i] == e;
    }
    if e == last {
      assert (entries + [last])[|entries|] == e;
    }
  }

  lemma AppendKeepsStateOk(entries: seq<Entry>, e: Entry)
    requires StateOk(entries) && |entries| < MAX_ENTRIES && EntryOk(e) && !HasId(entries, e.id)
    ensures StateOk(entries + [e])
  {
  }

  lemma {:induction false} RetainedKeepsStateOk(entries: seq<Entry>, now: int, id: string)
    requires StateOk(entries)
    ensures StateOk(Retained(entries, now)) && |Retained(entries, now)| <= |entries|
    ensures HasId(Retained(entries, now), id) ==> HasId(entries, id)
  {
    if entries != [] {
      var front, last := entries[..|entries| - 1], entries[|entries| - 1];
      RetainedKeepsStateOk(front, now, id);
      RetainedKeepsStateOk(front, now, last.id);
      assert entries == front + [last];
      HasIdAppends(front, last);
      HasIdAppends(Retained(front, now), last);
      assert !HasId(front, last.id);
      AppendKeepsStateOk(Retained(front, now), last);
    }
  }

  /** Every state that `consume` persists is one `parseState` accepts: distinct ids, bounded length, valid fields. */
  lemma PersistedStatesAreAccepted(entries: seq<Entry>, id: string, expiresAtSeconds: int, now: int)
    requires StateOk(entries) && !HasId(entries, id) && RequestOk(id, expiresAtSeconds, now)
    requires |Retained(entries, now)| < MAX_ENTRIES
    ensures ReadState(StateJson(WithUse(entries, id, expiresAtSeconds, now)))
         == Some(WithUse(entries, id, expiresAtSeconds, now))
  {
    RetainedKeepsStateOk(entries, now, id);
    AppendKeepsStateOk(Retained(entries, now), Entry(id, now, expiresAtSeconds * 1000));
    ReadStateReads(WithUse(entries, id, expiresAtSeconds, now));
  }

  // ----- Runs: calls, failed writes and restarts over one retained file

  datatype Event =
    | Use(id: string, expiresAtSeconds: int, now: int, fault: Fault)
    | Query(id: string)
    | Restart

  /** A reported first use. */
  datatype FirstUse = FirstUse(id: string, expiresAt: int, at: int)

  datatype World = World(log: Log, clock: int, uses: seq<FirstUse>)

  predicate ClockHolds(w: World, e: Event) {
    e.Use? ==> e.now >= w.clock
  }

  ghost function After(w: World, e: Event): (r: World) {
    match e
    case Use(id, expiresAtSeconds, now, fault) =>
      var (log, first) := ConsumeTx(w.log, id, expiresAtSeconds, now, fault);
      World(log, now, if first == Some(true) then w.uses + [FirstUse(id, expiresAtSeconds * 1000, now)] else w.uses)
    case Query(id) => w.(log := LoadTx(w.log).0)
    case Restart => w.(log := Log(w.log.file, false))
  }

  /** The worlds along a run: each follows from the one before, on a clock that never steps back. */
  ghost predicate IsRun(events: seq<Event>, worlds: seq<World>) {
    && |worlds| == |events| + 1
    && worlds[0].uses == []
    && forall i :: 0 <= i < |events| ==>
         ClockHolds(worlds[i], events[i]) && worlds[i + 1] == After(worlds[i], events[i])
  }

  /** A first use is either past its grace or still on file. */
  ghost predicate Remembered(w: World, u: FirstUse) {
    || w.clock >= u.expiresAt + GRACE_MS
    || (ReadFile(w.log.file).Some? && HasEntry(ReadFile(w.log.file).value, Entry(u.id, u.at, u.expiresAt)))
  }

  ghost predicate Inv(w: World) {
    && (forall i :: 0 <= i < |w.uses| ==> Remembered(w, w.uses[i]))
    && (forall i, j :: 0 <= i < j < |w.uses| && w.uses[i].id == w.uses[j].id ==>
                         w.uses[j].at >= w.uses[i].expiresAt + GRACE_MS)
  }

  ghost predicate Writes(l: Log, id: string, expiresAtSeconds: int, now: int, fault: Fault) {
    && fault != BeforeRename
    && LoadTx(l).1.Some?
    && !HasId(LoadTx(l).1.value, id)
    && RequestOk(id, expiresAtSeconds, now)
    && |Retained(LoadTx(l).1.value, now)| < MAX_ENTRIES
  }

  /** A loaded state is an allowed one, and it is the file's unless there is no file. */
  lemma LoadedStateOk(l: Log)
    requires LoadTx(l).1.Some?
    ensures StateOk(LoadTx(l).1.value)
    ensures ReadFile(l.file).Some? ==> LoadTx(l).1 == ReadFile(l.file)
  {
  }

  lemma UseKeepsRemembered(w: World, id: string, expiresAtSeconds: int, now: int, fault: Fault, u: FirstUse)
    requires now >= w.clock && Remembered(w, u)
    ensures Remembered(After(w, Use(id, expiresAtSeconds, now, fault)), u)
  {
    if Writes(w.log, id, expiresAtSeconds, now, fault) {
      var entries := LoadTx(w.log).1.value;
      LoadedStateOk(w.log);
      PersistedStatesAreAccepted(entries, id, expiresAtSeconds, now);
      var e := Entry(u.id, u.at, u.expiresAt);
      RetainedIsExact(entries, now, e);
      HasEntryAppends(Retained(entries, now), Entry(id, now, expiresAtSeconds * 1000), e);
    }
  }

  /** A first use is on file as soon as it is reported, and every earlier use of its id is past its grace. */
  lemma FirstUseIsRecorded(w: World, id: string, expiresAtSeconds: int, now: int, fault: Fault)
    requires ConsumeTx(w.log, id, expiresAtSeconds, now, fault).1 == Some(true)
    ensures Remembered(After(w, Use(id, expiresAtSeconds, now, fault)), FirstUse(id, expiresAtSeconds * 1000, now))
    ensures forall u :: Remembered(w, u) && u.id == id ==> w.clock >= u.expiresAt + GRACE_MS
  {
    var entries := LoadTx(w.log).1.value;
    var e := Entry(id, now, expiresAtSeconds * 1000);
    LoadedStateOk(w.log);
    PersistedStatesAreAccepted(entries, id, expiresAtSeconds, now);
    HasEntryAppends(Retained(entries, now), e, e);
  }

  lemma StepKeepsInv(w: World, e: Event)
    requires Inv(w) && ClockHolds(w, e)
    ensures Inv(After(w, e)) && w.uses <= After(w, e).uses
  {
    var w' := After(w, e);
    if e.Use? {
      forall i | 0 <= i < |w.uses|
        ensures Remembered(w', w.uses[i])
      {
        UseKeepsRemembered(w, e.id, e.expiresAtSeconds, e.now, e.fault, w.uses[i]);
      }
      if ConsumeTx(w.log, e.id, e.expiresAtSeconds, e.now, e.fault).1 == Some(true) {
        FirstUseIsRecorded(w, e.id, e.expiresAtSeconds, e.now, e.fault);
      }
    }
  }

  lemma {:induction false} RunKeepsInv(events: seq<Event>, worlds: seq<World>, n: nat)
    requires IsRun(events, worlds) && n < |worlds|
    ensures Inv(worlds[n])
  {
    if n > 0 {
      RunKeepsInv(events, worlds, n - 1);
      StepKeepsInv(worlds[n - 1], events[n - 1]);
    }
  }

  /** The n-th event is a call for the capability that is answered as its first use. */
  ghost predicate IsFirstUse(events: seq<Event>, worlds: seq<World>, n: nat, id: string)
    requires n < |events| == |worlds| - 1
  {
    && events[n].Use? && events[n].id == id
    && ConsumeTx(worlds[n].log, id, events[n].expiresAtSeconds, events[n].now, events[n].fault).1 == Some(true)
  }

  /** The uses a run lists only grow, and the clock only goes forward. */
  lemma {:induction false} UsesGrow(events: seq<Event>, worlds: seq<World>, i: nat, j: nat)
    requires IsRun(events, worlds) && i <= j < |worlds|
    ensures worlds[i].uses <= worlds[j].uses && worlds[i].clock <= worlds[j].clock
  {
    if i < j {
      UsesGrow(events, worlds, i, j - 1);
      assert worlds[j] == After(worlds[j - 1], events[j - 1]);
    }
  }

  lemma FirstUseIsListed(events: seq<Event>, worlds: seq<World>, n: nat, id: string)
    requires IsRun(events, worlds) && n < |events| && IsFirstUse(events, worlds, n, id)
    ensures var e := events[n];
            worlds[n + 1].uses == worlds[n].uses + [FirstUse(id, e.expiresAtSeconds * 1000, e.now)]
  {
    assert worlds[n + 1] == After(worlds[n], events[n]);
  }

  /**
   * One-time use over whole runs: with a clock that never steps back, a capability that expires
   * at e seconds is answered as a first use at most once until 24 hours after e, whatever calls,
   * failed writes and restarts come between, and whatever the file held at the start.
   */
  lemma FirstUsesAreFarApart(events: seq<Event>, worlds: seq<World>, i: nat, j: nat, id: string)
    requires IsRun(events, worlds) && i < j < |events|
    requires IsFirstUse(events, worlds, i, id) && IsFirstUse(events, worlds, j, id)
    ensures events[j].now >= events[i].expiresAtSeconds * 1000 + 86_400_000
  {
    FirstUseIsListed(events, worlds, i, id);
    FirstUseIsListed(events, worlds, j, id);
    UsesGrow(events, worlds, i + 1, j);
    RunKeepsInv(events, worlds, j + 1);
    var uses, a, b := worlds[j + 1].uses, |worlds[i].uses|, |worlds[j].uses|;
    assert worlds[i + 1].uses[a] == FirstUse(id, events[i].expiresAtSeconds * 1000, events[i].now);
    assert uses[a] == worlds[i + 1].uses[a] && uses[a].id == uses[b].id;
  }

  /** Until then every call for it, from any process, is answered as a replay: neither a first use nor an error. */
  lemma ReplaysAreReported(events: seq<Event>, worlds: seq<World>, i: nat, j: nat, id: string)
    requires IsRun(events, worlds) && i < j < |events| && IsFirstUse(events, worlds, i, id)
    requires events[j].Use? && events[j].id == id
    requires worlds[j].clock < events[i].expiresAtSeconds * 1000 + 86_400_000
    ensures var e := events[j]; ConsumeTx(worlds[j].log, id, e.expiresAtSeconds, e.now, e.fault).1 == Some(false)
  {
    FirstUseIsListed(events, worlds, i, id);
    UsesGrow(events, worlds, i + 1, j);
    RunKeepsInv(events, worlds, j);
    var u := FirstUse(id, events[i].expiresAtSeconds * 1000, events[i].now);
    assert u == worlds[i + 1].uses[|worlds[i].uses|] == worlds[j].uses[|worlds[i].uses|];
    ReplayIsReported(worlds[j], u, events[j].expiresAtSeconds, events[j].now, events[j].fault);
  }

  /** A log that starts absent or readable stays so: no step of any run leaves a file that `parseState` refuses. */
  lemma {:induction false} FileStaysReadable(events: seq<Event>, worlds: seq<World>, n: nat)
    requires IsRun(events, worlds) && n < |worlds|
    requires worlds[0].log.file == Missing || ReadFile(worlds[0].log.file).Some?
    ensures worlds[n].log.file == Missing || ReadFile(worlds[n].log.file).Some?
  {
    if n > 0 {
      FileStaysReadable(events, worlds, n - 1);
      var w, e := worlds[n - 1], events[n - 1];
      if e.Use? && Writes(w.log, e.id, e.expiresAtSeconds, e.now, e.fault) {
        LoadedStateOk(w.log);
        PersistedStatesAreAccepted(LoadTx(w.log).1.value, e.id, e.expiresAtSeconds, e.now);
      }
    }
  }

  /** Within its grace a used capability is refused to every caller, restarted or not: not an error, a replay. */
  lemma ReplayIsReported(w: World, u: FirstUse, expiresAtSeconds: int, now: int, fault: Fault)
    requires Remembered(w, u) && w.clock < u.expiresAt + GRACE_MS
    ensures ConsumeTx(w.log, u.id, expiresAtSeconds, now, fault).1 == Some(false)
  {
    var entries := ReadFile(w.log.file).value;
    var i :| 0 <= i < |entries| && entries[i] == Entry(u.id, u.at, u.expiresAt);
    assert HasId(entries, u.id);
  }

  // ----- One call, in terms of what the log holds

  /** The log holds the entries: they are its file, or there is no file and none was ever seen. */
  predicate Holds(l: Log, entries: seq<Entry>) {
    && StateOk(entries)
    && (l.file == Contents(Some(StateJson(entries))) || (l == Log(Missing, false) && entries == []))
  }

  lemma HeldIsLoaded(l: Log, entries: seq<Entry>)
    requires Holds(l, entries)
    ensures LoadTx(l).1 == Some(entries)
    ensures LoadTx(l).0 == Log(l.file, l.file != Missing)
  {
    if l.file != Missing {
      ReadStateReads(entries);
    }
  }

  /** The positions of the entries that are within their expiry and a day. */
  function Kept(entries: seq<Entry>, now: int): set<nat> {
    set i | 0 <= i < |entries| && entries[i].expiresAt + 86_400_000 > now
  }

  lemma {:induction false} RetainedCounts(entries: seq<Entry>, now: int)
    ensures |Retained(entries, now)| == |Kept(entries, now)|
  {
    if entries != [] {
      var n := |entries| - 1;
      RetainedCounts(entries[..n], now);
      assert Kept(entries, now) == Kept(entries[..n], now)
                                   + if entries[n].expiresAt + 86_400_000 > now then {n} else {};
      assert n !in Kept(entries[..n], now);
    }
  }

  /** An id is three to 64 lower-case letters, digits, dashes and underscores, and starts with a letter or digit. */
  lemma CapabilityIdsAre(id: string)
    ensures IsCapabilityId(id) <==>
      && 3 <= |id| <= 64 && id[0] != '_' && id[0] != '-'
      && forall c :: c in id ==> 'a' <= c <= 'z' || '0' <= c <= '9' || c == '_' || c == '-'
  {
    if 3 <= |id| && forall c :: c in id ==> 'a' <= c <= 'z' || '0' <= c <= '9' || c == '_' || c == '-' {
      forall i | 0 <= i < |id|
        ensures IsIdStart(id[i]) || id[i] == '_' || id[i] == '-'
      {
        assert id[i] in id;
      }
    }
  }

  /**
   * A replay is answered as one whatever else the call carries; a first use needs room, good
   * arguments and a write that holds.
   */
  lemma ConsumeAnswers(l: Log, entries: seq<Entry>, id: string, expiresAtSeconds: int, now: int, fault: Fault)
    requires Holds(l, entries)
    ensures var answer := ConsumeTx(l, id, expiresAtSeconds, now, fault).1;
      var used := exists i :: 0 <= i < |entries| && entries[i].id == id;
      && (answer == Some(false) <==> used)
      && (answer == Some(true) <==>
            && !used && fault == NoFault
            && 3 <= |id| <= 64 && id[0] != '_' && id[0] != '-'
            && (forall c :: c in id ==> 'a' <= c <= 'z' || '0' <= c <= '9' || c == '_' || c == '-')
            && 0 <= expiresAtSeconds * 1000 <= 9_007_199_254_740_991 && 0 <= now <= 9_007_199_254_740_991
            && |Kept(entries, now)| < 10_000)
  {
    HeldIsLoaded(l, entries);
    RetainedCounts(entries, now);
    CapabilityIdsAre(id);
  }

  /**
   * The file changes exactly when a call that would be answered as a first use gets past its rename;
   * it then holds the new use and every entry that is not long expired.
   */
  lemma ConsumeWrites(l: Log, entries: seq<Entry>, id: string, expiresAtSeconds: int, now: int, fault: Fault)
    requires Holds(l, entries)
    ensures ConsumeTx(l, id, expiresAtSeconds, now, fault).0.file != l.file
       <==> fault != BeforeRename && ConsumeTx(l, id, expiresAtSeconds, now, NoFault).1 == Some(true)
    ensures var (after, answer) := ConsumeTx(l, id, expiresAtSeconds, now, fault);
      after.file != l.file ==>
        exists left :: Holds(after, left) && forall e ::
          HasEntry(left, e) <==> e == Entry(id, now, expiresAtSeconds * 1000)
                                 || (HasEntry(entries, e) && e.expiresAt + 86_400_000 > now)
  {
    HeldIsLoaded(l, entries);
    if Writes(l, id, expiresAtSeconds, now, fault) {
      var left := WithUse(entries, id, expiresAtSeconds, now);
      var e := Entry(id, now, expiresAtSeconds * 1000);
      PersistedStatesAreAccepted(entries, id, expiresAtSeconds, now);
      ReadStateHolds(left);
      assert Holds(ConsumeTx(l, id, expiresAtSeconds, now, fault).0, left);
      forall x
        ensures HasEntry(left, x) <==> x == e || (HasEntry(entries, x) && x.expiresAt + 86_400_000 > now)
      {
        RetainedIsExact(entries, now, x);
        HasEntryAppends(Retained(entries, now), e, x);
      }
      HasEntryAppends(Retained(entries, now), e, e);
      if StateJson(left) == StateJson(entries) {
        StateJsonInjective(left, entries);
      }
    }
  }

  lemma ReadStateHolds(entries: seq<Entry>)
    requires ReadState(StateJson(entries)).Some?
    ensures StateOk(entries)
  {
    StateJsonInjective(entries, ReadState(StateJson(entries)).value);
  }

  /**
   * A log that holds nothing readable answers every call with an error and keeps its file:
   * one gone after it was seen, or one that is no log.
   */
  lemma UnreadableLogIsAnError(l: Log, id: string, expiresAtSeconds: int, now: int, fault: Fault)
    requires forall entries :: !Holds(l, entries)
    ensures ConsumeTx(l, id, expiresAtSeconds, now, fault).1 == None
    ensures ConsumeTx(l, id, expiresAtSeconds, now, fault).0.file == l.file
    ensures LoadTx(l) == (l.(observed := l.observed || l.file.Contents?), None)
  {
    LoadedIsHeld(l);
  }

  lemma LoadedIsHeld(l: Log)
    ensures LoadTx(l).1.Some? ==> Holds(l, LoadTx(l).1.value)
  {
  }
}
