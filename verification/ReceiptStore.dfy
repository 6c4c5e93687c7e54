/** The bounded, expiring receipt store (src/inference/contentReceipts.ts). */
module ReceiptStore {
  import opened Wrappers
  import opened OpaqueReceipts

  /** `details` stands for the provider, model and route fields, which the store only carries. */
  datatype Binding = Binding(requestHash: string, responseHash: string, details: string)

  datatype Receipt = Receipt(id: string, binding: Binding, recordedAt: int, expiresAt: int)

  datatype StoreError = MalformedId | MalformedHash

  predicate IsHex(c: char) {
    '0' <= c <= '9' || 'a' <= c <= 'f' || 'A' <= c <= 'F'
  }

  predicate IsSha256(s: string) {
    |s| == 64 && forall i :: 0 <= i < |s| ==> IsHex(s[i])
  }

  /** A digest is 64 hex digits of either case. */
  lemma Sha256TextsAre(s: string)
    ensures IsSha256(s) <==>
      |s| == 64 && forall c :: c in s ==> '0' <= c <= '9' || 'a' <= c <= 'f' || 'A' <= c <= 'F'
  {
    if forall c :: c in s ==> '0' <= c <= '9' || 'a' <= c <= 'f' || 'A' <= c <= 'F' {
      forall i | 0 <= i < |s|
        ensures IsHex(s[i])
      {
        assert s[i] in s;
      }
    }
  }

  // ----- The entries, in insertion order

  predicate Distinct(s: seq<Receipt>) {
    forall i, j :: 0 <= i < j < |s| ==> s[i].id != s[j].id
  }

  predicate Sorted(s: seq<Receipt>) {
    forall i, j :: 0 <= i < j < |s| ==> s[i].expiresAt <= s[j].expiresAt
  }

  function Remove(s: seq<Receipt>, id: string): seq<Receipt> {
    if s == [] then []
    else if s[0].id == id then s[1..]
    else [s[0]] + Remove(s[1..], id)
  }

  function Find(s: seq<Receipt>, id: string): Option<Receipt> {
    if s == [] then None
    else if s[0].id == id then Some(s[0])
    else Find(s[1..], id)
  }

  /** `sweep`: drops entries from the front and stops at the first live one. */
  function Swept(s: seq<Receipt>, now: int): seq<Receipt> {
    if s == [] || s[0].expiresAt > now then s else Swept(s[1..], now)
  }

  /** The entries that are not expired. */
  function Live(s: seq<Receipt>, now: int): seq<Receipt> {
    if s == [] then []
    else if s[0].expiresAt > now then [s[0]] + Live(s[1..], now)
    else Live(s[1..], now)
  }

  /** The newest `max` entries. */
  function Newest(s: seq<Receipt>, max: int): seq<Receipt> {
    if max <= 0 then [] else if |s| <= max then s else s[|s| - max..]
  }

  function PutTx(s: seq<Receipt>, r: Receipt, max: int, now: int): seq<Receipt> {
    Newest(Remove(Swept(s, now), r.id) + [r], max)
  }

  function GetTx(s: seq<Receipt>, id: string, now: int): (seq<Receipt>, Option<Receipt>) {
    var found := Find(s, id);
    if found.None? then (s, None)
    else if found.value.expiresAt <= now then (Remove(s, id), None)
    else (s, found)
  }

  class ContentReceiptStore {
    const maxEntries: int
    const ttl: int
    var entries: seq<Receipt>

    constructor (maxEntries: int, ttl: int)
      ensures entries == [] && this.maxEntries == maxEntries && this.ttl == ttl
    {
      this.maxEntries := maxEntries;
      this.ttl := ttl;
      entries := [];
    }

    /** `record`, with the freshly minted id and the clock's readings. */
    method Record(id: string, b: Binding, at: int, base: int, now: int) returns (r: Result<string, StoreError>)
      modifies this
      ensures r == if IsSha256(b.requestHash) && IsSha256(b.responseHash) then Ok(id) else Err(MalformedHash)
      ensures entries == if r.Ok? then PutTx(old(entries), Receipt(id, b, at, base + ttl), maxEntries, now)
                         else old(entries)
    {
      var put := Put(Receipt(id, b, at, base + ttl), now);
      if !put {
        return Err(MalformedHash);
      }
      return Ok(id);
    }

    method RecordUnder(id: string, b: Binding, at: int, base: int, now: int) returns (r: Result<string, StoreError>)
      modifies this
      ensures r == if !IsOpaqueReceiptId(id) then Err(MalformedId)
                   else if IsSha256(b.requestHash) && IsSha256(b.responseHash) then Ok(id) else Err(MalformedHash)
      ensures entries == if r.Ok? then PutTx(old(entries), Receipt(id, b, at, base + ttl), maxEntries, now)
                         else old(entries)
    {
      if !IsOpaqueReceiptId(id) {
        return Err(MalformedId);
      }
      r := Record(id, b, at, base, now);
    }

    method Get(id: string, now: int) returns (r: Option<Receipt>)
      modifies this
      ensures (entries, r) == GetTx(old(entries), id, now)
    {
      var found := Find(entries, id);
      if found.None? {
        return None;
      }
      if found.value.expiresAt <= now {
        entries := Remove(entries, id);
        return None;
      }
      return found;
    }

    method Put(r: Receipt, now: int) returns (ok: bool)
      modifies this
      ensures ok == (IsSha256(r.binding.requestHash) && IsSha256(r.binding.responseHash))
      ensures entries == if ok then PutTx(old(entries), r, maxEntries, now) else old(entries)
    {
      if !IsSha256(r.binding.requestHash) || !IsSha256(r.binding.responseHash) {
        return false;
      }
      Sweep(now);
      entries := Remove(entries, r.id) + [r];
      ghost var all := entries;
      while |entries| > maxEntries && entries != []
        invariant Newest(entries, maxEntries) == Newest(all, maxEntries)
        decreases |entries|
      {
        entries := entries[1..];
      }
      return true;
    }

    method Sweep(now: int)
      modifies this
      ensures entries == Swept(old(entries), now)
    {
      while entries != [] && entries[0].expiresAt <= now
        invariant Swept(entries, now) == Swept(old(entries), now)
        decreases |entries|
      {
        entries := entries[1..];
      }
    }
  }

  // ----- Runs, and what was recorded in them

  /** `put` carries a well-formed binding; a rejected call leaves the store alone. */
  datatype Event =
    | Recorded(id: string, binding: Binding, at: int, base: int, now: int)
    | Fetched(id: string, now: int)

  datatype World = World(entries: seq<Receipt>, clock: int, recorded: seq<Receipt>)

  predicate Possible(w: World, e: Event) {
    match e
    case Recorded(_, _, at, base, now) => w.clock <= at <= base <= now
    case Fetched(_, now) => w.clock <= now
  }

  function Next(w: World, max: int, ttl: int, e: Event): World {
    match e
    case Recorded(id, b, at, base, now) =>
      var r := Receipt(id, b, at, base + ttl);
      World(PutTx(w.entries, r, max, now), now, w.recorded + [r])
    case Fetched(id, now) => World(GetTx(w.entries, id, now).0, now, w.recorded)
  }

  predicate PossibleRun(w: World, max: int, ttl: int, events: seq<Event>)
    decreases |events|
  {
    events == [] || (Possible(w, events[0]) && PossibleRun(Next(w, max, ttl, events[0]), max, ttl, events[1..]))
  }

  function Run(w: World, max: int, ttl: int, events: seq<Event>): World
    decreases |events|
  {
    if events == [] then w else Run(Next(w, max, ttl, events[0]), max, ttl, events[1..])
  }

  // ----- Reference: the latest record under an id, and the ids recorded after it

  function LatestUnder(recorded: seq<Receipt>, id: string): Option<Receipt> {
    if recorded == [] then None
    else
      var last := recorded[|recorded| - 1];
      if last.id == id then Some(last) else LatestUnder(recorded[..|recorded| - 1], id)
  }

  function IdsAfterLatest(recorded: seq<Receipt>, id: string): set<string> {
    if recorded == [] then {}
    else
      var last := recorded[|recorded| - 1];
      if last.id == id then {} else IdsAfterLatest(recorded[..|recorded| - 1], id) + {last.id}
  }

  /** The store without a bound and without expiry: one entry per id, latest last. */
  function Unbounded(recorded: seq<Receipt>): seq<Receipt> {
    if recorded == [] then []
    else
      var last := recorded[|recorded| - 1];
      Remove(Unbounded(recorded[..|recorded| - 1]), last.id) + [last]
  }

  // ----- Sequence facts

  predicate IdIn(s: seq<Receipt>, id: string) {
    exists i :: 0 <= i < |s| && s[i].id == id
  }

  lemma {:induction false} RemoveMembers(s: seq<Receipt>, id: string)
    ensures forall r :: r in Remove(s, id) ==> r in s
    ensures |s| - 1 <= |Remove(s, id)| <= |s|
  {
    if s != [] && s[0].id != id {
      RemoveMembers(s[1..], id);
    }
  }

  lemma HeadIsUnique(s: seq<Receipt>)
    requires Distinct(s) && s != []
    ensures Distinct(s[1..]) && forall r :: r in s[1..] ==> r.id != s[0].id
  {
  }

  lemma DistinctCons(r: Receipt, s: seq<Receipt>)
    requires Distinct(s) && forall x :: x in s ==> x.id != r.id
    ensures Distinct([r] + s)
  {
  }

  lemma {:induction false} RemoveDistinct(s: seq<Receipt>, id: string)
    requires Distinct(s)
    ensures Distinct(Remove(s, id)) && !IdIn(Remove(s, id), id)
  {
    if s != [] {
      HeadIsUnique(s);
      if s[0].id == id {
        assert forall i :: 0 <= i < |s[1..]| ==> s[1..][i] in s[1..];
      } else {
        RemoveDistinct(s[1..], id);
        RemoveMembers(s[1..], id);
        DistinctCons(s[0], Remove(s[1..], id));
        var t := [s[0]] + Remove(s[1..], id);
        assert forall i :: 1 <= i < |t| ==> t[i] == Remove(s[1..], id)[i - 1];
      }
    }
  }

  lemma SortedCons(r: Receipt, s: seq<Receipt>)
    requires Sorted(s) && forall x :: x in s ==> r.expiresAt <= x.expiresAt
    ensures Sorted([r] + s)
  {
  }

  lemma {:induction false} RemoveSorted(s: seq<Receipt>, id: string)
    requires Sorted(s)
    ensures Sorted(Remove(s, id))
  {
    if s != [] && s[0].id != id {
      RemoveSorted(s[1..], id);
      RemoveMembers(s[1..], id);
      SortedCons(s[0], Remove(s[1..], id));
    }
  }

  /** What removing one id leaves. */
  lemma RemoveFacts(s: seq<Receipt>, id: string)
    requires Distinct(s)
    ensures Distinct(Remove(s, id)) && !IdIn(Remove(s, id), id)
    ensures forall r :: r in Remove(s, id) ==> r in s
    ensures |s| - 1 <= |Remove(s, id)| <= |s|
    ensures Sorted(s) ==> Sorted(Remove(s, id))
  {
    RemoveDistinct(s, id);
    RemoveMembers(s, id);
    if Sorted(s) {
      RemoveSorted(s, id);
    }
  }

  lemma {:induction false} LiveIsSuffix(s: seq<Receipt>, now: int)
    requires Sorted(s)
    ensures |Live(s, now)| <= |s| && Live(s, now) == s[|s| - |Live(s, now)|..]
    ensures Swept(s, now) == Live(s, now)
  {
    if s != [] {
      LiveIsSuffix(s[1..], now);
      if s[0].expiresAt > now {
        AllLive(s[1..], now);
        assert s == [s[0]] + s[1..];
      }
    }
  }

  lemma {:induction false} AllLive(s: seq<Receipt>, now: int)
    requires forall i :: 0 <= i < |s| ==> s[i].expiresAt > now
    ensures Live(s, now) == s
  {
    if s != [] {
      AllLive(s[1..], now);
    }
  }

  lemma {:induction false} NoneLive(s: seq<Receipt>, now: int)
    requires forall i :: 0 <= i < |s| ==> s[i].expiresAt <= now
    ensures Live(s, now) == []
  {
    if s != [] {
      NoneLive(s[1..], now);
    }
  }

  lemma {:induction false} LiveAppends(s: seq<Receipt>, r: Receipt, now: int)
    ensures Live(s + [r], now) == if r.expiresAt > now then Live(s, now) + [r] else Live(s, now)
  {
    if s == [] {
      assert s + [r] == [r];
    } else {
      assert (s + [r])[1..] == s[1..] + [r];
      LiveAppends(s[1..], r, now);
    }
  }

  lemma {:induction false} LiveLater(s: seq<Receipt>, now: int, later: int)
    requires now <= later
    ensures Live(Live(s, now), later) == Live(s, later)
  {
    if s != [] {
      LiveLater(s[1..], now, later);
    }
  }

  lemma {:induction false} LiveRemove(s: seq<Receipt>, id: string, now: int)
    requires Distinct(s)
    ensures Live(Remove(s, id), now) == Remove(Live(s, now), id)
  {
    if s != [] {
      if s[0].id == id {
        LiveMembers(s[1..], now);
        assert forall i :: 0 <= i < |s[1..]| ==> s[1..][i] == s[i + 1];
        RemoveAbsent(Live(s[1..], now), id);
      } else {
        LiveRemove(s[1..], id, now);
      }
    }
  }

  lemma {:induction false} LiveMembers(s: seq<Receipt>, now: int)
    ensures forall i :: 0 <= i < |Live(s, now)| ==> Live(s, now)[i] in s
  {
    if s != [] {
      LiveMembers(s[1..], now);
    }
  }

  lemma {:induction false} RemoveAbsent(s: seq<Receipt>, id: string)
    requires !IdIn(s, id)
    ensures Remove(s, id) == s
  {
    if s != [] {
      assert s[0].id != id;
      forall i | 0 <= i < |s[1..]|
        ensures s[1..][i].id != id
      {
        assert s[i + 1].id != id;
      }
      RemoveAbsent(s[1..], id);
    }
  }

  lemma AllLiveAfterFirst(s: seq<Receipt>, now: int)
    requires Sorted(s) && s != [] && s[0].expiresAt > now
    ensures Live(s, now) == s && Live(s[1..], now) == s[1..]
  {
    AllLive(s[1..], now);
    AllLive(s, now);
  }

  lemma {:induction false} LiveIsNoLonger(s: seq<Receipt>, now: int)
    ensures |Live(s, now)| <= |s|
  {
    if s != [] {
      LiveIsNoLonger(s[1..], now);
    }
  }

  lemma SortedTail(s: seq<Receipt>)
    requires Sorted(s) && s != []
    ensures Sorted(s[1..])
  {
  }

  /** Taking the newest commutes with dropping the expired, which are the oldest. */
  lemma {:induction false} LiveNewest(s: seq<Receipt>, max: int, now: int)
    requires Sorted(s)
    ensures Live(Newest(s, max), now) == Newest(Live(s, now), max)
    decreases |s|
  {
    LiveIsNoLonger(s, now);
    if |s| > max > 0 {
      SortedTail(s);
      LiveNewest(s[1..], max, now);
      assert Newest(s, max) == Newest(s[1..], max);
      if s[0].expiresAt > now {
        AllLiveAfterFirst(s, now);
      }
    }
  }

  /** In a sorted list exactly the last |Live| entries are live. */
  lemma {:induction false} LiveIsTail(s: seq<Receipt>, now: int)
    requires Sorted(s)
    ensures |Live(s, now)| <= |s|
    ensures forall i :: 0 <= i < |s| ==> (s[i].expiresAt > now <==> i >= |s| - |Live(s, now)|)
  {
    if s != [] {
      LiveIsTail(s[1..], now);
      assert forall i :: 0 <= i < |s[1..]| ==> s[1..][i] == s[i + 1];
      if s[0].expiresAt > now {
        AllLive(s[1..], now);
      }
      forall i | 0 <= i < |s|
        ensures s[i].expiresAt > now <==> i >= |s| - |Live(s, now)|
      {
        if i > 0 {
          assert s[i] == s[1..][i - 1];
        }
      }
    }
  }

  lemma NewestDropsOld(r: Receipt, s: seq<Receipt>, max: int)
    requires |s| >= max
    ensures Newest([r] + s, max) == Newest(s, max)
  {
  }

  lemma HeadIdIsAbsent(s: seq<Receipt>)
    requires Distinct(s) && s != []
    ensures Remove(s[1..], s[0].id) == s[1..]
  {
    HeadIsUnique(s);
    assert forall i :: 0 <= i < |s[1..]| ==> s[1..][i] in s[1..];
    RemoveAbsent(s[1..], s[0].id);
  }

  /** Dropping all but the newest before a removal loses nothing the newest one fewer would keep. */
  lemma {:induction false} NewestRemove(s: seq<Receipt>, id: string, max: int)
    requires Distinct(s) && max > 0
    ensures Newest(Remove(Newest(s, max), id), max - 1) == Newest(Remove(s, id), max - 1)
    decreases |s|
  {
    if |s| > max {
      var rest := s[1..];
      assert Distinct(rest);
      NewestRemove(rest, id, max);
      NewestDropsOld(s[0], rest, max);
      assert s == [s[0]] + rest;
      if s[0].id == id {
        HeadIdIsAbsent(s);
      } else {
        RemoveMembers(rest, id);
        NewestDropsOld(s[0], Remove(rest, id), max - 1);
      }
    }
  }

  lemma NewestAppend(s: seq<Receipt>, r: Receipt, max: int)
    requires max > 0
    ensures Newest(s + [r], max) == Newest(s, max - 1) + [r]
  {
  }

  // ----- The invariant

  predicate Tidy(s: seq<Receipt>, latest: int) {
    Distinct(s) && Sorted(s) && forall i :: 0 <= i < |s| ==> s[i].expiresAt <= latest
  }

  /** From now on, what is live in the store is the newest of what is live in the unbounded one. */
  ghost predicate Refines(w: World, max: int, ttl: int) {
    && Tidy(w.entries, w.clock + ttl)
    && Tidy(Unbounded(w.recorded), w.clock + ttl)
    && forall t :: w.clock <= t ==> Live(w.entries, t) == Newest(Live(Unbounded(w.recorded), t), max)
  }

  lemma TidyReplace(s: seq<Receipt>, r: Receipt, latest: int)
    requires Tidy(s, latest) && latest <= r.expiresAt
    ensures Tidy(Remove(s, r.id) + [r], r.expiresAt)
  {
    RemoveFacts(s, r.id);
    var t := Remove(s, r.id);
    forall i | 0 <= i < |t|
      ensures t[i].expiresAt <= latest
    {
      assert t[i] in s;
    }
  }

  lemma TidyTail(s: seq<Receipt>, k: nat, latest: int)
    requires Tidy(s, latest) && k <= |s|
    ensures Tidy(s[k..], latest)
  {
  }

  lemma RecordingRefines(w: World, max: int, ttl: int, e: Event)
    requires Refines(w, max, ttl) && Possible(w, e) && e.Recorded?
    ensures Refines(Next(w, max, ttl, e), max, ttl)
  {
    var w' := Next(w, max, ttl, e);
    RecordingStaysTidy(w, max, ttl, e);
    forall t | e.now <= t
      ensures Live(w'.entries, t) == Newest(Live(Unbounded(w'.recorded), t), max)
    {
      assert Live(w.entries, t) == Newest(Live(Unbounded(w.recorded), t), max);
      RecordingRefinesAt(w, max, ttl, e, t);
    }
  }

  lemma RecordedLast(w: World, max: int, ttl: int, e: Event)
    requires e.Recorded?
    ensures var r := Receipt(e.id, e.binding, e.at, e.base + ttl);
            Unbounded(Next(w, max, ttl, e).recorded) == Remove(Unbounded(w.recorded), r.id) + [r]
  {
    var r := Receipt(e.id, e.binding, e.at, e.base + ttl);
    assert (w.recorded + [r])[..|w.recorded|] == w.recorded;
  }

  lemma SweptTidy(s: seq<Receipt>, now: int, latest: int)
    requires Tidy(s, latest)
    ensures Tidy(Swept(s, now), latest) && Swept(s, now) == Live(s, now)
  {
    LiveIsSuffix(s, now);
    TidyTail(s, |s| - |Swept(s, now)|, latest);
  }

  lemma PutTidy(s: seq<Receipt>, r: Receipt, max: int, now: int, latest: int)
    requires Tidy(s, latest) && latest <= r.expiresAt
    ensures Tidy(PutTx(s, r, max, now), r.expiresAt)
  {
    SweptTidy(s, now, latest);
    TidyReplace(Swept(s, now), r, latest);
    var kept := Remove(Swept(s, now), r.id) + [r];
    TidyTail(kept, |kept| - |Newest(kept, max)|, r.expiresAt);
  }

  lemma RecordingStaysTidy(w: World, max: int, ttl: int, e: Event)
    requires Refines(w, max, ttl) && Possible(w, e) && e.Recorded?
    ensures var w' := Next(w, max, ttl, e);
            Tidy(w'.entries, w'.clock + ttl) && Tidy(Unbounded(w'.recorded), w'.clock + ttl)
  {
    var r := Receipt(e.id, e.binding, e.at, e.base + ttl);
    var w' := Next(w, max, ttl, e);
    PutTidy(w.entries, r, max, e.now, w.clock + ttl);
    TidyReplace(Unbounded(w.recorded), r, w.clock + ttl);
    RecordedLast(w, max, ttl, e);
    TidyLater(w'.entries, r.expiresAt, e.now + ttl);
    TidyLater(Unbounded(w'.recorded), r.expiresAt, e.now + ttl);
  }

  lemma RecordingRefinesAt(w: World, max: int, ttl: int, e: Event, t: int)
    requires Tidy(w.entries, w.clock + ttl) && Tidy(Unbounded(w.recorded), w.clock + ttl)
    requires Live(w.entries, t) == Newest(Live(Unbounded(w.recorded), t), max)
    requires Possible(w, e) && e.Recorded? && e.now <= t
    ensures var w' := Next(w, max, ttl, e);
            Live(w'.entries, t) == Newest(Live(Unbounded(w'.recorded), t), max)
  {
    var r := Receipt(e.id, e.binding, e.at, e.base + ttl);
    RecordedLast(w, max, ttl, e);
    PutRefinesAt(w.entries, Unbounded(w.recorded), r, max, w.clock + ttl, e.now, t);
  }

  lemma PutRefinesAt(entries: seq<Receipt>, whole: seq<Receipt>, r: Receipt, max: int, latest: int, now: int, t: int)
    requires Tidy(entries, latest) && Tidy(whole, latest) && latest <= r.expiresAt && now <= t
    requires Live(entries, t) == Newest(Live(whole, t), max)
    ensures Live(PutTx(entries, r, max, now), t) == Newest(Live(Remove(whole, r.id) + [r], t), max)
  {
    SweptTidy(entries, now, latest);
    LiveLater(entries, now, t);
    TidyLater(Swept(entries, now), latest, r.expiresAt);
    TidyLater(whole, latest, r.expiresAt);
    PutRefines(Swept(entries, now), whole, r, max, t);
  }

  lemma TidyLater(s: seq<Receipt>, latest: int, later: int)
    requires Tidy(s, latest) && latest <= later
    ensures Tidy(s, later)
  {
  }

  lemma PutRefines(swept: seq<Receipt>, whole: seq<Receipt>, r: Receipt, max: int, t: int)
    requires Tidy(swept, r.expiresAt) && Tidy(whole, r.expiresAt)
    requires Live(swept, t) == Newest(Live(whole, t), max)
    ensures Live(Newest(Remove(swept, r.id) + [r], max), t) == Newest(Live(Remove(whole, r.id) + [r], t), max)
  {
    TidyReplace(swept, r, r.expiresAt);
    TidyReplace(whole, r, r.expiresAt);
    LiveNewest(Remove(swept, r.id) + [r], max, t);
    LiveAppends(Remove(swept, r.id), r, t);
    LiveAppends(Remove(whole, r.id), r, t);
    LiveRemove(swept, r.id, t);
    LiveRemove(whole, r.id, t);
    if r.expiresAt <= t {
      NoneLive(swept, t);
      NoneLive(whole, t);
    } else if max > 0 {
      NewestAppend(Remove(Live(swept, t), r.id), r, max);
      NewestAppend(Remove(Live(whole, t), r.id), r, max);
      LiveDistinct(whole, t);
      NewestRemove(Live(whole, t), r.id, max);
    }
  }

  lemma LiveDistinct(s: seq<Receipt>, now: int)
    requires Distinct(s) && Sorted(s)
    ensures Distinct(Live(s, now))
  {
    LiveIsSuffix(s, now);
  }

  lemma FetchingRefines(w: World, max: int, ttl: int, e: Event)
    requires Refines(w, max, ttl) && Possible(w, e) && e.Fetched?
    ensures Refines(Next(w, max, ttl, e), max, ttl)
  {
    var w' := Next(w, max, ttl, e);
    var found := Find(w.entries, e.id);
    if found.Some? && found.value.expiresAt <= e.now {
      RemoveFacts(w.entries, e.id);
      forall i | 0 <= i < |w'.entries|
        ensures w'.entries[i].expiresAt <= e.now + ttl
      {
        assert w'.entries[i] in w.entries;
      }
      forall t | e.now <= t
        ensures Live(w'.entries, t) == Live(w.entries, t)
      {
        RemoveExpired(w.entries, e.id, t);
      }
    }
  }

  lemma {:induction false} RemoveExpired(s: seq<Receipt>, id: string, t: int)
    requires Find(s, id).Some? && Find(s, id).value.expiresAt <= t
    ensures Live(Remove(s, id), t) == Live(s, t)
  {
    if s[0].id != id {
      RemoveExpired(s[1..], id, t);
    }
  }

  lemma {:induction false} RunRefines(w: World, max: int, ttl: int, events: seq<Event>)
    requires Refines(w, max, ttl) && PossibleRun(w, max, ttl, events)
    ensures Refines(Run(w, max, ttl, events), max, ttl)
    decreases |events|
  {
    if events != [] {
      if events[0].Recorded? {
        RecordingRefines(w, max, ttl, events[0]);
      } else {
        FetchingRefines(w, max, ttl, events[0]);
      }
      RunRefines(Next(w, max, ttl, events[0]), max, ttl, events[1..]);
    }
  }

  // ----- What a fetch finds

  lemma {:induction false} FindInDistinct(s: seq<Receipt>, k: nat)
    requires Distinct(s) && k < |s|
    ensures Find(s, s[k].id) == Some(s[k])
  {
    if k > 0 {
      FindInDistinct(s[1..], k - 1);
    }
  }

  lemma {:induction false} FindSound(s: seq<Receipt>, id: string)
    ensures Find(s, id).Some? ==> Find(s, id).value in s && Find(s, id).value.id == id
  {
    if s != [] {
      FindSound(s[1..], id);
    }
  }

  /** Expired entries aside, finding in the store is finding among its live entries. */
  lemma {:induction false} FindLive(s: seq<Receipt>, id: string, now: int)
    requires Distinct(s)
    ensures Find(Live(s, now), id)
         == if Find(s, id).Some? && Find(s, id).value.expiresAt > now then Find(s, id) else None
  {
    if s != [] {
      FindLive(s[1..], id, now);
      if s[0].id == id && s[0].expiresAt <= now {
        FindSound(Live(s[1..], now), id);
        LiveMembers(s[1..], now);
        forall i | 0 <= i < |s[1..]|
          ensures s[1..][i].id != id
        {
          assert s[1..][i] == s[i + 1];
        }
      }
    }
  }

  /** Where an id's latest record stands in the unbounded store: behind it, the ids recorded after. */
  lemma {:induction false} PlaceInUnbounded(recorded: seq<Receipt>, id: string) returns (k: nat)
    requires Distinct(Unbounded(recorded)) && LatestUnder(recorded, id).Some?
    ensures k < |Unbounded(recorded)| && Unbounded(recorded)[k] == LatestUnder(recorded, id).value
    ensures Unbounded(recorded)[k].id == id
    ensures |Unbounded(recorded)| - 1 - k == |IdsAfterLatest(recorded, id)|
    ensures forall x :: x in IdsAfterLatest(recorded, id) <==> IdIn(Unbounded(recorded)[k + 1..], x)
  {
    var n := |recorded| - 1;
    var last, before := recorded[n], Unbounded(recorded[..n]);
    var whole := Unbounded(recorded);
    UnboundedDistinct(recorded[..n]);
    if last.id == id {
      k := |whole| - 1;
      assert whole[k + 1..] == [];
    } else {
      var j := PlaceInUnbounded(recorded[..n], id);
      k := PlaceAfterReplace(before, last, j);
      var after, rest := before[j + 1..], whole[k + 1..];
      forall x
        ensures x in IdsAfterLatest(recorded, id) <==> IdIn(rest, x)
      {
        assert x in IdsAfterLatest(recorded[..n], id) <==> IdIn(after, x);
      }
      IdsCount(rest, IdsAfterLatest(recorded, id));
    }
  }

  lemma {:induction false} UnboundedDistinct(recorded: seq<Receipt>)
    ensures Distinct(Unbounded(recorded))
  {
    if recorded != [] {
      UnboundedDistinct(recorded[..|recorded| - 1]);
      var id := recorded[|recorded| - 1].id;
      RemoveFacts(Unbounded(recorded[..|recorded| - 1]), id);
    }
  }

  /** Replacing another id's entry keeps this one, with the same ids behind it and the new one last. */
  lemma {:induction false} PlaceAfterReplace(s: seq<Receipt>, r: Receipt, j: nat) returns (k: nat)
    requires Distinct(s) && j < |s| && s[j].id != r.id
    ensures var t := Remove(s, r.id) + [r];
            && k < |t| && t[k] == s[j]
            && var after, behind := s[j + 1..], t[k + 1..];
            forall x :: IdIn(behind, x) <==> x == r.id || IdIn(after, x)
    decreases |s|
  {
    var t := Remove(s, r.id) + [r];
    if s[0].id == r.id {
      k := j - 1;
      assert t == s[1..] + [r];
      assert t[k + 1..] == s[j + 1..] + [r];
      IdInAppend(s[j + 1..], r);
    } else if j == 0 {
      k := 0;
      assert t[1..] == Remove(s[1..], r.id) + [r];
      IdInAppend(Remove(s[1..], r.id), r);
      RemoveIds(s[1..], r.id);
    } else {
      k := PlaceAfterReplace(s[1..], r, j - 1);
      assert t[1..] == Remove(s[1..], r.id) + [r];
      assert t[k + 2..] == t[1..][k + 1..] && s[1..][j..] == s[j + 1..];
      k := k + 1;
    }
  }

  lemma IdInAppend(s: seq<Receipt>, r: Receipt)
    ensures forall x :: IdIn(s + [r], x) <==> x == r.id || IdIn(s, x)
  {
    forall x
      ensures IdIn(s + [r], x) <==> x == r.id || IdIn(s, x)
    {
      if IdIn(s, x) {
        var i :| 0 <= i < |s| && s[i].id == x;
        assert (s + [r])[i].id == x;
      }
      if x == r.id {
        assert (s + [r])[|s|].id == x;
      }
    }
  }

  lemma {:induction false} RemoveIds(s: seq<Receipt>, id: string)
    requires Distinct(s)
    ensures forall x :: x != id ==> (IdIn(Remove(s, id), x) <==> IdIn(s, x))
    ensures !IdIn(Remove(s, id), id)
  {
    if s != [] {
      RemoveFacts(s, id);
      RemoveIds(s[1..], id);
      IdInCons(s);
      if s[0].id != id {
        IdInCons([s[0]] + Remove(s[1..], id));
        assert ([s[0]] + Remove(s[1..], id))[1..] == Remove(s[1..], id);
      }
    }
  }

  lemma IdInCons(s: seq<Receipt>)
    requires s != []
    ensures forall x :: IdIn(s, x) <==> x == s[0].id || IdIn(s[1..], x)
  {
    forall x
      ensures IdIn(s, x) <==> x == s[0].id || IdIn(s[1..], x)
    {
      if IdIn(s[1..], x) {
        var i :| 0 <= i < |s[1..]| && s[1..][i].id == x;
        assert s[i + 1].id == x;
      }
      if IdIn(s, x) && x != s[0].id {
        var i :| 0 <= i < |s| && s[i].id == x;
        assert s[1..][i - 1].id == x;
      }
    }
  }

  lemma {:induction false} IdsCount(s: seq<Receipt>, ids: set<string>)
    requires Distinct(s) && forall x :: x in ids <==> IdIn(s, x)
    ensures |ids| == |s|
  {
    if s == [] {
      assert ids == {};
    } else {
      IdInCons(s);
      assert s[0].id in ids;
      assert !IdIn(s[1..], s[0].id);
      IdsCount(s[1..], ids - {s[0].id});
    }
  }

  /** An id nobody recorded is nowhere. */
  lemma {:induction false} UnrecordedIsAbsent(recorded: seq<Receipt>, id: string)
    requires LatestUnder(recorded, id).None?
    ensures !IdIn(Unbounded(recorded), id)
  {
    if recorded != [] {
      var n := |recorded| - 1;
      UnrecordedIsAbsent(recorded[..n], id);
      UnboundedDistinct(recorded[..n]);
      RemoveIds(Unbounded(recorded[..n]), recorded[n].id);
      IdInAppend(Remove(Unbounded(recorded[..n]), recorded[n].id), recorded[n]);
    }
  }

  /** In every reachable state the entries are ordered by expiry, so the sweep removes exactly the expired ones. */
  lemma SweepRemovesExactlyTheExpired(max: int, ttl: int, events: seq<Event>, now: int)
    requires PossibleRun(World([], 0, []), max, ttl, events)
    ensures var w := Run(World([], 0, []), max, ttl, events);
            && Sorted(w.entries) && Distinct(w.entries)
            && Swept(w.entries, now) == Live(w.entries, now)
  {
    RunRefines(World([], 0, []), max, ttl, events);
    LiveIsSuffix(Run(World([], 0, []), max, ttl, events).entries, now);
  }

  /**
   * In every reachable state a fetch returns the latest binding recorded under
   * the id exactly when that binding is unexpired and fewer than `max` distinct
   * ids were recorded after it.
   */
  lemma FetchFindsTheLatestBinding(max: int, ttl: int, events: seq<Event>, id: string, now: int)
    requires PossibleRun(World([], 0, []), max, ttl, events)
    requires Run(World([], 0, []), max, ttl, events).clock <= now
    ensures var w := Run(World([], 0, []), max, ttl, events);
            var latest := LatestUnder(w.recorded, id);
            GetTx(w.entries, id, now).1
            == if && latest.Some?
                  && latest.value.expiresAt > now
                  && |IdsAfterLatest(w.recorded, id)| < max
               then latest else None
  {
    RunRefines(World([], 0, []), max, ttl, events);
    var w := Run(World([], 0, []), max, ttl, events);
    assert Live(w.entries, now) == Newest(Live(Unbounded(w.recorded), now), max);
    FindLive(w.entries, id, now);
    FoundAmongNewest(w.recorded, max, id, now);
  }

  lemma FoundAmongNewest(recorded: seq<Receipt>, max: int, id: string, now: int)
    requires Distinct(Unbounded(recorded)) && Sorted(Unbounded(recorded))
    ensures var latest := LatestUnder(recorded, id);
            Find(Newest(Live(Unbounded(recorded), now), max), id)
            == if && latest.Some?
                  && latest.value.expiresAt > now
                  && |IdsAfterLatest(recorded, id)| < max
               then latest else None
  {
    var whole := Unbounded(recorded);
    if LatestUnder(recorded, id).None? {
      UnrecordedIsAbsent(recorded, id);
      FindSound(Newest(Live(whole, now), max), id);
      LiveMembers(whole, now);
    } else {
      var k := PlaceInUnbounded(recorded, id);
      NewestHolds(whole, k, max, now);
    }
  }

  /** The k-th entry survives exactly when it is live and fewer than `max` entries stand behind it. */
  lemma NewestHolds(s: seq<Receipt>, k: nat, max: int, now: int)
    requires Distinct(s) && Sorted(s) && k < |s|
    ensures Find(Newest(Live(s, now), max), s[k].id)
         == if s[k].expiresAt > now && |s| - 1 - k < max then Some(s[k]) else None
  {
    LiveIsTail(s, now);
    LiveIsSuffix(s, now);
    var live := |Live(s, now)|;
    var n := if max <= 0 then 0 else if live <= max then live else max;
    assert Newest(Live(s, now), max) == s[|s| - n..];
    FindInTail(s, n, k);
  }

  lemma FindInTail(s: seq<Receipt>, n: nat, k: nat)
    requires Distinct(s) && n <= |s| && k < |s|
    ensures Find(s[|s| - n..], s[k].id) == if k >= |s| - n then Some(s[k]) else None
  {
    var kept := s[|s| - n..];
    if k >= |s| - n {
      FindInDistinct(kept, k - (|s| - n));
    } else {
      FindSound(kept, s[k].id);
      assert forall i :: 0 <= i < |kept| ==> kept[i] == s[|s| - n + i];
    }
  }

  // ----- A fetch in terms of the calls made

  predicate Records(e: Event, id: string) {
    e.Recorded? && e.id == id
  }

  /** The ids of the records made from the k-th event on. */
  function IdsFrom(events: seq<Event>, k: nat): set<string> {
    set i | k <= i < |events| && events[i].Recorded? :: events[i].id
  }

  function ReceiptOf(e: Event, ttl: int): Receipt
    requires e.Recorded?
  {
    Receipt(e.id, e.binding, e.at, e.base + ttl)
  }

  lemma {:induction false} RunAppends(w: World, max: int, ttl: int, events: seq<Event>, e: Event)
    ensures Run(w, max, ttl, events + [e]) == Next(Run(w, max, ttl, events), max, ttl, e)
    decreases |events|
  {
    if events == [] {
      assert [] + [e] == [e] && [e][1..] == [];
      assert Run(Next(w, max, ttl, e), max, ttl, []) == Next(w, max, ttl, e);
    } else {
      assert (events + [e])[1..] == events[1..] + [e];
      RunAppends(Next(w, max, ttl, events[0]), max, ttl, events[1..], e);
    }
  }

  /** The latest record under an id, and the ids recorded after it, read off the calls. */
  lemma {:induction false} LatestCall(max: int, ttl: int, events: seq<Event>, k: nat, id: string)
    requires k < |events| && Records(events[k], id)
    requires forall i :: k < i < |events| ==> !Records(events[i], id)
    ensures var recorded := Run(World([], 0, []), max, ttl, events).recorded;
            && LatestUnder(recorded, id) == Some(ReceiptOf(events[k], ttl))
            && IdsAfterLatest(recorded, id) == IdsFrom(events, k + 1)
    decreases |events|
  {
    var n := |events| - 1;
    var before, w := events[..n], Run(World([], 0, []), max, ttl, events[..n]);
    assert events == before + [events[n]];
    RunAppends(World([], 0, []), max, ttl, before, events[n]);
    if events[n].Recorded? {
      assert (w.recorded + [ReceiptOf(events[n], ttl)])[..|w.recorded|] == w.recorded;
    }
    if k < n {
      LatestCall(max, ttl, before, k, id);
      assert IdsFrom(events, k + 1)
          == IdsFrom(before, k + 1) + if events[n].Recorded? then {events[n].id} else {};
    }
  }

  lemma {:induction false} NeverRecorded(max: int, ttl: int, events: seq<Event>, id: string)
    requires forall e :: e in events ==> !Records(e, id)
    ensures LatestUnder(Run(World([], 0, []), max, ttl, events).recorded, id) == None
    decreases |events|
  {
    if events != [] {
      var n := |events| - 1;
      var w := Run(World([], 0, []), max, ttl, events[..n]);
      assert events == events[..n] + [events[n]];
      assert !Records(events[n], id);
      RunAppends(World([], 0, []), max, ttl, events[..n], events[n]);
      NeverRecorded(max, ttl, events[..n], id);
      if events[n].Recorded? {
        assert (w.recorded + [ReceiptOf(events[n], ttl)])[..|w.recorded|] == w.recorded;
      }
    }
  }

  /**
   * The binding of the last record made under an id is found until `ttl` after that record's
   * clock reading, not then or later, and only while fewer than `max` other ids were recorded since.
   */
  lemma RecordedBindingIsFetched(max: int, ttl: int, events: seq<Event>, k: nat, id: string, now: int)
    requires PossibleRun(World([], 0, []), max, ttl, events)
    requires Run(World([], 0, []), max, ttl, events).clock <= now
    requires k < |events| && Records(events[k], id)
    requires forall i :: k < i < |events| ==> !Records(events[i], id)
    ensures var found := GetTx(Run(World([], 0, []), max, ttl, events).entries, id, now).1;
      && (found.Some? <==> now < events[k].base + ttl && |IdsFrom(events, k + 1)| < max)
      && (found.Some? ==> found.value.id == id && found.value.binding == events[k].binding
                          && found.value.recordedAt == events[k].at)
  {
    LatestCall(max, ttl, events, k, id);
    FetchFindsTheLatestBinding(max, ttl, events, id, now);
  }

  /** An id under which nothing was recorded finds nothing. */
  lemma UnknownIdFindsNothing(max: int, ttl: int, events: seq<Event>, id: string, now: int)
    requires PossibleRun(World([], 0, []), max, ttl, events)
    requires Run(World([], 0, []), max, ttl, events).clock <= now
    requires forall e :: e in events ==> !Records(e, id)
    ensures GetTx(Run(World([], 0, []), max, ttl, events).entries, id, now).1 == None
  {
    NeverRecorded(max, ttl, events, id);
    FetchFindsTheLatestBinding(max, ttl, events, id, now);
  }

  /** A record leaves at most `max` entries, and nothing that was expired at its sweep but itself. */
  lemma RecordLeaves(s: seq<Receipt>, r: Receipt, max: int, now: int)
    requires Sorted(s) && Distinct(s)
    ensures |PutTx(s, r, max, now)| <= if max > 0 then max else 0
    ensures forall x :: x in PutTx(s, r, max, now) ==> x == r || (x.expiresAt > now && x.id != r.id && x in s)
  {
    LiveIsSuffix(s, now);
    LiveAreLive(s, now);
    LiveMembers(s, now);
    LiveDistinct(s, now);
    RemoveFacts(Live(s, now), r.id);
    AbsentMembers(Remove(Live(s, now), r.id), r.id);
  }

  lemma AbsentMembers(s: seq<Receipt>, id: string)
    requires !IdIn(s, id)
    ensures forall r :: r in s ==> r.id != id
  {
  }

  lemma {:induction false} LiveAreLive(s: seq<Receipt>, now: int)
    ensures forall r :: r in Live(s, now) ==> r.expiresAt > now
  {
    if s != [] {
      LiveAreLive(s[1..], now);
    }
  }

  /** A fetch drops nothing but an expired entry under its id, and drops that. */
  lemma FetchLeaves(s: seq<Receipt>, id: string, now: int)
    requires Distinct(s)
    ensures forall x :: x in GetTx(s, id, now).0 <==> x in s && (x.id == id ==> x.expiresAt > now)
  {
    RemoveFacts(s, id);
    AbsentMembers(Remove(s, id), id);
    forall x | x in s
      ensures x.id == id ==> Find(s, id) == Some(x)
      ensures x.id != id ==> x in Remove(s, id)
    {
      var i :| 0 <= i < |s| && s[i] == x;
      FindInDistinct(s, i);
      if x.id != id {
        OthersStay(s, id, i);
      }
    }
  }

  lemma {:induction false} OthersStay(s: seq<Receipt>, id: string, i: nat)
    requires i < |s| && s[i].id != id
    ensures s[i] in Remove(s, id)
  {
    if s[0].id == id {
      assert s[i] == s[1..][i - 1];
    } else if i > 0 {
      OthersStay(s[1..], id, i - 1);
    }
  }

  /** In every reachable state, what a record and a fetch leave in memory. */
  lemma StoreStaysSmall(max: int, ttl: int, events: seq<Event>, e: Event)
    requires PossibleRun(World([], 0, []), max, ttl, events)
    ensures var s := Run(World([], 0, []), max, ttl, events).entries;
            var left := Next(Run(World([], 0, []), max, ttl, events), max, ttl, e).entries;
      && (e.Recorded? ==> |left| <= if max > 0 then max else 0)
      && (e.Recorded? ==> forall x :: x in left ==> x == ReceiptOf(e, ttl) || x.expiresAt > e.now)
      && (e.Fetched? ==> forall x :: x in left <==> x in s && (x.id == e.id ==> x.expiresAt > e.now))
  {
    var s := Run(World([], 0, []), max, ttl, events).entries;
    RunRefines(World([], 0, []), max, ttl, events);
    if e.Recorded? {
      RecordLeaves(s, ReceiptOf(e, ttl), max, e.now);
    } else {
      FetchLeaves(s, e.id, e.now);
    }
  }
}
