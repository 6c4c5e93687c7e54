/** The replay of a measured event log (src/gateway/eventLog.ts). */
module GatewayEventLog {
  import opened Wrappers
  import opened Json
  import opened Text
  import opened GatewayHost

  type Number = j: Json | j.JInt? || j.JFraction? witness JInt(0)

  /** One measured event. Its `version` decides nothing, and is not kept. */
  datatype Entry = Entry(
    imr: int, eventType: Number, digest: string, event: string, payload: string, preimage: Option<string>)

  const RTMR_COUNT: nat := 4
  const DIGEST_BYTES: nat := 48
  const MAX_EVENTS: nat := 4096

  predicate IsNumber(j: Json) {
    j.JInt? || j.JFraction?
  }

  predicate EntryOk(e: Entry) {
    && 0 <= e.imr < RTMR_COUNT
    && IsHex(e.digest) && |e.digest| % 2 == 0 && |e.digest| <= 2 * DIGEST_BYTES
  }

  // ----- parseEventLog

  function TextOr(field: Option<Json>, fallback: string): string {
    if field.Some? && field.value.JString? then field.value.s else fallback
  }

  function ParseEntry(j: Json): (r: Option<Entry>)
    ensures r.Some? ==> EntryOk(r.value)
  {
    if !j.JObject? then None
    else
      var imr, digest := Member(j.fields, "imr"), Member(j.fields, "digest");
      var kind, preimage := Member(j.fields, "event_type"), Member(j.fields, "preimage");
      if imr.None? || !imr.value.JInt? || !(0 <= imr.value.n < RTMR_COUNT) then None
      else if digest.None? || !digest.value.JString? then None
      else if !IsHex(Lower(digest.value.s)) || |digest.value.s| % 2 != 0 then None
      else if |digest.value.s| > 2 * DIGEST_BYTES then None
      else if preimage.Some? && !preimage.value.JString? then None
      else
        Some(Entry(
          imr.value.n,
          if kind.Some? && IsNumber(kind.value) then kind.value else JInt(-1),
          Lower(digest.value.s),
          TextOr(Member(j.fields, "event"), ""),
          Lower(TextOr(Member(j.fields, "event_payload"), "")),
          if preimage.Some? then Some(Lower(preimage.value.s)) else None))
  }

  function ParseEntries(items: seq<Json>): (r: Option<seq<Entry>>)
    ensures r.Some? ==> |r.value| == |items| && forall i :: 0 <= i < |items| ==> EntryOk(r.value[i])
    ensures r.Some? <==> forall i :: 0 <= i < |items| ==> ParseEntry(items[i]).Some?
  {
    if items == [] then Some([])
    else
      var first, rest := ParseEntry(items[0]), ParseEntries(items[1..]);
      if first.None? || rest.None? then None else Some([first.value] + rest.value)
  }

  function ParseEventLog(h: Host, input: Json): (r: Option<seq<Entry>>)
    ensures r.Some? ==> |r.value| <= MAX_EVENTS && forall i :: 0 <= i < |r.value| ==> EntryOk(r.value[i])
  {
    var raw := if input.JString? then h.json(input.s) else Some(input);
    if raw.None? || !raw.value.JArray? || |raw.value.items| > MAX_EVENTS then None
    else ParseEntries(raw.value.items)
  }

  // ----- Event digests

  /** The integer part of a number of the log that is not negative. */
  function Whole(j: Number): int
  {
    if j.JInt? then j.n else j.x.Floor
  }

  predicate Negative(j: Number)
  {
    if j.JInt? then j.n < 0 else j.x < 0.0
  }

  function LittleEndian32(n: int): (r: seq<Byte>)
    ensures |r| == 4
  {
    [n % 256, n / 256 % 256, n / 256 / 256 % 256, n / 256 / 256 / 256 % 256]
  }

  /** What a V1 event hashes: its type, name and payload, separated by colons. */
  function V1Preimage(h: Host, e: Entry): seq<Byte>
  {
    LittleEndian32(Whole(e.eventType)) + [COLON] + h.utf8(e.event) + [COLON] + FromHex(e.payload)
  }

  /** `computeRtmr3EventDigestV1`. */
  function DigestV1(h: Host, e: Entry): string
  {
    ToHex(h.sha384(V1Preimage(h, e)))
  }

  /** `v2DigestIsSelfConsistent`. */
  predicate V2Consistent(h: Host, e: Entry) {
    && e.preimage.Some?
    && IsHex(e.preimage.value) && |e.preimage.value| % 2 == 0 && e.preimage.value != ""
    && ToHex(h.sha384(FromHex(e.preimage.value))) == e.digest
    && var decoded := h.json(h.text(FromHex(e.preimage.value)));
       && decoded.Some? && decoded.value.JObject?
       && var fields := decoded.value.fields;
          && Member(fields, "name") == Some(JString(e.event))
          && "payload" in fields && fields["payload"].JString?
          && Strip0x(Lower(fields["payload"].s)) == Strip0x(e.payload)
          && (Member(fields, "type").None? || Member(fields, "type") == Some(e.eventType))
  }

  /** `rtmr3EventDigest`: the digest an RTMR3 entry must have, or nothing when it cannot be hashed. */
  function Rtmr3Digest(h: Host, e: Entry): Option<string>
  {
    if !IsHex(e.payload) || |e.payload| % 2 != 0 then None
    else if e.preimage.Some? then (if V2Consistent(h, e) then Some(e.digest) else None)
    else if Negative(e.eventType) then None
    else Some(DigestV1(h, e))
  }

  /** `rtmr3EventDigestIsSelfConsistent`. */
  predicate Consistent(h: Host, e: Entry)
  {
    var derived := Rtmr3Digest(h, e);
    derived.Some? && (e.digest == "" || derived.value == e.digest)
  }

  /** `inconsistentRtmr3Events` finds none. */
  predicate AllConsistent(h: Host, events: seq<Entry>)
  {
    forall i :: 0 <= i < |events| && events[i].imr == 3 ==> Consistent(h, events[i])
  }

  /** The entries of one register, in log order. */
  function OfRegister(events: seq<Entry>, imr: int): (r: seq<Entry>)
    ensures forall e :: e in r ==> e in events && e.imr == imr
  {
    if events == [] then []
    else
      var front, last := OfRegister(events[..|events| - 1], imr), events[|events| - 1];
      if last.imr == imr then front + [last] else front
  }

  function Unhashable(): string {
    ToHex(seq(DIGEST_BYTES, i => 255))
  }

  /** The digest an entry contributes to its register. */
  function Measured(h: Host, e: Entry): string
  {
    if e.imr != 3 then e.digest
    else
      var derived := Rtmr3Digest(h, e);
      if derived.Some? then derived.value else Unhashable()
  }

  function MeasuredAll(h: Host, events: seq<Entry>): seq<string>
  {
    seq(|events|, i requires 0 <= i < |events| => Measured(h, events[i]))
  }

  // ----- Replay

  function Zeros(n: nat): (r: seq<Byte>)
    ensures |r| == n
  {
    seq(n, i => 0)
  }

  function Padded(content: seq<Byte>): (r: seq<Byte>) {
    if |content| < DIGEST_BYTES then content + Zeros(DIGEST_BYTES - |content|) else content
  }

  /** The register after a list of digests: each extends it by hashing the register and the digest. */
  function Replay(h: Host, digests: seq<string>): (r: seq<Byte>) {
    if digests == [] then Zeros(DIGEST_BYTES)
    else h.sha384(Replay(h, digests[..|digests| - 1]) + Padded(FromHex(digests[|digests| - 1])))
  }

  lemma ReplayStep(h: Host, digests: seq<string>, i: nat)
    requires i < |digests|
    ensures Replay(h, digests[..i + 1]) == h.sha384(Replay(h, digests[..i]) + Padded(FromHex(digests[i])))
  {
    assert digests[..i + 1][..i] == digests[..i];
  }

  method ReplayRegister(h: Host, digests: seq<string>) returns (register: string)
    ensures register == ToHex(Replay(h, digests))
  {
    var bytes := Zeros(DIGEST_BYTES);
    var i := 0;
    while i < |digests|
      invariant 0 <= i <= |digests|
      invariant bytes == Replay(h, digests[..i])
    {
      bytes := h.sha384(bytes + Padded(FromHex(digests[i])));
      ReplayStep(h, digests, i);
      i := i + 1;
    }
    assert digests[..i] == digests;
    register := ToHex(bytes);
  }

  /** The value a log gives to one register. */
  function Register(h: Host, events: seq<Entry>, imr: int): string {
    ToHex(Replay(h, MeasuredAll(h, OfRegister(events, imr))))
  }

  method ReplayRtmrs(h: Host, events: seq<Entry>) returns (registers: seq<string>)
    ensures |registers| == RTMR_COUNT
    ensures forall k :: 0 <= k < RTMR_COUNT ==> registers[k] == Register(h, events, k)
  {
    registers := [];
    while |registers| < RTMR_COUNT
      invariant |registers| <= RTMR_COUNT
      invariant forall k :: 0 <= k < |registers| ==> registers[k] == Register(h, events, k)
    {
      var imr := |registers|;
      var own := MeasuredAll(h, OfRegister(events, imr));
      var register := ReplayRegister(h, own);
      assert register == Register(h, events, imr);
      registers := registers + [register];
    }
  }

  // ----- singleEventPayload

  function Matches(events: seq<Entry>, name: string): (r: seq<Entry>)
    ensures forall e :: e in r <==> e in events && e.event == name
  {
    if events == [] then []
    else
      var rest := Matches(events[1..], name);
      assert events == [events[0]] + events[1..];
      if events[0].event == name then [events[0]] + rest else rest
  }

  /** The payload of the one event of a name: `Err` for the thrown error, `None` when there is no such event. */
  function SingleEventPayload(h: Host, events: seq<Entry>, name: string): (r: Result<Option<string>, ()>)
    ensures r.Ok? && r.value.Some? ==>
      exists i :: 0 <= i < |events| && events[i].event == name && events[i].imr == 3 && Consistent(h, events[i])
               && events[i].payload == r.value.value
    ensures r == Ok(None) <==> forall i :: 0 <= i < |events| ==> events[i].event != name
  {
    var found := Matches(events, name);
    if |found| == 0 then
      assert forall i :: 0 <= i < |events| && events[i].event == name ==> events[i] in found;
      Ok(None)
    else if |found| > 1 then
      assert found[0] in events;
      Err(())
    else
      var e := found[0];
      assert e in found;
      if e.imr != 3 || !Consistent(h, e) then Err(()) else Ok(Some(e.payload))
  }

  /** The i-th event is the only one of a name. */
  predicate NamedOnce(events: seq<Entry>, name: string, i: int) {
    && 0 <= i < |events| && events[i].event == name
    && NotNamed(events[..i], name) && NotNamed(events[i + 1..], name)
  }

  predicate NotNamed(events: seq<Entry>, name: string) {
    forall i :: 0 <= i < |events| ==> events[i].event != name
  }

  lemma MatchesNone(events: seq<Entry>, name: string)
    ensures Matches(events, name) == [] <==> NotNamed(events, name)
  {
    if Matches(events, name) != [] {
      assert Matches(events, name)[0] in events;
    }
    assert forall i :: 0 <= i < |events| && events[i].event == name ==> events[i] in Matches(events, name);
  }

  lemma {:induction false} MatchesOne(events: seq<Entry>, name: string)
    ensures |Matches(events, name)| == 1 <==> exists i :: NamedOnce(events, name, i)
  {
    if events != [] {
      var rest := events[1..];
      MatchesOne(rest, name);
      MatchesNone(rest, name);
      if events[0].event == name {
        NamedAtHead(events, name);
      } else {
        NamedInTail(events, name);
      }
    }
  }

  lemma NamedAtHead(events: seq<Entry>, name: string)
    requires events != [] && events[0].event == name
    ensures NotNamed(events[1..], name) <==> exists i :: NamedOnce(events, name, i)
  {
    assert NotNamed(events[1..], name) ==> NamedOnce(events, name, 0);
    forall i | 0 < i <= |events|
      ensures !NotNamed(events[..i], name)
    {
      assert events[..i][0] == events[0];
    }
  }

  lemma NamedInTail(events: seq<Entry>, name: string)
    requires events != [] && events[0].event != name
    ensures (exists i :: NamedOnce(events[1..], name, i)) <==> exists i :: NamedOnce(events, name, i)
  {
    if i :| NamedOnce(events[1..], name, i) {
      assert events[..i + 1] == [events[0]] + events[1..][..i] && events[i + 2..] == events[1..][i + 1..];
      assert NamedOnce(events, name, i + 1);
    }
    if i :| NamedOnce(events, name, i) {
      assert events[1..][..i - 1] == events[..i][1..] && events[1..][i..] == events[i + 1..];
      assert NamedOnce(events[1..], name, i - 1);
    }
  }

  /** A payload is the payload of the only event of its name, in RTMR3 and consistent; two of a name are an error. */
  lemma SingleEventMeans(h: Host, events: seq<Entry>, name: string, payload: string)
    ensures SingleEventPayload(h, events, name) == Ok(Some(payload)) <==>
              exists i :: NamedOnce(events, name, i) && events[i].imr == 3 && Consistent(h, events[i])
                       && events[i].payload == payload
  {
    if i :| NamedOnce(events, name, i) {
      OnlyMatch(events, name, i);
      forall j | NamedOnce(events, name, j)
        ensures events[j] == events[i]
      {
        OnlyMatch(events, name, j);
      }
    } else {
      MatchesOne(events, name);
    }
  }

  lemma OnlyMatch(events: seq<Entry>, name: string, i: int)
    requires NamedOnce(events, name, i)
    ensures Matches(events, name) == [events[i]]
  {
    MatchesOne(events, name);
    assert events[i] in Matches(events, name);
  }

  /** What the digest of a V1 event commits to: type, name and payload, of an event that can be hashed at all. */
  lemma ConsistentV1Means(h: Host, e: Entry)
    requires e.preimage == None
    ensures Consistent(h, e) <==>
      && (forall i :: 0 <= i < |e.payload| ==> IsHexDigit(e.payload[i])) && |e.payload| % 2 == 0
      && (if e.eventType.JInt? then e.eventType.n >= 0 else e.eventType.x >= 0.0)
      && (e.digest == "" || e.digest == ToHex(h.sha384(V1Preimage(h, e))))
  {
  }

  /** The hashed bytes of a V1 event: its type, least significant byte first, then name and payload behind colons. */
  lemma V1PreimageMeans(h: Host, e: Entry, n: int)
    requires e.eventType == JInt(n) && 0 <= n < 0x1_0000_0000
    ensures exists b: seq<Byte> ::
      && |b| == 4 && n == b[0] as int + 256 * b[1] as int + 65536 * b[2] as int + 16777216 * b[3] as int
      && V1Preimage(h, e) == b + [58] + h.utf8(e.event) + [58] + FromHex(e.payload)
  {
    var b := LittleEndian32(n);
    assert V1Preimage(h, e) == b + [58] + h.utf8(e.event) + [58] + FromHex(e.payload);
  }

  /** A consistent V2 event: its digest is that of its preimage, and the preimage names its event and payload. */
  lemma ConsistentV2Means(h: Host, e: Entry)
    requires e.preimage != None && Consistent(h, e)
    ensures e.digest == ToHex(h.sha384(FromHex(e.preimage.value)))
    ensures var decoded := h.json(h.text(FromHex(e.preimage.value)));
      && decoded.Some? && decoded.value.JObject?
      && "name" in decoded.value.fields && decoded.value.fields["name"] == JString(e.event)
      && "payload" in decoded.value.fields && decoded.value.fields["payload"].JString?
      && Spells(decoded.value.fields["payload"].s, e.payload)
      && ("type" in decoded.value.fields ==> decoded.value.fields["type"] == e.eventType)
  {
    LowerOfHex(e.payload);
    StripSpells(h.json(h.text(FromHex(e.preimage.value))).value.fields["payload"].s);
  }

  /** A short digest is padded with zeros behind it. */
  lemma PaddedMeans(content: seq<Byte>)
    requires |content| <= 48
    ensures |Padded(content)| == 48 && Padded(content)[..|content|] == content
    ensures forall i :: |content| <= i < 48 ==> Padded(content)[i] == 0
  {
  }

  /** The replay: 48 zero bytes, then at each digest the hash of the register followed by the digest. */
  lemma ReplayMeans(h: Host, digests: seq<string>, last: string)
    ensures |Replay(h, [])| == 48 && forall i :: 0 <= i < 48 ==> Replay(h, [])[i] == 0
    ensures Replay(h, digests + [last]) == h.sha384(Replay(h, digests) + Padded(FromHex(last)))
  {
    assert (digests + [last])[..|digests|] == digests;
  }

  /** What an entry contributes: below RTMR3 its digest; in RTMR3 the one derived from it, or all ones without one. */
  lemma MeasuredMeans(h: Host, e: Entry)
    ensures e.imr != 3 ==> Measured(h, e) == e.digest
    ensures e.imr == 3 && Rtmr3Digest(h, e).Some? ==>
      Measured(h, e) == if e.preimage.Some? then e.digest else ToHex(h.sha384(V1Preimage(h, e)))
    ensures e.imr == 3 && Rtmr3Digest(h, e).None? ==> Measured(h, e) == ToHex(seq(48, i => 255))
  {
  }

  /** The entries of a register are picked one by one and stand in log order. */
  lemma {:induction false} RegisterKeepsOrder(a: seq<Entry>, b: seq<Entry>, imr: int)
    ensures OfRegister(a + b, imr) == OfRegister(a, imr) + OfRegister(b, imr)
    decreases |b|
  {
    if b == [] {
      assert a + b == a;
    } else {
      var n := |b| - 1;
      assert (a + b)[..|a + b| - 1] == a + b[..n] && (a + b)[|a + b| - 1] == b[n];
      RegisterKeepsOrder(a, b[..n], imr);
    }
  }

  lemma RegisterPicks(e: Entry, imr: int)
    ensures OfRegister([e], imr) == if e.imr == imr then [e] else []
  {
    assert [e][..0] == [];
  }

  /** How one record of the log is read: which are refused, and which field becomes what. */
  lemma ParseEntryMeans(f: map<string, Json>)
    ensures ParseEntry(JObject(f)).Some? <==>
      && "imr" in f && f["imr"].JInt? && 0 <= f["imr"].n < 4
      && "digest" in f && f["digest"].JString? && |f["digest"].s| <= 96 && |f["digest"].s| % 2 == 0
      && IsHex(Lower(f["digest"].s))
      && ("preimage" in f ==> f["preimage"].JString?)
    ensures ParseEntry(JObject(f)).Some? ==>
      var e := ParseEntry(JObject(f)).value;
      && e.imr == f["imr"].n && e.digest == Lower(f["digest"].s)
      && e.event == (if "event" in f && f["event"].JString? then f["event"].s else "")
      && e.payload == (if "event_payload" in f && f["event_payload"].JString? then Lower(f["event_payload"].s) else "")
      && e.eventType == (if "event_type" in f && IsNumber(f["event_type"]) then f["event_type"] else JInt(-1))
      && e.preimage == (if "preimage" in f then Some(Lower(f["preimage"].s)) else None)
  {
  }

  /** A log is read from an array, or from text that holds one, of at most 4096 records. */
  lemma ParseEventLogMeans(h: Host, items: seq<Json>, text: string)
    ensures ParseEventLog(h, JArray(items)) == if |items| > 4096 then None else ParseEntries(items)
    ensures h.json(text) == Some(JArray(items)) ==> ParseEventLog(h, JString(text)) == ParseEventLog(h, JArray(items))
  {
  }

  /** The records are read one by one, and none is skipped. */
  lemma {:induction false} ParseEntriesMean(items: seq<Json>, i: nat)
    requires ParseEntries(items).Some? && i < |items|
    ensures |ParseEntries(items).value| == |items| && Some(ParseEntries(items).value[i]) == ParseEntry(items[i])
  {
    if i > 0 {
      ParseEntriesMean(items[1..], i - 1);
    }
  }

  // ----- Reproducing a register proves what the log says

  /** What an entry displays. */
  datatype Shown = Shown(eventType: Number, event: string, payload: string)

  function Show(events: seq<Entry>): seq<Shown> {
    seq(|events|, i requires 0 <= i < |events| => Shown(events[i].eventType, events[i].event, events[i].payload))
  }

  /** The entries the result is about: V1, a 32-bit type, a name without a colon. */
  predicate IsV1(e: Entry) {
    && e.imr == 3 && EntryOk(e)
    && e.preimage.None?
    && e.eventType.JInt? && 0 <= e.eventType.n < 0x1_0000_0000
    && ':' !in e.event
  }

  /** The last thing hashed into the register of a list. */
  function LastInput(h: Host, a: seq<Entry>): seq<Byte>
    requires a != []
  {
    Replay(h, MeasuredAll(h, a[..|a| - 1])) + Padded(FromHex(Measured(h, a[|a| - 1])))
  }

  /** Everything hashed with SHA-384 while an RTMR3 list is replayed. */
  ghost function Hashed(h: Host, events: seq<Entry>): (r: set<seq<Byte>>)
  {
    if events == [] then {}
    else
      Hashed(h, events[..|events| - 1]) + {V1Preimage(h, events[|events| - 1]), LastInput(h, events)}
  }

  /** What a V1 event with a 32-bit type and a hexadecimal payload hashes. */
  predicate IsHashable(e: Entry) {
    && e.preimage.None? && e.eventType.JInt? && 0 <= e.eventType.n < 0x1_0000_0000
    && IsHex(e.payload) && |e.payload| % 2 == 0
  }

  lemma SplitAtColon(u: seq<Byte>, v: seq<Byte>, p: seq<Byte>, q: seq<Byte>)
    requires COLON !in u && COLON !in v && u + [COLON] + p == v + [COLON] + q
    ensures u == v && p == q
  {
    var x, y := u + [COLON] + p, v + [COLON] + q;
    assert x[|u|] == COLON && y[|v|] == COLON;
    assert forall i :: 0 <= i < |u| ==> x[i] == u[i];
    assert forall i :: 0 <= i < |v| ==> y[i] == v[i];
    assert |u| == |v|;
    assert x[..|u|] == u && y[..|u|] == v;
    assert x[|u| + 1..] == p && y[|u| + 1..] == q;
  }

  lemma LittleEndianReads(n: int)
    requires 0 <= n < 0x1_0000_0000
    ensures var b := LittleEndian32(n); n == b[0] as int + 256 * (b[1] as int + 256 * (b[2] as int + 256 * b[3] as int))
  {
  }

  lemma LittleEndianInjective(m: int, n: int)
    requires 0 <= m < 0x1_0000_0000 && 0 <= n < 0x1_0000_0000 && LittleEndian32(m) == LittleEndian32(n)
    ensures m == n
  {
    var a, b := LittleEndian32(m), LittleEndian32(n);
    assert a[0] == b[0] && a[1] == b[1] && a[2] == b[2] && a[3] == b[3];
    LittleEndianReads(m);
    LittleEndianReads(n);
  }

  /** Of two V1 events without a colon in either name, the hashed bytes determine type, name and payload. */
  lemma PreimageDetermines(h: Host, a: Entry, b: Entry)
    requires HostOk(h) && IsHashable(a) && IsHashable(b) && ':' !in a.event && ':' !in b.event
    requires V1Preimage(h, a) == V1Preimage(h, b)
    ensures a.eventType == b.eventType && a.event == b.event && a.payload == b.payload
  {
    var s, t := LittleEndian32(a.eventType.n), LittleEndian32(b.eventType.n);
    var u, v := h.utf8(a.event), h.utf8(b.event);
    var p, q := FromHex(a.payload), FromHex(b.payload);
    var x, y := u + [COLON] + p, v + [COLON] + q;
    PreimageParts(s, u, p);
    PreimageParts(t, v, q);
    TailsOfSame(s, t, [COLON] + x, [COLON] + y);
    LittleEndianInjective(a.eventType.n, b.eventType.n);
    TailsOfSame([COLON], [COLON], x, y);
    SplitAtColon(u, v, p, q);
    ToFromHex(a.payload);
    ToFromHex(b.payload);
  }

  lemma PreimageParts(s: seq<Byte>, u: seq<Byte>, p: seq<Byte>)
    ensures s + [COLON] + u + [COLON] + p == s + ([COLON] + (u + [COLON] + p))
  {
  }

  lemma TailsOfSame(a: seq<Byte>, b: seq<Byte>, s: seq<Byte>, t: seq<Byte>)
    requires |a| == |b| && a + s == b + t
    ensures a == b && s == t
  {
    assert (a + s)[..|a|] == a && (b + t)[..|a|] == b;
    assert (a + s)[|a|..] == s && (b + t)[|a|..] == t;
  }

  /**
   * Another V1 event with a shorter name hashes the same bytes exactly when the name
   * has a colon: what stands before its first colon can pass for the whole name.
   */
  lemma ShorterNameUnlessNoColon(h: Host, e: Entry)
    requires HostOk(h) && IsHashable(e)
    ensures ':' in e.event <==>
      exists f :: IsHashable(f) && |f.event| < |e.event| && V1Preimage(h, f) == V1Preimage(h, e)
  {
    if ':' in e.event {
      var at :| 0 <= at < |e.event| && e.event[at] == ':';
      var f := CollidingEvent(h, e, at);
    } else {
      forall f | IsHashable(f) && V1Preimage(h, f) == V1Preimage(h, e)
        ensures |f.event| >= |e.event|
      {
        NoShorterName(h, e, f);
      }
    }
  }

  /** A colon in the name: the event named by what stands before it has the same digest. */
  lemma CollidingEvent(h: Host, e: Entry, at: nat) returns (f: Entry)
    requires HostOk(h) && IsHashable(e) && at < |e.event| && e.event[at] == ':'
    ensures IsHashable(f) && f.event == e.event[..at] && V1Preimage(h, f) == V1Preimage(h, e)
    ensures Rtmr3Digest(h, f) == Rtmr3Digest(h, e)
  {
    var u, v := e.event[..at], e.event[at + 1..];
    var payload := h.utf8(v) + [COLON] + FromHex(e.payload);
    f := e.(event := u, payload := ToHex(payload));
    FromToHex(payload);
    NameEncodes(h, e.event, at);
    ColonMoves(LittleEndian32(Whole(e.eventType)), h.utf8(u), h.utf8(v), FromHex(e.payload));
  }

  lemma ColonMoves(t: seq<Byte>, a: seq<Byte>, b: seq<Byte>, p: seq<Byte>)
    ensures t + [COLON] + a + [COLON] + (b + [COLON] + p) == t + [COLON] + (a + [COLON] + b) + [COLON] + p
  {
  }

  /** Without a colon in its name an event is hashed like no event of a shorter name. */
  lemma NoShorterName(h: Host, e: Entry, f: Entry)
    requires HostOk(h) && IsHashable(e) && IsHashable(f) && ':' !in e.event && V1Preimage(h, f) == V1Preimage(h, e)
    ensures |f.event| >= |e.event|
  {
    if ':' in f.event {
      var at := FirstColon(f.event);
      var g := CollidingEvent(h, f, at);
      PreimageDetermines(h, e, g);
    } else {
      PreimageDetermines(h, e, f);
    }
  }

  lemma {:induction false} FirstColon(name: string) returns (at: nat)
    requires ':' in name
    ensures at < |name| && name[at] == ':' && ':' !in name[..at]
  {
    var front, last := name[..|name| - 1], name[|name| - 1];
    if ':' in front {
      at := FirstColon(front);
      assert front[..at] == name[..at];
    } else {
      at := |front|;
    }
  }

  lemma NameEncodes(h: Host, name: string, at: nat)
    requires HostOk(h) && at < |name| && name[at] == ':'
    ensures h.utf8(name) == h.utf8(name[..at]) + [COLON] + h.utf8(name[at + 1..])
  {
    var u, colon, v := name[..at], name[at..at + 1], name[at + 1..];
    assert colon == ":" && Ascii(colon) == [COLON];
    assert name == (u + colon) + v;
    assert h.utf8((u + colon) + v) == h.utf8(u + colon) + h.utf8(v);
    assert h.utf8(u + colon) == h.utf8(u) + h.utf8(colon);
  }

  predicate AllV1(h: Host, events: seq<Entry>) {
    forall i :: 0 <= i < |events| ==> IsV1(events[i]) && Consistent(h, events[i])
  }

  lemma {:induction false} ReplayLength(h: Host, digests: seq<string>)
    requires HostOk(h)
    ensures |Replay(h, digests)| == DIGEST_BYTES
  {
  }

  lemma LastStep(h: Host, a: seq<Entry>)
    requires a != []
    ensures Replay(h, MeasuredAll(h, a)) == h.sha384(LastInput(h, a))
    ensures LastInput(h, a) in Hashed(h, a) && V1Preimage(h, a[|a| - 1]) in Hashed(h, a)
  {
    var n := |a| - 1;
    assert MeasuredAll(h, a)[..n] == MeasuredAll(h, a[..n]);
    ReplayStep(h, MeasuredAll(h, a), n);
    assert MeasuredAll(h, a)[..n + 1] == MeasuredAll(h, a);
  }

  lemma PaddedMeasured(h: Host, e: Entry)
    requires HostOk(h) && IsV1(e) && Consistent(h, e)
    ensures Padded(FromHex(Measured(h, e))) == h.sha384(V1Preimage(h, e))
  {
    FromToHex(h.sha384(V1Preimage(h, e)));
  }

  /** Equal measured digests come from events that display the same. */
  lemma MeasuredDetermines(h: Host, x: Entry, y: Entry, inputs: set<seq<Byte>>)
    requires HostOk(h) && IsV1(x) && IsV1(y) && Consistent(h, x) && Consistent(h, y)
    requires CollisionFree(h.sha384, inputs) && V1Preimage(h, x) in inputs && V1Preimage(h, y) in inputs
    requires Padded(FromHex(Measured(h, x))) == Padded(FromHex(Measured(h, y)))
    ensures x.eventType == y.eventType && x.event == y.event && x.payload == y.payload
  {
    PaddedMeasured(h, x);
    PaddedMeasured(h, y);
    PreimageDetermines(h, x, y);
  }

  lemma ShowLast(a: seq<Entry>, b: seq<Entry>)
    requires a != [] && b != [] && Show(a[..|a| - 1]) == Show(b[..|b| - 1])
    requires var x, y := a[|a| - 1], b[|b| - 1];
      x.eventType == y.eventType && x.event == y.event && x.payload == y.payload
    ensures Show(a) == Show(b)
  {
    var n := |a| - 1;
    assert |Show(a[..n])| == n && |b| == n + 1;
    forall i | 0 <= i < n
      ensures Show(a)[i] == Show(b)[i]
    {
      assert Show(a[..n])[i] == Show(a)[i] && Show(b[..n])[i] == Show(b)[i];
    }
  }

  /** What was hashed does not collide, and never gives the reset value. */
  ghost predicate Unambiguous(h: Host, inputs: set<seq<Byte>>) {
    CollisionFree(h.sha384, inputs) && forall x :: x in inputs ==> h.sha384(x) != Zeros(DIGEST_BYTES)
  }

  /** Two consistent V1 lists, hashed over `inputs`, that reproduce one register. */
  ghost predicate SameRegister(h: Host, a: seq<Entry>, b: seq<Entry>, inputs: set<seq<Byte>>) {
    && AllV1(h, a) && AllV1(h, b)
    && Hashed(h, a) <= inputs && Hashed(h, b) <= inputs
    && Replay(h, MeasuredAll(h, a)) == Replay(h, MeasuredAll(h, b))
  }

  lemma SameLength(h: Host, a: seq<Entry>, b: seq<Entry>, inputs: set<seq<Byte>>)
    requires SameRegister(h, a, b, inputs) && Unambiguous(h, inputs)
    ensures a == [] <==> b == []
  {
    if a != [] { LastStep(h, a); }
    if b != [] { LastStep(h, b); }
  }

  /** Equal registers have equal last events and equal registers before them. */
  lemma LastEvents(h: Host, a: seq<Entry>, b: seq<Entry>, inputs: set<seq<Byte>>)
    requires a != [] && b != [] && HostOk(h) && SameRegister(h, a, b, inputs) && CollisionFree(h.sha384, inputs)
    ensures Replay(h, MeasuredAll(h, a[..|a| - 1])) == Replay(h, MeasuredAll(h, b[..|b| - 1]))
    ensures var x, y := a[|a| - 1], b[|b| - 1];
      x.eventType == y.eventType && x.event == y.event && x.payload == y.payload
  {
    var a', b', x, y := a[..|a| - 1], b[..|b| - 1], a[|a| - 1], b[|b| - 1];
    LastStep(h, a);
    LastStep(h, b);
    ReplayLength(h, MeasuredAll(h, a'));
    ReplayLength(h, MeasuredAll(h, b'));
    TailsOfSame(Replay(h, MeasuredAll(h, a')), Replay(h, MeasuredAll(h, b')),
                Padded(FromHex(Measured(h, x))), Padded(FromHex(Measured(h, y))));
    MeasuredDetermines(h, x, y, inputs);
  }

  lemma FrontsReproduce(h: Host, a: seq<Entry>, b: seq<Entry>, inputs: set<seq<Byte>>)
    requires a != [] && b != [] && SameRegister(h, a, b, inputs)
    requires Replay(h, MeasuredAll(h, a[..|a| - 1])) == Replay(h, MeasuredAll(h, b[..|b| - 1]))
    ensures SameRegister(h, a[..|a| - 1], b[..|b| - 1], inputs)
  {
    FrontIsHashed(h, a);
    FrontIsHashed(h, b);
  }

  lemma FrontIsHashed(h: Host, a: seq<Entry>)
    requires a != [] && AllV1(h, a)
    ensures AllV1(h, a[..|a| - 1]) && Hashed(h, a[..|a| - 1]) <= Hashed(h, a)
  {
    var front := a[..|a| - 1];
    assert forall i :: 0 <= i < |front| ==> front[i] == a[i];
  }

  /** Two RTMR3 lists that replay to one register display the same events in the same order. */
  lemma {:induction false} ReplayDetermines(h: Host, a: seq<Entry>, b: seq<Entry>, inputs: set<seq<Byte>>)
    requires HostOk(h) && Unambiguous(h, inputs) && SameRegister(h, a, b, inputs)
    ensures Show(a) == Show(b)
  {
    SameLength(h, a, b, inputs);
    if a != [] {
      LastEvents(h, a, b, inputs);
      FrontsReproduce(h, a, b, inputs);
      ReplayDetermines(h, a[..|a| - 1], b[..|b| - 1], inputs);
      ShowLast(a, b);
    }
  }
}
