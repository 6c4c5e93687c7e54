/** The worker's event stream and its incremental reader (src/inference/workerClient.ts). */
module StreamCodec {
  import opened Wrappers
  import opened Json
  import opened Text
  import Pricing

  const USAGE_EVENT := "anonrouter-usage"
  const SIGNATURE_BINDING_EVENT := "anonrouter-signature-binding"
  const STREAM_ERROR_EVENT := "anonrouter-stream-error"
  const TERMINAL_EVENT := "anonrouter-terminal"

  datatype SignatureBinding = SignatureBinding(
    providerRequestId: string, exactRequestHash: string, exactResponseHash: string)

  // ----- Text

  /** `isPublicDoneChunk`. */
  predicate IsDone(chunk: string) {
    Trim(chunk) == "data: [DONE]"
  }

  /** `replace(/\r\n/g, "\n")`. */
  function Crlf(t: string): (r: string) {
    if |t| < 2 then t
    else if t[0] == '\r' && t[1] == '\n' then ['\n'] + Crlf(t[2..])
    else [t[0]] + Crlf(t[1..])
  }

  predicate BlankAt(t: string, i: int) {
    0 <= i < |t| - 1 && t[i] == '\n' && t[i + 1] == '\n'
  }

  /** `indexOf("\n\n")`. */
  function FirstBlank(t: string): (r: Option<nat>)
    ensures r.Some? ==> BlankAt(t, r.value) && forall i :: BlankAt(t, i) ==> r.value <= i
    ensures r.None? ==> forall i :: !BlankAt(t, i)
  {
    if |t| < 2 then None
    else if t[0] == '\n' && t[1] == '\n' then Some(0)
    else
      var later := FirstBlank(t[1..]);
      assert forall i :: BlankAt(t, i) && i > 0 ==> BlankAt(t[1..], i - 1);
      if later.None? then None
      else
        assert BlankAt(t[1..], later.value);
        Some(later.value + 1)
  }

  datatype Parts = Parts(events: seq<string>, rest: string)

  /** The complete events of a text, and what is left after the last. */
  function Split(t: string): (r: Parts)
    decreases |t|
  {
    var boundary := FirstBlank(t);
    if boundary.None? then Parts([], t)
    else
      var later := Split(t[boundary.value + 2..]);
      Parts([t[..boundary.value]] + later.events, later.rest)
  }

  /** The first line that starts with `data:`. */
  function DataLine(t: string): (r: Option<string>)
    ensures r.Some? ==> "data:" <= r.value
    decreases |t|
  {
    var eol := Eol(t);
    if "data:" <= t[..eol] then Some(t[..eol])
    else if eol == |t| then None
    else DataLine(t[eol + 1..])
  }

  function Eol(t: string): (r: nat)
    ensures r <= |t| && (r < |t| ==> t[r] == '\n') && '\n' !in t[..r]
  {
    if t == "" || t[0] == '\n' then 0
    else
      assert t == [t[0]] + t[1..];
      1 + Eol(t[1..])
  }

  predicate IsHex64(t: string) {
    |t| == 64 && IsHex(t)
  }

  predicate BindingOk(b: SignatureBinding) {
    |b.providerRequestId| <= 256 && IsHex64(b.exactRequestHash) && IsHex64(b.exactResponseHash)
  }

  // ----- The writer

  datatype Failure = ProviderFailure(code: string) | OtherFailure

  datatype Broken = Whole | Broke(failure: Failure)

  /** What an adapter's stream produced: chunks, perhaps a failure after them, and metadata (`None` if unavailable). */
  datatype WorkerStream = WorkerStream(
    chunks: seq<string>,
    broken: Broken,
    usage: Option<Pricing.TokenUsage>,
    binding: Option<SignatureBinding>)

  function SideEvent(name: string, data: string): string {
    "event: " + name + "\ndata: " + data + "\n\n"
  }

  function UsageJson(u: Pricing.TokenUsage): (j: Json)
    ensures Plain(j)
  {
    var fields := map["inputTokens" := JInt(u.inputTokens), "outputTokens" := JInt(u.outputTokens),
                      "cachedTokens" := JInt(u.cachedTokens)];
    JObject(if u.cacheWriteTokens.Some? then fields["cacheWriteTokens" := JInt(u.cacheWriteTokens.value)] else fields)
  }

  function BindingJson(b: SignatureBinding): (j: Json)
    ensures Plain(j)
  {
    JObject(map["providerRequestId" := JString(b.providerRequestId), "exactRequestHash" := JString(b.exactRequestHash),
                "exactResponseHash" := JString(b.exactResponseHash)])
  }

  function UsageEvent(c: JsonText, usage: Option<Pricing.TokenUsage>): string {
    SideEvent(USAGE_EVENT, c.print_(if usage.Some? then UsageJson(usage.value) else JNull))
  }

  function TerminalEvent(): string {
    SideEvent(TERMINAL_EVENT, "{\"status\":\"complete\"}")
  }

  const INCOMPLETE := ProviderFailure("provider_stream_incomplete")

  function Sent(b: Option<SignatureBinding>): Option<SignatureBinding> {
    if b.Some? && BindingOk(b.value) then b else None
  }

  function BindingEvents(c: JsonText, b: Option<SignatureBinding>): seq<string> {
    if Sent(b).Some? then [SideEvent(SIGNATURE_BINDING_EVENT, c.print_(BindingJson(b.value)))] else []
  }

  /** The metadata events that follow the public chunks. */
  function Tail(c: JsonText, w: WorkerStream): seq<string> {
    match w.broken
    case Whole => BindingEvents(c, w.binding) + [UsageEvent(c, w.usage), TerminalEvent()]
    case Broke(failure) =>
      if failure == INCOMPLETE then
        [UsageEvent(c, w.usage),
         SideEvent(STREAM_ERROR_EVENT, c.print_(JObject(map["code" := JString("provider_stream_incomplete")])))]
      else []
  }

  // ----- Which chunks are written

  /** The provider's end marker, between any white space. */
  ghost predicate IsMarker(chunk: string) {
    exists a, b :: AllSpace(a) && AllSpace(b) && chunk == a + "data: [DONE]" + b
  }

  lemma DoneIsMarker(chunk: string)
    ensures IsDone(chunk) <==> IsMarker(chunk)
  {
    if a, b :| AllSpace(a) && AllSpace(b) && chunk == a + "data: [DONE]" + b {
      TrimRemoves(a, "data: [DONE]", b);
    }
    if IsDone(chunk) {
      var a := TrimStartSplits(chunk);
      var b := TrimEndSplits(TrimStart(chunk));
      assert chunk == a + "data: [DONE]" + b;
    }
  }

  /** Every chunk but the markers, in order. */
  ghost function Public(chunks: seq<string>): seq<string> {
    if chunks == [] then []
    else if IsMarker(chunks[0]) then Public(chunks[1..])
    else [chunks[0]] + Public(chunks[1..])
  }

  method SerializeWorkerStream(c: JsonText, w: WorkerStream) returns (out: seq<string>, thrown: Option<Failure>)
    ensures out == Public(w.chunks) + Tail(c, w)
    ensures thrown == if w.broken.Broke? && w.broken.failure != INCOMPLETE then Some(w.broken.failure) else None
  {
    out, thrown := [], None;
    var i := 0;
    while i < |w.chunks|
      invariant 0 <= i <= |w.chunks|
      invariant out + Public(w.chunks[i..]) == Public(w.chunks)
    {
      DoneIsMarker(w.chunks[i]);
      if !IsDone(w.chunks[i]) {
        out := out + [w.chunks[i]];
      }
      i := i + 1;
    }
    match w.broken {
      case Broke(failure) =>
        if failure != INCOMPLETE {
          thrown := Some(failure);
          return;
        }
        out := out + [UsageEvent(c, w.usage)];
        var error := JObject(map["code" := JString("provider_stream_incomplete")]);
        out := out + [SideEvent(STREAM_ERROR_EVENT, c.print_(error))];
      case Whole =>
        if w.binding.Some? && BindingOk(w.binding.value) {
          out := out + [SideEvent(SIGNATURE_BINDING_EVENT, c.print_(BindingJson(w.binding.value)))];
        }
        out := out + [UsageEvent(c, w.usage)];
        out := out + [TerminalEvent()];
    }
  }

  // ----- The reader

  datatype Ending = Complete | Failed(code: string)

  /** `usage` and `binding` hold what the two promises were first resolved with. */
  datatype Reading = Reading(
    frames: seq<string>,
    usage: Option<Option<Json>>,
    binding: Option<SignatureBinding>,
    end: Option<Ending>)

  datatype Received = Received(frames: seq<string>, usage: Option<Json>, binding: Option<SignatureBinding>, end: Ending)

  const START := Reading([], None, None, None)

  predicate Named(event: string, name: string) {
    "event: " + name <= event
  }

  predicate Reserved(event: string) {
    || Named(event, SIGNATURE_BINDING_EVENT) || Named(event, USAGE_EVENT)
    || Named(event, TERMINAL_EVENT) || Named(event, STREAM_ERROR_EVENT)
  }

  function Raw(event: string, fallback: string): string {
    var line := DataLine(event);
    if line.Some? then Trim(line.value[5..]) else fallback
  }

  /** A member of an object, absent from every other value. */
  function Field(j: Json, name: string): Option<Json> {
    if j.JObject? then Member(j.fields, name) else None
  }

  function TextField(j: Json, name: string): Option<string> {
    var field := Field(j, name);
    if field.Some? && field.value.JString? then Some(field.value.s) else None
  }

  /** The reader's two ways to read usage; `openAi` stands for `openAiUsageToInternal`. */
  datatype Library = Library(json: JsonText, openAi: Json -> Option<Json>)

  /** `openAiUsageToInternalFromWorker`. */
  function ReadUsage(lib: Library, raw: string): (r: Option<Json>) {
    var parsed := lib.json.parse(raw);
    if parsed.None? || parsed.value == JNull then None
    else if Field(parsed.value, "inputTokens").Some? then
      var written := Field(parsed.value, "cacheWriteTokens");
      Some(JObject(parsed.value.fields["cacheWriteTokens" :=
        if written.Some? && written.value != JNull then written.value else JInt(0)]))
    else lib.openAi(parsed.value)
  }

  function ReadBinding(lib: Library, raw: string): (r: Option<SignatureBinding>) {
    var parsed := lib.json.parse(raw);
    if parsed.None? then None
    else
      var id := TextField(parsed.value, "providerRequestId");
      var request := TextField(parsed.value, "exactRequestHash");
      var response := TextField(parsed.value, "exactResponseHash");
      if id.None? || request.None? || response.None? then None
      else
        var b := SignatureBinding(id.value, request.value, response.value);
        if BindingOk(b) then Some(b) else None
  }

  function ReadErrorCode(lib: Library, raw: string): (r: string) {
    var parsed := lib.json.parse(raw);
    if parsed.Some? && TextField(parsed.value, "code") == Some("provider_stream_incomplete")
    then "provider_stream_incomplete" else "worker_stream_failed"
  }

  function First<T>(already: Option<T>, value: T): Option<T> {
    if already.Some? then already else Some(value)
  }

  /** What the reader does with one event. */
  function Handle(lib: Library, r: Reading, event: string): (r': Reading) {
    if Named(event, SIGNATURE_BINDING_EVENT) then
      var binding := ReadBinding(lib, Raw(event, "{}"));
      if binding.Some? then r.(binding := First(r.binding, binding.value))
      else r.(end := Some(Failed("worker_stream_incomplete")))
    else if Named(event, USAGE_EVENT) then
      r.(usage := First(r.usage, ReadUsage(lib, Raw(event, "null"))))
    else if Named(event, TERMINAL_EVENT) then
      r.(end := Some(if r.usage.Some? then Complete else Failed("worker_stream_incomplete")))
    else if Named(event, STREAM_ERROR_EVENT) then
      r.(end := Some(Failed(ReadErrorCode(lib, Raw(event, "{}")))))
    else r.(frames := r.frames + [event + "\n\n"])
  }

  /** Events after the end are not looked at. */
  function HandleAll(lib: Library, r: Reading, events: seq<string>): (r': Reading)
    decreases |events|
  {
    if r.end.Some? || events == [] then r else HandleAll(lib, Handle(lib, r, events[0]), events[1..])
  }

  datatype Stage = Stage(reading: Reading, buffer: string)

  function Feed(lib: Library, s: Stage, chunk: string): (r: Stage) {
    var parts := Split(Crlf(s.buffer + chunk));
    Stage(HandleAll(lib, s.reading, parts.events), parts.rest)
  }

  function FeedAll(lib: Library, chunks: seq<string>): (r: Stage) {
    if chunks == [] then Stage(START, "")
    else Feed(lib, FeedAll(lib, chunks[..|chunks| - 1]), chunks[|chunks| - 1])
  }

  /** Input that stops before the end was reached is an error; unresolved promises resolve to nothing. */
  function Finish(r: Reading): Received {
    Received(r.frames, if r.usage.Some? then r.usage.value else None, r.binding,
             if r.end.Some? then r.end.value else Failed("worker_stream_incomplete"))
  }

  /** `deserializeWorkerStream`, over the chunks the transport delivers before it closes or fails. */
  method DeserializeWorkerStream(lib: Library, chunks: seq<string>) returns (received: Received)
    ensures received == Finish(FeedAll(lib, chunks).reading)
  {
    var buffer := "";
    var frames: seq<string> := [];
    var usage: Option<Option<Json>> := None;
    var binding: Option<SignatureBinding> := None;
    var i := 0;
    while i < |chunks|
      invariant 0 <= i <= |chunks|
      invariant FeedAll(lib, chunks[..i]) == Stage(Reading(frames, usage, binding, None), buffer)
    {
      ghost var before := Reading(frames, usage, binding, None);
      buffer := Crlf(buffer + chunks[i]);
      ghost var parts := Split(buffer);
      ghost var n := 0;
      assert chunks[..i + 1][..i] == chunks[..i];
      assert FeedAll(lib, chunks[..i + 1]) == Stage(HandleAll(lib, before, parts.events), parts.rest);
      var boundary := FirstBlank(buffer);
      while boundary.Some?
        invariant boundary == FirstBlank(buffer)
        invariant HandleAll(lib, Reading(frames, usage, binding, None), Split(buffer).events)
               == HandleAll(lib, before, parts.events)
        invariant Split(buffer).rest == parts.rest
        decreases |buffer|
      {
        var event := buffer[..boundary.value];
        ghost var now := Reading(frames, usage, binding, None);
        ghost var ahead := Split(buffer).events;
        buffer := buffer[boundary.value + 2..];
        assert ahead[0] == event && ahead[1..] == Split(buffer).events;
        assert HandleAll(lib, now, ahead) == HandleAll(lib, Handle(lib, now, event), Split(buffer).events);
        ghost var ended := false;
        if Named(event, SIGNATURE_BINDING_EVENT) {
          var read := ReadBinding(lib, Raw(event, "{}"));
          if read.None? {
            received := Received(frames, if usage.Some? then usage.value else None, binding,
                                 Failed("worker_stream_incomplete"));
            EndedStays(lib, chunks, i + 1);
            return;
          }
          binding := First(binding, read.value);
        } else if Named(event, USAGE_EVENT) {
          usage := First(usage, ReadUsage(lib, Raw(event, "null")));
        } else if Named(event, TERMINAL_EVENT) {
          var end := if usage.Some? then Complete else Failed("worker_stream_incomplete");
          received := Received(frames, if usage.Some? then usage.value else None, binding, end);
          EndedStays(lib, chunks, i + 1);
          return;
        } else if Named(event, STREAM_ERROR_EVENT) {
          var code := ReadErrorCode(lib, Raw(event, "{}"));
          received := Received(frames, if usage.Some? then usage.value else None, binding, Failed(code));
          EndedStays(lib, chunks, i + 1);
          return;
        } else {
          frames := frames + [event + "\n\n"];
        }
        boundary := FirstBlank(buffer);
      }
      i := i + 1;
    }
    assert chunks[..i] == chunks;
    received := Received(frames, if usage.Some? then usage.value else None, binding,
                         Failed("worker_stream_incomplete"));
  }

  /** Once the reader has ended, later chunks change nothing. */
  lemma {:induction false} EndedStays(lib: Library, chunks: seq<string>, n: nat)
    requires n <= |chunks| && FeedAll(lib, chunks[..n]).reading.end.Some?
    ensures FeedAll(lib, chunks).reading == FeedAll(lib, chunks[..n]).reading
  {
    if n < |chunks| {
      assert chunks[..|chunks| - 1][..n] == chunks[..n];
      EndedStays(lib, chunks[..|chunks| - 1], n);
    } else {
      assert chunks[..n] == chunks;
    }
  }
}
