/** What the stream codec promises: writing then reading is the identity, and a cut is never silent. */
module StreamRoundTrip {
  import opened Wrappers
  import opened Json
  import opened Text
  import opened StreamCodec
  import opened StreamChunks
  import Pricing

  // ----- Frames

  /** A written piece: once its line ends are normalised it is one event. */
  predicate IsPiece(f: string) {
    NoStray(f) && EndsLf(f) && |Crlf(f)| >= 2 && IsEvent(Crlf(f))
  }

  predicate AllPieces(pieces: seq<string>) {
    forall i :: 0 <= i < |pieces| ==> IsPiece(pieces[i])
  }

  /** Public frames are pieces that take no reserved name. */
  predicate AllFrames(frames: seq<string>) {
    forall i :: 0 <= i < |frames| ==> IsPiece(frames[i]) && !Reserved(Body(Crlf(frames[i])))
  }

  /** The frames as the reader yields them. */
  function Normal(frames: seq<string>): (r: seq<string>) {
    if frames == [] then [] else Normal(frames[..|frames| - 1]) + [Crlf(frames[|frames| - 1])]
  }

  function Bodies(pieces: seq<string>): (r: seq<string>)
    requires AllPieces(pieces)
  {
    if pieces == [] then [] else Bodies(pieces[..|pieces| - 1]) + [Body(Crlf(pieces[|pieces| - 1]))]
  }

  lemma {:induction false} BodiesJoin(a: seq<string>, b: seq<string>)
    requires AllPieces(a) && AllPieces(b)
    ensures AllPieces(a + b) && Bodies(a + b) == Bodies(a) + Bodies(b)
  {
    if b == [] {
      assert a + b == a;
    } else {
      var front, last := b[..|b| - 1], b[|b| - 1];
      assert (a + b)[..|a + b| - 1] == a + front;
      BodiesJoin(a, front);
    }
  }

  /** A frame without carriage returns is yielded as it is. */
  lemma {:induction false} NormalOfPlain(frames: seq<string>)
    requires forall i :: 0 <= i < |frames| ==> '\r' !in frames[i]
    ensures Normal(frames) == frames
  {
    if frames != [] {
      NormalOfPlain(frames[..|frames| - 1]);
      CrlfOfNoCrlf(frames[|frames| - 1]);
    }
  }

  /** Pieces in front of a text are its first events. */
  lemma {:induction false} SplitPieces(pieces: seq<string>, t: string)
    requires AllPieces(pieces)
    ensures Split(Crlf(Concat(pieces) + t)) == Then(Bodies(pieces), Split(Crlf(t)))
  {
    if pieces == [] {
      assert Concat(pieces) + t == t;
      ThenNothing(Split(Crlf(t)));
    } else {
      var front, last := pieces[..|pieces| - 1], pieces[|pieces| - 1];
      assert Concat(pieces) + t == Concat(front) + (last + t);
      SplitPieces(front, last + t);
      CrlfSplits(last, t);
      SplitEvent(Crlf(last), Crlf(t));
      ThenThen(Bodies(front), [Body(Crlf(last))], Split(Crlf(t)));
    }
  }

  lemma NoStrayJoins(a: string, b: string)
    requires NoStray(a) && NoStray(b) && (a == "" || EndsLf(a))
    ensures NoStray(a + b)
  {
    assert forall i :: 0 <= i < |a| ==> (a + b)[i] == a[i];
    assert forall i :: 0 <= i < |b| ==> (a + b)[|a| + i] == b[i];
  }

  lemma {:induction false} PiecesHaveNoStray(pieces: seq<string>)
    requires AllPieces(pieces)
    ensures NoStray(Concat(pieces)) && (pieces == [] || EndsLf(Concat(pieces)))
  {
    if pieces != [] {
      PiecesHaveNoStray(pieces[..|pieces| - 1]);
      NoStrayJoins(Concat(pieces[..|pieces| - 1]), pieces[|pieces| - 1]);
    }
  }

  lemma {:induction false} HandleFrames(lib: Library, frames: seq<string>)
    requires AllFrames(frames)
    ensures HandleAll(lib, START, Bodies(frames)) == START.(frames := Normal(frames))
  {
    if frames != [] {
      var front, last := frames[..|frames| - 1], frames[|frames| - 1];
      HandleFrames(lib, front);
      HandleAllAppends(lib, START, Bodies(front), [Body(Crlf(last))]);
      HandleFrame(lib, START.(frames := Normal(front)), Body(Crlf(last)));
      assert BlankAt(Crlf(last), |Crlf(last)| - 2);
      assert Body(Crlf(last)) + "\n\n" == Crlf(last);
    }
  }

  // ----- Metadata events

  predicate IsName(name: string) {
    || name == USAGE_EVENT || name == SIGNATURE_BINDING_EVENT || name == TERMINAL_EVENT || name == STREAM_ERROR_EVENT
  }

  function Head(name: string): string {
    "event: " + name
  }

  function EventBody(name: string, data: string): string {
    Head(name) + "\n" + ("data: " + data)
  }

  lemma HeadIsOneLine(name: string)
    requires IsName(name)
    ensures '\n' !in Head(name) && '\r' !in Head(name) && Head(name) != "" && Head(name)[0] == 'e'
  {
  }

  lemma EolIs(t: string, n: nat)
    requires n <= |t| && '\n' !in t[..n] && (n < |t| ==> t[n] == '\n')
    ensures Eol(t) == n
  {
  }

  /** The data line of a two-line event. */
  lemma DataLineOfTwo(head: string, data: string)
    requires '\n' !in head && head != "" && head[0] != 'd' && '\n' !in data && "data:" <= data
    ensures DataLine(head + "\n" + data) == Some(data)
  {
    var t := head + "\n" + data;
    assert t[..|head|] == head;
    EolIs(t, |head|);
    assert t[|head| + 1..] == data;
    assert data[..|data|] == data;
    EolIs(data, |data|);
  }

  lemma TrimOfCompact(data: string)
    requires Compact(data)
    ensures Trim(" " + data) == data
  {
    assert (" " + data)[1..] == data;
    assert TrimStart(data) == data;
    assert TrimEnd(data) == data;
  }

  /** The reader gets back the printed data of a metadata event. */
  lemma RawOfEvent(name: string, data: string, fallback: string)
    requires IsName(name) && Compact(data)
    ensures Raw(EventBody(name, data), fallback) == data
  {
    HeadIsOneLine(name);
    var line := "data: " + data;
    assert '\n' !in line;
    DataLineOfTwo(Head(name), line);
    assert line[5..] == " " + data;
    TrimOfCompact(data);
  }

  /** A one-line text in front moves the first blank line back by its length. */
  lemma {:induction false} FirstBlankAfterLine(line: string, more: string)
    requires '\n' !in line && more != "" && more[0] != '\n' && FirstBlank(more).Some?
    ensures FirstBlank(line + "\n" + more) == Some(|line| + 1 + FirstBlank(more).value)
  {
    var t := line + "\n" + more;
    if line == "" {
      assert t[1..] == more;
    } else {
      assert t[1..] == line[1..] + "\n" + more;
      FirstBlankAfterLine(line[1..], more);
    }
  }

  lemma FirstBlankOfLine(line: string)
    requires '\n' !in line
    ensures FirstBlank(line + "\n\n") == Some(|line|)
  {
    var t := line + "\n\n";
    assert BlankAt(t, |line|);
    assert forall i :: 0 <= i < |line| ==> t[i] == line[i] && t[i] != '\n';
  }

  lemma SideEventIsEvent(name: string, data: string)
    requires IsName(name) && Compact(data)
    ensures IsEvent(SideEvent(name, data)) && Body(SideEvent(name, data)) == EventBody(name, data)
  {
    var line := "data: " + data;
    SideEventIsPlain(name, data);
    HeadIsOneLine(name);
    FirstBlankOfLine(line);
    FirstBlankAfterLine(Head(name), line + "\n\n");
  }

  /** A metadata event is a written piece that normalising leaves as it is. */
  lemma SideEventIsPiece(name: string, data: string)
    requires IsName(name) && Compact(data)
    ensures IsPiece(SideEvent(name, data)) && Body(Crlf(SideEvent(name, data))) == EventBody(name, data)
  {
    SideEventIsPlain(name, data);
    CrlfOfNoCrlf(SideEvent(name, data));
    SideEventIsEvent(name, data);
  }

  lemma SideEventIsPlain(name: string, data: string)
    requires IsName(name) && Compact(data)
    ensures '\r' !in SideEvent(name, data) && EndsLf(SideEvent(name, data))
    ensures SideEvent(name, data) == Head(name) + "\n" + ("data: " + data + "\n\n")
  {
    HeadIsOneLine(name);
    assert SideEvent(name, data) == Head(name) + "\n" + ("data: " + data + "\n\n");
  }

  /** The last metadata event, cut by one character, is no event at all. */
  lemma CutSideEvent(name: string, data: string)
    requires IsName(name) && Compact(data)
    ensures var e := SideEvent(name, data); Split(Crlf(e[..|e| - 1])).events == []
  {
    SideEventIsPlain(name, data);
    HeadIsOneLine(name);
    var e := SideEvent(name, data);
    var cut := e[..|e| - 1];
    assert cut == Head(name) + "\n" + ("data: " + data + "\n");
    CrlfOfNoCrlf(cut);
    CutHasNoBlank(Head(name), "data: " + data, cut);
    NoBlankNoEvents(cut);
  }

  lemma CutHasNoBlank(head: string, line: string, cut: string)
    requires '\n' !in head && '\n' !in line && line != "" && cut == head + "\n" + (line + "\n")
    ensures forall i :: !BlankAt(cut, i)
  {
    assert forall i :: 0 <= i < |head| ==> cut[i] == head[i];
    assert forall i :: 0 <= i < |line| ==> cut[|head| + 1 + i] == line[i];
  }

  /** The reserved names tell the metadata events apart. */
  lemma NamesDiffer(name: string, other: string, data: string)
    requires IsName(name) && IsName(other)
    ensures Named(EventBody(name, data), other) <==> name == other
  {
    var e := EventBody(name, data);
    assert Head(name) <= e;
    if name != other {
      assert |Head(name)| > 20 && |Head(other)| > 20;
      assert e[18] == Head(name)[18] && e[19] == Head(name)[19];
    }
  }

  // ----- The written stream

  /** Usage as it is read back: a missing cache-write count is zero. */
  function ReadBack(usage: Option<Pricing.TokenUsage>): Option<Json> {
    match usage
    case None => None
    case Some(u) => Some(JObject(map[
      "inputTokens" := JInt(u.inputTokens),
      "outputTokens" := JInt(u.outputTokens),
      "cachedTokens" := JInt(u.cachedTokens),
      "cacheWriteTokens" := JInt(match u.cacheWriteTokens case Some(n) => n case None => 0)]))
  }

  /** A binding that is sent on: a short request id and two lower-case SHA-256 digests. */
  predicate Presentable(b: SignatureBinding) {
    |b.providerRequestId| <= 256 && IsDigest(b.exactRequestHash) && IsDigest(b.exactResponseHash)
  }

  predicate IsDigest(t: string) {
    |t| == 64 && forall i :: 0 <= i < 64 ==> '0' <= t[i] <= '9' || 'a' <= t[i] <= 'f'
  }

  function Presented(b: Option<SignatureBinding>): Option<SignatureBinding> {
    if b.Some? && Presentable(b.value) then b else None
  }

  lemma SentIsPresented(b: Option<SignatureBinding>)
    ensures Sent(b) == Presented(b)
  {
  }

  function Printed(c: JsonText, usage: Option<Pricing.TokenUsage>): string {
    c.print_(if usage.Some? then UsageJson(usage.value) else JNull)
  }

  const ERROR_JSON := JObject(map["code" := JString("provider_stream_incomplete")])

  lemma ReadUsageEvent(lib: Library, r: Reading, usage: Option<Pricing.TokenUsage>)
    requires Lawful(lib.json)
    ensures Handle(lib, r, EventBody(USAGE_EVENT, Printed(lib.json, usage)))
         == r.(usage := First(r.usage, ReadBack(usage)))
  {
    var data := Printed(lib.json, usage);
    NamesDiffer(USAGE_EVENT, USAGE_EVENT, data);
    NamesDiffer(USAGE_EVENT, SIGNATURE_BINDING_EVENT, data);
    RawOfEvent(USAGE_EVENT, data, "null");
    UsageReadsBack(lib, usage);
  }

  lemma UsageReadsBack(lib: Library, usage: Option<Pricing.TokenUsage>)
    requires Lawful(lib.json)
    ensures ReadUsage(lib, Printed(lib.json, usage)) == ReadBack(usage)
  {
    if usage.Some? {
      var j := UsageJson(usage.value);
      var written := usage.value.cacheWriteTokens;
      assert lib.json.parse(lib.json.print_(j)) == Some(j);
      assert "inputTokens" in j.fields && ("cacheWriteTokens" in j.fields <==> written.Some?);
      var count := JInt(if written.Some? then written.value else 0);
      assert j.fields["cacheWriteTokens" := count] == ReadBack(usage).value.fields;
    } else {
      assert lib.json.parse(lib.json.print_(JNull)) == Some(JNull);
    }
  }

  lemma ReadBindingEvent(lib: Library, r: Reading, b: SignatureBinding)
    requires Lawful(lib.json) && BindingOk(b)
    ensures Handle(lib, r, EventBody(SIGNATURE_BINDING_EVENT, lib.json.print_(BindingJson(b))))
         == r.(binding := First(r.binding, b))
  {
    var j := BindingJson(b);
    NamesDiffer(SIGNATURE_BINDING_EVENT, SIGNATURE_BINDING_EVENT, lib.json.print_(j));
    RawOfEvent(SIGNATURE_BINDING_EVENT, lib.json.print_(j), "{}");
    assert lib.json.parse(lib.json.print_(j)) == Some(j);
    assert TextField(j, "providerRequestId") == Some(b.providerRequestId);
    assert TextField(j, "exactRequestHash") == Some(b.exactRequestHash);
    assert TextField(j, "exactResponseHash") == Some(b.exactResponseHash);
  }

  lemma ReadTerminalEvent(lib: Library, r: Reading, data: string)
    ensures Handle(lib, r, EventBody(TERMINAL_EVENT, data))
         == r.(end := Some(if r.usage.Some? then Complete else Failed("worker_stream_incomplete")))
  {
    NamesDiffer(TERMINAL_EVENT, TERMINAL_EVENT, data);
    NamesDiffer(TERMINAL_EVENT, USAGE_EVENT, data);
    NamesDiffer(TERMINAL_EVENT, SIGNATURE_BINDING_EVENT, data);
  }

  lemma ReadErrorEvent(lib: Library, r: Reading)
    requires Lawful(lib.json)
    ensures Handle(lib, r, EventBody(STREAM_ERROR_EVENT, lib.json.print_(ERROR_JSON)))
         == r.(end := Some(Failed("provider_stream_incomplete")))
  {
    var data := lib.json.print_(ERROR_JSON);
    NamesDiffer(STREAM_ERROR_EVENT, STREAM_ERROR_EVENT, data);
    NamesDiffer(STREAM_ERROR_EVENT, TERMINAL_EVENT, data);
    NamesDiffer(STREAM_ERROR_EVENT, USAGE_EVENT, data);
    NamesDiffer(STREAM_ERROR_EVENT, SIGNATURE_BINDING_EVENT, data);
    RawOfEvent(STREAM_ERROR_EVENT, data, "{}");
    assert lib.json.parse(data) == Some(ERROR_JSON);
    assert TextField(ERROR_JSON, "code") == Some("provider_stream_incomplete");
  }

  /** The metadata events of a stream: all but the last, and the last. */
  function Metas(c: JsonText, w: WorkerStream): (r: seq<(string, string)>) {
    var binding := if w.broken.Whole? && Sent(w.binding).Some?
                   then [(SIGNATURE_BINDING_EVENT, c.print_(BindingJson(w.binding.value)))] else [];
    binding + [(USAGE_EVENT, Printed(c, w.usage))]
  }

  function LastMeta(c: JsonText, w: WorkerStream): (r: (string, string)) {
    if w.broken.Whole? then (TERMINAL_EVENT, "{\"status\":\"complete\"}")
    else (STREAM_ERROR_EVENT, c.print_(ERROR_JSON))
  }

  /** A stream the writer ends with a terminal or an error event. */
  predicate Terminated(w: WorkerStream) {
    w.broken == Whole || w.broken == Broke(INCOMPLETE)
  }

  function Texts(metas: seq<(string, string)>): (r: seq<string>) {
    if metas == [] then [] else Texts(metas[..|metas| - 1]) + [SideEvent(metas[|metas| - 1].0, metas[|metas| - 1].1)]
  }

  function MetaBodies(metas: seq<(string, string)>): (r: seq<string>) {
    if metas == [] then []
    else MetaBodies(metas[..|metas| - 1]) + [EventBody(metas[|metas| - 1].0, metas[|metas| - 1].1)]
  }

  ghost predicate MetasOk(metas: seq<(string, string)>) {
    forall i :: 0 <= i < |metas| ==> IsName(metas[i].0) && Compact(metas[i].1)
  }

  lemma {:induction false} MetasArePieces(metas: seq<(string, string)>)
    requires MetasOk(metas)
    ensures AllPieces(Texts(metas)) && Bodies(Texts(metas)) == MetaBodies(metas)
  {
    if metas != [] {
      var front, last := metas[..|metas| - 1], metas[|metas| - 1];
      MetasArePieces(front);
      SideEventIsPiece(last.0, last.1);
      assert Texts(metas)[..|Texts(metas)| - 1] == Texts(front);
    }
  }

  lemma TextsAppend(metas: seq<(string, string)>, last: (string, string))
    ensures Texts(metas + [last]) == Texts(metas) + [SideEvent(last.0, last.1)]
    ensures MetaBodies(metas + [last]) == MetaBodies(metas) + [EventBody(last.0, last.1)]
  {
    assert (metas + [last])[..|metas|] == metas;
  }

  lemma TextsOfOne(meta: (string, string))
    ensures Texts([meta]) == [SideEvent(meta.0, meta.1)] && MetaBodies([meta]) == [EventBody(meta.0, meta.1)]
  {
    assert [meta] == [] + [meta];
    TextsAppend([], meta);
  }

  lemma TailIsMetas(c: JsonText, w: WorkerStream)
    requires Terminated(w)
    ensures Tail(c, w) == Texts(Metas(c, w)) + [SideEvent(LastMeta(c, w).0, LastMeta(c, w).1)]
  {
    var usage := (USAGE_EVENT, Printed(c, w.usage));
    TextsOfOne(usage);
    if w.broken.Whole? && Sent(w.binding).Some? {
      var binding := (SIGNATURE_BINDING_EVENT, c.print_(BindingJson(w.binding.value)));
      TextsOfOne(binding);
      TextsAppend([binding], usage);
    } else {
      assert Metas(c, w) == [usage];
    }
  }

  lemma TailMetasOk(c: JsonText, w: WorkerStream)
    requires Lawful(c)
    ensures MetasOk(Metas(c, w)) && MetasOk([LastMeta(c, w)])
  {
  }

  /** The state once all metadata but the last event has been read. */
  ghost function BeforeEnd(w: WorkerStream): Reading {
    Reading(Normal(Public(w.chunks)), Some(ReadBack(w.usage)), if w.broken.Whole? then Sent(w.binding) else None, None)
  }

  lemma ReadMetas(lib: Library, w: WorkerStream, r: Reading)
    requires Lawful(lib.json) && Terminated(w) && r == START.(frames := Normal(Public(w.chunks)))
    ensures HandleAll(lib, r, MetaBodies(Metas(lib.json, w))) == BeforeEnd(w)
  {
    var usage := (USAGE_EVENT, Printed(lib.json, w.usage));
    TextsOfOne(usage);
    if w.broken.Whole? && Sent(w.binding).Some? {
      var binding := (SIGNATURE_BINDING_EVENT, lib.json.print_(BindingJson(w.binding.value)));
      TextsOfOne(binding);
      TextsAppend([binding], usage);
      ReadBindingEvent(lib, r, w.binding.value);
      var bound := r.(binding := w.binding);
      HandleAllAppends(lib, r, MetaBodies([binding]), MetaBodies([usage]));
      HandleOne(lib, r, MetaBodies([binding])[0]);
      HandleOne(lib, bound, MetaBodies([usage])[0]);
      ReadUsageEvent(lib, bound, w.usage);
    } else {
      assert Metas(lib.json, w) == [usage];
      HandleOne(lib, r, MetaBodies([usage])[0]);
      ReadUsageEvent(lib, r, w.usage);
    }
  }

  lemma HandleOne(lib: Library, r: Reading, event: string)
    requires r.end.None?
    ensures HandleAll(lib, r, [event]) == Handle(lib, r, event)
  {
  }

  /** The pieces the writer sends before the last one. */
  ghost function Early(c: JsonText, w: WorkerStream): (r: seq<string>) {
    Public(w.chunks) + Texts(Metas(c, w))
  }

  function Last(c: JsonText, w: WorkerStream): (r: string) {
    SideEvent(LastMeta(c, w).0, LastMeta(c, w).1)
  }

  lemma ReadEarly(lib: Library, w: WorkerStream, t: string)
    requires Lawful(lib.json) && Terminated(w) && AllFrames(Public(w.chunks))
    ensures AllPieces(Early(lib.json, w))
    ensures Split(Crlf(Concat(Early(lib.json, w)) + t)) == Then(Bodies(Early(lib.json, w)), Split(Crlf(t)))
    ensures HandleAll(lib, START, Bodies(Early(lib.json, w))) == BeforeEnd(w)
  {
    var frames, metas := Public(w.chunks), Metas(lib.json, w);
    TailMetasOk(lib.json, w);
    MetasArePieces(metas);
    BodiesJoin(frames, Texts(metas));
    SplitPieces(frames + Texts(metas), t);
    HandleAllAppends(lib, START, Bodies(frames), MetaBodies(metas));
    HandleFrames(lib, frames);
    ReadMetas(lib, w, START.(frames := Normal(frames)));
  }

  /** What the receiver is told of a stream: `provider_stream_incomplete` is told apart from a lost worker. */
  ghost function Promised(w: WorkerStream): Received {
    Received(Normal(Public(w.chunks)), ReadBack(w.usage), if w.broken.Whole? then Presented(w.binding) else None,
             if w.broken.Whole? then Complete else Failed("provider_stream_incomplete"))
  }

  ghost predicate Written(c: JsonText, w: WorkerStream, text: string) {
    text == Concat(Public(w.chunks) + Tail(c, w))
  }

  lemma WrittenEndsWithLast(c: JsonText, w: WorkerStream, text: string)
    requires Terminated(w) && Written(c, w, text)
    ensures text == Concat(Early(c, w)) + Last(c, w)
  {
    TailIsMetas(c, w);
    assert Public(w.chunks) + Tail(c, w) == Early(c, w) + [Last(c, w)];
    ConcatAppends(Early(c, w), Last(c, w));
  }

  lemma WrittenHasNoStray(c: JsonText, w: WorkerStream, text: string)
    requires Lawful(c) && Terminated(w) && Written(c, w, text) && AllFrames(Public(w.chunks))
    ensures NoStray(text)
  {
    var metas := Metas(c, w);
    WrittenEndsWithLast(c, w, text);
    TailMetasOk(c, w);
    assert LastMeta(c, w) == [LastMeta(c, w)][0];
    SideEventIsPiece(LastMeta(c, w).0, LastMeta(c, w).1);
    MetasArePieces(metas);
    PiecesHaveNoStray(Early(c, w));
    NoStrayJoins(Concat(Early(c, w)), Last(c, w));
  }

  lemma ReadLast(lib: Library, w: WorkerStream)
    requires Lawful(lib.json) && Terminated(w)
    ensures Split(Crlf(Last(lib.json, w))).events == [EventBody(LastMeta(lib.json, w).0, LastMeta(lib.json, w).1)]
    ensures Handle(lib, BeforeEnd(w), EventBody(LastMeta(lib.json, w).0, LastMeta(lib.json, w).1))
         == BeforeEnd(w).(end := Some(Promised(w).end))
  {
    var (name, data) := LastMeta(lib.json, w);
    TailMetasOk(lib.json, w);
    assert LastMeta(lib.json, w) == [LastMeta(lib.json, w)][0];
    SideEventIsPiece(name, data);
    SplitEvent(Crlf(SideEvent(name, data)), "");
    NoBlankNoEvents("");
    assert Crlf(SideEvent(name, data)) + "" == Crlf(SideEvent(name, data));
    if w.broken.Whole? {
      ReadTerminalEvent(lib, BeforeEnd(w), data);
    } else {
      ReadErrorEvent(lib, BeforeEnd(w));
    }
  }

  /**
   * Reading what was written gives back the frames without the provider's end marker, the
   * usage, the signature binding and the way the stream ended, for every way of cutting the
   * text into chunks.
   */
  lemma WrittenStreamsReadBack(lib: Library, w: WorkerStream, chunks: seq<string>)
    requires Lawful(lib.json) && Terminated(w) && AllFrames(Public(w.chunks))
    requires Written(lib.json, w, Concat(chunks))
    ensures Finish(FeedAll(lib, chunks).reading) == Promised(w)
  {
    var c := lib.json;
    WrittenHasNoStray(c, w, Concat(chunks));
    ChunkingIsInvisible(lib, chunks);
    WrittenEndsWithLast(c, w, Concat(chunks));
    ReadAll(lib, w);
    EndIsPromised(w);
  }

  lemma ReadAll(lib: Library, w: WorkerStream)
    requires Lawful(lib.json) && Terminated(w) && AllFrames(Public(w.chunks))
    ensures ReadText(lib, Concat(Early(lib.json, w)) + Last(lib.json, w)).reading
         == BeforeEnd(w).(end := Some(Promised(w).end))
  {
    var c := lib.json;
    ReadEarly(lib, w, Last(c, w));
    ReadLast(lib, w);
    var end := Split(Crlf(Last(c, w))).events;
    HandleAllAppends(lib, START, Bodies(Early(c, w)), end);
    HandleOne(lib, BeforeEnd(w), end[0]);
  }

  lemma EndIsPromised(w: WorkerStream)
    ensures Finish(BeforeEnd(w).(end := Some(Promised(w).end))) == Promised(w)
  {
    SentIsPresented(w.binding);
  }

  // ----- Cuts

  /** Reading on never takes back what was yielded or resolved. */
  lemma {:induction false} HandleAllGrows(lib: Library, r: Reading, events: seq<string>)
    ensures r.frames <= HandleAll(lib, r, events).frames
    ensures r.usage.Some? ==> HandleAll(lib, r, events).usage == r.usage
    ensures r.end.Some? ==> HandleAll(lib, r, events) == r
    decreases |events|
  {
    if r.end.None? && events != [] {
      HandleAllGrows(lib, Handle(lib, r, events[0]), events[1..]);
    }
  }

  lemma FeedMore(lib: Library, chunks: seq<string>, more: string)
    ensures FeedAll(lib, chunks + [more]) == Feed(lib, FeedAll(lib, chunks), more)
    ensures var r, r' := FeedAll(lib, chunks).reading, FeedAll(lib, chunks + [more]).reading;
      r.frames <= r'.frames && (r.usage.Some? ==> r'.usage == r.usage) && (r.end.Some? ==> r' == r)
  {
    assert (chunks + [more])[..|chunks|] == chunks;
    var s := FeedAll(lib, chunks);
    HandleAllGrows(lib, s.reading, Split(Crlf(s.buffer + more)).events);
  }

  lemma OneShort(c: JsonText, w: WorkerStream, text: string)
    requires Terminated(w) && Written(c, w, text)
    ensures Last(c, w) != "" && text != ""
    ensures text[..|text| - 1] == Concat(Early(c, w)) + Last(c, w)[..|Last(c, w)| - 1]
  {
    WrittenEndsWithLast(c, w, text);
  }

  /** All of a written text but its last character leaves the reader waiting. */
  lemma OneShortIsNoEnd(lib: Library, w: WorkerStream, chunks: seq<string>, text: string)
    requires Lawful(lib.json) && Terminated(w) && AllFrames(Public(w.chunks))
    requires Written(lib.json, w, text) && text != "" && Concat(chunks) == text[..|text| - 1]
    ensures FeedAll(lib, chunks).reading == BeforeEnd(w)
  {
    var c := lib.json;
    WrittenHasNoStray(c, w, text);
    PrefixHasNoStray(text, Concat(chunks));
    ChunkingIsInvisible(lib, chunks);
    OneShort(c, w, text);
    CutLast(c, w);
    ReadCut(lib, w, Last(c, w)[..|Last(c, w)| - 1]);
  }

  lemma PrefixHasNoStray(text: string, part: string)
    requires NoStray(text) && text != "" && part == text[..|text| - 1]
    ensures NoStray(part)
  {
    assert text == part + text[|text| - 1..];
    NoStrayStart(part, text[|text| - 1..]);
  }

  lemma ReadCut(lib: Library, w: WorkerStream, cut: string)
    requires Lawful(lib.json) && Terminated(w) && AllFrames(Public(w.chunks))
    requires Split(Crlf(cut)).events == []
    ensures ReadText(lib, Concat(Early(lib.json, w)) + cut).reading == BeforeEnd(w)
  {
    ReadEarly(lib, w, cut);
    var events := Bodies(Early(lib.json, w));
    assert events + [] == events;
  }

  lemma CutLast(c: JsonText, w: WorkerStream)
    requires Lawful(c)
    ensures var last := Last(c, w); last != "" && Split(Crlf(last[..|last| - 1])).events == []
  {
    TailMetasOk(c, w);
    assert LastMeta(c, w) == [LastMeta(c, w)][0];
    CutSideEvent(LastMeta(c, w).0, LastMeta(c, w).1);
  }

  /**
   * A written text cut anywhere before its end, under any chunking, reads as an error, never as
   * a normal or a provider's end; what was yielded is a beginning of the frames, and the usage
   * is the right one or missing.
   */
  lemma CutsAreNeverSilent(lib: Library, w: WorkerStream, chunks: seq<string>, text: string)
    requires Lawful(lib.json) && Terminated(w) && AllFrames(Public(w.chunks))
    requires Written(lib.json, w, text) && Concat(chunks) < text
    ensures var received := Finish(FeedAll(lib, chunks).reading);
      && received.end == Failed("worker_stream_incomplete")
      && received.frames <= Promised(w).frames
      && (received.usage == None || received.usage == Promised(w).usage)
  {
    var n := |Concat(chunks)|;
    var more := text[n..|text| - 1];
    ConcatAppends(chunks, more);
    assert Concat(chunks) == text[..n];
    assert Concat(chunks + [more]) == text[..|text| - 1];
    OneShortIsNoEnd(lib, w, chunks + [more], text);
    FeedMore(lib, chunks, more);
  }

  // ----- The text itself

  /** The metadata events, character by character. */
  lemma WireNames(name: string, data: string)
    ensures SideEvent(name, data) == "event: " + name + "\ndata: " + data + "\n\n"
    ensures USAGE_EVENT == "anonrouter-usage" && SIGNATURE_BINDING_EVENT == "anonrouter-signature-binding"
    ensures STREAM_ERROR_EVENT == "anonrouter-stream-error" && TERMINAL_EVENT == "anonrouter-terminal"
  {
  }

  /** Which metadata events follow the public chunks, and with what data. */
  lemma WireFormat(c: JsonText, w: WorkerStream)
    ensures var usage := c.print_(match w.usage case Some(u) => UsageJson(u) case None => JNull);
      var binding := Presented(w.binding);
      Tail(c, w) ==
        if w.broken == Whole then
          (if binding == None then [] else [SideEvent(SIGNATURE_BINDING_EVENT, c.print_(BindingJson(binding.value)))])
          + [SideEvent(USAGE_EVENT, usage), SideEvent(TERMINAL_EVENT, "{\"status\":\"complete\"}")]
        else if w.broken == Broke(ProviderFailure("provider_stream_incomplete")) then
          [SideEvent(USAGE_EVENT, usage), SideEvent(STREAM_ERROR_EVENT, c.print_(ERROR_JSON))]
        else []
  {
    SentIsPresented(w.binding);
  }

  /** A binding is read from text that does not parse, or lacks a field or its format: the reading ends in an error. */
  lemma MalformedBindingEndsReading(lib: Library, r: Reading, data: string)
    requires Compact(data)
    requires forall b :: Presentable(b) && lib.json.parse(data).Some? ==>
               TextField(lib.json.parse(data).value, "providerRequestId") != Some(b.providerRequestId)
               || TextField(lib.json.parse(data).value, "exactRequestHash") != Some(b.exactRequestHash)
               || TextField(lib.json.parse(data).value, "exactResponseHash") != Some(b.exactResponseHash)
    ensures Handle(lib, r, EventBody(SIGNATURE_BINDING_EVENT, data))
         == r.(end := Some(Failed("worker_stream_incomplete")))
  {
    NamesDiffer(SIGNATURE_BINDING_EVENT, SIGNATURE_BINDING_EVENT, data);
    RawOfEvent(SIGNATURE_BINDING_EVENT, data, "{}");
    var b := ReadBinding(lib, data);
    if b.Some? {
      SentIsPresented(b);
    }
  }

  /** A stream error with another code, or none that can be read, is told apart from an incomplete provider stream. */
  lemma OtherStreamErrorsFail(lib: Library, r: Reading, data: string)
    requires Compact(data)
    requires lib.json.parse(data).Some? ==>
               TextField(lib.json.parse(data).value, "code") != Some("provider_stream_incomplete")
    ensures Handle(lib, r, EventBody(STREAM_ERROR_EVENT, data)) == r.(end := Some(Failed("worker_stream_failed")))
  {
    NamesDiffer(STREAM_ERROR_EVENT, STREAM_ERROR_EVENT, data);
    NamesDiffer(STREAM_ERROR_EVENT, TERMINAL_EVENT, data);
    NamesDiffer(STREAM_ERROR_EVENT, USAGE_EVENT, data);
    NamesDiffer(STREAM_ERROR_EVENT, SIGNATURE_BINDING_EVENT, data);
    RawOfEvent(STREAM_ERROR_EVENT, data, "{}");
  }

  /** Usage that cannot be read, or is null, resolves to nothing, and counts as received. */
  lemma UnreadableUsageIsReceived(lib: Library, r: Reading, data: string)
    requires Compact(data) && r.usage == None
    requires lib.json.parse(data) == None || lib.json.parse(data) == Some(JNull)
    ensures Handle(lib, r, EventBody(USAGE_EVENT, data)) == r.(usage := Some(None))
  {
    NamesDiffer(USAGE_EVENT, USAGE_EVENT, data);
    NamesDiffer(USAGE_EVENT, SIGNATURE_BINDING_EVENT, data);
    RawOfEvent(USAGE_EVENT, data, "null");
  }

  /**
   * Usage in the worker's own form keeps its members, a missing or null cache-write count read
   * as zero; any other is translated.
   */
  lemma UsageOfEitherForm(lib: Library, r: Reading, data: string, usage: Json)
    requires Compact(data) && r.usage == None && lib.json.parse(data) == Some(usage) && usage != JNull
    ensures var read := Handle(lib, r, EventBody(USAGE_EVENT, data));
      read == r.(usage := read.usage) && read.usage.Some?
    ensures var read := Handle(lib, r, EventBody(USAGE_EVENT, data)).usage.value;
      if usage.JObject? && "inputTokens" in usage.fields then
        && read.Some? && read.value.JObject?
        && read.value.fields.Keys == usage.fields.Keys + {"cacheWriteTokens"}
        && (forall k :: k in usage.fields && k != "cacheWriteTokens" ==> read.value.fields[k] == usage.fields[k])
        && (read.value.fields["cacheWriteTokens"] ==
              if "cacheWriteTokens" in usage.fields && usage.fields["cacheWriteTokens"] != JNull
              then usage.fields["cacheWriteTokens"] else JInt(0))
      else read == lib.openAi(usage)
  {
    NamesDiffer(USAGE_EVENT, USAGE_EVENT, data);
    NamesDiffer(USAGE_EVENT, SIGNATURE_BINDING_EVENT, data);
    RawOfEvent(USAGE_EVENT, data, "null");
  }

  // ----- When the reader completes

  /** Whether the reader stops at an event, with or without an error. */
  predicate Stops(lib: Library, event: string) {
    if Named(event, SIGNATURE_BINDING_EVENT) then ReadBinding(lib, Raw(event, "{}")).None?
    else !Named(event, USAGE_EVENT) && (Named(event, TERMINAL_EVENT) || Named(event, STREAM_ERROR_EVENT))
  }

  predicate Quiet(lib: Library, events: seq<string>, n: nat)
    requires n <= |events|
  {
    forall k :: 0 <= k < n ==> !Stops(lib, events[k])
  }

  predicate UsageBefore(events: seq<string>, n: nat)
    requires n <= |events|
  {
    exists u :: 0 <= u < n && Named(events[u], USAGE_EVENT)
  }

  /** The event at `n` completes the stream: usage came before it, and nothing before it stopped the reader. */
  predicate CompletesAt(lib: Library, events: seq<string>, n: nat)
    requires n < |events|
  {
    Named(events[n], TERMINAL_EVENT) && Quiet(lib, events, n) && UsageBefore(events, n)
  }

  predicate CompletesBefore(lib: Library, events: seq<string>, n: nat)
    requires n <= |events|
  {
    exists k :: 0 <= k < n && CompletesAt(lib, events, k)
  }

  lemma NamesExclude(event: string)
    ensures Named(event, TERMINAL_EVENT) ==>
      !Named(event, SIGNATURE_BINDING_EVENT) && !Named(event, USAGE_EVENT) && !Named(event, STREAM_ERROR_EVENT)
    ensures Named(event, USAGE_EVENT) ==> !Named(event, SIGNATURE_BINDING_EVENT)
  {
    var t, u, s, e := "event: " + TERMINAL_EVENT, "event: " + USAGE_EVENT, "event: " + SIGNATURE_BINDING_EVENT,
                      "event: " + STREAM_ERROR_EVENT;
    assert t[18] == 't' && u[18] == 'u' && s[18] == 's' && e[18] == 's';
  }

  lemma OneMore(lib: Library, events: seq<string>, n: nat)
    requires 0 < n <= |events|
    ensures Quiet(lib, events, n) <==> Quiet(lib, events, n - 1) && !Stops(lib, events[n - 1])
    ensures UsageBefore(events, n) <==> UsageBefore(events, n - 1) || Named(events[n - 1], USAGE_EVENT)
    ensures CompletesBefore(lib, events, n) <==> CompletesBefore(lib, events, n - 1) || CompletesAt(lib, events, n - 1)
  {
  }

  lemma HandleStops(lib: Library, r: Reading, event: string)
    requires r.end.None?
    ensures var r' := Handle(lib, r, event);
      && (r'.end.None? <==> !Stops(lib, event))
      && (r'.end.None? ==> (r'.usage.Some? <==> r.usage.Some? || Named(event, USAGE_EVENT)))
      && (r'.end == Some(Complete) <==> Named(event, TERMINAL_EVENT) && r.usage.Some?)
  {
    NamesExclude(event);
  }

  lemma {:induction false} CompletionOf(lib: Library, events: seq<string>, n: nat)
    requires n <= |events|
    ensures var r := HandleAll(lib, START, events[..n]);
      && (r.end.None? <==> Quiet(lib, events, n))
      && (r.end.None? ==> (r.usage.Some? <==> UsageBefore(events, n)))
      && (r.end == Some(Complete) <==> CompletesBefore(lib, events, n))
  {
    if n > 0 {
      var event := events[n - 1];
      var before := HandleAll(lib, START, events[..n - 1]);
      CompletionOf(lib, events, n - 1);
      assert events[..n] == events[..n - 1] + [event];
      HandleAllAppends(lib, START, events[..n - 1], [event]);
      OneMore(lib, events, n);
      if before.end.None? {
        HandleOne(lib, before, event);
        HandleStops(lib, before, event);
      } else {
        HandleAllGrows(lib, before, [event]);
      }
    }
  }

  /**
   * Whatever the chunks, the reader completes exactly when among their events there is a
   * terminal one with a usage event before it and nothing before it that stops the reader.
   */
  lemma CompletionNeedsUsage(lib: Library, chunks: seq<string>)
    ensures var events := Pieces(chunks).events;
      Finish(FeedAll(lib, chunks).reading).end == Complete <==> CompletesBefore(lib, events, |events|)
  {
    FeedPieces(lib, chunks);
    var events := Pieces(chunks).events;
    CompletionOf(lib, events, |events|);
    assert events[..|events|] == events;
  }

  /** A stream broken by any other failure carries no metadata, and reads as an error after its frames. */
  lemma BrokenStreamsReadAsErrors(lib: Library, w: WorkerStream, chunks: seq<string>)
    requires !Terminated(w) && AllFrames(Public(w.chunks)) && Written(lib.json, w, Concat(chunks))
    ensures Finish(FeedAll(lib, chunks).reading)
         == Received(Normal(Public(w.chunks)), None, None, Failed("worker_stream_incomplete"))
  {
    var frames := Public(w.chunks);
    assert frames + Tail(lib.json, w) == frames;
    PiecesHaveNoStray(frames);
    ChunkingIsInvisible(lib, chunks);
    SplitPieces(frames, "");
    assert Concat(frames) + "" == Concat(frames);
    NoBlankNoEvents("");
    assert Bodies(frames) + [] == Bodies(frames);
    HandleFrames(lib, frames);
  }
}
