/** How the stream reader cuts its input into events: line ends, the buffer, and when chunking is invisible. */
module StreamChunks {
  import opened Wrappers
  import opened Text
  import opened StreamCodec

  function Concat(pieces: seq<string>): (r: string) {
    if pieces == [] then "" else Concat(pieces[..|pieces| - 1]) + pieces[|pieces| - 1]
  }

  lemma ConcatAppends(pieces: seq<string>, last: string)
    ensures Concat(pieces + [last]) == Concat(pieces) + last
  {
    assert (pieces + [last])[..|pieces|] == pieces;
  }

  lemma {:induction false} ConcatJoins(a: seq<string>, b: seq<string>)
    ensures Concat(a + b) == Concat(a) + Concat(b)
  {
    if b == [] {
      assert a + b == a;
    } else {
      var front, last := b[..|b| - 1], b[|b| - 1];
      assert a + b == (a + front) + [last];
      ConcatAppends(a + front, last);
      ConcatJoins(a, front);
    }
  }

  // ----- Line ends

  /** No carriage return stands before a CRLF. */
  predicate NoStray(t: string) {
    forall i :: 0 <= i < |t| - 2 && t[i] == '\r' && t[i + 1] == '\r' ==> t[i + 2] != '\n'
  }

  predicate NoCrlf(t: string) {
    forall i :: 0 <= i < |t| - 1 && t[i] == '\r' ==> t[i + 1] != '\n'
  }

  predicate EndsCr(t: string) {
    t != "" && t[|t| - 1] == '\r'
  }

  predicate EndsLf(t: string) {
    t != "" && t[|t| - 1] == '\n'
  }

  predicate StartsLf(t: string) {
    t != "" && t[0] == '\n'
  }

  lemma CrlfOfPair(t: string)
    ensures Crlf(['\r', '\n'] + t) == ['\n'] + Crlf(t)
  {
    assert (['\r', '\n'] + t)[2..] == t;
  }

  lemma CrlfOfOther(c: char, t: string)
    requires c != '\r' || !StartsLf(t)
    ensures Crlf([c] + t) == [c] + Crlf(t)
  {
    assert ([c] + t)[1..] == t;
  }

  lemma {:induction false} CrlfSplits(p: string, q: string)
    requires !EndsCr(p) || !StartsLf(q)
    ensures Crlf(p + q) == Crlf(p) + Crlf(q)
    decreases |p|
  {
    if p == "" {
      assert p + q == q;
    } else if p[0] == '\r' && StartsLf(p[1..]) {
      var t := p[2..];
      assert p == ['\r', '\n'] + t;
      Joined(['\r', '\n'], t, q);
      CrlfOfPair(t);
      CrlfOfPair(t + q);
      CrlfSplits(t, q);
      Joined(['\n'], Crlf(t), Crlf(q));
    } else {
      var c, t := p[0], p[1..];
      assert p == [c] + t;
      Joined([c], t, q);
      CrlfOfOther(c, t);
      CrlfOfOther(c, t + q);
      CrlfSplits(t, q);
      Joined([c], Crlf(t), Crlf(q));
    }
  }

  lemma {:induction false} CrlfOfNoCrlf(t: string)
    requires NoCrlf(t)
    ensures Crlf(t) == t
    decreases |t|
  {
    if |t| >= 2 {
      CrlfOfNoCrlf(t[1..]);
      assert t == [t[0]] + t[1..];
    }
  }

  lemma {:induction false} CrlfShape(t: string)
    ensures t != "" ==> Crlf(t) != ""
    ensures EndsCr(Crlf(t)) == EndsCr(t)
    ensures EndsLf(Crlf(t)) == EndsLf(t)
    ensures StartsLf(Crlf(t)) ==> StartsLf(t) || (|t| >= 2 && t[0] == '\r' && t[1] == '\n')
    decreases |t|
  {
    if |t| >= 2 {
      CrlfShape(if t[0] == '\r' && t[1] == '\n' then t[2..] else t[1..]);
    }
  }

  lemma {:induction false} CrlfLeavesNone(t: string)
    requires NoStray(t)
    ensures NoCrlf(Crlf(t))
    decreases |t|
  {
    if |t| >= 2 {
      var rest := if t[0] == '\r' && t[1] == '\n' then t[2..] else t[1..];
      assert NoStray(rest);
      CrlfLeavesNone(rest);
      CrlfShape(rest);
    }
  }

  lemma NoStrayStart(t: string, c: string)
    requires NoStray(t + c)
    ensures NoStray(t)
    ensures EndsCr(t) && StartsLf(c) ==> !EndsCr(t[..|t| - 1])
  {
    assert forall i :: 0 <= i < |t| ==> t[i] == (t + c)[i];
    if EndsCr(t) && StartsLf(c) && |t| >= 2 {
      assert (t + c)[|t| - 1] == '\r' && (t + c)[|t|] == '\n';
      assert (t + c)[|t| - 2] != '\r';
    }
  }

  /** Normalising a normalised text changes nothing. */
  lemma CrlfOnce(t: string)
    requires NoStray(t)
    ensures Crlf(Crlf(t)) == Crlf(t) && EndsCr(Crlf(t)) == EndsCr(t)
  {
    CrlfLeavesNone(t);
    CrlfOfNoCrlf(Crlf(t));
    CrlfShape(t);
  }

  /** A CRLF cut in two by a chunk. */
  lemma CrlfAcross(front: string, c: string)
    requires NoStray(front) && !EndsCr(front)
    ensures Crlf(Crlf(front + "\r") + c) == Crlf(front + ("\r" + c))
  {
    CrlfOnce(front);
    CrlfSplits(front, "\r");
    var x, y := Crlf(front), "\r" + c;
    Joined(x, "\r", c);
    CrlfSplits(front, y);
    CrlfSplits(x, y);
  }

  /** Normalising piece by piece is normalising once. */
  lemma CrlfTwice(t: string, c: string)
    requires NoStray(t + c)
    ensures Crlf(Crlf(t) + c) == Crlf(t + c)
  {
    NoStrayStart(t, c);
    if EndsCr(t) && StartsLf(c) {
      var front := t[..|t| - 1];
      assert t == front + "\r" && t + c == front + ("\r" + c);
      NoStrayStart(front, "\r");
      CrlfAcross(front, c);
    } else {
      CrlfOnce(t);
      CrlfSplits(t, c);
      CrlfSplits(Crlf(t), c);
    }
  }

  // ----- Events

  lemma FirstBlankStays(a: string, c: string)
    requires FirstBlank(a).Some?
    ensures FirstBlank(a + c) == FirstBlank(a)
  {
    assert BlankAt(a + c, FirstBlank(a).value);
    var first := FirstBlank(a + c).value;
    assert BlankAt(a, first);
  }

  lemma {:induction false} SplitAppends(a: string, c: string)
    ensures Split(a + c) == Then(Split(a).events, Split(Split(a).rest + c))
    decreases |a|
  {
    var b := FirstBlank(a);
    if b.None? {
      NoBlankNoEvents(a);
      ThenNothing(Split(a + c));
    } else {
      SplitAppends(a[b.value + 2..], c);
      SplitAppendsStep(a, c, b.value);
    }
  }

  lemma SplitAppendsStep(a: string, c: string, b: nat)
    requires FirstBlank(a) == Some(b)
    requires var rest := a[b + 2..]; Split(rest + c) == Then(Split(rest).events, Split(Split(rest).rest + c))
    ensures Split(a + c) == Then(Split(a).events, Split(Split(a).rest + c))
  {
    var event, rest := a[..b], a[b + 2..];
    FirstBlankStays(a, c);
    AfterFirst(a, c, b);
    SplitStep(a, b);
    SplitStep(a + c, b);
    ThenThen([event], Split(rest).events, Split(Split(rest).rest + c));
  }

  lemma SplitStep(t: string, b: nat)
    requires FirstBlank(t) == Some(b)
    ensures Split(t) == Then([t[..b]], Split(t[b + 2..]))
  {
  }

  lemma ThenThen(a: seq<string>, b: seq<string>, p: Parts)
    ensures Then(a, Then(b, p)) == Then(a + b, p)
  {
    assert a + (b + p.events) == (a + b) + p.events;
  }

  lemma ThenNothing(p: Parts)
    ensures Then([], p) == p
  {
  }

  /** Events in front of those of another text. */
  function Then(events: seq<string>, later: Parts): Parts {
    Parts(events + later.events, later.rest)
  }

  lemma AfterFirst(a: string, c: string, b: nat)
    requires b + 2 <= |a|
    ensures (a + c)[b + 2..] == a[b + 2..] + c && (a + c)[..b] == a[..b]
  {
  }

  /** The events of a text use up a part of it that ends with a line end. */
  lemma {:induction false} SplitConsumes(t: string) returns (used: string)
    ensures t == used + Split(t).rest
    ensures used == "" || EndsBlank(used)
    ensures Split(used) == Parts(Split(t).events, "")
    decreases |t|
  {
    var b := FirstBlank(t);
    if b.None? {
      used := "";
      assert t == used + t;
    } else {
      var event, rest := t[..b.value + 2], t[b.value + 2..];
      var more := SplitConsumes(rest);
      used := event + more;
      assert t == event + rest;
      Joined(event, more, Split(rest).rest);
      FirstEvent(t, b.value);
      SplitEvent(event, more);
      SplitStep(t, b.value);
      LastOf(event, more);
    }
  }

  predicate EndsBlank(t: string) {
    BlankAt(t, |t| - 2)
  }

  lemma LastOf(a: string, b: string)
    ensures EndsBlank(a) && (b == "" || EndsBlank(b)) ==> EndsBlank(a + b)
  {
  }

  lemma FirstEvent(t: string, b: nat)
    requires FirstBlank(t) == Some(b)
    ensures var event := t[..b + 2]; IsEvent(event) && Body(event) == t[..b] && EndsBlank(event)
  {
    var event := t[..b + 2];
    assert BlankAt(event, b);
    assert forall i :: BlankAt(event, i) ==> BlankAt(t, i);
  }

  /** One event: it ends at its first blank line. */
  predicate IsEvent(f: string) {
    FirstBlank(f) == Some(|f| - 2)
  }

  function Body(f: string): string
    requires |f| >= 2
  {
    f[..|f| - 2]
  }

  lemma SplitEvent(f: string, t: string)
    ensures IsEvent(f) ==> Split(f + t) == Then([Body(f)], Split(t))
  {
    if IsEvent(f) {
      SplitAppends(f, t);
      assert f[|f|..] == "";
      assert Split(f) == Parts([Body(f)], "");
      assert "" + t == t;
    }
  }

  lemma {:induction false} HandleAllAppends(lib: Library, r: Reading, a: seq<string>, b: seq<string>)
    ensures HandleAll(lib, r, a + b) == HandleAll(lib, HandleAll(lib, r, a), b)
    decreases |a|
  {
    if a == [] {
      assert a + b == b;
    } else if r.end.None? {
      HandleAllAppends(lib, Handle(lib, r, a[0]), a[1..], b);
      assert (a + b)[1..] == a[1..] + b;
    }
  }

  // ----- Chunks

  /** Reading a text that comes in one piece. */
  function ReadText(lib: Library, t: string): (r: Stage) {
    var parts := Split(Crlf(t));
    Stage(HandleAll(lib, START, parts.events), parts.rest)
  }

  lemma SplitResumes(x: string, c: string)
    requires NoCrlf(x)
    ensures Split(Crlf(x + c)) == Then(Split(x).events, Split(Crlf(Split(x).rest + c)))
  {
    var used := SplitConsumes(x);
    var rest := Split(x).rest;
    CrlfAfterEvents(x, used, rest, c);
    AfterConsumed(used, Split(x).events, Crlf(rest + c));
  }

  lemma AfterConsumed(used: string, events: seq<string>, next: string)
    requires Split(used) == Parts(events, "")
    ensures Split(used + next) == Then(events, Split(next))
  {
    SplitAppends(used, next);
    assert "" + next == next;
  }

  lemma CrlfAfterEvents(x: string, used: string, rest: string, c: string)
    requires NoCrlf(x) && x == used + rest && (used == "" || EndsLf(used))
    ensures Crlf(x + c) == used + Crlf(rest + c)
  {
    assert x + c == used + (rest + c);
    CrlfSplits(used, rest + c);
    NoCrlfStart(used, rest);
    CrlfOfNoCrlf(used);
  }

  lemma NoCrlfStart(used: string, rest: string)
    requires NoCrlf(used + rest)
    ensures NoCrlf(used)
  {
    var x := used + rest;
    assert forall i :: 0 <= i < |used| ==> used[i] == x[i];
  }

  lemma SplitGrows(t: string, c: string)
    requires NoStray(t + c)
    ensures Split(Crlf(t + c)) == Then(Split(Crlf(t)).events, Split(Crlf(Split(Crlf(t)).rest + c)))
  {
    CrlfTwice(t, c);
    NoStrayStart(t, c);
    CrlfLeavesNone(t);
    SplitResumes(Crlf(t), c);
  }

  /** The events and the buffer after a list of chunks, whatever the events mean. */
  function Pieces(chunks: seq<string>): (r: Parts) {
    if chunks == [] then Parts([], "")
    else
      var before := Pieces(chunks[..|chunks| - 1]);
      Then(before.events, Split(Crlf(before.rest + chunks[|chunks| - 1])))
  }

  lemma {:induction false} PiecesOfText(chunks: seq<string>)
    requires NoStray(Concat(chunks))
    ensures Pieces(chunks) == Split(Crlf(Concat(chunks)))
  {
    if chunks != [] {
      var front, last := chunks[..|chunks| - 1], chunks[|chunks| - 1];
      NoStrayStart(Concat(front), last);
      PiecesOfText(front);
      SplitGrows(Concat(front), last);
    }
  }

  lemma {:induction false} FeedPieces(lib: Library, chunks: seq<string>)
    ensures FeedAll(lib, chunks) == Stage(HandleAll(lib, START, Pieces(chunks).events), Pieces(chunks).rest)
  {
    if chunks != [] {
      var front, last := chunks[..|chunks| - 1], chunks[|chunks| - 1];
      var before := Pieces(front);
      FeedPieces(lib, front);
      HandleAllAppends(lib, START, before.events, Split(Crlf(before.rest + last)).events);
    }
  }

  /** However a text is cut into chunks, the reader ends in the same state. */
  lemma ChunkingIsInvisible(lib: Library, chunks: seq<string>)
    requires NoStray(Concat(chunks))
    ensures FeedAll(lib, chunks) == ReadText(lib, Concat(chunks))
  {
    FeedPieces(lib, chunks);
    PiecesOfText(chunks);
  }

  // ----- Exactly when chunking is invisible

  /** The length of a text that splits into these parts. */
  function Spelled(p: Parts): nat {
    SpelledEvents(p.events) + |p.rest|
  }

  function SpelledEvents(events: seq<string>): nat {
    if events == [] then 0 else |events[0]| + 2 + SpelledEvents(events[1..])
  }

  lemma {:induction false} SpelledJoins(a: seq<string>, b: seq<string>)
    ensures SpelledEvents(a + b) == SpelledEvents(a) + SpelledEvents(b)
  {
    if a == [] {
      assert a + b == b;
    } else {
      SpelledJoins(a[1..], b);
      assert (a + b)[1..] == a[1..] + b;
    }
  }

  lemma SpelledThen(events: seq<string>, p: Parts)
    ensures Spelled(Then(events, p)) == SpelledEvents(events) + Spelled(p)
  {
    SpelledJoins(events, p.events);
  }

  /** Splitting keeps every character. */
  lemma {:induction false} SplitSpells(t: string)
    ensures Spelled(Split(t)) == |t|
    decreases |t|
  {
    var b := FirstBlank(t);
    if b.Some? {
      SplitSpells(t[b.value + 2..]);
      SplitStep(t, b.value);
      SpelledJoins([t[..b.value]], Split(t[b.value + 2..]).events);
    }
  }

  lemma {:induction false} CrlfShrinks(t: string)
    ensures |Crlf(t)| <= |t|
    ensures EndsCrlf(t) ==> |Crlf(t)| < |t|
    decreases |t|
  {
    if |t| >= 2 {
      var rest := if t[0] == '\r' && t[1] == '\n' then t[2..] else t[1..];
      CrlfShrinks(rest);
    }
  }

  predicate EndsCrlf(t: string) {
    |t| >= 2 && t[|t| - 2] == '\r' && t[|t| - 1] == '\n'
  }

  /** A CRLF at the end of a text stays in the buffer. */
  lemma CrlfStaysInBuffer(t: string)
    requires EndsCrlf(t)
    ensures EndsCrlf(Split(t).rest)
  {
    var used := SplitConsumes(t);
    EndOfRest(t, used, Split(t).rest);
  }

  lemma EndOfRest(t: string, used: string, rest: string)
    requires EndsCrlf(t) && t == used + rest && (used == "" || EndsBlank(used))
    ensures EndsCrlf(rest)
  {
    assert |used| > 0 ==> t[|used| - 1] == used[|used| - 1] && t[|used| - 2] == used[|used| - 2];
    assert |rest| >= 2;
    assert t[|t| - 2] == rest[|rest| - 2] && t[|t| - 1] == rest[|rest| - 1];
  }

  /** A stray carriage return becomes a new CRLF. */
  lemma StrayMakesCrlf(u: string)
    requires EndsCr(u)
    ensures EndsCrlf(Crlf(u + "\r\n"))
  {
    CrlfSplits(u, "\r\n");
    CrlfOfPair("");
    assert ['\r', '\n'] + "" == "\r\n";
    CrlfShape(u);
  }

  /** Cut behind a stray carriage return's line end, the text loses one character more. */
  lemma StrayIsVisible(u: string, v: string)
    requires EndsCr(u)
    ensures Concat([u + "\r\n" + v]) == Concat([u + "\r\n", v])
    ensures Pieces([u + "\r\n" + v]) != Pieces([u + "\r\n", v])
  {
    var t := u + "\r\n";
    PiecesOfOne(t + v);
    PiecesOfTwo(t, v);
    StrayMakesCrlf(u);
    LengthInOneChunk(t, v);
    LengthInTwoChunks(Crlf(t), v);
  }

  lemma LengthInOneChunk(t: string, v: string)
    requires EndsLf(t)
    ensures Spelled(Split(Crlf(t + v))) == |Crlf(t)| + |Crlf(v)|
  {
    CrlfSplits(t, v);
    SplitSpells(Crlf(t + v));
  }

  lemma LengthInTwoChunks(x: string, v: string)
    requires EndsCrlf(x)
    ensures Spelled(Then(Split(x).events, Split(Crlf(Split(x).rest + v)))) < |x| + |Crlf(v)|
  {
    SplitSpells(x);
    CrlfStaysInBuffer(x);
    LengthOfRest(Split(x).events, Split(x).rest, v);
  }

  lemma LengthOfRest(events: seq<string>, rest: string, v: string)
    requires EndsCrlf(rest)
    ensures Spelled(Then(events, Split(Crlf(rest + v)))) < SpelledEvents(events) + |rest| + |Crlf(v)|
  {
    CrlfShrinks(rest);
    LengthInOneChunk(rest, v);
    SpelledThen(events, Split(Crlf(rest + v)));
  }

  lemma PiecesOfOne(t: string)
    ensures Concat([t]) == t && Pieces([t]) == Split(Crlf(t))
  {
    assert "" + t == t;
    ThenNothing(Split(Crlf(t)));
  }

  lemma PiecesOfTwo(t: string, v: string)
    ensures Concat([t, v]) == t + v
    ensures Pieces([t, v]) == Then(Split(Crlf(t)).events, Split(Crlf(Split(Crlf(t)).rest + v)))
  {
    assert [t, v][..1] == [t];
    PiecesOfOne(t);
  }

  /** Every way of cutting a text into chunks leaves the same events and the same buffer. */
  ghost predicate ChunkFree(t: string) {
    forall chunks :: Concat(chunks) == t ==> Pieces(chunks) == Split(Crlf(t))
  }

  /** Chunking is invisible exactly when no carriage return stands before a CRLF. */
  lemma ChunkFreeUnlessStray(t: string)
    ensures ChunkFree(t) <==> NoStray(t)
  {
    if NoStray(t) {
      forall chunks | Concat(chunks) == t
        ensures Pieces(chunks) == Split(Crlf(t))
      {
        PiecesOfText(chunks);
      }
    } else {
      var i :| 0 <= i < |t| - 2 && t[i] == '\r' && t[i + 1] == '\r' && t[i + 2] == '\n';
      var u, v := t[..i + 1], t[i + 3..];
      assert t == u + "\r\n" + v;
      StrayIsNotChunkFree(u, v);
    }
  }

  lemma StrayIsNotChunkFree(u: string, v: string)
    requires EndsCr(u)
    ensures !ChunkFree(u + "\r\n" + v)
  {
    StrayIsVisible(u, v);
    PiecesOfOne(u + "\r\n" + v);
    PiecesOfTwo(u + "\r\n", v);
  }

  /** Read in one chunk this text yields no event; with one more chunk, even an empty one, it yields the event `a`. */
  lemma StrayExample(t: string)
    requires t == "a" + ("\r\r\n" + "\r\r\n")
    ensures Concat([t]) == Concat([t, ""])
    ensures Pieces([t]).events == [] && Pieces([t, ""]).events == ["a"]
  {
    PiecesOfOne(t);
    PiecesOfTwo(t, "");
    StrayOnce("\r\r\n");
    StrayTwice("\r\n");
    var once := "a" + ("\r\n" + "\r\n");
    NoBlankNoEvents(once);
    assert once + "" == once;
    var twice := "a" + "\n\n";
    assert BlankAt(twice, 1);
    SplitEvent(twice, "");
    NoBlankNoEvents("");
    assert twice + "" == twice && Body(twice) == "a";
  }

  lemma StrayOnce(s: string)
    requires s == "\r\r\n"
    ensures Crlf("a" + (s + s)) == "a" + ("\r\n" + "\r\n")
  {
    assert s == "\r" + "\r\n";
    CrlfSplits("\r", "\r\n");
    assert Crlf(s) == "\r\n";
    CrlfSplits(s, s);
    CrlfSplits("a", s + s);
  }

  lemma StrayTwice(s: string)
    requires s == "\r\n"
    ensures Crlf("a" + (s + s)) == "a" + "\n\n"
  {
    CrlfSplits(s, s);
    CrlfSplits("a", s + s);
  }

  lemma NoBlankNoEvents(t: string)
    requires forall i :: !BlankAt(t, i)
    ensures Split(t) == Parts([], t)
  {
  }

  lemma HandleFrame(lib: Library, r: Reading, event: string)
    requires !Reserved(event) && r.end.None?
    ensures HandleAll(lib, r, [event]) == r.(frames := r.frames + [event + "\n\n"])
  {
  }
}
