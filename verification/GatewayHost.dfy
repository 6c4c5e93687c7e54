/** What the gateway verifier takes from its host: digests, encodings and parsers of other formats. */
module GatewayHost {
  import opened Wrappers
  import opened Json
  import opened Text

  datatype Url = Url(
    protocol: string, username: string, password: string, pathname: string, search: string, hash: string,
    origin: string)

  datatype Image = Image(reference: string, digestPinned: bool)

  /** The fields of a parsed TDX quote that the verifier reads, in lower-case hex. */
  datatype Quote = Quote(
    teeType: int, debugEnabled: bool, reportData: string, mrTd: string, mrConfigId: string,
    rtmr0: string, rtmr1: string, rtmr2: string, rtmr3: string)

  datatype Host = Host(
    sha256: seq<Byte> -> seq<Byte>,
    sha384: seq<Byte> -> seq<Byte>,
    sha512: seq<Byte> -> seq<Byte>,
    utf8: string -> seq<Byte>,
    text: seq<Byte> -> string,
    json: string -> Option<Json>,
    url: string -> Option<Url>,
    images: string -> seq<Image>,
    quote: string -> Option<Quote>)

  const COLON: Byte := 58

  /**
   * Facts of SHA-2, UTF-8 and URLs, none about collisions: digests have their lengths; UTF-8 is
   * one-to-one, encodes text piece by piece, keeps ASCII and uses the colon's byte for nothing else;
   * an origin has no trailing slash.
   */
  ghost predicate HostOk(h: Host) {
    && (forall b :: |h.sha256(b)| == 32)
    && (forall b :: |h.sha384(b)| == 48)
    && (forall b :: |h.sha512(b)| == 64)
    && (forall s, t :: h.utf8(s) == h.utf8(t) ==> s == t)
    && (forall s, t :: h.utf8(s + t) == h.utf8(s) + h.utf8(t))
    && (forall s :: ':' !in s ==> COLON !in h.utf8(s))
    && (forall s :: IsAscii(s) ==> h.utf8(s) == Ascii(s))
    && (forall s :: h.url(s).Some? ==> !EndsWithSlash(h.url(s).value.origin))
  }

  predicate IsAscii(s: string) {
    forall c :: c in s ==> c as int < 128
  }

  function Ascii(s: string): (r: seq<Byte>)
    requires IsAscii(s)
  {
    if s == "" then []
    else
      assert s[0] in s && forall c :: c in s[1..] ==> c in s;
      [s[0] as int] + Ascii(s[1..])
  }

  predicate EndsWithSlash(s: string) {
    s != "" && s[|s| - 1] == '/'
  }

  /** Over the inputs that were hashed, equal digests come from equal inputs. */
  ghost predicate CollisionFree(hash: seq<Byte> -> seq<Byte>, inputs: set<seq<Byte>>) {
    forall x, y :: x in inputs && y in inputs && hash(x) == hash(y) ==> x == y
  }
}
