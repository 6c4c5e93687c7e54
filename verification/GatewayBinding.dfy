/** The gateway's binding object and its canonical text (src/gateway/binding.ts). */
module GatewayBinding {
  import opened Wrappers
  import opened Json
  import opened Text
  import opened GatewayHost

  /** A normalized binding; `v` is always 1. */
  datatype Binding = Binding(
    nonce: string,
    appId: string,
    instanceId: string,
    composeHash: string,
    releaseId: string,
    origin: string,
    keyAlg: string,
    publicKey: string,
    transport: string,
    tlsSpkiSha256: Option<string>)

  const VERSION: int := 1
  const KEY_ALGORITHMS: seq<string> := ["x25519", "ed25519", "secp256k1"]
  const TRANSPORTS: seq<string> := ["in-tee-tls", "gateway-tls"]
  const FIELDS: seq<string> :=
    ["v", "nonce", "app_id", "instance_id", "compose_hash", "release_id", "origin", "key_alg", "public_key",
     "transport", "tls_spki_sha256"]

  // ----- Validation

  predicate IsReleaseChar(c: char) {
    || 'A' <= c <= 'Z' || 'a' <= c <= 'z' || '0' <= c <= '9'
    || c == '.' || c == '_' || c == ':' || c == '@' || c == '+' || c == '-'
  }

  predicate IsReleaseId(t: string) {
    1 <= |t| <= 128 && forall i :: 0 <= i < |t| ==> IsReleaseChar(t[i])
  }

  /** `requireLowercaseHex`. */
  predicate IsRequiredHex(t: string, exact: Option<nat>) {
    && t != "" && IsHex(t)
    && (if exact.Some? then |t| == exact.value else |t| <= 512)
  }

  function Hex(field: Option<Json>, exact: Option<nat>): (r: Option<string>)
    ensures r.Some? ==> IsRequiredHex(r.value, exact)
  {
    if field.None? || !field.value.JString? then None
    else
      var t := Strip0x(Lower(field.value.s));
      if IsRequiredHex(t, exact) then Some(t) else None
  }

  /** `assertGatewayNonce`, which does not strip a leading 0x. */
  function Nonce(field: Option<Json>): (r: Option<string>)
    ensures r.Some? ==> IsRequiredHex(r.value, Some(64))
  {
    if field.None? || !field.value.JString? then None
    else
      var t := Lower(field.value.s);
      if IsRequiredHex(t, Some(64)) then Some(t) else None
  }

  function WithoutSlash(t: string): string {
    if EndsWithSlash(t) then t[..|t| - 1] else t
  }

  /** `canonicalGatewayOrigin`. */
  function CanonicalOrigin(h: Host, value: string): (r: Option<string>)
    ensures r.Some? ==> r.value == WithoutSlash(value)
  {
    if value == "" || |value| > 253 + 16 then None
    else
      var url := h.url(value);
      if url.None? then None
      else
        var u := url.value;
        if u.protocol != "https:" && u.protocol != "http:" then None
        else if u.username != "" || u.password != "" || u.search != "" || u.hash != "" || u.pathname != "/" then None
        else if u.origin != WithoutSlash(value) then None
        else Some(u.origin)
  }

  function Origin(h: Host, field: Option<Json>): (r: Option<string>) {
    if field.None? || !field.value.JString? then None else CanonicalOrigin(h, field.value.s)
  }

  function OneOf(field: Option<Json>, allowed: seq<string>): (r: Option<string>)
    ensures r.Some? ==> r.value in allowed
  {
    if field.Some? && field.value.JString? && field.value.s in allowed then Some(field.value.s) else None
  }

  /** The certificate digest: absent, malformed or at odds with the transport is `None`. */
  function Certificate(field: Option<Json>, transport: string): (r: Option<Option<string>>)
    ensures r.Some? && r.value.None? ==> transport != "in-tee-tls"
    ensures r.Some? && r.value.Some? ==> transport != "gateway-tls" && IsRequiredHex(r.value.value, Some(64))
  {
    if field.None? then None
    else if field.value == JNull then (if transport == "in-tee-tls" then None else Some(None))
    else if !field.value.JString? || !IsRequiredHex(Lower(field.value.s), Some(64)) then None
    else if transport == "gateway-tls" then None
    else Some(Some(Lower(field.value.s)))
  }

  function ReleaseId(field: Option<Json>): (r: Option<string>)
    ensures r.Some? ==> IsReleaseId(r.value)
  {
    if field.Some? && field.value.JString? && IsReleaseId(field.value.s) then Some(field.value.s) else None
  }

  /** The fields of an object in the canonical order, those it lacks as `None`. */
  function FieldsOf(f: map<string, Json>): (r: seq<Option<Json>>)
    ensures |r| == |FIELDS| && forall i :: 0 <= i < |FIELDS| ==> r[i] == Member(f, FIELDS[i])
  {
    seq(|FIELDS|, i requires 0 <= i < |FIELDS| => Member(f, FIELDS[i]))
  }

  /** The fields of a normalized binding out of those of an object. */
  function Normalized(h: Host, f: seq<Option<Json>>): (r: Option<Binding>)
    requires |f| == |FIELDS|
    ensures r.Some? ==> WellFormed(r.value) && Some(r.value.origin) == Origin(h, f[6])
  {
    var nonce, app, instance, compose := Nonce(f[1]), Hex(f[2], None), Hex(f[3], None), Hex(f[4], Some(64));
    var release, origin, keyAlg, key := ReleaseId(f[5]), Origin(h, f[6]), OneOf(f[7], KEY_ALGORITHMS), Hex(f[8], None);
    var transport := OneOf(f[9], TRANSPORTS);
    if f[0] != Some(JInt(VERSION)) || keyAlg.None? || release.None? || transport.None? then None
    else
      var certificate := Certificate(f[10], transport.value);
      if certificate.None? || nonce.None? || app.None? || instance.None? || compose.None? || origin.None? || key.None?
      then None
      else
        Some(Binding(nonce.value, app.value, instance.value, compose.value, release.value, origin.value,
                     keyAlg.value, key.value, transport.value, certificate.value))
  }

  predicate Unknown(key: string) {
    key !in FIELDS
  }

  /** `normalizeGatewayBinding`; `None` is the thrown error. */
  function NormalizeBinding(h: Host, input: Json): (r: Option<Binding>)
    ensures r.Some? ==> WellFormed(r.value)
  {
    if !input.JObject? || exists key {:trigger Unknown(key)} :: key in input.fields && Unknown(key) then None
    else Normalized(h, FieldsOf(input.fields))
  }

  /**
   * What a normalized binding keeps: every digest and key in lower-case hex, and a
   * certificate exactly when the TD owns one.
   */
  predicate WellFormed(b: Binding) {
    && IsRequiredHex(b.nonce, Some(64))
    && IsRequiredHex(b.appId, None) && IsRequiredHex(b.instanceId, None) && IsRequiredHex(b.publicKey, None)
    && IsRequiredHex(b.composeHash, Some(64))
    && IsReleaseId(b.releaseId)
    && b.keyAlg in KEY_ALGORITHMS
    && b.transport in TRANSPORTS
    && (b.tlsSpkiSha256.Some? <==> b.transport == "in-tee-tls")
    && (b.tlsSpkiSha256.Some? ==> IsRequiredHex(b.tlsSpkiSha256.value, Some(64)))
  }

  function JsonOf(b: Binding): Json {
    JObject(map[
      "v" := JInt(VERSION),
      "nonce" := JString(b.nonce),
      "app_id" := JString(b.appId),
      "instance_id" := JString(b.instanceId),
      "compose_hash" := JString(b.composeHash),
      "release_id" := JString(b.releaseId),
      "origin" := JString(b.origin),
      "key_alg" := JString(b.keyAlg),
      "public_key" := JString(b.publicKey),
      "transport" := JString(b.transport),
      "tls_spki_sha256" := if b.tlsSpkiSha256.Some? then JString(b.tlsSpkiSha256.value) else JNull])
  }

  /** Normalizing a normalized binding gives it back, if its origin is still an origin. */
  lemma NormalizeTwice(h: Host, input: Json)
    requires HostOk(h) && NormalizeBinding(h, input).Some?
    ensures var b := NormalizeBinding(h, input).value;
      NormalizeBinding(h, JsonOf(b)) == if CanonicalOrigin(h, b.origin).Some? then Some(b) else None
  {
    var b := NormalizeBinding(h, input).value;
    assert Origin(h, FieldsOf(input.fields)[6]) == Some(b.origin);
    OriginHasNoSlash(h, FieldsOf(input.fields)[6]);
    JsonOfHasFields(b);
    NormalIsFixed(h, b);
  }

  lemma OriginHasNoSlash(h: Host, field: Option<Json>)
    requires HostOk(h) && Origin(h, field).Some?
    ensures !EndsWithSlash(Origin(h, field).value)
  {
  }

  function Listed(b: Binding): (r: seq<Option<Json>>) {
    [Some(JInt(VERSION)), Some(JString(b.nonce)), Some(JString(b.appId)), Some(JString(b.instanceId)),
     Some(JString(b.composeHash)), Some(JString(b.releaseId)), Some(JString(b.origin)), Some(JString(b.keyAlg)),
     Some(JString(b.publicKey)), Some(JString(b.transport)),
     Some(if b.tlsSpkiSha256.Some? then JString(b.tlsSpkiSha256.value) else JNull)]
  }

  lemma JsonOfHasFields(b: Binding)
    ensures FieldsOf(JsonOf(b).fields) == Listed(b)
    ensures forall key {:trigger Unknown(key)} :: key in JsonOf(b).fields ==> !Unknown(key)
  {
  }

  lemma HexIsNormal(t: string, exact: Option<nat>)
    requires IsRequiredHex(t, exact)
    ensures Hex(Some(JString(t)), exact) == Some(t)
  {
    LowerOfHex(t);
  }

  lemma NonceIsNormal(t: string)
    requires IsRequiredHex(t, Some(64))
    ensures Nonce(Some(JString(t))) == Some(t) && Lower(t) == t
  {
    LowerOfHex(t);
  }

  lemma NormalIsFixed(h: Host, b: Binding)
    requires WellFormed(b) && !EndsWithSlash(b.origin)
    ensures Normalized(h, Listed(b)) == if CanonicalOrigin(h, b.origin).Some? then Some(b) else None
  {
    HexIsNormal(b.appId, None);
    HexIsNormal(b.instanceId, None);
    HexIsNormal(b.publicKey, None);
    HexIsNormal(b.composeHash, Some(64));
    NonceIsNormal(b.nonce);
    CertificateIsNormal(b);
  }

  lemma CertificateIsNormal(b: Binding)
    requires WellFormed(b)
    ensures Certificate(Listed(b)[10], b.transport) == Some(b.tlsSpkiSha256)
  {
    if b.tlsSpkiSha256.Some? {
      NonceIsNormal(b.tlsSpkiSha256.value);
    }
  }

  // ----- What validation accepts

  /** An origin is accepted exactly when it is already canonical, a trailing slash aside. */
  lemma OriginMeans(h: Host, value: string, origin: string)
    ensures CanonicalOrigin(h, value) == Some(origin) <==>
      && value != "" && |value| <= 269
      && h.url(value).Some?
      && (value == origin || value == origin + "/")
      && var u := h.url(value).value;
         && u.origin == origin && (value == origin ==> !EndsWithSlash(value))
         && (u.protocol == "https:" || u.protocol == "http:")
         && u.username == "" && u.password == "" && u.search == "" && u.hash == "" && u.pathname == "/"
  {
    assert (origin + "/")[..|origin|] == origin;
    if EndsWithSlash(value) {
      assert value == value[..|value| - 1] + "/";
    }
  }

  /** Which lower-case text a hexadecimal field holds. */
  ghost predicate HexField(f: map<string, Json>, name: string, t: string) {
    name in f && f[name].JString? && Strip0x(Lower(f[name].s)) == t
  }

  /** No field but the eleven may be there. */
  lemma OnlyKnownFields(h: Host, f: map<string, Json>, name: string)
    requires NormalizeBinding(h, JObject(f)).Some? && name in f
    ensures name in ["v", "nonce", "app_id", "instance_id", "compose_hash", "release_id", "origin", "key_alg",
                     "public_key", "transport", "tls_spki_sha256"]
  {
    assert !Unknown(name);
  }

  /** Each field is read under its own name: this is what those of an accepted binding hold. */
  lemma HexFieldsMean(h: Host, f: map<string, Json>)
    requires NormalizeBinding(h, JObject(f)).Some?
    ensures var b := NormalizeBinding(h, JObject(f)).value;
      && "v" in f && f["v"] == JInt(1)
      && "nonce" in f && f["nonce"].JString? && b.nonce == Lower(f["nonce"].s)
      && HexField(f, "app_id", b.appId) && HexField(f, "instance_id", b.instanceId)
      && HexField(f, "compose_hash", b.composeHash) && HexField(f, "public_key", b.publicKey)
  {
    var s := FieldsOf(f);
    assert s[0] == Member(f, "v") && s[1] == Member(f, "nonce") && s[2] == Member(f, "app_id");
    assert s[3] == Member(f, "instance_id") && s[4] == Member(f, "compose_hash") && s[8] == Member(f, "public_key");
  }

  /** A release id is one to 128 letters, digits and marks that stand for themselves in a release name. */
  lemma ReleaseIdsAre(t: string)
    ensures IsReleaseId(t) <==>
      && 1 <= |t| <= 128
      && forall c :: c in t ==>
           'A' <= c <= 'Z' || 'a' <= c <= 'z' || '0' <= c <= '9' || c in {'.', '_', ':', '@', '+', '-'}
  {
    if forall c :: c in t ==>
         'A' <= c <= 'Z' || 'a' <= c <= 'z' || '0' <= c <= '9' || c in {'.', '_', ':', '@', '+', '-'} {
      forall i | 0 <= i < |t|
        ensures IsReleaseChar(t[i])
      {
        assert t[i] in t;
      }
    }
  }

  lemma TextFieldsMean(h: Host, f: map<string, Json>)
    requires NormalizeBinding(h, JObject(f)).Some?
    ensures var b := NormalizeBinding(h, JObject(f)).value;
      && "release_id" in f && f["release_id"] == JString(b.releaseId)
      && "origin" in f && f["origin"].JString? && CanonicalOrigin(h, f["origin"].s) == Some(b.origin)
      && "key_alg" in f && f["key_alg"] == JString(b.keyAlg)
      && "transport" in f && f["transport"] == JString(b.transport)
  {
    var s := FieldsOf(f);
    assert s[5] == Member(f, "release_id") && s[6] == Member(f, "origin");
    assert s[7] == Member(f, "key_alg") && s[9] == Member(f, "transport");
  }

  lemma CertificateFieldMeans(h: Host, f: map<string, Json>)
    requires NormalizeBinding(h, JObject(f)).Some?
    ensures var b := NormalizeBinding(h, JObject(f)).value;
      && "tls_spki_sha256" in f
      && (b.tlsSpkiSha256.None? ==> f["tls_spki_sha256"] == JNull)
      && (b.tlsSpkiSha256.Some? ==>
            f["tls_spki_sha256"].JString? && b.tlsSpkiSha256.value == Lower(f["tls_spki_sha256"].s))
  {
    assert FieldsOf(f)[10] == Member(f, "tls_spki_sha256");
  }

  /** The formats a normalized binding keeps, spelled out. */
  lemma WellFormedMeans(b: Binding)
    ensures WellFormed(b) <==>
      && IsHex(b.nonce) && |b.nonce| == 64
      && IsHex(b.appId) && 1 <= |b.appId| <= 512
      && IsHex(b.instanceId) && 1 <= |b.instanceId| <= 512
      && IsHex(b.composeHash) && |b.composeHash| == 64
      && IsHex(b.publicKey) && 1 <= |b.publicKey| <= 512
      && IsReleaseId(b.releaseId)
      && (b.keyAlg == "x25519" || b.keyAlg == "ed25519" || b.keyAlg == "secp256k1")
      && (b.transport == "in-tee-tls" || b.transport == "gateway-tls")
      && (b.transport == "in-tee-tls" <==> b.tlsSpkiSha256.Some?)
      && (b.tlsSpkiSha256.Some? ==> IsHex(b.tlsSpkiSha256.value) && |b.tlsSpkiSha256.value| == 64)
  {
  }

  // ----- Canonical text

  /** JSON's escape of one character. */
  function Escaped(c: char): (r: string)
    ensures r != "" && r[0] != '"'
  {
    if c == '"' then "\\\""
    else if c == '\\' then "\\\\"
    else if c as int == 8 then "\\b"
    else if c as int == 12 then "\\f"
    else if c == '\n' then "\\n"
    else if c == '\r' then "\\r"
    else if c == '\t' then "\\t"
    else if c as int < 32 then "\\u00" + [HexDigit(c as int / 16), HexDigit(c as int % 16)]
    else [c]
  }

  function EscapedAll(t: string): string {
    if t == "" then "" else Escaped(t[0]) + EscapedAll(t[1..])
  }

  function Quoted(t: string): string {
    "\"" + (EscapedAll(t) + "\"")
  }

  function ValueText(v: Option<string>): string {
    if v.Some? then Quoted(v.value) else "null"
  }

  function KeyText(key: string): string {
    "," + Quoted(key) + ":"
  }

  /** The members from the i-th key on. */
  function Members(keys: seq<string>, values: seq<Option<string>>, i: nat): string
    requires |keys| == |values| && i <= |keys|
    decreases |keys| - i
  {
    if i == |keys| then "" else KeyText(keys[i]) + (ValueText(values[i]) + Members(keys, values, i + 1))
  }

  function Values(b: Binding): (r: seq<Option<string>>)
    ensures |r| == |FIELDS| - 1
  {
    [Some(b.nonce), Some(b.appId), Some(b.instanceId), Some(b.composeHash), Some(b.releaseId), Some(b.origin),
     Some(b.keyAlg), Some(b.publicKey), Some(b.transport), b.tlsSpkiSha256]
  }

  function CanonicalText(b: Binding): string {
    ("{" + Quoted("v") + ":1") + (Members(FIELDS[1..], Values(b), 0) + "}")
  }

  /** `canonicalGatewayBindingJson`, which normalizes the fields again; `None` is the thrown error. */
  function CanonicalJson(h: Host, b: Binding): (r: Option<string>) {
    var normal := Normalized(h, Listed(b));
    if normal.Some? then Some(CanonicalText(normal.value)) else None
  }

  /** `gatewayBindingHash`. */
  function BindingHash(h: Host, b: Binding): (r: Option<string>) {
    var json := CanonicalJson(h, b);
    if json.Some? then Some(ToHex(h.sha512(h.utf8(json.value)))) else None
  }

  /** Escapes can be told apart from what follows them. */
  lemma EscapesDiffer(c: char, d: char, s: string, t: string)
    requires Escaped(c) + s == Escaped(d) + t
    ensures c == d && s == t
  {
    var x, y := Escaped(c) + s, Escaped(d) + t;
    assert x[0] == Escaped(c)[0] && y[0] == Escaped(d)[0];
    if |Escaped(c)| > 1 && |Escaped(d)| > 1 {
      assert x[1] == Escaped(c)[1] && y[1] == Escaped(d)[1];
      if |Escaped(c)| > 2 && |Escaped(d)| > 2 {
        assert x[4] == Escaped(c)[4] && y[4] == Escaped(d)[4];
        assert x[5] == Escaped(c)[5] && y[5] == Escaped(d)[5];
        SameDigits(c as int, d as int);
      }
    }
    assert c == d;
    assert x[|Escaped(c)|..] == s && y[|Escaped(c)|..] == t;
  }

  lemma SameDigits(m: int, n: int)
    requires 0 <= m < 32 && 0 <= n < 32
    requires HexDigit(m / 16) == HexDigit(n / 16) && HexDigit(m % 16) == HexDigit(n % 16)
    ensures m == n
  {
  }

  /** An escaped text, its closing quote and what follows. */
  function Closed(t: string, after: string): (r: string)
    ensures r != "" && (r[0] == '"' <==> t == "")
  {
    if t == "" then ['"'] + after else Escaped(t[0]) + Closed(t[1..], after)
  }

  lemma {:induction false} QuotedIsClosed(t: string, after: string)
    ensures Quoted(t) + after == ['"'] + Closed(t, after)
  {
    QuotedStart(t, after);
    if t != "" {
      QuotedIsClosed(t[1..], after);
      QuotedStart(t[1..], after);
      var more := EscapedAll(t[1..]) + ("\"" + after);
      SameHead(['"'], more, Closed(t[1..], after));
      Joined(Escaped(t[0]), EscapedAll(t[1..]), "\"" + after);
    }
  }

  lemma QuotedStart(t: string, after: string)
    ensures Quoted(t) + after == ['"'] + (EscapedAll(t) + ("\"" + after))
  {
    Joined(EscapedAll(t), "\"", after);
    Joined("\"", EscapedAll(t) + "\"", after);
  }

  /** A quoted text ends where its closing quote is, whatever follows. */
  lemma {:induction false} ClosedDetermines(a: string, b: string, s: string, t: string)
    requires Closed(a, s) == Closed(b, t)
    ensures a == b && s == t
  {
    if a == "" && b == "" {
      SameHead(['"'], s, t);
    } else if a != "" && b != "" {
      EscapesDiffer(a[0], b[0], Closed(a[1..], s), Closed(b[1..], t));
      ClosedDetermines(a[1..], b[1..], s, t);
      assert a == [a[0]] + a[1..] && b == [b[0]] + b[1..];
    }
  }

  lemma ValueDetermines(v: Option<string>, w: Option<string>, s: string, t: string)
    requires ValueText(v) + s == ValueText(w) + t
    ensures v == w && s == t
  {
    var x, y := ValueText(v) + s, ValueText(w) + t;
    assert x[0] == ValueText(v)[0] && y[0] == ValueText(w)[0];
    if v.Some? && w.Some? {
      QuotedIsClosed(v.value, s);
      QuotedIsClosed(w.value, t);
      SameHead(['"'], Closed(v.value, s), Closed(w.value, t));
      ClosedDetermines(v.value, w.value, s, t);
    } else if v.None? && w.None? {
      SameHead("null", s, t);
    }
  }

  lemma MembersStep(keys: seq<string>, v: seq<Option<string>>, i: nat, s: string)
    requires |keys| == |v| && i < |keys|
    ensures Members(keys, v, i) + s == KeyText(keys[i]) + (ValueText(v[i]) + (Members(keys, v, i + 1) + s))
  {
    var rest := Members(keys, v, i + 1);
    Joined(ValueText(v[i]), rest, s);
    Joined(KeyText(keys[i]), ValueText(v[i]) + rest, s);
  }

  lemma {:induction false} MembersDetermine(
      keys: seq<string>, v: seq<Option<string>>, w: seq<Option<string>>, i: nat, s: string, t: string)
    requires |keys| == |v| == |w| && i <= |keys| && Members(keys, v, i) + s == Members(keys, w, i) + t
    ensures v[i..] == w[i..] && s == t
    decreases |keys| - i
  {
    if i < |keys| {
      MembersStep(keys, v, i, s);
      MembersStep(keys, w, i, t);
      var v', w' := Members(keys, v, i + 1) + s, Members(keys, w, i + 1) + t;
      SameHead(KeyText(keys[i]), ValueText(v[i]) + v', ValueText(w[i]) + w');
      ValueDetermines(v[i], w[i], v', w');
      MembersDetermine(keys, v, w, i + 1, s, t);
      assert v[i..] == [v[i]] + v[i + 1..] && w[i..] == [w[i]] + w[i + 1..];
    } else {
      SameHead("", s, t);
    }
  }

  /** In the canonical text each value stands behind the name it has in the document. */
  lemma CanonicalTextLabels(b: Binding, i: nat)
    requires i < |FIELDS| - 1
    ensures Member(JsonOf(b).fields, FIELDS[i + 1])
         == Some(if Values(b)[i].Some? then JString(Values(b)[i].value) else JNull)
  {
    JsonOfHasFields(b);
    assert FieldsOf(JsonOf(b).fields)[i + 1] == Listed(b)[i + 1];
  }

  /** Plain text is quoted as it is. */
  lemma {:induction false} PlainIsQuotedAsIs(t: string)
    requires forall i :: 0 <= i < |t| ==> t[i] != '"' && t[i] != '\\' && t[i] >= ' '
    ensures Quoted(t) == "\"" + (t + "\"")
  {
    if t != "" {
      PlainIsQuotedAsIs(t[1..]);
      SameHead("\"", EscapedAll(t[1..]) + "\"", t[1..] + "\"");
      assert (EscapedAll(t[1..]) + "\"")[..|EscapedAll(t[1..])|] == EscapedAll(t[1..]);
      assert |EscapedAll(t[1..])| == |t| - 1;
      assert (t[1..] + "\"")[..|t| - 1] == t[1..];
      assert t == [t[0]] + t[1..];
    }
  }

  /** Two bindings with one canonical text are one binding. */
  lemma CanonicalTextDetermines(a: Binding, b: Binding)
    requires CanonicalText(a) == CanonicalText(b)
    ensures a == b
  {
    var keys := FIELDS[1..];
    SameHead("{" + Quoted("v") + ":1", Members(keys, Values(a), 0) + "}", Members(keys, Values(b), 0) + "}");
    MembersDetermine(keys, Values(a), Values(b), 0, "}", "}");
    assert Values(a)[0..] == Values(a) && Values(b)[0..] == Values(b);
    ValuesDetermine(a, b);
  }

  lemma ValuesDetermine(a: Binding, b: Binding)
    requires Values(a) == Values(b)
    ensures a == b
  {
    var v, w := Values(a), Values(b);
    assert v[0] == w[0] && v[1] == w[1] && v[2] == w[2] && v[3] == w[3] && v[4] == w[4];
    assert v[5] == w[5] && v[6] == w[6] && v[7] == w[7] && v[8] == w[8] && v[9] == w[9];
  }

  /** What two normalized bindings hash is different unless they are the same. */
  lemma CanonicalJsonDetermines(h: Host, x: Json, y: Json)
    requires HostOk(h) && NormalizeBinding(h, x).Some? && NormalizeBinding(h, y).Some?
    requires var a, b := NormalizeBinding(h, x).value, NormalizeBinding(h, y).value;
      CanonicalJson(h, a).Some? && CanonicalJson(h, a) == CanonicalJson(h, b)
    ensures NormalizeBinding(h, x) == NormalizeBinding(h, y)
  {
    NormalizeTwice(h, x);
    NormalizeTwice(h, y);
    JsonOfHasFields(NormalizeBinding(h, x).value);
    JsonOfHasFields(NormalizeBinding(h, y).value);
    CanonicalTextDetermines(NormalizeBinding(h, x).value, NormalizeBinding(h, y).value);
  }
}
