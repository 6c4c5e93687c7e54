/** Opaque receipt identifiers (src/inference/opaqueReceipt.ts). */
module OpaqueReceipts {

  newtype Byte = b: int | 0 <= b < 256

  const ALPHABET: string := "0123456789abcdefghjkmnpqrstvwxyz"
  const PREFIX: string := "arcpt_"
  const ENTROPY_BYTES: nat := 32
  const BODY_LENGTH: nat := 52

  function Pow(base: nat, e: nat): nat {
    if e == 0 then 1 else base * Pow(base, e - 1)
  }

  /** Bytes read as a big-endian number. */
  function BigEndian(raw: seq<Byte>): nat {
    if raw == [] then 0 else 256 * BigEndian(raw[..|raw| - 1]) + raw[|raw| - 1] as int
  }

  /** Digits read as a big-endian base-32 number. */
  function Base32(digits: seq<nat>): nat {
    if digits == [] then 0 else 32 * Base32(digits[..|digits| - 1]) + digits[|digits| - 1]
  }

  predicate IsSymbol(c: char) {
    exists i :: 0 <= i < |ALPHABET| && ALPHABET[i] == c
  }

  /** The position of a symbol in the alphabet. */
  ghost function SymbolValue(c: char): nat
    requires IsSymbol(c)
  {
    var i :| 0 <= i < |ALPHABET| && ALPHABET[i] == c;
    i
  }

  predicate AllSymbols(body: string) {
    forall i :: 0 <= i < |body| ==> IsSymbol(body[i])
  }

  /** The symbols of a receipt body as base-32 digits. */
  ghost function Symbols(body: string): seq<nat>
    requires AllSymbols(body)
  {
    seq(|body|, i requires 0 <= i < |body| && AllSymbols(body) => SymbolValue(body[i]))
  }

  /** `isOpaqueReceiptId`: the prefix and 52 symbols of the alphabet, nothing else. */
  predicate IsOpaqueReceiptId(s: string) {
    && |s| == |PREFIX| + BODY_LENGTH
    && s[..|PREFIX|] == PREFIX
    && AllSymbols(s[|PREFIX|..])
  }

  // ----- Arithmetic of shifting

  lemma PowPositive(base: nat, e: nat)
    requires base > 0
    ensures Pow(base, e) > 0
  {
  }

  /** The last k base-32 digits of n, most significant first. */
  function Digits(n: nat, k: nat): (d: seq<nat>)
    ensures |d| == k && forall i :: 0 <= i < k ==> d[i] < 32
  {
    if k == 0 then [] else Digits(n / 32, k - 1) + [n % 32]
  }

  lemma DivDiv(n: nat, p: nat)
    requires p > 0
    ensures 32 * p > 0 && n / (32 * p) == n / 32 / p
  {
    var q, r := n / 32 / p, n / 32 % p;
    assert n / 32 == q * p + r;
    assert n == q * (32 * p) + (32 * r + n % 32);
    assert 0 <= 32 * r + n % 32 < 32 * p;
    QuotientIsUnique(n, 32 * p, q, 32 * r + n % 32);
  }

  lemma QuotientIsUnique(n: nat, d: nat, q: nat, r: nat)
    requires 0 <= r < d && n == q * d + r
    ensures n / d == q
  {
    var e := n / d - q;
    assert n / d * d + n % d == q * d + r;
    assert e * d == r - n % d;
    assert e >= 1 ==> e * d >= 1 * d;
    assert e <= -1 ==> e * d <= -1 * d;
  }

  /** Shifting right by 5(k-1-i) bits and masking picks the i-th of k digits. */
  lemma {:induction false} ShiftPicksDigit(n: nat, k: nat, i: nat)
    requires i < k
    ensures Pow(32, k - 1 - i) > 0 && n / Pow(32, k - 1 - i) % 32 == Digits(n, k)[i]
    decreases k
  {
    PowPositive(32, k - 1 - i);
    if i < k - 1 {
      ShiftPicksDigit(n / 32, k - 1, i);
      DivDiv(n, Pow(32, k - 2 - i));
    }
  }

  /** Enough digits lose nothing. */
  lemma {:induction false} DigitsReadBack(n: nat, k: nat)
    requires n < Pow(32, k)
    ensures Base32(Digits(n, k)) == n
  {
    if k > 0 {
      assert n / 32 < Pow(32, k - 1);
      DigitsReadBack(n / 32, k - 1);
      assert Digits(n, k)[..k - 1] == Digits(n / 32, k - 1);
    }
  }

  lemma {:induction false} BigEndianBound(raw: seq<Byte>)
    ensures BigEndian(raw) < Pow(256, |raw|)
  {
    if raw != [] {
      BigEndianBound(raw[..|raw| - 1]);
      assert BigEndian(raw[..|raw| - 1]) <= Pow(256, |raw| - 1) - 1;
    }
  }

  lemma {:induction false} BigEndianInjective(a: seq<Byte>, b: seq<Byte>)
    requires |a| == |b| && BigEndian(a) == BigEndian(b)
    ensures a == b
  {
    if a != [] {
      var n := |a| - 1;
      BigEndianInjective(a[..n], b[..n]);
      assert a == a[..n] + [a[n]] && b == b[..n] + [b[n]];
    }
  }

  lemma TimesAssociates(x: int, y: int, z: int)
    ensures x * y * z == x * (y * z)
  {
  }

  lemma {:induction false} PowSum(base: nat, m: nat, n: nat)
    ensures Pow(base, m + n) == Pow(base, m) * Pow(base, n)
  {
    if m > 0 {
      PowSum(base, m - 1, n);
      TimesAssociates(base, Pow(base, m - 1), Pow(base, n));
    }
  }

  lemma {:induction false} PowOfPow(base: nat, k: nat, n: nat)
    ensures Pow(Pow(base, k), n) == Pow(base, k * n)
  {
    if n > 0 {
      PowOfPow(base, k, n - 1);
      PowSum(base, k, k * (n - 1));
      assert k + k * (n - 1) == k * n;
    }
  }

  /** 256 bits shifted left by 4 are exactly 52 symbols of 5 bits. */
  lemma AlignedFits(raw: seq<Byte>)
    requires |raw| == ENTROPY_BYTES
    ensures 16 * BigEndian(raw) < Pow(32, BODY_LENGTH)
  {
    BigEndianBound(raw);
    PowOfPow(2, 8, ENTROPY_BYTES);
    PowOfPow(2, 5, BODY_LENGTH);
    PowSum(2, 4, 8 * ENTROPY_BYTES);
    assert Pow(2, 8) == 256 && Pow(2, 5) == 32 && Pow(2, 4) == 16;
    assert 4 + 8 * ENTROPY_BYTES == 5 * BODY_LENGTH;
  }

  // ----- The encoder

  /** Thirty-two symbols, each its own value. */
  lemma SymbolsAreDistinct(i: nat)
    requires i < 32
    ensures |ALPHABET| == 32 && IsSymbol(ALPHABET[i]) && SymbolValue(ALPHABET[i]) == i
  {
    assert forall j, k :: 0 <= j < k < 32 ==> ALPHABET[j] != ALPHABET[k];
  }

  lemma SymbolFromValue(c: char)
    requires IsSymbol(c)
    ensures SymbolValue(c) < 32 && ALPHABET[SymbolValue(c)] == c
  {
  }

  /** Accumulates the bytes, most significant first. */
  method Accumulate(raw: seq<Byte>) returns (acc: nat)
    ensures acc == BigEndian(raw)
  {
    acc := 0;
    var i := 0;
    while i < |raw|
      invariant 0 <= i <= |raw| && acc == BigEndian(raw[..i])
    {
      assert raw[..i + 1][..i] == raw[..i];
      acc := acc * 256 + raw[i] as int;
      i := i + 1;
    }
    assert raw[..|raw|] == raw;
  }

  method Symbol(acc: nat, k: nat, i: nat) returns (c: char)
    requires i < k
    ensures IsSymbol(c) && SymbolValue(c) == Digits(acc, k)[i]
  {
    ShiftPicksDigit(acc, k, i);
    var v := acc / Pow(32, k - 1 - i) % 32;
    SymbolsAreDistinct(v);
    c := ALPHABET[v];
  }

  /** The symbol loop, over `k` symbols: what it writes reads back as the number. */
  method EncodeBody(acc: nat, k: nat) returns (body: string)
    requires acc < Pow(32, k)
    ensures |body| == k && AllSymbols(body) && Base32(Symbols(body)) == acc
  {
    body := "";
    var i := 0;
    while i < k
      invariant 0 <= i <= k && |body| == i && AllSymbols(body)
      invariant Symbols(body) == Digits(acc, k)[..i]
    {
      var c := Symbol(acc, k, i);
      body := body + [c];
      i := i + 1;
    }
    assert Digits(acc, k)[..k] == Digits(acc, k);
    DigitsReadBack(acc, k);
  }

  /** The symbols of a well-formed id, as a base-32 number, are 16 times the random bytes. */
  ghost predicate Encodes(id: string, raw: seq<Byte>) {
    IsOpaqueReceiptId(id) && Base32(Symbols(id[|PREFIX|..])) == 16 * BigEndian(raw)
  }

  /** `mintOpaqueReceiptId`, given the 32 random bytes it draws. */
  method Mint(raw: seq<Byte>) returns (id: string)
    requires |raw| == ENTROPY_BYTES
    ensures Encodes(id, raw)
  {
    var acc := Accumulate(raw);
    AlignedFits(raw);
    var body := EncodeBody(acc * 16, BODY_LENGTH);
    id := PREFIX + body;
    assert id[|PREFIX|..] == body;
  }

  /** Two draws that mint the same id are the same 32 bytes. */
  lemma EncodingIsInjective(id: string, a: seq<Byte>, b: seq<Byte>)
    requires |a| == |b| == ENTROPY_BYTES && Encodes(id, a) && Encodes(id, b)
    ensures a == b
  {
    BigEndianInjective(a, b);
  }

  /** The four padding bits leave two values for the last symbol: the digits 0 and 16 of the alphabet. */
  lemma LastSymbolIsOneOfTwo(id: string, raw: seq<Byte>)
    requires |raw| == ENTROPY_BYTES && Encodes(id, raw)
    ensures id[|id| - 1] == '0' || id[|id| - 1] == 'g'
    ensures id[|id| - 1] == '0' <==> raw[|raw| - 1] as int % 2 == 0
  {
    var body, n := id[|PREFIX|..], BigEndian(raw);
    var c := id[|id| - 1];
    assert body[|body| - 1] == c;
    SymbolFromValue(c);
    assert 16 * n % 32 == SymbolValue(c);
    assert n % 2 == raw[|raw| - 1] as int % 2;
  }

  /** A digit, or a lower-case letter that is not easily taken for another symbol. */
  predicate Unambiguous(c: char) {
    '0' <= c <= '9' || ('a' <= c <= 'z' && c != 'i' && c != 'l' && c != 'o' && c != 'u')
  }

  lemma UnambiguousAreSymbols(c: char)
    requires Unambiguous(c)
    ensures IsSymbol(c)
  {
    var n := c as int;
    var i :=
      if c <= '9' then n - 48
      else if c <= 'h' then n - 87
      else if c <= 'k' then n - 88
      else if c <= 'n' then n - 89
      else if c <= 't' then n - 90
      else n - 91;
    assert ALPHABET[i] == c;
  }

  lemma SymbolsAre(c: char)
    ensures IsSymbol(c) <==> Unambiguous(c)
  {
    if IsSymbol(c) {
      var i :| 0 <= i < |ALPHABET| && ALPHABET[i] == c;
      assert Unambiguous(c);
    }
    if Unambiguous(c) {
      UnambiguousAreSymbols(c);
    }
  }

  /** An id is `arcpt_` and 52 of these symbols. */
  lemma OpaqueReceiptIdsAre(s: string)
    ensures IsOpaqueReceiptId(s) <==>
      |s| == 58 && s[..6] == "arcpt_" && forall i :: 6 <= i < 58 ==> Unambiguous(s[i])
  {
    if |s| == 58 {
      var body := s[6..];
      forall i | 6 <= i < 58
        ensures IsSymbol(body[i - 6]) <==> Unambiguous(s[i])
      {
        SymbolsAre(s[i]);
      }
      if forall i :: 6 <= i < 58 ==> Unambiguous(s[i]) {
        forall i | 0 <= i < 52
          ensures IsSymbol(body[i])
        {
          assert Unambiguous(s[i + 6]);
        }
      }
      if AllSymbols(body) {
        forall i | 6 <= i < 58
          ensures Unambiguous(s[i])
        {
          assert IsSymbol(body[i - 6]);
        }
      }
    }
  }
}
