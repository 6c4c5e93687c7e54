/** Text and hexadecimal as the programs' own string functions treat them. */
module Text {
  // ----- Pieces of text

  lemma Joined(a: string, b: string, c: string)
    ensures (a + b) + c == a + (b + c)
  {
  }

  lemma SameHead(head: string, x: string, y: string)
    requires head + x == head + y
    ensures x == y
  {
    assert (head + x)[|head|..] == x && (head + y)[|head|..] == y;
  }

  // ----- White space

  /** The white space `trim` removes. */
  predicate IsSpace(c: char) {
    || '\t' <= c <= '\r' || c == ' ' || c == '\U{00A0}' || c == '\U{1680}'
    || '\U{2000}' <= c <= '\U{200A}' || c == '\U{2028}' || c == '\U{2029}'
    || c == '\U{202F}' || c == '\U{205F}' || c == '\U{3000}' || c == '\U{FEFF}'
  }

  function TrimStart(t: string): string {
    if t != "" && IsSpace(t[0]) then TrimStart(t[1..]) else t
  }

  function TrimEnd(t: string): string {
    if t != "" && IsSpace(t[|t| - 1]) then TrimEnd(t[..|t| - 1]) else t
  }

  function Trim(t: string): string {
    TrimEnd(TrimStart(t))
  }

  predicate AllSpace(t: string) {
    forall i :: 0 <= i < |t| ==> IsSpace(t[i])
  }

  /** A text that neither starts nor ends with white space. */
  predicate Bare(t: string) {
    t != "" ==> !IsSpace(t[0]) && !IsSpace(t[|t| - 1])
  }

  lemma {:induction false} TrimStartRemoves(a: string, t: string)
    requires AllSpace(a) && (t == "" || !IsSpace(t[0]))
    ensures TrimStart(a + t) == t
  {
    if a == "" {
      assert a + t == t;
    } else {
      assert (a + t)[1..] == a[1..] + t;
      TrimStartRemoves(a[1..], t);
    }
  }

  lemma {:induction false} TrimEndRemoves(t: string, b: string)
    requires AllSpace(b) && (t == "" || !IsSpace(t[|t| - 1]))
    ensures TrimEnd(t + b) == t
  {
    if b == "" {
      assert t + b == t;
    } else {
      assert (t + b)[..|t + b| - 1] == t + b[..|b| - 1];
      TrimEndRemoves(t, b[..|b| - 1]);
    }
  }

  /** Trimming takes exactly the white space off both ends. */
  lemma TrimRemoves(a: string, t: string, b: string)
    requires AllSpace(a) && AllSpace(b) && Bare(t)
    ensures Trim(a + t + b) == t
  {
    if t == "" {
      assert a + t + b == (a + b) + "";
      TrimStartRemoves(a + b, "");
    } else {
      assert a + t + b == a + (t + b);
      TrimStartRemoves(a, t + b);
      TrimEndRemoves(t, b);
    }
  }

  lemma {:induction false} TrimStartSplits(t: string) returns (a: string)
    ensures t == a + TrimStart(t) && AllSpace(a) && (TrimStart(t) == "" || !IsSpace(TrimStart(t)[0]))
  {
    if t != "" && IsSpace(t[0]) {
      var more := TrimStartSplits(t[1..]);
      a := [t[0]] + more;
      assert t == [t[0]] + t[1..];
    } else {
      a := "";
      assert t == "" + t;
    }
  }

  lemma {:induction false} TrimEndSplits(t: string) returns (b: string)
    ensures t == TrimEnd(t) + b && AllSpace(b)
  {
    if t != "" && IsSpace(t[|t| - 1]) {
      var more := TrimEndSplits(t[..|t| - 1]);
      b := more + [t[|t| - 1]];
      assert t == t[..|t| - 1] + [t[|t| - 1]];
    } else {
      b := "";
      assert t == t + "";
    }
  }

  // ----- Case and prefixes

  function LowerChar(c: char): (d: char)
    ensures d != c <==> 'A' <= c <= 'Z'
    ensures d != c ==> d as int == c as int + 32
  {
    if 'A' <= c <= 'Z' then (c as int + 32) as char else c
  }

  /** `toLowerCase`, on the letters that matter to hexadecimal and protocol text. */
  function Lower(t: string): (r: string)
    ensures |r| == |t| && forall i :: 0 <= i < |t| ==> r[i] == LowerChar(t[i])
  {
    if t == "" then "" else [LowerChar(t[0])] + Lower(t[1..])
  }

  /** `replace(/^0x/, "")`. */
  function Strip0x(t: string): string {
    if "0x" <= t then t[2..] else t
  }

  // ----- Hexadecimal

  type Byte = x: int | 0 <= x < 256

  predicate IsHexDigit(c: char) {
    '0' <= c <= '9' || 'a' <= c <= 'f'
  }

  /** `/^[0-9a-f]*$/`. */
  predicate IsHex(t: string) {
    forall i :: 0 <= i < |t| ==> IsHexDigit(t[i])
  }

  function HexDigit(n: int): (c: char)
    requires 0 <= n < 16
    ensures IsHexDigit(c)
  {
    if n < 10 then ('0' as int + n) as char else ('a' as int + n - 10) as char
  }

  function HexValue(c: char): (n: int)
    requires IsHexDigit(c)
    ensures 0 <= n < 16 && HexDigit(n) == c
  {
    if c <= '9' then c as int - '0' as int else c as int - 'a' as int + 10
  }

  function ToHex(b: seq<Byte>): (r: string)
    ensures |r| == 2 * |b| && IsHex(r)
  {
    if b == [] then "" else [HexDigit(b[0] / 16), HexDigit(b[0] % 16)] + ToHex(b[1..])
  }

  /** `Buffer.from(t, "hex")`: the bytes of the leading pairs of digits. */
  function FromHex(t: string): (r: seq<Byte>) {
    if |t| < 2 || !IsHexDigit(t[0]) || !IsHexDigit(t[1]) then []
    else [16 * HexValue(t[0]) + HexValue(t[1])] + FromHex(t[2..])
  }

  lemma {:induction false} FromToHex(b: seq<Byte>)
    ensures FromHex(ToHex(b)) == b
  {
    if b != [] {
      FromToHex(b[1..]);
      var t := ToHex(b);
      assert t[2..] == ToHex(b[1..]);
      assert HexValue(t[0]) == b[0] / 16 && HexValue(t[1]) == b[0] % 16;
    }
  }

  lemma {:induction false} ToFromHex(t: string)
    requires IsHex(t) && |t| % 2 == 0
    ensures ToHex(FromHex(t)) == t
  {
    if |t| >= 2 {
      var rest := FromHex(t[2..]);
      ToFromHex(t[2..]);
      ToHexOfPair(t[0], t[1], rest);
      assert FromHex(t) == [16 * HexValue(t[0]) + HexValue(t[1])] + rest;
      assert t == [t[0], t[1]] + t[2..];
    }
  }

  lemma ToHexOfPair(c: char, d: char, rest: seq<Byte>)
    requires IsHexDigit(c) && IsHexDigit(d)
    ensures ToHex([16 * HexValue(c) + HexValue(d)] + rest) == [c, d] + ToHex(rest)
  {
    var v := 16 * HexValue(c) + HexValue(d);
    assert v / 16 == HexValue(c) && v % 16 == HexValue(d);
    assert ([v] + rest)[1..] == rest;
  }

  /** `hexEqual`: absent and empty text compare unequal, case and a leading 0x do not matter. */
  predicate HexEqual(a: string, b: string) {
    var x, y := Strip0x(Lower(a)), Strip0x(Lower(b));
    a != "" && b != "" && x != "" && IsHex(x) && x == y
  }

  lemma {:induction false} LowerOfHex(t: string)
    requires IsHex(t)
    ensures Lower(t) == t && Strip0x(t) == t
  {
    if t != "" {
      LowerOfHex(t[1..]);
    }
  }

  /** A text that spells these digits, in either case, with or without a leading 0x. */
  predicate Spells(t: string, digits: string) {
    Lower(t) == digits || Lower(t) == "0x" + digits
  }

  /** Two texts are hex-equal exactly when they spell the same digits. */
  lemma HexEqualMeans(a: string, b: string)
    ensures HexEqual(a, b) <==> exists digits :: digits != "" && IsHex(digits) && Spells(a, digits) && Spells(b, digits)
  {
    if HexEqual(a, b) {
      var digits := Strip0x(Lower(a));
      StripSpells(a);
      StripSpells(b);
      assert Spells(a, digits) && Spells(b, digits);
    }
    if digits :| digits != "" && IsHex(digits) && Spells(a, digits) && Spells(b, digits) {
      SpellsStrips(a, digits);
      SpellsStrips(b, digits);
    }
  }

  lemma StripSpells(t: string)
    ensures Spells(t, Strip0x(Lower(t)))
  {
    if "0x" <= Lower(t) {
      assert Lower(t) == "0x" + Lower(t)[2..];
    }
  }

  lemma SpellsStrips(t: string, digits: string)
    requires IsHex(digits) && Spells(t, digits)
    ensures Strip0x(Lower(t)) == digits
  {
    if Lower(t) == "0x" + digits {
      assert Lower(t)[2..] == digits;
    }
  }

  /** A text hex-equal to two lower-case hex texts shows they are the same. */
  lemma HexEqualDetermines(a: string, x: string, y: string)
    requires IsHex(x) && IsHex(y)
    requires HexEqual(a, x) && HexEqual(a, y)
    ensures x == y
  {
    LowerOfHex(x);
    LowerOfHex(y);
  }

  lemma SameHexSameBytes(a: seq<Byte>, b: seq<Byte>)
    requires ToHex(a) == ToHex(b)
    ensures a == b
  {
    FromToHex(a);
    FromToHex(b);
  }
}
