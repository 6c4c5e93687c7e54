/**
 * Debian version ordering (scripts/provenance/pin-debian-packages.ts; section
 * 5.6.12 of the Debian Policy Manual). Digit runs are ideal integers.
 */
module DebianVersions {
  import opened Wrappers
  import opened Decimal

  predicate IsLetter(c: char) {
    'a' <= c <= 'z' || 'A' <= c <= 'Z'
  }

  /** `order` of a present character; the end of a run of non-digits has order 0. */
  function Order(c: char): int {
    if c == '~' then -1
    else if IsLetter(c) then c as int
    else c as int + 256
  }

  /** How many digits a string starts with. */
  function DigitRun(s: string): (n: nat)
    ensures n <= |s| && AllDigits(s[..n]) && (n < |s| ==> !IsDigit(s[n]))
  {
    if s == "" || !IsDigit(s[0]) then 0
    else
      var n := DigitRun(s[1..]);
      assert s[..n + 1] == [s[0]] + s[1..][..n];
      n + 1
  }

  // ----- Reference: a string's sort key, compared as if padded with zeros

  /** Each non-digit contributes its order, each run of digits an end mark and its value. */
  function Key(s: string): seq<int>
    decreases |s|
  {
    if s == "" then []
    else if !IsDigit(s[0]) then [Order(s[0])] + Key(s[1..])
    else [0, ParseNat(s[..DigitRun(s)])] + Key(s[DigitRun(s)..])
  }

  function KeyAt(a: seq<int>, i: nat): int {
    if i < |a| then a[i] else 0
  }

  function Rest(a: seq<int>): seq<int> {
    if a == [] then [] else a[1..]
  }

  /** The difference at the first position where two padded keys differ, or zero. */
  function Lex(a: seq<int>, b: seq<int>): int
    decreases |a| + |b|
  {
    if a == [] && b == [] then 0
    else if KeyAt(a, 0) != KeyAt(b, 0) then KeyAt(a, 0) - KeyAt(b, 0)
    else Lex(Rest(a), Rest(b))
  }

  lemma {:induction false} LexReflexive(a: seq<int>)
    ensures Lex(a, a) == 0
  {
    if a != [] {
      LexReflexive(a[1..]);
    }
  }

  lemma {:induction false} LexAntisymmetric(a: seq<int>, b: seq<int>)
    ensures Lex(a, b) == -Lex(b, a)
    decreases |a| + |b|
  {
    if (a != [] || b != []) && KeyAt(a, 0) == KeyAt(b, 0) {
      LexAntisymmetric(Rest(a), Rest(b));
    }
  }

  lemma {:induction false} LexTransitive(a: seq<int>, b: seq<int>, c: seq<int>)
    requires Lex(a, b) <= 0 && Lex(b, c) <= 0
    ensures Lex(a, c) <= 0
    ensures Lex(a, c) == 0 ==> Lex(a, b) == 0 && Lex(b, c) == 0
    decreases |a| + |b| + |c|
  {
    if (a != [] || b != [] || c != []) && KeyAt(a, 0) == KeyAt(b, 0) == KeyAt(c, 0) {
      LexTransitive(Rest(a), Rest(b), Rest(c));
    }
  }

  /** Two keys tie exactly when they agree at every position, padding included. */
  lemma {:induction false} LexZero(a: seq<int>, b: seq<int>)
    ensures Lex(a, b) == 0 <==> forall i: nat :: KeyAt(a, i) == KeyAt(b, i)
    decreases |a| + |b|
  {
    if a != [] || b != [] {
      LexZero(Rest(a), Rest(b));
      KeyShifts(a, b);
    }
  }

  lemma KeyShifts(a: seq<int>, b: seq<int>)
    ensures (forall i: nat :: KeyAt(a, i) == KeyAt(b, i))
       <==> KeyAt(a, 0) == KeyAt(b, 0) && forall i: nat :: KeyAt(Rest(a), i) == KeyAt(Rest(b), i)
  {
    assert forall i: nat :: KeyAt(Rest(a), i) == KeyAt(a, i + 1) && KeyAt(Rest(b), i) == KeyAt(b, i + 1);
    forall i: nat | KeyAt(a, 0) == KeyAt(b, 0) && forall j: nat :: KeyAt(Rest(a), j) == KeyAt(Rest(b), j)
      ensures KeyAt(a, i) == KeyAt(b, i)
    {
      if i > 0 {
        assert KeyAt(Rest(a), i - 1) == KeyAt(Rest(b), i - 1);
      }
    }
  }

  // ----- The two-index loop

  /** Both sides have no non-digit next: the keys then go on with the two digit runs. */
  lemma NumbersNext(x: string, y: string)
    requires x != "" || y != ""
    requires (x != "" ==> IsDigit(x[0])) && (y != "" ==> IsDigit(y[0]))
    ensures var dx, dy := ParseNat(x[..DigitRun(x)]), ParseNat(y[..DigitRun(y)]);
            Lex(Key(x), Key(y)) == if dx != dy then dx - dy else Lex(Key(x[DigitRun(x)..]), Key(y[DigitRun(y)..]))
  {
    var a, b := Key(x), Key(y);
    var dx, dy := ParseNat(x[..DigitRun(x)]), ParseNat(y[..DigitRun(y)]);
    assert x == "" ==> x[..DigitRun(x)] == "" && x[DigitRun(x)..] == "";
    assert y == "" ==> y[..DigitRun(y)] == "" && y[DigitRun(y)..] == "";
    assert KeyAt(a, 0) == 0 && KeyAt(b, 0) == 0;
    assert KeyAt(Rest(a), 0) == dx && KeyAt(Rest(b), 0) == dy;
    assert Rest(Rest(a)) == Key(x[DigitRun(x)..]);
    assert Rest(Rest(b)) == Key(y[DigitRun(y)..]);
  }

  /** A non-digit next on either side: only equal orders go on, and then both sides advance. */
  lemma NonDigitNext(x: string, y: string)
    requires (x != "" && !IsDigit(x[0])) || (y != "" && !IsDigit(y[0]))
    ensures var cx := if x != "" && !IsDigit(x[0]) then Order(x[0]) else 0;
            var cy := if y != "" && !IsDigit(y[0]) then Order(y[0]) else 0;
            && (cx != cy ==> Lex(Key(x), Key(y)) == cx - cy)
            && (cx == cy ==> x != "" && !IsDigit(x[0]) && y != "" && !IsDigit(y[0])
                             && Lex(Key(x), Key(y)) == Lex(Key(x[1..]), Key(y[1..])))
  {
    assert x != "" && !IsDigit(x[0]) ==> Rest(Key(x)) == Key(x[1..]);
    assert y != "" && !IsDigit(y[0]) ==> Rest(Key(y)) == Key(y[1..]);
  }

  predicate NonDigitAt(s: string, i: nat) {
    i < |s| && !IsDigit(s[i])
  }

  function OrderAt(s: string, i: nat): int {
    if NonDigitAt(s, i) then Order(s[i]) else 0
  }

  /** Reads the run of digits at `i`. */
  method TakeDigits(s: string, i: nat) returns (n: string, next: nat)
    requires i <= |s|
    ensures next == i + DigitRun(s[i..]) && n == s[i..][..DigitRun(s[i..])]
  {
    n := "";
    next := i;
    while next < |s| && IsDigit(s[next])
      invariant i <= next <= |s| && n == s[i..next]
      invariant DigitRun(s[i..]) == next - i + DigitRun(s[next..])
    {
      assert s[next..][1..] == s[next + 1..];
      n := n + [s[next]];
      next := next + 1;
    }
    assert s[i..][..next - i] == s[i..next];
  }

  /** What is left to compare at two positions. */
  function LeftToCompare(x: string, i: nat, y: string, j: nat): int
    requires i <= |x| && j <= |y|
  {
    Lex(Key(x[i..]), Key(y[j..]))
  }

  lemma StepOverNonDigits(x: string, i: nat, y: string, j: nat)
    requires i <= |x| && j <= |y| && (NonDigitAt(x, i) || NonDigitAt(y, j))
    ensures OrderAt(x, i) != OrderAt(y, j) ==> LeftToCompare(x, i, y, j) == OrderAt(x, i) - OrderAt(y, j)
    ensures OrderAt(x, i) == OrderAt(y, j) ==>
              && NonDigitAt(x, i) && NonDigitAt(y, j)
              && LeftToCompare(x, i + 1, y, j + 1) == LeftToCompare(x, i, y, j)
  {
    NonDigitNext(x[i..], y[j..]);
    if NonDigitAt(x, i) && NonDigitAt(y, j) {
      assert x[i..][1..] == x[i + 1..] && y[j..][1..] == y[j + 1..];
    }
  }

  lemma StepOverNumbers(x: string, i: nat, y: string, j: nat)
    requires i <= |x| && j <= |y| && (i < |x| || j < |y|) && !NonDigitAt(x, i) && !NonDigitAt(y, j)
    ensures var m, n := DigitRun(x[i..]), DigitRun(y[j..]);
            var dx: int, dy: int := ParseNat(x[i..][..m]), ParseNat(y[j..][..n]);
            && m + n > 0
            && LeftToCompare(x, i, y, j) == if dx != dy then dx - dy else LeftToCompare(x, i + m, y, j + n)
  {
    NumbersNext(x[i..], y[j..]);
    RestAfter(x, i, DigitRun(x[i..]));
    RestAfter(y, j, DigitRun(y[j..]));
  }

  lemma RestAfter(t: string, i: nat, m: nat)
    requires i + m <= |t|
    ensures t[i..][m..] == t[i + m..]
  {
  }

  /** The inner loop of `cmpPart`: non-digits side by side until an order differs or both sides reach a digit. */
  method SkipNonDigits(x: string, i0: nat, y: string, j0: nat) returns (first: int, i: nat, j: nat)
    requires i0 <= |x| && j0 <= |y|
    ensures i0 <= i <= |x| && j0 <= j <= |y|
    ensures first != 0 ==> first == LeftToCompare(x, i0, y, j0)
    ensures first == 0 ==> !NonDigitAt(x, i) && !NonDigitAt(y, j)
                           && LeftToCompare(x, i, y, j) == LeftToCompare(x, i0, y, j0)
  {
    first, i, j := 0, i0, j0;
    while NonDigitAt(x, i) || NonDigitAt(y, j)
      invariant i0 <= i <= |x| && j0 <= j <= |y| && first == 0
      invariant LeftToCompare(x, i, y, j) == LeftToCompare(x, i0, y, j0)
      decreases |x| - i
    {
      StepOverNonDigits(x, i, y, j);
      first := OrderAt(x, i) - OrderAt(y, j);
      if first != 0 {
        return;
      }
      i := i + 1;
      j := j + 1;
    }
  }

  /** The two digit runs of one round, read as numbers; a missing run is zero. */
  method ReadNumbers(x: string, i0: nat, y: string, j0: nat) returns (difference: int, i: nat, j: nat)
    requires i0 <= |x| && j0 <= |y| && !NonDigitAt(x, i0) && !NonDigitAt(y, j0)
    ensures i0 <= i <= |x| && j0 <= j <= |y|
    ensures i == i0 && j == j0 ==> i0 == |x| && j0 == |y|
    ensures difference != 0 ==> difference == LeftToCompare(x, i0, y, j0)
    ensures difference == 0 ==> LeftToCompare(x, i, y, j) == LeftToCompare(x, i0, y, j0)
  {
    var nx, ny;
    nx, i := TakeDigits(x, i0);
    ny, j := TakeDigits(y, j0);
    var dx: int, dy: int := ParseNat(nx), ParseNat(ny);
    if i0 < |x| || j0 < |y| {
      StepOverNumbers(x, i0, y, j0);
    } else {
      assert nx == "" && ny == "";
    }
    return dx - dy, i, j;
  }

  /** `cmpPart`: exactly the lexicographic comparison of the two sort keys. */
  method CmpPart(x: string, y: string) returns (r: int)
    ensures r == Lex(Key(x), Key(y))
  {
    var i: nat, j: nat := 0, 0;
    assert x[0..] == x && y[0..] == y;
    ghost var whole := LeftToCompare(x, 0, y, 0);
    while i < |x| || j < |y|
      invariant i <= |x| && j <= |y|
      invariant LeftToCompare(x, i, y, j) == whole
      decreases |x| - i + |y| - j
    {
      var first: int, difference: int;
      first, i, j := SkipNonDigits(x, i, y, j);
      if first != 0 {
        return first;
      }
      difference, i, j := ReadNumbers(x, i, y, j);
      if difference != 0 {
        return difference;
      }
    }
    assert x[i..] == "" && y[j..] == "";
    return 0;
  }

  // ----- Whole versions

  function IndexOf(s: string, c: char): int {
    if s == "" then -1
    else if s[0] == c then 0
    else if IndexOf(s[1..], c) < 0 then -1 else IndexOf(s[1..], c) + 1
  }

  function LastIndexOf(s: string, c: char): int {
    if s == "" then -1
    else if s[|s| - 1] == c then |s| - 1
    else LastIndexOf(s[..|s| - 1], c)
  }

  lemma IndexInRange(s: string, c: char)
    ensures -1 <= IndexOf(s, c) < |s| && -1 <= LastIndexOf(s, c) < |s|
  {
  }

  datatype Version = Version(epoch: nat, upstream: string, revision: string)

  /** The part before the first colon, if any, is a decimal epoch. */
  predicate WellFormed(v: string) {
    IndexInRange(v, ':');
    IndexOf(v, ':') >= 0 ==> AllDigits(v[..IndexOf(v, ':')])
  }

  function Split(v: string): Version
    requires WellFormed(v)
  {
    IndexInRange(v, ':');
    var colon := IndexOf(v, ':');
    var epoch := if colon >= 0 then ParseNat(v[..colon]) else 0;
    var rest := if colon >= 0 then v[colon + 1..] else v;
    IndexInRange(rest, '-');
    var dash := LastIndexOf(rest, '-');
    if dash >= 0 then Version(epoch, rest[..dash], rest[dash + 1..]) else Version(epoch, rest, "")
  }

  /** The order the comparison must realize: epoch, then upstream, then revision. */
  function Compared(a: string, b: string): int
    requires WellFormed(a) && WellFormed(b)
  {
    var va, vb := Split(a), Split(b);
    if va.epoch != vb.epoch then va.epoch - vb.epoch
    else if Lex(Key(va.upstream), Key(vb.upstream)) != 0 then Lex(Key(va.upstream), Key(vb.upstream))
    else Lex(Key(va.revision), Key(vb.revision))
  }

  method CompareDebianVersions(a: string, b: string) returns (r: int)
    requires WellFormed(a) && WellFormed(b)
    ensures r == Compared(a, b)
  {
    var va, vb := Split(a), Split(b);
    if va.epoch != vb.epoch {
      return va.epoch - vb.epoch;
    }
    var upstream := CmpPart(va.upstream, vb.upstream);
    if upstream != 0 {
      return upstream;
    }
    r := CmpPart(va.revision, vb.revision);
  }

  /** Reflexive, antisymmetric in sign, and so total. */
  lemma ComparisonIsSymmetric(a: string, b: string)
    requires WellFormed(a) && WellFormed(b)
    ensures Compared(a, a) == 0
    ensures Compared(a, b) == -Compared(b, a)
  {
    var va, vb := Split(a), Split(b);
    LexReflexive(Key(va.upstream));
    LexReflexive(Key(va.revision));
    LexAntisymmetric(Key(va.upstream), Key(vb.upstream));
    LexAntisymmetric(Key(va.revision), Key(vb.revision));
  }

  lemma {:induction false} LexTieIsCongruent(a: seq<int>, b: seq<int>, c: seq<int>)
    requires Lex(a, b) == 0
    ensures (Lex(a, c) < 0 <==> Lex(b, c) < 0) && (Lex(a, c) == 0 <==> Lex(b, c) == 0)
  {
    LexZero(a, b);
    LexZero(a, c);
    LexZero(b, c);
    LexAntisymmetric(a, b);
    if Lex(a, c) <= 0 {
      LexTransitive(b, a, c);
    }
    if Lex(b, c) <= 0 {
      LexTransitive(a, b, c);
    }
  }

  /** Transitive, and strict as soon as one of the two steps is. */
  lemma ComparisonIsTransitive(a: string, b: string, c: string)
    requires WellFormed(a) && WellFormed(b) && WellFormed(c)
    requires Compared(a, b) <= 0 && Compared(b, c) <= 0
    ensures Compared(a, c) <= 0
    ensures Compared(a, c) == 0 ==> Compared(a, b) == 0 && Compared(b, c) == 0
  {
    var va, vb, vc := Split(a), Split(b), Split(c);
    if va.epoch == vb.epoch == vc.epoch {
      var ab, bc := Lex(Key(va.upstream), Key(vb.upstream)), Lex(Key(vb.upstream), Key(vc.upstream));
      LexTransitive(Key(va.upstream), Key(vb.upstream), Key(vc.upstream));
      if ab == 0 == bc {
        LexTieIsCongruent(Key(va.upstream), Key(vb.upstream), Key(vc.upstream));
        LexTransitive(Key(va.revision), Key(vb.revision), Key(vc.revision));
      }
    }
  }

  /** Digits on both sides of a cut would be one run. */
  predicate CutsNoRun(u: string, t: string) {
    u == "" || t == "" || !IsDigit(u[|u| - 1]) || !IsDigit(t[0])
  }

  /** A suffix that does not go on with a run of digits only extends the key. */
  lemma {:induction false} KeyExtends(u: string, t: string)
    requires CutsNoRun(u, t)
    ensures Key(u + t) == Key(u) + Key(t)
    decreases |u|
  {
    if u == "" {
      assert u + t == t;
    } else if !IsDigit(u[0]) {
      assert (u + t)[1..] == u[1..] + t;
      KeyExtends(u[1..], t);
    } else {
      RunStops(u, t);
      var n := DigitRun(u);
      assert (u + t)[..n] == u[..n] && (u + t)[n..] == u[n..] + t;
      KeyExtends(u[n..], t);
    }
  }

  lemma {:induction false} RunStops(u: string, t: string)
    requires CutsNoRun(u, t) && u != ""
    ensures DigitRun(u + t) == DigitRun(u)
    decreases |u|
  {
    assert (u + t)[1..] == u[1..] + t;
    if |u| > 1 {
      RunStops(u[1..], t);
    } else {
      assert u[1..] + t == t;
    }
  }

  lemma {:induction false} LexAfterCommonPrefix(p: seq<int>, a: seq<int>, b: seq<int>)
    ensures Lex(p + a, p + b) == Lex(a, b)
    decreases |p|
  {
    if p == [] {
      assert p + a == a && p + b == b;
    } else {
      assert (p + a)[1..] == p[1..] + a && (p + b)[1..] == p[1..] + b;
      LexAfterCommonPrefix(p[1..], a, b);
    }
  }

  /**
   * Appending a tilde sorts before appending nothing; appending anything else
   * that is not a digit sorts after it.
   */
  lemma TildeSortsBeforeTheEnd(u: string, t: string)
    requires t != "" && !IsDigit(t[0])
    ensures Lex(Key(u + t), Key(u)) < 0 <==> t[0] == '~'
    ensures Lex(Key(u + t), Key(u)) != 0
  {
    KeyExtends(u, t);
    assert Key(u) + [] == Key(u);
    LexAfterCommonPrefix(Key(u), Key(t), []);
    assert Order(t[0]) == KeyAt(Key(t), 0) != 0;
  }

  /**
   * A tilde before everything, even the end or a number; the end or a number
   * before the rest; letters before what is neither letter nor digit; each kind by code.
   */
  predicate SortsBefore(c: char, y: string) {
    if c == '~' then true
    else if y == "" || '0' <= y[0] <= '9' || y[0] == '~' then false
    else
      var d := y[0];
      var letters := ('a' <= c <= 'z' || 'A' <= c <= 'Z', 'a' <= d <= 'z' || 'A' <= d <= 'Z');
      if letters.0 == letters.1 then c < d else letters.0
  }

  lemma NonDigitFirst(x: string, y: string)
    requires x != "" && !IsDigit(x[0]) && (y == "" || x[0] != y[0])
    ensures Lex(Key(x), Key(y)) < 0 <==> SortsBefore(x[0], y)
    ensures Lex(Key(x), Key(y)) > 0 <==> !SortsBefore(x[0], y)
  {
    NonDigitNext(x, y);
  }

  /** Two parts that first differ in a non-digit of one of them are ordered by what stands there. */
  lemma FirstNonDigitDecides(u: string, x: string, y: string)
    requires x != "" && !IsDigit(x[0]) && (y == "" || x[0] != y[0]) && CutsNoRun(u, y)
    ensures Lex(Key(u + x), Key(u + y)) < 0 <==> SortsBefore(x[0], y)
    ensures Lex(Key(u + x), Key(u + y)) > 0 <==> !SortsBefore(x[0], y)
  {
    AfterCommonPart(u, x, y);
    NonDigitFirst(x, y);
  }

  lemma AfterCommonPart(u: string, x: string, y: string)
    requires CutsNoRun(u, x) && CutsNoRun(u, y)
    ensures Lex(Key(u + x), Key(u + y)) == Lex(Key(x), Key(y))
  {
    KeyExtends(u, x);
    KeyExtends(u, y);
    LexAfterCommonPrefix(Key(u), Key(x), Key(y));
  }

  lemma {:induction false} AllDigitsRun(d: string, x: string)
    requires AllDigits(d) && (x == "" || !IsDigit(x[0]))
    ensures DigitRun(d + x) == |d| && (d + x)[..|d|] == d && (d + x)[|d|..] == x
  {
    if d == "" {
      assert d + x == x;
    } else {
      assert (d + x)[1..] == d[1..] + x;
      AllDigitsRun(d[1..], x);
    }
  }

  lemma NumbersFirst(m: string, n: string, x: string, y: string)
    requires AllDigits(m) && AllDigits(n) && m != "" && n != ""
    requires (x == "" || !IsDigit(x[0])) && (y == "" || !IsDigit(y[0]))
    ensures Lex(Key(m + x), Key(n + y))
         == if ParseNat(m) != ParseNat(n) then ParseNat(m) - ParseNat(n) else Lex(Key(x), Key(y))
  {
    AllDigitsRun(m, x);
    AllDigitsRun(n, y);
    NumbersNext(m + x, n + y);
  }

  /** Numbers at one place compare by value, whatever their zeros in front; equal ones leave it to what follows. */
  lemma NumbersCompareByValue(u: string, m: string, n: string, x: string, y: string)
    requires AllDigits(m) && AllDigits(n) && m != "" && n != "" && CutsNoRun(u, m) && CutsNoRun(u, n)
    requires (x == "" || !IsDigit(x[0])) && (y == "" || !IsDigit(y[0]))
    ensures ParseNat(m) < ParseNat(n) ==> Lex(Key(u + (m + x)), Key(u + (n + y))) < 0
    ensures ParseNat(m) == ParseNat(n) ==> Lex(Key(u + (m + x)), Key(u + (n + y))) == Lex(Key(x), Key(y))
  {
    AfterCommonPart(u, m + x, n + y);
    NumbersFirst(m, n, x, y);
  }

  // ----- How a version is read

  function Tail(upstream: string, revision: Option<string>): string {
    upstream + if revision.Some? then "-" + revision.value else ""
  }

  /** A version written out: the epoch and the revision may be left out. */
  function Written(epoch: Option<string>, upstream: string, revision: Option<string>): string {
    (if epoch.Some? then epoch.value + ":" else "") + Tail(upstream, revision)
  }

  function OrEmpty(part: Option<string>): string {
    if part.Some? then part.value else ""
  }

  /** What is written reads back: no epoch means no colon, no revision no dash, and no revision holds a dash. */
  predicate Readable(epoch: Option<string>, upstream: string, revision: Option<string>) {
    && (if epoch.Some? then AllDigits(epoch.value)
        else ':' !in upstream && (revision.Some? ==> ':' !in revision.value))
    && (if revision.Some? then '-' !in revision.value else '-' !in upstream)
  }

  lemma {:induction false} FirstOf(a: string, c: char, b: string)
    requires c !in a
    ensures IndexOf(a + [c] + b, c) == |a|
  {
    if a != "" {
      assert (a + [c] + b)[1..] == a[1..] + [c] + b;
      FirstOf(a[1..], c, b);
    }
  }

  lemma {:induction false} LastOf(a: string, c: char, b: string)
    requires c !in b
    ensures LastIndexOf(a + [c] + b, c) == |a|
    decreases |b|
  {
    var s := a + [c] + b;
    if b != "" {
      var front := b[..|b| - 1];
      assert s[..|s| - 1] == a + [c] + front && s[|s| - 1] == b[|b| - 1];
      LastOf(a, c, front);
    }
  }

  lemma {:induction false} NotFound(s: string, c: char)
    requires c !in s
    ensures IndexOf(s, c) == -1 && LastIndexOf(s, c) == -1
  {
    if s != "" {
      NotFoundFirst(s, c);
      NotFound(s[..|s| - 1], c);
    }
  }

  lemma {:induction false} NotFoundFirst(s: string, c: char)
    requires c !in s
    ensures IndexOf(s, c) == -1
  {
    if s != "" {
      NotFoundFirst(s[1..], c);
    }
  }

  lemma EpochReads(epoch: Option<string>, rest: string)
    requires if epoch.Some? then AllDigits(epoch.value) else ':' !in rest
    ensures var v := (if epoch.Some? then epoch.value + ":" else "") + rest;
            var colon := IndexOf(v, ':');
            && colon == (if epoch.Some? then |epoch.value| else -1)
            && (epoch.Some? ==> v[..colon] == epoch.value && v[colon + 1..] == rest)
            && (epoch.None? ==> v == rest)
  {
    if epoch.Some? {
      assert epoch.value + ":" + rest == epoch.value + [':'] + rest;
      FirstOf(epoch.value, ':', rest);
    } else {
      assert "" + rest == rest;
      NotFound(rest, ':');
    }
  }

  lemma RevisionReads(upstream: string, revision: Option<string>)
    requires if revision.Some? then '-' !in revision.value else '-' !in upstream
    ensures var rest := Tail(upstream, revision);
            var dash := LastIndexOf(rest, '-');
            && dash == (if revision.Some? then |upstream| else -1)
            && (revision.Some? ==> rest[..dash] == upstream && rest[dash + 1..] == revision.value)
            && (revision.None? ==> rest == upstream)
  {
    if revision.Some? {
      assert Tail(upstream, revision) == upstream + ['-'] + revision.value;
      LastOf(upstream, '-', revision.value);
    } else {
      assert Tail(upstream, revision) == upstream;
      NotFound(upstream, '-');
    }
  }

  /** Splitting takes the first colon and the last dash after it. */
  lemma SplitReads(epoch: Option<string>, upstream: string, revision: Option<string>)
    requires Readable(epoch, upstream, revision)
    ensures var v := Written(epoch, upstream, revision);
      var number := if epoch.Some? then ParseNat(epoch.value) else 0;
      WellFormed(v) && Split(v) == Version(number, upstream, OrEmpty(revision))
  {
    var v, rest := Written(epoch, upstream, revision), Tail(upstream, revision);
    EpochReads(epoch, rest);
    RevisionReads(upstream, revision);
    var colon := IndexOf(v, ':');
    assert (if colon >= 0 then v[colon + 1..] else v) == rest;
  }

  /** Between versions as written: a higher epoch wins, then the upstream part, then the revision. */
  lemma EpochThenUpstreamThenRevision(e: Option<string>, u: string, r: Option<string>,
                                      f: Option<string>, v: string, s: Option<string>)
    requires Readable(e, u, r) && Readable(f, v, s)
    ensures WellFormed(Written(e, u, r)) && WellFormed(Written(f, v, s))
    ensures var order := Compared(Written(e, u, r), Written(f, v, s));
      var epochs: (nat, nat) :=
        (if e.Some? then ParseNat(e.value) else 0, if f.Some? then ParseNat(f.value) else 0);
      var upstream, revision := Lex(Key(u), Key(v)), Lex(Key(OrEmpty(r)), Key(OrEmpty(s)));
      && (epochs.0 < epochs.1 ==> order < 0)
      && (epochs.0 == epochs.1 && upstream < 0 ==> order < 0)
      && (epochs.0 == epochs.1 && upstream == 0 && revision < 0 ==> order < 0)
      && (epochs.0 == epochs.1 && upstream == 0 && revision == 0 ==> order == 0)
  {
    SplitReads(e, u, r);
    SplitReads(f, v, s);
  }
}
