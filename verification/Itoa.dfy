/** The integer printers (extra/KVS-DRAM-Cache/itoa_ljust.c:83-149). They write two digits at a time from a table and
    print numbers beyond 32 bits in blocks of nine digits. */
module Itoa {

  /* ---- decimal text ---- */

  function Digit(d: nat): char
    requires d < 10
  {
    '0' + d as char
  }

  /** The canonical decimal form. */
  function Decimal(u: nat): string {
    if u < 10 then [Digit(u)] else Decimal(u / 10) + [Digit(u % 10)]
  }

  /** The last `n` digits. */
  function Pad(u: nat, n: nat): string
    decreases n
  {
    if n == 0 then "" else Pad(u / 10, n - 1) + [Digit(u % 10)]
  }

  /** `x` followed by `n` zeros. */
  function Zeros(x: nat, n: nat): nat {
    if n == 0 then x else 10 * Zeros(x, n - 1)
  }

  lemma {:induction false} PadCat(x: nat, y: nat, m: nat, n: nat)
    requires y < Zeros(1, n)
    ensures Pad(Zeros(x, n) + y, m + n) == Pad(x, m) + Pad(y, n)
    decreases n
  {
    if n > 0 {
      var u := Zeros(x, n) + y;
      assert u % 10 == y % 10 && u / 10 == Zeros(x, n - 1) + y / 10;
      PadCat(x, y / 10, m, n - 1);
    }
  }

  /** A number in front of a block of digits is printed in front of it. */
  lemma {:induction false} DecimalCat(x: nat, y: nat, n: nat)
    requires x > 0 && y < Zeros(1, n)
    ensures Decimal(Zeros(x, n) + y) == Decimal(x) + Pad(y, n)
    decreases n
  {
    if n > 0 {
      var u := Zeros(x, n) + y;
      ZerosGrow(x, n - 1);
      assert u % 10 == y % 10 && u / 10 == Zeros(x, n - 1) + y / 10 && u >= 10;
      DecimalCat(x, y / 10, n - 1);
    }
  }

  lemma {:induction false} ZerosGrow(x: nat, n: nat)
    ensures Zeros(x, n) >= x
  {
    if n > 0 { ZerosGrow(x, n - 1); }
  }

  /* ---- reading it back ---- */

  predicate IsDigits(s: string) { forall i | 0 <= i < |s| :: '0' <= s[i] <= '9' }

  function Parse(s: string): nat
    requires IsDigits(s)
  {
    if s == "" then 0 else 10 * Parse(s[..|s| - 1]) + (s[|s| - 1] - '0') as nat
  }

  /** The text is digits without a leading zero, and reads back as the number. */
  lemma {:induction false} DecimalIsCanonical(u: nat)
    ensures Decimal(u) != "" && IsDigits(Decimal(u))
    ensures Decimal(u)[0] == '0' <==> u == 0
    ensures Parse(Decimal(u)) == u
  {
    if u >= 10 {
      DecimalIsCanonical(u / 10);
      var s := Decimal(u);
      assert s[..|s| - 1] == Decimal(u / 10);
    } else {
      assert Decimal(u)[..0] == "";
    }
  }

  /* ---- the printers ---- */

  /** out2: two digits from the table. */
  function Out2(d: nat): string
    requires d < 100
  {
    [Digit(d / 10), Digit(d % 10)]
  }

  lemma Out2IsPad(d: nat)
    requires d < 100
    ensures Out2(d) == Pad(d, 2) && (d >= 10 ==> Out2(d) == Decimal(d))
  {
    assert Pad(d, 2) == Pad(d / 10, 1) + [Digit(d % 10)] && Pad(d / 10, 1) == Pad(d / 100, 0) + [Digit(d / 10)];
  }

  lemma Powers()
    ensures Zeros(1, 2) == 100 && Zeros(1, 4) == 10000 && Zeros(1, 6) == 1000000 && Zeros(1, 8) == 100000000
  {
    assert Zeros(1, 4) == 100 * Zeros(1, 2) && Zeros(1, 6) == 100 * Zeros(1, 4) && Zeros(1, 8) == 100 * Zeros(1, 6);
  }

  lemma {:induction false} ZerosTimes(x: nat, n: nat)
    ensures Zeros(x, n) == x * Zeros(1, n)
  {
    if n > 0 { ZerosTimes(x, n - 1); }
  }

  function Unit(n: nat): nat { Zeros(1, n) }

  /** The first two of `n + 2` digits. */
  lemma Pair(u: nat, d: nat, y: nat, n: nat)
    requires u == Zeros(d, n) + y && y < Unit(n) && d < 100
    ensures Pad(u, n + 2) == Out2(d) + Pad(y, n)
  {
    PadCat(d, y, 2, n);
    Out2IsPad(d);
  }

  /** The quotient `u / 10^n`. */
  function Lead(u: nat, n: nat): nat
    decreases n
  {
    if n == 0 then u else Lead(u / 10, n - 1)
  }

  lemma {:induction false} Quotient(u: nat, n: nat)
    ensures Zeros(Lead(u, n), n) <= u < Zeros(Lead(u, n), n) + Unit(n)
    decreases n
  {
    if n > 0 { Quotient(u / 10, n - 1); }
  }

  lemma Scaled(a: nat, b: nat, w: nat)
    ensures a <= b ==> a * w <= b * w
  {}

  lemma QuotientIs(u: nat, w: nat, q: nat)
    requires q * w <= u < q * w + w
    ensures u / w == q
  {
    var p := u / w;
    assert p * w <= u < p * w + w;
    Scaled(p + 1, q, w);
    Scaled(q + 1, p, w);
  }

  /** `Lead` is the machine's division by a power of ten. */
  lemma LeadIsDivision(u: nat, n: nat, w: nat)
    requires w == Unit(n) && w > 0
    ensures Lead(u, n) == u / w
  {
    Quotient(u, n);
    ZerosTimes(Lead(u, n), n);
    QuotientIs(u, w, Lead(u, n));
  }

  /** The division that finds the next two digits. */
  lemma FirstPair(u: nat, n: nat)
    requires n >= 2 && u < Unit(n)
    ensures var d := Lead(u, n - 2);
      d < 100 && Zeros(d, n - 2) <= u < Zeros(d, n - 2) + Unit(n - 2) && Pad(u, n) == Out2(d) + Pad(u - Zeros(d, n - 2), n - 2)
  {
    var d := Lead(u, n - 2);
    Quotient(u, n - 2);
    AtMost(u, d, n - 2);
    Pair(u, d, u - Zeros(d, n - 2), n - 2);
  }

  lemma AtMost(u: nat, d: nat, n: nat)
    requires Zeros(d, n) <= u < Unit(n + 2)
    ensures d < 100
  {
    ZerosShift(n);
    ZerosHundred(n);
    if d >= 100 { ZerosMore(100, d, n); }
  }

  lemma {:induction false} ZerosHundred(n: nat)
    ensures Zeros(100, n) == Unit(n + 2)
  {
    if n > 0 { ZerosHundred(n - 1); } else { assert Unit(2) == 10 * Unit(1) == 100 * Unit(0); }
  }

  lemma {:induction false} ZerosMore(a: nat, b: nat, n: nat)
    requires a <= b
    ensures Zeros(a, n) <= Zeros(b, n)
  {
    if n > 0 { ZerosMore(a, b, n - 1); }
  }

  /** An int: 32 bits that wrap around. */
  function AsInt(x: int): int { (x + 0x8000_0000) % 0x1_0000_0000 - 0x8000_0000 }

  /** `u -= d * k`, where `x` is the product. From 2^31 on the product wraps around to a negative int, and the subtraction
      from a 32-bit unsigned number wraps it back. */
  method Minus(u: nat, x: nat) returns (r: nat)
    requires x <= u < 0x1_0000_0000
    ensures r == u - x
  {
    r := (u - AsInt(x)) % 0x1_0000_0000;
  }

  /** The even cases of itoa's switch, each of which falls through to the next: pairs of digits. */
  method Pairs(u: nat, p: string, n: nat) returns (r: string)
    requires n % 2 == 0 && u < Unit(n) && u < 0x1_0000_0000
    ensures r == p + Pad(u, n)
    decreases n
  {
    if n == 0 {
      r := p;
    } else {
      var d := Lead(u, n - 2);
      FirstPair(u, n);
      var rest := Minus(u, Zeros(d, n - 2));
      r := Pairs(rest, p + Out2(d), n - 2);
      assert (p + Out2(d)) + Pad(u - Zeros(d, n - 2), n - 2) == p + (Out2(d) + Pad(u - Zeros(d, n - 2), n - 2));
    }
  }

  /** itoa, entered at case `n` of its switch: the digits of `u` that are left to print. When `n` is odd the caller has
      printed the first of them, which is `d`, and it is taken off. */
  method Itoa(u: nat, p: string, d: nat, n: nat) returns (r: string)
    requires 1 <= n && u < 0x1_0000_0000
    requires n % 2 == 0 ==> u < Unit(n)
    requires n % 2 == 1 ==> Zeros(d, n - 1) <= u < Zeros(d, n - 1) + Unit(n - 1)
    ensures r == p + if n % 2 == 0 then Pad(u, n) else Pad(u - Zeros(d, n - 1), n - 1)
  {
    if n % 2 == 0 {
      r := Pairs(u, p, n);
    } else {
      var rest := Minus(u, Zeros(d, n - 1));
      r := Pairs(rest, p, n - 1);
    }
  }

  /* ---- unsigned numbers ---- */

  /** digits: when `u` has `n - 1` digits its first one is printed, so that the rest come in pairs. */
  method Digits(u: nat, p: string, n: nat) returns (d: nat, q: string, m: nat)
    requires 2 <= n && Lead(u, n - 2) < 100
    ensures if u < Unit(n - 1) then m == n - 1 && d == Lead(u, n - 2) < 10 && q == p + [Digit(d)] else m == n && q == p
  {
    Quotient(u, n - 2);
    Leading(u, Lead(u, n - 2), n - 2);
    d, q, m := 0, p, n;
    if u < Unit(n - 1) {
      d := Lead(u, n - 2);
      q := p + [Digit(d)];
      m := n - 1;
    }
  }

  lemma {:induction false} ZerosLess(a: nat, b: nat, n: nat)
    requires a < b
    ensures Zeros(a, n) + Unit(n) <= Zeros(b, n)
  {
    if n > 0 { ZerosLess(a, b, n - 1); }
  }

  lemma {:induction false} ZerosShift(n: nat)
    ensures Zeros(0, n) == 0 && Zeros(10, n) == Unit(n + 1)
  {
    if n > 0 { ZerosShift(n - 1); }
  }

  /** How large the leading part of a number is. */
  lemma Leading(u: nat, d: nat, n: nat)
    requires Zeros(d, n) <= u < Zeros(d, n) + Unit(n)
    ensures d > 0 <==> u >= Unit(n)
    ensures d >= 10 <==> u >= Unit(n + 1)
  {
    ZerosShift(n);
    if d > 0 { ZerosLess(0, d, n); }
    if d < 10 { ZerosLess(d, 10, n); }
    if d > 10 { ZerosLess(10, d, n); }
  }

  /** A first digit and pairs, or pairs alone, are the decimal form. */
  lemma Printed(u: nat, d: nat, n: nat)
    requires Zeros(d, n) <= u < Zeros(d, n) + Unit(n) && d < 100 && (n > 0 ==> d > 0)
    ensures d < 10 <==> u < Unit(n + 1)
    ensures d < 10 ==> Decimal(u) == [Digit(d)] + Pad(u - Zeros(d, n), n)
    ensures d >= 10 ==> Decimal(u) == Pad(u, n + 2)
  {
    Leading(u, d, n);
    var y := u - Zeros(d, n);
    if n > 0 {
      DecimalCat(d, y, n);
    }
    if d >= 10 {
      Pair(u, d, y, n);
      Out2IsPad(d);
    }
  }

  /** itoa_u32 once it has found that `u` has `n` or `n - 1` digits. */
  method FromLength(u: nat, p: string, n: nat) returns (r: string)
    requires u < 0x1_0000_0000 && n >= 2 && n % 2 == 0 && u < Unit(n) && (n > 2 ==> u >= Unit(n - 2))
    ensures r == p + Decimal(u)
  {
    FirstPair(u, n);
    Leading(u, Lead(u, n - 2), n - 2);
    Printed(u, Lead(u, n - 2), n - 2);
    var d, q, m := Digits(u, p, n);
    r := Itoa(u, q, d, m);
  }

  /** itoa_u32. */
  method U32(u: nat, p: string) returns (r: string)
    requires u < 0x1_0000_0000
    ensures r == p + Decimal(u)
  {
    var n := if u >= 100000000 then 10 else if u < 100 then 2 else if u < 10000 then 4 else if u < 1000000 then 6 else 8;
    InRange(u, n);
    r := FromLength(u, p, n);
  }

  lemma InRange(u: nat, n: nat)
    requires u < 0x1_0000_0000
    requires n == if u >= 100000000 then 10 else if u < 100 then 2 else if u < 10000 then 4 else if u < 1000000 then 6 else 8
    ensures u < Unit(n) && (n > 2 ==> u >= Unit(n - 2))
  {
    Powers();
    assert Unit(10) == 10 * Unit(9) == 100 * Unit(8);
  }

  /** Digits of a lower block. */
  const NINE: nat := 9

  lemma Billion()
    ensures Unit(NINE) == 1000000000
  {
    Powers();
    assert Unit(9) == 10 * Unit(8);
  }

  /** A block of digits: one, and then pairs. */
  lemma OneMore(lower: nat, d: nat, n: nat)
    requires Zeros(d, n) <= lower < Zeros(d, n) + Unit(n) && d < 10
    ensures Pad(lower, n + 1) == [Digit(d)] + Pad(lower - Zeros(d, n), n)
  {
    PadCat(d, lower - Zeros(d, n), 1, n);
    assert Pad(d, 1) == Pad(d / 10, 0) + [Digit(d % 10)];
  }

  /** The leading part and the last nine digits. */
  method Split(u: nat) returns (upper: nat, lower: nat)
    requires u >= 1000000000
    ensures 0 < upper < u && lower < 1000000000 && Decimal(u) == Decimal(upper) + Pad(lower, NINE)
  {
    Billion();
    upper := u / 1000000000;
    lower := u - upper * 1000000000;
    ZerosTimes(upper, NINE);
    DecimalCat(upper, lower, NINE);
  }

  /** itoa_u64: blocks of nine digits behind the leading part. */
  method U64(u: nat, p: string) returns (r: string)
    requires u < 0x1_0000_0000_0000_0000
    ensures r == p + Decimal(u)
    decreases u
  {
    if u % 0x1_0000_0000 == u {
      r := U32(u, p);
    } else {
      var upper, lower := Split(u);
      var q := U64(upper, p);
      r := LowerBlock(lower, q);
      assert (p + Decimal(upper)) + Pad(lower, NINE) == p + (Decimal(upper) + Pad(lower, NINE));
    }
  }

  /** A block of `n + 1` digits, zeros included. */
  method Block(lower: nat, p: string, n: nat) returns (r: string)
    requires n % 2 == 0 && lower < Unit(n + 1) && lower < 0x1_0000_0000
    ensures r == p + Pad(lower, n + 1)
  {
    Quotient(lower, n);
    var d := Lead(lower, n);
    Leading(lower, d, n);
    r := Itoa(lower, p + [Digit(d)], d, n + 1);
    OneMore(lower, d, n);
    assert (p + [Digit(d)]) + Pad(lower - Zeros(d, n), n) == p + ([Digit(d)] + Pad(lower - Zeros(d, n), n));
  }

  /** The nine digits of a lower block. */
  method LowerBlock(lower: nat, p: string) returns (r: string)
    requires lower < 1000000000
    ensures r == p + Pad(lower, NINE)
  {
    Billion();
    r := Block(lower, p, NINE - 1);
  }

  /* ---- signed numbers ---- */

  /** The text of a signed number. */
  function Signed(i: int): string {
    if i < 0 then "-" + Decimal(-i) else Decimal(i)
  }

  /** Taken as an unsigned word and negated there, a negative number gives its absolute value. */
  lemma Negated(i: int, m: int)
    requires 0 < m && -m < i < m
    ensures i < 0 ==> (-(i % m)) % m == -i
    ensures i >= 0 ==> i % m == i
  {
    if i < 0 {
      Wrapped(i, m, -1);
      Wrapped(-(i % m), m, -1);
    } else {
      Wrapped(i, m, 0);
    }
  }

  lemma Wrapped(x: int, m: int, k: int)
    requires m > 0 && 0 <= x - k * m < m
    ensures x % m == x - k * m
  {
    var q, r := x / m, x % m;
    assert x == q * m + r;
    if q < k { Shifted(q, k, m); }
    if k < q { Shifted(k, q, m); }
  }

  lemma Shifted(a: int, b: int, m: int)
    requires a < b && m > 0
    ensures a * m + m <= b * m
  {
    var k := b - a - 1;
    assert k * m >= 0;
    assert b * m == (a + 1 + k) * m == a * m + m + k * m;
  }

  /** itoa_32; the negation is that of an unsigned word, which has room for the smallest number. */
  method I32(i: int, p: string) returns (r: string)
    requires -0x8000_0000 <= i < 0x8000_0000
    ensures r == p + Signed(i)
  {
    Negated(i, 0x1_0000_0000);
    var u := i % 0x1_0000_0000;
    var q := p;
    if i < 0 {
      q := p + "-";
      u := (-u) % 0x1_0000_0000;
    }
    r := U32(u, q);
    assert i < 0 ==> (p + "-") + Decimal(-i) == p + ("-" + Decimal(-i));
  }

  /** itoa_64. */
  method I64(i: int, p: string) returns (r: string)
    requires -0x8000_0000_0000_0000 <= i < 0x8000_0000_0000_0000
    ensures r == p + Signed(i)
  {
    Negated(i, 0x1_0000_0000_0000_0000);
    var u := i % 0x1_0000_0000_0000_0000;
    var q := p;
    if i < 0 {
      q := p + "-";
      u := (-u) % 0x1_0000_0000_0000_0000;
    }
    r := U64(u, q);
    assert i < 0 ==> (p + "-") + Decimal(-i) == p + ("-" + Decimal(-i));
  }

  /** The number read back from the text of a signed number. */
  function ParseSigned(s: string): int
    requires s != "" && IsDigits(if s[0] == '-' then s[1..] else s)
  {
    if s[0] == '-' then 0 - Parse(s[1..]) else Parse(s)
  }

  lemma SignedRoundTrip(i: int)
    ensures Signed(i) != "" && IsDigits(if Signed(i)[0] == '-' then Signed(i)[1..] else Signed(i))
    ensures ParseSigned(Signed(i)) == i
  {
    DecimalIsCanonical(if i < 0 then -i else i);
    if i < 0 { assert ("-" + Decimal(-i))[1..] == Decimal(-i); }
  }
}
