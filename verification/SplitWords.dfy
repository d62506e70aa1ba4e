/** The macros of src/split_ordered.cc:67-76 and get_parent (src/split_ordered.cc:113-125) on 64-bit words, and
    their agreement with the arithmetic of `SplitOrder`. */
module SplitWords {

  import opened SplitOrder

  /** REVERSE_BYTE. */
  function ReverseByte(x: bv64): bv64 {
    ((((x * 0x0802) & 0x22110) | ((x * 0x8020) & 0x88440)) * 0x10101 >> 16) & 0xff
  }

  function Pack(b0: bv64, b1: bv64, b2: bv64, b3: bv64, b4: bv64, b5: bv64, b6: bv64, b7: bv64): bv64 {
    (b0 << 56) | (b1 << 48) | (b2 << 40) | (b3 << 32) | (b4 << 24) | (b5 << 16) | (b6 << 8) | b7
  }

  /** `f` of every byte of `x`, packed in the opposite order. */
  function Repack(f: bv64 -> bv64, x: bv64): bv64 {
    Pack(f(x & 0xff), f((x >> 8) & 0xff), f((x >> 16) & 0xff), f((x >> 24) & 0xff),
         f((x >> 32) & 0xff), f((x >> 40) & 0xff), f((x >> 48) & 0xff), f((x >> 56) & 0xff))
  }

  /** REVERSE. */
  function Reverse(x: bv64): bv64 { Repack(ReverseByte, x) }

  const MSB: bv64 := 0x8000_0000_0000_0000

  /** so_regularkey and so_dummykey. */
  function RegularWord(h: bv64): bv64 { Reverse(h | MSB) }

  function DummyWord(h: bv64): bv64 { Reverse(h) }

  /* ---- the number a word stands for ---- */

  function B(x: bv64, mask: bv64): nat { if x & mask != 0 then 1 else 0 }

  /** The bits of the low byte of a word, the lowest first. */
  function Bits8(x: bv64): seq<nat> {
    [B(x, 0x01), B(x, 0x02), B(x, 0x04), B(x, 0x08), B(x, 0x10), B(x, 0x20), B(x, 0x40), B(x, 0x80)]
  }

  /** `g` of every byte of `x`, one after the other. */
  function Spread(g: bv64 -> seq<nat>, x: bv64): seq<nat> {
    g(x) + g(x >> 8) + g(x >> 16) + g(x >> 24) + g(x >> 32) + g(x >> 40) + g(x >> 48) + g(x >> 56)
  }

  function Bits(x: bv64): seq<nat> { Spread(Bits8, x) }

  /** Bits, the lowest first, as one number. */
  function Number(bs: seq<nat>): nat {
    if bs == [] then 0 else bs[0] + 2 * Number(bs[1..])
  }

  function Value(x: bv64): nat { Number(Bits(x)) }

  function Mirror(bs: seq<nat>): seq<nat> { seq(|bs|, i requires 0 <= i < |bs| => bs[|bs| - 1 - i]) }

  lemma MirrorCat(a: seq<nat>, b: seq<nat>)
    ensures Mirror(a + b) == Mirror(b) + Mirror(a)
  {}

  lemma {:induction false} NumberAppend(bs: seq<nat>, b: nat)
    ensures Number(bs + [b]) == Number(bs) + Shl(b, |bs|)
  {
    if bs != [] {
      NumberAppend(bs[1..], b);
      assert (bs + [b])[1..] == bs[1..] + [b];
    }
  }

  ghost predicate AreBits(bs: seq<nat>) { forall i | 0 <= i < |bs| :: bs[i] < 2 }

  /** Turning a bit string around is `Rev` on the number. */
  lemma {:induction false} MirrorIsRev(bs: seq<nat>)
    requires AreBits(bs)
    ensures Number(Mirror(bs)) == Rev(Number(bs), |bs|)
  {
    if bs != [] {
      MirrorIsRev(bs[1..]);
      assert Mirror(bs) == Mirror(bs[1..]) + [bs[0]];
      NumberAppend(Mirror(bs[1..]), bs[0]);
      RevStep(bs[0], Number(bs[1..]), |bs| - 1);
    }
  }

  /* ---- REVERSE turns the bits around ---- */

  lemma ByteBits(x: bv64)
    ensures var y := ReverseByte(x & 0xff);
      && B(y, 0x01) == B(x, 0x80) && B(y, 0x02) == B(x, 0x40) && B(y, 0x04) == B(x, 0x20) && B(y, 0x08) == B(x, 0x10)
      && B(y, 0x10) == B(x, 0x08) && B(y, 0x20) == B(x, 0x04) && B(y, 0x40) == B(x, 0x02) && B(y, 0x80) == B(x, 0x01)
  {}

  lemma MirrorEight(s: seq<nat>, t: seq<nat>)
    requires |s| == |t| == 8
    requires t[0] == s[7] && t[1] == s[6] && t[2] == s[5] && t[3] == s[4]
    requires t[4] == s[3] && t[5] == s[2] && t[6] == s[1] && t[7] == s[0]
    ensures t == Mirror(s)
  {}

  lemma ByteMirrored(x: bv64)
    ensures Bits8(ReverseByte(x & 0xff)) == Mirror(Bits8(x))
  {
    ByteBits(x);
    MirrorEight(Bits8(x), Bits8(ReverseByte(x & 0xff)));
  }

  lemma LowByte(x: bv64)
    ensures Bits8(x & 0xff) == Bits8(x)
  {
    var y := x & 0xff;
    assert y & 0x01 == x & 0x01 && y & 0x02 == x & 0x02 && y & 0x04 == x & 0x04 && y & 0x08 == x & 0x08;
    assert y & 0x10 == x & 0x10 && y & 0x20 == x & 0x20 && y & 0x40 == x & 0x40 && y & 0x80 == x & 0x80;
  }

  /** What turning bytes means for a byte function `f` and a byte reading `g`. */
  ghost predicate Turns(f: bv64 -> bv64, g: bv64 -> seq<nat>) {
    && (forall b: bv64 :: f(b) <= 0xff)
    && (forall b: bv64 :: g(b & 0xff) == g(b))
    && (forall b: bv64 :: g(f(b & 0xff)) == Mirror(g(b)))
  }

  lemma ReverseByteTurns()
    ensures Turns(ReverseByte, Bits8)
  {
    forall b: bv64
      ensures ReverseByte(b) <= 0xff && Bits8(b & 0xff) == Bits8(b) && Bits8(ReverseByte(b & 0xff)) == Mirror(Bits8(b))
    {
      ByteMirrored(b);
      LowByte(b);
    }
  }

  lemma Unpack(b0: bv64, b1: bv64, b2: bv64, b3: bv64, b4: bv64, b5: bv64, b6: bv64, b7: bv64)
    requires b0 <= 0xff && b1 <= 0xff && b2 <= 0xff && b3 <= 0xff && b4 <= 0xff && b5 <= 0xff && b6 <= 0xff && b7 <= 0xff
    ensures var p := Pack(b0, b1, b2, b3, b4, b5, b6, b7);
      && p & 0xff == b7 && (p >> 8) & 0xff == b6 && (p >> 16) & 0xff == b5 && (p >> 24) & 0xff == b4
      && (p >> 32) & 0xff == b3 && (p >> 40) & 0xff == b2 && (p >> 48) & 0xff == b1 && (p >> 56) & 0xff == b0
  {}

  lemma MirrorEightParts(a: seq<nat>, b: seq<nat>, c: seq<nat>, d: seq<nat>, e: seq<nat>, f: seq<nat>, g: seq<nat>, h: seq<nat>)
    ensures Mirror(a + b + c + d + e + f + g + h)
         == Mirror(h) + Mirror(g) + Mirror(f) + Mirror(e) + Mirror(d) + Mirror(c) + Mirror(b) + Mirror(a)
  {
    MirrorCat(a, b);
    MirrorCat(a + b, c);
    MirrorCat(a + b + c, d);
    MirrorCat(a + b + c + d, e);
    MirrorCat(a + b + c + d + e, f);
    MirrorCat(a + b + c + d + e + f, g);
    MirrorCat(a + b + c + d + e + f + g, h);
  }

  /** The byte of `y` at the bottom is `f` of the byte of `x` at the bottom. */
  ghost predicate At(f: bv64 -> bv64, x: bv64, y: bv64) { y & 0xff == f(x & 0xff) }

  /** The bytes of `y` are the turned bytes of `x`, in the opposite order. */
  ghost predicate Opposite(f: bv64 -> bv64, x: bv64, y: bv64) {
    && At(f, x >> 56, y) && At(f, x >> 48, y >> 8) && At(f, x >> 40, y >> 16) && At(f, x >> 32, y >> 24)
    && At(f, x >> 24, y >> 32) && At(f, x >> 16, y >> 40) && At(f, x >> 8, y >> 48) && At(f, x, y >> 56)
  }

  lemma RepackOpposite(f: bv64 -> bv64, x: bv64)
    requires forall b: bv64 :: f(b) <= 0xff
    ensures Opposite(f, x, Repack(f, x))
  {
    Unpack(f(x & 0xff), f((x >> 8) & 0xff), f((x >> 16) & 0xff), f((x >> 24) & 0xff),
           f((x >> 32) & 0xff), f((x >> 40) & 0xff), f((x >> 48) & 0xff), f((x >> 56) & 0xff));
  }

  lemma TurnedByte(f: bv64 -> bv64, g: bv64 -> seq<nat>, x: bv64, y: bv64)
    requires Turns(f, g) && At(f, x, y)
    ensures g(y) == Mirror(g(x))
  {
    assert g(y & 0xff) == g(y);
  }

  lemma OppositeMirrors(f: bv64 -> bv64, g: bv64 -> seq<nat>, x: bv64, y: bv64)
    requires Turns(f, g) && Opposite(f, x, y)
    ensures Spread(g, y) == Mirror(Spread(g, x))
  {
    TurnedByte(f, g, x >> 56, y);
    TurnedByte(f, g, x >> 48, y >> 8);
    TurnedByte(f, g, x >> 40, y >> 16);
    TurnedByte(f, g, x >> 32, y >> 24);
    TurnedByte(f, g, x >> 24, y >> 32);
    TurnedByte(f, g, x >> 16, y >> 40);
    TurnedByte(f, g, x >> 8, y >> 48);
    TurnedByte(f, g, x, y >> 56);
    MirrorEightParts(g(x), g(x >> 8), g(x >> 16), g(x >> 24), g(x >> 32), g(x >> 40), g(x >> 48), g(x >> 56));
  }

  /** Bit `i` of REVERSE(x) is bit `63 - i` of `x`. */
  lemma ReverseMirrors(x: bv64)
    ensures Bits(Reverse(x)) == Mirror(Bits(x))
  {
    ReverseByteTurns();
    RepackOpposite(ReverseByte, x);
    OppositeMirrors(ReverseByte, Bits8, x, Reverse(x));
  }

  lemma BitsEight(x: bv64)
    ensures AreBits(Bits8(x)) && |Bits8(x)| == 8
  {}

  lemma SpreadBits(g: bv64 -> seq<nat>, x: bv64)
    requires forall b: bv64 :: AreBits(g(b)) && |g(b)| == 8
    ensures AreBits(Spread(g, x)) && |Spread(g, x)| == 64
  {}

  lemma WordBits(x: bv64)
    ensures AreBits(Bits(x)) && |Bits(x)| == 64
  {
    forall b: bv64 ensures AreBits(Bits8(b)) && |Bits8(b)| == 8 { BitsEight(b); }
    SpreadBits(Bits8, x);
  }

  lemma MirroredNumber(s: seq<nat>, t: seq<nat>, n: nat)
    requires AreBits(s) && t == Mirror(s) && n == |s|
    ensures Number(t) == Rev(Number(s), n)
  {
    MirrorIsRev(s);
  }

  /** REVERSE is `Rev` on 64 bits. */
  lemma ReverseIsRev(x: bv64, n: nat)
    requires n == 64
    ensures Value(Reverse(x)) == Rev(Value(x), n)
  {
    ReverseMirrors(x);
    WordBits(x);
    MirroredNumber(Bits(x), Bits(Reverse(x)), n);
  }

  /* ---- the keys of a hash ---- */

  /** All bytes but the top one are the same. */
  ghost predicate SameBelowTop(x: bv64, y: bv64) {
    && y & 0xff == x & 0xff && (y >> 8) & 0xff == (x >> 8) & 0xff && (y >> 16) & 0xff == (x >> 16) & 0xff
    && (y >> 24) & 0xff == (x >> 24) & 0xff && (y >> 32) & 0xff == (x >> 32) & 0xff
    && (y >> 40) & 0xff == (x >> 40) & 0xff && (y >> 48) & 0xff == (x >> 48) & 0xff
  }

  lemma SameByte(g: bv64 -> seq<nat>, x: bv64, y: bv64)
    requires forall b: bv64 :: g(b & 0xff) == g(b)
    requires x & 0xff == y & 0xff
    ensures g(x) == g(y)
  {
    assert g(x & 0xff) == g(x) && g(y & 0xff) == g(y);
  }

  lemma SpreadBelowTop(g: bv64 -> seq<nat>, x: bv64, y: bv64) returns (low: seq<nat>)
    requires forall b: bv64 :: g(b & 0xff) == g(b)
    requires forall b: bv64 :: |g(b)| == 8
    requires SameBelowTop(x, y)
    ensures |low| == 56
    ensures Spread(g, x) == low + g(x >> 56) && Spread(g, y) == low + g(y >> 56)
  {
    low := g(x) + g(x >> 8) + g(x >> 16) + g(x >> 24) + g(x >> 32) + g(x >> 40) + g(x >> 48);
    SameByte(g, x, y);
    SameByte(g, x >> 8, y >> 8);
    SameByte(g, x >> 16, y >> 16);
    SameByte(g, x >> 24, y >> 24);
    SameByte(g, x >> 32, y >> 32);
    SameByte(g, x >> 40, y >> 40);
    SameByte(g, x >> 48, y >> 48);
  }

  lemma BelowTop(h: bv64)
    requires h & MSB == 0
    ensures SameBelowTop(h, h | MSB)
    ensures (h | MSB) >> 56 == (h >> 56) | 0x80 && (h >> 56) & 0x80 == 0
  {}

  lemma TopByteBits(t: bv64)
    requires t & 0x80 == 0
    ensures var u := t | 0x80;
      && B(u, 0x01) == B(t, 0x01) && B(u, 0x02) == B(t, 0x02) && B(u, 0x04) == B(t, 0x04) && B(u, 0x08) == B(t, 0x08)
      && B(u, 0x10) == B(t, 0x10) && B(u, 0x20) == B(t, 0x20) && B(u, 0x40) == B(t, 0x40) && B(u, 0x80) == 1
  {}

  lemma TopByte(t: bv64)
    requires t & 0x80 == 0
    ensures Bits8(t) == Bits8(t)[..7] + [0] && Bits8(t | 0x80) == Bits8(t)[..7] + [1]
  {
    TopByteBits(t);
  }

  lemma {:induction false} NumberBound(bs: seq<nat>)
    requires AreBits(bs)
    ensures Number(bs) < Pow2(|bs|)
  {
    if bs != [] { NumberBound(bs[1..]); }
  }

  lemma TopBitSet(h: bv64, w: nat)
    requires h & MSB == 0 && w == 63
    ensures Value(h) < Pow2(w) && Value(h | MSB) == Value(h) + Pow2(w)
  {
    BelowTop(h);
    TopByte(h >> 56);
    var s := Bits8(h >> 56)[..7];
    forall b: bv64 ensures Bits8(b & 0xff) == Bits8(b) && |Bits8(b)| == 8 { LowByte(b); }
    var low := SpreadBelowTop(Bits8, h, h | MSB);
    WordBits(h);
    Joined(low, s, Bits(h), Bits(h | MSB), w);
  }

  lemma Joined(low: seq<nat>, top: seq<nat>, s: seq<nat>, t: seq<nat>, n: nat)
    requires s == low + (top + [0]) && t == low + (top + [1]) && |low| + |top| == n && AreBits(s)
    ensures Number(s) < Pow2(n) && Number(t) == Number(s) + Pow2(n)
  {
    assert s == (low + top) + [0] && t == (low + top) + [1];
    AppendTop(low + top, s, t, n);
  }

  lemma AppendTop(low: seq<nat>, s: seq<nat>, t: seq<nat>, n: nat)
    requires s == low + [0] && t == low + [1] && |low| == n && AreBits(s)
    ensures Number(s) < Pow2(n) && Number(t) == Number(s) + Pow2(n)
  {
    assert forall i | 0 <= i < n :: low[i] == s[i];
    NumberBound(low);
    NumberAppend(low, 0);
    NumberAppend(low, 1);
    ShlZero(0, n);
  }

  /** so_dummykey of a 63-bit hash is `DummyKey` of its number. */
  lemma DummyOfWord(h: bv64, w: nat)
    requires w == 63
    ensures Value(DummyWord(h)) == DummyKey(Value(h), w)
  {
    ReverseIsRev(h, w + 1);
  }

  /** so_regularkey of a 63-bit hash is `RegularKey` of its number. */
  lemma RegularOfWord(h: bv64, w: nat)
    requires h & MSB == 0 && w == 63
    ensures Value(RegularWord(h)) == RegularKey(Value(h), w)
  {
    RegularFrom(h, h | MSB, w) by { TopBitSet(h, w); }
  }

  lemma RegularFrom(h: bv64, g: bv64, w: nat)
    requires w == 63 && Value(g) == Value(h) + Pow2(w)
    ensures Value(Reverse(g)) == RegularKey(Value(h), w)
  {
    ReverseIsRev(g, w + 1);
  }

  /* ---- get_parent ---- */

  /** The mask that get_parent builds: every bit at or below a set bit. */
  function Smear(b: bv64): bv64 {
    var t1 := b | (b >> 1);
    var t2 := t1 | (t1 >> 2);
    var t3 := t2 | (t2 >> 4);
    var t4 := t3 | (t3 >> 8);
    var t5 := t4 | (t4 >> 16);
    t5 | (t5 >> 32)
  }

  /** get_parent. */
  function GetParent(b: bv64): bv64 { b & (Smear(b) >> 1) }

  ghost predicate IsPower(m: bv64) { m != 0 && m & (m - 1) == 0 }

  lemma SmearPower(m: bv64)
    requires IsPower(m)
    ensures Smear(m) == m | (m - 1) && Smear(m) >> 1 == m - 1
  {}

  lemma SmearTwice(x: bv64)
    ensures Smear(Smear(x)) == Smear(x)
  {}

  ghost predicate Within(x: bv64, y: bv64) { x | y == y }

  lemma SmearWithin(x: bv64, y: bv64)
    requires Within(x, y)
    ensures Within(Smear(x), Smear(y))
  {}

  lemma BelowPower(b: bv64, m: bv64)
    requires IsPower(m) && b < m
    ensures Within(b, m - 1) && (b | m) & (m - 1) == b
  {}

  lemma BothWithin(x: bv64, y: bv64)
    requires Within(x, y) && Within(y, x)
    ensures x == y
  {}

  /** What is needed of the smearing: it is monotone, doing it again adds nothing, and it fills up below a power. */
  ghost predicate Smears(f: bv64 -> bv64) {
    && (forall x: bv64, y: bv64 {:trigger f(x), f(y)} :: Within(x, y) ==> Within(f(x), f(y)))
    && (forall x: bv64 :: f(f(x)) == f(x))
    && (forall m: bv64 :: IsPower(m) ==> f(m) == m | (m - 1) && f(m) >> 1 == m - 1)
  }

  lemma SmearSmears()
    ensures Smears(Smear)
  {
    forall x: bv64, y: bv64 | Within(x, y) ensures Within(Smear(x), Smear(y)) { SmearWithin(x, y); }
    forall x: bv64 ensures Smear(Smear(x)) == Smear(x) { SmearTwice(x); }
    forall m: bv64 | IsPower(m) ensures Smear(m) == m | (m - 1) && Smear(m) >> 1 == m - 1 { SmearPower(m); }
  }

  lemma SmearOfSplit(f: bv64 -> bv64, b: bv64, m: bv64)
    requires Smears(f) && IsPower(m) && b < m
    ensures f(b | m) == f(m) && f(m) >> 1 == m - 1
  {
    BelowPower(b, m);
    assert f(f(m)) == f(m);
    BothWithin(f(m), f(b | m)) by {
      assert Within(m, b | m);
      assert Within(b | m, f(m));
    }
  }

  /** get_parent clears the highest bit: the bucket `b + size` has the parent `b`. */
  lemma GetParentOfSplit(b: bv64, size: bv64)
    requires IsPower(size) && b < size
    ensures GetParent(b | size) == b
  {
    SmearSmears();
    SmearOfSplit(Smear, b, size);
    BelowPower(b, size);
  }

  lemma GetParentIsLess(b: bv64)
    requires b != 0
    ensures GetParent(b) < b
  {}

  /* ---- words and numbers, bit by bit ---- */

  /** The number in the low `n` bits of a word. */
  function LowValue(x: bv64, n: nat): nat
    decreases n
  {
    if n == 0 then 0 else B(x, 1) + 2 * LowValue(x >> 1, n - 1)
  }

  /** The word has no bit above its low `n`. */
  ghost predicate Fits(x: bv64, n: nat)
    decreases n
  {
    if n == 0 then x == 0 else Fits(x >> 1, n - 1)
  }

  lemma Shifts(x: bv64)
    ensures x >> 1 >> 1 == x >> 2 && x >> 2 >> 1 == x >> 3 && x >> 3 >> 1 == x >> 4 && x >> 4 >> 1 == x >> 5
    ensures x >> 5 >> 1 == x >> 6 && x >> 6 >> 1 == x >> 7 && x >> 7 >> 1 == x >> 8
  {}

  lemma ShiftedBits(x: bv64)
    ensures B(x >> 1, 1) == B(x, 0x02) && B(x >> 2, 1) == B(x, 0x04) && B(x >> 3, 1) == B(x, 0x08)
    ensures B(x >> 4, 1) == B(x, 0x10) && B(x >> 5, 1) == B(x, 0x20) && B(x >> 6, 1) == B(x, 0x40) && B(x >> 7, 1) == B(x, 0x80)
  {}

  lemma NumberEight(a: nat, b: nat, c: nat, d: nat, e: nat, f: nat, g: nat, h: nat, rest: seq<nat>)
    ensures Number([a, b, c, d, e, f, g, h] + rest)
         == a + 2 * (b + 2 * (c + 2 * (d + 2 * (e + 2 * (f + 2 * (g + 2 * (h + 2 * Number(rest))))))))
  {
    assert [a, b, c, d, e, f, g, h] + rest == [a] + ([b] + ([c] + ([d] + ([e] + ([f] + ([g] + ([h] + rest)))))));
    Front(h, rest);
    Front(g, [h] + rest);
    Front(f, [g] + ([h] + rest));
    Front(e, [f] + ([g] + ([h] + rest)));
    Front(d, [e] + ([f] + ([g] + ([h] + rest))));
    Front(c, [d] + ([e] + ([f] + ([g] + ([h] + rest)))));
    Front(b, [c] + ([d] + ([e] + ([f] + ([g] + ([h] + rest))))));
    Front(a, [b] + ([c] + ([d] + ([e] + ([f] + ([g] + ([h] + rest)))))));
  }

  lemma Front(a: nat, rest: seq<nat>)
    ensures Number([a] + rest) == a + 2 * Number(rest)
  {
    assert ([a] + rest)[1..] == rest;
  }

  lemma FitsByte(x: bv64, n: nat)
    requires Fits(x >> 8, n)
    ensures Fits(x, n + 8)
  {
    Shifts(x);
    assert Fits(x >> 7, n + 1);
    assert Fits(x >> 6, n + 2);
    assert Fits(x >> 5, n + 3);
    assert Fits(x >> 4, n + 4);
    assert Fits(x >> 3, n + 5);
    assert Fits(x >> 2, n + 6);
    assert Fits(x >> 1, n + 7);
  }

  /** A byte more: the number of the low `n + 8` bits, when that of the `n` bits above the low byte is known. */
  lemma LowValueByte(x: bv64, n: nat, rest: seq<nat>)
    requires LowValue(x >> 8, n) == Number(rest)
    ensures LowValue(x, n + 8) == Number(Bits8(x) + rest)
  {
    Shifts(x);
    ShiftedBits(x);
    assert LowValue(x >> 7, n + 1) == B(x, 0x80) + 2 * Number(rest);
    assert LowValue(x >> 6, n + 2) == B(x, 0x40) + 2 * LowValue(x >> 7, n + 1);
    assert LowValue(x >> 5, n + 3) == B(x, 0x20) + 2 * LowValue(x >> 6, n + 2);
    assert LowValue(x >> 4, n + 4) == B(x, 0x10) + 2 * LowValue(x >> 5, n + 3);
    assert LowValue(x >> 3, n + 5) == B(x, 0x08) + 2 * LowValue(x >> 4, n + 4);
    assert LowValue(x >> 2, n + 6) == B(x, 0x04) + 2 * LowValue(x >> 3, n + 5);
    assert LowValue(x >> 1, n + 7) == B(x, 0x02) + 2 * LowValue(x >> 2, n + 6);
    NumberEight(B(x, 0x01), B(x, 0x02), B(x, 0x04), B(x, 0x08), B(x, 0x10), B(x, 0x20), B(x, 0x40), B(x, 0x80), rest);
  }

  lemma ByteShifts(x: bv64)
    ensures x >> 8 >> 8 == x >> 16 && x >> 16 >> 8 == x >> 24 && x >> 24 >> 8 == x >> 32
    ensures x >> 32 >> 8 == x >> 40 && x >> 40 >> 8 == x >> 48 && x >> 48 >> 8 == x >> 56 && x >> 56 >> 8 == 0
  {}

  /** There are no more than `n` bytes. */
  ghost predicate FitsBytes(x: bv64, n: nat)
    decreases n
  {
    if n == 0 then x == 0 else FitsBytes(x >> 8, n - 1)
  }

  lemma {:induction false} FitsBits(x: bv64, n: nat)
    requires FitsBytes(x, n)
    ensures Fits(x, 8 * n)
    decreases n
  {
    if n > 0 {
      FitsBits(x >> 8, n - 1);
      FitsByte(x, 8 * (n - 1));
    }
  }

  lemma EightBytes(x: bv64)
    ensures FitsBytes(x, 8)
  {
    ByteShifts(x);
  }

  /** The readings of the low `n` bytes, one after the other. */
  function Bytes(g: bv64 -> seq<nat>, x: bv64, n: nat): seq<nat>
    decreases n
  {
    if n == 0 then [] else g(x) + Bytes(g, x >> 8, n - 1)
  }

  lemma SpreadIsBytes(g: bv64 -> seq<nat>, x: bv64)
    ensures Spread(g, x) == Bytes(g, x, 8)
  {
    ByteShifts(x);
    Regroup(g(x), g(x >> 8), g(x >> 16), g(x >> 24), g(x >> 32), g(x >> 40), g(x >> 48), g(x >> 56));
  }

  lemma Regroup(a: seq<nat>, b: seq<nat>, c: seq<nat>, d: seq<nat>, e: seq<nat>, f: seq<nat>, g: seq<nat>, h: seq<nat>)
    ensures a + b + c + d + e + f + g + h == a + (b + (c + (d + (e + (f + (g + (h + [])))))))
  {}

  lemma {:induction false} BytesAreLow(x: bv64, n: nat)
    ensures LowValue(x, 8 * n) == Number(Bytes(Bits8, x, n))
    decreases n
  {
    if n > 0 {
      BytesAreLow(x >> 8, n - 1);
      LowValueByte(x, 8 * (n - 1), Bytes(Bits8, x >> 8, n - 1));
    }
  }

  /** The number of a word is that of its low 64 bits, and there are no others. */
  lemma ValueIsLow(x: bv64, w: nat)
    requires w == 64
    ensures Fits(x, w) && Value(x) == LowValue(x, w)
  {
    EightBytes(x);
    FitsBits(x, 8);
    SpreadIsBytes(Bits8, x);
    BytesAreLow(x, 8);
  }

  /* ---- the order of words ---- */

  function Half(x: bv64): bv64 { x >> 1 }

  function LowBit(x: bv64): nat { B(x, 1) }

  ghost predicate Below(x: bv64, y: bv64) { x < y }

  lemma FromHalf(x: bv64)
    ensures x == (Half(x) << 1) | (if LowBit(x) == 1 then 1 else 0)
  {}

  lemma SameByBit(x: bv64, y: bv64)
    ensures Half(x) == Half(y) && LowBit(x) == LowBit(y) ==> x == y
  {
    FromHalf(x);
    FromHalf(y);
  }

  lemma LessByBit(x: bv64, y: bv64)
    ensures Half(x) == Half(y) && LowBit(x) < LowBit(y) ==> Below(x, y)
  {}

  lemma LessByHalf(x: bv64, y: bv64)
    ensures Below(Half(x), Half(y)) ==> Below(x, y)
  {}

  /** `bit` is the lowest bit of a word, `half` is the word without it, and `less` looks at it last. */
  ghost predicate Binary(half: bv64 -> bv64, bit: bv64 -> nat, less: (bv64, bv64) -> bool) {
    && (forall x: bv64 :: bit(x) < 2)
    && (forall x: bv64, y: bv64 {:trigger bit(x), bit(y)} :: half(x) == half(y) && bit(x) == bit(y) ==> x == y)
    && (forall x: bv64, y: bv64 {:trigger bit(x), bit(y)} :: half(x) == half(y) && bit(x) < bit(y) ==> less(x, y))
    && (forall x: bv64, y: bv64 {:trigger less(half(x), half(y))} :: less(half(x), half(y)) ==> less(x, y))
  }

  lemma WordsAreBinary()
    ensures Binary(Half, LowBit, Below)
  {
    forall x: bv64, y: bv64 ensures Half(x) == Half(y) && LowBit(x) == LowBit(y) ==> x == y { SameByBit(x, y); }
    forall x: bv64, y: bv64 ensures Half(x) == Half(y) && LowBit(x) < LowBit(y) ==> Below(x, y) { LessByBit(x, y); }
    forall x: bv64, y: bv64 ensures Below(Half(x), Half(y)) ==> Below(x, y) { LessByHalf(x, y); }
  }

  /** The number that `n` bits spell. */
  ghost function Spelt(half: bv64 -> bv64, bit: bv64 -> nat, x: bv64, n: nat): nat
    decreases n
  {
    if n == 0 then 0 else bit(x) + 2 * Spelt(half, bit, half(x), n - 1)
  }

  ghost function Rest(half: bv64 -> bv64, x: bv64, n: nat): bv64
    decreases n
  {
    if n == 0 then x else Rest(half, half(x), n - 1)
  }

  lemma {:induction false} SpeltSame(half: bv64 -> bv64, bit: bv64 -> nat, less: (bv64, bv64) -> bool,
                                     x: bv64, y: bv64, n: nat)
    requires Binary(half, bit, less) && Rest(half, x, n) == Rest(half, y, n)
    requires Spelt(half, bit, x, n) == Spelt(half, bit, y, n)
    ensures x == y
    decreases n
  {
    if n > 0 {
      assert bit(x) < 2 && bit(y) < 2;
      SpeltSame(half, bit, less, half(x), half(y), n - 1);
    }
  }

  lemma {:induction false} SpeltLess(half: bv64 -> bv64, bit: bv64 -> nat, less: (bv64, bv64) -> bool,
                                     x: bv64, y: bv64, n: nat)
    requires Binary(half, bit, less) && Rest(half, x, n) == Rest(half, y, n)
    requires Spelt(half, bit, x, n) < Spelt(half, bit, y, n)
    ensures less(x, y)
    decreases n
  {
    assert bit(x) < 2 && bit(y) < 2;
    if Spelt(half, bit, half(x), n - 1) < Spelt(half, bit, half(y), n - 1) {
      SpeltLess(half, bit, less, half(x), half(y), n - 1);
    } else {
      SpeltSame(half, bit, less, half(x), half(y), n - 1);
    }
  }

  lemma {:induction false} SpeltOut(x: bv64, n: nat)
    requires Fits(x, n)
    ensures LowValue(x, n) == Spelt(Half, LowBit, x, n) && Rest(Half, x, n) == 0
    decreases n
  {
    if n > 0 { SpeltOut(x >> 1, n - 1); }
  }

  lemma LowOrder(x: bv64, y: bv64, n: nat)
    requires Fits(x, n) && Fits(y, n)
    ensures LowValue(x, n) < LowValue(y, n) ==> x < y
    ensures LowValue(x, n) == LowValue(y, n) ==> x == y
  {
    WordsAreBinary();
    SpeltOut(x, n);
    SpeltOut(y, n);
    if LowValue(x, n) < LowValue(y, n) {
      SpeltLess(Half, LowBit, Below, x, y, n);
    } else if LowValue(x, n) == LowValue(y, n) {
      SpeltSame(Half, LowBit, Below, x, y, n);
    }
  }

  /** Words are ordered as the numbers they stand for. */
  lemma WordOrder(x: bv64, y: bv64, w: nat)
    requires w == 64
    ensures x <= y <==> Value(x) <= Value(y)
    ensures x == y <==> Value(x) == Value(y)
  {
    if Value(x) < Value(y) {
      WordLess(x, y, w);
    } else if Value(y) < Value(x) {
      WordLess(y, x, w);
    } else {
      WordSame(x, y, w);
    }
  }

  lemma LessIs(x: bv64, y: bv64)
    requires x < y
    ensures x <= y && !(y <= x) && x != y
  {}

  lemma WordLess(x: bv64, y: bv64, w: nat)
    requires w == 64 && Value(x) < Value(y)
    ensures x <= y && !(y <= x) && x != y
  {
    ValueIsLow(x, w);
    ValueIsLow(y, w);
    LowOrder(x, y, w);
    LessIs(x, y);
  }

  lemma WordSame(x: bv64, y: bv64, w: nat)
    requires w == 64 && Value(x) == Value(y)
    ensures x == y
  {
    ValueIsLow(x, w);
    ValueIsLow(y, w);
    LowOrder(x, y, w);
  }

  /** REVERSE undoes itself. */
  lemma ReverseTwice(x: bv64)
    ensures Reverse(Reverse(x)) == x
  {
    ReverseMirrors(x);
    ReverseMirrors(Reverse(x));
    assert Mirror(Mirror(Bits(x))) == Bits(x);
    WordOrder(Reverse(Reverse(x)), x, |Bits(x)|) by { WordBits(x); }
  }

  /* ---- parents and runs, on words ---- */

  lemma ParentByShift(b: bv64)
    ensures b > 1 ==> B(GetParent(b), 1) == B(b, 1) && GetParent(b) >> 1 == GetParent(b >> 1)
    ensures b <= 1 ==> GetParent(b) == 0
  {}

  lemma {:induction false} FitsZero(n: nat)
    ensures Fits(0, n)
  {
    if n > 0 { FitsZero(n - 1); }
  }

  lemma {:induction false} LowValueZero(n: nat)
    ensures LowValue(0, n) == 0
  {
    if n > 0 { LowValueZero(n - 1); }
  }

  lemma {:induction false} LowParent(b: bv64, n: nat)
    requires Fits(b, n)
    ensures LowValue(GetParent(b), n) == Parent(LowValue(b, n))
    decreases n
  {
    ParentByShift(b);
    if n > 0 {
      LowParent(b >> 1, n - 1);
      LowValueZero(n - 1);
      LowValueZero(n);
      OneByShift(b, n);
    }
  }

  lemma OneByShift(b: bv64, n: nat)
    requires n > 0 && Fits(b, n)
    ensures b <= 1 <==> LowValue(b, n) <= 1
  {
    FitsZero(n - 1);
    LowOrder(b >> 1, 0, n - 1);
    LowValueZero(n - 1);
    LowOrder(0, b >> 1, n - 1);
    assert b <= 1 <==> b >> 1 == 0;
  }

  /** get_parent is `Parent` of the number. */
  lemma GetParentIsParent(b: bv64, w: nat)
    requires w == 64
    ensures Value(GetParent(b)) == Parent(Value(b))
  {
    ValueIsLow(b, w);
    ValueIsLow(GetParent(b), w);
    LowParent(b, w);
  }

  lemma ZeroWord(w: nat)
    requires w == 64
    ensures Value(0) == 0
  {
    ValueIsLow(0, w);
    LowValueZero(w);
  }

  /** `v` numbers the words in their order. */
  ghost predicate Ordered(v: bv64 -> nat) {
    forall x: bv64, y: bv64 {:trigger v(x), v(y)} :: x <= y <==> v(x) <= v(y)
  }

  lemma ValueOrdered(w: nat)
    requires w == 64
    ensures Ordered(Value)
  {
    forall x: bv64, y: bv64 ensures x <= y <==> Value(x) <= Value(y) { WordOrder(x, y, w); }
  }

  /** `d` and `r` are the keys of `b`'s dummy and of the hash `h`. */
  ghost predicate KeysOf(v: bv64 -> nat, h: bv64, b: bv64, d: bv64, r: bv64, w: nat) {
    v(d) == DummyKey(v(b), w) && v(r) == RegularKey(v(h), w) && v(h) < Pow2(w)
  }

  lemma KeysOfWords(h: bv64, b: bv64, w: nat)
    requires h & MSB == 0 && w == 63
    ensures KeysOf(Value, h, b, DummyWord(b), RegularWord(h), w)
  {
    TopBitSet(h, w);
    DummyOfWord(b, w);
    RegularOfWord(h, w);
  }

  ghost predicate InBucket(v: bv64 -> nat, h: bv64, b: bv64, k: nat) { v(h) % Pow2(k) == v(b) }

  ghost predicate InBucketRun(v: bv64 -> nat, r: bv64, d: bv64, k: nat, w: nat)
    requires k <= w
  {
    d < r && v(r) < v(d) + Pow2(w + 1 - k)
  }

  lemma RunOfKeys(v: bv64 -> nat, h: bv64, b: bv64, d: bv64, r: bv64, k: nat, w: nat)
    requires Ordered(v) && KeysOf(v, h, b, d, r, w) && k <= w && v(b) < Pow2(k)
    ensures InBucket(v, h, b, k) <==> InBucketRun(v, r, d, k, w)
  {
    BucketIsRun(v(h), v(b), k, w);
    assert r <= d <==> v(r) <= v(d);
  }

  /** The words that the list search compares: for a table of `2^k` buckets, a hash is in bucket `b` exactly when its
      list key comes after the bucket's dummy word and before the end of the bucket's run. */
  lemma BucketOfWordsIsRun(h: bv64, b: bv64, k: nat, w: nat)
    requires h & MSB == 0 && w == 63 && k <= w && Value(b) < Pow2(k)
    ensures InBucket(Value, h, b, k) <==> InBucketRun(Value, RegularWord(h), DummyWord(b), k, w)
  {
    ValueOrdered(w + 1);
    KeysOfWords(h, b, w);
    RunOfKeys(Value, h, b, DummyWord(b), RegularWord(h), k, w);
  }

  /** The dummy key of bucket `p` comes before that of bucket `b`. */
  ghost predicate ListedBefore(dummy: bv64 -> bv64, p: bv64, b: bv64) { dummy(p) < dummy(b) }

  /** `p` is the parent of bucket `b`, and `dummy` gives both their keys. */
  ghost predicate ParentKeys(v: bv64 -> nat, dummy: bv64 -> bv64, p: bv64, b: bv64, w: nat) {
    && 0 < v(b) < Pow2(w) && v(p) == Parent(v(b))
    && v(dummy(b)) == DummyKey(v(b), w) && v(dummy(p)) == DummyKey(v(p), w)
  }

  lemma ParentOfKeys(v: bv64 -> nat, dummy: bv64 -> bv64, p: bv64, b: bv64, w: nat)
    requires Ordered(v) && ParentKeys(v, dummy, p, b, w)
    ensures ListedBefore(dummy, p, b)
  {
    ParentIsBefore(v(b), w);
    assert dummy(b) <= dummy(p) <==> v(dummy(b)) <= v(dummy(p));
  }

  lemma NumberOfBucket(b: bv64, w: nat)
    requires b != 0 && b & MSB == 0 && w == 63
    ensures 0 < Value(b) < Pow2(w)
  {
    TopBitSet(b, w);
    WordOrder(b, 0, w + 1);
    ZeroWord(w + 1);
  }

  lemma ParentKeysOfWords(b: bv64, p: bv64, w: nat)
    requires w == 63 && p == GetParent(b) && 0 < Value(b) < Pow2(w)
    ensures ParentKeys(Value, DummyWord, p, b, w)
  {
    GetParentIsParent(b, w + 1);
    DummyOfWord(b, w);
    DummyOfWord(p, w);
  }

  /** get_parent's dummy word comes before the bucket's: the search that places a new dummy starts ahead of its place. */
  lemma ParentWordIsBefore(b: bv64, w: nat)
    requires b != 0 && b & MSB == 0 && w == 63
    ensures ListedBefore(DummyWord, GetParent(b), b)
  {
    ValueOrdered(w + 1);
    NumberOfBucket(b, w);
    ParentKeysOfWords(b, GetParent(b), w);
    ParentOfKeys(Value, DummyWord, GetParent(b), b, w);
  }
}
