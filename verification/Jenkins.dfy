/** The hash function of the cache's tables (extra/KVS-DRAM-Cache/jenkins_hash.c:79-297), little-endian form. It reads
    the key by words, half-words or bytes as the key's address allows. */
module Jenkins {

  const MODULUS: nat := 0x1_0000_0000

  type Word = x: nat | x < 0x1_0000_0000

  type Octet = b: nat | b < 256

  /* ---- 32-bit arithmetic ---- */

  function Add(x: Word, y: nat): Word { (x + y) % MODULUS }

  function Sub(x: Word, y: Word): Word { (x - y) % MODULUS }

  /** Exclusive or of the low `n` bits. */
  function XorBits(x: nat, y: nat, n: nat): nat
    decreases n
  {
    if n == 0 then 0 else (if x % 2 == y % 2 then 0 else 1) + 2 * XorBits(x / 2, y / 2, n - 1)
  }

  function Size(n: nat): nat { if n == 0 then 1 else 2 * Size(n - 1) }

  lemma {:induction false} XorBound(x: nat, y: nat, n: nat)
    ensures XorBits(x, y, n) < Size(n)
    decreases n
  {
    if n > 0 { XorBound(x / 2, y / 2, n - 1); }
  }

  lemma {:induction false} XorTwice(x: nat, y: nat, n: nat)
    requires x < Size(n)
    ensures XorBits(XorBits(x, y, n), y, n) == x
    decreases n
  {
    if n > 0 {
      var z := XorBits(x / 2, y / 2, n - 1);
      var bit := if x % 2 == y % 2 then 0 else 1;
      assert (bit + 2 * z) % 2 == bit && (bit + 2 * z) / 2 == z;
      XorTwice(x / 2, y / 2, n - 1);
    }
  }

  lemma SizeOfWord(n: nat)
    requires n == 32
    ensures Size(n) == MODULUS
  {
    assert Size(8) == 256;
    SizeSum(8, 8);
    SizeSum(16, 16);
  }

  lemma {:induction false} SizeSum(m: nat, n: nat)
    ensures Size(m + n) == Size(m) * Size(n)
    decreases n
  {
    if n > 0 { SizeSum(m, n - 1); }
  }

  function Bits(): (n: nat) { 32 }

  function Xor(x: Word, y: Word): Word {
    SizeOfWord(Bits());
    XorBound(x, y, Bits());
    XorBits(x, y, Bits())
  }

  lemma XorBack(x: Word, y: Word)
    ensures Xor(Xor(x, y), y) == x
  {
    SizeOfWord(Bits());
    XorTwice(x, y, Bits());
  }

  lemma AddBack(x: Word, y: Word)
    ensures Sub(Add(x, y), y) == x && Add(Sub(x, y), y) == x
  {}

  /* ---- mix ---- */

  datatype State = State(a: Word, b: Word, c: Word)

  /** A rotation to the left by the logarithm of `p`. */
  function Rot(x: Word, p: nat): Word
    requires 0 < p <= MODULUS
  {
    Xor((x * p) % MODULUS, x / (MODULUS / p) % MODULUS)
  }

  type Power = p: nat | 0 < p <= 0x1_0000_0000 witness 1

  /** One line of mix, `a -= c; a ^= rot(c, k); c += b;`, and then the roles of the three words turn round. */
  function Round(s: State, p: Power): State {
    State(s.b, Add(s.c, s.b), Xor(Sub(s.a, s.c), Rot(s.c, p)))
  }

  function Unround(s: State, p: Power): State {
    var c := Sub(s.b, s.a);
    State(Add(Xor(s.c, Rot(c, p)), c), s.a, c)
  }

  lemma RoundBack(s: State, p: Power)
    ensures Unround(Round(s, p), p) == s
  {
    AddBack(s.c, s.b);
    XorBack(Sub(s.a, s.c), Rot(s.c, p));
    AddBack(s.a, s.c);
  }

  lemma RoundForth(s: State, p: Power)
    ensures Round(Unround(s, p), p) == s
  {
    var c := Sub(s.b, s.a);
    AddBack(s.b, s.a);
    AddBack(Xor(s.c, Rot(c, p)), c);
    XorBack(s.c, Rot(c, p));
  }

  /** Rounds one after the other. */
  function Rounds(s: State, ps: seq<Power>): State
    decreases |ps|
  {
    if ps == [] then s else Rounds(Round(s, ps[0]), ps[1..])
  }

  function Unrounds(s: State, ps: seq<Power>): State
    decreases |ps|
  {
    if ps == [] then s else Unround(Unrounds(s, ps[1..]), ps[0])
  }

  lemma {:induction false} RoundsBijective(s: State, ps: seq<Power>)
    ensures Unrounds(Rounds(s, ps), ps) == s && Rounds(Unrounds(s, ps), ps) == s
    decreases |ps|
  {
    if ps != [] {
      RoundBack(s, ps[0]);
      RoundsBijective(Round(s, ps[0]), ps[1..]);
      RoundForth(Unrounds(s, ps[1..]), ps[0]);
      RoundsBijective(s, ps[1..]);
    }
  }

  /** Rotations by 4, 6, 8, 16, 19 and 4 bits. */
  const ROTATIONS: seq<Power> := [0x10, 0x40, 0x100, 0x1_0000, 0x8_0000, 0x10]

  function Mix(s: State): State { Rounds(s, ROTATIONS) }

  function Unmix(s: State): State { Unrounds(s, ROTATIONS) }

  /** mix is a bijection on its three words. */
  lemma MixIsBijective(s: State)
    ensures Unmix(Mix(s)) == s && Mix(Unmix(s)) == s
  {
    RoundsBijective(s, ROTATIONS);
  }

  /** One line of final, `c ^= b; c -= rot(b, k);`, and then the roles of the three words turn round. */
  function FinalRound(s: State, p: Power): State {
    State(s.b, s.c, Sub(Xor(s.a, s.c), Rot(s.c, p)))
  }

  function FinalRounds(s: State, ps: seq<Power>): State
    decreases |ps|
  {
    if ps == [] then s else FinalRounds(FinalRound(s, ps[0]), ps[1..])
  }

  /** Rotations by 14, 11, 25, 16, 4, 14 and 24 bits. */
  const FINAL_ROTATIONS: seq<Power> := [0x4000, 0x800, 0x200_0000, 0x1_0000, 0x10, 0x4000, 0x100_0000]

  /** final, which leaves the hash in the word called `c` at its last line. */
  function Final(s: State): Word { FinalRounds(State(s.c, s.a, s.b), FINAL_ROTATIONS).c }

  /** A rotation by `k` bits. */
  function Left(x: Word, k: nat): Word
    requires k <= 32
  {
    SizeGrows(k, 32);
    SizeOfWord(32);
    Rot(x, Size(k))
  }

  lemma {:induction false} SizeGrows(m: nat, n: nat)
    requires m <= n
    ensures 0 < Size(m) <= Size(n)
    decreases n
  {
    if m < n { SizeGrows(m, n - 1); } else if n > 0 { SizeGrows(m - 1, n - 1); }
  }

  lemma Sizes()
    ensures Size(4) == 0x10 && Size(6) == 0x40 && Size(8) == 0x100 && Size(11) == 0x800 && Size(14) == 0x4000
    ensures Size(16) == 0x1_0000 && Size(19) == 0x8_0000 && Size(24) == 0x100_0000 && Size(25) == 0x200_0000
  {
    SizeSum(8, 8);
    SizeSum(16, 8);
    SizeSum(16, 3);
    SizeSum(24, 1);
    SizeSum(8, 3);
    SizeSum(8, 6);
  }

  /** Six rounds, written out. */
  lemma MixIs(s0: State, s1: State, s2: State, s3: State, s4: State, s5: State, s6: State)
    requires Round(s0, 0x10) == s1 && Round(s1, 0x40) == s2 && Round(s2, 0x100) == s3
    requires Round(s3, 0x1_0000) == s4 && Round(s4, 0x8_0000) == s5 && Round(s5, 0x10) == s6
    ensures Mix(s0) == s6
  {
    var ps := ROTATIONS;
    assert ps[1..][0] == 0x40 && ps[1..][1..] == ps[2..] && ps[2..][0] == 0x100 && ps[2..][1..] == ps[3..];
    assert ps[3..][0] == 0x1_0000 && ps[3..][1..] == ps[4..] && ps[4..][0] == 0x8_0000 && ps[4..][1..] == ps[5..];
    assert ps[5..][0] == 0x10 && ps[5..][1..] == [];
    assert Rounds(s6, []) == s6;
    assert Rounds(s5, ps[5..]) == s6;
    assert Rounds(s4, ps[4..]) == s6;
    assert Rounds(s3, ps[3..]) == s6;
    assert Rounds(s2, ps[2..]) == s6;
    assert Rounds(s1, ps[1..]) == s6;
  }

  /** The six lines of mix on the words a, b and c, with the rotations in bits. */
  lemma MixLines(a: Word, b: Word, c: Word)
    ensures
      var a1 := Xor(Sub(a, c), Left(c, 4));    var c1 := Add(c, b);
      var b1 := Xor(Sub(b, a1), Left(a1, 6));  var a2 := Add(a1, c1);
      var c2 := Xor(Sub(c1, b1), Left(b1, 8)); var b2 := Add(b1, a2);
      var a3 := Xor(Sub(a2, c2), Left(c2, 16)); var c3 := Add(c2, b2);
      var b3 := Xor(Sub(b2, a3), Left(a3, 19)); var a4 := Add(a3, c3);
      var c4 := Xor(Sub(c3, b3), Left(b3, 4));  var b4 := Add(b3, a4);
      Mix(State(a, b, c)) == State(a4, b4, c4)
  {
    Sizes();
    var s1 := Round(State(a, b, c), 0x10);
    var s2 := Round(s1, 0x40);
    var s3 := Round(s2, 0x100);
    var s4 := Round(s3, 0x1_0000);
    var s5 := Round(s4, 0x8_0000);
    MixIs(State(a, b, c), s1, s2, s3, s4, s5, Round(s5, 0x10));
  }

  /** Seven lines of final, written out. */
  lemma FinalIs(s: State, s1: State, s2: State, s3: State, s4: State, s5: State, s6: State, s7: State)
    requires FinalRound(State(s.c, s.a, s.b), 0x4000) == s1 && FinalRound(s1, 0x800) == s2 && FinalRound(s2, 0x200_0000) == s3
    requires FinalRound(s3, 0x1_0000) == s4 && FinalRound(s4, 0x10) == s5
    requires FinalRound(s5, 0x4000) == s6 && FinalRound(s6, 0x100_0000) == s7
    ensures Final(s) == s7.c
  {
    var ps := FINAL_ROTATIONS;
    assert ps[1..][0] == 0x800 && ps[1..][1..] == ps[2..] && ps[2..][0] == 0x200_0000 && ps[2..][1..] == ps[3..];
    assert ps[3..][0] == 0x1_0000 && ps[3..][1..] == ps[4..];
    LastThree(s4, s5, s6, s7);
    assert FinalRounds(s3, ps[3..]) == s7;
    assert FinalRounds(s2, ps[2..]) == s7;
    assert FinalRounds(s1, ps[1..]) == s7;
  }

  lemma LastThree(s4: State, s5: State, s6: State, s7: State)
    requires FinalRound(s4, 0x10) == s5 && FinalRound(s5, 0x4000) == s6 && FinalRound(s6, 0x100_0000) == s7
    ensures FinalRounds(s4, FINAL_ROTATIONS[4..]) == s7
  {
    var ps := FINAL_ROTATIONS;
    assert ps[4..][0] == 0x10 && ps[4..][1..] == ps[5..] && ps[5..][0] == 0x4000;
    assert ps[5..][1..] == ps[6..] && ps[6..][0] == 0x100_0000 && ps[6..][1..] == [];
    assert FinalRounds(s6, ps[6..]) == s7;
    assert FinalRounds(s5, ps[5..]) == s7;
  }

  /** The seven lines of final on the words a, b and c, with the rotations in bits. */
  lemma FinalLines(a: Word, b: Word, c: Word)
    ensures
      var c1 := Sub(Xor(c, b), Left(b, 14));
      var a1 := Sub(Xor(a, c1), Left(c1, 11));
      var b1 := Sub(Xor(b, a1), Left(a1, 25));
      var c2 := Sub(Xor(c1, b1), Left(b1, 16));
      var a2 := Sub(Xor(a1, c2), Left(c2, 4));
      var b2 := Sub(Xor(b1, a2), Left(a2, 14));
      Final(State(a, b, c)) == Sub(Xor(c2, b2), Left(b2, 24))
  {
    Sizes();
    var s1 := FinalRound(State(c, a, b), 0x4000);
    var s2 := FinalRound(s1, 0x800);
    var s3 := FinalRound(s2, 0x200_0000);
    var s4 := FinalRound(s3, 0x1_0000);
    var s5 := FinalRound(s4, 0x10);
    var s6 := FinalRound(s5, 0x4000);
    FinalIs(State(a, b, c), s1, s2, s3, s4, s5, s6, FinalRound(s6, 0x100_0000));
  }

  /* ---- the hash of a key ---- */

  /** Byte `i` of the key, zero behind its end. */
  function B(key: seq<Octet>, i: nat): Octet { if i < |key| then key[i] else 0 }

  function WordAt(key: seq<Octet>, i: nat): Word {
    B(key, i) + 0x100 * B(key, i + 1) + 0x1_0000 * B(key, i + 2) + 0x100_0000 * B(key, i + 3)
  }

  /** The first twelve bytes are added to the three words. */
  function Absorb(s: State, key: seq<Octet>): State {
    State(Add(s.a, WordAt(key, 0)), Add(s.b, WordAt(key, 4)), Add(s.c, WordAt(key, 8)))
  }

  /** The hash as a function of the bytes alone: blocks of twelve bytes, the last one filled up with zeros. */
  function Hash(s: State, key: seq<Octet>): Word
    decreases |key|
  {
    if |key| > 12 then Hash(Mix(Absorb(s, key)), key[12..])
    else if key == [] then s.c
    else Final(Absorb(s, key))
  }

  function Seed(n: nat): State {
    var x: Word := (0xdeadbeef + n) % MODULUS;
    State(x, x, x)
  }

  function Jenkins(key: seq<Octet>): Word { Hash(Seed(|key|), key) }

  /** The empty key has the hash that is known for it. */
  lemma EmptyKey()
    ensures Jenkins([]) == 0xdeadbeef
  {}

  /* ---- reading memory ---- */

  function At(mem: seq<Octet>, i: nat): nat
    requires i < |mem|
  {
    mem[i]
  }

  function Read16(mem: seq<Octet>, i: nat): nat
    requires i + 2 <= |mem|
  {
    At(mem, i) + 0x100 * At(mem, i + 1)
  }

  function Read32(mem: seq<Octet>, i: nat): nat
    requires i + 4 <= |mem|
  {
    At(mem, i) + 0x100 * At(mem, i + 1) + 0x1_0000 * At(mem, i + 2) + 0x100_0000 * At(mem, i + 3)
  }

  /** `x` was read as a word at byte `i` of the key; only the bytes of the key in it count. */
  ghost predicate Reads(x: Word, key: seq<Octet>, i: nat) {
    i < |key| ==>
      && (|key| - i == 1 ==> WordAt(key, i) == x % 0x100)
      && (|key| - i == 2 ==> WordAt(key, i) == x % 0x1_0000)
      && (|key| - i == 3 ==> WordAt(key, i) == x % 0x100_0000)
      && (|key| - i >= 4 ==> WordAt(key, i) == x)
  }

  /** Masking a word that was read past the end of the key leaves the key's own bytes. */
  lemma Masked(mem: seq<Octet>, k: nat, n: nat, i: nat)
    requires k + i + 4 <= |mem| && k <= n <= |mem|
    ensures Reads(Read32(mem, k + i), mem[k..n], i)
  {}

  /** Words behind the end of the key are zero. */
  lemma NoWord(s: State, key: seq<Octet>)
    ensures |key| <= 8 ==> Absorb(s, key).c == s.c
    ensures |key| <= 4 ==> Absorb(s, key).b == s.b
  {
    assert |key| <= 8 ==> WordAt(key, 8) == 0;
    assert |key| <= 4 ==> WordAt(key, 4) == 0;
  }

  /** The last block, read by words. */
  method LastByWords(s: State, k0: Word, k1: Word, k2: Word, ghost key: seq<Octet>, n: nat) returns (r: Word)
    requires n == |key| <= 12 && Reads(k0, key, 0) && Reads(k1, key, 4) && Reads(k2, key, 8)
    ensures r == Hash(s, key)
  {
    var a, b, c := s.a, s.b, s.c;
    NoWord(s, key);
    match n {
      case 12 => c := Add(c, k2); b := Add(b, k1); a := Add(a, k0);
      case 11 => c := Add(c, k2 % 0x100_0000); b := Add(b, k1); a := Add(a, k0);
      case 10 => c := Add(c, k2 % 0x1_0000); b := Add(b, k1); a := Add(a, k0);
      case 9 => c := Add(c, k2 % 0x100); b := Add(b, k1); a := Add(a, k0);
      case 8 => b := Add(b, k1); a := Add(a, k0);
      case 7 => b := Add(b, k1 % 0x100_0000); a := Add(a, k0);
      case 6 => b := Add(b, k1 % 0x1_0000); a := Add(a, k0);
      case 5 => b := Add(b, k1 % 0x100); a := Add(a, k0);
      case 4 => a := Add(a, k0);
      case 3 => a := Add(a, k0 % 0x100_0000);
      case 2 => a := Add(a, k0 % 0x1_0000);
      case 1 => a := Add(a, k0 % 0x100);
      case _ => return c;
    }
    assert State(a, b, c) == Absorb(s, key);
    r := Final(State(a, b, c));
  }

  lemma AddAdd(x: Word, y: nat, z: nat)
    ensures Add(Add(x, y), z) == Add(x, y + z)
  {}

  /** A word of the key in terms of its half-words and bytes. */
  lemma Halves(key: seq<Octet>, i: nat)
    requires i < |key|
    ensures |key| - i == 1 ==> WordAt(key, i) == At(key, i)
    ensures |key| - i == 2 ==> WordAt(key, i) == Read16(key, i)
    ensures |key| - i == 3 ==> WordAt(key, i) == 0x1_0000 * At(key, i + 2) + Read16(key, i)
    ensures |key| - i >= 4 ==> WordAt(key, i) == Read16(key, i) + 0x1_0000 * Read16(key, i + 2)
  {}

  /** The last block, read by half-words; the cases fall through to those below them. */
  method LastByHalves(s: State, key: seq<Octet>) returns (r: Word)
    requires |key| <= 12
    ensures r == Hash(s, key)
  {
    var a, b, c, n := s.a, s.b, s.c, |key|;
    if n == 0 { return c; }
    NoWord(s, key);
    Halves(key, 0);
    if n > 4 { Halves(key, 4); }
    if n > 8 { Halves(key, 8); }
    if n == 12 { c := Add(c, Read16(key, 8) + 0x1_0000 * Read16(key, 10)); }
    if n == 11 {
      c := Add(c, 0x1_0000 * At(key, 10));
      AddAdd(s.c, 0x1_0000 * At(key, 10), Read16(key, 8));
    }
    if n == 10 || n == 11 { c := Add(c, Read16(key, 8)); }
    if n == 9 { c := Add(c, At(key, 8)); }
    if n >= 8 { b := Add(b, Read16(key, 4) + 0x1_0000 * Read16(key, 6)); }
    if n == 7 {
      b := Add(b, 0x1_0000 * At(key, 6));
      AddAdd(s.b, 0x1_0000 * At(key, 6), Read16(key, 4));
    }
    if n == 6 || n == 7 { b := Add(b, Read16(key, 4)); }
    if n == 5 { b := Add(b, At(key, 4)); }
    if n >= 4 { a := Add(a, Read16(key, 0) + 0x1_0000 * Read16(key, 2)); }
    if n == 3 {
      a := Add(a, 0x1_0000 * At(key, 2));
      AddAdd(s.a, 0x1_0000 * At(key, 2), Read16(key, 0));
    }
    if n == 2 || n == 3 { a := Add(a, Read16(key, 0)); }
    if n == 1 { a := Add(a, At(key, 0)); }
    assert State(a, b, c) == Absorb(s, key);
    r := Final(State(a, b, c));
  }

  /** One of the three words takes its bytes one at a time, the last one first; bytes behind the key are not read. */
  method AddBytes(x: Word, key: seq<Octet>, i: nat) returns (y: Word)
    ensures y == Add(x, WordAt(key, i))
  {
    ghost var b3, b2, b1 := 0x100_0000 * B(key, i + 3), 0x1_0000 * B(key, i + 2), 0x100 * B(key, i + 1);
    y := Add(x, 0);
    if |key| > i + 3 { y := Add(y, 0x100_0000 * At(key, i + 3)); }
    assert y == Add(x, b3);
    if |key| > i + 2 { y := Add(y, 0x1_0000 * At(key, i + 2)); }
    AddAdd(x, b3, b2);
    assert y == Add(x, b3 + b2);
    if |key| > i + 1 { y := Add(y, 0x100 * At(key, i + 1)); }
    AddAdd(x, b3 + b2, b1);
    assert y == Add(x, b3 + b2 + b1);
    if |key| > i { y := Add(y, At(key, i)); }
    AddAdd(x, b3 + b2 + b1, B(key, i));
  }

  /** The last block, read by bytes. */
  method LastByBytes(s: State, key: seq<Octet>) returns (r: Word)
    requires |key| <= 12
    ensures r == Hash(s, key)
  {
    if |key| == 0 { return s.c; }
    var c := AddBytes(s.c, key, 8);
    var b := AddBytes(s.b, key, 4);
    var a := AddBytes(s.a, key, 0);
    r := Final(State(a, b, c));
  }

  /* ---- the three paths ---- */

  function TwoHalves(mem: seq<Octet>, i: nat): nat
    requires i + 4 <= |mem|
  {
    Read16(mem, i) + 0x1_0000 * Read16(mem, i + 2)
  }

  lemma FullWord(mem: seq<Octet>, k: nat, n: nat, j: nat)
    requires k + j + 4 <= n <= |mem|
    ensures WordAt(mem[k..n], j) == Read32(mem, k + j) == TwoHalves(mem, k + j)
  {}

  /** A full block of the key in memory, as words and as half-words. */
  lemma BlockInMemory(s: State, mem: seq<Octet>, k: nat, n: nat)
    requires k + 12 < n <= |mem|
    ensures Absorb(s, mem[k..n]) == State(Add(s.a, Read32(mem, k)), Add(s.b, Read32(mem, k + 4)), Add(s.c, Read32(mem, k + 8)))
    ensures Absorb(s, mem[k..n]) == State(Add(s.a, TwoHalves(mem, k)), Add(s.b, TwoHalves(mem, k + 4)), Add(s.c, TwoHalves(mem, k + 8)))
    ensures Hash(s, mem[k..n]) == Hash(Mix(Absorb(s, mem[k..n])), mem[k + 12..n])
  {
    FullWord(mem, k, n, 0);
    FullWord(mem, k, n, 4);
    FullWord(mem, k, n, 8);
    assert mem[k..n][12..] == mem[k + 12..n];
  }

  /** The key lies in a memory of `words` whole words. */
  method ByWords(mem: seq<Octet>, n: nat, ghost words: nat) returns (r: Word)
    requires n <= |mem| == 4 * words
    ensures r == Jenkins(mem[..n])
  {
    var s, k, length := Seed(n), 0, n;
    while length > 12
      invariant 0 <= k && k + length == n && Hash(s, mem[k..n]) == Jenkins(mem[..n])
      invariant exists q: nat :: |mem| - k == 4 * q
    {
      BlockInMemory(s, mem, k, n);
      s := Mix(State(Add(s.a, Read32(mem, k)), Add(s.b, Read32(mem, k + 4)), Add(s.c, Read32(mem, k + 8))));
      ghost var q: nat :| |mem| - k == 4 * q;
      length, k := length - 12, k + 12;
      assert |mem| - k == 4 * (q - 3);
    }
    ghost var q: nat :| |mem| - k == 4 * q;
    r := TailByWords(s, mem, k, length, q);
  }

  /** What is left of the key. */
  method TailByWords(s: State, mem: seq<Octet>, k: nat, n: nat, ghost q: nat) returns (r: Word)
    requires n <= 12 && k + n <= |mem| == k + 4 * q
    ensures r == Hash(s, mem[k..k + n])
  {
    var k0 := if n > 0 then Read32(mem, k) else 0;
    var k1 := if n > 4 then Read32(mem, k + 4) else 0;
    var k2 := if n > 8 then Read32(mem, k + 8) else 0;
    if n > 0 { Masked(mem, k, k + n, 0); }
    if n > 4 { Masked(mem, k, k + n, 4); }
    if n > 8 { Masked(mem, k, k + n, 8); }
    r := LastByWords(s, k0, k1, k2, mem[k..k + n], n);
  }

  method ByHalves(mem: seq<Octet>, n: nat) returns (r: Word)
    requires n <= |mem|
    ensures r == Jenkins(mem[..n])
  {
    var s, k, length := Seed(n), 0, n;
    while length > 12
      invariant 0 <= k && k + length == n && Hash(s, mem[k..n]) == Jenkins(mem[..n])
    {
      BlockInMemory(s, mem, k, n);
      s := Mix(State(Add(s.a, TwoHalves(mem, k)), Add(s.b, TwoHalves(mem, k + 4)), Add(s.c, TwoHalves(mem, k + 8))));
      length, k := length - 12, k + 12;
    }
    r := LastByHalves(s, mem[k..n]);
  }

  method ByBytes(mem: seq<Octet>, n: nat) returns (r: Word)
    requires n <= |mem|
    ensures r == Jenkins(mem[..n])
  {
    var s, k, length := Seed(n), 0, n;
    while length > 12
      invariant 0 <= k && k + length == n && Hash(s, mem[k..n]) == Jenkins(mem[..n])
    {
      var a := AddBytes(s.a, mem[k..n], 0);
      var b := AddBytes(s.b, mem[k..n], 4);
      var c := AddBytes(s.c, mem[k..n], 8);
      assert mem[k..n][12..] == mem[k + 12..n];
      s := Mix(State(a, b, c));
      length, k := length - 12, k + 12;
    }
    r := LastByBytes(s, mem[k..n]);
  }

  /** jenkins_hash: the alignment of the key's address picks the path, and makes no difference. `mem` is the memory from
      the key on; at a word's address the word that the key ends in can be read to its end. */
  method JenkinsHash(address: nat, mem: seq<Octet>, n: nat, ghost words: nat) returns (r: Word)
    requires n <= |mem| && (address % 4 == 0 ==> |mem| == 4 * words)
    ensures r == Jenkins(mem[..n])
  {
    if address % 4 == 0 {
      r := ByWords(mem, n, words);
    } else if address % 2 == 0 {
      r := ByHalves(mem, n);
    } else {
      r := ByBytes(mem, n);
    }
  }
}
