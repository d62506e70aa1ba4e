/** The bit arithmetic of the split-ordered list (src/split_ordered.cc:67-125): bit-reversed keys, bucket
    dummies and bucket parents. Words are natural numbers here; `w` is the number of bits of a hash, which is
    63 in the source, and a list key has one bit more. */
module SplitOrder {

  /** `x` followed by `n` zero bits. */
  function Shl(x: nat, n: nat): nat
  {
    if n == 0 then x else 2 * Shl(x, n - 1)
  }

  lemma {:induction false} ShlZero(x: nat, n: nat)
    ensures Shl(x, n) == 0 <==> x == 0
  {
    if n > 0 { ShlZero(x, n - 1); }
  }

  function Pow2(n: nat): (p: nat)
    ensures p > 0
  {
    ShlZero(1, n);
    Shl(1, n)
  }

  /** The low `n` bits of `x`. */
  function Low(x: nat, n: nat): nat
    decreases n
  {
    if n == 0 then 0 else x % 2 + 2 * Low(x / 2, n - 1)
  }

  /** What is left of `x` above its low `n` bits. */
  function High(x: nat, n: nat): nat
    decreases n
  {
    if n == 0 then x else High(x / 2, n - 1)
  }

  /** The low `n` bits of `x`, in reverse order. */
  function Rev(x: nat, n: nat): nat
    decreases n
  {
    if n == 0 then 0 else Shl(x % 2, n - 1) + Rev(x / 2, n - 1)
  }

  /* ---- shifts ---- */

  lemma {:induction false} ShlAdd(a: nat, b: nat, n: nat)
    ensures Shl(a + b, n) == Shl(a, n) + Shl(b, n)
  {
    if n > 0 { ShlAdd(a, b, n - 1); }
  }

  lemma {:induction false} ShlShl(a: nat, m: nat, n: nat)
    ensures Shl(Shl(a, m), n) == Shl(a, m + n)
  {
    if n > 0 { ShlShl(a, m, n - 1); }
  }

  lemma {:induction false} ShlLess(a: nat, b: nat, n: nat)
    ensures a < b ==> Shl(a, n) + Pow2(n) <= Shl(b, n)
    ensures a <= b ==> Shl(a, n) <= Shl(b, n)
  {
    if n > 0 { ShlLess(a, b, n - 1); }
  }

  lemma {:induction false} Split(x: nat, n: nat)
    ensures x == Low(x, n) + Shl(High(x, n), n) && Low(x, n) < Pow2(n)
    decreases n
  {
    if n > 0 { Split(x / 2, n - 1); }
  }

  lemma {:induction false} SplitUnique(lo: nat, hi: nat, n: nat)
    requires lo < Pow2(n)
    ensures Low(lo + Shl(hi, n), n) == lo && High(lo + Shl(hi, n), n) == hi
    decreases n
  {
    if n > 0 {
      var x := lo + Shl(hi, n);
      assert x % 2 == lo % 2 && x / 2 == lo / 2 + Shl(hi, n - 1);
      SplitUnique(lo / 2, hi, n - 1);
      assert Low(lo, n) == lo % 2 + 2 * Low(lo / 2, n - 1);
    }
  }

  lemma {:induction false} ShlTimes(a: nat, n: nat)
    ensures Shl(a, n) == a * Pow2(n)
  {
    if n > 0 { ShlTimes(a, n - 1); }
  }

  /** `hash % size` is the hash's low bits. */
  lemma LowIsMod(x: nat, n: nat)
    ensures x % Pow2(n) == Low(x, n)
  {
    Split(x, n);
    ShlTimes(High(x, n), n);
    ModIs(x, Low(x, n), High(x, n), Pow2(n));
  }

  lemma Apart(p: nat, q: nat, d: nat)
    requires p < q
    ensures p * d + d <= q * d
  {
    assert q * d == p * d + (q - p) * d;
    assert (q - p) * d == d + (q - p - 1) * d;
  }

  lemma ModIs(x: nat, lo: nat, hi: nat, d: nat)
    requires lo < d && x == lo + hi * d
    ensures x % d == lo
  {
    var q, r := x / d, x % d;
    assert x == r + q * d;
    if q < hi {
      Apart(q, hi, d);
    } else if hi < q {
      Apart(hi, q, d);
    }
  }

  /* ---- reversal ---- */

  lemma {:induction false} RevBound(x: nat, n: nat)
    ensures Rev(x, n) < Pow2(n)
    decreases n
  {
    if n > 0 {
      RevBound(x / 2, n - 1);
      ShlLess(x % 2, 1, n - 1);
    }
  }

  lemma RevStep(b: nat, x: nat, n: nat)
    requires b < 2
    ensures Rev(b + 2 * x, n + 1) == Shl(b, n) + Rev(x, n)
  {
    assert (b + 2 * x) % 2 == b && (b + 2 * x) / 2 == x;
  }

  /** Reversing a bit string turns the order of its parts around. */
  lemma {:induction false} RevCat(x: nat, y: nat, m: nat, n: nat)
    requires x < Pow2(m)
    ensures Rev(x + Shl(y, m), m + n) == Shl(Rev(x, m), n) + Rev(y, n)
    decreases m
  {
    if m > 0 {
      RevCat(x / 2, y, m - 1, n);
      RevCatStep(x, x / 2, x + Shl(y, m), x / 2 + Shl(y, m - 1), m - 1, n, Rev(y, n));
    } else {
      ShlZero(0, n);
    }
  }

  lemma RevCatStep(x: nat, x': nat, z: nat, z': nat, m: nat, n: nat, r: nat)
    requires x' == x / 2 && z' == z / 2 && x % 2 == z % 2
    requires Rev(z', m + n) == Shl(Rev(x', m), n) + r
    ensures Rev(z, m + n + 1) == Shl(Rev(x, m + 1), n) + r
  {
    ShlShl(x % 2, m, n);
    ShlAdd(Shl(x % 2, m), Rev(x', m), n);
  }

  /** `Rev` undoes itself. */
  lemma {:induction false} RevTwice(x: nat, n: nat)
    requires x < Pow2(n)
    ensures Rev(Rev(x, n), n) == x
    decreases n
  {
    if n > 0 {
      RevTwice(x / 2, n - 1);
      var r := Rev(x / 2, n - 1);
      RevBound(x / 2, n - 1);
      RevCat(r, x % 2, n - 1, 1);
      assert Shl(x / 2, 1) == 2 * (x / 2) && Rev(x % 2, 1) == x % 2;
    }
  }

  /** The leading bits of a reversed number are the reversed trailing bits of the number. */
  lemma RevLeading(x: nat, m: nat, n: nat)
    ensures Rev(x, m + n) == Shl(Rev(Low(x, m), m), n) + Rev(High(x, m), n)
    ensures High(Rev(x, m + n), n) == Rev(Low(x, m), m)
  {
    Split(x, m);
    RevCat(Low(x, m), High(x, m), m, n);
    RevBound(High(x, m), n);
    SplitUnique(Rev(High(x, m), n), Rev(Low(x, m), m), n);
  }

  lemma {:induction false} RevLow(x: nat, n: nat)
    ensures Rev(Low(x, n), n) == Rev(x, n)
    decreases n
  {
    if n > 0 {
      RevLow(x / 2, n - 1);
      RevStep(x % 2, Low(x / 2, n - 1), n - 1);
    }
  }

  /** Bit `i` of the number. */
  function Bit(x: nat, i: nat): nat { High(x, i) % 2 }

  /** Bit `i` of the reversed number is bit `n - 1 - i` of the number. */
  lemma RevBit(x: nat, n: nat, i: nat)
    requires i < n
    ensures Bit(Rev(x, n), i) == Bit(x, n - 1 - i)
  {
    var k := n - 1 - i;
    RevLeading(x, k + 1, i);
    RevLow(x, k + 1);
    RevLeading(x, k, 1);
    assert Rev(High(x, k), 1) == High(x, k) % 2;
    assert Rev(x, k + 1) == 2 * Rev(Low(x, k), k) + High(x, k) % 2;
  }

  /* ---- keys of the list ---- */

  /** so_dummykey: the place of a bucket's dummy. */
  function DummyKey(b: nat, w: nat): nat { Rev(b, w + 1) }

  /** so_regularkey: the hash with the bit above it set, reversed. */
  function RegularKey(h: nat, w: nat): nat { Rev(h + Pow2(w), w + 1) }

  lemma TopBit(h: nat, bit: nat, w: nat, x: nat)
    requires h < Pow2(w) && bit < 2 && x == h + Shl(bit, w)
    ensures Rev(x, w + 1) == 2 * Rev(h, w) + bit
  {
    RevCat(h, bit, w, 1);
    RevStep(bit, 0, 0);
    assert Shl(Rev(h, w), 1) == 2 * Shl(Rev(h, w), 0);
  }

  lemma DummyParity(h: nat, w: nat)
    requires h < Pow2(w)
    ensures DummyKey(h, w) == 2 * Rev(h, w)
  {
    ShlZero(0, w);
    TopBit(h, 0, w, h);
  }

  lemma RegularParity(h: nat, w: nat)
    requires h < Pow2(w)
    ensures RegularKey(h, w) == 2 * Rev(h, w) + 1
  {
    TopBit(h, 1, w, h + Pow2(w));
  }

  /** A regular key is odd and comes right after the dummy key of the same number, which is even. */
  lemma KeyParity(h: nat, w: nat)
    requires h < Pow2(w)
    ensures DummyKey(h, w) + 1 == RegularKey(h, w)
    ensures DummyKey(h, w) % 2 == 0 && RegularKey(h, w) % 2 == 1
  {
    DummyParity(h, w);
    RegularParity(h, w);
  }

  lemma {:induction false} LowSum(h: nat, w: nat, k: nat)
    requires k <= w
    ensures Low(h + Pow2(w), k) == Low(h, k)
    decreases k
  {
    if k > 0 {
      assert (h + Pow2(w)) % 2 == h % 2 && (h + Pow2(w)) / 2 == h / 2 + Pow2(w - 1);
      LowSum(h / 2, w - 1, k - 1);
    }
  }

  /** A number lies in the block of `2^n` numbers that starts at `hi * 2^n` exactly when its leading part is `hi`. */
  lemma Block(x: nat, hi: nat, n: nat)
    ensures High(x, n) == hi <==> Shl(hi, n) <= x < Shl(hi, n) + Pow2(n)
  {
    Split(x, n);
    ShlLess(High(x, n), hi, n);
    ShlLess(hi, High(x, n), n);
  }

  /** The dummy of bucket `b` of `2^k` starts a block of list keys. */
  lemma DummyStart(b: nat, k: nat, w: nat)
    requires k <= w && b < Pow2(k)
    ensures DummyKey(b, w) == Shl(Rev(b, k), w + 1 - k)
  {
    RevCat(b, 0, k, w + 1 - k);
    ShlZero(0, k);
    RevZero(w + 1 - k);
  }

  lemma {:induction false} RevZero(n: nat)
    ensures Rev(0, n) == 0
  {
    if n > 0 {
      RevZero(n - 1);
      ShlZero(0, n - 1);
    }
  }

  ghost predicate InRun(key: nat, b: nat, k: nat, w: nat)
    requires k <= w
  {
    DummyKey(b, w) <= key < DummyKey(b, w) + Pow2(w + 1 - k)
  }

  /** The numbers with low bits `b` are those whose reversal lies in the block of `b`'s dummy. */
  lemma RunOf(x: nat, b: nat, k: nat, w: nat)
    requires k <= w && b < Pow2(k)
    ensures InRun(Rev(x, w + 1), b, k, w) <==> Low(x, k) == b
  {
    var n := w + 1 - k;
    DummyStart(b, k, w);
    RevLeading(x, k, n);
    Block(Rev(x, w + 1), Rev(b, k), n);
    Split(x, k);
    RevTwice(b, k);
    RevTwice(Low(x, k), k);
  }

  /** For every table size `2^k`, the keys of bucket `b` are one contiguous run right behind `b`'s dummy; the
      dummies of the later buckets that split `b` lie in it too, and no other dummy does. */
  lemma BucketIsRun(h: nat, b: nat, k: nat, w: nat)
    requires k <= w && b < Pow2(k) && h < Pow2(w)
    ensures h % Pow2(k) == b <==> DummyKey(b, w) < RegularKey(h, w) < DummyKey(b, w) + Pow2(w + 1 - k)
    ensures h % Pow2(k) == b <==> DummyKey(b, w) <= DummyKey(h, w) < DummyKey(b, w) + Pow2(w + 1 - k)
  {
    LowIsMod(h, k);
    LowSum(h, w, k);
    RunOf(h, b, k, w);
    RunOf(h + Pow2(w), b, k, w);
    KeyParity(h, w);
    PowLess(k, w);
    KeyParity(b, w);
  }

  lemma {:induction false} PowLess(m: nat, n: nat)
    requires m <= n
    ensures Pow2(m) <= Pow2(n)
    decreases n
  {
    if m < n { PowLess(m, n - 1); }
  }

  /** Doubling the table splits the run of bucket `b` in the middle, at the dummy of bucket `b + 2^k`. */
  lemma DoublingSplits(b: nat, k: nat, w: nat)
    requires k < w && b < Pow2(k)
    ensures DummyKey(b + Pow2(k), w) == DummyKey(b, w) + Pow2(w - k)
  {
    RevCat(b, 1, k, w + 1 - k);
    DummyStart(b, k, w);
    RevStep(1, 0, w - k);
    RevZero(w - k);
  }

  /* ---- parents of buckets ---- */

  /** get_parent: the bucket number without its highest bit. */
  function Parent(b: nat): (p: nat)
    ensures b > 0 ==> p < b
    ensures b == 0 ==> p == 0
  {
    if b <= 1 then 0 else b % 2 + 2 * Parent(b / 2)
  }

  /** The parent of the bucket that a doubling splits off is the bucket it was split off from. */
  lemma {:induction false} ParentOfSplit(b: nat, k: nat)
    requires b < Pow2(k)
    ensures Parent(b + Pow2(k)) == b
    decreases k
  {
    if k > 0 {
      var c := b + Pow2(k);
      assert c % 2 == b % 2 && c / 2 == b / 2 + Pow2(k - 1);
      ParentOfSplit(b / 2, k - 1);
    }
  }

  /** Every bucket but the first is split off from its parent at some doubling. */
  lemma {:induction false} SplitFromParent(b: nat) returns (k: nat)
    requires b > 0
    ensures Parent(b) < Pow2(k) && b == Parent(b) + Pow2(k)
    decreases b
  {
    if b == 1 {
      k := 0;
    } else {
      var j := SplitFromParent(b / 2);
      k := j + 1;
    }
  }

  /** A bucket's parent has its dummy further ahead in the list. */
  lemma ParentIsBefore(b: nat, w: nat)
    requires 0 < b < Pow2(w)
    ensures DummyKey(Parent(b), w) < DummyKey(b, w)
  {
    var k := SplitFromParent(b);
    if k >= w { PowLess(w, k); }
    DoublingSplits(Parent(b), k, w);
  }
}
