/** The cache's hash table and its incremental expansion (extra/KVS-DRAM-Cache/assoc.c:78-255) under the item locks
    (extra/KVS-DRAM-Cache/thread.c:94-104). Each method is a stretch that runs under one item lock, or under none
    while all threads are paused; the migration of one bucket is cut into single item moves. */
module Assoc {

  import opened Common
  import opened SplitOrder

  /** An item in memory: `ptr` is its address. */
  datatype Item = Item(key: Key, ptr: nat)

  /* ---- hash bits ---- */

  /** Fewer bits of fewer bits. */
  lemma {:induction false} LowLow(h: nat, m: nat, n: nat)
    requires m <= n
    ensures Low(Low(h, n), m) == Low(h, m)
    decreases m
  {
    if m > 0 {
      LowLow(h / 2, m - 1, n - 1);
      var r := Low(h / 2, n - 1);
      assert Low(h, n) == h % 2 + 2 * r && Low(h, n) % 2 == h % 2 && Low(h, n) / 2 == r;
    }
  }

  lemma LowBound(h: nat, n: nat)
    ensures Low(h, n) < Pow2(n)
  {
    Split(h, n);
  }

  /** The lock of the bucket being moved is the lock of every hash whose chain the move touches: its old bucket, and
      both buckets of the new table that the old one splits into. */
  lemma LockCovers(h: nat, b: nat, lockPower: nat, hashPower: nat)
    requires lockPower < hashPower
    requires Low(h, hashPower - 1) == b || Low(h, hashPower) == b || Low(h, hashPower) == b + Pow2(hashPower - 1)
    requires b < Pow2(hashPower - 1)
    ensures Low(h, lockPower) == Low(b, lockPower) && Low(h, hashPower - 1) == b
  {
    var n := hashPower - 1;
    LowLow(h, n, hashPower);
    SplitUnique(b, 0, n);
    SplitUnique(b, 1, n);
    ShlZero(0, n);
    LowLow(h, lockPower, n);
  }

  /* ---- chains ---- */

  type Table = seq<seq<Item>>

  /** What the tables hold, and how far the expansion has come. `moving` says that bucket `next` of the old table is
      being moved, under its lock. */
  datatype Shape = Shape(primary: Table, former: Table, power: nat, expanding: bool, next: nat, moving: bool)

  type Contents = map<Key, Item>

  type Hash = Key -> nat

  ghost predicate Holds(m: Contents, x: Item) { x.key in m && m[x.key] == x }

  function NewBucket(s: Shape, h: nat): nat { Low(h, s.power) }

  function OldBucket(s: Shape, h: nat): nat
    requires s.power > 0
  {
    Low(h, s.power - 1)
  }

  ghost predicate NewChain(s: Shape, hash: Hash, m: Contents, i: nat)
    requires i < |s.primary| && s.power > 0
  {
    && NoDup(s.primary[i])
    && forall x {:trigger x in s.primary[i]} | x in s.primary[i] ::
         && Holds(m, x) && NewBucket(s, hash(x.key)) == i
         && (s.expanding ==> OldBucket(s, hash(x.key)) < s.next || (s.moving && OldBucket(s, hash(x.key)) == s.next))
  }

  ghost predicate OldChain(s: Shape, hash: Hash, m: Contents, i: nat)
    requires i < |s.former| && s.power > 0
  {
    && NoDup(s.former[i])
    && forall x {:trigger x in s.former[i]} | x in s.former[i] :: Holds(m, x) && OldBucket(s, hash(x.key)) == i && i >= s.next
  }

  ghost predicate InNew(s: Shape, hash: Hash, x: Item) {
    NewBucket(s, hash(x.key)) < |s.primary| && x in s.primary[NewBucket(s, hash(x.key))]
  }

  ghost predicate InOld(s: Shape, hash: Hash, x: Item)
    requires s.power > 0
  {
    s.expanding && OldBucket(s, hash(x.key)) < |s.former| && x in s.former[OldBucket(s, hash(x.key))]
  }

  /** The item is in one of the two tables and not in the other. */
  ghost predicate Placed(s: Shape, hash: Hash, m: Contents, k: Key)
    requires s.power > 0 && k in m
  {
    m[k].key == k && (InNew(s, hash, m[k]) <==> !InOld(s, hash, m[k]))
  }

  /** The two tables together hold exactly the contents, each item once, where its hash says. */
  ghost predicate WellFormed(s: Shape, hash: Hash, m: Contents) {
    && s.power > 0 && |s.primary| == Pow2(s.power)
    && (s.expanding ==> |s.former| == Pow2(s.power - 1) && s.next < |s.former|)
    && (s.moving ==> s.expanding)
    && (forall i {:trigger NewChain(s, hash, m, i)} | 0 <= i < |s.primary| :: NewChain(s, hash, m, i))
    && (s.expanding ==> forall i {:trigger OldChain(s, hash, m, i)} | 0 <= i < |s.former| :: OldChain(s, hash, m, i))
    && (forall k {:trigger Placed(s, hash, m, k)} | k in m :: Placed(s, hash, m, k))
  }

  /** A thread that holds the lock of `h` keeps the mover away from the chains of `h`. */
  predicate Clear(s: Shape, lockPower: nat, h: nat) {
    s.moving ==> Low(h, lockPower) != Low(s.next, lockPower)
  }

  /** The chain that the code goes to for a hash. */
  predicate GoesOld(s: Shape, h: nat)
    requires s.power > 0
  {
    s.expanding && OldBucket(s, h) >= s.next
  }

  function Chain(s: Shape, h: nat): seq<Item>
    requires s.power > 0
  {
    if GoesOld(s, h) then (if OldBucket(s, h) < |s.former| then s.former[OldBucket(s, h)] else [])
    else if NewBucket(s, h) < |s.primary| then s.primary[NewBucket(s, h)] else []
  }

  /** Under its lock, that chain holds the item of a key if and only if the table has the key. */
  lemma ChainDecides(s: Shape, hash: Hash, m: Contents, lockPower: nat, k: Key, x: Item)
    requires WellFormed(s, hash, m) && lockPower < s.power && Clear(s, lockPower, hash(k))
    requires x.key == k
    ensures x in Chain(s, hash(k)) <==> k in m && m[k] == x
  {
    var h := hash(k);
    LowBound(h, s.power);
    LowBound(h, s.power - 1);
    assert NewChain(s, hash, m, NewBucket(s, h));
    if s.expanding {
      assert OldChain(s, hash, m, OldBucket(s, h));
      if OldBucket(s, h) == s.next { LockCovers(h, s.next, lockPower, s.power); }
    }
    if k in m { assert Placed(s, hash, m, k); }
  }

  /** Moving on to the next bucket changes the way of no hash but those under the lock of the bucket just moved. */
  lemma RouteIsStable(s: Shape, lockPower: nat, h: nat)
    requires s.power > 0 && lockPower < s.power && s.expanding && s.next < Pow2(s.power - 1)
    requires Low(h, lockPower) != Low(s.next, lockPower)
    ensures GoesOld(s.(next := s.next + 1), h) == GoesOld(s, h)
    ensures s.next + 1 == Pow2(s.power - 1) ==> !GoesOld(s, h)
  {
    LowBound(h, s.power - 1);
    if OldBucket(s, h) == s.next { LockCovers(h, s.next, lockPower, s.power); }
  }

  /* ---- changing one chain ---- */

  function WithChain(s: Shape, h: nat, c: seq<Item>): Shape
    requires s.power > 0
  {
    if GoesOld(s, h) then
      if OldBucket(s, h) < |s.former| then s.(former := s.former[OldBucket(s, h) := c]) else s
    else if NewBucket(s, h) < |s.primary| then s.(primary := s.primary[NewBucket(s, h) := c])
    else s
  }

  /** The chain of the key `k` becomes `c` and the contents `m'`; only what they say of `k` changes. */
  ghost predicate Change(s: Shape, hash: Hash, m: Contents, k: Key, c: seq<Item>, m': Contents)
    requires s.power > 0
  {
    && NoDup(c)
    && (forall x: Item {:trigger x in c} | x.key != k :: x in c <==> x in Chain(s, hash(k)))
    && (forall x: Item {:trigger x in c} | x.key == k :: x in c <==> k in m' && m'[k] == x)
    && (k in m' ==> m'[k].key == k)
    && m' - {k} == m - {k}
  }

  lemma SameElsewhere(m: Contents, m': Contents, k: Key, a: Key)
    requires m' - {k} == m - {k} && a != k
    ensures (a in m <==> a in m') && (a in m ==> m'[a] == m[a])
  {
    assert a in m <==> a in m - {k};
    assert a in m' <==> a in m' - {k};
    if a in m { assert (m - {k})[a] == m[a] && (m' - {k})[a] == m'[a]; }
  }

  lemma ChangedNew(s: Shape, hash: Hash, m: Contents, lockPower: nat, k: Key, c: seq<Item>, m': Contents, i: nat)
    requires WellFormed(s, hash, m) && lockPower < s.power && Clear(s, lockPower, hash(k)) && Change(s, hash, m, k, c, m')
    requires i < |s.primary|
    ensures NewChain(WithChain(s, hash(k), c), hash, m', i)
  {
    var h, s' := hash(k), WithChain(s, hash(k), c);
    assert NewChain(s, hash, m, i);
    LowBound(h, s.power);
    if s.expanding && OldBucket(s, h) == s.next { LockCovers(h, s.next, lockPower, s.power); }
    forall x | x in s'.primary[i]
      ensures Holds(m', x) && NewBucket(s, hash(x.key)) == i
      ensures s.expanding ==> OldBucket(s, hash(x.key)) < s.next || (s.moving && OldBucket(s, hash(x.key)) == s.next)
    {
      if x.key != k {
        SameElsewhere(m, m', k, x.key);
        assert x in s.primary[i];
      }
    }
  }

  lemma ChangedOld(s: Shape, hash: Hash, m: Contents, lockPower: nat, k: Key, c: seq<Item>, m': Contents, i: nat)
    requires WellFormed(s, hash, m) && lockPower < s.power && Clear(s, lockPower, hash(k)) && Change(s, hash, m, k, c, m')
    requires s.expanding && i < |s.former|
    ensures OldChain(WithChain(s, hash(k), c), hash, m', i)
  {
    var s' := WithChain(s, hash(k), c);
    assert OldChain(s, hash, m, i);
    forall x | x in s'.former[i]
      ensures Holds(m', x) && OldBucket(s, hash(x.key)) == i && i >= s.next
    {
      if x.key != k {
        SameElsewhere(m, m', k, x.key);
        assert x in s.former[i];
      } else if s'.former[i] == s.former[i] {
        ChainDecides(s, hash, m, lockPower, k, x);
      }
    }
  }

  lemma ChangedPlaced(s: Shape, hash: Hash, m: Contents, lockPower: nat, k: Key, c: seq<Item>, m': Contents, a: Key)
    requires WellFormed(s, hash, m) && lockPower < s.power && Clear(s, lockPower, hash(k)) && Change(s, hash, m, k, c, m')
    requires a in m'
    ensures Placed(WithChain(s, hash(k), c), hash, m', a)
  {
    var h := hash(k);
    LowBound(h, s.power);
    LowBound(h, s.power - 1);
    assert NewChain(s, hash, m, NewBucket(s, h));
    if s.expanding { assert OldChain(s, hash, m, OldBucket(s, h)); }
    if a != k {
      SameElsewhere(m, m', k, a);
      assert Placed(s, hash, m, a);
    } else {
      ChainDecides(s, hash, m, lockPower, k, m'[k]);
      if s.expanding && OldBucket(s, h) == s.next && s.moving { LockCovers(h, s.next, lockPower, s.power); }
    }
  }

  lemma ChangeKeeps(s: Shape, hash: Hash, m: Contents, lockPower: nat, k: Key, c: seq<Item>, m': Contents)
    requires WellFormed(s, hash, m) && lockPower < s.power && Clear(s, lockPower, hash(k)) && Change(s, hash, m, k, c, m')
    ensures WellFormed(WithChain(s, hash(k), c), hash, m')
  {
    var s' := WithChain(s, hash(k), c);
    forall i | 0 <= i < |s'.primary| ensures NewChain(s', hash, m', i) { ChangedNew(s, hash, m, lockPower, k, c, m', i); }
    if s.expanding {
      forall i | 0 <= i < |s'.former| ensures OldChain(s', hash, m', i) { ChangedOld(s, hash, m, lockPower, k, c, m', i); }
    }
    forall a | a in m' ensures Placed(s', hash, m', a) { ChangedPlaced(s, hash, m, lockPower, k, c, m', a); }
  }

  /* ---- the expansion ---- */

  /** assoc_expand: the table becomes the old one, and an empty one twice as large takes its place. */
  function Expanded(s: Shape): Shape {
    Shape(seq(Pow2(s.power + 1), i => []), s.primary, s.power + 1, true, 0, false)
  }

  lemma ExpandKeeps(s: Shape, hash: Hash, m: Contents)
    requires WellFormed(s, hash, m) && !s.expanding
    ensures WellFormed(Expanded(s), hash, m)
  {
    var s' := Expanded(s);
    forall i | 0 <= i < |s'.former| ensures OldChain(s', hash, m, i) { assert NewChain(s, hash, m, i); }
    forall k | k in m ensures Placed(s', hash, m, k) { assert Placed(s, hash, m, k); }
  }

  /** One item of the bucket goes to the front of its new chain. */
  function MovedOne(s: Shape, hash: Hash): Shape
    requires s.next < |s.former| && s.former[s.next] != []
    requires NewBucket(s, hash(s.former[s.next][0].key)) < |s.primary|
  {
    var x := s.former[s.next][0];
    var b := NewBucket(s, hash(x.key));
    s.(former := s.former[s.next := s.former[s.next][1..]], primary := s.primary[b := [x] + s.primary[b]])
  }

  lemma MoveOneKeeps(s: Shape, hash: Hash, m: Contents)
    requires WellFormed(s, hash, m) && s.moving && s.former[s.next] != []
    ensures NewBucket(s, hash(s.former[s.next][0].key)) < |s.primary|
    ensures WellFormed(MovedOne(s, hash), hash, m)
  {
    var x := s.former[s.next][0];
    var h := hash(x.key);
    LowBound(h, s.power);
    var s' := MovedOne(s, hash);
    assert OldChain(s, hash, m, s.next) && x in s.former[s.next];
    assert Placed(s, hash, m, x.key);
    forall i | 0 <= i < |s'.primary|
      ensures NewChain(s', hash, m, i)
    {
      assert NewChain(s, hash, m, i);
    }
    forall i | 0 <= i < |s'.former|
      ensures OldChain(s', hash, m, i)
    {
      assert OldChain(s, hash, m, i);
      assert forall y | y in s'.former[i] :: y in s.former[i];
    }
    forall k | k in m
      ensures Placed(s', hash, m, k)
    {
      assert Placed(s, hash, m, k);
      assert s.former[s.next] == [x] + s.former[s.next][1..];
    }
  }

  /** The bucket is empty: on to the next one, or the expansion is over. */
  function Advanced(s: Shape): Shape {
    if s.next + 1 == |s.former| then s.(former := [], expanding := false, next := s.next + 1, moving := false)
    else s.(next := s.next + 1, moving := false)
  }

  lemma AdvanceKeeps(s: Shape, hash: Hash, m: Contents)
    requires WellFormed(s, hash, m) && s.moving && s.former[s.next] == []
    ensures WellFormed(Advanced(s), hash, m)
  {
    var s' := Advanced(s);
    forall i | 0 <= i < |s'.primary| ensures NewChain(s', hash, m, i) { assert NewChain(s, hash, m, i); }
    if s'.expanding {
      forall i | 0 <= i < |s'.former| ensures OldChain(s', hash, m, i) { assert OldChain(s, hash, m, i); }
    }
    forall k | k in m
      ensures Placed(s', hash, m, k)
    {
      assert Placed(s, hash, m, k);
      if InOld(s, hash, m[k]) { assert OldChain(s, hash, m, OldBucket(s, hash(k))); }
    }
  }

  lemma LockKeeps(s: Shape, hash: Hash, m: Contents)
    requires WellFormed(s, hash, m) && s.expanding && !s.moving
    ensures WellFormed(s.(moving := true), hash, m)
  {
    var s' := s.(moving := true);
    forall i | 0 <= i < |s'.primary| ensures NewChain(s', hash, m, i) { assert NewChain(s, hash, m, i); }
    forall i | 0 <= i < |s'.former| ensures OldChain(s', hash, m, i) { assert OldChain(s, hash, m, i); }
    forall k | k in m ensures Placed(s', hash, m, k) { assert Placed(s, hash, m, k); }
  }

  /* ---- the table ---- */

  class HashTable {

    const hash: Hash
    /** Logarithm of the number of item locks. */
    const lockPower: nat
    var shape: Shape
    var count: nat
    /** A request to expand has been made. */
    var wanted: bool
    ghost var contents: Contents

    ghost predicate Valid()
      reads this
    {
      WellFormed(shape, hash, contents) && lockPower < shape.power && count == |contents|
    }

    /** assoc_init. */
    constructor (hash: Hash, lockPower: nat, power: nat)
      requires lockPower < power
      ensures Valid() && contents == map[] && !shape.expanding
    {
      this.hash, this.lockPower := hash, lockPower;
      shape, count, wanted, contents := Shape(seq(Pow2(power), i => []), [], power, false, 0, false), 0, false, map[];
    }

    /** assoc_find, with the lock of the key's hash held. */
    method Find(k: Key) returns (r: Option<Item>)
      requires Valid() && Clear(shape, lockPower, hash(k))
      ensures r == if k in contents then Some(contents[k]) else None
    {
      var c := Chain(shape, hash(k));
      var i := 0;
      while i < |c|
        invariant 0 <= i <= |c| && forall j | 0 <= j < i :: c[j].key != k
      {
        if c[i].key == k {
          ChainDecides(shape, hash, contents, lockPower, k, c[i]);
          return Some(c[i]);
        }
        i := i + 1;
      }
      if k in contents {
        assert Placed(shape, hash, contents, k);
        ChainDecides(shape, hash, contents, lockPower, k, contents[k]);
      }
      r := None;
    }

    /** assoc_insert of a key that is not in the table. */
    method Insert(x: Item)
      requires Valid() && x.key !in contents && Clear(shape, lockPower, hash(x.key))
      modifies this
      ensures Valid() && contents == old(contents)[x.key := x] && count == old(count) + 1
      ensures wanted == (old(wanted) || (!shape.expanding && count > Pow2(shape.power) * 3 / 2))
    {
      var h := hash(x.key);
      var c := [x] + Chain(shape, h);
      InsertChange(shape, hash, contents, lockPower, x);
      ChangeKeeps(shape, hash, contents, lockPower, x.key, c, contents[x.key := x]);
      shape := WithChain(shape, h, c);
      contents := contents[x.key := x];
      count := count + 1;
      if !shape.expanding && count > Pow2(shape.power) * 3 / 2 {
        wanted := true;
      }
    }

    /** _hashitem_before: where the key is in its chain. */
    method Before(c: seq<Item>, k: Key) returns (i: nat)
      requires exists j :: 0 <= j < |c| && c[j].key == k
      ensures i < |c| && c[i].key == k && forall j | 0 <= j < i :: c[j].key != k
    {
      i := 0;
      while c[i].key != k
        invariant 0 <= i < |c| && forall j | 0 <= j < i :: c[j].key != k
        decreases |c| - i
      {
        assert exists j :: i < j < |c| && c[j].key == k;
        i := i + 1;
      }
    }

    /** assoc_delete of a key that is in the table. */
    method Delete(k: Key)
      requires Valid() && k in contents && Clear(shape, lockPower, hash(k))
      modifies this
      ensures Valid() && contents == old(contents) - {k} && count == old(count) - 1
    {
      var h := hash(k);
      var c := Chain(shape, h);
      assert Placed(shape, hash, contents, k);
      ChainDecides(shape, hash, contents, lockPower, k, contents[k]);
      var i := Before(c, k);
      RemoveAt(k, i);
    }

    /** The item at place `i` of its chain is taken out. */
    method RemoveAt(k: Key, i: nat)
      requires Valid() && k in contents && Clear(shape, lockPower, hash(k))
      requires i < |Chain(shape, hash(k))| && Chain(shape, hash(k))[i].key == k
      modifies this
      ensures Valid() && contents == old(contents) - {k} && count == old(count) - 1
    {
      var h := hash(k);
      var c := Chain(shape, h);
      ChainDecides(shape, hash, contents, lockPower, k, c[i]);
      DeleteChange(shape, hash, contents, lockPower, k, i);
      ChangeKeeps(shape, hash, contents, lockPower, k, c[..i] + c[i + 1..], contents - {k});
      shape := WithChain(shape, h, c[..i] + c[i + 1..]);
      contents := contents - {k};
      count := count - 1;
      assert old(contents).Keys == contents.Keys + {k};
    }

    /* ---- the maintenance thread ---- */

    /** assoc_expand, while all threads are paused; `got` says whether there was memory for the new table. */
    method Expand(got: bool)
      requires Valid() && !shape.expanding
      modifies this`shape
      ensures Valid() && shape.expanding == got && (!got ==> shape == old(shape))
      ensures got ==> shape.power == old(shape.power) + 1 && |shape.primary| == 2 * |old(shape.primary)|
    {
      if got {
        ExpandKeeps(shape, hash, contents);
        shape := Expanded(shape);
      }
    }

    /** The lock of the next bucket is taken, */
    method LockBucket()
      requires Valid() && shape.expanding && !shape.moving
      modifies this`shape
      ensures Valid() && shape == old(shape).(moving := true)
    {
      LockKeeps(shape, hash, contents);
      shape := shape.(moving := true);
    }

    /** one item of the bucket is moved, */
    method MoveItem()
      requires Valid() && shape.moving && shape.former[shape.next] != []
      modifies this`shape
      ensures Valid() && shape.moving && shape.next == old(shape.next) && |shape.former| == |old(shape.former)|
      ensures |shape.former[shape.next]| == |old(shape.former[shape.next])| - 1
    {
      MoveOneKeeps(shape, hash, contents);
      shape := MovedOne(shape, hash);
    }

    /** and when it is empty the lock is given back. */
    method UnlockBucket()
      requires Valid() && shape.moving && shape.former[shape.next] == []
      modifies this`shape
      ensures Valid() && !shape.moving && shape == Advanced(old(shape))
    {
      AdvanceKeeps(shape, hash, contents);
      shape := Advanced(shape);
    }

    /** The migration of one bucket. */
    method Migrate()
      requires Valid() && shape.expanding && !shape.moving
      modifies this`shape
      ensures Valid() && !shape.moving
      ensures shape.expanding <==> old(shape.next) + 1 < old(|shape.former|)
      ensures shape.expanding ==> shape.next == old(shape.next) + 1 && |shape.former| == |old(shape.former)|
    {
      LockBucket();
      while shape.former[shape.next] != []
        invariant Valid() && shape.moving && shape.next == old(shape.next) && |shape.former| == |old(shape.former)|
        decreases |shape.former[shape.next]|
      {
        MoveItem();
      }
      UnlockBucket();
    }

    /** An expansion left to itself comes to its end. */
    method MigrateAll()
      requires Valid() && !shape.moving
      modifies this`shape
      ensures Valid() && !shape.expanding
    {
      while shape.expanding
        invariant Valid() && !shape.moving
        decreases if shape.expanding then |shape.former| - shape.next else 0
      {
        Migrate();
      }
    }
  }

  lemma ChainNoDup(s: Shape, hash: Hash, m: Contents, h: nat)
    requires WellFormed(s, hash, m)
    ensures NoDup(Chain(s, h))
  {
    LowBound(h, s.power);
    LowBound(h, s.power - 1);
    assert NewChain(s, hash, m, NewBucket(s, h));
    if s.expanding { assert OldChain(s, hash, m, OldBucket(s, h)); }
  }

  lemma InsertChange(s: Shape, hash: Hash, m: Contents, lockPower: nat, x: Item)
    requires WellFormed(s, hash, m) && lockPower < s.power && Clear(s, lockPower, hash(x.key)) && x.key !in m
    ensures Change(s, hash, m, x.key, [x] + Chain(s, hash(x.key)), m[x.key := x])
  {
    ChainNoDup(s, hash, m, hash(x.key));
    forall y: Item | y.key == x.key
      ensures y !in Chain(s, hash(x.key))
    {
      ChainDecides(s, hash, m, lockPower, x.key, y);
    }
    assert m[x.key := x] - {x.key} == m - {x.key};
  }

  lemma DeleteChange(s: Shape, hash: Hash, m: Contents, lockPower: nat, k: Key, i: nat)
    requires WellFormed(s, hash, m) && lockPower < s.power && Clear(s, lockPower, hash(k)) && k in m
    requires i < |Chain(s, hash(k))| && Chain(s, hash(k))[i].key == k
    ensures Change(s, hash, m, k, Chain(s, hash(k))[..i] + Chain(s, hash(k))[i + 1..], m - {k})
  {
    var c := Chain(s, hash(k));
    var c' := c[..i] + c[i + 1..];
    ChainNoDup(s, hash, m, hash(k));
    forall y: Item | y.key == k
      ensures y !in c'
    {
      ChainDecides(s, hash, m, lockPower, k, y);
      ChainDecides(s, hash, m, lockPower, k, c[i]);
    }
    forall y: Item | y.key != k
      ensures y in c' <==> y in c
    {
      assert c == c[..i] + [c[i]] + c[i + 1..];
    }
  }
}
