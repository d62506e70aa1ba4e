/** Ordered range scans over a tree that does not change during the scan (src/radix_tree.cc:536-902). */
module RadixScan {
  import opened Common
  import opened RadixHeap
  import opened RadixTreeSequential

  /** The key that, taken exclusively, stands for no bound at all. */
  const OPEN_BOUNDARY: Key := [0]

  /* ---- positions ---- */

  /** Key `k` is at or after position `pos` of a node with key `kn`. Position 0 is the node's own value,
      position p the child slot p - 1, and 257 is past the whole subtree. */
  ghost predicate Ahead(kn: Key, pos: nat, k: Key) {
    if kn <= k then (if |k| == |kn| then pos == 0 else pos <= k[|kn|] as int + 1) else Less(kn, k)
  }

  lemma AgreeExtended(a: Key, a': Key, b: Key)
    requires a <= a' && !(a <= b)
    ensures Agree(a', b) == Agree(a, b) < |a|
    ensures Less(a', b) == Less(a, b)
  {
    var i := Agree(a, b);
    assert a[..|a|] == a;
    assert a'[..i] == a[..i];
    AgreeIs(a', b, i);
  }

  lemma AgreeDiverges(a: Key, b: Key, i: nat)
    requires i < |a| && i < |b| && a[..i] == b[..i] && a[i] != b[i]
    ensures Less(a, b) <==> a[i] < b[i]
  {
    AgreeIs(a, b, i);
  }

  lemma PrefixLess(a: Key, b: Key)
    requires a <= b
    ensures a < b ==> Less(a, b)
    ensures !Less(b, a)
  {
    AgreeIs(a, b, |a|);
    AgreeIs(b, a, |a|);
  }

  /** Leaving a finished node for the slot after it in its parent skips no stored key. */
  lemma PopSkipsNothing(h: Heap, root: Gptr, m: Gptr, idx: Byte, x: Gptr)
    requires WellFormed(h, root) && m in h && idx in h[m].child && x in h
    ensures h[m].child[idx] in h
    ensures Ahead(h[h[m].child[idx]].key, 257, h[x].key) <==> Ahead(h[m].key, idx as int + 2, h[x].key)
  {
    assert ChildFits(h, m, idx);
    var km, kn, k := h[m].key, h[h[m].child[idx]].key, h[x].key;
    if km < k {
      assert Leads(h, m, x);
      if k[|km|] != idx { AgreeDiverges(kn, k, |km|); }
    } else if km == k {
      PrefixLess(km, kn);
    } else {
      AgreeExtended(km, kn, k);
    }
  }

  /** Entering the child at the current slot skips no stored key. */
  lemma DownSkipsNothing(h: Heap, root: Gptr, n: Gptr, b: Byte, x: Gptr)
    requires WellFormed(h, root) && n in h && b in h[n].child && x in h
    ensures h[n].child[b] in h
    ensures Ahead(h[n].key, b as int + 1, h[x].key) <==> Ahead(h[h[n].child[b]].key, 0, h[x].key)
  {
    assert ChildFits(h, n, b);
    var kn, kc, k := h[n].key, h[h[n].child[b]].key, h[x].key;
    if kn < k {
      assert Leads(h, n, x);
      if k[|kn|] != b { AgreeDiverges(kc, k, |kn|); }
    } else if kn == k {
      PrefixLess(kn, kc);
    } else {
      AgreeExtended(kn, kc, k);
    }
  }

  /** Passing an empty slot skips no stored key. */
  lemma EmptySkipsNothing(h: Heap, root: Gptr, n: Gptr, b: Byte, x: Gptr)
    requires WellFormed(h, root) && n in h && b !in h[n].child && x in h
    ensures Ahead(h[n].key, b as int + 1, h[x].key) <==> Ahead(h[n].key, b as int + 2, h[x].key)
  {
    if h[n].key < h[x].key {
      assert Leads(h, n, x);
    }
  }

  /** Whatever is ahead of a node is the node's key or comes after it. */
  lemma AheadIsAfter(kn: Key, pos: nat, k: Key)
    requires Ahead(kn, pos, k)
    ensures k == kn || Less(kn, k)
  {
    if kn <= k { PrefixLess(kn, k); }
  }

  /* ---- what a scan still owes ---- */

  /** The upper end of a scan. */
  datatype Bound = Bound(end: Key, inclusive: bool, open: bool)

  ghost predicate Within(b: Bound, k: Key) {
    b.open || Less(k, b.end) || (b.inclusive && k == b.end)
  }

  /** The stored key nearest below the end key, when the end key itself has no node. */
  ghost predicate Overhang(h: Heap, b: Bound, x: Gptr)
    requires x in h
  {
    !b.open && b.end < h[x].key && forall y | y in h :: !(b.end <= h[y].key < h[x].key)
  }

  /** What the code delivers: live keys within the bound and, besides, a live overhang. */
  ghost predicate Delivered(h: Heap, b: Bound, x: Gptr)
    requires x in h
  {
    h[x].value.IsValid() && (Within(b, h[x].key) || Overhang(h, b, x))
  }

  /** The nodes at or after position `pos` of `node`; none once the scan is over. */
  ghost function Pending(h: Heap, node: Gptr, pos: nat): set<Gptr> {
    if node !in h then {} else set x | x in h && Ahead(h[node].key, pos, h[x].key)
  }

  ghost function Due(h: Heap, b: Bound, node: Gptr, pos: nat): set<Gptr> {
    set x | x in Pending(h, node, pos) && Delivered(h, b, x)
  }

  /** The stack holds the slots taken from the root down to `node`. */
  ghost predicate Chain(h: Heap, root: Gptr, path: seq<(Gptr, Byte)>, node: Gptr)
    decreases |path|
  {
    if path == [] then node == root
    else
      var (m, b) := path[|path| - 1];
      m in h && b in h[m].child && h[m].child[b] == node && Chain(h, root, path[..|path| - 1], m)
  }

  lemma ChainPush(h: Heap, root: Gptr, l: Bound, path: seq<(Gptr, Byte)>, n: Gptr, b: Byte)
    requires Chain(h, root, path, n) && Inside(h, l, path) && n in h && b in h[n].child
    requires l.open || !(l.end <= h[n].key)
    ensures Chain(h, root, path + [(n, b)], h[n].child[b]) && Inside(h, l, path + [(n, b)])
  {
    assert (path + [(n, b)])[..|path|] == path;
  }

  /** No node on the stack lies at or below the end key. */
  ghost predicate Inside(h: Heap, b: Bound, path: seq<(Gptr, Byte)>) {
    !b.open ==> forall i | 0 <= i < |path| :: path[i].0 in h && !(b.end <= h[path[i].0].key)
  }

  /** The lower end of a scan. */
  datatype Begin = Begin(begin: Key, inclusive: bool, open: bool)

  ghost predicate From(s: Begin, k: Key) {
    s.open || Less(s.begin, k) || (s.inclusive && k == s.begin)
  }

  /** The nodes whose keys follow the begin key. */
  ghost function After(h: Heap, s: Begin): set<Gptr> {
    set x | x in h && From(s, h[x].key)
  }

  /** The nodes a scan delivers. */
  ghost function Range(h: Heap, s: Begin, b: Bound): set<Gptr> {
    set x | x in h && From(s, h[x].key) && Delivered(h, b, x)
  }

  /** The last slot taken leads towards the begin key. */
  ghost predicate OnTheWay(h: Heap, path: seq<(Gptr, Byte)>, begin: Key) {
    && path != []
    && var (m, b) := path[|path| - 1];
       m in h && h[m].key < begin && b == begin[|h[m].key|]
  }

  ghost predicate Popped(path: seq<(Gptr, Byte)>, pos: nat, path': seq<(Gptr, Byte)>, pos': nat) {
    (path' == path && pos' == pos) || (|path'| < |path| && pos == 257 && pos' != 0)
  }

  /** The iterator (struct Iter); a null `node` means the scan is over. */
  class Iter {
    var beginKey: Key
    var beginInclusive: bool
    var beginOpen: bool
    var endKey: Key
    var endInclusive: bool
    var endOpen: bool
    var node: Gptr
    var nextPos: nat
    var key: Key
    var value: TagGptr
    var path: seq<(Gptr, Byte)>

    ghost function Limit(): Bound
      reads this
    {
      Bound(endKey, endInclusive, endOpen)
    }

    ghost function Start(): Begin
      reads this
    {
      Begin(beginKey, beginInclusive, beginOpen)
    }

    ghost predicate Valid(h: Heap, root: Gptr)
      reads this
    {
      node != 0 ==> node in h && nextPos <= 257 && Chain(h, root, path, node) && Inside(h, Limit(), path)
    }

    constructor ()
      ensures node == 0 && !endInclusive && path == []
    {
      beginKey, beginInclusive, beginOpen := [], false, false;
      endKey, endInclusive, endOpen := [], false, false;
      node, nextPos, key, value, path := 0, 0, [], Nil, [];
    }

    /** Leaves finished nodes: back to the slot after the one taken in the parent. */
    method Pop(h: Heap, root: Gptr) returns (more: bool)
      requires WellFormed(h, root) && Valid(h, root) && node != 0
      modifies this`node, this`nextPos, this`path
      ensures Valid(h, root) && node != 0
      ensures Pending(h, node, nextPos) == old(Pending(h, node, nextPos))
      ensures more ==> nextPos < 257
      ensures !more ==> Pending(h, node, nextPos) == {}
      ensures Popped(old(path), old(nextPos), path, nextPos)
    {
      while nextPos == 257
        invariant Valid(h, root) && node != 0
        invariant Pending(h, node, nextPos) == old(Pending(h, node, nextPos))
        invariant Popped(old(path), old(nextPos), path, nextPos)
        decreases |path|
      {
        if path == [] {
          assert Pending(h, node, nextPos) == {};
          return false;
        }
        var (m, b) := path[|path| - 1];
        PopPending(h, root, m, b);
        path := path[..|path| - 1];
        node, nextPos := m, b as int + 2;
      }
      more := true;
    }

    /** Down to the child in slot `b`, whose turn it is; the way back is remembered. */
    method Descend(h: Heap, root: Gptr, b: Byte)
      requires WellFormed(h, root) && Valid(h, root) && node != 0 && nextPos == b as int + 1 && b in h[node].child
      requires !endOpen ==> !(endKey <= h[node].key)
      modifies this`node, this`nextPos, this`path
      ensures Valid(h, root) && node != 0 && nextPos == 0
      ensures Pending(h, node, nextPos) == old(Pending(h, node, nextPos))
    {
      DownPending(h, root, node, b);
      ChainPush(h, root, Limit(), path, node, b);
      path := path + [(node, b)];
      node, nextPos := h[node].child[b], 0;
    }

    /** Looks for the next filled slot up to `limit - 1` and enters it. */
    method NextChild(h: Heap, root: Gptr, limit: nat) returns (found: bool)
      requires WellFormed(h, root) && Valid(h, root) && node != 0 && 1 <= nextPos <= 257 && limit <= 256
      requires !endOpen ==> !(endKey <= h[node].key)
      modifies this`node, this`nextPos, this`path
      ensures Valid(h, root) && node != 0
      ensures Pending(h, node, nextPos) == old(Pending(h, node, nextPos))
      ensures found ==> nextPos == 0
      ensures !found ==> node == old(node) && path == old(path) && nextPos >= old(nextPos) && nextPos > limit
    {
      var n := h[node];
      while nextPos <= limit
        invariant Valid(h, root) && node == old(node) && path == old(path) && old(nextPos) <= nextPos <= 257
        invariant Pending(h, node, nextPos) == old(Pending(h, node, nextPos))
        decreases limit + 1 - nextPos
      {
        var b: Byte := nextPos - 1;
        if b in n.child {
          Descend(h, root, b);
          return true;
        }
        EmptyPending(h, root, node, b);
        nextPos := nextPos + 1;
      }
      found := false;
    }

    /** Passes the value of the current node, if its turn is now, and delivers it if it is live. */
    method TakeValue(h: Heap, root: Gptr) returns (ok: bool)
      requires WellFormed(h, root) && Valid(h, root) && node != 0 && nextPos < 257
      requires endOpen || Less(h[node].key, endKey)
      modifies this`nextPos, this`key, this`value
      ensures Valid(h, root) && 1 <= nextPos <= 257
      ensures ok ==> Took(h, old(Due(h, Limit(), node, nextPos)), Due(h, Limit(), node, nextPos), key, value)
      ensures !ok ==> Due(h, Limit(), node, nextPos) == old(Due(h, Limit(), node, nextPos))
      ensures old(nextPos) == 0 ==> Pending(h, node, nextPos) < old(Pending(h, node, nextPos))
      ensures old(nextPos) != 0 ==> nextPos == old(nextPos)
    {
      ok := false;
      if nextPos == 0 {
        PassValue(h, root, Limit(), node);
        nextPos := 1;
        if h[node].value.IsValid() {
          key, value := h[node].key, h[node].value;
          ok := true;
        }
      }
    }

    /** The current node lies below the end key: its value is the last thing delivered. */
    method TakeOverhang(h: Heap, root: Gptr) returns (ok: bool)
      requires WellFormed(h, root) && Valid(h, root) && node != 0 && nextPos < 257
      requires !endOpen && endKey < h[node].key
      modifies this`nextPos, this`key, this`value
      ensures Valid(h, root)
      ensures ok ==> Took(h, old(Due(h, Limit(), node, nextPos)), Due(h, Limit(), node, nextPos), key, value)
      ensures !ok ==> old(Due(h, Limit(), node, nextPos)) == {} == Due(h, Limit(), node, nextPos)
    {
      Below(h, root, Limit(), node, nextPos, path);
      Below(h, root, Limit(), node, 1, path);
      ok := false;
      if nextPos == 0 {
        nextPos := 1;
        if h[node].value.IsValid() {
          key, value := h[node].key, h[node].value;
          ok := true;
        }
      }
    }

    /** The current node is the end key's own: the scan ends here. */
    method TakeEnd(h: Heap, root: Gptr) returns (ok: bool)
      requires WellFormed(h, root) && Valid(h, root) && node != 0
      requires !endOpen && endKey == h[node].key
      modifies this`node, this`key, this`value
      ensures Valid(h, root)
      ensures ok ==> Took(h, old(Due(h, Limit(), node, nextPos)), Due(h, Limit(), node, nextPos), key, value)
      ensures !ok ==> old(Due(h, Limit(), node, nextPos)) == {} == Due(h, Limit(), node, nextPos)
    {
      OnlyItself(h, root, Limit(), node, nextPos);
      ok := endInclusive && nextPos == 0 && h[node].value.IsValid();
      if ok {
        key, value := h[node].key, h[node].value;
      }
      node := 0;
    }

    /** What a visit to one node comes to: a key was delivered, the scan is over, or it goes on. */
    method Visit(h: Heap, root: Gptr) returns (ok: bool, over: bool)
      requires WellFormed(h, root) && Valid(h, root) && node != 0 && nextPos < 257
      modifies this`node, this`nextPos, this`path, this`key, this`value
      ensures Valid(h, root)
      ensures ok ==> Took(h, old(Due(h, Limit(), node, nextPos)), Due(h, Limit(), node, nextPos), key, value)
      ensures !ok && over ==> old(Due(h, Limit(), node, nextPos)) == {} == Due(h, Limit(), node, nextPos)
      ensures !ok && !over ==> node != 0 && Due(h, Limit(), node, nextPos) == old(Due(h, Limit(), node, nextPos))
      ensures !ok && !over ==>
        || Pending(h, node, nextPos) < old(Pending(h, node, nextPos))
        || (Pending(h, node, nextPos) == old(Pending(h, node, nextPos)) && old(nextPos) != 0
            && (nextPos == 0 || (nextPos == 257 && path == old(path))))
    {
      ok, over := false, false;
      var n := h[node];
      var c := 1;
      if !endOpen {
        c := Compare(endKey, n.key);
      }
      if c < 0 {
        NothingAbove(h, root, Limit(), node, nextPos);
        over := true;
      } else if c > 0 {
        // every key of this subtree is within the bound
        ok := TakeValue(h, root);
        if !ok {
          var _ := NextChild(h, root, 256);
        }
      } else if |n.key| == |endKey| {
        ok := TakeEnd(h, root);
        over := true;
      } else if |endKey| < |n.key| {
        ok := TakeOverhang(h, root);
        over := true;
      } else {
        PrefixLess(n.key, endKey);
        ok := TakeValue(h, root);
        if !ok {
          var found := NextChild(h, root, endKey[|n.key|] as int + 1);
          if !found {
            NothingPast(h, root, Limit(), node, nextPos);
            node, over := 0, true;
          }
        }
      }
    }

    /** `next_value` and `get_next`: delivers the least key that is due and takes it off, or finds that
        nothing is due. */
    method NextValue(h: Heap, root: Gptr) returns (ok: bool)
      requires WellFormed(h, root) && Valid(h, root)
      modifies this`node, this`nextPos, this`path, this`key, this`value
      ensures Valid(h, root)
      ensures ok ==> Took(h, old(Due(h, Limit(), node, nextPos)), Due(h, Limit(), node, nextPos), key, value)
      ensures !ok ==> old(Due(h, Limit(), node, nextPos)) == {} == Due(h, Limit(), node, nextPos)
    {
      while node != 0
        invariant Valid(h, root)
        invariant Due(h, Limit(), node, nextPos) == old(Due(h, Limit(), node, nextPos))
        decreases Pending(h, node, nextPos), if nextPos == 0 then 0 else 1 + |path|, 257 - nextPos
      {
        var more := Pop(h, root);
        if !more {
          return false;
        }
        var over;
        ok, over := Visit(h, root);
        if ok || over {
          return;
        }
      }
      ok := false;
    }

    /** Goes down one slot towards the begin key. */
    method Enter(h: Heap, root: Gptr, b: Byte)
      requires WellFormed(h, root) && Valid(h, root) && node != 0
      requires endOpen || Less(beginKey, endKey)
      requires h[node].key < beginKey && b == beginKey[|h[node].key|] && b in h[node].child
      modifies this`node, this`path
      ensures Valid(h, root) && node != 0 && OnTheWay(h, path, beginKey)
      ensures |h[node].key| > |h[old(node)].key|
    {
      assert ChildFits(h, node, b);
      KeepsInside(Limit(), beginKey, h[node].key);
      ChainPush(h, root, Limit(), path, node, b);
      path := path + [(node, b)];
      node := h[node].child[b];
    }

    /** Decides the position at the node where the way to the begin key ends. */
    method Settle(h: Heap, root: Gptr, c: int)
      requires WellFormed(h, root) && Valid(h, root) && node != 0 && nextPos == 0 && !beginOpen && beginKey != []
      requires node == root || OnTheWay(h, path, beginKey)
      requires c == 0 <==> beginKey <= h[node].key || h[node].key <= beginKey
      requires c < 0 ==> Less(beginKey, h[node].key)
      requires c > 0 ==> Less(h[node].key, beginKey)
      requires h[node].key < beginKey ==> beginKey[|h[node].key|] !in h[node].child
      modifies this`nextPos
      ensures Valid(h, root) && Pending(h, node, nextPos) == After(h, Start())
    {
      var n := h[node];
      if c == 0 && |n.key| < |beginKey| {
        nextPos := beginKey[|n.key|] as int + 1;
        StartAtSlot(h, root, Start(), node);
      } else if c == 0 && |n.key| == |beginKey| {
        nextPos := if beginInclusive then 0 else 1;
        StartAtNode(h, root, Start(), node);
      } else {
        nextPos := if c > 0 then 257 else 0;
        PrefixLess(beginKey[..0], beginKey);
        if c == 0 { PrefixLess(beginKey, n.key); }
        StartBeside(h, root, Start(), path[|path| - 1].0, node);
      }
    }

    /** The search part of `lower_bound`. */
    method Position(h: Heap, root: Gptr)
      requires WellFormed(h, root) && beginKey != [] && path == []
      requires beginOpen || endOpen || Less(beginKey, endKey)
      modifies this`node, this`nextPos, this`path
      ensures Valid(h, root) && node != 0 && Pending(h, node, nextPos) == After(h, Start())
    {
      node, nextPos := root, 0;
      if beginOpen {
        StartOpen(h, root, Start());
        return;
      }
      var c := Compare(beginKey, h[node].key);
      while c == 0 && |h[node].key| < |beginKey| && beginKey[|h[node].key|] in h[node].child
        invariant Valid(h, root) && node != 0 && nextPos == 0
        invariant node == root || OnTheWay(h, path, beginKey)
        invariant c == 0 <==> beginKey <= h[node].key || h[node].key <= beginKey
        invariant c < 0 ==> Less(beginKey, h[node].key)
        invariant c > 0 ==> Less(h[node].key, beginKey)
        decreases MAX_KEY_LEN - |h[node].key|
      {
        Enter(h, root, beginKey[|h[node].key|]);
        c := Compare(beginKey, h[node].key);
      }
      Settle(h, root, c);
    }

    /** `lower_bound`: finds the position from which everything after the begin key follows, and delivers
        the first key. */
    method LowerBound(h: Heap, root: Gptr) returns (ok: bool)
      requires WellFormed(h, root) && beginKey != [] && path == []
      requires beginOpen || endOpen || Less(beginKey, endKey)
      modifies this`node, this`nextPos, this`path, this`key, this`value
      ensures Valid(h, root)
      ensures ok ==> Took(h, Range(h, Start(), Limit()), Due(h, Limit(), node, nextPos), key, value)
      ensures !ok ==> Range(h, Start(), Limit()) == {} == Due(h, Limit(), node, nextPos)
    {
      value := Nil;
      ghost var s, b := Start(), Limit();
      Position(h, root);
      DueIsRange(h, s, b, node, nextPos);
      ok := NextValue(h, root);
    }

    method Reset(begin: Key, fromInclusive: bool, end: Key, toInclusive: bool)
      modifies this
      ensures node == 0 && path == []
      ensures Start() == Begin(begin, fromInclusive, begin == OPEN_BOUNDARY && !old(endInclusive))
      ensures Limit() == Bound(end, toInclusive, end == OPEN_BOUNDARY && !toInclusive)
    {
      node, nextPos, key, value, path := 0, 0, [], Nil, [];
      beginKey, beginInclusive := begin, fromInclusive;
      beginOpen := begin == OPEN_BOUNDARY && !endInclusive;
      endKey, endInclusive := end, toInclusive;
      endOpen := end == OPEN_BOUNDARY && !endInclusive;
    }

    /** `scan`: starts a scan and delivers its first key. The begin key is recognised as open by the
        `endInclusive` left in the iterator by whatever used it before. */
    method Scan(tree: RadixTree, begin: Key, fromInclusive: bool, end: Key, toInclusive: bool) returns (ok: bool)
      requires tree.Valid() && 0 < |begin| <= MAX_KEY_LEN && 0 < |end| <= MAX_KEY_LEN
      modifies this
      ensures Valid(tree.heap, tree.root)
      ensures Start() == Begin(begin, fromInclusive, begin == OPEN_BOUNDARY && !old(endInclusive))
      ensures Limit() == Bound(end, toInclusive, end == OPEN_BOUNDARY && !toInclusive)
      ensures ok ==> Took(tree.heap, Asked(tree.heap, Start(), Limit()), Due(tree.heap, Limit(), node, nextPos), key, value)
      ensures !ok ==> Asked(tree.heap, Start(), Limit()) == {} == Due(tree.heap, Limit(), node, nextPos)
    {
      Reset(begin, fromInclusive, end, toInclusive);
      ok := false;
      if begin == end && fromInclusive && toInclusive {
        value := tree.Get(begin);
        if value.IsValid() {
          key, ok := begin, true;
        }
        PointTook(tree.heap, tree.root, begin);
      } else if beginOpen || endOpen || Less(beginKey, endKey) {
        ok := LowerBound(tree.heap, tree.root);
      }
    }
  }

  /** Both ends are the same key and belong to the range. */
  ghost predicate IsPoint(s: Begin, b: Bound) {
    s.begin == b.end && s.inclusive && b.inclusive
  }

  /** What a scan delivers in all, by the way it goes about it. */
  ghost function Asked(h: Heap, s: Begin, b: Bound): set<Gptr> {
    if IsPoint(s, b) then set x | x in h && h[x].value.IsValid() && h[x].key == s.begin
    else if s.open || b.open || Less(s.begin, b.end) then Range(h, s, b)
    else {}
  }

  lemma PointTook(h: Heap, root: Gptr, k: Key)
    requires WellFormed(h, root)
    ensures var due := set x | x in h && h[x].value.IsValid() && h[x].key == k;
      && (Cell(h, k).IsValid() ==> Took(h, due, {}, k, Cell(h, k)))
      && (!Cell(h, k).IsValid() ==> due == {})
  {
    var due := set x | x in h && h[x].value.IsValid() && h[x].key == k;
    if x :| x in due {
      CellIs(h, root, x);
      assert due == {x};
    }
  }


  /** One delivery: the least due node, with its key and value, and no other is taken off. */
  ghost predicate Took(h: Heap, due: set<Gptr>, due': set<Gptr>, key: Key, value: TagGptr) {
    exists x ::
      && x in due && x in h && due' == due - {x} && key == h[x].key && value == h[x].value
      && forall y | y in due' && y in h :: Less(key, h[y].key)
  }

  /** Passing the value of a node that is within the bound delivers it if it is live and nothing else. */
  lemma PassValue(h: Heap, root: Gptr, b: Bound, n: Gptr)
    requires WellFormed(h, root) && n in h && (b.open || Less(h[n].key, b.end))
    ensures !h[n].value.IsValid() ==> Due(h, b, n, 1) == Due(h, b, n, 0)
    ensures h[n].value.IsValid() ==> Took(h, Due(h, b, n, 0), Due(h, b, n, 1), h[n].key, h[n].value)
    ensures Pending(h, n, 1) < Pending(h, n, 0)
  {
    ValuePending(h, root, n);
    forall y | y in Pending(h, n, 1) ensures Less(h[n].key, h[y].key) {
      AheadIsAfter(h[n].key, 1, h[y].key);
    }
    if h[n].value.IsValid() {
      assert Due(h, b, n, 1) == Due(h, b, n, 0) - {n};
    }
  }

  lemma Below(h: Heap, root: Gptr, b: Bound, n: Gptr, pos: nat, path: seq<(Gptr, Byte)>)
    requires WellFormed(h, root) && n in h && !b.open && b.end < h[n].key
    requires Chain(h, root, path, n) && Inside(h, b, path)
    ensures Due(h, b, n, pos) == if pos == 0 && h[n].value.IsValid() then {n} else {}
  {
    var (m, idx) := path[|path| - 1];
    OverhangOnly(h, root, b, m, idx, n, pos);
  }

  /** `memcmp` of the common length. */
  method Compare(a: Key, b: Key) returns (c: int)
    ensures c == 0 <==> a <= b || b <= a
    ensures c < 0 ==> Less(a, b)
    ensures c > 0 ==> Less(b, a)
  {
    var i := 0;
    while i < |a| && i < |b|
      invariant i <= |a| && i <= |b| && a[..i] == b[..i]
    {
      if a[i] != b[i] {
        AgreeDiverges(a, b, i);
        AgreeDiverges(b, a, i);
        return if a[i] < b[i] then -1 else 1;
      }
      i := i + 1;
    }
    c := 0;
  }

  lemma PopPending(h: Heap, root: Gptr, m: Gptr, b: Byte)
    requires WellFormed(h, root) && m in h && b in h[m].child
    ensures Pending(h, h[m].child[b], 257) == Pending(h, m, b as int + 2)
  {
    assert ChildFits(h, m, b);
    forall x | x in h
      ensures Ahead(h[h[m].child[b]].key, 257, h[x].key) <==> Ahead(h[m].key, b as int + 2, h[x].key)
    {
      PopSkipsNothing(h, root, m, b, x);
    }
  }

  lemma DownPending(h: Heap, root: Gptr, n: Gptr, b: Byte)
    requires WellFormed(h, root) && n in h && b in h[n].child
    ensures h[n].child[b] in h && Pending(h, n, b as int + 1) == Pending(h, h[n].child[b], 0)
  {
    assert ChildFits(h, n, b);
    forall x | x in h
      ensures Ahead(h[n].key, b as int + 1, h[x].key) <==> Ahead(h[h[n].child[b]].key, 0, h[x].key)
    {
      DownSkipsNothing(h, root, n, b, x);
    }
  }

  lemma EmptyPending(h: Heap, root: Gptr, n: Gptr, b: Byte)
    requires WellFormed(h, root) && n in h && b !in h[n].child
    ensures Pending(h, n, b as int + 1) == Pending(h, n, b as int + 2)
  {
    forall x | x in h
      ensures Ahead(h[n].key, b as int + 1, h[x].key) <==> Ahead(h[n].key, b as int + 2, h[x].key)
    {
      EmptySkipsNothing(h, root, n, b, x);
    }
  }

  /** Passing a node's own value takes exactly that node off. */
  lemma ValuePending(h: Heap, root: Gptr, n: Gptr)
    requires WellFormed(h, root) && n in h
    ensures Pending(h, n, 1) == Pending(h, n, 0) - {n} && n in Pending(h, n, 0)
  {}

  /* ---- when nothing more is due ---- */

  lemma AfterExtends(e: Key, k: Key, x: Key)
    requires e <= x && (x == k || Less(k, x)) && Less(e, k)
    ensures e <= k
  {
    // if k left e, it did so upwards, and then x, an extension of e, would be below k
    if !(e <= k) {
      AgreeExtended(e, x, k);
      LessTotal(k, x);
    }
  }

  /** The node differs from the end key and is beyond it. */
  lemma NothingAbove(h: Heap, root: Gptr, b: Bound, n: Gptr, pos: nat)
    requires WellFormed(h, root) && n in h && !b.open && Less(b.end, h[n].key) && !(b.end <= h[n].key)
    ensures Due(h, b, n, pos) == {}
  {
    forall x | x in Pending(h, n, pos) ensures !Delivered(h, b, x) {
      AheadIsAfter(h[n].key, pos, h[x].key);
      if h[x].key != h[n].key { LessTrans(b.end, h[n].key, h[x].key); }
      LessTotal(b.end, h[x].key);
      if b.end < h[x].key { AfterExtends(b.end, h[n].key, h[x].key); }
    }
  }

  /** The node is the end key's own: at most its value is due. */
  lemma OnlyItself(h: Heap, root: Gptr, b: Bound, n: Gptr, pos: nat)
    requires WellFormed(h, root) && n in h && !b.open && h[n].key == b.end
    ensures Due(h, b, n, pos) == if pos == 0 && b.inclusive && h[n].value.IsValid() then {n} else {}
  {
    forall x | x in Pending(h, n, pos) && x != n ensures !Delivered(h, b, x) {
      AheadIsAfter(h[n].key, pos, h[x].key);
      LessTotal(b.end, h[x].key);
    }
    LessTotal(b.end, b.end);
  }

  /** The node is on the way to the end key and the slot towards it has been passed. */
  lemma NothingPast(h: Heap, root: Gptr, b: Bound, n: Gptr, pos: nat)
    requires WellFormed(h, root) && n in h && !b.open && h[n].key < b.end
    requires pos > b.end[|h[n].key|] as int + 1
    ensures Due(h, b, n, pos) == {}
  {
    var kn := h[n].key;
    forall x | x in Pending(h, n, pos) ensures !Delivered(h, b, x) {
      var k := h[x].key;
      if kn <= k {
        AgreeDiverges(b.end, k, |kn|);
      } else {
        AgreeExtended(kn, b.end, k);
      }
      LessTotal(b.end, k);
    }
  }

  /** The node lies below the end key, its parent does not: it is the overhang, and nothing follows it. */
  lemma OverhangOnly(h: Heap, root: Gptr, b: Bound, m: Gptr, idx: Byte, n: Gptr, pos: nat)
    requires WellFormed(h, root) && n in h && !b.open && b.end < h[n].key
    requires m in h && idx in h[m].child && h[m].child[idx] == n && !(b.end <= h[m].key)
    ensures Overhang(h, b, n)
    ensures Due(h, b, n, pos) == if pos == 0 && h[n].value.IsValid() then {n} else {}
  {
    assert ChildFits(h, m, idx);
    PrefixesCompare(h[m].key, b.end, h[n].key);
    forall y | y in h && b.end <= h[y].key ensures h[n].key <= h[y].key {
      assert Leads(h, m, y);
    }
    forall x | x in Pending(h, n, pos) && x != n ensures !Delivered(h, b, x) {
      AheadIsAfter(h[n].key, pos, h[x].key);
      PrefixLess(b.end, h[n].key);
      LessTrans(b.end, h[n].key, h[x].key);
      LessTotal(b.end, h[x].key);
    }
  }

  /* ---- where a scan starts ---- */

  lemma KeepsInside(b: Bound, begin: Key, k: Key)
    requires b.open || Less(begin, b.end)
    requires k <= begin
    ensures b.open || !(b.end <= k)
  {
    if !b.open && b.end <= k { PrefixLess(b.end, begin); }
  }

  lemma Outside(p: Key, a: Key, b: Key, k: Key)
    requires p <= a && p <= b && !(p <= k)
    ensures Less(a, k) == Less(b, k) && k != a && k != b
  {
    AgreeExtended(p, a, k);
    AgreeExtended(p, b, k);
  }

  lemma StartOpen(h: Heap, root: Gptr, s: Begin)
    requires WellFormed(h, root) && s.open
    ensures Pending(h, root, 0) == After(h, s)
  {
    assert forall x | x in h :: Ahead([], 0, h[x].key);
  }

  lemma DueIsRange(h: Heap, s: Begin, b: Bound, node: Gptr, pos: nat)
    requires Pending(h, node, pos) == After(h, s)
    ensures Due(h, b, node, pos) == Range(h, s, b)
  {}

  lemma StartAtNode(h: Heap, root: Gptr, s: Begin, n: Gptr)
    requires WellFormed(h, root) && n in h && !s.open && h[n].key == s.begin
    ensures Pending(h, n, if s.inclusive then 0 else 1) == After(h, s)
  {
    forall x | x in h ensures Ahead(s.begin, if s.inclusive then 0 else 1, h[x].key) <==> From(s, h[x].key) {
      if s.begin <= h[x].key { PrefixLess(s.begin, h[x].key); }
      LessTotal(s.begin, s.begin);
    }
  }

  lemma StartAtSlot(h: Heap, root: Gptr, s: Begin, n: Gptr)
    requires WellFormed(h, root) && n in h && !s.open && h[n].key < s.begin
    requires s.begin[|h[n].key|] !in h[n].child
    ensures Pending(h, n, s.begin[|h[n].key|] as int + 1) == After(h, s)
  {
    var kn, b := h[n].key, s.begin[|h[n].key|];
    forall x | x in h ensures Ahead(kn, b as int + 1, h[x].key) <==> From(s, h[x].key) {
      var k := h[x].key;
      if kn < k {
        assert Leads(h, n, x);
        AgreeDiverges(s.begin, k, |kn|);
      } else if kn == k {
        PrefixLess(kn, s.begin);
      } else {
        AgreeExtended(kn, s.begin, k);
      }
    }
  }

  /** The node in the slot of `m` towards the begin key is not a prefix of it. */
  lemma StartBeside(h: Heap, root: Gptr, s: Begin, m: Gptr, n: Gptr)
    requires WellFormed(h, root) && n in h && !s.open && !(h[n].key <= s.begin)
    requires m in h && h[m].key < s.begin && Slot(h, m, s.begin) == n
    ensures Less(h[n].key, s.begin) ==> Pending(h, n, 257) == After(h, s)
    ensures Less(s.begin, h[n].key) ==> Pending(h, n, 0) == After(h, s)
  {
    SlotDecides(h, root, m, s.begin);
    var km, kn := h[m].key, h[n].key;
    var p := s.begin[..|km| + 1];
    forall x | x in h
      ensures Less(kn, s.begin) ==> (Ahead(kn, 257, h[x].key) <==> From(s, h[x].key))
      ensures Less(s.begin, kn) ==> (Ahead(kn, 0, h[x].key) <==> From(s, h[x].key))
    {
      var k := h[x].key;
      if p <= k {
        assert km < k && k[|km|] == p[|km|];
        assert Leads(h, m, x);
        AgreeExtended(kn, k, s.begin);
        LessTotal(s.begin, k);
        LessTotal(s.begin, kn);
      } else {
        Outside(p, kn, s.begin, k);
      }
    }
  }

  /* ---- whole scans ---- */

  /** `out` lists the nodes `nodes`, in strictly increasing key order, and `left` comes after all of them. */
  ghost predicate Lists(h: Heap, out: seq<(Key, TagGptr)>, nodes: seq<Gptr>, left: set<Gptr>) {
    && |nodes| == |out|
    && (forall i | 0 <= i < |out| :: nodes[i] in h && out[i] == (h[nodes[i]].key, h[nodes[i]].value))
    && (forall i, j | 0 <= i < j < |out| :: Less(out[i].0, out[j].0))
    && (forall i, y | 0 <= i < |out| && y in left && y in h :: Less(out[i].0, h[y].key))
  }

  ghost function Of(nodes: seq<Gptr>): set<Gptr> { set x | x in nodes }

  lemma ListMore(h: Heap, out: seq<(Key, TagGptr)>, nodes: seq<Gptr>, due: set<Gptr>, due': set<Gptr>, k: Key, v: TagGptr)
      returns (nodes': seq<Gptr>)
    requires Lists(h, out, nodes, due) && Took(h, due, due', k, v)
    ensures Lists(h, out + [(k, v)], nodes', due')
    ensures Of(nodes') + due' == Of(nodes) + due
  {
    var x :| x in due && x in h && due' == due - {x} && k == h[x].key && v == h[x].value
      && forall y | y in due' && y in h :: Less(k, h[y].key);
    nodes' := nodes + [x];
    assert Of(nodes') == Of(nodes) + {x};
  }

  ghost predicate IsOf(h: Heap, asked: set<Gptr>, e: (Key, TagGptr)) {
    exists x :: x in asked && x in h && e == (h[x].key, h[x].value)
  }

  /** `out` is the keys and cells of the nodes `asked`, each once, in strictly increasing key order. */
  ghost predicate Delivers(h: Heap, out: seq<(Key, TagGptr)>, asked: set<Gptr>) {
    && (forall i, j | 0 <= i < j < |out| :: Less(out[i].0, out[j].0))
    && (forall i | 0 <= i < |out| :: IsOf(h, asked, out[i]))
    && (forall x | x in asked && x in h :: (h[x].key, h[x].value) in out)
  }

  lemma ListsDelivers(h: Heap, out: seq<(Key, TagGptr)>, nodes: seq<Gptr>, asked: set<Gptr>)
    requires Lists(h, out, nodes, {}) && Of(nodes) == asked
    ensures Delivers(h, out, asked)
  {
    forall i | 0 <= i < |out|
      ensures IsOf(h, asked, out[i])
    {
      assert nodes[i] in asked && nodes[i] in h;
    }
    forall x | x in asked && x in h
      ensures (h[x].key, h[x].value) in out
    {
      assert x in nodes;
      var i :| 0 <= i < |nodes| && nodes[i] == x;
      assert out[i] == (h[x].key, h[x].value);
    }
  }

  /** A scan followed by `get_next` until it fails: every asked node once, in strictly increasing key
      order, with the values the tree holds. */
  method ScanAll(tree: RadixTree, begin: Key, fromInclusive: bool, end: Key, toInclusive: bool)
      returns (out: seq<(Key, TagGptr)>)
    requires tree.Valid() && 0 < |begin| <= MAX_KEY_LEN && 0 < |end| <= MAX_KEY_LEN
    ensures Delivers(tree.heap, out, Asked(tree.heap, Begin(begin, fromInclusive, begin == OPEN_BOUNDARY),
                                           Bound(end, toInclusive, end == OPEN_BOUNDARY && !toInclusive)))
  {
    ghost var nodes;
    out, nodes := ListAll(tree, begin, fromInclusive, end, toInclusive);
    ListsDelivers(tree.heap, out, nodes, Of(nodes));
  }

  /** The same, with the nodes it comes by. */
  method ListAll(tree: RadixTree, begin: Key, fromInclusive: bool, end: Key, toInclusive: bool)
      returns (out: seq<(Key, TagGptr)>, ghost nodes: seq<Gptr>)
    requires tree.Valid() && 0 < |begin| <= MAX_KEY_LEN && 0 < |end| <= MAX_KEY_LEN
    ensures Lists(tree.heap, out, nodes, {})
    ensures Of(nodes) ==
      Asked(tree.heap, Begin(begin, fromInclusive, begin == OPEN_BOUNDARY),
            Bound(end, toInclusive, end == OPEN_BOUNDARY && !toInclusive))
  {
    var h := tree.heap;
    var it := new Iter();
    var ok := it.Scan(tree, begin, fromInclusive, end, toInclusive);
    ghost var l, asked := it.Limit(), Asked(h, it.Start(), it.Limit());
    out, nodes := [], [];
    if ok {
      nodes := ListMore(h, out, nodes, asked, Due(h, l, it.node, it.nextPos), it.key, it.value);
      out := [(it.key, it.value)];
      out, nodes := ListRest(it, h, tree.root, out, nodes);
    }
  }

  /** The calls of get_next that follow a successful scan, up to the one that fails. */
  method ListRest(it: Iter, h: Heap, root: Gptr, first: seq<(Key, TagGptr)>, ghost begun: seq<Gptr>)
      returns (out: seq<(Key, TagGptr)>, ghost nodes: seq<Gptr>)
    requires WellFormed(h, root) && it.Valid(h, root) && Lists(h, first, begun, Due(h, it.Limit(), it.node, it.nextPos))
    modifies it`node, it`nextPos, it`path, it`key, it`value
    ensures Lists(h, out, nodes, {})
    ensures Of(nodes) == Of(begun) + old(Due(h, it.Limit(), it.node, it.nextPos))
  {
    out, nodes := first, begun;
    ghost var l := it.Limit();
    var ok := true;
    while ok
      invariant it.Valid(h, root) && it.Limit() == l
      invariant Lists(h, out, nodes, Due(h, l, it.node, it.nextPos))
      invariant Of(nodes) + Due(h, l, it.node, it.nextPos) == Of(begun) + old(Due(h, it.Limit(), it.node, it.nextPos))
      invariant !ok ==> Due(h, l, it.node, it.nextPos) == {}
      decreases Due(h, l, it.node, it.nextPos), ok
    {
      ghost var due := Due(h, l, it.node, it.nextPos);
      ok := it.NextValue(h, root);
      if ok {
        nodes := ListMore(h, out, nodes, due, Due(h, l, it.node, it.nextPos), it.key, it.value);
        out := out + [(it.key, it.value)];
      }
    }
  }

  /** What a range query is documented to deliver. */
  ghost function InRange(h: Heap, s: Begin, b: Bound): set<Gptr> {
    set x | x in h && h[x].value.IsValid() && From(s, h[x].key) && Within(b, h[x].key)
  }

  /** A live key hangs below the end key of a range that is walked. */
  ghost predicate HangsOver(h: Heap, s: Begin, b: Bound) {
    !IsPoint(s, b) && (s.open || Less(s.begin, b.end)) && exists x :: x in h && Overhang(h, b, x) && h[x].value.IsValid()
  }

  /** The exact condition: a scan delivers the documented range if and only if no live key hangs over its
      end, that is, unless the end key has no node and the node nearest below it is live. */
  lemma ScanExact(h: Heap, root: Gptr, s: Begin, b: Bound)
    requires WellFormed(h, root) && s.begin != []
    requires (s.open ==> s.begin == OPEN_BOUNDARY) && (b.open ==> !b.inclusive)
    ensures Asked(h, s, b) == InRange(h, s, b) <==> !HangsOver(h, s, b)
  {
    if IsPoint(s, b) {
      forall x | x in h && h[x].value.IsValid()
        ensures h[x].key == s.begin <==> From(s, h[x].key) && Within(b, h[x].key)
      {
        PointRange(h, root, s, b, x);
      }
    } else if s.open || b.open || Less(s.begin, b.end) {
      forall x | x in h && Overhang(h, b, x) ensures !Within(b, h[x].key) && From(s, h[x].key) {
        PrefixLess(b.end, h[x].key);
        if !s.open { LessTrans(s.begin, b.end, h[x].key); }
      }
      if HangsOver(h, s, b) {
        var x :| x in h && Overhang(h, b, x) && h[x].value.IsValid();
        assert x in Range(h, s, b) && x !in InRange(h, s, b);
      } else {
        assert Range(h, s, b) == InRange(h, s, b);
      }
    } else {
      forall x | x in h && From(s, h[x].key) ensures !Within(b, h[x].key) {
        EmptyRange(s, b, h[x].key);
      }
    }
  }

  lemma PointRange(h: Heap, root: Gptr, s: Begin, b: Bound, x: Gptr)
    requires WellFormed(h, root) && IsPoint(s, b) && s.begin != [] && (s.open ==> s.begin == OPEN_BOUNDARY) && !b.open
    requires x in h && h[x].value.IsValid()
    ensures h[x].key == s.begin <==> From(s, h[x].key) && Within(b, h[x].key)
  {
    LessTotal(h[x].key, s.begin);
    assert h[x].key == [] ==> x == root;
  }

  lemma EmptyRange(s: Begin, b: Bound, k: Key)
    requires !s.open && !b.open && !Less(s.begin, b.end) && !IsPoint(s, b) && From(s, k)
    ensures !Within(b, k)
  {
    LessTotal(s.begin, b.end);
    if Less(k, b.end) && Less(s.begin, k) { LessTrans(s.begin, k, b.end); }
    LessTotal(k, b.end);
  }

  /** It happens: in a tree holding only [1, 2], the scan from [0, 5] to [1] delivers [1, 2]. */
  lemma OverhangHappens() returns (h: Heap, s: Begin, b: Bound)
    ensures h.Keys == {1, 2} && h[2].key == [1, 2] && WellFormed(h, 1)
    ensures s == Begin([0, 5], true, false) && b == Bound([1], true, false)
    ensures 2 in Asked(h, s, b) && 2 !in InRange(h, s, b) && Less(b.end, h[2].key)
  {
    h := map[1 := Node([], map[1 := 2], Nil), 2 := Node([1, 2], map[], TagGptr(9, 0))];
    s, b := Begin([0, 5], true, false), Bound([1], true, false);
    forall p, x | p in h && x in h ensures Leads(h, p, x) {}
    assert WellFormed(h, 1);
    AgreeDiverges([0, 5], [1], 0);
    AgreeDiverges([0, 5], [1, 2], 0);
    PrefixLess([1], [1, 2]);
    assert Overhang(h, b, 2);
  }
}
