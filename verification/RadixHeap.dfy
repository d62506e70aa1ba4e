/** The radix tree as a value: the published nodes of the shared heap, what makes them a tree, and the
    three ways a node is changed or added (src/radix_tree.cc). */
module RadixHeap {
  import opened Common

  /** A published node: its full key prefix, its non-null child slots and its value cell. */
  datatype Node = Node(key: Key, child: map<Byte, Gptr>, value: TagGptr)

  type Heap = map<Gptr, Node>

  const MAX_KEY_LEN: nat := 128

  /** The child in slot `b` carries a key that extends the parent's key and `b`. */
  ghost predicate ChildFits(h: Heap, p: Gptr, b: Byte)
    requires p in h && b in h[p].child
  {
    var c := h[p].child[b];
    c in h && h[p].key < h[c].key && h[c].key[|h[p].key|] == b
  }

  /** From `p` the slot towards `x` is taken, and what is in it is still on the way to `x`. */
  ghost predicate Leads(h: Heap, p: Gptr, x: Gptr)
    requires p in h && x in h
  {
    h[p].key < h[x].key ==>
      var b := h[x].key[|h[p].key|];
      b in h[p].child && h[p].child[b] in h && h[h[p].child[b]].key <= h[x].key
  }

  /** Every filled slot fits its child. */
  ghost predicate Fitted(h: Heap) {
    forall p, b {:trigger ChildFits(h, p, b)} | p in h && b in h[p].child :: ChildFits(h, p, b)
  }

  /** No two nodes carry the same key. */
  ghost predicate Distinct(h: Heap) {
    forall p, x | p in h && x in h && h[p].key == h[x].key :: p == x
  }

  /** Every node is found from each of its prefixes by following slots. */
  ghost predicate Guided(h: Heap) {
    forall p, x {:trigger Leads(h, p, x)} | p in h && x in h :: Leads(h, p, x)
  }

  ghost predicate Short(h: Heap) {
    forall p | p in h :: |h[p].key| <= MAX_KEY_LEN
  }

  ghost predicate WellFormed(h: Heap, root: Gptr) {
    && 0 !in h && Short(h)
    && root in h && h[root].key == [] && h[root].value == Nil
    && Fitted(h) && Distinct(h) && Guided(h)
  }

  /** The node that carries key `k`, or null. */
  ghost function NodeOf(h: Heap, k: Key): (p: Gptr)
    ensures p == 0 ==> 0 in h || forall x | x in h :: h[x].key != k
    ensures p != 0 ==> p in h && h[p].key == k
  {
    if exists x :: x in h && h[x].key == k then
      var x :| x in h && h[x].key == k; x
    else 0
  }

  /** The value cell of key `k`; a key without a node reads as the null cell. */
  ghost function Cell(h: Heap, k: Key): TagGptr {
    var p := NodeOf(h, k);
    if p == 0 || p !in h then Nil else h[p].value
  }

  lemma CellIs(h: Heap, root: Gptr, p: Gptr)
    requires WellFormed(h, root) && p in h
    ensures NodeOf(h, h[p].key) == p
    ensures Cell(h, h[p].key) == h[p].value
  {}

  /** A slot keeps its child or has swung to a node nearer to the parent. */
  ghost predicate SlotKept(h: Heap, h': Heap, c: Gptr, c': Gptr) {
    c' == c || (c in h && c' in h' && h'[c'].key < h[c].key)
  }

  ghost predicate NodeKept(h: Heap, h': Heap, p: Gptr)
    requires p in h
  {
    && p in h' && h'[p].key == h[p].key
    && (h'[p].value == h[p].value || h'[p].value.tag > h[p].value.tag)
    && forall b | b in h[p].child :: b in h'[p].child && SlotKept(h, h', h[p].child[b], h'[p].child[b])
  }

  /** What a tree never gives up: its nodes and their keys, the order of their tags, and the direction in
      which its slots move. */
  ghost predicate Grown(h: Heap, h': Heap) {
    forall p {:trigger NodeKept(h, h', p)} | p in h :: NodeKept(h, h', p)
  }

  /** The tree became `h'` and the cell of `k`, alone, became `v`. */
  ghost predicate Wrote(h: Heap, h': Heap, root: Gptr, k: Key, v: TagGptr) {
    && WellFormed(h', root) && Grown(h, h')
    && forall k' :: Cell(h', k') == if k' == k then v else Cell(h, k')
  }

  lemma GrownTwice(h: Heap, h1: Heap, h2: Heap)
    requires Fitted(h) && Grown(h, h1) && Grown(h1, h2)
    ensures Grown(h, h2)
  {
    forall p | p in h ensures NodeKept(h, h2, p) {
      assert NodeKept(h, h1, p) && NodeKept(h1, h2, p);
      forall b | b in h[p].child ensures SlotKept(h, h2, h[p].child[b], h2[p].child[b]) {
        var c, c1, c2 := h[p].child[b], h1[p].child[b], h2[p].child[b];
        assert SlotKept(h, h1, c, c1) && SlotKept(h1, h2, c1, c2);
        assert ChildFits(h, p, b) && NodeKept(h, h1, c) && NodeKept(h1, h2, c1);
      }
    }
  }

  lemma WroteTwice(h: Heap, h1: Heap, h2: Heap, root: Gptr, pre: Key, k: Key, v: TagGptr)
    requires Fitted(h) && pre != k && Cell(h, pre) == Nil
    requires Wrote(h, h1, root, pre, Nil) && Wrote(h1, h2, root, k, v)
    ensures Wrote(h, h2, root, k, v)
  {
    GrownTwice(h, h1, h2);
  }

  /* ---- the three changes ---- */

  function WithValue(h: Heap, p: Gptr, v: TagGptr): Heap
    requires p in h
  {
    h[p := h[p].(value := v)]
  }

  function WithChild(h: Heap, p: Gptr, b: Byte, c: Gptr): Heap
    requires p in h
  {
    h[p := h[p].(child := h[p].child[b := c])]
  }

  /** A new leaf for `k` in the empty slot of `p`. */
  function WithLeaf(h: Heap, p: Gptr, leaf: Gptr, k: Key, v: TagGptr): Heap
    requires p in h && h[p].key < k
  {
    WithChild(h, p, k[|h[p].key|], leaf)[leaf := Node(k, map[], v)]
  }

  /** A new node for `pre` between `p` and its child `q`. */
  function WithMiddle(h: Heap, p: Gptr, q: Gptr, mid: Gptr, pre: Key, v: TagGptr): Heap
    requires p in h && q in h && h[p].key < pre < h[q].key
  {
    WithChild(h, p, pre[|h[p].key|], mid)[mid := Node(pre, map[h[q].key[|pre|] := q], v)]
  }

  lemma PrefixesCompare(a: Key, b: Key, k: Key)
    requires a <= k && b <= k
    ensures a < b || b < a || a == b
  {
    if |a| == |b| {
      assert a == k[..|a|] == b;
    }
  }

  lemma WithValueWellFormed(h: Heap, root: Gptr, p: Gptr, v: TagGptr)
    requires WellFormed(h, root) && p in h && h[p].key != []
    ensures WellFormed(WithValue(h, p, v), root)
  {
    var h' := WithValue(h, p, v);
    assert forall x | x in h :: h'[x].key == h[x].key && h'[x].child == h[x].child;
    forall x, b | x in h' && b in h'[x].child ensures ChildFits(h', x, b) {
      assert ChildFits(h, x, b);
    }
    forall x, y | x in h' && y in h' ensures Leads(h', x, y) {
      assert Leads(h, x, y);
    }
  }

  lemma WithValueKeeps(h: Heap, root: Gptr, p: Gptr, v: TagGptr)
    requires WellFormed(h, root) && p in h && h[p].key != [] && v.tag > h[p].value.tag
    ensures Wrote(h, WithValue(h, p, v), root, h[p].key, v)
    ensures forall k :: NodeOf(WithValue(h, p, v), k) == NodeOf(h, k)
  {
    var h' := WithValue(h, p, v);
    WithValueWellFormed(h, root, p, v);
    forall k ensures NodeOf(h', k) == NodeOf(h, k) {
      if x :| x in h && h[x].key == k {
        CellIs(h, root, x);
        CellIs(h', root, x);
      }
    }
  }

  /** Nothing lies beyond an empty slot. */
  lemma EmptySlot(h: Heap, root: Gptr, p: Gptr, k: Key)
    requires WellFormed(h, root) && p in h && h[p].key < k
    requires k[|h[p].key|] !in h[p].child
    ensures forall x | x in h && h[p].key < h[x].key :: h[x].key[|h[p].key|] != k[|h[p].key|]
    ensures NodeOf(h, k) == 0
  {
    forall x | x in h && h[p].key < h[x].key ensures h[x].key[|h[p].key|] != k[|h[p].key|] {
      assert Leads(h, p, x);
    }
  }

  lemma LeafLeads(h: Heap, p: Gptr, leaf: Gptr, k: Key, v: TagGptr, x: Gptr, y: Gptr)
    requires Guided(h) && Distinct(h) && p in h && h[p].key < k
    requires k[|h[p].key|] !in h[p].child
    requires leaf !in h
    requires x in WithLeaf(h, p, leaf, k, v) && y in WithLeaf(h, p, leaf, k, v)
    ensures Leads(WithLeaf(h, p, leaf, k, v), x, y)
  {
    if x == leaf {
      if y != leaf { assert Leads(h, p, y); }
    } else if y == leaf {
      if h[x].key < k {
        PrefixesCompare(h[x].key, h[p].key, k);
        assert Leads(h, x, p) && Leads(h, p, x);
      }
    } else {
      assert Leads(h, x, y);
      if x == p { assert Leads(h, p, y); }
    }
  }

  lemma LeafFits(h: Heap, root: Gptr, p: Gptr, leaf: Gptr, k: Key, v: TagGptr)
    requires WellFormed(h, root) && p in h && h[p].key < k
    requires k[|h[p].key|] !in h[p].child
    requires leaf !in h
    ensures Fitted(WithLeaf(h, p, leaf, k, v)) && Distinct(WithLeaf(h, p, leaf, k, v))
  {
    var h' := WithLeaf(h, p, leaf, k, v);
    EmptySlot(h, root, p, k);
    forall x, b | x in h' && b in h'[x].child ensures ChildFits(h', x, b) {
      if x != leaf && !(x == p && b == k[|h[p].key|]) {
        assert ChildFits(h, x, b);
      }
    }
  }

  lemma LeafWellFormed(h: Heap, root: Gptr, p: Gptr, leaf: Gptr, k: Key, v: TagGptr)
    requires WellFormed(h, root) && p in h && h[p].key < k && |k| <= MAX_KEY_LEN
    requires k[|h[p].key|] !in h[p].child
    requires leaf != 0 && leaf !in h
    ensures WellFormed(WithLeaf(h, p, leaf, k, v), root)
  {
    var h' := WithLeaf(h, p, leaf, k, v);
    LeafFits(h, root, p, leaf, k, v);
    forall x, y | x in h' && y in h' ensures Leads(h', x, y) {
      LeafLeads(h, p, leaf, k, v, x, y);
    }
  }

  lemma WithLeafKeeps(h: Heap, root: Gptr, p: Gptr, leaf: Gptr, k: Key, v: TagGptr)
    requires WellFormed(h, root) && p in h && h[p].key < k && |k| <= MAX_KEY_LEN
    requires k[|h[p].key|] !in h[p].child
    requires leaf != 0 && leaf !in h
    ensures Wrote(h, WithLeaf(h, p, leaf, k, v), root, k, v)
    ensures forall k' :: NodeOf(WithLeaf(h, p, leaf, k, v), k') == if k' == k then leaf else NodeOf(h, k')
  {
    var h' := WithLeaf(h, p, leaf, k, v);
    LeafWellFormed(h, root, p, leaf, k, v);
    OnlyNew(h, h', root, leaf);
  }

  lemma MiddleLeads(h: Heap, p: Gptr, q: Gptr, mid: Gptr, pre: Key, v: TagGptr, x: Gptr, y: Gptr)
    requires Guided(h) && Distinct(h) && p in h && q in h && h[p].key < pre < h[q].key
    requires pre[|h[p].key|] in h[p].child && h[p].child[pre[|h[p].key|]] == q
    requires mid !in h
    requires x in WithMiddle(h, p, q, mid, pre, v) && y in WithMiddle(h, p, q, mid, pre, v)
    ensures Leads(WithMiddle(h, p, q, mid, pre, v), x, y)
  {
    if x == mid {
      if y != mid && pre < h[y].key { assert Leads(h, p, y); }
    } else if y == mid {
      if h[x].key < pre {
        PrefixesCompare(h[x].key, h[p].key, pre);
        assert Leads(h, x, p) && Leads(h, p, x);
      }
    } else {
      assert Leads(h, x, y);
    }
  }

  /** No node carries a key strictly between a parent and its child. */
  lemma MiddleAbsent(h: Heap, p: Gptr, q: Gptr, pre: Key)
    requires Guided(h) && p in h && q in h && h[p].key < pre < h[q].key
    requires pre[|h[p].key|] in h[p].child && h[p].child[pre[|h[p].key|]] == q
    ensures forall x | x in h :: h[x].key != pre
  {
    forall x | x in h ensures h[x].key != pre {
      assert Leads(h, p, x);
    }
  }

  lemma MiddleFits(h: Heap, p: Gptr, q: Gptr, mid: Gptr, pre: Key, v: TagGptr)
    requires Fitted(h) && p in h && q in h && h[p].key < pre < h[q].key
    requires mid !in h
    ensures Fitted(WithMiddle(h, p, q, mid, pre, v))
  {
    var h' := WithMiddle(h, p, q, mid, pre, v);
    forall x, b | x in h' && b in h'[x].child ensures ChildFits(h', x, b) {
      if x != mid && !(x == p && b == pre[|h[p].key|]) {
        assert ChildFits(h, x, b);
      }
    }
  }

  lemma MiddleDistinct(h: Heap, p: Gptr, q: Gptr, mid: Gptr, pre: Key, v: TagGptr)
    requires Distinct(h) && p in h && q in h && h[p].key < pre < h[q].key
    requires mid !in h && forall x | x in h :: h[x].key != pre
    ensures Distinct(WithMiddle(h, p, q, mid, pre, v))
  {}

  lemma MiddleWellFormed(h: Heap, root: Gptr, p: Gptr, q: Gptr, mid: Gptr, pre: Key, v: TagGptr)
    requires WellFormed(h, root) && p in h && q in h && h[p].key < pre < h[q].key
    requires pre[|h[p].key|] in h[p].child && h[p].child[pre[|h[p].key|]] == q
    requires mid != 0 && mid !in h
    ensures WellFormed(WithMiddle(h, p, q, mid, pre, v), root)
  {
    var h' := WithMiddle(h, p, q, mid, pre, v);
    MiddleFits(h, p, q, mid, pre, v);
    assert Distinct(h') by {
      MiddleAbsent(h, p, q, pre);
      MiddleDistinct(h, p, q, mid, pre, v);
    }
    forall x, y | x in h' && y in h' ensures Leads(h', x, y) {
      MiddleLeads(h, p, q, mid, pre, v, x, y);
    }
  }

  lemma WithMiddleKeeps(h: Heap, root: Gptr, p: Gptr, q: Gptr, mid: Gptr, pre: Key, v: TagGptr)
    requires WellFormed(h, root) && p in h && q in h && h[p].key < pre < h[q].key
    requires pre[|h[p].key|] in h[p].child && h[p].child[pre[|h[p].key|]] == q
    requires mid != 0 && mid !in h
    ensures Wrote(h, WithMiddle(h, p, q, mid, pre, v), root, pre, v)
    ensures NodeOf(h, pre) == 0
    ensures forall k :: NodeOf(WithMiddle(h, p, q, mid, pre, v), k) == if k == pre then mid else NodeOf(h, k)
  {
    MiddleWellFormed(h, root, p, q, mid, pre, v);
    OnlyNew(h, WithMiddle(h, p, q, mid, pre, v), root, mid);
    assert NodeOf(h, pre) == 0 by { MiddleAbsent(h, p, q, pre); }
  }

  /** A heap that differs from `h` in slots and in one new node has the cells of `h` and the new one. */
  lemma OnlyNew(h: Heap, h': Heap, root: Gptr, n: Gptr)
    requires WellFormed(h, root) && WellFormed(h', root)
    requires n !in h && h'.Keys == h.Keys + {n}
    requires forall x | x in h :: h'[x].key == h[x].key && h'[x].value == h[x].value
    ensures forall k :: Cell(h', k) == if k == h'[n].key then h'[n].value else Cell(h, k)
    ensures forall k :: NodeOf(h', k) == if k == h'[n].key then n else NodeOf(h, k)
  {
    CellIs(h', root, n);
    forall k | k != h'[n].key ensures NodeOf(h', k) == NodeOf(h, k) {
      if x :| x in h && h[x].key == k {
        CellIs(h, root, x);
        CellIs(h', root, x);
      }
    }
  }

  /* ---- reading ---- */

  /** The child of `p` in the slot towards `k`, null if that slot is empty. */
  function Slot(h: Heap, p: Gptr, k: Key): Gptr
    requires p in h && |h[p].key| < |k|
  {
    var b := k[|h[p].key|];
    if b in h[p].child then h[p].child[b] else 0
  }

  /** What sits in the slot towards `k` decides: it is null or a longer prefix on that way, and `k` has a
      node only if that child's key is a prefix of `k`. */
  lemma SlotDecides(h: Heap, root: Gptr, p: Gptr, k: Key)
    requires WellFormed(h, root) && p in h && h[p].key < k
    ensures Slot(h, p, k) != 0 ==>
      Slot(h, p, k) in h && h[p].key < h[Slot(h, p, k)].key
      && h[Slot(h, p, k)].key[|h[p].key|] == k[|h[p].key|]
    ensures Slot(h, p, k) == 0 ==> k[|h[p].key|] !in h[p].child
    ensures NodeOf(h, k) != 0 ==> Slot(h, p, k) != 0 && h[Slot(h, p, k)].key <= k
  {
    var b := k[|h[p].key|];
    var n := NodeOf(h, k);
    if b in h[p].child { assert ChildFits(h, p, b); }
    if n != 0 { assert Leads(h, p, n); }
  }

  /** From a node the slot towards another one leads on to it. */
  lemma Toward(h: Heap, root: Gptr, p: Gptr, x: Gptr)
    requires WellFormed(h, root) && p in h && x in h && h[p].key < h[x].key
    ensures Slot(h, p, h[x].key) in h && h[p].key < h[Slot(h, p, h[x].key)].key <= h[x].key
  {
    assert Leads(h, p, x);
    assert ChildFits(h, p, h[x].key[|h[p].key|]);
  }

  /** The live part of a tree: the keys with a non-null value pointer. */
  ghost function Live(h: Heap): map<Key, Gptr> {
    map k | k in (set p | p in h :: h[p].key) && Cell(h, k).IsValid() :: Cell(h, k).ptr
  }

  lemma LiveIs(h: Heap, k: Key)
    ensures k in Live(h) <==> Cell(h, k).IsValid()
    ensures k in Live(h) ==> Live(h)[k] == Cell(h, k).ptr
  {}

  lemma WroteLiveAt(h: Heap, h': Heap, root: Gptr, k: Key, v: TagGptr, a: Key)
    requires Wrote(h, h', root, k, v)
    ensures a in Live(h') <==> if a == k then v.IsValid() else a in Live(h)
    ensures a in Live(h') ==> Live(h')[a] == if a == k then v.ptr else Live(h)[a]
  {
    LiveIs(h, a);
    LiveIs(h', a);
    assert Cell(h', a) == if a == k then v else Cell(h, a);
  }

  /** Writing a cell is an update, or a removal, in the map of live keys. */
  lemma WroteLive(h: Heap, h': Heap, root: Gptr, k: Key, v: TagGptr)
    requires Wrote(h, h', root, k, v)
    ensures v.IsValid() ==> Live(h') == Live(h)[k := v.ptr]
    ensures !v.IsValid() ==> Live(h') == Live(h) - {k}
  {
    forall a
      ensures a in Live(h') <==> if a == k then v.IsValid() else a in Live(h)
      ensures a in Live(h') ==> Live(h')[a] == if a == k then v.ptr else Live(h)[a]
    {
      WroteLiveAt(h, h', root, k, v, a);
    }
  }

  /* ---- where a key that is not there yet goes ---- */

  /** `q` sits in the slot of `p` towards `k` and agrees with `k` on exactly `i` bytes, fewer than it has. */
  predicate Parts(h: Heap, p: Gptr, q: Gptr, i: nat, k: Key) {
    && p in h && h[p].key < k && q in h && Slot(h, p, k) == q
    && i <= |k| && i < |h[q].key| && k[..i] == h[q].key[..i]
    && (i < |k| ==> k[i] != h[q].key[i])
  }

  lemma PartsBelow(h: Heap, root: Gptr, p: Gptr, q: Gptr, i: nat, k: Key)
    requires WellFormed(h, root) && 0 < |k| && Parts(h, p, q, i, k)
    ensures h[p].key < k[..i] < h[q].key
    ensures k[..i][|h[p].key|] == k[|h[p].key|]
    ensures NodeOf(h, k) == 0
  {
    SlotDecides(h, root, p, k);
    assert |h[p].key| < i;
  }

  /** The tree after `q` was split off below `p`: a middle node for the shared prefix holds `q` and, when
      `k` is longer than that prefix, a new leaf for `k`. */
  function WithSplit(h: Heap, p: Gptr, q: Gptr, i: nat, mid: Gptr, leaf: Gptr, k: Key, v: TagGptr): Heap
    requires p in h && q in h && i <= |k| && h[p].key < k[..i] < h[q].key && mid != leaf
  {
    if i == |k| then WithMiddle(h, p, q, mid, k, v)
    else WithLeaf(WithMiddle(h, p, q, mid, k[..i], Nil), mid, leaf, k, v)
  }

  lemma SplitKeys(h: Heap, p: Gptr, q: Gptr, i: nat, mid: Gptr, leaf: Gptr, k: Key, v: TagGptr, n: Gptr)
    requires p in h && q in h && i <= |k| && h[p].key < k[..i] < h[q].key && mid != leaf
    requires (forall x | x in h :: x < n) && mid < n && leaf < n
    ensures forall x | x in WithSplit(h, p, q, i, mid, leaf, k, v) :: x < n
  {}

  lemma WithSplitKeeps(h: Heap, root: Gptr, p: Gptr, q: Gptr, i: nat, mid: Gptr, leaf: Gptr, k: Key, v: TagGptr)
    requires WellFormed(h, root) && 0 < |k| <= MAX_KEY_LEN && Parts(h, p, q, i, k)
    requires h[p].key < k[..i] < h[q].key
    requires mid != 0 && mid !in h && leaf != 0 && leaf !in h && mid != leaf
    ensures Wrote(h, WithSplit(h, p, q, i, mid, leaf, k, v), root, k, v)
    ensures NodeOf(WithSplit(h, p, q, i, mid, leaf, k, v), k) == if i == |k| then mid else leaf
    ensures NodeOf(h, k) == 0
  {
    PartsBelow(h, root, p, q, i, k);
    if i == |k| {
      assert k[..i] == k;
      WithMiddleKeeps(h, root, p, q, mid, k, v);
    } else {
      var h1 := WithMiddle(h, p, q, mid, k[..i], Nil);
      WithMiddleKeeps(h, root, p, q, mid, k[..i], Nil);
      WithLeafKeeps(h1, root, mid, leaf, k, v);
      WroteTwice(h, h1, WithLeaf(h1, mid, leaf, k, v), root, k[..i], k, v);
    }
  }
}
