/** The radix tree as one client sees it (src/radix_tree.cc): put, get and destroy by key, and the
    forms that return or take a node pointer. */
module RadixTreeSequential {
  import opened Common
  import opened RadixHeap

  class RadixTree {
    var heap: Heap       // the published nodes
    var brk: Gptr        // next pointer the allocator hands out
    const root: Gptr

    ghost predicate Valid()
      reads this
    {
      && WellFormed(heap, root)
      && (forall p | p in heap :: p < brk)
    }

    constructor ()
      ensures Valid() && fresh(this) && Live(heap) == map[]
    {
      root := 1;
      brk := 2;
      heap := map[1 := Node([], map[], Nil)];
    }

    method Alloc() returns (p: Gptr)
      requires Valid()
      modifies this`brk
      ensures Valid() && p != 0 && p !in heap && p == old(brk) && brk == p + 1
    {
      p := brk;
      brk := brk + 1;
    }

    /** Compares `key` with the prefix of node `n`; the index of the first difference, or where one ends. */
    method Match(key: Key, n: Gptr) returns (i: nat)
      requires n in heap
      ensures i <= |key| && i <= |heap[n].key| && key[..i] == heap[n].key[..i]
      ensures i < |key| && i < |heap[n].key| ==> key[i] != heap[n].key[i]
    {
      i := 0;
      while i < |key| && i < |heap[n].key| && key[i] == heap[n].key[i]
        invariant i <= |key| && i <= |heap[n].key| && key[..i] == heap[n].key[..i]
      {
        i := i + 1;
      }
    }

    /** Finds where `key` belongs: its own node `q`, or the last node `p` on the way to it together with
        what is in the slot of `p` towards it. */
    method Descend(key: Key) returns (p: Gptr, q: Gptr, i: nat)
      requires Valid() && key != []
      ensures q == 0 ==> p in heap && heap[p].key < key && Slot(heap, p, key) == 0
      ensures q != 0 ==> q in heap
      ensures q != 0 && i == |heap[q].key| ==> q == NodeOf(heap, key)
      ensures q != 0 && i < |heap[q].key| ==> Parts(heap, p, q, i, key)
      ensures q != 0 ==> i <= |heap[q].key|
      ensures !(q != 0 && i == |heap[q].key|) ==> NodeOf(heap, key) == 0
    {
      p, q, i := 0, root, 0;
      while q != 0
        invariant q != 0 ==> q in heap
        invariant q == root || (p in heap && heap[p].key < key && q == Slot(heap, p, key))
        invariant q == 0 ==> NodeOf(heap, key) == 0
        decreases if q == 0 then 0 else 1 + MAX_KEY_LEN - |heap[q].key|
      {
        i := Match(key, q);
        if i < |heap[q].key| {
          PartsBelow(heap, root, p, q, i, key);
          return;
        }
        if i == |key| {
          assert heap[q].key == key;
          CellIs(heap, root, q);
          return;
        }
        SlotDecides(heap, root, q, key);
        p := q;
        q := Slot(heap, p, key);
      }
    }

    /** Case 1: a leaf for `key` on the empty slot of `p`. */
    method Hang(p: Gptr, key: Key, v: TagGptr) returns (leaf: Gptr)
      requires Valid() && 0 < |key| <= MAX_KEY_LEN && p in heap && heap[p].key < key && Slot(heap, p, key) == 0
      modifies this
      ensures Valid() && Wrote(old(heap), heap, root, key, v) && leaf == NodeOf(heap, key) != 0
    {
      leaf := Alloc();
      SlotDecides(heap, root, p, key);
      WithLeafKeeps(heap, root, p, leaf, key, v);
      heap := WithLeaf(heap, p, leaf, key, v);
    }

    /** Case 2: `q` leaves the way to `key`; the slot of `p` swings to a middle node. */
    method Swing(p: Gptr, q: Gptr, i: nat, key: Key, v: TagGptr) returns (node: Gptr)
      requires Valid() && 0 < |key| <= MAX_KEY_LEN && Parts(heap, p, q, i, key)
      modifies this
      ensures Valid() && Wrote(old(heap), heap, root, key, v) && node == NodeOf(heap, key) != 0
    {
      var mid := Alloc();
      var leaf := Alloc();
      PartsBelow(heap, root, p, q, i, key);
      SplitKeys(heap, p, q, i, mid, leaf, key, v, brk);
      WithSplitKeeps(heap, root, p, q, i, mid, leaf, key, v);
      node := if i == |key| then mid else leaf;
      heap := WithSplit(heap, p, q, i, mid, leaf, key, v);
    }

    /** The cell of an existing node gets a new pointer and the next tag. */
    method Replace(q: Gptr, value: Gptr) returns (was: TagGptr)
      requires Valid() && q in heap && heap[q].key != []
      modifies this`heap
      ensures Valid() && was == Cell(old(heap), old(heap[q].key)) && q == NodeOf(heap, old(heap[q].key))
      ensures Wrote(old(heap), heap, root, old(heap[q].key), TagGptr(value, was.tag + 1))
    {
      was := heap[q].value;
      CellIs(heap, root, q);
      WithValueKeeps(heap, root, q, TagGptr(value, was.tag + 1));
      heap := WithValue(heap, q, TagGptr(value, was.tag + 1));
    }

    /** `put` and `putC`: sets the cell of `key`. With `update` unset a live value is left alone. */
    method Put(key: Key, value: Gptr, update: bool) returns (was: TagGptr, node: Gptr, now: TagGptr)
      requires Valid() && 0 < |key| <= MAX_KEY_LEN
      modifies this
      ensures Valid() && Wrote(old(heap), heap, root, key, now)
      ensures was == Cell(old(heap), key) && node == NodeOf(heap, key) != 0
      ensures now == if NodeOf(old(heap), key) == 0 then TagGptr(value, 0)
                     else if update || !was.IsValid() then TagGptr(value, was.tag + 1)
                     else was
    {
      var p, q, i := Descend(key);
      was, now := Nil, TagGptr(value, 0);
      if q == 0 {
        node := Hang(p, key, now);
      } else if i < |heap[q].key| {
        node := Swing(p, q, i, key, now);
      } else {
        node, was := q, heap[q].value;
        CellIs(heap, root, q);
        if update || !was.IsValid() {
          now := TagGptr(value, was.tag + 1);
          was := Replace(q, value);
        } else {
          now := was;
        }
      }
    }

    /** `get`: the cell of `key`, null if the key has no node. */
    method Get(key: Key) returns (v: TagGptr)
      requires Valid() && 0 < |key| <= MAX_KEY_LEN
      ensures v == Cell(heap, key)
    {
      var q := root;
      while q != 0
        invariant q == 0 ==> NodeOf(heap, key) == 0
        invariant q != 0 ==> q in heap
        invariant q != 0 && !(heap[q].key <= key) ==> NodeOf(heap, key) == 0
        decreases if q == 0 then 0 else 1 + MAX_KEY_LEN - |heap[q].key|
      {
        var i := Match(key, q);
        if i < |key| && i < |heap[q].key| {
          return Nil;
        }
        if |heap[q].key| == |key| {
          assert heap[q].key == key;
          CellIs(heap, root, q);
          return heap[q].value;
        }
        if |key| < |heap[q].key| {
          return Nil;
        }
        SlotDecides(heap, root, q, key);
        q := Slot(heap, q, key);
      }
      return Nil;
    }
  
    /** `destroy`: nulls the cell of `key` and gives its previous content. */
    method Destroy(key: Key) returns (was: TagGptr)
      requires Valid() && 0 < |key| <= MAX_KEY_LEN
      modifies this`heap
      ensures Valid() && was == Cell(old(heap), key)
      ensures Wrote(old(heap), heap, root, key,
                    if NodeOf(old(heap), key) == 0 then Nil else TagGptr(0, was.tag + 1))
    {
      var _, q, i := Descend(key);
      if q == 0 || i < |heap[q].key| {
        return Nil;
      }
      was := Replace(q, 0);
    }

    /** `getC` by key. Unlike `get` it keeps walking when the node's prefix is longer than `key`, on
        whatever byte `past` follows the key in memory. It finds the same node and cell. */
    method GetC(key: Key, past: Byte) returns (node: Gptr, v: TagGptr)
      requires Valid() && 0 < |key| <= MAX_KEY_LEN
      ensures node == NodeOf(heap, key) && v == Cell(heap, key)
    {
      var q := root;
      while q != 0
        invariant q == 0 ==> NodeOf(heap, key) == 0
        invariant q != 0 ==> q in heap
        invariant q != 0 && !(heap[q].key <= key) ==> NodeOf(heap, key) == 0
        decreases if q == 0 then 0 else 1 + MAX_KEY_LEN - |heap[q].key|
      {
        var n := heap[q];
        var i := Match(key, q);
        if i < |key| && i < |n.key| {
          return 0, Nil;
        }
        if |n.key| == |key| {
          assert n.key == key;
          CellIs(heap, root, q);
          return q, n.value;
        }
        var b := if |n.key| < |key| then key[|n.key|] else past;
        if |n.key| < |key| { SlotDecides(heap, root, q, key); }
        if b in n.child { assert ChildFits(heap, q, b); }
        q := if b in n.child then n.child[b] else 0;
      }
      return 0, Nil;
    }

    /** `destroyC` by key: the walk of `getC`, then the cell is nulled. */
    method DestroyC(key: Key, past: Byte) returns (node: Gptr, now: TagGptr, was: TagGptr)
      requires Valid() && 0 < |key| <= MAX_KEY_LEN
      modifies this`heap
      ensures Valid() && node == NodeOf(old(heap), key) && was == Cell(old(heap), key)
      ensures now == if node == 0 then Nil else TagGptr(0, was.tag + 1)
      ensures Wrote(old(heap), heap, root, key, now)
    {
      node, was := GetC(key, past);
      now := Nil;
      if node != 0 {
        now := TagGptr(0, was.tag + 1);
        was := Replace(node, 0);
      }
    }

    /** `getC` by node pointer. */
    method GetAt(node: Gptr) returns (v: TagGptr)
      requires Valid() && node in heap
      ensures v == Cell(heap, heap[node].key)
    {
      CellIs(heap, root, node);
      v := heap[node].value;
    }

    /** `putC` and, with a null value, `destroyC` by node pointer. */
    method PutAt(node: Gptr, value: Gptr) returns (now: TagGptr, was: TagGptr)
      requires Valid() && node in heap && node != root
      modifies this`heap
      ensures Valid() && was == Cell(old(heap), old(heap[node].key))
      ensures now == TagGptr(value, was.tag + 1)
      ensures Wrote(old(heap), heap, root, old(heap[node].key), now)
    {
      CellIs(heap, root, root);
      was := Replace(node, value);
      now := TagGptr(value, was.tag + 1);
    }
  }
}
