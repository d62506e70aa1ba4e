/** The split-ordered table, run by one thread (src/split_ordered.cc:177-532): one sorted linked list, bucket
    cells that point into it and are filled on first use, and a size that doubles without moving a node. */
module SplitTable {

  import opened Common
  import opened SplitOrder
  import opened SplitTableSpec

  datatype Node = Node(key: nat, bytes: Key, value: nat, next: Gptr)

  type Heap = map<Gptr, Node>

  const NULL: Gptr := 0

  /* ---- the list ---- */

  /** Where position `i` of the list is: the node there, or null at the end. */
  function At(c: seq<Gptr>, i: nat): Gptr {
    if i < |c| then c[i] else NULL
  }

  ghost predicate LinkAt(h: Heap, c: seq<Gptr>, i: nat)
    requires i < |c|
  {
    c[i] != NULL && c[i] in h && h[c[i]].next == At(c, i + 1)
  }

  ghost predicate Differ(c: seq<Gptr>, i: nat, j: nat)
    requires i < |c| && j < |c|
  {
    c[i] != c[j]
  }

  /** `c` is the list of nodes in the order of their next pointers. */
  ghost predicate Linked(h: Heap, c: seq<Gptr>) {
    && (forall i {:trigger c[i]} | 0 <= i < |c| :: LinkAt(h, c, i))
    && (forall i, j {:trigger Differ(c, i, j)} | 0 <= i < |c| && 0 <= j < |c| && i != j :: Differ(c, i, j))
  }

  /** The keys along the list. */
  ghost function Keys(h: Heap, c: seq<Gptr>): (ks: seq<nat>)
    requires Linked(h, c)
    ensures |ks| == |c| && forall i {:trigger ks[i]} | 0 <= i < |c| :: ks[i] == h[c[i]].key
  {
    seq(|c|, i requires 0 <= i < |c| => h[c[i]].key)
  }

  ghost predicate Ascending(ks: seq<nat>) {
    forall i, j | 0 <= i < j < |ks| :: ks[i] <= ks[j]
  }

  ghost predicate Sorted(h: Heap, c: seq<Gptr>)
    requires Linked(h, c)
  {
    Ascending(Keys(h, c))
  }

  ghost predicate List(h: Heap, c: seq<Gptr>) {
    Linked(h, c) && Sorted(h, c)
  }

  /** The list with `p` put in at position `i`, and the heap after the pointer before it is swung to `p`. */
  function WithNode(c: seq<Gptr>, i: nat, p: Gptr): seq<Gptr>
    requires i <= |c|
  {
    c[..i] + [p] + c[i..]
  }

  function Spliced(h: Heap, q: Gptr, p: Gptr, n: Node, next: Gptr): Heap
    requires q in h
  {
    h[p := n.(next := next)][q := h[q].(next := p)]
  }

  lemma AscendingInsert(ks: seq<nat>, i: nat, k: nat)
    requires Ascending(ks) && i <= |ks|
    requires i > 0 ==> ks[i - 1] <= k
    requires i < |ks| ==> k <= ks[i]
    ensures Ascending(ks[..i] + [k] + ks[i..])
  {}

  lemma AscendingRemove(ks: seq<nat>, i: nat)
    requires Ascending(ks) && i < |ks|
    ensures Ascending(ks[..i] + ks[i + 1..])
  {}

  lemma SpliceDistinct(h: Heap, c: seq<Gptr>, i: nat, p: Gptr)
    requires Linked(h, c) && i <= |c| && p !in h
    ensures forall j, k {:trigger Differ(WithNode(c, i, p), j, k)} | 0 <= j <= |c| && 0 <= k <= |c| && j != k ::
              Differ(WithNode(c, i, p), j, k)
  {
    var c' := WithNode(c, i, p);
    forall j, k | 0 <= j <= |c| && 0 <= k <= |c| && j != k
      ensures Differ(c', j, k)
    {
      var j', k' := if j < i then j else j - 1, if k < i then k else k - 1;
      if j == i {
        assert c'[k] == c[k'] && LinkAt(h, c, k');
      } else if k == i {
        assert c'[j] == c[j'] && LinkAt(h, c, j');
      } else {
        assert c'[j] == c[j'] && c'[k] == c[k'] && Differ(c, j', k');
      }
    }
  }

  lemma SpliceLinks(h: Heap, c: seq<Gptr>, i: nat, p: Gptr, n: Node)
    requires Linked(h, c) && 0 < i <= |c| && p !in h && p != NULL
    ensures Linked(Spliced(h, c[i - 1], p, n, At(c, i)), WithNode(c, i, p))
  {
    var h', c' := Spliced(h, c[i - 1], p, n, At(c, i)), WithNode(c, i, p);
    SpliceDistinct(h, c, i, p);
    forall j | 0 <= j < |c'|
      ensures LinkAt(h', c', j)
    {
      if j < i { assert LinkAt(h, c, j); } else if j > i { assert LinkAt(h, c, j - 1); }
      if j != i && j != i - 1 { assert Differ(c, i - 1, if j < i then j else j - 1); }
    }
  }

  lemma SpliceKeeps(h: Heap, c: seq<Gptr>, i: nat, p: Gptr, n: Node)
    requires List(h, c) && 0 < i <= |c| && p !in h && p != NULL
    requires h[c[i - 1]].key <= n.key
    requires i < |c| ==> n.key <= h[c[i]].key
    ensures List(Spliced(h, c[i - 1], p, n, At(c, i)), WithNode(c, i, p))
  {
    SpliceLinks(h, c, i, p, n);
    KeysWith(h, c, Spliced(h, c[i - 1], p, n, At(c, i)), i, p);
    AscendingInsert(Keys(h, c), i, n.key);
  }

  lemma KeysWith(h: Heap, c: seq<Gptr>, h': Heap, i: nat, p: Gptr)
    requires Linked(h, c) && i <= |c| && p in h' && Linked(h', WithNode(c, i, p))
    requires forall x | x in h :: x in h' && h'[x].key == h[x].key
    ensures Keys(h', WithNode(c, i, p)) == Keys(h, c)[..i] + [h'[p].key] + Keys(h, c)[i..]
  {
    assert WithNode(c, i, p)[i] == p;
  }

  /** The list without position `i`, and the heap after the pointer before it is swung past the node. */
  function WithoutNode(c: seq<Gptr>, i: nat): seq<Gptr>
    requires i < |c|
  {
    c[..i] + c[i + 1..]
  }

  function Unspliced(h: Heap, q: Gptr, next: Gptr): Heap
    requires q in h
  {
    h[q := h[q].(next := next)]
  }

  lemma UnspliceDistinct(h: Heap, c: seq<Gptr>, i: nat)
    requires Linked(h, c) && i < |c|
    ensures forall j, k {:trigger Differ(WithoutNode(c, i), j, k)} | 0 <= j < |c| - 1 && 0 <= k < |c| - 1 && j != k ::
              Differ(WithoutNode(c, i), j, k)
  {
    var c' := WithoutNode(c, i);
    forall j, k | 0 <= j < |c| - 1 && 0 <= k < |c| - 1 && j != k
      ensures Differ(c', j, k)
    {
      assert Differ(c, if j < i then j else j + 1, if k < i then k else k + 1);
    }
  }

  lemma UnspliceLinks(h: Heap, c: seq<Gptr>, i: nat)
    requires Linked(h, c) && 0 < i < |c|
    ensures Linked(Unspliced(h, c[i - 1], h[c[i]].next), WithoutNode(c, i))
  {
    var h', c' := Unspliced(h, c[i - 1], h[c[i]].next), WithoutNode(c, i);
    assert LinkAt(h, c, i);
    forall j | 0 <= j < |c'|
      ensures LinkAt(h', c', j)
    {
      if j < i { assert LinkAt(h, c, j); } else { assert LinkAt(h, c, j + 1); }
      if j != i - 1 { assert Differ(c, i - 1, if j < i then j else j + 1); }
    }
    UnspliceDistinct(h, c, i);
  }


  lemma UnspliceKeeps(h: Heap, c: seq<Gptr>, i: nat)
    requires List(h, c) && 0 < i < |c|
    ensures List(Unspliced(h, c[i - 1], h[c[i]].next), WithoutNode(c, i))
  {
    var h', c' := Unspliced(h, c[i - 1], h[c[i]].next), WithoutNode(c, i);
    UnspliceLinks(h, c, i);
    AscendingRemove(Keys(h, c), i);
    assert Keys(h', c') == Keys(h, c)[..i] + Keys(h, c)[i + 1..];
  }

  lemma ValueKeeps(h: Heap, c: seq<Gptr>, p: Gptr, v: nat)
    requires List(h, c) && p in h
    ensures List(h[p := h[p].(value := v)], c)
  {
    var h' := h[p := h[p].(value := v)];
    forall j | 0 <= j < |c|
      ensures LinkAt(h', c, j)
    {
      assert LinkAt(h, c, j);
    }
    assert Keys(h', c) == Keys(h, c);
  }

  /* ---- searching the list ---- */

  ghost predicate IsMatch(n: Node, k: Key, key: nat)
    requires |k| <= BUFFER
  {
    n.key == key && Matches(n.bytes, k)
  }

  ghost predicate Passes(n: Node, k: Key, key: nat)
    requires |k| <= BUFFER
  {
    n.key <= key && !IsMatch(n, k, key)
  }

  /** A search stops at position `i`: at the first match, or else before the first larger key. */
  ghost predicate StopsAt(h: Heap, c: seq<Gptr>, i: nat, k: Key, key: nat)
    requires |k| <= BUFFER && Linked(h, c)
  {
    && i <= |c|
    && (forall j {:trigger c[j]} | 0 <= j < i :: Passes(h[c[j]], k, key))
    && (i < |c| ==> IsMatch(h[c[i]], k, key) || h[c[i]].key > key)
  }

  /* ---- buckets and contents ---- */

  const MAX_LOG: nat := 20

  ghost predicate CellOk(h: Heap, c: seq<Gptr>, b: nat, p: Gptr, w: nat) {
    b < Pow2(MAX_LOG) && p in c && p in h && h[p].key == DummyKey(b, w)
  }

  /** Every filled bucket cell points to the bucket's dummy. */
  ghost predicate Cells(h: Heap, c: seq<Gptr>, table: map<nat, Gptr>, w: nat) {
    forall b {:trigger CellOk(h, c, b, table[b], w)} | b in table :: CellOk(h, c, b, table[b], w)
  }

  ghost predicate IsRegular(n: Node) { n.key % 2 == 1 }

  ghost predicate IndexOk(h: Heap, c: seq<Gptr>, k: Key, p: Gptr) {
    p in c && p in h && h[p].bytes == k && IsRegular(h[p])
  }

  ghost predicate NodeOk(n: Node, p: Gptr, at: map<Key, Gptr>, hash: Hash, w: nat) {
    && IsRegular(n) ==>
      && n.key == RegularKey(hash(n.bytes), w) && |n.bytes| <= BUFFER && n.value != 0
      && n.bytes in at && at[n.bytes] == p
  }

  /** `at` says where each stored key's node is: the regular nodes of the list, each under its own key. */
  ghost predicate Filed(h: Heap, c: seq<Gptr>, at: map<Key, Gptr>, hash: Hash, w: nat) {
    && Linked(h, c)
    && (forall k {:trigger IndexOk(h, c, k, at[k])} | k in at :: IndexOk(h, c, k, at[k]))
    && (forall i {:trigger c[i]} | 0 <= i < |c| :: NodeOk(h[c[i]], c[i], at, hash, w))
  }

  ghost function Contents(h: Heap, at: map<Key, Gptr>): map<Key, nat> {
    map k | k in at && at[k] in h :: h[at[k]].value
  }

  /** Every key with a node is a stored key. */
  lemma ContentsKeys(h: Heap, c: seq<Gptr>, at: map<Key, Gptr>, hash: Hash, w: nat)
    requires Filed(h, c, at, hash, w)
    ensures Contents(h, at).Keys == at.Keys && |Contents(h, at)| == |at|
  {
    forall k | k in at ensures k in Contents(h, at) { assert IndexOk(h, c, k, at[k]); }
    var m := Contents(h, at);
    assert |m.Keys| == |m| && |at.Keys| == |at|;
  }

  ghost predicate Hashes(hash: Hash, w: nat) {
    forall k {:trigger hash(k)} :: hash(k) < Pow2(w)
  }

  /** A search that stops at a match has found a stored key that answers. */
  lemma MatchAnswers(h: Heap, c: seq<Gptr>, at: map<Key, Gptr>, hash: Hash, w: nat, i: nat, k: Key)
    requires Filed(h, c, at, hash, w) && Hashes(hash, w) && |k| <= BUFFER
    requires i < |c| && IsMatch(h[c[i]], k, RegularKey(hash(k), w))
    ensures var a := h[c[i]].bytes; a in at && at[a] == c[i] && Answers(hash, a, k) && h[c[i]].value != 0 && IsRegular(h[c[i]])
  {
    var n := h[c[i]];
    KeyParity(hash(k), w);
    assert NodeOk(n, c[i], at, hash, w);
    RegularInjective(hash(n.bytes), hash(k), w);
  }

  lemma RegularInjective(a: nat, b: nat, w: nat)
    requires a < Pow2(w) && b < Pow2(w)
    ensures RegularKey(a, w) == RegularKey(b, w) ==> a == b
  {
    RegularParity(a, w);
    RegularParity(b, w);
    RevTwice(a, w);
    RevTwice(b, w);
  }

  /** A search that stops without a match has shown that no stored key answers. */
  lemma NoMatchUnanswered(h: Heap, c: seq<Gptr>, at: map<Key, Gptr>, hash: Hash, w: nat, i: nat, k: Key)
    requires List(h, c) && Filed(h, c, at, hash, w) && |k| <= BUFFER
    requires StopsAt(h, c, i, k, RegularKey(hash(k), w))
    requires i < |c| ==> !IsMatch(h[c[i]], k, RegularKey(hash(k), w))
    ensures forall a | a in at :: !Answers(hash, a, k)
  {
    forall a | a in at
      ensures !Answers(hash, a, k)
    {
      assert IndexOk(h, c, a, at[a]);
      var j: nat :| j < |c| && c[j] == at[a];
      assert NodeOk(h[c[j]], c[j], at, hash, w);
      if j < i {
        assert Passes(h[c[j]], k, RegularKey(hash(k), w));
      } else {
        assert Keys(h, c)[i] <= Keys(h, c)[j];
      }
    }
  }

  /** The stored key at the position where a search stopped, if it stopped at a match. */
  ghost predicate Found(h: Heap, c: seq<Gptr>, at: map<Key, Gptr>, hash: Hash, i: nat, k: Key)
    requires |k| <= BUFFER && Linked(h, c)
  {
    && i < |c| && IsRegular(h[c[i]]) && h[c[i]].value != 0
    && h[c[i]].bytes in Contents(h, at) && Contents(h, at)[h[c[i]].bytes] == h[c[i]].value
    && Answers(hash, h[c[i]].bytes, k)
  }

  /** What the position where a search stopped says. */
  lemma Verdict(h: Heap, c: seq<Gptr>, at: map<Key, Gptr>, hash: Hash, w: nat, i: nat, k: Key)
    requires List(h, c) && Filed(h, c, at, hash, w) && Hashes(hash, w) && |k| <= BUFFER
    requires StopsAt(h, c, i, k, RegularKey(hash(k), w))
    ensures if i < |c| && IsMatch(h[c[i]], k, RegularKey(hash(k), w)) then Found(h, c, at, hash, i, k)
            else Unanswered(hash, Contents(h, at), k)
  {
    if i < |c| && IsMatch(h[c[i]], k, RegularKey(hash(k), w)) {
      MatchAnswers(h, c, at, hash, w, i, k);
    } else {
      NoMatchUnanswered(h, c, at, hash, w, i, k);
    }
  }

  /* ---- what splicing does to buckets and contents ---- */

  ghost predicate SameNode(h: Heap, h': Heap, p: Gptr)
    requires p in h
  {
    p in h' && h'[p] == h[p].(next := h'[p].next)
  }

  /** The heap `h'` keeps all of the nodes of `h` but for their next pointers. */
  ghost predicate KeepsNodes(h: Heap, h': Heap) {
    forall p {:trigger SameNode(h, h', p)} | p in h :: SameNode(h, h', p)
  }

  lemma CellsKept(h: Heap, c: seq<Gptr>, h': Heap, c': seq<Gptr>, table: map<nat, Gptr>, w: nat)
    requires Cells(h, c, table, w) && KeepsNodes(h, h')
    requires forall p | p in c && p in h && h[p].key % 2 == 0 :: p in c'
    requires MAX_LOG <= w
    ensures Cells(h', c', table, w)
  {
    forall b | b in table
      ensures CellOk(h', c', b, table[b], w)
    {
      assert CellOk(h, c, b, table[b], w);
      PowLess(MAX_LOG, w);
      KeyParity(b, w);
      assert SameNode(h, h', table[b]);
    }
  }

  lemma IndexKept(h: Heap, c: seq<Gptr>, h': Heap, i: nat, p: Gptr, k: Key, x: Gptr)
    requires IndexOk(h, c, k, x) && KeepsNodes(h, h') && i <= |c|
    ensures IndexOk(h', WithNode(c, i, p), k, x) && h'[x].value == h[x].value
  {
    var j :| 0 <= j < |c| && c[j] == x;
    assert WithNode(c, i, p)[if j < i then j else j + 1] == x;
    assert SameNode(h, h', x);
  }

  /** The index `at'` is `at`, or has the new node `p` of key `h'[p].bytes` in addition. */
  ghost predicate Extends(at: map<Key, Gptr>, at': map<Key, Gptr>, h': Heap, p: Gptr) {
    at' == at || (p in h' && IsRegular(h'[p]) && h'[p].bytes !in at && at' == at[h'[p].bytes := p])
  }

  lemma IndexSpliced(h: Heap, c: seq<Gptr>, at: map<Key, Gptr>, at': map<Key, Gptr>, hash: Hash, w: nat, h': Heap, i: nat, p: Gptr, k: Key)
    requires Filed(h, c, at, hash, w) && KeepsNodes(h, h') && i <= |c| && Extends(at, at', h', p) && k in at'
    ensures IndexOk(h', WithNode(c, i, p), k, at'[k])
  {
    if k in at {
      assert IndexOk(h, c, k, at[k]);
      IndexKept(h, c, h', i, p, k, at[k]);
    } else {
      assert WithNode(c, i, p)[i] == p;
    }
  }

  /** Filing goes on through a splice when the new node is filed and nothing else is filed anew. */
  lemma SpliceFiled(h: Heap, c: seq<Gptr>, at: map<Key, Gptr>, at': map<Key, Gptr>, hash: Hash, w: nat, h': Heap, i: nat, p: Gptr)
    requires Filed(h, c, at, hash, w) && KeepsNodes(h, h') && i <= |c| && Linked(h', WithNode(c, i, p))
    requires p in h' && NodeOk(h'[p], p, at', hash, w) && Extends(at, at', h', p)
    ensures Filed(h', WithNode(c, i, p), at', hash, w)
  {
    var c' := WithNode(c, i, p);
    forall k | k in at'
      ensures IndexOk(h', c', k, at'[k])
    {
      IndexSpliced(h, c, at, at', hash, w, h', i, p, k);
    }
    forall j | 0 <= j < |c'|
      ensures NodeOk(h'[c'[j]], c'[j], at', hash, w)
    {
      NodeSpliced(h, c, at, at', hash, w, h', i, p, j);
    }
  }

  lemma NodeSpliced(h: Heap, c: seq<Gptr>, at: map<Key, Gptr>, at': map<Key, Gptr>, hash: Hash, w: nat, h': Heap, i: nat, p: Gptr, j: nat)
    requires Filed(h, c, at, hash, w) && KeepsNodes(h, h') && i <= |c| && j <= |c|
    requires p in h' && NodeOk(h'[p], p, at', hash, w) && Extends(at, at', h', p)
    ensures var x := WithNode(c, i, p)[j]; x in h' && NodeOk(h'[x], x, at', hash, w)
  {
    if j != i { NodeKept(h, c, at, at', hash, w, h', if j < i then j else j - 1); }
  }

  lemma NodeKept(h: Heap, c: seq<Gptr>, at: map<Key, Gptr>, at': map<Key, Gptr>, hash: Hash, w: nat, h': Heap, j: nat)
    requires Filed(h, c, at, hash, w) && KeepsNodes(h, h') && j < |c|
    requires forall k | k in at :: k in at' && at'[k] == at[k]
    ensures c[j] in h' && NodeOk(h'[c[j]], c[j], at', hash, w)
  {
    var x := c[j];
    assert LinkAt(h, c, j) && NodeOk(h[x], x, at, hash, w);
    assert SameNode(h, h', x);
  }

  /** The contents through a splice. */
  lemma SpliceContents(h: Heap, c: seq<Gptr>, at: map<Key, Gptr>, hash: Hash, w: nat, h': Heap, p: Gptr, k: Key)
    requires Filed(h, c, at, hash, w) && KeepsNodes(h, h') && p !in h
    ensures Contents(h', at) == Contents(h, at)
    ensures p in h' ==> Contents(h', at[k := p]) == Contents(h, at)[k := h'[p].value]
  {
    forall a | a in at
      ensures at[a] in h && at[a] in h' && h'[at[a]].value == h[at[a]].value
    {
      assert IndexOk(h, c, a, at[a]);
      assert SameNode(h, h', at[a]);
    }
  }

  lemma RemovedFiled(h: Heap, c: seq<Gptr>, at: map<Key, Gptr>, hash: Hash, w: nat, h': Heap, i: nat)
    requires Filed(h, c, at, hash, w) && KeepsNodes(h, h') && i < |c| && Linked(h', WithoutNode(c, i))
    requires IsRegular(h[c[i]])
    ensures Filed(h', WithoutNode(c, i), at - {h[c[i]].bytes}, hash, w)
    ensures Contents(h', at - {h[c[i]].bytes}) == Contents(h, at) - {h[c[i]].bytes}
  {
    var c', a := WithoutNode(c, i), h[c[i]].bytes;
    var at' := at - {a};
    assert NodeOk(h[c[i]], c[i], at, hash, w);
    forall k | k in at'
      ensures IndexOk(h', c', k, at'[k]) && at[k] in h && h'[at[k]].value == h[at[k]].value
    {
      assert IndexOk(h, c, k, at[k]);
      var j :| 0 <= j < |c| && c[j] == at[k];
      assert c'[if j < i then j else j - 1] == c[j];
      assert SameNode(h, h', at[k]);
    }
    forall j | 0 <= j < |c'|
      ensures NodeOk(h'[c'[j]], c'[j], at', hash, w)
    {
      var x := c[if j < i then j else j + 1];
      assert Differ(c, i, if j < i then j else j + 1);
      assert NodeOk(h[x], x, at, hash, w);
      assert SameNode(h, h', x);
    }
  }

  lemma UpdatedFiled(h: Heap, c: seq<Gptr>, at: map<Key, Gptr>, hash: Hash, w: nat, i: nat, v: nat)
    requires Filed(h, c, at, hash, w) && i < |c| && IsRegular(h[c[i]]) && v != 0
    ensures var h' := h[c[i] := h[c[i]].(value := v)];
      Linked(h', c) && Filed(h', c, at, hash, w) && Contents(h', at) == Contents(h, at)[h[c[i]].bytes := v]
  {
    var h' := h[c[i] := h[c[i]].(value := v)];
    assert NodeOk(h[c[i]], c[i], at, hash, w);
    assert forall j | 0 <= j < |c| :: LinkAt(h, c, j) && LinkAt(h', c, j);
    forall k | k in at
      ensures IndexOk(h', c, k, at[k]) && at[k] in h && (at[k] == c[i] ==> k == h[c[i]].bytes)
    {
      assert IndexOk(h, c, k, at[k]);
    }
    forall j | 0 <= j < |c|
      ensures NodeOk(h'[c[j]], c[j], at, hash, w)
    {
      assert NodeOk(h[c[j]], c[j], at, hash, w);
    }
  }

  /* ---- the table ---- */

  /** The address of a pointer: a bucket cell, or the next pointer of a node. */
  datatype Cell = Slot(bucket: nat) | Next(node: Gptr)

  ghost predicate Below(h: Heap, brk: Gptr) {
    NULL !in h && brk != NULL && forall p | p in h :: p < brk
  }

  lemma Skipped(h: Heap, c: seq<Gptr>, s: nat, k: Key, key: nat)
    requires List(h, c) && s < |c| && h[c[s]].key < key && |k| <= BUFFER
    ensures forall j {:trigger c[j]} | 0 <= j < s :: Passes(h[c[j]], k, key)
  {
    forall j | 0 <= j < s
      ensures Passes(h[c[j]], k, key)
    {
      assert Keys(h, c)[j] <= Keys(h, c)[s];
    }
  }

  /** A node put in where the search stopped leaves the list sorted and the bucket cells right. */
  lemma SpliceShape(h: Heap, c: seq<Gptr>, table: map<nat, Gptr>, w: nat, i: nat, p: Gptr, n: Node)
    requires List(h, c) && Cells(h, c, table, w) && MAX_LOG <= w
    requires 0 < i && p !in h && p != NULL && |n.bytes| <= BUFFER && StopsAt(h, c, i, n.bytes, n.key)
    ensures var h', c' := Spliced(h, c[i - 1], p, n, At(c, i)), WithNode(c, i, p);
      List(h', c') && Cells(h', c', table, w) && KeepsNodes(h, h')
  {
    var h', c' := Spliced(h, c[i - 1], p, n, At(c, i)), WithNode(c, i, p);
    assert LinkAt(h, c, i - 1) && Passes(h[c[i - 1]], n.bytes, n.key);
    SpliceKeeps(h, c, i, p, n);
    assert KeepsNodes(h, h');
    forall x | x in c
      ensures x in c'
    {
      var j :| 0 <= j < |c| && c[j] == x;
      assert c'[if j < i then j else j + 1] == x;
    }
    CellsKept(h, c, h', c', table, w);
  }

  lemma FirstBucket(hash: Hash, w: nat, h: Heap, c: seq<Gptr>)
    requires MAX_LOG <= w && h == map[1 := Node(DummyKey(0, w), [], 0, NULL)] && c == [1]
    ensures Pow2(1) == 2 && List(h, c) && Cells(h, c, map[0 := 1], w) && Filed(h, c, map[], hash, w)
  {
    PowLess(0, w);
    KeyParity(0, w);
    assert LinkAt(h, c, 0);
    assert CellOk(h, c, 0, 1, w);
  }

  lemma Placed(h: Heap, c: seq<Gptr>, at: map<Key, Gptr>, hash: Hash, w: nat, h': Heap, i: nat, p: Gptr, k: Key)
    requires List(h, c) && Filed(h, c, at, hash, w) && Hashes(hash, w) && |k| <= BUFFER
    requires StopsAt(h, c, i, k, RegularKey(hash(k), w)) && (i < |c| ==> !IsMatch(h[c[i]], k, RegularKey(hash(k), w)))
    requires KeepsNodes(h, h') && Linked(h', WithNode(c, i, p)) && p !in h
    requires p in h' && h'[p].key == RegularKey(hash(k), w) && h'[p].bytes == k && h'[p].value != 0
    ensures Filed(h', WithNode(c, i, p), at[k := p], hash, w) && k !in at
    ensures Unanswered(hash, Contents(h, at), k)
    ensures Contents(h', at[k := p]) == Contents(h, at)[k := h'[p].value]
  {
    NoMatchUnanswered(h, c, at, hash, w, i, k);
    AnswersItself(hash, k);
    KeyParity(hash(k), w);
    SpliceFiled(h, c, at, at[k := p], hash, w, h', i, p);
    SpliceContents(h, c, at, hash, w, h', p, k);
  }

  lemma ParentFirst(b: nat, w: nat)
    requires 0 < b < Pow2(MAX_LOG) && MAX_LOG <= w
    ensures DummyKey(Parent(b), w) < DummyKey(b, w) && DummyKey(b, w) % 2 == 0
  {
    PowLess(MAX_LOG, w);
    assert DummyKey(Parent(b), w) < DummyKey(b, w) by { ParentIsBefore(b, w); }
    assert DummyKey(b, w) % 2 == 0 by { KeyParity(b, w); }
  }

  lemma DummyPlaced(h: Heap, c: seq<Gptr>, at: map<Key, Gptr>, hash: Hash, w: nat, h': Heap, i: nat, p: Gptr)
    requires Filed(h, c, at, hash, w) && KeepsNodes(h, h') && i <= |c| && Linked(h', WithNode(c, i, p))
    requires p !in h && p in h' && !IsRegular(h'[p])
    ensures Filed(h', WithNode(c, i, p), at, hash, w) && Contents(h', at) == Contents(h, at) && p in WithNode(c, i, p)
  {
    SpliceFiled(h, c, at, at, hash, w, h', i, p);
    SpliceContents(h, c, at, hash, w, h', p, []);
    assert WithNode(c, i, p)[i] == p;
  }

  lemma Overwritten(h: Heap, c: seq<Gptr>, table: map<nat, Gptr>, at: map<Key, Gptr>, hash: Hash, w: nat, p: Gptr, v: nat)
    requires List(h, c) && Cells(h, c, table, w) && Filed(h, c, at, hash, w) && v != 0
    requires p in c && p in h && IsRegular(h[p])
    ensures var h' := h[p := h[p].(value := v)];
      && List(h', c) && Cells(h', c, table, w) && Filed(h', c, at, hash, w)
      && Contents(h', at) == Contents(h, at)[h[p].bytes := v]
  {
    var h' := h[p := h[p].(value := v)];
    var i :| 0 <= i < |c| && c[i] == p;
    UpdatedFiled(h, c, at, hash, w, i, v);
    ValueKeeps(h, c, p, v);
    forall b | b in table
      ensures CellOk(h', c, b, table[b], w)
    {
      assert CellOk(h, c, b, table[b], w);
    }
  }

  lemma OthersStay(h: Heap, c: seq<Gptr>, i: nat)
    requires i < |c| && c[i] in h && IsRegular(h[c[i]])
    ensures forall x | x in c && x in h && h[x].key % 2 == 0 :: x in WithoutNode(c, i)
  {
    forall x | x in c && x in h && h[x].key % 2 == 0
      ensures x in WithoutNode(c, i)
    {
      var j :| 0 <= j < |c| && c[j] == x;
      assert WithoutNode(c, i)[if j < i then j else j - 1] == x;
    }
  }

  lemma Unlinked(h: Heap, c: seq<Gptr>, table: map<nat, Gptr>, at: map<Key, Gptr>, hash: Hash, w: nat, i: nat,
                 h': Heap, c': seq<Gptr>, at': map<Key, Gptr>)
    requires List(h, c) && Cells(h, c, table, w) && Filed(h, c, at, hash, w) && MAX_LOG <= w
    requires 0 < i < |c| && IsRegular(h[c[i]])
    requires h' == Unspliced(h, c[i - 1], h[c[i]].next) && c' == WithoutNode(c, i) && at' == at - {h[c[i]].bytes}
    ensures List(h', c') && Cells(h', c', table, w) && Filed(h', c', at', hash, w)
    ensures Contents(h', at') == Contents(h, at) - {h[c[i]].bytes} && |at'| == |at| - 1
  {
    assert NodeOk(h[c[i]], c[i], at, hash, w);
    assert at.Keys == at'.Keys + {h[c[i]].bytes};
    UnspliceKeeps(h, c, i);
    assert KeepsNodes(h, h');
    RemovedFiled(h, c, at, hash, w, h', i);
    OthersStay(h, c, i);
    CellsKept(h, c, h', c', table, w);
  }

  const HARD_MAX_BUCKETS: nat := 1024 * 1024

  lemma Doubled(size: nat, log: nat)
    requires log <= MAX_LOG && size == Pow2(log)
    ensures 2 * size == Pow2(log + 1) && (2 * size <= HARD_MAX_BUCKETS <==> log < MAX_LOG)
  {
    assert Pow2(MAX_LOG) == HARD_MAX_BUCKETS by {
      assert Shl(1, 5) == 32 && Shl(32, 5) == 1024 && Shl(1024, 5) == 32768 && Shl(32768, 5) == HARD_MAX_BUCKETS;
      ShlShl(1, 5, 5);
      ShlShl(1, 10, 5);
      ShlShl(1, 15, 5);
    }
    if log < MAX_LOG { PowLess(log + 1, MAX_LOG); }
  }

  /** The size after one more key: it doubles when the load was above three quarters, up to the hard limit. */
  function Grown(size: nat, count: nat): nat {
    if 4 * count > 3 * size && 2 * size <= HARD_MAX_BUCKETS then 2 * size else size
  }

  /** The bucket of a hash comes before the hash's own place in the list. */
  lemma BucketBefore(h: nat, size: nat, log: nat, w: nat)
    requires h < Pow2(w) && log <= MAX_LOG <= w && size == Pow2(log)
    ensures h % size < Pow2(MAX_LOG) && DummyKey(h % size, w) < RegularKey(h, w)
  {
    PowLess(log, MAX_LOG);
    BucketIsRun(h, h % size, log, w);
  }

  lemma CellAdded(h: Heap, c: seq<Gptr>, table: map<nat, Gptr>, w: nat, b: nat, p: Gptr)
    requires Cells(h, c, table, w) && CellOk(h, c, b, p, w)
    ensures Cells(h, c, table[b := p], w)
  {
    forall x {:trigger CellOk(h, c, x, table[b := p][x], w)} | x in table[b := p]
      ensures CellOk(h, c, x, table[b := p][x], w)
    {
      if x != b { assert CellOk(h, c, x, table[x], w); }
    }
  }

  class SplitOrderedList {

    const hash: Hash
    /** Bits of a hash. */
    const w: nat
    var heap: Heap
    /** The next pointer that allocation gives out. */
    var brk: Gptr
    var table: map<nat, Gptr>
    var count: nat
    var size: nat
    /** The nodes in list order, each stored key's node, and the logarithm of the size. */
    ghost var chain: seq<Gptr>
    ghost var at: map<Key, Gptr>
    ghost var log: nat

    /** The list is sorted and every filled bucket cell points at the bucket's dummy in it. */
    ghost predicate Shape()
      reads this
    {
      && MAX_LOG <= w && Hashes(hash, w)
      && Below(heap, brk)
      && List(heap, chain)
      && 0 in table && Cells(heap, chain, table, w)
      && 1 <= log <= MAX_LOG && size == Pow2(log)
    }

    /** The size is a power of two no larger than 2^20 and the count is the number of stored keys. */
    ghost predicate Valid()
      reads this
    {
      Shape() && Filed(heap, chain, at, hash, w) && count == |at|
    }

    ghost function Map(): map<Key, nat>
      reads this
    {
      Contents(heap, at)
    }

    constructor (hash: Hash, w: nat)
      requires MAX_LOG <= w && Hashes(hash, w)
      ensures Valid() && Map() == map[] && size == 2 && this.hash == hash && this.w == w
    {
      this.hash, this.w := hash, w;
      heap, brk := map[1 := Node(DummyKey(0, w), [], 0, NULL)], 2;
      table, count, size := map[0 := 1], 0, 2;
      chain, at, log := [1], map[], 1;
      new;
      FirstBucket(hash, w, heap, chain);
    }

    /** ListFind, started at the cell of bucket `head`. */
    method ListFind(head: nat, k: Key, key: nat) returns (prev: Cell, cur: Gptr, value: nat, ghost i: nat)
      requires List(heap, chain) && |k| <= BUFFER
      requires head in table && table[head] in chain && heap[table[head]].key < key
      ensures 0 < i && StopsAt(heap, chain, i, k, key)
      ensures prev == Next(chain[i - 1]) && cur == At(chain, i)
      ensures value == if i < |chain| && IsMatch(heap[chain[i]], k, key) then heap[chain[i]].value else 0
    {
      prev, cur := Slot(head), table[head];
      ghost var s: nat :| s < |chain| && chain[s] == cur;
      i := s;
      Skipped(heap, chain, s, k, key);
      while cur != NULL
        invariant s <= i <= |chain| && cur == At(chain, i)
        invariant if i == s then prev == Slot(head) else prev == Next(chain[i - 1])
        invariant forall j {:trigger chain[j]} | 0 <= j < i :: Passes(heap[chain[j]], k, key)
        decreases |chain| - i
      {
        assert LinkAt(heap, chain, i);
        var node := heap[cur];
        if node.key >= key {
          if node.key == key {
            if Matches(node.bytes, k) {
              return prev, cur, node.value, i;
            }
          } else {
            return prev, cur, 0, i;
          }
        }
        prev, cur, i := Next(cur), node.next, i + 1;
      }
      value := 0;
    }

    /** ListInsert, started at the cell of bucket `head`. */
    method ListInsert(head: nat, n: Node) returns (inserted: bool, cur: Gptr, ghost i: nat)
      requires Shape() && head in table && DummyKey(head, w) < n.key && |n.bytes| <= BUFFER
      modifies this`heap, this`brk, this`chain
      ensures Shape()
      ensures 0 < i && StopsAt(old(heap), old(chain), i, n.bytes, n.key)
      ensures inserted ==>
                && cur == old(brk)
                && heap == Spliced(old(heap), old(chain)[i - 1], cur, n, At(old(chain), i))
                && chain == WithNode(old(chain), i, cur) && KeepsNodes(old(heap), heap)
                && (i < |old(chain)| && IsMatch(old(heap)[old(chain)[i]], n.bytes, n.key) ==> old(heap)[old(chain)[i]].value == 0)
      ensures !inserted ==>
                && heap == old(heap) && chain == old(chain) && brk == old(brk)
                && i < |chain| && cur == chain[i] && IsMatch(heap[cur], n.bytes, n.key)
    {
      assert CellOk(heap, chain, head, table[head], w);
      var prev, next, value, j := ListFind(head, n.bytes, n.key);
      i := j;
      if value != 0 {
        return false, next, i;
      }
      inserted, cur := true, brk;
      SpliceShape(heap, chain, table, w, i, cur, n);
      brk := brk + 1;
      heap := heap[cur := n.(next := next)];
      heap := heap[prev.node := heap[prev.node].(next := cur)];
      chain := WithNode(chain, i, cur);
    }

    /** InitializeBucket: give a bucket its dummy, and its parents theirs. */
    method InitializeBucket(b: nat)
      requires Valid() && b !in table && b < Pow2(MAX_LOG)
      modifies this`heap, this`brk, this`chain, this`table
      ensures Valid() && b in table && Map() == old(Map())
      ensures forall x | x in table :: x in old(table) || x <= b
      decreases b
    {
      var parent := Parent(b);
      if parent !in table {
        InitializeBucket(parent);
      }
      AddBucket(parent, b);
    }

    /** The dummy of bucket `b` is put in behind that of its parent. */
    method AddBucket(parent: nat, b: nat)
      requires Valid() && 0 < b < Pow2(MAX_LOG) && parent == Parent(b) && parent in table
      modifies this`heap, this`brk, this`chain, this`table
      ensures Valid() && table.Keys == old(table).Keys + {b} && Map() == old(Map())
    {
      ghost var h, c := heap, chain;
      ParentFirst(b, w);
      var inserted, cur, i := ListInsert(parent, Node(DummyKey(b, w), [], 0, NULL));
      if inserted { DummyPlaced(h, c, at, hash, w, heap, i, cur); }
      assert CellOk(heap, chain, b, cur, w);
      CellAdded(heap, chain, table, w, b, cur);
      table := table[b := cur];
    }

    /** The bucket of a hash, its cell filled on first use. */
    method Bucket(k: Key) returns (b: nat)
      requires Valid()
      modifies this`heap, this`brk, this`chain, this`table
      ensures Valid() && b == hash(k) % size && b in table && Map() == old(Map()) && DummyKey(b, w) < RegularKey(hash(k), w)
    {
      b := hash(k) % size;
      BucketBefore(hash(k), size, log, w);
      if b !in table {
        InitializeBucket(b);
      }
    }

    method Grow()
      requires Shape() && Filed(heap, chain, at, hash, w) && |at| == count + 1
      modifies this`count, this`size, this`log
      ensures Valid() && Map() == old(Map()) && count == old(count) + 1
      ensures size == Grown(old(size), old(count))
    {
      var csize, before := size, count;
      count := count + 1;
      if 4 * before > 3 * csize {
        Doubled(size, log);
        if 2 * csize <= HARD_MAX_BUCKETS {
          size, log := 2 * csize, log + 1;
        }
      }
    }

    /** The list takes in a new node for `k` behind bucket `b`, or shows the node that answers for it. */
    method PlaceIn(b: nat, k: Key, v: nat) returns (inserted: bool, cur: Gptr, ghost a: Key)
      requires Valid() && |k| <= BUFFER && v != 0 && b in table && DummyKey(b, w) < RegularKey(hash(k), w)
      modifies this`heap, this`brk, this`chain, this`at
      ensures Shape() && Filed(heap, chain, at, hash, w)
      ensures inserted ==> Unanswered(hash, old(Map()), k) && Map() == old(Map())[k := v] && |at| == count + 1
      ensures !inserted ==> Map() == old(Map()) && |at| == count
      ensures !inserted ==> a in Map() && Answers(hash, a, k)
      ensures !inserted ==> cur in chain && cur in heap && IsRegular(heap[cur]) && heap[cur].bytes == a
    {
      ghost var h, c := heap, chain;
      ghost var i: nat;
      inserted, cur, i := ListInsert(b, Node(RegularKey(hash(k), w), k, v, NULL));
      Verdict(h, c, at, hash, w, i, k);
      if inserted {
        Placed(h, c, at, hash, w, heap, i, cur, k);
        a, at := k, at[k := cur];
      } else {
        a := heap[cur].bytes;
      }
    }

    method Place(k: Key, v: nat) returns (inserted: bool, cur: Gptr, ghost a: Key)
      requires Valid() && |k| <= BUFFER && v != 0
      modifies this`heap, this`brk, this`chain, this`table, this`at
      ensures Shape() && Filed(heap, chain, at, hash, w) && hash(k) % size in table
      ensures inserted ==> Unanswered(hash, old(Map()), k) && Map() == old(Map())[k := v] && |at| == count + 1
      ensures !inserted ==> Map() == old(Map()) && |at| == count
      ensures !inserted ==> a in Map() && Answers(hash, a, k)
      ensures !inserted ==> cur in chain && cur in heap && IsRegular(heap[cur]) && heap[cur].bytes == a
    {
      var b := Bucket(k);
      inserted, cur, a := PlaceIn(b, k, v);
    }

    method Insert(k: Key, v: nat) returns (r: nat)
      requires Valid() && Legal(Call.Insert(k, v))
      modifies this
      ensures Valid() && count == |Map()| && Step(hash, old(Map()), Call.Insert(k, v), r, Map())
      ensures hash(k) % old(size) in table
      ensures count == old(count) + r && size == if r == 1 then Grown(old(size), old(count)) else old(size)
    {
      ghost var m := Map();
      var inserted, cur, a := Place(k, v);
      if !inserted {
        assert Hit(hash, m, Call.Insert(k, v), a, 0, m);
        ContentsKeys(heap, chain, at, hash, w);
        return 0;
      }
      assert Miss(hash, m, Call.Insert(k, v), 1, Map());
      Grow();
      ContentsKeys(heap, chain, at, hash, w);
      return 1;
    }

    /** InsertOrUpdate. */
    method Update(k: Key, v: nat) returns (r: nat)
      requires Valid() && Legal(Call.Update(k, v))
      modifies this
      ensures Valid() && count == |Map()| && Step(hash, old(Map()), Call.Update(k, v), r, Map())
      ensures hash(k) % old(size) in table
      ensures size == if count > old(count) then Grown(old(size), old(count)) else old(size)
    {
      ghost var m := Map();
      var inserted, cur, a := Place(k, v);
      if !inserted {
        Overwritten(heap, chain, table, at, hash, w, cur, v);
        heap := heap[cur := heap[cur].(value := v)];
        assert Hit(hash, m, Call.Update(k, v), a, 1, Map());
        ContentsKeys(heap, chain, at, hash, w);
        return 1;
      }
      assert Miss(hash, m, Call.Update(k, v), 1, Map());
      Grow();
      ContentsKeys(heap, chain, at, hash, w);
      return 1;
    }

    method Find(k: Key) returns (v: nat)
      requires Valid() && Legal(Call.Find(k))
      modifies this
      ensures Valid() && count == |Map()| && Step(hash, old(Map()), Call.Find(k), v, Map())
      ensures hash(k) % old(size) in table
      ensures count == old(count) && size == old(size)
    {
      var b := Bucket(k);
      var _, cur, value, i := ListFind(b, k, RegularKey(hash(k), w)) by {
        assert CellOk(heap, chain, b, table[b], w);
      }
      v := value;
      ContentsKeys(heap, chain, at, hash, w);
      Verdict(heap, chain, at, hash, w, i, k);
      if v != 0 {
        assert Hit(hash, Map(), Call.Find(k), heap[chain[i]].bytes, v, Map());
      } else {
        assert Miss(hash, Map(), Call.Find(k), v, Map());
      }
    }

    /** The pointer swing that takes a node off the list. */
    method Unlink(prev: Gptr, cur: Gptr, ghost i: nat)
      requires Valid() && 0 < i < |chain| && prev == chain[i - 1] && cur == chain[i] && IsRegular(heap[cur])
      modifies this`heap, this`chain, this`at
      ensures Shape() && Filed(heap, chain, at, hash, w) && |at| == count - 1
      ensures Map() == old(Map()) - {old(heap[cur].bytes)}
    {
      ghost var h, c, t := heap, chain, at;
      at := at - {heap[cur].bytes};
      heap := heap[prev := heap[prev].(next := heap[cur].next)];
      chain := WithoutNode(chain, i);
      Unlinked(h, c, table, t, hash, w, i, heap, chain, at);
    }

    /** ListDelete, started at the cell of bucket `head`; it marks the node and swings the pointer before it. */
    method ListDelete(head: nat, k: Key) returns (deleted: bool, ghost a: Key)
      requires Valid() && head in table && DummyKey(head, w) < RegularKey(hash(k), w) && |k| <= BUFFER
      modifies this`heap, this`chain, this`at
      ensures Shape() && Filed(heap, chain, at, hash, w)
      ensures !deleted ==> |at| == count && Map() == old(Map()) && Unanswered(hash, old(Map()), k)
      ensures deleted ==> |at| == count - 1 && a in old(Map()) && Answers(hash, a, k) && Map() == old(Map()) - {a}
    {
      assert CellOk(heap, chain, head, table[head], w);
      var prev, cur, value, i := ListFind(head, k, RegularKey(hash(k), w));
      Verdict(heap, chain, at, hash, w, i, k);
      deleted, a := value != 0, k;
      if deleted {
        a := heap[cur].bytes;
        Unlink(prev.node, cur, i);
      }
    }

    method Delete(k: Key) returns (r: nat)
      requires Valid() && Legal(Call.Delete(k))
      modifies this
      ensures Valid() && count == |Map()| && Step(hash, old(Map()), Call.Delete(k), r, Map())
      ensures hash(k) % old(size) in table
      ensures count == old(count) - r && size == old(size)
    {
      ghost var m := Map();
      var b := Bucket(k);
      var deleted, a := ListDelete(b, k);
      ContentsKeys(heap, chain, at, hash, w);
      if !deleted {
        assert Miss(hash, m, Call.Delete(k), 0, m);
        return 0;
      }
      assert Hit(hash, m, Call.Delete(k), a, 1, Map());
      count := count - 1;
      return 1;
    }
  }
}
