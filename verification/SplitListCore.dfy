/** The shared linked list of the split-ordered table as its compare-and-swaps leave it
    (src/split_ordered.cc:177-317). Nodes are taken off in two steps: a mark on the node's own next cell, then a
    swing of the pointer before it. */
module SplitListCore {

  import opened Common

  /** A next cell: mark, pointer and tag are read and swapped as one word. */
  datatype Link = Link(mark: bool, ptr: Gptr, tag: nat)

  datatype Name = Name(key: nat, bytes: Key)

  /** `key` is the split-order key: odd for a stored key, even for a bucket's dummy. */
  datatype Node = Node(name: Name, next: Link)

  /** The list: `placed` are the nodes ever put in, `freed` those taken off again in that order. `pos` gives every
      placed node a place on the number line; it says which of two nodes comes first and never changes. */
  datatype Core = Core(heap: map<Gptr, Node>, root: Gptr, placed: set<Gptr>, freed: seq<Gptr>, pos: map<Gptr, real>)

  predicate IsRegular(n: Name) { n.key % 2 == 1 }

  /** The node is on the list. */
  predicate In(c: Core, p: Gptr) {
    p in c.placed && p !in c.freed && p in c.heap && p in c.pos
  }

  /** The node is on the list and not marked: what it stores is in the table. */
  predicate Live(c: Core, p: Gptr) {
    p in c.placed && p in c.heap && !c.heap[p].next.mark
  }

  /** The names stored in the table. */
  function Names(c: Core): set<Name> {
    set p | p in c.placed && Live(c, p) :: c.heap[p].name
  }

  /* ---- well-formed lists ---- */

  ghost predicate NodeOk(c: Core, p: Gptr) {
    && p != 0 && p in c.heap && p in c.pos
    && (c.heap[p].next.ptr != 0 ==> c.heap[p].next.ptr in c.placed)
    && (p in c.freed ==> c.heap[p].next.mark)
    && (c.heap[p].next.mark ==> IsRegular(c.heap[p].name))
  }

  /** A next pointer on the list leads to a later node on the list. */
  ghost predicate Onward(c: Core, p: Gptr)
    requires In(c, p)
  {
    var q := c.heap[p].next.ptr;
    q != 0 ==> In(c, q) && c.pos[p] < c.pos[q]
  }

  /** No node between a node and its successor; the order is that of the keys. */
  ghost predicate Leads(c: Core, p: Gptr, x: Gptr)
    requires In(c, p) && In(c, x)
  {
    && (c.pos[p] == c.pos[x] ==> p == x)
    && (c.pos[p] < c.pos[x] ==>
          && c.heap[p].name.key <= c.heap[x].name.key
          && var q := c.heap[p].next.ptr; q != 0 && In(c, q) && c.pos[p] < c.pos[q] <= c.pos[x])
  }

  /** A stored key has one live node. */
  ghost predicate Alone(c: Core, p: Gptr, x: Gptr)
    requires Live(c, p) && Live(c, x)
  {
    c.heap[p].name == c.heap[x].name && IsRegular(c.heap[p].name) ==> p == x
  }

  ghost predicate WellFormed(c: Core) {
    && In(c, c.root) && c.heap[c.root].name.key == 0 && 0 !in c.heap
    && NoDup(c.freed) && (forall p | p in c.freed :: p in c.placed)
    && (forall p {:trigger NodeOk(c, p)} | p in c.placed :: NodeOk(c, p))
    && (forall p {:trigger Onward(c, p)} | In(c, p) :: Onward(c, p))
    && (forall p, x {:trigger Leads(c, p, x)} | In(c, p) && In(c, x) :: Leads(c, p, x))
    && (forall p, x {:trigger Alone(c, p, x)} | Live(c, p) && Live(c, x) :: Alone(c, p, x))
    && (forall p {:trigger c.pos[p]} | In(c, p) && p != c.root :: c.pos[c.root] < c.pos[p])
  }

  lemma LiveIsIn(c: Core, p: Gptr)
    requires WellFormed(c) && Live(c, p)
    ensures In(c, p)
  {
    assert NodeOk(c, p);
  }

  /* ---- the three successful swaps ---- */

  /** Where a node between `prev` and its successor goes. */
  function Between(c: Core, prev: Gptr, next: Gptr): real
    requires prev in c.pos
  {
    if next != 0 && next in c.pos then (c.pos[prev] + c.pos[next]) / 2.0 else c.pos[prev] + 1.0
  }

  /** The swing that puts `p` in behind `prev`. */
  function Put(c: Core, prev: Gptr, p: Gptr, cur: Link): Core
    requires prev in c.heap && p in c.heap && prev in c.pos
  {
    c.(heap := c.heap[p := c.heap[p].(next := Link(false, cur.ptr, 0))]
                     [prev := c.heap[prev].(next := Link(false, p, cur.tag + 1))],
       placed := c.placed + {p},
       pos := c.pos[p := Between(c, prev, cur.ptr)])
  }

  /** The mark on `cur`. */
  function Mark(c: Core, cur: Gptr): Core
    requires cur in c.heap
  {
    var l := c.heap[cur].next;
    c.(heap := c.heap[cur := c.heap[cur].(next := Link(true, l.ptr, l.tag + 1))])
  }

  /** The swing that takes `cur` off behind `prev`. */
  function Cut(c: Core, prev: Gptr, cur: Link, next: Gptr): Core
    requires prev in c.heap
  {
    c.(heap := c.heap[prev := c.heap[prev].(next := Link(false, next, cur.tag + 1))],
       freed := c.freed + [cur.ptr])
  }

  /** `p` may go in behind `prev`. */
  ghost predicate MayPut(c: Core, prev: Gptr, p: Gptr, cur: Link) {
    && prev in c.placed && prev in c.heap && prev in c.pos && c.heap[prev].next == Link(false, cur.ptr, cur.tag)
    && p in c.heap && p != 0 && p !in c.placed
    && c.heap[prev].name.key <= c.heap[p].name.key
    && (cur.ptr != 0 ==> cur.ptr in c.heap && c.heap[p].name.key <= c.heap[cur.ptr].name.key)
    && (IsRegular(c.heap[p].name) ==> c.heap[p].name !in Names(c))
  }

  lemma PutNodes(c: Core, prev: Gptr, p: Gptr, cur: Link, x: Gptr)
    requires WellFormed(c) && MayPut(c, prev, p, cur)
    ensures In(c, prev) && p !in c.freed
    ensures In(Put(c, prev, p, cur), x) <==> In(c, x) || x == p
    ensures Live(Put(c, prev, p, cur), x) <==> Live(c, x) || x == p
    ensures x in c.placed + {p} ==> NodeOk(Put(c, prev, p, cur), x)
    ensures x in c.placed + {p} ==> Put(c, prev, p, cur).heap[x].name == c.heap[x].name
  {
    assert NodeOk(c, prev);
    if x in c.placed { assert NodeOk(c, x); }
  }

  /** The new node lies right behind `prev` and before everything behind `prev`. */
  lemma PutBetween(c: Core, prev: Gptr, p: Gptr, cur: Link, x: Gptr)
    requires WellFormed(c) && MayPut(c, prev, p, cur) && In(c, x)
    ensures In(c, prev) && (cur.ptr != 0 ==> In(c, cur.ptr))
    ensures var b := Between(c, prev, cur.ptr);
      && (c.pos[x] <= c.pos[prev] ==> c.pos[x] < b && c.heap[x].name.key <= c.heap[p].name.key)
      && (c.pos[x] > c.pos[prev] ==>
            && cur.ptr != 0 && c.pos[prev] < b < c.pos[cur.ptr] <= c.pos[x]
            && c.heap[p].name.key <= c.heap[x].name.key)
  {
    LiveIsIn(c, prev);
    assert Onward(c, prev);
    assert Leads(c, prev, x) && Leads(c, x, prev);
    if cur.ptr != 0 { assert Leads(c, cur.ptr, x); }
  }

  lemma PutLeads(c: Core, prev: Gptr, p: Gptr, cur: Link, a: Gptr, b: Gptr)
    requires WellFormed(c) && MayPut(c, prev, p, cur)
    requires In(Put(c, prev, p, cur), a) && In(Put(c, prev, p, cur), b)
    ensures Leads(Put(c, prev, p, cur), a, b)
  {
    var c' := Put(c, prev, p, cur);
    PutNodes(c, prev, p, cur, a);
    PutNodes(c, prev, p, cur, b);
    PutNodes(c, prev, p, cur, c.heap[a].next.ptr);
    if a != p { PutBetween(c, prev, p, cur, a); }
    if b != p { PutBetween(c, prev, p, cur, b); }
    if a != p && b != p {
      assert Leads(c, a, b);
      if a == prev { assert Leads(c, prev, b); }
    } else if a != p && a != prev {
      assert Leads(c, a, prev);
      PutBetween(c, prev, p, cur, prev);
    }
  }

  lemma PutKeeps(c: Core, prev: Gptr, p: Gptr, cur: Link)
    requires WellFormed(c) && MayPut(c, prev, p, cur)
    ensures WellFormed(Put(c, prev, p, cur))
  {
    var c' := Put(c, prev, p, cur);
    PutNodes(c, prev, p, cur, c.root);
    forall x | x in c'.placed ensures NodeOk(c', x) { PutNodes(c, prev, p, cur, x); }
    forall a, b | In(c', a) && In(c', b) ensures Leads(c', a, b) { PutLeads(c, prev, p, cur, a, b); }
    forall a | In(c', a) ensures Onward(c', a) { PutOnward(c, prev, p, cur, a); }
    forall a, b | Live(c', a) && Live(c', b) ensures Alone(c', a, b) { PutAlone(c, prev, p, cur, a, b); }
    forall a | In(c', a) && a != c'.root ensures c'.pos[c'.root] < c'.pos[a] {
      PutNodes(c, prev, p, cur, a);
      PutBetween(c, prev, p, cur, c.root);
      assert prev != c.root ==> c.pos[c.root] < c.pos[prev];
    }
  }

  lemma PutOnward(c: Core, prev: Gptr, p: Gptr, cur: Link, a: Gptr)
    requires WellFormed(c) && MayPut(c, prev, p, cur) && In(Put(c, prev, p, cur), a)
    ensures Onward(Put(c, prev, p, cur), a)
  {
    PutNodes(c, prev, p, cur, a);
    PutBetween(c, prev, p, cur, prev);
    if cur.ptr != 0 { PutBetween(c, prev, p, cur, cur.ptr); }
    if a != p { assert Onward(c, a); }
  }

  lemma PutAlone(c: Core, prev: Gptr, p: Gptr, cur: Link, a: Gptr, b: Gptr)
    requires WellFormed(c) && MayPut(c, prev, p, cur) && Live(Put(c, prev, p, cur), a) && Live(Put(c, prev, p, cur), b)
    ensures Alone(Put(c, prev, p, cur), a, b)
  {
    PutNodes(c, prev, p, cur, a);
    PutNodes(c, prev, p, cur, b);
    if a != p && b != p { assert Alone(c, a, b); }
  }

  lemma PutNames(c: Core, prev: Gptr, p: Gptr, cur: Link)
    requires WellFormed(c) && MayPut(c, prev, p, cur)
    ensures Names(Put(c, prev, p, cur)) == Names(c) + {c.heap[p].name}
  {
    var c' := Put(c, prev, p, cur);
    forall n
      ensures n in Names(c') <==> n in Names(c) || n == c.heap[p].name
    {
      forall x ensures Live(c', x) <==> Live(c, x) || x == p { PutNodes(c, prev, p, cur, x); }
      assert Live(c', p);
      if n in Names(c) {
        var x :| x in c.placed && Live(c, x) && c.heap[x].name == n;
        assert Live(c', x);
      }
    }
  }

  /* ---- marking ---- */

  ghost predicate MayMark(c: Core, cur: Gptr) {
    Live(c, cur) && IsRegular(c.heap[cur].name)
  }

  lemma MarkKeeps(c: Core, cur: Gptr)
    requires WellFormed(c) && MayMark(c, cur)
    ensures WellFormed(Mark(c, cur))
  {
    var c' := Mark(c, cur);
    forall x | x in c'.placed ensures NodeOk(c', x) { assert NodeOk(c, x); }
    forall a | In(c', a) ensures Onward(c', a) { assert Onward(c, a); }
    forall a, b | In(c', a) && In(c', b) ensures Leads(c', a, b) { assert Leads(c, a, b); }
    forall a, b | Live(c', a) && Live(c', b) ensures Alone(c', a, b) { assert Alone(c, a, b); }
  }

  /** The mark takes the node's name out of the table, and nothing else. */
  lemma MarkNames(c: Core, cur: Gptr)
    requires WellFormed(c) && MayMark(c, cur)
    ensures c.heap[cur].name in Names(c) && Names(Mark(c, cur)) == Names(c) - {c.heap[cur].name}
  {
    var c' := Mark(c, cur);
    forall n
      ensures n in Names(c') <==> n in Names(c) && n != c.heap[cur].name
    {
      assert forall x :: Live(c', x) <==> Live(c, x) && x != cur;
      if n in Names(c') {
        var x :| x in c'.placed && Live(c', x) && c'.heap[x].name == n;
        assert Alone(c, x, cur);
      }
      if n in Names(c) && n != c.heap[cur].name {
        var x :| x in c.placed && Live(c, x) && c.heap[x].name == n;
        assert Live(c', x);
      }
    }
  }

  /* ---- cutting ---- */

  /** `cur` is marked and may be taken off behind `prev`. */
  ghost predicate MayCut(c: Core, prev: Gptr, cur: Link, next: Gptr) {
    && prev in c.placed && prev in c.heap && c.heap[prev].next == Link(false, cur.ptr, cur.tag)
    && cur.ptr in c.placed && cur.ptr in c.heap && c.heap[cur.ptr].next.mark && c.heap[cur.ptr].next.ptr == next
  }

  /** What is cut is on the list, right behind `prev`, so it is cut for the first time. */
  lemma CutNodes(c: Core, prev: Gptr, cur: Link, next: Gptr, x: Gptr)
    requires WellFormed(c) && MayCut(c, prev, cur, next)
    ensures In(c, prev) && In(c, cur.ptr) && prev != cur.ptr && c.pos[prev] < c.pos[cur.ptr]
    ensures In(Cut(c, prev, cur, next), x) <==> In(c, x) && x != cur.ptr
    ensures Live(Cut(c, prev, cur, next), x) <==> Live(c, x)
    ensures x in c.placed ==> NodeOk(Cut(c, prev, cur, next), x) && Cut(c, prev, cur, next).heap[x].name == c.heap[x].name
  {
    LiveIsIn(c, prev);
    assert NodeOk(c, prev) && NodeOk(c, cur.ptr);
    assert Onward(c, prev);
    if x in c.placed { assert NodeOk(c, x); }
  }

  lemma CutLeads(c: Core, prev: Gptr, cur: Link, next: Gptr, a: Gptr, b: Gptr)
    requires WellFormed(c) && MayCut(c, prev, cur, next)
    requires In(Cut(c, prev, cur, next), a) && In(Cut(c, prev, cur, next), b)
    ensures Leads(Cut(c, prev, cur, next), a, b)
  {
    CutNodes(c, prev, cur, next, a);
    CutNodes(c, prev, cur, next, b);
    CutNodes(c, prev, cur, next, next);
    CutNodes(c, prev, cur, next, c.heap[a].next.ptr);
    assert Leads(c, a, b) && Leads(c, cur.ptr, b);
    assert Leads(c, prev, a) && Leads(c, a, prev) && Leads(c, cur.ptr, a) && Leads(c, a, cur.ptr);
  }

  lemma CutOnward(c: Core, prev: Gptr, cur: Link, next: Gptr, a: Gptr)
    requires WellFormed(c) && MayCut(c, prev, cur, next) && In(Cut(c, prev, cur, next), a)
    ensures Onward(Cut(c, prev, cur, next), a)
  {
    CutNodes(c, prev, cur, next, a);
    CutNodes(c, prev, cur, next, next);
    CutNodes(c, prev, cur, next, c.heap[a].next.ptr);
    assert Onward(c, a) && Onward(c, cur.ptr);
    assert Leads(c, prev, a) && Leads(c, a, prev) && Leads(c, a, cur.ptr);
  }

  lemma CutKeeps(c: Core, prev: Gptr, cur: Link, next: Gptr)
    requires WellFormed(c) && MayCut(c, prev, cur, next)
    ensures WellFormed(Cut(c, prev, cur, next)) && cur.ptr !in c.freed
    ensures Names(Cut(c, prev, cur, next)) == Names(c)
  {
    var c' := Cut(c, prev, cur, next);
    CutNodes(c, prev, cur, next, c.root);
    assert NodeOk(c, c.root);
    forall x | x in c'.placed ensures NodeOk(c', x) { CutNodes(c, prev, cur, next, x); }
    forall a | In(c', a) ensures Onward(c', a) { CutOnward(c, prev, cur, next, a); }
    forall a, b | In(c', a) && In(c', b) ensures Leads(c', a, b) { CutLeads(c, prev, cur, next, a, b); }
    forall a, b | Live(c', a) && Live(c', b) ensures Alone(c', a, b) {
      CutNodes(c, prev, cur, next, a);
      CutNodes(c, prev, cur, next, b);
      assert Alone(c, a, b);
    }
    forall x ensures Live(c', x) <==> Live(c, x) { CutNodes(c, prev, cur, next, x); }
  }

  /* ---- walking the list ---- */

  ghost predicate Hop(c: Core, p: Gptr, q: Gptr) {
    p in c.heap && q != 0 && c.heap[p].next.ptr == q
  }

  /** The nodes met by following next pointers. */
  ghost predicate IsWalk(c: Core, path: seq<Gptr>) {
    path != [] && forall i, j {:trigger Hop(c, path[i], path[j])} | 0 <= i < |path| - 1 && j == i + 1 :: Hop(c, path[i], path[j])
  }

  ghost function Segment(c: Core, p: Gptr, x: Gptr): set<Gptr>
    requires In(c, p) && In(c, x)
  {
    set y | y in c.placed && In(c, y) && c.pos[p] < c.pos[y] <= c.pos[x]
  }

  /** Every node on the list is reached from every earlier one. */
  lemma {:induction false} Walk(c: Core, p: Gptr, x: Gptr) returns (path: seq<Gptr>)
    requires WellFormed(c) && In(c, p) && In(c, x) && c.pos[p] <= c.pos[x]
    ensures IsWalk(c, path) && path[0] == p && path[|path| - 1] == x
    decreases |Segment(c, p, x)|
  {
    assert Leads(c, p, x);
    if p == x {
      path := [p];
    } else {
      var q := c.heap[p].next.ptr;
      assert q in Segment(c, p, x) && q !in Segment(c, q, x) && Segment(c, q, x) <= Segment(c, p, x) - {q};
      Smaller(Segment(c, q, x), Segment(c, p, x), q);
      var rest := Walk(c, q, x);
      path := [p] + rest;
      forall i, j | 0 <= i < |path| - 1 && j == i + 1
        ensures Hop(c, path[i], path[j])
      {
        if i > 0 { assert Hop(c, rest[i - 1], rest[j - 1]); }
      }
    }
  }

  lemma Smaller(a: set<Gptr>, b: set<Gptr>, q: Gptr)
    requires a <= b - {q} && q in b
    ensures |a| < |b|
  {
    SubsetSize(a, b - {q});
  }

  /** A walk from bucket 0 stays on the list and never meets a smaller key. */
  lemma {:induction false} WalkIsSorted(c: Core, path: seq<Gptr>, i: nat, j: nat)
    requires WellFormed(c) && IsWalk(c, path) && path[0] == c.root && i <= j < |path|
    ensures In(c, path[i]) && In(c, path[j]) && c.heap[path[i]].name.key <= c.heap[path[j]].name.key
    decreases j
  {
    if j > 0 {
      WalkIsSorted(c, path, if i < j then i else j - 1, j - 1);
      assert Hop(c, path[j - 1], path[j]);
      assert Onward(c, path[j - 1]);
      assert Leads(c, path[j - 1], path[j]);
    }
  }
}
