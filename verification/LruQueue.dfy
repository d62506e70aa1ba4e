/** One LRU queue and the crawler that walks it (extra/KVS-DRAM-Cache/items.c:443-495, 1745-1841;
    extra/KVS-DRAM-Cache/crawler.c:311-362). The crawler is an item of its own that is linked into the queue and
    swaps places with its predecessor at every step. */
module LruQueue {

  /** Address of an item; 0 is null. */
  type Ptr = nat

  type Links = map<Ptr, Ptr>

  ghost function At(q: seq<Ptr>, i: int): Ptr {
    if 0 <= i < |q| then q[i] else 0
  }

  ghost predicate LinkedAt(next: Links, prev: Links, q: seq<Ptr>, i: nat)
    requires i < |q|
  {
    && q[i] != 0 && q[i] in next && q[i] in prev
    && next[q[i]] == At(q, i + 1) && prev[q[i]] == At(q, i - 1)
  }

  ghost predicate Differ(q: seq<Ptr>, i: nat, j: nat)
    requires i < |q| && j < |q|
  {
    q[i] != q[j]
  }

  /** The queue from head to tail is a doubly linked list. */
  ghost predicate Linked(next: Links, prev: Links, q: seq<Ptr>) {
    && (forall i {:trigger LinkedAt(next, prev, q, i)} | 0 <= i < |q| :: LinkedAt(next, prev, q, i))
    && (forall i, j {:trigger Differ(q, i, j)} | 0 <= i < |q| && 0 <= j < |q| && i != j :: Differ(q, i, j))
  }

  ghost predicate Ends(head: Ptr, tail: Ptr, q: seq<Ptr>) {
    head == At(q, 0) && tail == At(q, |q| - 1)
  }

  /** The items of the queue without the crawler, in order. */
  function Items(q: seq<Ptr>, crawler: Ptr): seq<Ptr> {
    if q == [] then [] else (if q[0] == crawler then [] else [q[0]]) + Items(q[1..], crawler)
  }

  function Bytes(q: seq<Ptr>, total: Ptr -> nat): nat {
    if q == [] then 0 else total(q[0]) + Bytes(q[1..], total)
  }

  lemma {:induction false} ItemsCat(a: seq<Ptr>, b: seq<Ptr>, crawler: Ptr)
    ensures Items(a + b, crawler) == Items(a, crawler) + Items(b, crawler)
  {
    if a == [] {
      assert a + b == b;
    } else {
      assert (a + b)[1..] == a[1..] + b;
      ItemsCat(a[1..], b, crawler);
    }
  }

  lemma {:induction false} BytesCat(a: seq<Ptr>, b: seq<Ptr>, total: Ptr -> nat)
    ensures Bytes(a + b, total) == Bytes(a, total) + Bytes(b, total)
  {
    if a == [] {
      assert a + b == b;
    } else {
      assert (a + b)[1..] == a[1..] + b;
      BytesCat(a[1..], b, total);
    }
  }

  function Without(q: seq<Ptr>, i: nat): seq<Ptr>
    requires i < |q|
  {
    q[..i] + q[i + 1..]
  }

  function Single(x: Ptr, crawler: Ptr): seq<Ptr> { if x == crawler then [] else [x] }

  lemma ItemsAround(a: seq<Ptr>, x: Ptr, b: seq<Ptr>, crawler: Ptr)
    ensures Items(a + [x] + b, crawler) == Items(a, crawler) + Single(x, crawler) + Items(b, crawler)
  {
    ItemsCat(a + [x], b, crawler);
    ItemsCat(a, [x], crawler);
    ItemsOne(x, crawler);
  }

  lemma ItemsOne(x: Ptr, crawler: Ptr)
    ensures Items([x], crawler) == Single(x, crawler)
  {
    assert [x][1..] == [];
  }

  lemma BytesAround(a: seq<Ptr>, x: Ptr, b: seq<Ptr>, total: Ptr -> nat)
    ensures Bytes(a + [x] + b, total) == Bytes(a + b, total) + total(x)
  {
    BytesCat(a + [x], b, total);
    BytesCat(a, [x], total);
    BytesCat(a, b, total);
    assert [x][1..] == [];
  }

  lemma ItemsBehind(q: seq<Ptr>, crawler: Ptr)
    ensures Items(q + [crawler], crawler) == Items(q, crawler)
  {
    ItemsCat(q, [crawler], crawler);
    assert [crawler][1..] == [];
  }

  /** Counting an item in or out. */
  lemma ItemsWithout(q: seq<Ptr>, i: nat, crawler: Ptr, total: Ptr -> nat)
    requires i < |q| && q[i] != crawler
    ensures |Items(q, crawler)| == |Items(Without(q, i), crawler)| + 1
    ensures Bytes(Items(q, crawler), total) == Bytes(Items(Without(q, i), crawler), total) + total(q[i])
  {
    var a, b := q[..i], q[i + 1..];
    assert q == a + [q[i]] + b;
    ItemsAround(a, q[i], b, crawler);
    ItemsCat(a, b, crawler);
    BytesAround(Items(a, crawler), q[i], Items(b, crawler), total);
  }

  lemma ItemsWithoutCrawler(q: seq<Ptr>, i: nat, crawler: Ptr)
    requires i < |q| && q[i] == crawler
    ensures Items(Without(q, i), crawler) == Items(q, crawler)
  {
    assert q == q[..i] + [q[i]] + q[i + 1..];
    ItemsAround(q[..i], q[i], q[i + 1..], crawler);
    ItemsCat(q[..i], q[i + 1..], crawler);
  }

  /* ---- the shuffles of the pointers ---- */

  /** The pointers after a new head is put in. */
  lemma HeadLinks(next: Links, prev: Links, q: seq<Ptr>, x: Ptr, next': Links, prev': Links)
    requires Linked(next, prev, q) && x != 0 && x !in q
    requires next' == next[x := At(q, 0)]
    requires prev' == if q == [] then prev[x := 0] else prev[x := 0][q[0] := x]
    ensures Linked(next', prev', [x] + q)
  {
    var q' := [x] + q;
    forall i | 0 <= i < |q'|
      ensures LinkedAt(next', prev', q', i)
    {
      if i > 0 {
        assert LinkedAt(next, prev, q, i - 1);
        if i > 1 { assert Differ(q, 0, i - 1); }
      }
    }
    forall i, j | 0 <= i < |q'| && 0 <= j < |q'| && i != j
      ensures Differ(q', i, j)
    {
      if i > 0 && j > 0 { assert Differ(q, i - 1, j - 1); }
    }
  }

  lemma TailLinks(next: Links, prev: Links, q: seq<Ptr>, x: Ptr, next': Links, prev': Links)
    requires Linked(next, prev, q) && x != 0 && x !in q
    requires prev' == prev[x := At(q, |q| - 1)]
    requires next' == if q == [] then next[x := 0] else next[x := 0][q[|q| - 1] := x]
    ensures Linked(next', prev', q + [x])
  {
    var q' := q + [x];
    forall i | 0 <= i < |q'|
      ensures LinkedAt(next', prev', q', i)
    {
      if i < |q| {
        assert LinkedAt(next, prev, q, i);
        if i < |q| - 1 { assert Differ(q, |q| - 1, i); }
      }
    }
    forall i, j | 0 <= i < |q'| && 0 <= j < |q'| && i != j
      ensures Differ(q', i, j)
    {
      if i < |q| && j < |q| { assert Differ(q, i, j); }
    }
  }

  /** The pointers after position `i` is bridged. */
  lemma BridgeLinks(next: Links, prev: Links, q: seq<Ptr>, i: nat, next': Links, prev': Links)
    requires Linked(next, prev, q) && i < |q|
    requires prev' == if i + 1 < |q| then prev[q[i + 1] := At(q, i - 1)] else prev
    requires next' == if i > 0 then next[q[i - 1] := At(q, i + 1)] else next
    ensures Linked(next', prev', Without(q, i))
  {
    var q' := Without(q, i);
    forall j | 0 <= j < |q'|
      ensures LinkedAt(next', prev', q', j)
    {
      var k := if j < i then j else j + 1;
      assert LinkedAt(next, prev, q, k);
      if i > 0 && k != i - 1 { assert Differ(q, i - 1, k); }
      if i + 1 < |q| && k != i + 1 { assert Differ(q, i + 1, k); }
    }
    forall j, k | 0 <= j < |q'| && 0 <= k < |q'| && j != k
      ensures Differ(q', j, k)
    {
      assert Differ(q, if j < i then j else j + 1, if k < i then k else k + 1);
    }
  }

  lemma GoneWithout(next: Links, prev: Links, q: seq<Ptr>, i: nat)
    requires Linked(next, prev, q) && i < |q|
    ensures q[i] !in Without(q, i)
  {
    var q' := Without(q, i);
    forall j | 0 <= j < |q'|
      ensures q'[j] != q[i]
    {
      assert Differ(q, i, if j < i then j else j + 1);
    }
  }

  lemma SwappedSplit(all: seq<Ptr>, n: nat, crawler: Ptr)
    requires 0 < n <= |all|
    ensures Swapped(all[..n] + [crawler] + all[n..], n) == all[..n - 1] + [crawler] + all[n - 1..]
    ensures (all[..n] + [crawler] + all[n..])[n] == crawler && (all[..n] + [crawler] + all[n..])[n - 1] == all[n - 1]
  {}

  /** The queue with the crawler at position `i` moved in front of its predecessor. */
  function Swapped(q: seq<Ptr>, i: nat): seq<Ptr>
    requires 0 < i < |q|
  {
    q[i - 1 := q[i]][i := q[i - 1]]
  }

  /** The pointers after the crawler at position `i` and its predecessor have changed places. */
  lemma SwapLinks(next: Links, prev: Links, q: seq<Ptr>, i: nat, next': Links, prev': Links)
    requires Linked(next, prev, q) && 0 < i < |q|
    requires next' == (if i > 1 then next[q[i - 1] := At(q, i + 1)][q[i] := q[i - 1]][q[i - 2] := q[i]]
                       else next[q[i - 1] := At(q, i + 1)][q[i] := q[i - 1]])
    requires prev' == (if i + 1 < |q| then prev[q[i + 1] := q[i - 1]] else prev)[q[i] := At(q, i - 2)][q[i - 1] := q[i]]
    ensures Linked(next', prev', Swapped(q, i))
  {
    var q' := Swapped(q, i);
    assert LinkedAt(next, prev, q, i - 1) && LinkedAt(next, prev, q, i);
    forall j | 0 <= j < |q'|
      ensures LinkedAt(next', prev', q', j)
    {
      assert LinkedAt(next, prev, q, j);
      assert Differ(q, i - 1, i);
      if j != i - 1 && j != i {
        assert Differ(q, i - 1, j) && Differ(q, i, j);
        if i > 1 && j != i - 2 { assert Differ(q, i - 2, j); }
        if i + 1 < |q| && j != i + 1 { assert Differ(q, i + 1, j); }
      } else {
        assert i > 1 ==> Differ(q, i - 2, i - 1) && Differ(q, i - 2, i);
        assert i + 1 < |q| ==> Differ(q, i + 1, i - 1) && Differ(q, i + 1, i);
      }
    }
    forall j, k | 0 <= j < |q'| && 0 <= k < |q'| && j != k
      ensures Differ(q', j, k)
    {
      var j' := if j == i then i - 1 else if j == i - 1 then i else j;
      var k' := if k == i then i - 1 else if k == i - 1 then i else k;
      assert Differ(q, j', k');
    }
  }

  /** The crawler's move changes nothing in the order of the items. */
  lemma SwapItems(q: seq<Ptr>, i: nat, crawler: Ptr)
    requires 0 < i < |q| && q[i] == crawler
    ensures Items(Swapped(q, i), crawler) == Items(q, crawler)
  {
    var a, x, b := q[..i - 1], q[i - 1], q[i + 1..];
    assert q == (a + [x]) + [crawler] + b && Swapped(q, i) == a + [crawler] + ([x] + b);
    ItemsAround(a + [x], crawler, b, crawler);
    ItemsAround(a, crawler, [x] + b, crawler);
    ItemsCat(a, [x], crawler);
    ItemsCat([x], b, crawler);
  }

  /* ---- the queue ---- */

  class Queue {

    /** The item that stands for the crawler, and the size of every item. */
    const crawler: Ptr
    const total: Ptr -> nat
    var next: Links
    var prev: Links
    var head: Ptr
    var tail: Ptr
    var size: nat
    var bytes: nat
    /** The queue from head to tail. */
    ghost var q: seq<Ptr>

    ghost predicate Valid()
      reads this
    {
      && crawler != 0
      && Linked(next, prev, q) && Ends(head, tail, q)
      && size == |Items(q, crawler)| && bytes == Bytes(Items(q, crawler), total)
    }

    constructor (crawler: Ptr, total: Ptr -> nat)
      requires crawler != 0
      ensures Valid() && q == []
    {
      this.crawler, this.total := crawler, total;
      next, prev, head, tail, size, bytes, q := map[], map[], 0, 0, 0, 0, [];
    }

    /** do_item_link_q: a new head. */
    method Link(x: Ptr)
      requires Valid() && x != 0 && x != crawler && x !in q
      modifies this
      ensures Valid() && q == [x] + old(q)
    {
      LinkHead(x);
      assert Without(q, 0) == old(q);
      ItemsWithout(q, 0, crawler, total);
      size := size + 1;
      bytes := bytes + total(x);
    }

    /** The pointers of it. */
    method LinkHead(x: Ptr)
      requires Linked(next, prev, q) && Ends(head, tail, q) && x != 0 && x !in q
      modifies this`next, this`prev, this`head, this`tail, this`q
      ensures Linked(next, prev, q) && Ends(head, tail, q) && q == [x] + old(q)
    {
      assert q != [] ==> LinkedAt(next, prev, q, 0) && LinkedAt(next, prev, q, |q| - 1);
      prev := prev[x := 0];
      next := next[x := head];
      if next[x] != 0 { prev := prev[next[x] := x]; }
      head := x;
      if tail == 0 { tail := x; }
      HeadLinks(old(next), old(prev), q, x, next, prev);
      q := [x] + q;
    }

    /** The part of do_item_unlink_q and do_item_unlinktail_q that takes an item out of the list; it does nothing to a
        crawler that has come out already, for which `i` is the length of the queue. */
    method Bridge(x: Ptr, ghost i: nat)
      requires Linked(next, prev, q) && Ends(head, tail, q)
      requires if i < |q| then q[i] == x else x == crawler && Out()
      modifies this`next, this`prev, this`head, this`tail, this`q
      ensures Linked(next, prev, q) && Ends(head, tail, q)
      ensures q == if i < |old(q)| then Without(old(q), i) else old(q)
    {
      if i < |q| {
        assert LinkedAt(next, prev, q, i);
        assert i > 0 ==> Differ(q, 0, i) && LinkedAt(next, prev, q, i - 1);
        assert i + 1 < |q| ==> Differ(q, |q| - 1, i) && LinkedAt(next, prev, q, i + 1);
        BridgeLinks(next, prev, q, i, if i > 0 then next[q[i - 1] := At(q, i + 1)] else next,
                    if i + 1 < |q| then prev[q[i + 1] := At(q, i - 1)] else prev);
      } else {
        assert LinkedAt(next, prev, q, 0);
        assert prev == prev[q[0] := 0];
      }
      if head == x { head := next[x]; }
      if tail == x { tail := prev[x]; }
      var n, p := next[x], prev[x];
      if n != 0 { prev := prev[n := p]; }
      if p != 0 { next := next[p := n]; }
      if i < |q| { q := Without(q, i); }
    }

    /** do_item_unlink_q. */
    method Unlink(x: Ptr)
      requires Valid() && x != crawler && x in q
      modifies this
      ensures Valid() && exists i :: 0 <= i < |old(q)| && old(q)[i] == x && q == Without(old(q), i)
    {
      ghost var i: nat :| i < |q| && q[i] == x;
      ItemsWithout(q, i, crawler, total);
      Bridge(x, i);
      size := size - 1;
      bytes := bytes - total(x);
    }

    /** do_item_linktail_q: the crawler enters at the tail. */
    method LinkTail()
      requires Valid() && crawler !in q
      modifies this
      ensures Valid() && q == old(q) + [crawler]
    {
      assert q != [] ==> LinkedAt(next, prev, q, |q| - 1) && LinkedAt(next, prev, q, 0);
      prev := prev[crawler := tail];
      next := next[crawler := 0];
      if prev[crawler] != 0 { next := next[prev[crawler] := crawler]; }
      tail := crawler;
      if head == 0 { head := crawler; }
      TailLinks(old(next), old(prev), q, crawler, next, prev);
      ItemsBehind(q, crawler);
      q := q + [crawler];
    }

    /** The crawler has come out of the queue at the head; its own pointers still lead there. */
    ghost predicate Out()
      reads this
    {
      crawler !in q && q != [] && crawler in next && crawler in prev && next[crawler] == q[0] && prev[crawler] == 0
    }

    /** do_item_crawl_q: the crawler changes places with the item before it and gives that item, or comes out at the
        head and gives null; when it is alone in the queue it stays. */
    method Crawl(ghost i: nat) returns (search: Ptr)
      requires Valid() && i < |q| && q[i] == crawler
      modifies this`next, this`prev, this`head, this`tail, this`q
      ensures Valid() && Items(q, crawler) == old(Items(q, crawler))
      ensures search == 0 <==> i == 0
      ensures i > 0 ==> search == old(q)[i - 1] && q == Swapped(old(q), i)
      ensures i == 0 && |old(q)| == 1 ==> q == old(q)
      ensures i == 0 && |old(q)| > 1 ==> q == old(q)[1..] && Out()
    {
      assert LinkedAt(next, prev, q, i);
      assert i > 0 ==> LinkedAt(next, prev, q, i - 1) && Differ(q, 0, i);
      assert i + 1 < |q| ==> LinkedAt(next, prev, q, i + 1) && Differ(q, i, i + 1) && Differ(q, i, |q| - 1);
      if prev[crawler] == 0 {
        var n := next[crawler];
        if n != 0 {
          ComeOut();
        }
        return 0;
      }
      SwapItems(q, i, crawler);
      Swing(i);
      assert LinkedAt(next, prev, q, i - 1);
      search := next[crawler];
    }

    /** The crawler at the head leaves it to the next item. */
    method ComeOut()
      requires Valid() && |q| > 1 && q[0] == crawler
      modifies this`prev, this`head, this`q
      ensures Valid() && q == old(q)[1..] && Out() && Items(q, crawler) == old(Items(q, crawler))
    {
      assert LinkedAt(next, prev, q, 0) && LinkedAt(next, prev, q, 1) && Differ(q, 0, 1);
      BridgeLinks(next, prev, q, 0, next, prev[q[1] := 0]);
      ItemsWithoutCrawler(q, 0, crawler);
      head := next[crawler];
      prev := prev[next[crawler] := 0];
      assert Without(q, 0) == q[1..];
      GoneWithout(old(next), old(prev), q, 0);
      q := q[1..];
    }

    /** The swing in front of the item before. */
    method Swing(ghost i: nat)
      requires Linked(next, prev, q) && Ends(head, tail, q) && 0 < i < |q| && q[i] == crawler
      modifies this`next, this`prev, this`head, this`tail, this`q
      ensures Linked(next, prev, q) && Ends(head, tail, q) && q == Swapped(old(q), i)
    {
      assert LinkedAt(next, prev, q, i) && LinkedAt(next, prev, q, i - 1) && Differ(q, i - 1, i);
      assert i > 1 ==> LinkedAt(next, prev, q, i - 2) && Differ(q, i - 2, i) && Differ(q, 0, i - 1);
      assert i + 1 < |q| ==> LinkedAt(next, prev, q, i + 1) && Differ(q, i + 1, i - 1) && Differ(q, i, |q| - 1);
      SwapLinks(next, prev, q, i,
                if i > 1 then next[q[i - 1] := At(q, i + 1)][q[i] := q[i - 1]][q[i - 2] := q[i]]
                else next[q[i - 1] := At(q, i + 1)][q[i] := q[i - 1]],
                (if i + 1 < |q| then prev[q[i + 1] := q[i - 1]] else prev)[q[i] := At(q, i - 2)][q[i - 1] := q[i]]);
      var p, n := prev[crawler], next[crawler];
      if head == p { head := crawler; }
      if tail == crawler { tail := p; }
      if n != 0 {
        next := next[p := n];
        prev := prev[n := p];
      } else {
        next := next[p := 0];
      }
      next := next[crawler := p];
      prev := prev[crawler := prev[p]];
      prev := prev[p := crawler];
      if prev[crawler] != 0 {
        next := next[prev[crawler] := crawler];
      }
      q := Swapped(q, i);
    }

    /** do_item_unlinktail_q: the crawler is taken out wherever it is, and nothing happens if it has come out. */
    method UnlinkTail()
      requires Valid() && (crawler in q || Out())
      modifies this`next, this`prev, this`head, this`tail, this`q
      ensures Valid() && crawler !in q && Items(q, crawler) == old(Items(q, crawler))
      ensures old(crawler !in q) ==> q == old(q)
    {
      ghost var i := |q|;
      if crawler in q {
        i :| 0 <= i < |q| && q[i] == crawler;
        ItemsWithoutCrawler(q, i, crawler);
        GoneWithout(next, prev, q, i);
      }
      Bridge(crawler, i);
    }

    /** A crawl that nothing interrupts: every item is given once, from the tail to the head, and the queue is left as
        it was. */
    method CrawlAll() returns (visited: seq<Ptr>)
      requires Valid() && crawler !in q
      modifies this
      ensures Valid() && q == old(q)
      ensures |visited| == |q| && forall i | 0 <= i < |q| :: visited[i] == q[|q| - 1 - i]
    {
      visited := [];
      LinkTail();
      ghost var all, n := old(q), |q| - 1;
      if n > 0 { SwappedSplit(all, n, crawler); }
      assert q == all[..n] + [crawler] + all[n..];
      var search := Crawl(n);
      while search != 0
        invariant Valid() && 0 <= n <= |all| && crawler !in all
        invariant search != 0 ==> n > 0 && search == all[n - 1] && q == all[..n - 1] + [crawler] + all[n - 1..]
        invariant search == 0 ==> n == 0 && (if all == [] then q == [crawler] else q == all && Out())
        invariant |visited| == |all| - n && forall i | 0 <= i < |visited| :: visited[i] == all[|all| - 1 - i]
        decreases n
      {
        visited := visited + [search];
        n := n - 1;
        if n > 0 { SwappedSplit(all, n, crawler); }
        search := Crawl(n);
      }
      UnlinkTail();
    }
  }
}
