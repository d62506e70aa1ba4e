/** The slab allocator and its page mover (extra/KVS-DRAM-Cache/slabs.c:222-320, 374-398, 517-561, 656-1070) for items that
    are not chunked. Each method is one stretch under the slabs lock, so any order of calls is an interleaving of
    the mover with other threads. */
module SlabMover {

  import opened Common

  type Page = nat

  /** The chunk at a position of a page. */
  datatype Chunk = Chunk(page: Page, index: nat)

  /** Free: on its class's freelist. Cleared: taken off it for good, ready for the move. Used: handed out; `linked`
      says whether it is in the cache, and `refs` counts the link and the threads that hold the item. */
  datatype Status = Free | Cleared | Used(linked: bool, refs: nat)

  /** The move under way: a page of class `s` goes to class `d`, where 0 is the global page pool. `held` is the item
      the mover has locked while it lets go of the slabs lock, and `saved` the chunk it will be copied to. */
  datatype Rebalance =
    | Quiet
    | Moving(s: nat, d: nat, page: Page, pos: nat, busy: nat, loops: nat, done: bool, held: Option<Chunk>, saved: Option<Chunk>)

  /* ---- pages ---- */

  ghost predicate Housed(pages: seq<seq<Page>>, home: map<Page, nat>, c: nat)
    requires c < |pages|
  {
    NoDup(pages[c]) && forall p :: p in pages[c] <==> p in home && home[p] == c
  }

  /** Every page is in exactly one class, once; `home` says in which. */
  ghost predicate Homes(pages: seq<seq<Page>>, home: map<Page, nat>) {
    && (forall c {:trigger Housed(pages, home, c)} | 0 <= c < |pages| :: Housed(pages, home, c))
    && (forall p | p in home :: home[p] < |pages|)
  }

  ghost function NonEmpty(pages: seq<seq<Page>>): set<nat> {
    set c | 0 < c < |pages| && pages[c] != []
  }

  /* ---- chunks ---- */

  ghost predicate IsChunk(home: map<Page, nat>, perslab: seq<nat>, x: Chunk) {
    x.page in home && 0 < home[x.page] < |perslab| && x.index < perslab[home[x.page]]
  }

  ghost predicate Statuses(st: map<Chunk, Status>, home: map<Page, nat>, perslab: seq<nat>) {
    forall x {:trigger x in st} :: x in st <==> IsChunk(home, perslab, x)
  }

  ghost predicate OnList(st: map<Chunk, Status>, home: map<Page, nat>, c: nat, x: Chunk) {
    x in st && st[x] == Free && x.page in home && home[x.page] == c
  }

  /** The freelist of a class holds the class's free chunks, each once. */
  ghost predicate Listed(slots: seq<seq<Chunk>>, st: map<Chunk, Status>, home: map<Page, nat>, c: nat)
    requires c < |slots|
  {
    NoDup(slots[c]) && forall x {:trigger x in slots[c]} :: x in slots[c] <==> OnList(st, home, c, x)
  }

  ghost predicate Lists(slots: seq<seq<Chunk>>, st: map<Chunk, Status>, home: map<Page, nat>) {
    forall c {:trigger Listed(slots, st, home, c)} | 0 < c < |slots| :: Listed(slots, st, home, c)
  }

  lemma NoPages(pages: seq<seq<Page>>, slots: seq<seq<Chunk>>, perslab: seq<nat>)
    requires (forall c | 0 <= c < |pages| :: pages[c] == []) && (forall c | 0 <= c < |slots| :: slots[c] == [])
    ensures Homes(pages, map[]) && Statuses(map[], map[], perslab) && Lists(slots, map[], map[]) && NonEmpty(pages) == {}
  {
    forall c {:trigger Housed(pages, map[], c)} | 0 <= c < |pages| ensures Housed(pages, map[], c) {}
    forall c {:trigger Listed(slots, map[], map[], c)} | 0 < c < |slots| ensures Listed(slots, map[], map[], c) {}
  }

  lemma PopKeeps(slots: seq<seq<Chunk>>, st: map<Chunk, Status>, home: map<Page, nat>, c: nat, i: nat, v: Status)
    requires Lists(slots, st, home) && 0 < c < |slots| && i < |slots[c]| && v != Free
    ensures var x := slots[c][i]; x in st && st[x] == Free && x.page in home && home[x.page] == c
    ensures var slots' := slots[c := slots[c][..i] + slots[c][i + 1..]];
      Lists(slots', st[slots[c][i] := v], home)
  {
    var x := slots[c][i];
    var slots', st' := slots[c := slots[c][..i] + slots[c][i + 1..]], st[x := v];
    assert Listed(slots, st, home, c);
    assert x in slots[c];
    forall k | 0 < k < |slots'|
      ensures Listed(slots', st', home, k)
    {
      assert Listed(slots, st, home, k);
      if k == c {
        forall y ensures y in slots'[c] <==> OnList(st', home, c, y) {
          assert y in slots'[c] <==> y in slots[c] && y != x;
        }
      }
    }
  }

  lemma PushKeeps(slots: seq<seq<Chunk>>, st: map<Chunk, Status>, home: map<Page, nat>, c: nat, x: Chunk)
    requires Lists(slots, st, home) && 0 < c < |slots|
    requires x in st && st[x] != Free && x.page in home && home[x.page] == c
    ensures Lists(slots[c := [x] + slots[c]], st[x := Free], home)
  {
    var slots', st' := slots[c := [x] + slots[c]], st[x := Free];
    forall k | 0 < k < |slots'|
      ensures Listed(slots', st', home, k)
    {
      assert Listed(slots, st, home, k);
      assert x !in slots[k];
    }
  }

  lemma StatusKeeps(slots: seq<seq<Chunk>>, st: map<Chunk, Status>, home: map<Page, nat>, x: Chunk, v: Status)
    requires Lists(slots, st, home) && x in st && st[x] != Free && v != Free
    ensures Lists(slots, st[x := v], home)
  {
    var st' := st[x := v];
    forall k {:trigger Listed(slots, st', home, k)} | 0 < k < |slots|
      ensures Listed(slots, st', home, k)
    {
      assert Listed(slots, st, home, k);
    }
  }

  lemma NewFreeKeeps(slots: seq<seq<Chunk>>, st: map<Chunk, Status>, home: map<Page, nat>, c: nat, x: Chunk)
    requires Lists(slots, st, home) && 0 < c < |slots| && x !in st && x.page in home && home[x.page] == c
    ensures Lists(slots[c := [x] + slots[c]], st[x := Free], home)
  {
    var slots', st' := slots[c := [x] + slots[c]], st[x := Free];
    forall k | 0 < k < |slots'|
      ensures Listed(slots', st', home, k)
    {
      assert Listed(slots, st, home, k);
      assert x !in slots[k];
    }
  }

  /* ---- the mover ---- */

  ghost predicate PageDone(st: map<Chunk, Status>, page: Page, n: nat) {
    forall j {:trigger Chunk(page, j)} | 0 <= j < n :: Chunk(page, j) in st && st[Chunk(page, j)] == Cleared
  }

  ghost predicate Holding(r: Rebalance, st: map<Chunk, Status>, home: map<Page, nat>)
    requires r.Moving?
  {
    && (r.held == None ==> r.saved == None)
    && (r.held.Some? ==> r.held.value == Chunk(r.page, r.pos) && r.held.value in st && st[r.held.value] == Used(true, 2))
    && (r.saved.Some? ==>
          && r.saved.value in st && st[r.saved.value] == Used(false, 1)
          && r.saved.value.page != r.page && r.saved.value.page in home && home[r.saved.value.page] == r.s)
  }

  /** Behind the cursor every chunk of the page is cleared unless a busy one was met, the page is the first of a class
      that owns at least two, and only its chunks are cleared. */
  ghost predicate MoverOk(r: Rebalance, pages: seq<seq<Page>>, st: map<Chunk, Status>, home: map<Page, nat>, perslab: seq<nat>)
    requires |pages| == |perslab|
  {
    match r
    case Quiet => forall x | x in st :: st[x] != Cleared
    case Moving(s, d, page, pos, busy, _, done, held, _) =>
      && 0 < s < |pages| && d < |pages| && s != d
      && |pages[s]| >= 2 && pages[s][0] == page && page in home && home[page] == s
      && (if done then pos == perslab[s] && busy == 0 && held == None else pos < perslab[s])
      && (busy == 0 ==> PageDone(st, page, pos))
      && (forall x | x in st && st[x] == Cleared :: x.page == page)
      && Holding(r, st, home)
  }

  /** When the mover says it is done, no chunk of the page is on a freelist, handed out, or linked. */
  lemma DoneIsClear(r: Rebalance, pages: seq<seq<Page>>, slots: seq<seq<Chunk>>, st: map<Chunk, Status>, home: map<Page, nat>,
                    perslab: seq<nat>, x: Chunk, c: nat)
    requires |pages| == |perslab| == |slots| && MoverOk(r, pages, st, home, perslab) && r.Moving? && r.done
    requires Statuses(st, home, perslab) && Lists(slots, st, home)
    requires x.page == r.page && 0 < c < |slots|
    ensures x !in slots[c] && (x in st ==> st[x] == Cleared)
  {
    assert Listed(slots, st, home, c);
    if x in st {
      assert IsChunk(home, perslab, x);
      assert x == Chunk(r.page, x.index);
    }
  }

  /** Nobody but the mover touches what it holds. */
  predicate Others(r: Rebalance, x: Chunk) {
    r.Moving? ==> r.held != Some(x) && r.saved != Some(x)
  }

  lemma OtherKeepsMover(r: Rebalance, pages: seq<seq<Page>>, st: map<Chunk, Status>, home: map<Page, nat>, perslab: seq<nat>, x: Chunk, v: Status)
    requires |pages| == |perslab| && MoverOk(r, pages, st, home, perslab)
    requires x in st && st[x] != Cleared && v != Cleared && Others(r, x)
    ensures MoverOk(r, pages, st[x := v], home, perslab)
  {}

  /* ---- moving pages between classes ---- */

  function WithoutAt<T>(s: seq<T>, i: nat): seq<T>
    requires i < |s|
  {
    s[..i] + s[i + 1..]
  }

  lemma HomesRemove(pages: seq<seq<Page>>, home: map<Page, nat>, c: nat, i: nat)
    requires Homes(pages, home) && c < |pages| && i < |pages[c]|
    ensures pages[c][i] in home && home[pages[c][i]] == c
    ensures Homes(pages[c := WithoutAt(pages[c], i)], home - {pages[c][i]})
  {
    var p := pages[c][i];
    var pages', home' := pages[c := WithoutAt(pages[c], i)], home - {p};
    assert Housed(pages, home, c) && p in pages[c];
    forall k {:trigger Housed(pages', home', k)} | 0 <= k < |pages'|
      ensures Housed(pages', home', k)
    {
      assert Housed(pages, home, k);
      if k == c {
        forall q ensures q in pages'[c] <==> q in home' && home'[q] == c {
          assert q in pages'[c] <==> q in pages[c] && q != p;
        }
      }
    }
  }

  lemma HomesAdd(pages: seq<seq<Page>>, home: map<Page, nat>, c: nat, p: Page)
    requires Homes(pages, home) && c < |pages| && p !in home
    ensures Homes(pages[c := pages[c] + [p]], home[p := c])
  {
    var pages', home' := pages[c := pages[c] + [p]], home[p := c];
    forall k {:trigger Housed(pages', home', k)} | 0 <= k < |pages'|
      ensures Housed(pages', home', k)
    {
      assert Housed(pages, home, k) && p !in pages[k];
    }
  }

  lemma HomesMove(pages: seq<seq<Page>>, home: map<Page, nat>, c: nat, i: nat, d: nat)
    requires Homes(pages, home) && c < |pages| && i < |pages[c]| && d < |pages| && c != d
    ensures pages[c][i] in home && home[pages[c][i]] == c
    ensures var pages' := pages[c := WithoutAt(pages[c], i)];
      Homes(pages'[d := pages'[d] + [pages[c][i]]], home[pages[c][i] := d])
  {
    var p := pages[c][i];
    HomesRemove(pages, home, c, i);
    HomesAdd(pages[c := WithoutAt(pages[c], i)], home - {p}, d, p);
    assert (home - {p})[p := d] == home[p := d];
  }

  /** A page without chunks may change its class under the freelists. */
  lemma ListsRehome(slots: seq<seq<Chunk>>, st: map<Chunk, Status>, home: map<Page, nat>, home': map<Page, nat>)
    requires Lists(slots, st, home)
    requires forall x | x in st && x.page in home :: x.page in home' && home'[x.page] == home[x.page]
    requires forall x | x in st :: x.page in home
    ensures Lists(slots, st, home')
  {
    forall k {:trigger Listed(slots, st, home', k)} | 0 < k < |slots|
      ensures Listed(slots, st, home', k)
    {
      assert Listed(slots, st, home, k);
    }
  }

  /** A class that has a page, or one more class that has one. */
  lemma MoreNonEmpty(pages: seq<seq<Page>>, pages': seq<seq<Page>>, c: nat)
    requires |pages'| == |pages| && 0 < c < |pages| && pages'[c] != []
    requires forall k | 0 < k < |pages| && pages[k] != [] :: pages'[k] != []
    ensures |NonEmpty(pages')| >= |NonEmpty(pages)| + if pages[c] == [] then 1 else 0
  {
    var a, b := NonEmpty(pages), NonEmpty(pages');
    assert a <= b && c in b;
    if pages[c] == [] {
      assert a <= b - {c};
      SubsetSize(a, b - {c});
    } else {
      SubsetSize(a, b);
    }
  }

  lemma SameOrMore(pages: seq<seq<Page>>, pages': seq<seq<Page>>)
    requires |pages'| == |pages|
    requires forall k | 0 < k < |pages| && pages[k] != [] :: pages'[k] != []
    ensures |NonEmpty(pages')| >= |NonEmpty(pages)|
  {
    SubsetSize(NonEmpty(pages), NonEmpty(pages'));
  }

  lemma Scale(a: nat, x: nat, y: nat)
    requires x <= y
    ensures a * x <= a * y && a * (x + 1) == a * x + a
  {}

  lemma OneLess(a: nat, x: nat, y: nat)
    requires y == a * (x + 1)
    ensures y >= a && y - a == a * x
  {}

  lemma HomeGrows(home: map<Page, nat>, page: Page, c: nat)
    requires page !in home
    ensures |home[page := c]| == |home| + 1
  {
    assert home[page := c].Keys == home.Keys + {page};
  }

  /** The first `n` chunks of a page, in the order in which they go to the freelist: the last of them is first there. */
  function ChunksOf(page: Page, n: nat): seq<Chunk> { seq(n, i requires 0 <= i < n => Chunk(page, n - 1 - i)) }

  ghost predicate SameBefore(st: map<Chunk, Status>, st': map<Chunk, Status>, page: Page) {
    && (forall x | x in st' && x !in st :: x.page == page && st'[x] == Free)
    && (forall x | x in st :: x in st' && st'[x] == st[x])
  }

  /** Giving a class one more page, all of its chunks free, does not concern the mover. */
  lemma NewPageKeepsMover(r: Rebalance, pages: seq<seq<Page>>, pages': seq<seq<Page>>, st: map<Chunk, Status>, st': map<Chunk, Status>,
                          home: map<Page, nat>, home': map<Page, nat>, perslab: seq<nat>, page: Page)
    requires |pages| == |pages'| == |perslab| && MoverOk(r, pages, st, home, perslab) && SameBefore(st, st', page)
    requires forall c | 0 < c < |pages| :: pages[c] <= pages'[c]
    requires forall p | p in home && p != page :: p in home' && home'[p] == home[p]
    requires page in home ==> home[page] == 0
    ensures MoverOk(r, pages', st', home', perslab)
  {}

  /** Class `c` has got the page, from the pool or new. */
  lemma TakenKeepsMover(r: Rebalance, pages: seq<seq<Page>>, pages': seq<seq<Page>>, st: map<Chunk, Status>, st': map<Chunk, Status>,
                        home: map<Page, nat>, home': map<Page, nat>, perslab: seq<nat>, page: Page, c: nat)
    requires |pages| == |pages'| == |perslab| && 0 < c < |pages| && MoverOk(r, pages, st, home, perslab) && SameBefore(st, st', page)
    requires home' == home[page := c] && (page in home ==> home[page] == 0)
    requires pages'[c] == pages[c] + [page] && forall k | 0 < k < |pages| && k != c :: pages'[k] == pages[k]
    ensures MoverOk(r, pages', st', home', perslab)
  {
    NewPageKeepsMover(r, pages, pages', st, st', home, home', perslab, page);
  }

  /** The mover clears a chunk of its page that is not the one it holds. */
  lemma ClearKeepsMover(r: Rebalance, pages: seq<seq<Page>>, st: map<Chunk, Status>, home: map<Page, nat>, perslab: seq<nat>, x: Chunk)
    requires |pages| == |perslab| && MoverOk(r, pages, st, home, perslab) && r.Moving?
    requires x in st && x.page == r.page && Others(r, x)
    ensures MoverOk(r, pages, st[x := Cleared], home, perslab)
  {}

  const MAX_LOOPS: nat := 1000

  /** The cursor moves on; at the end of the page the pass starts again if a busy chunk was met. */
  function Advance(r: Rebalance, n: nat): Rebalance
    requires r.Moving?
  {
    if r.pos + 1 < n then r.(pos := r.pos + 1, held := None, saved := None)
    else if r.busy > 0 then r.(pos := 0, busy := 0, loops := r.loops + 1, held := None, saved := None)
    else r.(pos := r.pos + 1, done := true, held := None, saved := None)
  }

  lemma AdvanceKeepsMover(r: Rebalance, pages: seq<seq<Page>>, st: map<Chunk, Status>, home: map<Page, nat>, perslab: seq<nat>)
    requires |pages| == |perslab| && r.Moving? && MoverOk(r.(held := None, saved := None), pages, st, home, perslab) && !r.done
    requires r.busy == 0 ==> Chunk(r.page, r.pos) in st && st[Chunk(r.page, r.pos)] == Cleared
    ensures MoverOk(Advance(r, perslab[r.s]), pages, st, home, perslab)
  {}

  /** What is left when the page's chunks are given up. */
  function WithoutPage(st: map<Chunk, Status>, page: Page): map<Chunk, Status> {
    map x | x in st && x.page != page :: st[x]
  }

  lemma PageLeaves(slots: seq<seq<Chunk>>, st: map<Chunk, Status>, home: map<Page, nat>, page: Page)
    requires Lists(slots, st, home)
    requires forall x | x in st && x.page == page :: st[x] != Free
    ensures Lists(slots, WithoutPage(st, page), home)
  {
    var st' := WithoutPage(st, page);
    forall k {:trigger Listed(slots, st', home, k)} | 0 < k < |slots|
      ensures Listed(slots, st', home, k)
    {
      assert Listed(slots, st, home, k);
    }
  }

  /** Pages of the pool may be gone, and nothing else. */
  ghost predicate Released(home: map<Page, nat>, home': map<Page, nat>) {
    && (forall p | p in home' :: p in home && home'[p] == home[p])
    && (forall p | p in home && p !in home' :: home[p] == 0)
  }

  /** Taking a page keeps the bound when the limit has room for it or the class is one more that has a page. */
  lemma StaysBounded(page: nat, limit: nat, m: nat, m': nat, e: nat, e': nat, first: bool)
    requires m <= limit + page * e && e' >= e + if first then 1 else 0
    requires m' == m || (m' == m + page && (first || m + page <= limit))
    ensures m' <= limit + page * e'
  {
    Scale(page, e, e');
    if first { Scale(page, e + 1, e'); }
    Scale(page, e, e);
    assert page * e' >= 0;
  }

  /** Free chunks of the page may be cleared and the chunk `x`, off the page, is handed out; nothing else happens. */
  ghost predicate Cleaned(st: map<Chunk, Status>, st': map<Chunk, Status>, page: Page, x: Option<Chunk>) {
    && st'.Keys == st.Keys
    && (forall y | y in st && st'[y] != st[y] ::
          st[y] == Free && if x == Some(y) then y.page != page && st'[y] == Used(false, 1) else y.page == page && st'[y] == Cleared)
    && (x.Some? ==> x.value in st && st[x.value] == Free && st'[x.value] == Used(false, 1))
  }

  /** One more chunk comes off the freelist: it is on the page and is cleared, or it is the chunk that was looked for. */
  lemma CleanedMore(st: map<Chunk, Status>, st': map<Chunk, Status>, page: Page, x: Chunk)
    requires Cleaned(st, st', page, None) && x in st' && st'[x] == Free
    ensures x.page == page ==> Cleaned(st, st'[x := Cleared], page, None)
    ensures x.page != page ==> Cleaned(st, st'[x := Used(false, 1)], page, Some(x))
  {}

  /** A chunk that was free, or was not there, is handed out; all others are as they were, and new ones are free. */
  ghost predicate HandedOut(st: map<Chunk, Status>, st': map<Chunk, Status>, x: Chunk) {
    && x in st' && st'[x] == Used(false, 1) && (x in st ==> st[x] == Free)
    && (forall y | y in st && y != x :: y in st' && st'[y] == st[y])
    && (forall y | y in st' && y !in st && y != x :: st'[y] == Free)
  }

  /** One of the first `n` chunks of a freelist is off the page. */
  predicate Available(q: seq<Chunk>, page: Page, n: nat) {
    exists i :: 0 <= i < |q| && i < n && q[i].page != page
  }

  /** The mover is not done while a chunk of its page is handed out. */
  lemma NotDone(r: Rebalance, pages: seq<seq<Page>>, st: map<Chunk, Status>, home: map<Page, nat>, perslab: seq<nat>, x: Chunk)
    requires |pages| == |perslab| && MoverOk(r, pages, st, home, perslab) && r.Moving? && Statuses(st, home, perslab)
    requires x in st && x.page == r.page && st[x].Used?
    ensures !r.done
  {
    assert IsChunk(home, perslab, x);
    assert x == Chunk(r.page, x.index);
  }

  /** The chunks of a page that are handed out. */
  ghost function Left(st: map<Chunk, Status>, page: Page): set<Chunk> {
    set x | x in st && x.page == page && st[x].Used?
  }

  /** No item of the page is in anybody's hands: what is handed out there is linked and has no reference but the mover's. */
  ghost predicate IdleOn(st: map<Chunk, Status>, page: Page) {
    forall x | x in st && x.page == page && st[x].Used? :: st[x] == Used(true, 1)
  }

  /** The cursor goes one chunk on, or back to the first one for another pass. */
  ghost predicate Moves(r: Rebalance, r': Rebalance, n: nat)
    requires r.Moving?
  {
    && r'.Moving? && r'.held == None && r'.page == r.page && r'.s == r.s
    && (|| (r'.pos == r.pos + 1 && r'.loops == r.loops)
        || (r'.pos == 0 && r'.loops == r.loops + 1 && r.pos + 1 == n && !r'.done))
  }

  /** An item that others hold stays as it is until too many passes were made, and then it is unlinked. */
  ghost predicate Patient(st: map<Chunk, Status>, st': map<Chunk, Status>, x: Chunk, loops: nat) {
    x in st && st[x].Used? && st[x].linked && st[x].refs > 1 ==>
      x in st' && st'[x] == if loops > MAX_LOOPS then Used(false, st[x].refs - 1) else st[x]
  }

  /** What is handed out stays as it is, but for `x`. */
  ghost predicate UsedStay(st: map<Chunk, Status>, st': map<Chunk, Status>, x: Chunk) {
    forall y | y in st && st[y].Used? && y != x :: y in st' && st'[y] == st[y]
  }

  lemma HeldRound(st: map<Chunk, Status>, mid: map<Chunk, Status>, st': map<Chunk, Status>, page: Page, x: Chunk, saved: Option<Chunk>)
    requires x in st && x in mid && Cleaned(st, mid[x := Used(true, 1)], page, saved)
    requires st' == if saved.Some? then mid[saved.value := Used(true, 1)][x := Cleared] else mid[x := Free]
    ensures UsedStay(st, st', x)
  {}

  /** An idle item of the page was held, and then moved to `saved` or dropped. */
  lemma RoundDone(st: map<Chunk, Status>, mid: map<Chunk, Status>, st': map<Chunk, Status>, page: Page, x: Chunk, saved: Option<Chunk>)
    requires IdleOn(st, page) && x in Left(st, page) && x in mid && Cleaned(st, mid[x := Used(true, 1)], page, saved)
    requires st' == if saved.Some? then mid[saved.value := Used(true, 1)][x := Cleared] else mid[x := Free]
    ensures IdleOn(st', page) && Left(st', page) < Left(st, page)
  {
    LeftLess(st, st', page, x);
  }

  lemma LeftLess(st: map<Chunk, Status>, st': map<Chunk, Status>, page: Page, x: Chunk)
    requires x in Left(st, page) && x in st' && !st'[x].Used?
    requires forall y | y in st' && y != x && y.page == page :: y in st && (st'[y].Used? ==> st[y].Used?)
    ensures Left(st', page) < Left(st, page)
  {
    assert x !in Left(st', page);
  }

  lemma LeftSame(st: map<Chunk, Status>, st': map<Chunk, Status>, page: Page)
    requires st'.Keys == st.Keys && forall y | y in st && y.page == page :: st'[y].Used? <==> st[y].Used?
    ensures Left(st', page) == Left(st, page)
  {}

  /** A busy chunk: the pass will have to be made again. */
  function Busy(r: Rebalance, n: nat): Rebalance
    requires r.Moving?
  {
    Advance(r.(busy := r.busy + 1), n)
  }

  /** What looking at the chunk at the cursor, one of `n`, comes to. */
  ghost predicate Visited(r: Rebalance, r': Rebalance, st: map<Chunk, Status>, st': map<Chunk, Status>, q: seq<Chunk>, n: nat,
                          locked: bool, expired: bool)
    requires r.Moving?
  {
    var x := Chunk(r.page, r.pos);
    x in st &&
    match st[x]
    case Cleared => st' == st && r' == Advance(r, n)
    case Free => st' == st[x := Cleared] && r' == Advance(r, n)
    case Used(linked, refs) =>
      if linked && locked && refs == 1 then
        // The item is held until the mover comes back with it.
        && r'.Moving? && r' == r.(held := Some(x), saved := r'.saved)
        // It is to be saved unless it has expired, and then there is a chunk for it whenever the freelist `q` shows one.
        && (r'.saved.Some? <==> !expired && Available(q, r.page, n))
        && Cleaned(st, st'[x := Used(true, 1)], r.page, r'.saved)
      else
        && r' == Busy(r, n)
        && st' == if linked && locked && refs > 1 && r.loops > MAX_LOOPS then st[x := Used(false, refs - 1)] else st
  }

  class Slabs {

    /** Chunks per page of each class; class 0 is the global page pool. */
    const perslab: seq<nat>
    const pageSize: nat
    const limit: nat
    var pages: seq<seq<Page>>
    var slots: seq<seq<Chunk>>
    var st: map<Chunk, Status>
    var malloced: nat
    var rebal: Rebalance
    ghost var home: map<Page, nat>
    /** How often malloc has failed, and how often for a class without a page. */
    ghost var failed: nat
    ghost var lost: nat

    ghost predicate Valid()
      reads this
    {
      && |pages| == |slots| == |perslab| > 0 && pageSize > 0
      && (forall c | 0 < c < |perslab| :: perslab[c] > 0)
      && Homes(pages, home) && Statuses(st, home, perslab) && Lists(slots, st, home)
      && malloced == pageSize * (|home| + failed)
      && (limit > 0 ==> malloced <= limit + pageSize * (|NonEmpty(pages)| + lost))
      && MoverOk(rebal, pages, st, home, perslab)
    }

    /** What the limit is meant to promise: no more than the limit and one page for each class that has one. */
    ghost predicate Bounded()
      reads this
    {
      limit > 0 ==> malloced <= limit + pageSize * |NonEmpty(pages)|
    }

    ghost predicate IsClass(c: nat)
      reads this
    {
      0 < c < |pages|
    }

    constructor (perslab: seq<nat>, pageSize: nat, limit: nat)
      requires |perslab| > 0 && pageSize > 0 && forall c | 0 < c < |perslab| :: perslab[c] > 0
      ensures Valid() && malloced == 0 && home == map[] && failed == 0
      ensures this.perslab == perslab && this.pageSize == pageSize && this.limit == limit
      ensures forall c | 0 <= c < |pages| :: pages[c] == []
    {
      this.perslab, this.pageSize, this.limit := perslab, pageSize, limit;
      pages, slots, st := seq(|perslab|, i => []), seq(|perslab|, i => []), map[];
      malloced, rebal, home, failed, lost := 0, Quiet, map[], 0, 0;
      new;
      NoPages(pages, slots, perslab);
      StaysBounded(pageSize, limit, 0, 0, 0, 0, false);
      assert |home| + failed == 0;
    }

    /* ---- other threads ---- */

    /** do_slabs_alloc from the freelist. */
    method Pop(c: nat) returns (x: Option<Chunk>)
      requires Valid() && IsClass(c)
      modifies this`slots, this`st
      ensures Valid()
      ensures x == None <==> old(slots[c]) == []
      ensures x == None ==> slots == old(slots) && st == old(st)
      ensures x.Some? ==>
                && x.value == old(slots[c])[0] && slots == old(slots)[c := old(slots[c])[1..]]
                && x.value in old(st) && old(st[x.value]) == Free && home[x.value.page] == c
                && st == old(st)[x.value := Used(false, 1)]
    {
      if slots[c] == [] { return None; }
      var y := slots[c][0];
      PopKeeps(slots, st, home, c, 0, Used(false, 1));
      OtherKeepsMover(rebal, pages, st, home, perslab, y, Used(false, 1));
      assert slots[c][1..] == slots[c][..0] + slots[c][0 + 1..];
      slots := slots[c := slots[c][1..]];
      st := st[y := Used(false, 1)];
      x := Some(y);
    }

    /** do_slabs_free, by the item's last holder. */
    method Release(x: Chunk, c: nat)
      requires Valid() && x in st && st[x].Used? && home[x.page] == c && Others(rebal, x)
      modifies this`slots, this`st
      ensures Valid() && st == old(st)[x := Free] && slots == old(slots)[c := [x] + old(slots[c])]
    {
      PushKeeps(slots, st, home, c, x);
      OtherKeepsMover(rebal, pages, st, home, perslab, x, Free);
      slots := slots[c := [x] + slots[c]];
      st := st[x := Free];
    }

    /** Anything another thread does to an item it holds or finds: linking, unlinking, taking and dropping references. */
    method Touch(x: Chunk, v: Status)
      requires Valid() && x in st && st[x].Used? && v.Used? && Others(rebal, x)
      modifies this`st
      ensures Valid() && st == old(st)[x := v]
    {
      StatusKeeps(slots, st, home, x, v);
      OtherKeepsMover(rebal, pages, st, home, perslab, x, v);
      st := st[x := v];
    }

    /* ---- pages ---- */

    /** split_slab_page_into_freelist. */
    method Split(page: Page, c: nat)
      requires 0 < c < |slots| == |perslab| && Lists(slots, st, home) && page in home && home[page] == c
      requires forall x | x in st :: x.page != page
      modifies this`slots, this`st
      ensures Lists(slots, st, home) && |slots| == old(|slots|)
      ensures forall x :: x in st <==> x in old(st) || (x.page == page && x.index < perslab[c])
      ensures forall x | x in old(st) :: st[x] == old(st)[x]
      ensures forall x | x in st && x.page == page :: st[x] == Free
      ensures slots == old(slots)[c := ChunksOf(page, perslab[c]) + old(slots[c])]
    {
      assert ChunksOf(page, 0) + slots[c] == slots[c];
      for i := 0 to perslab[c]
        invariant Lists(slots, st, home) && |slots| == old(|slots|)
        invariant forall x :: x in st <==> x in old(st) || (x.page == page && x.index < i)
        invariant forall x | x in old(st) :: st[x] == old(st)[x]
        invariant forall x | x in st && x.page == page :: st[x] == Free
        invariant slots == old(slots)[c := ChunksOf(page, i) + old(slots[c])]
      {
        var x := Chunk(page, i);
        NewFreeKeeps(slots, st, home, c, x);
        assert ChunksOf(page, i + 1) + old(slots[c]) == [x] + (ChunksOf(page, i) + old(slots[c]));
        slots := slots[c := [x] + slots[c]];
        st := st[x := Free];
      }
    }

    /** The page that class `c` was just given is split. */
    method SplitNew(page: Page, c: nat, ghost was: map<Page, nat>)
      requires 0 < c < |slots| == |perslab| && Lists(slots, st, home) && home == was[page := c]
      requires Statuses(st, was, perslab) && (page in was ==> was[page] == 0)
      modifies this`slots, this`st
      ensures Lists(slots, st, home) && Statuses(st, home, perslab) && |slots| == old(|slots|)
      ensures SameBefore(old(st), st, page) && slots == old(slots)[c := ChunksOf(page, perslab[c]) + old(slots[c])]
      ensures forall x | x in old(st) :: x.page != page
    {
      Split(page, c);
    }

    /** Class `c` has the page now, and the books are right but for the page's chunks. */
    twostate predicate Took(c: nat, page: Page)
      reads this
    {
      && 0 < c < |old(pages)| == |pages|
      && home == old(home)[page := c] && Homes(pages, home)
      && pages[c] == old(pages[c]) + [page]
      && (forall k | 0 < k < |pages| && k != c :: pages[k] == old(pages[k]))
      && malloced == pageSize * (|home| + failed)
    }

    /** A class that has a page may not take one more. */
    predicate LimitReached(c: nat)
      requires c < |pages|
      reads this
    {
      limit != 0 && malloced + pageSize > limit && |pages[c]| > 0
    }

    /** do_slabs_newslab comes to memory_allocate, which counts the page before it is known whether malloc succeeded. */
    predicate Mallocs(c: nat, grown: bool)
      requires c < |pages|
      reads this
    {
      grown && pages[0] == [] && !LimitReached(c)
    }

    /** The call does not come to malloc, or malloc succeeds, or there is no limit, or there is still room. */
    ghost predicate Harmless(c: nat, given: Option<Page>, grown: bool)
      requires c < |pages| && |pages| > 0
      reads this
    {
      !Mallocs(c, grown) || given.Some? || limit == 0 || malloced + pageSize <= limit + pageSize * |NonEmpty(pages)|
    }

    /** The last page of the pool goes to class `c`. */
    method PageFromPool(c: nat) returns (page: Page)
      requires Valid() && IsClass(c) && pages[0] != []
      modifies this`pages, this`home
      ensures page in old(home) && old(home)[page] == 0 && Took(c, page)
    {
      var n := |pages[0]| - 1;
      page := pages[0][n];
      HomesMove(pages, home, 0, n, c);
      assert WithoutAt(pages[0], n) == pages[0][..n];
      pages := pages[0 := pages[0][..n]];
      pages := pages[c := pages[c] + [page]];
      home := home[page := c];
      assert home.Keys == old(home).Keys;
    }

    /** A page from malloc goes to class `c`. */
    method PageFromMalloc(c: nat, page: Page)
      requires Valid() && IsClass(c) && page !in home
      modifies this`pages, this`malloced, this`home
      ensures Took(c, page) && malloced == old(malloced) + pageSize
    {
      HomesAdd(pages, home, c, page);
      pages := pages[c := pages[c] + [page]];
      home := home[page := c];
      malloced := malloced + pageSize;
      HomeGrows(old(home), page, c);
      Scale(pageSize, |old(home)| + failed, |home| + failed);
    }

    /** malloc fails, and the page is counted all the same. */
    method CountFailure(c: nat)
      requires Valid() && IsClass(c) && !LimitReached(c)
      modifies this`malloced, this`failed, this`lost
      ensures Valid() && malloced == old(malloced) + pageSize && failed == old(failed) + 1
      ensures lost == old(lost) + if pages[c] == [] then 1 else 0
    {
      Scale(pageSize, |home| + failed, |home| + failed);
      if limit > 0 {
        StaysBounded(pageSize, limit, malloced, malloced + pageSize, |NonEmpty(pages)| + lost,
                     |NonEmpty(pages)| + lost + (if pages[c] == [] then 1 else 0), pages[c] == []);
      }
      malloced, failed := malloced + pageSize, failed + 1;
      lost := lost + if pages[c] == [] then 1 else 0;
    }

    /** The page that do_slabs_newslab gives to class `c`: the last one of the pool, or `given`, which is what malloc
        returned; `grown` says whether the class's page list had room or could be enlarged. The bound on memory survives
        the call exactly when malloc is not come to or succeeds, or there is no limit, or there is still room. */
    method TakePage(c: nat, given: Option<Page>, grown: bool) returns (page: Option<Page>)
      requires Valid() && IsClass(c) && (given.Some? ==> given.value !in home)
      modifies this`pages, this`malloced, this`home, this`failed, this`lost
      ensures page == None ==> Valid() && pages == old(pages) && home == old(home)
      ensures page.Some? <==> grown && (old(pages[0]) != [] || (given.Some? && !old(LimitReached(c))))
      ensures page.Some? ==> (page.value in old(home) ==> old(home)[page.value] == 0) && Took(c, page.value)
      ensures page.Some? && limit > 0 ==> malloced <= limit + pageSize * (|NonEmpty(pages)| + lost)
      ensures malloced == old(malloced) + if old(Mallocs(c, grown)) then pageSize else 0
      ensures failed == old(failed) + if old(Mallocs(c, grown)) && given == None then 1 else 0
      ensures lost == old(lost) + if old(Mallocs(c, grown) && pages[c] == []) && given == None then 1 else 0
      ensures old(Bounded()) ==> (Bounded() <==> old(Harmless(c, given, grown)))
    {
      if LimitReached(c) && pages[0] == [] {
        return None;
      }
      if !grown {
        return None;
      }
      if pages[0] != [] {
        var p := PageFromPool(c);
        page := Some(p);
      } else if given == None {
        CountFailure(c);
        return None;
      } else {
        page := given;
        PageFromMalloc(c, page.value);
      }
      MoreNonEmpty(old(pages), pages, c);
      if limit > 0 {
        var first := old(pages[c]) == [];
        StaysBounded(pageSize, limit, old(malloced), malloced, |NonEmpty(old(pages))| + lost, |NonEmpty(pages)| + lost, first);
        if old(Bounded()) {
          StaysBounded(pageSize, limit, old(malloced), malloced, |NonEmpty(old(pages))|, |NonEmpty(pages)|, first);
        }
      }
    }

    /** The page that a class got last. */
    function Newest(c: nat): Page
      requires 0 < c < |pages| && pages[c] != []
      reads this
    {
      pages[c][|pages[c]| - 1]
    }

    /** do_slabs_newslab. */
    method NewSlab(c: nat, given: Option<Page>, grown: bool) returns (ok: bool)
      requires Valid() && IsClass(c) && (given.Some? ==> given.value !in home)
      modifies this`pages, this`slots, this`st, this`malloced, this`home, this`failed, this`lost
      ensures Valid()
      ensures ok <==> grown && (old(pages[0]) != [] || (given.Some? && !old(LimitReached(c))))
      ensures ok ==> |pages[c]| == |old(pages[c])| + 1 && SameBefore(old(st), st, Newest(c))
      ensures ok ==> slots == old(slots)[c := ChunksOf(Newest(c), perslab[c]) + old(slots[c])]
      ensures ok ==> forall x | x in old(st) :: x.page != Newest(c)
      ensures !ok ==> pages == old(pages) && slots == old(slots) && st == old(st) && home == old(home)
      ensures malloced == old(malloced) + if old(Mallocs(c, grown)) then pageSize else 0
      ensures failed == old(failed) + if old(Mallocs(c, grown)) && given == None then 1 else 0
      ensures old(Bounded()) ==> (Bounded() <==> old(Harmless(c, given, grown)))
    {
      var page := TakePage(c, given, grown);
      if page == None { return false; }
      assert Newest(c) == page.value;
      ListsRehome(slots, st, old(home), home);
      SplitNew(page.value, c, old(home));
      TakenKeepsMover(rebal, old(pages), pages, old(st), st, old(home), home, perslab, page.value, c);
      return true;
    }

    /** do_slabs_alloc. */
    method Alloc(c: nat, given: Option<Page>, grown: bool) returns (x: Option<Chunk>)
      requires Valid() && IsClass(c) && (given.Some? ==> given.value !in home)
      modifies this`pages, this`slots, this`st, this`malloced, this`home, this`failed, this`lost
      ensures Valid()
      // The chunk was free, or is one of a new page; nobody else's chunk changes.
      ensures x.Some? ==> HandedOut(old(st), st, x.value) && home[x.value.page] == c
      ensures x.Some? && old(slots[c]) != [] ==>
                x.value == old(slots[c])[0] && slots == old(slots)[c := old(slots[c])[1..]] && st.Keys == old(st).Keys
      ensures x.Some? && old(slots[c]) == [] ==>
                pages[c] != [] && slots == old(slots)[c := ChunksOf(Newest(c), perslab[c])[1..]] && SameBefore(old(st), st[x.value := Free], Newest(c))
      ensures x == None ==> st == old(st) && slots == old(slots) && pages == old(pages) && home == old(home)
      ensures x.Some? <==> old(slots[c]) != [] || (grown && (old(pages[0]) != [] || (given.Some? && !old(LimitReached(c)))))
      ensures malloced == old(malloced) + if old(slots[c] == [] && Mallocs(c, grown)) then pageSize else 0
    {
      if slots[c] == [] {
        x := AllocNew(c, given, grown);
      } else {
        x := Pop(c);
      }
    }

    /** The same for an empty freelist. */
    method AllocNew(c: nat, given: Option<Page>, grown: bool) returns (x: Option<Chunk>)
      requires Valid() && IsClass(c) && (given.Some? ==> given.value !in home) && slots[c] == []
      modifies this`pages, this`slots, this`st, this`malloced, this`home, this`failed, this`lost
      ensures Valid()
      ensures x.Some? ==> HandedOut(old(st), st, x.value) && home[x.value.page] == c
      ensures x.Some? ==>
                pages[c] != [] && slots == old(slots)[c := ChunksOf(Newest(c), perslab[c])[1..]] && SameBefore(old(st), st[x.value := Free], Newest(c))
      ensures x == None ==> st == old(st) && slots == old(slots) && pages == old(pages) && home == old(home)
      ensures x.Some? <==> grown && (old(pages[0]) != [] || (given.Some? && !old(LimitReached(c))))
      ensures malloced == old(malloced) + if old(Mallocs(c, grown)) then pageSize else 0
    {
      var ok := NewSlab(c, given, grown);
      if !ok { return None; }
      assert slots[c] == ChunksOf(Newest(c), perslab[c]);
      assert slots[c := slots[c][1..]] == old(slots)[c := slots[c][1..]];
      ghost var all := st;
      x := Pop(c);
      assert x.value.page == Newest(c) && st[x.value := Free] == all;
    }

    /* ---- the mover ---- */

    /** slab_rebalance_start; `grown` says whether the page list of class `d` had room or could be enlarged. */
    method Start(s: nat, d: nat, grown: bool) returns (ok: bool)
      requires Valid() && rebal == Quiet
      modifies this`rebal
      ensures Valid()
      ensures ok <==> 0 < s < |pages| && d < |pages| && s != d && grown && |pages[s]| >= 2
      ensures rebal == if ok then Moving(s, d, pages[s][0], 0, 0, 0, false, None, None) else Quiet
    {
      ok := 0 < s < |pages| && d < |pages| && s != d && grown && |pages[s]| >= 2;
      if ok {
        assert Housed(pages, home, s) && pages[s][0] in pages[s];
        rebal := Moving(s, d, pages[s][0], 0, 0, 0, false, None, None);
      }
    }

    /** A chunk of the page that was just taken off the freelist is not handed out. */
    method Clear(x: Chunk)
      requires Valid() && rebal.Moving? && rebal.held == None && x in st && st[x] == Used(false, 1) && x.page == rebal.page
      modifies this`st
      ensures Valid() && st == old(st)[x := Cleared]
    {
      ClearKeepsMover(rebal, pages, st, home, perslab, x);
      StatusKeeps(slots, st, home, x, Cleared);
      st := st[x := Cleared];
    }

    /** One chunk comes off the freelist, and is cleared if it is on the page. */
    method TakeOne() returns (x: Option<Chunk>)
      requires Valid() && rebal.Moving? && rebal.held == None
      modifies this`slots, this`st
      ensures Valid() && (x == None <==> old(slots[rebal.s]) == [])
      ensures x == None ==> slots == old(slots) && st == old(st)
      ensures x.Some? ==>
                && x.value == old(slots[rebal.s])[0] && slots == old(slots)[rebal.s := old(slots[rebal.s])[1..]]
                && x.value in old(st) && old(st[x.value]) == Free && x.value.page in home && home[x.value.page] == rebal.s
                && st == old(st)[x.value := if x.value.page == rebal.page then Cleared else Used(false, 1)]
    {
      x := Pop(rebal.s);
      if x.Some? && x.value.page == rebal.page {
        Clear(x.value);
        assert st == old(st)[x.value := Cleared];
      }
    }

    /** slab_rebalance_alloc: a chunk of the class that is not on the page; free chunks of the page met on the way are
        cleared. */
    method RebalanceAlloc() returns (x: Option<Chunk>)
      requires Valid() && rebal.Moving? && !rebal.done && rebal.held == None
      modifies this`slots, this`st
      ensures Valid()
      ensures x.Some? ==> x.value in st && st[x.value] == Used(false, 1) && x.value.page != rebal.page && home[x.value.page] == rebal.s
      ensures Cleaned(old(st), st, rebal.page, x)
      ensures x.Some? <==> Available(old(slots[rebal.s]), rebal.page, perslab[rebal.s])
    {
      for i := 0 to perslab[rebal.s]
        invariant Valid() && Cleaned(old(st), st, rebal.page, None)
        invariant i <= |old(slots[rebal.s])| && |slots| == old(|slots|) && slots[rebal.s] == old(slots[rebal.s])[i..]
        invariant forall j | 0 <= j < i :: old(slots[rebal.s])[j].page == rebal.page
      {
        ghost var was := st;
        x := TakeOne();
        if x == None { return; }
        CleanedMore(old(st), was, rebal.page, x.value);
        if x.value.page != rebal.page { return; }
      }
      x := None;
    }

    /** slab_rebalance_move up to where it lets go of the slabs lock: one chunk is looked at. `locked` says whether its
        item lock could be taken, `expired` whether the item need not be saved. */
    method Visit(locked: bool, expired: bool)
      requires Valid() && rebal.Moving? && !rebal.done && rebal.held == None
      modifies this`slots, this`st, this`rebal
      ensures Valid() && Visited(old(rebal), rebal, old(st), st, old(slots[rebal.s]), perslab[old(rebal.s)], locked, expired)
    {
      var x := Chunk(rebal.page, rebal.pos);
      assert IsChunk(home, perslab, x);
      if st[x].Used? {
        VisitUsed(x, locked, expired);
      } else {
        if st[x] == Free { CutFree(x); }
        AdvanceKeepsMover(rebal, pages, st, home, perslab);
        rebal := Advance(rebal, perslab[rebal.s]);
      }
    }

    /** The chunk at the cursor is handed out. */
    method VisitUsed(x: Chunk, locked: bool, expired: bool)
      requires Valid() && rebal.Moving? && !rebal.done && rebal.held == None
      requires x == Chunk(rebal.page, rebal.pos) && x in st && st[x].Used?
      modifies this`slots, this`st, this`rebal
      ensures Valid() && Visited(old(rebal), rebal, old(st), st, old(slots[rebal.s]), perslab[old(rebal.s)], locked, expired)
    {
      if st[x].linked && locked && st[x].refs == 1 {
        Hold(x, expired);
      } else {
        if st[x].linked && locked && st[x].refs > 1 && rebal.loops > MAX_LOOPS {
          Touch(x, Used(false, st[x].refs - 1));
        }
        MeetBusy();
      }
    }

    /** The chunk at the cursor cannot be moved now. */
    method MeetBusy()
      requires Valid() && rebal.Moving? && !rebal.done && rebal.held == None
      modifies this`rebal
      ensures Valid() && rebal == Busy(old(rebal), perslab[old(rebal.s)])
    {
      rebal := rebal.(busy := rebal.busy + 1);
      AdvanceKeepsMover(rebal, pages, st, home, perslab);
      rebal := Advance(rebal, perslab[rebal.s]);
    }

    /** slab_rebalance_cut_free: the chunk at the cursor leaves the freelist. */
    method CutFree(x: Chunk)
      requires Valid() && rebal.Moving? && x.page == rebal.page && x in st && st[x] == Free && rebal.held == None
      modifies this`slots, this`st
      ensures Valid() && st == old(st)[x := Cleared]
    {
      var s := rebal.s;
      assert Listed(slots, st, home, s) && x in slots[s];
      var i: nat :| i < |slots[s]| && slots[s][i] == x;
      PopKeeps(slots, st, home, s, i, Cleared);
      ClearKeepsMover(rebal, pages, st, home, perslab, x);
      slots := slots[s := slots[s][..i] + slots[s][i + 1..]];
      st := st[x := Cleared];
    }

    /** The item at the cursor is taken hold of, and a chunk off the page is found for it unless it has expired. */
    method Hold(x: Chunk, expired: bool)
      requires Valid() && rebal.Moving? && !rebal.done && rebal.held == None
      requires x == Chunk(rebal.page, rebal.pos) && x in st && st[x] == Used(true, 1)
      modifies this`slots, this`st, this`rebal
      ensures Valid() && rebal.Moving? && rebal == old(rebal).(held := Some(x), saved := rebal.saved)
      ensures rebal.saved.Some? <==> !expired && Available(old(slots[rebal.s]), rebal.page, perslab[rebal.s])
      ensures Cleaned(old(st), st[x := Used(true, 1)], rebal.page, rebal.saved)
    {
      var saved := None;
      if !expired {
        saved := RebalanceAlloc();
      }
      TakeHold(x, saved);
    }

    /** The reference count goes up, and the mover remembers the item and the chunk for it. */
    method TakeHold(x: Chunk, saved: Option<Chunk>)
      requires Valid() && rebal.Moving? && !rebal.done && rebal.held == None
      requires x == Chunk(rebal.page, rebal.pos) && x in st && st[x] == Used(true, 1)
      requires saved.Some? ==> saved.value in st && st[saved.value] == Used(false, 1) && saved.value.page != rebal.page
      requires saved.Some? ==> saved.value.page in home && home[saved.value.page] == rebal.s
      modifies this`st, this`rebal
      ensures Valid() && rebal == old(rebal).(held := Some(x), saved := saved) && st == old(st)[x := Used(true, 2)]
    {
      StatusKeeps(slots, st, home, x, Used(true, 2));
      st := st[x := Used(true, 2)];
      rebal := rebal.(held := Some(x), saved := saved);
    }

    /** slab_rebalance_move from where it has let go of the slabs lock: the item it holds moves to the saved chunk, or
        is dropped and its chunk freed. */
    method Commit()
      requires Valid() && rebal.Moving? && rebal.held.Some?
      modifies this`slots, this`st, this`rebal
      ensures Valid()
      ensures old(rebal.saved).Some? ==>
                && st == old(st)[old(rebal.saved.value) := Used(true, 1)][old(rebal.held.value) := Cleared]
                && rebal == Advance(old(rebal), perslab[old(rebal.s)]) && slots == old(slots)
      ensures old(rebal.saved) == None ==>
                && st == old(st)[old(rebal.held.value) := Free]
                && rebal == Busy(old(rebal), perslab[old(rebal.s)])
                && slots == old(slots)[old(rebal.s) := [old(rebal.held.value)] + old(slots[rebal.s])]
    {
      if rebal.saved.Some? {
        Rescue(rebal.held.value, rebal.saved.value);
      } else {
        Drop(rebal.held.value);
      }
    }

    /** The item moves from chunk `x` of the page to chunk `y`. */
    method Rescue(x: Chunk, y: Chunk)
      requires Valid() && rebal.Moving? && rebal.held == Some(x) && rebal.saved == Some(y)
      modifies this`st, this`rebal
      ensures Valid() && st == old(st)[y := Used(true, 1)][x := Cleared] && rebal == Advance(old(rebal), perslab[old(rebal.s)])
    {
      StatusKeeps(slots, st, home, y, Used(true, 1));
      StatusKeeps(slots, st[y := Used(true, 1)], home, x, Cleared);
      st := st[y := Used(true, 1)][x := Cleared];
      AdvanceKeepsMover(rebal, pages, st, home, perslab);
      rebal := Advance(rebal, perslab[rebal.s]);
    }

    /** The item is unlinked and its chunk goes back to the freelist, to be cleared on the next pass. */
    method Drop(x: Chunk)
      requires Valid() && rebal.Moving? && rebal.held == Some(x) && rebal.saved == None
      modifies this`slots, this`st, this`rebal
      ensures Valid() && st == old(st)[x := Free] && rebal == Busy(old(rebal), perslab[old(rebal.s)])
      ensures slots == old(slots)[old(rebal.s) := [x] + old(slots[rebal.s])]
    {
      PushKeeps(slots, st, home, rebal.s, x);
      slots := slots[rebal.s := [x] + slots[rebal.s]];
      st := st[x := Free];
      rebal := rebal.(busy := rebal.busy + 1);
      AdvanceKeepsMover(rebal, pages, st, home, perslab);
      rebal := Advance(rebal, perslab[rebal.s]);
    }

    /** A visit and, if it takes hold of an item, the rest of the move, with nobody in between. What is handed out stays as it
        is, but for the chunk at the cursor; and there an item that others hold stays, until too many passes were made. */
    method Round(expired: bool)
      requires Valid() && rebal.Moving? && !rebal.done && rebal.held == None
      modifies this`slots, this`st, this`rebal
      ensures Valid() && Moves(old(rebal), rebal, perslab[old(rebal.s)])
      ensures UsedStay(old(st), st, Chunk(rebal.page, old(rebal.pos)))
      ensures Patient(old(st), st, Chunk(rebal.page, old(rebal.pos)), old(rebal.loops))
    {
      var x := Chunk(rebal.page, rebal.pos);
      assert IsChunk(home, perslab, x);
      if st[x] == Used(true, 1) {
        RoundHeld(x, expired);
      } else {
        Visit(true, expired);
      }
    }

    /** The same for an item that nobody else holds. */
    method RoundHeld(x: Chunk, expired: bool)
      requires Valid() && rebal.Moving? && !rebal.done && rebal.held == None
      requires x == Chunk(rebal.page, rebal.pos) && x in st && st[x] == Used(true, 1)
      modifies this`slots, this`st, this`rebal
      ensures Valid() && Moves(old(rebal), rebal, perslab[old(rebal.s)]) && UsedStay(old(st), st, x)
    {
      Visit(true, expired);
      ghost var mid, saved := st, rebal.saved;
      Commit();
      HeldRound(old(st), mid, st, rebal.page, x, saved);
    }

    /** The mover does not wait for ever: an item of the page that others go on holding is unlinked at last, once more passes
        were made than MAX_LOOPS allows. */
    method Insist(x: Chunk, refs: nat, expired: Chunk -> bool)
      requires Valid() && rebal.Moving? && !rebal.done && rebal.held == None
      requires x in st && x.page == rebal.page && st[x] == Used(true, refs) && refs > 1
      modifies this`slots, this`st, this`rebal
      ensures Valid() && x in st && st[x] == Used(false, refs - 1)
    {
      assert IsChunk(home, perslab, x);
      while !(rebal.loops > MAX_LOOPS && rebal.pos == x.index)
        invariant Valid() && rebal.Moving? && rebal.held == None && rebal.page == old(rebal.page) && rebal.s == old(rebal.s)
        invariant x in st && st[x] == Used(true, refs) && !rebal.done
        decreases if rebal.loops > MAX_LOOPS then 0 else MAX_LOOPS + 1 - rebal.loops,
          perslab[rebal.s] - rebal.pos + if rebal.loops > MAX_LOOPS && rebal.pos <= x.index then 0 else perslab[rebal.s]
      {
        Round(expired(Chunk(rebal.page, rebal.pos)));
        NotDone(rebal, pages, st, home, perslab, x);
      }
      Round(expired(x));
    }

    ghost predicate Idle()
      reads this
    {
      rebal.Moving? && IdleOn(st, rebal.page)
    }

    /** slab_rebalance_move again and again, undisturbed, on a page whose items are idle: it comes to its end, and then every
        chunk of the page is cleared. */
    method Sweep(expired: Chunk -> bool)
      requires Valid() && Idle() && !rebal.done && rebal.held == None
      modifies this`slots, this`st, this`rebal
      ensures Valid() && rebal.Moving? && rebal.done && rebal.page == old(rebal.page) && rebal.s == old(rebal.s) && rebal.d == old(rebal.d)
      ensures PageDone(st, rebal.page, perslab[rebal.s])
    {
      while !rebal.done
        invariant Valid() && Idle() && rebal.held == None
        invariant rebal.page == old(rebal.page) && rebal.s == old(rebal.s) && rebal.d == old(rebal.d)
        decreases Left(st, rebal.page), if rebal.busy > 0 then 1 else 0, perslab[rebal.s] - rebal.pos
      {
        Advanced(expired(Chunk(rebal.page, rebal.pos)));
      }
    }

    /** One round of it: a chunk less is handed out on the page, or the cursor moves on. */
    method Advanced(expired: bool)
      requires Valid() && Idle() && !rebal.done && rebal.held == None
      modifies this`slots, this`st, this`rebal
      ensures Valid() && Idle() && rebal.held == None
      ensures rebal.page == old(rebal.page) && rebal.s == old(rebal.s) && rebal.d == old(rebal.d)
      ensures || Left(st, rebal.page) < old(Left(st, rebal.page))
              || (Left(st, rebal.page) == old(Left(st, rebal.page)) && (rebal.done
                  || (old(rebal.busy) > 0 && rebal.busy == 0)
                  || ((rebal.busy > 0 <==> old(rebal.busy) > 0) && rebal.pos > old(rebal.pos))))
    {
      var x := Chunk(rebal.page, rebal.pos);
      assert IsChunk(home, perslab, x);
      if st[x].Used? {
        SaveOrDrop(x, expired);
      } else {
        Visit(true, expired);
        LeftSame(old(st), st, rebal.page);
      }
    }

    /** The two halves of a move of the item at the cursor, with nobody in between. */
    method SaveOrDrop(x: Chunk, expired: bool)
      requires Valid() && Idle() && !rebal.done && rebal.held == None
      requires x == Chunk(rebal.page, rebal.pos) && x in st && st[x].Used?
      modifies this`slots, this`st, this`rebal
      ensures Valid() && Idle() && rebal.held == None
      ensures rebal.page == old(rebal.page) && rebal.s == old(rebal.s) && rebal.d == old(rebal.d)
      ensures Left(st, rebal.page) < old(Left(st, rebal.page))
    {
      Visit(true, expired);
      ghost var mid, saved := st, rebal.saved;
      Commit();
      RoundDone(old(st), mid, st, rebal.page, x, saved);
    }

    /** The shuffle that drops the first page of a list. */
    static method DropFirst(list: seq<Page>) returns (rest: seq<Page>)
      requires list != []
      ensures rest == list[1..]
    {
      var n := |list| - 1;
      var a := list;
      for i := 0 to n
        invariant |a| == |list|
        invariant forall j {:trigger a[j]} | 0 <= j < i :: a[j] == list[j + 1]
        invariant forall j | i <= j < |a| :: a[j] == list[j]
      {
        a := a[i := a[i + 1]];
      }
      rest := a[..n];
    }

    /** get_page_from_global_pool. */
    method PoolPage() returns (page: Page)
      requires |pages| > 0 && pages[0] != [] && Homes(pages, home)
      modifies this`pages, this`home
      ensures |pages| == |old(pages)| && pages[0] + [page] == old(pages[0])
      ensures forall k | 0 < k < |pages| :: pages[k] == old(pages[k])
      ensures page in old(home) && old(home)[page] == 0 && home == old(home) - {page} && |home| == |old(home)| - 1
      ensures Homes(pages, home)
    {
      var n := |pages[0]| - 1;
      page := pages[0][n];
      HomesRemove(pages, home, 0, n);
      assert WithoutAt(pages[0], n) == pages[0][..n];
      pages := pages[0 := pages[0][..n]];
      assert home.Keys == (home - {page}).Keys + {page};
      home := home - {page};
    }

    /** memory_release: pages of the pool go back while too much is allocated. */
    method MemoryRelease()
      requires |pages| > 0 && Homes(pages, home) && malloced == pageSize * (|home| + failed)
      modifies this`pages, this`malloced, this`home
      ensures |pages| == |old(pages)| && Homes(pages, home) && malloced == pageSize * (|home| + failed) <= old(malloced)
      ensures forall k | 0 < k < |pages| :: pages[k] == old(pages[k])
      ensures pages[0] <= old(pages[0]) && (malloced > limit ==> pages[0] == [])
      ensures malloced < old(malloced) ==> malloced + pageSize > limit
      ensures Released(old(home), home) && NonEmpty(pages) == NonEmpty(old(pages))
    {
      while malloced > limit && pages[0] != []
        invariant |pages| == |old(pages)| && Homes(pages, home) && malloced == pageSize * (|home| + failed) <= old(malloced)
        invariant forall k | 0 < k < |pages| :: pages[k] == old(pages[k])
        invariant pages[0] <= old(pages[0]) && Released(old(home), home)
        invariant malloced < old(malloced) ==> malloced + pageSize > limit
        decreases |pages[0]|
      {
        ReleaseOne();
      }
      assert NonEmpty(pages) == NonEmpty(old(pages));
    }

    method ReleaseOne()
      requires |pages| > 0 && pages[0] != [] && Homes(pages, home) && malloced == pageSize * (|home| + failed)
      modifies this`pages, this`malloced, this`home
      ensures |pages| == |old(pages)| && pages[0] < old(pages[0]) && forall k | 0 < k < |pages| :: pages[k] == old(pages[k])
      ensures Homes(pages, home) && Released(old(home), home)
      ensures malloced == old(malloced) - pageSize == pageSize * (|home| + failed)
    {
      var _ := PoolPage();
      OneLess(pageSize, |home| + failed, malloced);
      malloced := malloced - pageSize;
    }

    /** slab_rebalance_finish: the page goes to the other class, and nothing else moves. */
    method Finish()
      requires Valid() && rebal.Moving? && rebal.done
      modifies this`pages, this`slots, this`st, this`malloced, this`home, this`rebal
      ensures Valid() && rebal == Quiet
      // Nothing that was handed out or free was on the page.
      ensures PageDone(old(st), old(rebal.page), perslab[old(rebal.s)])
      ensures forall x | x in old(st) && x.page != old(rebal.page) :: x in st && st[x] == old(st)[x]
      ensures forall x | x in st && x !in old(st) :: x.page == old(rebal.page) && st[x] == Free
      // Exactly one page changes its class.
      ensures pages[old(rebal.s)] == old(pages[rebal.s])[1..]
      ensures old(rebal.d) > 0 ==> home == old(home)[old(rebal.page) := old(rebal.d)] && malloced == old(malloced)
      ensures old(rebal.d) > 0 ==> pages == old(pages)[old(rebal.s) := old(pages[rebal.s])[1..]][old(rebal.d) := old(pages[rebal.d]) + [old(rebal.page)]]
      ensures old(rebal.d) == 0 ==> Released(old(home)[old(rebal.page) := 0], home)
      ensures old(rebal.d) == 0 ==>
                && pages[0] <= old(pages[0]) + [old(rebal.page)] && (malloced > limit ==> pages[0] == [])
                && (malloced < old(malloced) ==> malloced + pageSize > limit)
      // A class that owns a page goes on owning one, so the bound on memory survives.
      ensures NonEmpty(old(pages)) <= NonEmpty(pages) && (old(Bounded()) ==> Bounded())
    {
      var page, d := rebal.page, rebal.d;
      MovePage();
      if d > 0 {
        Split(page, d);
      } else {
        ghost var h := home;
        MemoryRelease();
        ListsRehome(slots, st, h, home);
      }
      rebal := Quiet;
    }

    /** The page leaves the list of its class, without its chunks, and joins the other's. */
    method MovePage()
      requires Valid() && rebal.Moving? && rebal.done
      modifies this`pages, this`st, this`home
      ensures pages == old(pages)[rebal.s := old(pages[rebal.s])[1..]][rebal.d := old(pages[rebal.d]) + [rebal.page]]
      ensures home == old(home)[rebal.page := rebal.d] && |home| == |old(home)| && Homes(pages, home)
      ensures st == WithoutPage(old(st), rebal.page) && Lists(slots, st, home)
      ensures NonEmpty(old(pages)) <= NonEmpty(pages)
      ensures limit > 0 ==> malloced <= limit + pageSize * (|NonEmpty(pages)| + lost)
      ensures old(Bounded()) ==> Bounded()
      ensures PageDone(old(st), rebal.page, perslab[rebal.s])
    {
      var page, s, d := rebal.page, rebal.s, rebal.d;
      HomesMove(pages, home, s, 0, d);
      assert WithoutAt(pages[s], 0) == pages[s][1..];
      var rest := DropFirst(pages[s]);
      pages := pages[s := rest];
      pages := pages[d := pages[d] + [page]];
      PageLeaves(slots, st, home, page);
      ListsRehome(slots, WithoutPage(st, page), home, home[page := d]);
      st := WithoutPage(st, page);
      home := home[page := d];
      assert home.Keys == old(home).Keys;
      SameOrMore(old(pages), pages);
      Scale(pageSize, |NonEmpty(old(pages))|, |NonEmpty(pages)|);
      Scale(pageSize, |NonEmpty(old(pages))| + lost, |NonEmpty(pages)| + lost);
    }
  }

  /** Failed mallocs for a class without a page are counted without end: after `n` of them `n` pages are counted and none is
      owned. With a limit of one page the second of them breaks the bound. */
  method FailuresAddUp(pageSize: nat, limit: nat, n: nat) returns (s: Slabs)
    requires pageSize > 0
    ensures s.Valid() && s.pageSize == pageSize && s.limit == limit
    ensures s.malloced == n * pageSize && s.home == map[] && NonEmpty(s.pages) == {}
    ensures s.Bounded() <==> limit == 0 || n * pageSize <= limit
  {
    s := new Slabs([0, 1], pageSize, limit);
    for i := 0 to n
      invariant s.Valid() && s.pageSize == pageSize && s.limit == limit && |s.pages| == 2
      invariant s.malloced == i * pageSize && s.home == map[] && s.pages[0] == [] && s.pages[1] == []
    {
      var _ := s.NewSlab(1, None, true);
      Scale(pageSize, i, i);
    }
  }

  /** A limit of one page, and two failed mallocs for a class that has none. */
  method TwoFailures(pageSize: nat) returns (s: Slabs)
    requires pageSize > 0
    ensures s.Valid() && s.limit == pageSize && s.home == map[] && s.malloced == 2 * pageSize && !s.Bounded()
  {
    s := FailuresAddUp(pageSize, pageSize, 2);
    assert NonEmpty(s.pages) == {};
  }
}
