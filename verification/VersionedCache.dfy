/** The versioned DRAM cache over the shared store (extra/KVS-DRAM-Cache/cache_api.cc with CACHE_MODE 1 and
    VERSION_MODE 1): many clients, several caches, one store. A hit gives up the item lock, asks the store
    whether its version is still current, locks and looks up again, and may refresh the item. */
module VersionedCache {
  import opened Common

  type Data = seq<Byte>

  /** The value cells of the store, by key; a key without a node is not in the map. */
  type Store = map<Key, TagGptr>

  /** A cached item: the version it was filled from and a copy of that version's buffer. */
  datatype Item = Item(ver: TagGptr, data: Data)

  /** One item of one cache; item locks and cached items go by it. */
  datatype Spot = Spot(cache: nat, key: Key)

  /** Where a call stands. The states from `Missed` to `Unlinked` hold the item lock.
      item_get: `Get`, `Ask` (hit, lock dropped), `Asked` (the store answered; `data` is what was copied,
      if anything was), `Missed`, `Fetched`, then `Got`, `Absent` or `Failed`.
      store_item: `Set`, `SetLocked`, `SetDone`, then `Stored` or `Failed`.
      item_unlink: `Del`, `Unlinked`, then `Deleted`. */
  datatype Pc =
    | Get | Ask(ver: TagGptr) | Asked(ver: TagGptr, data: Data, copied: bool, ok: bool)
    | Set(put: Data) | Del
    | Missed | Fetched(node: bool, ver: TagGptr, data: Data, ok: bool)
    | SetLocked(put: Data) | SetDone(ver: TagGptr, put: Data)
    | Unlinked
    | Got(ver: TagGptr, data: Data) | Absent | Failed | Stored(ver: TagGptr) | Deleted

  datatype Client = Client(spot: Spot, began: nat, pc: Pc)

  /** `bufs` holds the content of every value buffer ever installed, `past` the store at every earlier
      moment, `top` the highest tag ever cached at a spot. */
  datatype State = State(store: Store, bufs: map<Gptr, Data>, items: map<Spot, Item>,
                         clients: map<nat, Client>, past: seq<Store>, top: map<Spot, nat>)

  /** A step takes the client's next action; `ok` says whether an allocation or copy on the way succeeds,
      `f` is the buffer a put allocates. `Evict` drops an unlocked item. `Direct` is a put or delete that
      reaches the store past every cache; `Sprout` a node the tree adds for a common prefix. */
  datatype Action =
    | Begin(t: nat, spot: Spot, pc: Pc)
    | Step(t: nat, ok: bool, f: Gptr)
    | Evict(spot: Spot)
    | Direct(k: Key, f: Gptr, data: Data)
    | Sprout(k: Key)

  predicate Holds(c: Client) {
    c.pc.Missed? || c.pc.Fetched? || c.pc.SetLocked? || c.pc.SetDone? || c.pc.Unlinked?
  }

  predicate Ended(c: Client) {
    c.pc.Got? || c.pc.Absent? || c.pc.Failed? || c.pc.Stored? || c.pc.Deleted?
  }

  predicate Free(s: State, spot: Spot) {
    forall t | t in s.clients :: !(Holds(s.clients[t]) && s.clients[t].spot == spot)
  }

  /** A pointer the heap may hand out for a value buffer. */
  predicate Fresh(s: State, f: Gptr) { f != 0 && f !in s.bufs }

  /* ---- the store's side (src/kvs_radix_tree.cc) ---- */

  /** The next version of a key: the tag moves on, a first version has tag 0. */
  function Next(st: Store, k: Key, ptr: Gptr): TagGptr {
    if k in st then TagGptr(ptr, st[k].tag + 1) else TagGptr(ptr, 0)
  }

  function Written(s: State, k: Key, ptr: Gptr, data: Data): State {
    s.(store := s.store[k := Next(s.store, k, ptr)], bufs := s.bufs[ptr := data])
  }

  /** A delete only nulls an existing cell. */
  function Cleared(s: State, k: Key): State {
    if k in s.store then s.(store := s.store[k := Next(s.store, k, 0)]) else s
  }

  function Content(s: State, v: TagGptr): Data {
    if v.ptr in s.bufs then s.bufs[v.ptr] else []
  }

  /* ---- one step of a client ---- */

  function Now(s: State, t: nat, pc: Pc): State
    requires t in s.clients
  {
    s.(clients := s.clients[t := s.clients[t].(pc := pc)])
  }

  function Cached(s: State, spot: Spot, it: Item): State {
    s.(items := s.items[spot := it], top := s.top[spot := it.ver.tag])
  }

  function Dropped(s: State, spot: Spot): State {
    s.(items := s.items - {spot})
  }

  /** The second look-up of a hit, with the store's answer at hand. */
  function Recheck(s: State, t: nat, ok: bool): State
    requires t in s.clients && s.clients[t].pc.Asked? && s.clients[t].spot in s.items
  {
    var spot, pc := s.clients[t].spot, s.clients[t].pc;
    var it := s.items[spot];
    if !pc.ok then Now(Dropped(s, spot), t, Failed)
    else if !pc.ver.IsValid() then Now(s, t, Absent)
    else if it.ver.tag < pc.ver.tag then
      if ok then Now(Cached(s, spot, Item(pc.ver, pc.data)), t, Got(pc.ver, pc.data))
      else Now(s, t, Failed)
    else Now(s, t, Got(it.ver, it.data))
  }

  /** The store answers a hit: the version is unchanged, or the current one is copied if it is not null. */
  function Answer(s: State, k: Key, ver: TagGptr, ok: bool): Pc {
    var cur := if k in s.store then s.store[k] else Nil;
    if cur == ver then Asked(ver, [], false, true)
    else if cur.IsValid() then (if ok then Asked(cur, Content(s, cur), true, true) else Asked(ver, [], false, false))
    else Asked(cur, [], false, true)
  }

  predicate Getting(pc: Pc) { pc.Get? || pc.Ask? || pc.Asked? || pc.Missed? || pc.Fetched? }

  /** item_get. */
  function StepGet(s: State, t: nat, ok: bool): State
    requires t in s.clients && Getting(s.clients[t].pc)
  {
    var c := s.clients[t];
    var k := c.spot.key;
    match c.pc
    case Get =>
      if !Free(s, c.spot) then s
      else if c.spot in s.items then Now(s, t, Ask(s.items[c.spot].ver))
      else Now(s, t, Missed)
    case Ask(ver) => Now(s, t, Answer(s, k, ver, ok))
    case Asked(_, _, _, _) =>
      if !Free(s, c.spot) then s
      else if c.spot in s.items then Recheck(s, t, ok)
      else Now(s, t, Missed)
    case Missed =>
      if k !in s.store then Now(s, t, Fetched(false, Nil, [], true))
      else Now(s, t, Fetched(true, s.store[k], Content(s, s.store[k]), ok || !s.store[k].IsValid()))
    case Fetched(node, ver, data, copied) =>
      if !copied then Now(s, t, Failed)
      else if node && ver.IsValid() then
        (if ok then Now(Cached(s, c.spot, Item(ver, data)), t, Got(ver, data)) else Now(s, t, Failed))
      else Now(s, t, Absent)
  }

  /** store_item and item_unlink; a call that has ended stays as it is. */
  function StepChange(s: State, t: nat, ok: bool, f: Gptr): State
    requires t in s.clients && Fresh(s, f)
  {
    var c := s.clients[t];
    var k := c.spot.key;
    match c.pc
    case Set(put) => if Free(s, c.spot) then Now(s, t, SetLocked(put)) else s
    case SetLocked(put) =>
      if ok then Now(Written(s, k, f, put), t, SetDone(Next(s.store, k, f), put))
      else Now(s, t, Failed)
    case SetDone(ver, put) => Now(Cached(s, c.spot, Item(ver, put)), t, Stored(ver))
    case Del => if Free(s, c.spot) then Now(Dropped(s, c.spot), t, Unlinked) else s
    case Unlinked => Now(Cleared(s, k), t, Deleted)
    case _ => s
  }

  function StepClient(s: State, t: nat, ok: bool, f: Gptr): State
    requires t in s.clients && Fresh(s, f)
  {
    if Getting(s.clients[t].pc) then StepGet(s, t, ok) else StepChange(s, t, ok, f)
  }

  predicate Enabled(s: State, a: Action) {
    match a
    case Begin(t, spot, pc) => (t !in s.clients || Ended(s.clients[t])) && (pc.Get? || pc.Set? || pc.Del?)
    case Step(t, ok, f) => t in s.clients && Fresh(s, f)
    case Evict(spot) => Free(s, spot)
    case Direct(k, f, data) => f == 0 || Fresh(s, f)
    case Sprout(k) => k !in s.store
  }

  function Act(s: State, a: Action): State
    requires Enabled(s, a)
  {
    match a
    case Begin(t, spot, pc) => s.(clients := s.clients[t := Client(spot, |s.past| + 1, pc)])
    case Step(t, ok, f) => StepClient(s, t, ok, f)
    case Evict(spot) => Dropped(s, spot)
    case Direct(k, f, data) => if f == 0 then Cleared(s, k) else Written(s, k, f, data)
    case Sprout(k) => s.(store := s.store[k := Nil])
  }

  function Apply(s: State, a: Action): State
    requires Enabled(s, a)
  {
    Act(s, a).(past := s.past + [s.store])
  }

  const Empty := State(map[], map[], map[], map[], [], map[])

  /* ---- what holds at every moment ---- */

  function At(s: State, j: nat): Store
    requires j <= |s.past|
  {
    if j < |s.past| then s.past[j] else s.store
  }

  /** The cell of `k` read `v` at moment `j`. */
  ghost predicate Read(s: State, j: nat, k: Key, v: TagGptr) {
    j <= |s.past| && k in At(s, j) && At(s, j)[k] == v
  }

  /** `k` had no node or a null cell at moment `j`. */
  ghost predicate Gone(s: State, j: nat, k: Key) {
    j <= |s.past| && (k in At(s, j) ==> !At(s, j)[k].IsValid())
  }

  /** `v` was the current version at some moment since `since`. */
  ghost predicate Current(s: State, since: nat, k: Key, v: TagGptr) {
    exists j :: since <= j && Read(s, j, k, v)
  }

  ghost predicate CurrentGone(s: State, since: nat, k: Key) {
    exists j :: since <= j && Gone(s, j, k)
  }

  ghost predicate Filled(s: State, v: TagGptr, d: Data) {
    v.IsValid() && v.ptr in s.bufs && d == s.bufs[v.ptr]
  }

  /** Cells only move on: to another version with a higher tag. */
  ghost predicate Later(st: Store, st': Store) {
    forall k | k in st :: k in st' && (st'[k] == st[k] || st'[k].tag > st[k].tag)
  }

  ghost predicate InOrder(s: State, i: nat, j: nat) {
    i <= j <= |s.past| ==> Later(At(s, i), At(s, j))
  }

  ghost predicate Backed(s: State) {
    forall k | k in s.store :: s.store[k].ptr == 0 || s.store[k].ptr in s.bufs
  }

  ghost predicate TopOk(s: State, spot: Spot) {
    spot in s.top ==> spot.key in s.store && s.top[spot] <= s.store[spot.key].tag
  }

  ghost predicate ItemOk(s: State, spot: Spot)
    requires spot in s.items
  {
    var it := s.items[spot];
    Filled(s, it.ver, it.data) && Current(s, 0, spot.key, it.ver) && spot in s.top && s.top[spot] == it.ver.tag
  }

  /** The highest tag cached at a spot does not exceed `n`. */
  ghost predicate AtMost(s: State, spot: Spot, n: nat) {
    spot in s.top ==> s.top[spot] <= n
  }

  ghost predicate PcOk(s: State, c: Client) {
    var k := c.spot.key;
    match c.pc
    case Ask(ver) => ver.IsValid() && c.spot in s.top && ver.tag <= s.top[c.spot]
    case Asked(ver, data, copied, ok) =>
      && c.spot in s.top
      && (ok ==> Current(s, c.began, k, ver))
      && (ok && ver.IsValid() ==> if copied then Filled(s, ver, data) else ver.tag <= s.top[c.spot])
    case Fetched(node, ver, data, ok) =>
      && (!node ==> CurrentGone(s, c.began, k))
      && (node ==> Current(s, c.began, k, ver) && AtMost(s, c.spot, ver.tag))
      && (node && ver.IsValid() ==> Filled(s, ver, data))
    case SetDone(ver, put) => Current(s, c.began, k, ver) && Filled(s, ver, put) && AtMost(s, c.spot, ver.tag)
    case Got(ver, data) => Current(s, c.began, k, ver) && Filled(s, ver, data)
    case Absent => CurrentGone(s, c.began, k)
    case Stored(ver) => Current(s, c.began, k, ver)
    case Unlinked => c.spot !in s.items
    case _ => true
  }

  ghost predicate ClientOk(s: State, t: nat)
    requires t in s.clients
  {
    s.clients[t].began <= |s.past| && PcOk(s, s.clients[t])
  }

  ghost predicate Apart(s: State, t: nat, u: nat)
    requires t in s.clients && u in s.clients
  {
    t != u && Holds(s.clients[t]) && Holds(s.clients[u]) ==> s.clients[t].spot != s.clients[u].spot
  }

  ghost predicate Inv(s: State) {
    && Backed(s)
    && (forall i: nat, j: nat {:trigger InOrder(s, i, j)} :: InOrder(s, i, j))
    && (forall spot {:trigger TopOk(s, spot)} :: TopOk(s, spot))
    && (forall spot {:trigger ItemOk(s, spot)} | spot in s.items :: ItemOk(s, spot))
    && (forall t {:trigger ClientOk(s, t)} | t in s.clients :: ClientOk(s, t))
    && (forall t, u {:trigger Apart(s, t, u)} | t in s.clients && u in s.clients :: Apart(s, t, u))
  }

  /* ---- time passes ---- */

  /** What any action leaves behind for those who do not act: the store has moved on, one moment more is
      past, buffers keep their content, cached tags have not dropped. */
  ghost predicate Passed(s: State, s': State) {
    && s'.past == s.past + [s.store]
    && Later(s.store, s'.store)
    && (forall p | p in s.bufs :: p in s'.bufs && s'.bufs[p] == s.bufs[p])
    && (forall spot | spot in s.top :: spot in s'.top && s.top[spot] <= s'.top[spot])
  }

  lemma ReadLater(s: State, s': State, j: nat, k: Key, v: TagGptr)
    requires s'.past == s.past + [s.store]
    ensures Read(s, j, k, v) ==> Read(s', j, k, v)
    ensures Gone(s, j, k) ==> Gone(s', j, k)
  {
    if j <= |s.past| { assert At(s', j) == At(s, j); }
  }

  lemma CurrentLater(s: State, s': State, since: nat, k: Key, v: TagGptr)
    requires s'.past == s.past + [s.store]
    ensures Current(s, since, k, v) ==> Current(s', since, k, v)
    ensures CurrentGone(s, since, k) ==> CurrentGone(s', since, k)
  {
    if Current(s, since, k, v) {
      var j :| since <= j && Read(s, j, k, v);
      ReadLater(s, s', j, k, v);
    }
    if CurrentGone(s, since, k) {
      var j :| since <= j && Gone(s, j, k);
      ReadLater(s, s', j, k, v);
    }
  }

  /** A client that does not act stays right, provided nobody cached at its spot while it holds the lock. */
  lemma ClientLater(s: State, s': State, c: Client)
    requires Passed(s, s') && PcOk(s, c)
    requires Holds(c) ==> (c.spot in s'.top ==> c.spot in s.top && s'.top[c.spot] == s.top[c.spot])
    requires Holds(c) ==> (c.spot in s'.items ==> c.spot in s.items)
    ensures PcOk(s', c)
  {
    var k := c.spot.key;
    match c.pc
    case Asked(ver, _, _, _) => CurrentLater(s, s', c.began, k, ver);
    case Fetched(_, ver, _, _) => CurrentLater(s, s', c.began, k, ver);
    case SetDone(ver, _) => CurrentLater(s, s', c.began, k, ver);
    case Got(ver, _) => CurrentLater(s, s', c.began, k, ver);
    case Absent => CurrentLater(s, s', c.began, k, Nil);
    case Stored(ver) => CurrentLater(s, s', c.began, k, ver);
    case _ =>
  }

  lemma OrderLater(s: State, s': State, i: nat, j: nat)
    requires Inv(s) && Passed(s, s')
    ensures InOrder(s', i, j)
  {
    if i <= j <= |s'.past| {
      assert forall m: nat | m <= |s.past| :: At(s', m) == At(s, m);
      if j <= |s.past| {
        assert InOrder(s, i, j);
      } else if i <= |s.past| {
        assert InOrder(s, i, |s.past|);
      }
    }
  }

  /** Only the items and tags at `spot` differ. */
  ghost predicate OnlyAt(s: State, s': State, spot: Spot) {
    forall x: Spot | x != spot ::
      && (x in s'.items ==> x in s.items && s'.items[x] == s.items[x])
      && (x in s'.top <==> x in s.top) && (x in s.top ==> s'.top[x] == s.top[x])
  }

  /** The client holds the item lock of its spot, or nobody does. */
  ghost predicate MayCache(s: State, t: nat, spot: Spot) {
    Free(s, spot) || (t in s.clients && Holds(s.clients[t]) && s.clients[t].spot == spot)
  }

  lemma ItemLater(s: State, s': State, spot: Spot)
    requires Passed(s, s') && spot in s.items && ItemOk(s, spot)
    requires spot in s'.items && s'.items[spot] == s.items[spot] && spot in s'.top && s'.top[spot] == s.top[spot]
    ensures ItemOk(s', spot)
  {
    CurrentLater(s, s', 0, spot.key, s.items[spot].ver);
  }

  lemma SpotsLater(s: State, s': State, spot: Spot)
    requires Inv(s) && Passed(s, s') && OnlyAt(s, s', spot) && TopOk(s', spot)
    requires spot in s'.items ==> ItemOk(s', spot)
    ensures forall x {:trigger TopOk(s', x)} :: TopOk(s', x)
    ensures forall x {:trigger ItemOk(s', x)} | x in s'.items :: ItemOk(s', x)
  {
    forall x ensures TopOk(s', x) {
      assert TopOk(s, x);
    }
    forall x | x in s'.items ensures ItemOk(s', x) {
      if x != spot {
        assert ItemOk(s, x);
        ItemLater(s, s', x);
      }
    }
  }

  /** One client acted, at its own spot, allowed to change what is cached there, and is right afterwards. */
  lemma Assembled(s: State, s': State, t: nat, spot: Spot)
    requires Inv(s) && Passed(s, s') && Backed(s') && OnlyAt(s, s', spot) && TopOk(s', spot)
    requires spot in s'.items ==> ItemOk(s', spot)
    requires t in s'.clients && s'.clients == s.clients[t := s'.clients[t]] && s'.clients[t].spot == spot
    requires ClientOk(s', t)
    requires MayCache(s, t, spot) || (s'.top == s.top && s'.items.Keys <= s.items.Keys && !Holds(s'.clients[t]))
    ensures Inv(s')
  {
    SpotsLater(s, s', spot);
    forall i: nat, j: nat ensures InOrder(s', i, j) { OrderLater(s, s', i, j); }
    forall u | u in s'.clients ensures ClientOk(s', u) {
      if u != t {
        assert ClientOk(s, u);
        if t in s.clients { assert Apart(s, t, u); }
        ClientLater(s, s', s.clients[u]);
      }
    }
    forall u, w | u in s'.clients && w in s'.clients ensures Apart(s', u, w) {
      if u != t && w != t { assert Apart(s, u, w); }
      if t in s.clients && u in s.clients { assert Apart(s, t, u); }
      if t in s.clients && w in s.clients { assert Apart(s, t, w); }
    }
  }

  /** Nobody acted on a cache, except that items may have been dropped. */
  lemma Untouched(s: State, s': State)
    requires Inv(s) && Passed(s, s') && Backed(s') && s'.clients == s.clients && s'.top == s.top
    requires forall x | x in s'.items :: x in s.items && s'.items[x] == s.items[x]
    ensures Inv(s')
  {
    forall x ensures TopOk(s', x) { assert TopOk(s, x); }
    forall x | x in s'.items ensures ItemOk(s', x) {
      assert ItemOk(s, x);
      ItemLater(s, s', x);
    }
    forall i: nat, j: nat ensures InOrder(s', i, j) { OrderLater(s, s', i, j); }
    forall u | u in s'.clients ensures ClientOk(s', u) {
      assert ClientOk(s, u);
      ClientLater(s, s', s.clients[u]);
    }
    forall u, w | u in s'.clients && w in s'.clients ensures Apart(s', u, w) { assert Apart(s, u, w); }
  }

  /* ---- every step keeps the invariant ---- */

  lemma NowRead(s: State, s': State, since: nat, k: Key)
    requires s'.past == s.past + [s.store] && since <= |s.past|
    ensures k in s.store ==> Current(s', since, k, s.store[k])
    ensures k !in s.store || !s.store[k].IsValid() ==> CurrentGone(s', since, k)
  {
    assert At(s', |s.past|) == s.store;
    if k in s.store { assert Read(s', |s.past|, k, s.store[k]); }
    if k !in s.store || !s.store[k].IsValid() { assert Gone(s', |s.past|, k); }
  }

  /** A step that moves a client on and changes neither store nor cache. */
  lemma MovesOn(s: State, s': State, t: nat, pc: Pc)
    requires Inv(s) && t in s.clients && s' == Now(s, t, pc).(past := s.past + [s.store])
    requires PcOk(s', s'.clients[t])
    requires Holds(s'.clients[t]) ==> MayCache(s, t, s.clients[t].spot)
    ensures Inv(s') && Passed(s, s')
  {
    var spot := s.clients[t].spot;
    assert ClientOk(s, t) && TopOk(s, spot);
    if spot in s.items {
      assert ItemOk(s, spot);
      ItemLater(s, s', spot);
    }
    Assembled(s, s', t, spot);
  }

  /** A step that waits. */
  lemma Waits(s: State)
    requires Inv(s)
    ensures Inv(s.(past := s.past + [s.store])) && Passed(s, s.(past := s.past + [s.store]))
  {
    Untouched(s, s.(past := s.past + [s.store]));
  }

  lemma GetStep(s: State, t: nat, ok: bool, f: Gptr)
    requires Inv(s) && Enabled(s, Step(t, ok, f)) && s.clients[t].pc.Get? && Free(s, s.clients[t].spot)
    ensures Inv(Apply(s, Step(t, ok, f))) && Passed(s, Apply(s, Step(t, ok, f)))
  {
    var s', spot := Apply(s, Step(t, ok, f)), s.clients[t].spot;
    if spot in s.items { assert ItemOk(s, spot); }
    MovesOn(s, s', t, s'.clients[t].pc);
  }

  lemma AskStep(s: State, t: nat, ok: bool, f: Gptr)
    requires Inv(s) && Enabled(s, Step(t, ok, f)) && s.clients[t].pc.Ask?
    ensures Inv(Apply(s, Step(t, ok, f))) && Passed(s, Apply(s, Step(t, ok, f)))
  {
    var s', c := Apply(s, Step(t, ok, f)), s.clients[t];
    assert ClientOk(s, t) && TopOk(s, c.spot);
    NowRead(s, s', c.began, c.spot.key);
    MovesOn(s, s', t, s'.clients[t].pc);
  }

  lemma MissedStep(s: State, t: nat, ok: bool, f: Gptr)
    requires Inv(s) && Enabled(s, Step(t, ok, f)) && s.clients[t].pc.Missed?
    ensures Inv(Apply(s, Step(t, ok, f))) && Passed(s, Apply(s, Step(t, ok, f)))
  {
    var s', c := Apply(s, Step(t, ok, f)), s.clients[t];
    assert ClientOk(s, t) && TopOk(s, c.spot);
    NowRead(s, s', c.began, c.spot.key);
    MovesOn(s, s', t, s'.clients[t].pc);
  }

  lemma FetchedStep(s: State, t: nat, ok: bool, f: Gptr)
    requires Inv(s) && Enabled(s, Step(t, ok, f)) && s.clients[t].pc.Fetched?
    ensures Inv(Apply(s, Step(t, ok, f))) && Passed(s, Apply(s, Step(t, ok, f)))
  {
    var s', c := Apply(s, Step(t, ok, f)), s.clients[t];
    var k, pc := c.spot.key, c.pc;
    assert ClientOk(s, t) && TopOk(s, c.spot);
    CurrentLater(s, s', c.began, k, pc.ver);
    if pc.ok && pc.node && pc.ver.IsValid() && ok {
      RefreshTop(s, c.began, k, pc.ver);
      Assembled(s, s', t, c.spot);
    } else {
      if pc.node && !pc.ver.IsValid() { NullIsGone(s', c.began, k, pc.ver); }
      MovesOn(s, s', t, s'.clients[t].pc);
    }
  }

  lemma SetLockedStep(s: State, t: nat, ok: bool, f: Gptr)
    requires Inv(s) && Enabled(s, Step(t, ok, f)) && s.clients[t].pc.SetLocked?
    ensures Inv(Apply(s, Step(t, ok, f))) && Passed(s, Apply(s, Step(t, ok, f)))
  {
    var s', c := Apply(s, Step(t, ok, f)), s.clients[t];
    assert ClientOk(s, t) && TopOk(s, c.spot);
    if ok {
      assert Read(s', |s'.past|, c.spot.key, s'.store[c.spot.key]);
      if c.spot in s.items { assert ItemOk(s, c.spot); ItemLater(s, s', c.spot); }
      Assembled(s, s', t, c.spot);
    } else {
      MovesOn(s, s', t, Failed);
    }
  }

  lemma SetDoneStep(s: State, t: nat, ok: bool, f: Gptr)
    requires Inv(s) && Enabled(s, Step(t, ok, f)) && s.clients[t].pc.SetDone?
    ensures Inv(Apply(s, Step(t, ok, f))) && Passed(s, Apply(s, Step(t, ok, f)))
  {
    var s', c := Apply(s, Step(t, ok, f)), s.clients[t];
    var k, pc := c.spot.key, c.pc;
    assert ClientOk(s, t) && TopOk(s, c.spot);
    RefreshTop(s, c.began, k, pc.ver);
    CurrentLater(s, s', c.began, k, pc.ver);
    Assembled(s, s', t, c.spot);
  }

  lemma DelStep(s: State, t: nat, ok: bool, f: Gptr)
    requires Inv(s) && Enabled(s, Step(t, ok, f)) && s.clients[t].pc.Del? && Free(s, s.clients[t].spot)
    ensures Inv(Apply(s, Step(t, ok, f))) && Passed(s, Apply(s, Step(t, ok, f)))
  {
    var spot := s.clients[t].spot;
    assert ClientOk(s, t) && TopOk(s, spot);
    Assembled(s, Apply(s, Step(t, ok, f)), t, spot);
  }

  lemma UnlinkedStep(s: State, t: nat, ok: bool, f: Gptr)
    requires Inv(s) && Enabled(s, Step(t, ok, f)) && s.clients[t].pc.Unlinked?
    ensures Inv(Apply(s, Step(t, ok, f))) && Passed(s, Apply(s, Step(t, ok, f)))
  {
    var s', c := Apply(s, Step(t, ok, f)), s.clients[t];
    assert ClientOk(s, t) && TopOk(s, c.spot);
    Assembled(s, s', t, c.spot);
  }

  /** The cached version is not older than one read in this call, so it was current in this call too. */
  lemma CachedIsCurrent(s: State, since: nat, k: Key, asked: TagGptr, ver: TagGptr)
    requires Inv(s) && Current(s, since, k, asked) && Current(s, 0, k, ver) && ver.tag >= asked.tag
    ensures Current(s, since, k, ver)
  {
    var m :| since <= m && Read(s, m, k, asked);
    var j: nat :| Read(s, j, k, ver);
    if j < since {
      assert InOrder(s, j, m);
    }
  }

  lemma RecheckStep(s: State, t: nat, ok: bool, f: Gptr)
    requires Inv(s) && Enabled(s, Step(t, ok, f)) && s.clients[t].pc.Asked?
    requires Free(s, s.clients[t].spot) && s.clients[t].spot in s.items
    ensures Inv(Apply(s, Step(t, ok, f))) && Passed(s, Apply(s, Step(t, ok, f)))
  {
    var s', c := Apply(s, Step(t, ok, f)), s.clients[t];
    var k, pc, it := c.spot.key, c.pc, s.items[c.spot];
    assert ClientOk(s, t) && TopOk(s, c.spot) && ItemOk(s, c.spot);
    CurrentLater(s, s', c.began, k, pc.ver);
    CurrentLater(s, s', 0, k, pc.ver);
    CurrentLater(s, s', 0, k, it.ver);
    if pc.ok && pc.ver.IsValid() && it.ver.tag < pc.ver.tag {
      assert pc.copied;
      if ok { RefreshTop(s, c.began, k, pc.ver); }
    } else if pc.ok && pc.ver.IsValid() {
      CachedIsCurrent(s, c.began, k, pc.ver, it.ver);
      CurrentLater(s, s', c.began, k, it.ver);
    } else if pc.ok {
      NullIsGone(s, c.began, k, pc.ver);
      CurrentLater(s, s', c.began, k, pc.ver);
    }
    Assembled(s, s', t, c.spot);
  }

  /** A version that was current has at most the tag the store has now. */
  lemma RefreshTop(s: State, since: nat, k: Key, v: TagGptr)
    requires Inv(s) && Current(s, since, k, v)
    ensures k in s.store && v.tag <= s.store[k].tag
  {
    var j :| since <= j && Read(s, j, k, v);
    assert InOrder(s, j, |s.past|);
  }

  lemma NullIsGone(s: State, since: nat, k: Key, v: TagGptr)
    requires Current(s, since, k, v) && !v.IsValid()
    ensures CurrentGone(s, since, k)
  {
    var j :| since <= j && Read(s, j, k, v);
    assert Gone(s, j, k);
  }

  lemma StepInv(s: State, t: nat, ok: bool, f: Gptr)
    requires Inv(s) && Enabled(s, Step(t, ok, f))
    ensures Inv(Apply(s, Step(t, ok, f))) && Passed(s, Apply(s, Step(t, ok, f)))
  {
    var c := s.clients[t];
    if StepClient(s, t, ok, f) == s {
      Waits(s);
      return;
    }
    match c.pc
    case Get => GetStep(s, t, ok, f);
    case Ask(_) => AskStep(s, t, ok, f);
    case Asked(_, _, _, _) =>
      if c.spot in s.items {
        RecheckStep(s, t, ok, f);
      } else {
        assert ClientOk(s, t);
        MovesOn(s, Apply(s, Step(t, ok, f)), t, Missed);
      }
    case Missed => MissedStep(s, t, ok, f);
    case Fetched(_, _, _, _) => FetchedStep(s, t, ok, f);
    case Set(put) => MovesOn(s, Apply(s, Step(t, ok, f)), t, SetLocked(put));
    case SetLocked(_) => SetLockedStep(s, t, ok, f);
    case SetDone(_, _) => SetDoneStep(s, t, ok, f);
    case Del => DelStep(s, t, ok, f);
    case Unlinked => UnlinkedStep(s, t, ok, f);
  }

  lemma BeginInv(s: State, t: nat, spot: Spot, pc: Pc)
    requires Inv(s) && Enabled(s, Begin(t, spot, pc))
    ensures Inv(Apply(s, Begin(t, spot, pc))) && Passed(s, Apply(s, Begin(t, spot, pc)))
  {
    var s' := Apply(s, Begin(t, spot, pc));
    assert TopOk(s, spot);
    if spot in s.items { assert ItemOk(s, spot); ItemLater(s, s', spot); }
    Assembled(s, s', t, spot);
  }

  lemma DirectInv(s: State, k: Key, f: Gptr, data: Data)
    requires Inv(s) && Enabled(s, Direct(k, f, data))
    ensures Inv(Apply(s, Direct(k, f, data))) && Passed(s, Apply(s, Direct(k, f, data)))
  {
    Untouched(s, Apply(s, Direct(k, f, data)));
  }

  lemma ApplyInv(s: State, a: Action)
    requires Inv(s) && Enabled(s, a)
    ensures Inv(Apply(s, a)) && Passed(s, Apply(s, a))
  {
    match a
    case Begin(t, spot, pc) => BeginInv(s, t, spot, pc);
    case Step(t, ok, f) => StepInv(s, t, ok, f);
    case Evict(spot) => Untouched(s, Apply(s, a));
    case Direct(k, f, data) => DirectInv(s, k, f, data);
    case Sprout(k) => Untouched(s, Apply(s, a));
  }

  /* ---- whole runs ---- */

  /** A run of the system from the empty store and empty caches. */
  ghost predicate IsRun(run: seq<State>, acts: seq<Action>) {
    && |run| == |acts| + 1 && run[0] == Empty
    && forall i | 0 <= i < |acts| :: Enabled(run[i], acts[i]) && run[i + 1] == Apply(run[i], acts[i])
  }

  lemma {:induction false} RunInv(run: seq<State>, acts: seq<Action>, i: nat)
    requires IsRun(run, acts) && i < |run|
    ensures Inv(run[i]) && |run[i].past| == i
    ensures forall j: nat | j <= i :: At(run[i], j) == run[j].store
  {
    if i == 0 {
      forall a: nat, b: nat ensures InOrder(run[0], a, b) {}
    } else {
      RunInv(run, acts, i - 1);
      assert run[i] == Apply(run[i - 1], acts[i - 1]);
      ApplyInv(run[i - 1], acts[i - 1]);
      forall j: nat | j <= i ensures At(run[i], j) == run[j].store {
        if j < i { assert At(run[i], j) == At(run[i - 1], j); }
      }
    }
  }

  lemma {:induction false} TopNeverDrops(run: seq<State>, acts: seq<Action>, i: nat, j: nat, spot: Spot)
    requires IsRun(run, acts) && i <= j < |run| && spot in run[i].top
    ensures spot in run[j].top && run[i].top[spot] <= run[j].top[spot]
  {
    if i < j {
      TopNeverDrops(run, acts, i, j - 1, spot);
      RunInv(run, acts, j - 1);
      ApplyInv(run[j - 1], acts[j - 1]);
    }
  }

  /** Main result: the tag cached for a key in one cache never goes backwards, across refreshes, stores,
      evictions and refetches. */
  lemma CachedTagsNeverDrop(run: seq<State>, acts: seq<Action>, i: nat, j: nat, spot: Spot)
    requires IsRun(run, acts) && i <= j < |run| && spot in run[i].items && spot in run[j].items
    ensures run[i].items[spot].ver.tag <= run[j].items[spot].ver.tag
  {
    RunInv(run, acts, i);
    RunInv(run, acts, j);
    assert ItemOk(run[i], spot) && ItemOk(run[j], spot);
    TopNeverDrops(run, acts, i, j, spot);
  }
}
