/** Whole calls of item_get, store_item and item_unlink, as their callers see them (extra/KVS-DRAM-Cache/cache_api.cc:100-237,
    668-751, 849-873): what a call was begun with, what it does to the shared store, and what it answers. */
module CacheCalls {
  import opened Common
  import opened VersionedCache

  predicate Begins(a: Action, t: nat) { a.Begin? && a.t == t }

  predicate StepsOf(a: Action, t: nat) { a.Step? && a.t == t }

  /** Client `t` began a call with action `b` and has begun no other before moment `i`. */
  ghost predicate Calls(run: seq<State>, acts: seq<Action>, b: nat, i: nat, t: nat) {
    && IsRun(run, acts) && b < i < |run| && Begins(acts[b], t)
    && forall j | b < j < i :: !Begins(acts[j], t)
  }

  /** The places of a call that was begun as `first`. */
  ghost predicate Stage(first: Pc, pc: Pc) {
    match first
    case Get => pc.Get? || pc.Ask? || pc.Asked? || pc.Missed? || pc.Fetched? || pc.Got? || pc.Absent? || pc.Failed?
    case Set(d) => pc == Set(d) || pc == SetLocked(d) || (pc.SetDone? && pc.put == d) || pc.Stored? || pc.Failed?
    case Del => pc.Del? || pc.Unlinked? || pc.Deleted?
    case _ => true
  }

  ghost predicate IsCall(s: State, t: nat, spot: Spot, began: nat, first: Pc) {
    t in s.clients && s.clients[t].spot == spot && s.clients[t].began == began && Stage(first, s.clients[t].pc)
  }

  /** Nothing but the place of client `t` has changed among the clients. */
  ghost predicate Moved(s: State, s': State, t: nat) {
    t in s.clients && t in s'.clients && s'.clients == s.clients[t := s.clients[t].(pc := s'.clients[t].pc)]
  }

  ghost predicate NoFailure(pc: Pc) {
    !pc.Failed? && (pc.Asked? ==> pc.ok) && (pc.Fetched? ==> pc.ok)
  }

  /** How many steps a call still has to take at most. */
  ghost function Rank(pc: Pc): nat {
    match pc
    case Get => 5
    case Ask(_) => 4
    case Asked(_, _, _, _) => 3
    case Set(_) => 3
    case Del => 2
    case Missed => 2
    case SetLocked(_) => 2
    case Fetched(_, _, _, _) => 1
    case SetDone(_, _) => 1
    case Unlinked => 1
    case _ => 0
  }

  /** What one step of item_get does. */
  ghost predicate GetStepped(s: State, s': State, t: nat, ok: bool)
    requires t in s.clients
  {
    && Moved(s, s', t) && s'.store == s.store && s'.bufs == s.bufs
    && var c, pc' := s.clients[t], s'.clients[t].pc;
    && Stage(Get, pc')
    && (Holds(c) || Free(s, c.spot) ==> Rank(pc') < Rank(c.pc))
    && (ok && NoFailure(c.pc) ==> NoFailure(pc'))
    && (pc'.Got? ==> c.spot in s'.items && s'.items[c.spot] == Item(pc'.ver, pc'.data))
  }

  lemma NowMoves(s: State, s1: State, t: nat, pc: Pc)
    requires t in s.clients && s1.clients == s.clients
    ensures Moved(s, Now(s1, t, pc), t) && Now(s1, t, pc).clients[t].pc == pc
  {}

  lemma RecheckMoves(s: State, t: nat, ok: bool)
    requires t in s.clients && s.clients[t].pc.Asked? && s.clients[t].spot in s.items
    ensures GetStepped(s, Recheck(s, t, ok), t, ok)
  {
    var spot, pc := s.clients[t].spot, s.clients[t].pc;
    var it := s.items[spot];
    if !pc.ok {
      NowMoves(s, Dropped(s, spot), t, Failed);
    } else if !pc.ver.IsValid() {
      NowMoves(s, s, t, Absent);
    } else if it.ver.tag < pc.ver.tag {
      if ok { RefreshMoves(s, t, spot, pc.ver, pc.data); } else { NowMoves(s, s, t, Failed); }
    } else {
      NowMoves(s, s, t, Got(it.ver, it.data));
    }
  }

  lemma RefreshMoves(s: State, t: nat, spot: Spot, ver: TagGptr, data: Data)
    requires t in s.clients && s.clients[t].spot == spot
    ensures var s' := Now(Cached(s, spot, Item(ver, data)), t, Got(ver, data));
      Moved(s, s', t) && s'.clients[t].pc == Got(ver, data) && spot in s'.items && s'.items[spot] == Item(ver, data)
  {
    NowMoves(s, Cached(s, spot, Item(ver, data)), t, Got(ver, data));
  }

  lemma FetchedMoves(s: State, t: nat, ok: bool)
    requires t in s.clients && s.clients[t].pc.Fetched?
    ensures GetStepped(s, StepGet(s, t, ok), t, ok)
  {}

  lemma MissedMoves(s: State, t: nat, ok: bool)
    requires t in s.clients && s.clients[t].pc.Missed?
    ensures GetStepped(s, StepGet(s, t, ok), t, ok)
  {}

  lemma AskMoves(s: State, t: nat, ok: bool)
    requires t in s.clients && s.clients[t].pc.Ask?
    ensures GetStepped(s, StepGet(s, t, ok), t, ok)
  {}

  lemma GetMoves(s: State, t: nat, ok: bool)
    requires t in s.clients && Getting(s.clients[t].pc)
    ensures GetStepped(s, StepGet(s, t, ok), t, ok)
  {
    var c := s.clients[t];
    match c.pc
    case Ask(_) => AskMoves(s, t, ok);
    case Missed => MissedMoves(s, t, ok);
    case Fetched(_, _, _, _) => FetchedMoves(s, t, ok);
    case Asked(_, _, _, _) =>
      if Free(s, c.spot) {
        if c.spot in s.items { RecheckMoves(s, t, ok); } else { NowMoves(s, s, t, Missed); }
      }
    case Get =>
  }

  lemma ChangeMoves(s: State, t: nat, ok: bool, f: Gptr)
    requires t in s.clients && Fresh(s, f)
    ensures Moved(s, StepChange(s, t, ok, f), t)
  {
    var c := s.clients[t];
    match c.pc
    case Set(put) => NowMoves(s, s, t, SetLocked(put));
    case SetLocked(put) =>
      NowMoves(s, Written(s, c.spot.key, f, put), t, SetDone(Next(s.store, c.spot.key, f), put));
      NowMoves(s, s, t, Failed);
    case SetDone(ver, put) => NowMoves(s, Cached(s, c.spot, Item(ver, put)), t, Stored(ver));
    case Del => NowMoves(s, Dropped(s, c.spot), t, Unlinked);
    case Unlinked => NowMoves(s, Cleared(s, c.spot.key), t, Deleted);
    case _ =>
  }

  lemma OthersLeave(s: State, a: Action, t: nat)
    requires Enabled(s, a) && t in s.clients && !Begins(a, t) && !StepsOf(a, t)
    ensures t in Apply(s, a).clients && Apply(s, a).clients[t] == s.clients[t]
  {
    if a.Step? {
      if Getting(s.clients[a.t].pc) { GetMoves(s, a.t, a.ok); } else { ChangeMoves(s, a.t, a.ok, a.f); }
    }
  }

  lemma ChangeStage(s: State, t: nat, ok: bool, f: Gptr, first: Pc)
    requires t in s.clients && Fresh(s, f) && !Getting(s.clients[t].pc) && Stage(first, s.clients[t].pc)
    ensures Stage(first, StepChange(s, t, ok, f).clients[t].pc)
  {}

  lemma CallGoesOn(s: State, a: Action, t: nat, spot: Spot, began: nat, first: Pc)
    requires Enabled(s, a) && IsCall(s, t, spot, began, first) && !Begins(a, t) && Starts(first)
    ensures IsCall(Apply(s, a), t, spot, began, first)
  {
    if !StepsOf(a, t) {
      OthersLeave(s, a, t);
    } else if Getting(s.clients[t].pc) {
      GetMoves(s, t, a.ok);
    } else {
      ChangeMoves(s, t, a.ok, a.f);
      ChangeStage(s, t, a.ok, a.f, first);
    }
  }

  predicate Starts(pc: Pc) { pc.Get? || pc.Set? || pc.Del? }

  /** A call is at the spot, from the moment and of the kind that its begin says. */
  lemma {:induction false} CallIs(run: seq<State>, acts: seq<Action>, b: nat, i: nat, t: nat)
    requires Calls(run, acts, b, i, t)
    ensures IsCall(run[i], t, acts[b].spot, b + 1, acts[b].pc)
    decreases i
  {
    RunInv(run, acts, b);
    BeginIs(run[b], acts[b]);
    if i > b + 1 {
      CallIs(run, acts, b, i - 1, t);
      CallGoesOn(run[i - 1], acts[i - 1], t, acts[b].spot, b + 1, acts[b].pc);
    }
  }

  lemma BeginIs(s: State, a: Action)
    requires Enabled(s, a) && a.Begin?
    ensures IsCall(Apply(s, a), a.t, a.spot, |s.past| + 1, a.pc) && Starts(a.pc)
  {}

  /* ---- what a call does to the store ---- */

  /** From `st` to `st'` the key got version `v`, with the next tag or tag 0, in a buffer that was new. */
  ghost predicate Puts(s: State, s': State, k: Key, v: TagGptr) {
    && v.IsValid() && v.ptr !in s.bufs && v.tag == (if k in s.store then s.store[k].tag + 1 else 0)
    && s'.store == s.store[k := v]
  }

  /** From `st` to `st'` the key's cell, if there is one, became null under the next tag. */
  ghost predicate Clears(s: State, s': State, k: Key) {
    s'.store == if k in s.store then s.store[k := TagGptr(0, s.store[k].tag + 1)] else s.store
  }

  /** The only step of `t` between `b` and `i` that may change the store is `m`. */
  ghost predicate OnlyAt(run: seq<State>, acts: seq<Action>, b: nat, i: nat, t: nat, m: nat)
    requires |run| == |acts| + 1 && i < |run|
  {
    forall j | b < j < i && StepsOf(acts[j], t) && j != m :: run[j + 1].store == run[j].store
  }

  ghost predicate Holding(s: State, v: TagGptr, d: Data) { v.ptr in s.bufs && s.bufs[v.ptr] == d }

  /** What the steps of a call have done to the store by moment `i`; `m == 0` stands for nothing. */
  ghost predicate Done(run: seq<State>, acts: seq<Action>, b: nat, i: nat, t: nat, k: Key, first: Pc, m: nat)
    requires |run| == |acts| + 1 && b < i < |run| && t in run[i].clients
  {
    var pc := run[i].clients[t].pc;
    && OnlyAt(run, acts, b, i, t, m)
    && (m != 0 <==> pc.SetDone? || pc.Stored? || pc.Deleted?)
    && (m != 0 ==> b < m < i && StepsOf(acts[m], t))
    && (pc.SetDone? || pc.Stored? ==> first.Set? && Puts(run[m], run[m + 1], k, pc.ver) && Holding(run[i], pc.ver, first.put))
    && (pc.Deleted? ==> Clears(run[m], run[m + 1], k))
  }

  /** What one step of a client does to the store. */
  ghost predicate Stepped(s: State, s': State, t: nat, k: Key, first: Pc)
    requires t in s.clients && t in s'.clients
  {
    var pc, pc' := s.clients[t].pc, s'.clients[t].pc;
    if pc.SetLocked? && pc'.SetDone? then first.Set? && Puts(s, s', k, pc'.ver) && Holding(s', pc'.ver, first.put)
    else if pc.Unlinked? && pc'.Deleted? then Clears(s, s', k)
    else
      && s'.store == s.store && (pc'.SetDone? ==> pc' == pc) && (pc'.Deleted? ==> pc' == pc)
      && (pc'.Stored? ==> pc' == pc || (pc.SetDone? && pc.ver == pc'.ver))
      && (pc.SetDone? ==> pc' == pc || pc'.Stored?) && (pc.Stored? || pc.Deleted? ==> pc' == pc)
  }

  lemma WriteIs(s: State, t: nat, ok: bool, f: Gptr, spot: Spot, began: nat, first: Pc)
    requires IsCall(s, t, spot, began, first) && Fresh(s, f) && s.clients[t].pc.SetLocked? && Starts(first)
    ensures Stepped(s, StepChange(s, t, ok, f), t, spot.key, first)
  {}

  lemma UnlinkIs(s: State, t: nat, ok: bool, f: Gptr, spot: Spot, began: nat, first: Pc)
    requires IsCall(s, t, spot, began, first) && Fresh(s, f) && s.clients[t].pc.Unlinked?
    ensures Stepped(s, StepChange(s, t, ok, f), t, spot.key, first)
  {}

  lemma ChangeIs(s: State, t: nat, ok: bool, f: Gptr, spot: Spot, began: nat, first: Pc)
    requires IsCall(s, t, spot, began, first) && Fresh(s, f) && !Getting(s.clients[t].pc) && Starts(first)
    ensures t in StepChange(s, t, ok, f).clients && Stepped(s, StepChange(s, t, ok, f), t, spot.key, first)
  {
    if s.clients[t].pc.SetLocked? {
      WriteIs(s, t, ok, f, spot, began, first);
    } else if s.clients[t].pc.Unlinked? {
      UnlinkIs(s, t, ok, f, spot, began, first);
    }
  }

  lemma StepIs(s: State, a: Action, t: nat, spot: Spot, began: nat, first: Pc)
    requires Enabled(s, a) && StepsOf(a, t) && IsCall(s, t, spot, began, first) && Starts(first)
    ensures t in Apply(s, a).clients && Stepped(s, Apply(s, a), t, spot.key, first)
  {
    if Getting(s.clients[t].pc) { GetMoves(s, t, a.ok); } else { ChangeIs(s, t, a.ok, a.f, spot, began, first); }
  }

  lemma OwnStep(run: seq<State>, acts: seq<Action>, b: nat, i: nat, t: nat, k: Key, first: Pc, m: nat) returns (m': nat)
    requires |run| == |acts| + 1 && b < i < |acts| && StepsOf(acts[i], t)
    requires t in run[i].clients && t in run[i + 1].clients && Keeps(run[i], run[i + 1])
    requires Done(run, acts, b, i, t, k, first, m) && Stepped(run[i], run[i + 1], t, k, first)
    ensures Done(run, acts, b, i + 1, t, k, first, m')
  {
    var pc, pc' := run[i].clients[t].pc, run[i + 1].clients[t].pc;
    m' := if (pc.SetLocked? && pc'.SetDone?) || (pc.Unlinked? && pc'.Deleted?) then i else m;
  }

  /** Buffers keep their content. */
  ghost predicate Keeps(s: State, s': State) {
    forall p | p in s.bufs :: p in s'.bufs && s'.bufs[p] == s.bufs[p]
  }

  lemma OtherStep(run: seq<State>, acts: seq<Action>, b: nat, i: nat, t: nat, k: Key, first: Pc, m: nat)
    requires |run| == |acts| + 1 && b < i < |acts| && !StepsOf(acts[i], t)
    requires t in run[i].clients && t in run[i + 1].clients && run[i + 1].clients[t] == run[i].clients[t]
    requires Done(run, acts, b, i, t, k, first, m) && Keeps(run[i], run[i + 1])
    ensures Done(run, acts, b, i + 1, t, k, first, m)
  {}

  lemma {:induction false} Progress(run: seq<State>, acts: seq<Action>, b: nat, i: nat, t: nat) returns (m: nat)
    requires Calls(run, acts, b, i, t)
    ensures t in run[i].clients && Done(run, acts, b, i, t, acts[b].spot.key, acts[b].pc, m)
    decreases i
  {
    if i == b + 1 {
      m := BegunSo(run, acts, b, t);
    } else {
      m := Progress(run, acts, b, i - 1, t);
      m := OneMore(run, acts, b, i - 1, t, acts[b].spot, acts[b].pc, m);
    }
  }

  lemma BegunSo(run: seq<State>, acts: seq<Action>, b: nat, t: nat) returns (m: nat)
    requires IsRun(run, acts) && b < |acts| && Begins(acts[b], t)
    ensures t in run[b + 1].clients && Done(run, acts, b, b + 1, t, acts[b].spot.key, acts[b].pc, m)
  {
    JustBegun(run[b], acts[b]);
    m := 0;
  }

  lemma JustBegun(s: State, a: Action)
    requires Enabled(s, a) && a.Begin?
    ensures a.t in Apply(s, a).clients && Apply(s, a).clients[a.t].pc == a.pc && Starts(a.pc)
  {}

  lemma OneMore(run: seq<State>, acts: seq<Action>, b: nat, i: nat, t: nat, spot: Spot, first: Pc, m: nat) returns (m': nat)
    requires i < |acts| && Calls(run, acts, b, i, t) && !Begins(acts[i], t) && spot == acts[b].spot && first == acts[b].pc
    requires t in run[i].clients && Done(run, acts, b, i, t, spot.key, first, m)
    ensures t in run[i + 1].clients && Done(run, acts, b, i + 1, t, spot.key, first, m')
  {
    CallIs(run, acts, b, i, t);
    RunInv(run, acts, i);
    ApplyInv(run[i], acts[i]);
    if StepsOf(acts[i], t) {
      JustBegun(run[b], acts[b]);
      StepIs(run[i], acts[i], t, spot, b + 1, first);
      m' := OwnStep(run, acts, b, i, t, spot.key, first, m);
    } else {
      OthersLeave(run[i], acts[i], t);
      OtherStep(run, acts, b, i, t, spot.key, first, m);
      m' := m;
    }
  }

  /** Main result: a store of `d` that has returned version `ver` changed the shared store exactly once, at one of its own
      steps: the key went to `ver`, whose tag is the next one, or 0 for a new key, and whose buffer holds `d`. */
  lemma StoresWriteOnce(run: seq<State>, acts: seq<Action>, b: nat, i: nat, t: nat, spot: Spot, d: Data) returns (m: nat)
    requires Calls(run, acts, b, i, t) && acts[b] == Begin(t, spot, Set(d))
    requires t in run[i].clients && run[i].clients[t].pc.Stored?
    ensures b < m < i && StepsOf(acts[m], t) && OnlyAt(run, acts, b, i, t, m)
    ensures Puts(run[m], run[m + 1], spot.key, run[i].clients[t].pc.ver)
    ensures Holding(run[i], run[i].clients[t].pc.ver, d)
  {
    m := Progress(run, acts, b, i, t);
  }

  /** Main result: a delete that has returned changed the shared store at one of its own steps only, and there the key's
      cell became null under the next tag, unless the key had none. */
  lemma DeletesClearOnce(run: seq<State>, acts: seq<Action>, b: nat, i: nat, t: nat, spot: Spot) returns (m: nat)
    requires Calls(run, acts, b, i, t) && acts[b] == Begin(t, spot, Del)
    requires t in run[i].clients && Ended(run[i].clients[t])
    ensures run[i].clients[t].pc.Deleted?
    ensures b < m < i && StepsOf(acts[m], t) && OnlyAt(run, acts, b, i, t, m) && Clears(run[m], run[m + 1], spot.key)
  {
    CallIs(run, acts, b, i, t);
    m := Progress(run, acts, b, i, t);
  }

  /** A get never changes the shared store, and neither does a store that fails. */
  lemma OthersChangeNothing(run: seq<State>, acts: seq<Action>, b: nat, i: nat, t: nat, j: nat)
    requires Calls(run, acts, b, i, t) && t in run[i].clients && b < j < i && StepsOf(acts[j], t)
    requires acts[b].pc.Get? || run[i].clients[t].pc.Failed?
    ensures run[j + 1].store == run[j].store
  {
    CallIs(run, acts, b, i, t);
    var _ := Progress(run, acts, b, i, t);
  }

  /* ---- what a call answers ---- */

  /** Every allocation and copy on the call's way has succeeded so far. */
  ghost predicate AllOk(acts: seq<Action>, b: nat, i: nat, t: nat)
    requires i <= |acts|
  {
    forall j | b < j < i && StepsOf(acts[j], t) :: acts[j].ok
  }

  lemma OkStep(s: State, a: Action, t: nat)
    requires Enabled(s, a) && t in s.clients && NoFailure(s.clients[t].pc) && !Begins(a, t) && (StepsOf(a, t) ==> a.ok)
    ensures t in Apply(s, a).clients && NoFailure(Apply(s, a).clients[t].pc)
  {
    if !StepsOf(a, t) {
      OthersLeave(s, a, t);
    } else if Getting(s.clients[t].pc) {
      GetMoves(s, t, true);
    }
  }

  /** A call fails only when an allocation or a copy on its way has failed. */
  lemma {:induction false} FailsOnlyWithCause(run: seq<State>, acts: seq<Action>, b: nat, i: nat, t: nat)
    requires Calls(run, acts, b, i, t) && AllOk(acts, b, i, t)
    ensures t in run[i].clients && NoFailure(run[i].clients[t].pc)
    decreases i
  {
    if i == b + 1 {
      JustBegun(run[b], acts[b]);
    } else {
      FailsOnlyWithCause(run, acts, b, i - 1, t);
      OkStep(run[i - 1], acts[i - 1], t);
    }
  }

  ghost predicate ReadAt(run: seq<State>, j: nat, k: Key, v: TagGptr)
    requires j < |run|
  {
    k in run[j].store && run[j].store[k] == v
  }

  ghost predicate GoneAt(run: seq<State>, j: nat, k: Key)
    requires j < |run|
  {
    k in run[j].store ==> !run[j].store[k].IsValid()
  }

  /** Main result: a version that a get returns was the shared store's current version of the key asked for at a moment
      after its begin, and the data are that version's; an absence it returns was true at such a moment. */
  lemma GetsAreCurrent(run: seq<State>, acts: seq<Action>, b: nat, i: nat, t: nat, spot: Spot) returns (j: nat)
    requires Calls(run, acts, b, i, t) && acts[b] == Begin(t, spot, Get)
    requires t in run[i].clients && Ended(run[i].clients[t]) && !run[i].clients[t].pc.Failed?
    ensures b < j <= i
    ensures match run[i].clients[t].pc
      case Got(ver, data) => ver.IsValid() && Holding(run[i], ver, data) && ReadAt(run, j, spot.key, ver)
      case pc => pc.Absent? && GoneAt(run, j, spot.key)
  {
    RunInv(run, acts, i);
    CallIs(run, acts, b, i, t);
    assert ClientOk(run[i], t);
    var c := run[i].clients[t];
    if c.pc.Got? {
      j :| c.began <= j && Read(run[i], j, spot.key, c.pc.ver);
    } else {
      j :| c.began <= j && Gone(run[i], j, spot.key);
    }
    assert At(run[i], j) == run[j].store;
  }

  /** The tags of a key only grow. */
  lemma TagsGrow(run: seq<State>, acts: seq<Action>, i: nat, j: nat, k: Key)
    requires IsRun(run, acts) && i <= j < |run| && k in run[i].store
    ensures k in run[j].store && (run[j].store[k] == run[i].store[k] || run[j].store[k].tag > run[i].store[k].tag)
  {
    RunInv(run, acts, j);
    assert InOrder(run[j], i, j) && At(run[j], i) == run[i].store && At(run[j], j) == run[j].store;
  }

  /** Main result: a get, through the same or another cache, that begins after a store has returned gives the stored
      version with the data handed to the store, or a later version; and it finds nothing only where a later delete has
      cleared the key. */
  lemma StoresAreSeen(run: seq<State>, acts: seq<Action>, b: nat, i: nat, t: nat, spot: Spot, d: Data,
                      b': nat, j: nat, u: nat, spot': Spot) returns (n: nat)
    requires Calls(run, acts, b, i, t) && acts[b] == Begin(t, spot, Set(d))
    requires t in run[i].clients && run[i].clients[t].pc.Stored?
    requires Calls(run, acts, b', j, u) && acts[b'] == Begin(u, spot', Get) && i <= b' && spot'.key == spot.key
    requires u in run[j].clients && Ended(run[j].clients[u]) && !run[j].clients[u].pc.Failed?
    ensures b' < n <= j && spot.key in run[n].store
    ensures var v := run[i].clients[t].pc.ver;
      match run[j].clients[u].pc
      case Got(ver, data) => (ver == v && data == d) || ver.tag > v.tag
      case pc => pc.Absent? && !run[n].store[spot.key].IsValid() && run[n].store[spot.key].tag > v.tag
  {
    var m := StoresWriteOnce(run, acts, b, i, t, spot, d);
    n := GetsAreCurrent(run, acts, b', j, u, spot');
    TagsGrow(run, acts, m + 1, n, spot.key);
    BuffersStay(run, acts, i, j);
  }

  lemma BuffersStay(run: seq<State>, acts: seq<Action>, i: nat, j: nat)
    requires IsRun(run, acts) && i <= j < |run|
    ensures Keeps(run[i], run[j])
  {
    forall k: nat ensures KeepsAt(run, k) {
      if k + 1 < |run| { OneStays(run, acts, k); }
    }
    AllStay(run, i, j);
  }

  ghost predicate KeepsAt(run: seq<State>, k: nat) { k + 1 < |run| ==> Keeps(run[k], run[k + 1]) }

  lemma {:induction false} AllStay(run: seq<State>, i: nat, j: nat)
    requires i <= j < |run| && forall k: nat {:trigger KeepsAt(run, k)} :: KeepsAt(run, k)
    ensures Keeps(run[i], run[j])
    decreases j
  {
    if i < j {
      AllStay(run, i, j - 1);
      assert KeepsAt(run, j - 1);
    }
  }

  lemma OneStays(run: seq<State>, acts: seq<Action>, i: nat)
    requires IsRun(run, acts) && i < |acts|
    ensures Keeps(run[i], run[i + 1])
  {
    RunInv(run, acts, i);
    ApplyInv(run[i], acts[i]);
  }

  /** Main result: a get that begins after a delete has returned does not give any version that was there up to then. */
  lemma DeletesAreSeen(run: seq<State>, acts: seq<Action>, b: nat, i: nat, t: nat, spot: Spot,
                       b': nat, j: nat, u: nat, spot': Spot) returns (m: nat)
    requires Calls(run, acts, b, i, t) && acts[b] == Begin(t, spot, Del)
    requires t in run[i].clients && Ended(run[i].clients[t])
    requires Calls(run, acts, b', j, u) && acts[b'] == Begin(u, spot', Get) && i <= b' && spot'.key == spot.key
    requires u in run[j].clients && run[j].clients[u].pc.Got?
    ensures b < m < i && Clears(run[m], run[m + 1], spot.key)
    ensures forall n | 0 <= n <= m + 1 && spot.key in run[n].store :: run[n].store[spot.key].tag < run[j].clients[u].pc.ver.tag
  {
    m := DeletesClearOnce(run, acts, b, i, t, spot);
    var x := GetsAreCurrent(run, acts, b', j, u, spot');
    forall n | 0 <= n <= m + 1 && spot.key in run[n].store
      ensures run[n].store[spot.key].tag < run[j].clients[u].pc.ver.tag
    {
      TagsGrow(run, acts, n, m + 1, spot.key);
      TagsGrow(run, acts, m + 1, x, spot.key);
    }
  }

  /** At the step with which a call returns, the cache holds what a get or a store returned, and nothing at the spot of a
      delete. */
  lemma CachedAtReturn(run: seq<State>, acts: seq<Action>, i: nat, t: nat)
    requires IsRun(run, acts) && i < |acts| && StepsOf(acts[i], t) && t in run[i].clients && t in run[i + 1].clients
    requires !Ended(run[i].clients[t]) && Ended(run[i + 1].clients[t])
    ensures var s, c := run[i + 1], run[i + 1].clients[t];
      match c.pc
      case Got(ver, data) => c.spot in s.items && s.items[c.spot] == Item(ver, data)
      case Stored(ver) => c.spot in s.items && s.items[c.spot].ver == ver && Holding(s, ver, s.items[c.spot].data)
      case Deleted => c.spot !in s.items
      case _ => true
  {
    RunInv(run, acts, i);
    assert ClientOk(run[i], t);
    var s, a := run[i], acts[i];
    if Getting(s.clients[t].pc) { GetMoves(s, t, a.ok); } else { ChangeCaches(s, t, a.ok, a.f); }
  }

  lemma ChangeCaches(s: State, t: nat, ok: bool, f: Gptr)
    requires t in s.clients && Fresh(s, f) && PcOk(s, s.clients[t]) && !Getting(s.clients[t].pc) && !Ended(s.clients[t])
    ensures var s', c := StepChange(s, t, ok, f), s.clients[t];
      && Moved(s, s', t)
      && (s'.clients[t].pc.Stored? ==>
            && c.spot in s'.items && s'.items[c.spot].ver == s'.clients[t].pc.ver
            && Holding(s', s'.clients[t].pc.ver, s'.items[c.spot].data))
      && (s'.clients[t].pc.Deleted? ==> c.spot !in s'.items) && !s'.clients[t].pc.Got?
  {
    ChangeMoves(s, t, ok, f);
  }

  /** A hit on a version that is still current is served from the cache in three steps, without a copy from the store. */
  lemma HitsNeedNoCopy(s: State, t: nat, f: Gptr) returns (s1: State, s2: State, s3: State)
    requires Inv(s) && t in s.clients && s.clients[t].pc.Get? && Free(s, s.clients[t].spot) && Fresh(s, f)
    requires var spot := s.clients[t].spot; spot in s.items && spot.key in s.store && s.store[spot.key] == s.items[spot].ver
    ensures s1 == Apply(s, Step(t, true, f)) && Enabled(s1, Step(t, true, f)) && s2 == Apply(s1, Step(t, true, f))
    ensures Enabled(s2, Step(t, true, f)) && s3 == Apply(s2, Step(t, true, f))
    ensures t in s2.clients && s2.clients[t].pc.Asked? && !s2.clients[t].pc.copied
    ensures t in s3.clients && var it := s.items[s.clients[t].spot]; s3.clients[t].pc == Got(it.ver, it.data)
  {
    var a, spot := Step(t, true, f), s.clients[t].spot;
    assert ItemOk(s, spot);
    s1 := Apply(s, a);
    assert s1.clients[t].pc == Ask(s.items[spot].ver);
    s2 := Apply(s1, a);
    assert s2.clients[t].pc == Asked(s.items[spot].ver, [], false, true);
    assert Free(s2, spot);
    s3 := Apply(s2, a);
  }

  /* ---- a call that is left alone ends ---- */

  /** The item lock of the client's spot is free or its own. */
  ghost predicate MayGo(s: State, t: nat)
    requires t in s.clients
  {
    forall u | u in s.clients && u != t && Holds(s.clients[u]) :: s.clients[u].spot != s.clients[t].spot
  }

  lemma ChangeDescends(s: State, t: nat, f: Gptr)
    requires t in s.clients && Fresh(s, f) && !Getting(s.clients[t].pc) && !Ended(s.clients[t])
    requires Holds(s.clients[t]) || Free(s, s.clients[t].spot)
    ensures Rank(StepChange(s, t, true, f).clients[t].pc) < Rank(s.clients[t].pc)
  {}

  lemma StepDescends(s: State, t: nat, f: Gptr)
    requires t in s.clients && !Ended(s.clients[t]) && MayGo(s, t) && Fresh(s, f)
    ensures var s' := Apply(s, Step(t, true, f));
      && t in s'.clients && MayGo(s', t) && Rank(s'.clients[t].pc) < Rank(s.clients[t].pc)
      && (NoFailure(s.clients[t].pc) ==> NoFailure(s'.clients[t].pc))
  {
    var c := s.clients[t];
    if !Holds(c) { assert Free(s, c.spot); }
    if Getting(c.pc) {
      GetMoves(s, t, true);
    } else {
      ChangeMoves(s, t, true, f);
      ChangeDescends(s, t, f);
    }
    if NoFailure(c.pc) { OkStep(s, Step(t, true, f), t); }
  }

  /** Main result: from every state that a run can reach, a call that is left alone with the lock of its item comes to its
      end in at most five steps, and it does not fail when nothing on its way has failed. */
  lemma {:induction false} FinishesAlone(run: seq<State>, acts: seq<Action>, t: nat) returns (run': seq<State>, acts': seq<Action>)
    requires IsRun(run, acts) && t in run[|acts|].clients && MayGo(run[|acts|], t)
    ensures IsRun(run', acts') && acts <= acts' && |acts'| <= |acts| + 5
    ensures forall i | |acts| <= i < |acts'| :: StepsOf(acts'[i], t) && acts'[i].ok
    ensures t in run'[|acts'|].clients && Ended(run'[|acts'|].clients[t])
    ensures NoFailure(run[|acts|].clients[t].pc) ==> !run'[|acts'|].clients[t].pc.Failed?
    ensures |acts'| <= |acts| + Rank(run[|acts|].clients[t].pc)
    decreases Rank(run[|acts|].clients[t].pc)
  {
    var s := run[|acts|];
    RunInv(run, acts, |acts|);
    if Ended(s.clients[t]) {
      return run, acts;
    }
    var f := AboveAll(s.bufs.Keys);
    var a := Step(t, true, f);
    StepDescends(s, t, f);
    var run1, acts1 := run + [Apply(s, a)], acts + [a];
    RunMore(run, acts, a);
    run', acts' := FinishesAlone(run1, acts1, t);
  }

  lemma RunMore(run: seq<State>, acts: seq<Action>, a: Action)
    requires IsRun(run, acts) && Enabled(run[|acts|], a)
    ensures IsRun(run + [Apply(run[|acts|], a)], acts + [a])
  {
    var run1, acts1 := run + [Apply(run[|acts|], a)], acts + [a];
    forall i | 0 <= i < |acts1| ensures Enabled(run1[i], acts1[i]) && run1[i + 1] == Apply(run1[i], acts1[i]) {
      if i < |acts| { assert run1[i] == run[i] && run1[i + 1] == run[i + 1] && acts1[i] == acts[i]; }
    }
  }
}
