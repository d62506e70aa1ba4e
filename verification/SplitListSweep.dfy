/** A deletion leaves nothing behind (src/split_ordered.cc:287-317): when it has answered that it removed a key, the node it
    marked has been taken off the list, by its own swap or by the search that it makes when that swap fails, or by another
    thread before that search went by. */
module SplitListSweep {
  import opened Common
  import opened SplitListCore
  import opened SplitListSteps
  import opened SplitListCalls

  /* ---- of two nodes of one name the marked one comes first ---- */

  ghost predicate Older(c: Core, p: Gptr, q: Gptr) {
    In(c, p) && In(c, q) && Live(c, q) && p != q && IsRegular(c.heap[q].name) && c.heap[p].name == c.heap[q].name ==>
      c.pos[p] < c.pos[q]
  }

  ghost predicate MarkedFirst(c: Core) {
    forall p, q {:trigger Older(c, p, q)} :: Older(c, p, q)
  }

  lemma PutOlder(c: Core, prev: Gptr, p: Gptr, cur: Link, a: Gptr, b: Gptr)
    requires WellFormed(c) && MarkedFirst(c) && MayPut(c, prev, p, cur)
    requires IsRegular(c.heap[p].name) && cur.ptr != 0 ==> c.heap[p].name.key < c.heap[cur.ptr].name.key
    ensures Older(Put(c, prev, p, cur), a, b)
  {
    PutNodes(c, prev, p, cur, a);
    PutNodes(c, prev, p, cur, b);
    if In(Put(c, prev, p, cur), a) && In(Put(c, prev, p, cur), b) && Live(Put(c, prev, p, cur), b) && a != b {
      if a != p && b != p {
        assert Older(c, a, b);
      } else if b == p {
        BeforeNew(c, prev, p, cur, a);
      } else {
        assert c.heap[b].name in Names(c);
      }
    }
  }

  lemma BeforeNew(c: Core, prev: Gptr, p: Gptr, cur: Link, a: Gptr)
    requires WellFormed(c) && MayPut(c, prev, p, cur) && In(c, a) && a != p
    requires IsRegular(c.heap[p].name) && cur.ptr != 0 ==> c.heap[p].name.key < c.heap[cur.ptr].name.key
    ensures IsRegular(c.heap[p].name) && c.heap[a].name == c.heap[p].name ==> c.pos[a] < Between(c, prev, cur.ptr)
  {
    PutBetween(c, prev, p, cur, a);
    if cur.ptr != 0 { assert Leads(c, cur.ptr, a); }
  }

  lemma CutOlder(c: Core, prev: Gptr, cur: Link, next: Gptr)
    requires WellFormed(c) && MarkedFirst(c) && MayCut(c, prev, cur, next)
    ensures MarkedFirst(Cut(c, prev, cur, next))
  {
    forall a, b ensures Older(Cut(c, prev, cur, next), a, b) {
      CutNodes(c, prev, cur, next, a);
      CutNodes(c, prev, cur, next, b);
      assert Older(c, a, b);
    }
  }

  lemma MarkOlder(c: Core, cur: Gptr)
    requires MarkedFirst(c) && cur in c.heap
    ensures MarkedFirst(Mark(c, cur))
  {
    forall a, b ensures Older(Mark(c, cur), a, b) { assert Older(c, a, b); }
  }

  lemma StepOlder(c: Core, hist: seq<set<Name>>, op: Op, d: Gptr, same: bool)
    requires WellFormed(c) && MarkedFirst(c) && OpOk(c, hist, op) && !op.pc.Done?
    ensures MarkedFirst(StepOp(c, op, d, same).0)
  {
    match op.pc
    case Linking => if StepOp(c, op, d, same).0 != c { LinkOlder(c, hist, op); }
    case Marking(_) => MarkOlder(c, op.cur.ptr);
    case Unlink(next) => if Unmoved(c, op) { CutOlder(c, op.prev, op.cur, next.ptr); }
    case Cutting(next) => if Unmoved(c, op) { CutOlder(c, op.prev, op.cur, next.ptr); }
    case _ =>
  }

  lemma LinkOlder(c: Core, hist: seq<set<Name>>, op: Op)
    requires WellFormed(c) && MarkedFirst(c) && OpOk(c, hist, op) && op.pc.Linking? && Unmoved(c, op)
    requires op.prev in c.pos
    ensures MarkedFirst(Put(c, op.prev, op.kind.node, op.cur))
  {
    if IsRegular(op.name) { NotStored(c, op); }
    forall a, b ensures Older(Put(c, op.prev, op.kind.node, op.cur), a, b) {
      PutOlder(c, op.prev, op.kind.node, op.cur, a, b);
    }
  }

  lemma ActOlder(s: State, a: Action)
    requires Inv(s) && MarkedFirst(s.core) && Enabled(s, a)
    ensures MarkedFirst(Apply(s, a).core)
  {
    match a
    case Begin(t, kind, name) =>
      forall p, q ensures Older(Apply(s, a).core, p, q) {
        assert Older(s.core, p, q);
        if p in s.core.placed { assert NodeOk(s.core, p); }
        if q in s.core.placed { assert NodeOk(s.core, q); }
      }
    case Step(t, d, same) =>
      assert ThreadOk(s, t);
      StepOlder(s.core, s.hist, s.ops[t], d, same);
  }

  lemma {:induction false} RunOlder(run: seq<State>, acts: seq<Action>, i: nat)
    requires IsRun(run, acts) && i < |run|
    ensures MarkedFirst(run[i].core)
  {
    if i > 0 {
      RunOlder(run, acts, i - 1);
      RunInv(run, acts, i - 1);
      assert run[i] == Apply(run[i - 1], acts[i - 1]);
      ActOlder(run[i - 1], acts[i - 1]);
    }
  }

  /* ---- the search for the marked node ---- */

  /** `x` holds the name and is marked. */
  ghost predicate Dead(c: Core, x: Gptr, name: Name) {
    x in c.placed && x in c.heap && x in c.pos && c.heap[x].next.mark && c.heap[x].name == name
  }

  /** While `x` is on the list it is ahead of the search. */
  ghost predicate Coming(c: Core, op: Op, x: Gptr) {
    op.prev != 0 && Live(c, op.prev) && In(c, x) ==> Beyond(c, op.prev, x)
  }

  /** Where `x` is when the search stands at `cur`, having read `next` there. */
  ghost predicate Told(c: Core, op: Op, x: Gptr, next: Link) {
    !next.mark && In(c, x) && op.cur.ptr in c.heap && op.cur.ptr in c.pos ==>
      && (c.heap[op.cur.ptr].name == op.name ==> c.pos[x] < c.pos[op.cur.ptr])
      && (next.ptr == 0 ==> c.pos[x] <= c.pos[op.cur.ptr])
  }

  /** What holds of a deletion that has marked `x`. */
  ghost predicate Hunts(c: Core, op: Op, x: Gptr) {
    match op.pc
    case Start => op.helping
    case Visit => op.helping && Coming(c, op, x) && (op.cur.ptr == 0 ==> !In(c, x))
    case Check(next) => op.helping && Coming(c, op, x) && Told(c, op, x, next)
    case Unlink(_) => op.helping && Coming(c, op, x)
    case Cutting(_) => op.cur.ptr == x
    case Done(_) => !In(c, x)
    case _ => false
  }

  /** Other threads do not put `x` back, and do not move what the search has passed. */
  lemma HuntKeeps(c: Core, c': Core, hist: seq<set<Name>>, op: Op, x: Gptr)
    requires WellFormed(c) && Later(c, c') && OpOk(c, hist, op) && Dead(c, x, op.name) && Hunts(c, op, x)
    requires forall p | p in c.freed :: p in c'.freed
    ensures Dead(c', x, op.name) && Hunts(c', op, x)
  {
    assert NodeLater(c, c', x);
    if op.prev in c.placed { assert NodeOk(c, op.prev) && NodeLater(c, c', op.prev); }
    if op.cur.ptr in c.placed { assert NodeOk(c, op.cur.ptr) && NodeLater(c, c', op.cur.ptr); }
  }

  /** The search stands right behind a live node: `x` is not before `cur`. */
  lemma NotPassed(c: Core, op: Op, x: Gptr)
    requires WellFormed(c) && op.prev != 0 && Unmoved(c, op) && op.prev in c.placed && In(c, x) && Coming(c, op, x)
    ensures op.cur.ptr != 0 && In(c, op.cur.ptr) && c.pos[op.cur.ptr] <= c.pos[x]
    ensures c.heap[op.cur.ptr].name.key <= c.heap[x].name.key
    ensures op.cur.ptr != x ==> c.pos[op.cur.ptr] < c.pos[x]
  {
    LiveIsIn(c, op.prev);
    assert Leads(c, op.prev, x);
    assert Leads(c, op.cur.ptr, x);
  }

  /** The bucket's dummy comes before `x`. */
  lemma DummyFirst(c: Core, op: Op, x: Gptr)
    requires WellFormed(c) && op.prev == 0 && Starts(c, op) && In(c, x) && c.heap[x].name == op.name
    ensures In(c, op.cur.ptr) && c.pos[op.cur.ptr] < c.pos[x]
  {
    assert NodeOk(c, op.cur.ptr);
    assert Leads(c, x, op.cur.ptr);
  }

  lemma VisitHunts(c: Core, hist: seq<set<Name>>, op: Op, x: Gptr, d: Gptr, same: bool)
    requires WellFormed(c) && MarkedFirst(c) && OpOk(c, hist, op) && Dead(c, x, op.name) && Hunts(c, op, x) && op.pc.Visit?
    ensures Hunts(c, StepOp(c, op, d, same).1, x)
  {
    var cur := op.cur.ptr;
    if cur != 0 {
      assert NodeOk(c, cur);
      if !c.heap[cur].next.mark && In(c, x) {
        LiveIsIn(c, cur);
        assert Older(c, x, cur) && Leads(c, cur, x);
      }
    }
  }

  lemma CheckHunts(c: Core, hist: seq<set<Name>>, op: Op, x: Gptr, d: Gptr, same: bool)
    requires WellFormed(c) && OpOk(c, hist, op) && Dead(c, x, op.name) && Hunts(c, op, x) && op.pc.Check?
    ensures Hunts(c, StepOp(c, op, d, same).1, x)
  {
    assert NodeOk(c, op.cur.ptr);
    if In(c, x) {
      if op.prev == 0 {
        DummyFirst(c, op, x);
      } else if Unmoved(c, op) {
        NotPassed(c, op, x);
      }
    }
  }

  lemma UnlinkHunts(c: Core, hist: seq<set<Name>>, op: Op, x: Gptr, d: Gptr, same: bool)
    requires WellFormed(c) && OpOk(c, hist, op) && Dead(c, x, op.name) && Hunts(c, op, x) && op.pc.Unlink? && Unmoved(c, op)
    ensures var (c', op') := StepOp(c, op, d, same); Hunts(c', op', x)
  {
    var next := op.pc.next.ptr;
    var c' := Cut(c, op.prev, op.cur, next);
    CutKeeps(c, op.prev, op.cur, next);
    CutNodes(c, op.prev, op.cur, next, x);
    CutNodes(c, op.prev, op.cur, next, op.prev);
    if In(c', x) { assert Leads(c', op.prev, x); }
  }

  lemma StepHunts(c: Core, hist: seq<set<Name>>, op: Op, x: Gptr, d: Gptr, same: bool)
    requires WellFormed(c) && MarkedFirst(c) && OpOk(c, hist, op) && Dead(c, x, op.name) && Hunts(c, op, x) && !op.pc.Done?
    requires op.pc.Start? ==> d in c.placed
    ensures var (c', op') := StepOp(c, op, d, same); Hunts(c', op', x)
  {
    match op.pc
    case Start => assert NodeOk(c, d);
    case Visit => VisitHunts(c, hist, op, x, d, same);
    case Check(_) => CheckHunts(c, hist, op, x, d, same);
    case Unlink(_) => if Unmoved(c, op) { UnlinkHunts(c, hist, op, x, d, same); }
    case Cutting(_) =>
  }

  lemma OwnHunts(s: State, t: nat, d: Gptr, same: bool, x: Gptr)
    requires Inv(s) && MarkedFirst(s.core) && Enabled(s, Step(t, d, same))
    requires t in s.ops && Dead(s.core, x, s.ops[t].name) && Hunts(s.core, s.ops[t], x)
    ensures var s' := Apply(s, Step(t, d, same));
      t in s'.ops && s'.ops[t].name == s.ops[t].name && Dead(s'.core, x, s.ops[t].name) && Hunts(s'.core, s'.ops[t], x)
  {
    assert ThreadOk(s, t);
    StepInv(s, t, d, same);
    StepHunts(s.core, s.hist, s.ops[t], x, d, same);
    StepKeepsCall(s.core, s.ops[t], d, same);
    assert NodeLater(s.core, Apply(s, Step(t, d, same)).core, x);
  }

  lemma OtherHunts(s: State, a: Action, t: nat, x: Gptr)
    requires Inv(s) && Enabled(s, a) && !Begins(a, t) && !StepsOf(a, t)
    requires t in s.ops && Dead(s.core, x, s.ops[t].name) && Hunts(s.core, s.ops[t], x)
    ensures var s' := Apply(s, a);
      t in s'.ops && s'.ops[t] == s.ops[t] && Dead(s'.core, x, s.ops[t].name) && Hunts(s'.core, s.ops[t], x)
  {
    assert ThreadOk(s, t);
    match a {
      case Begin(u, kind, name) => BeginInv(s, u, kind, name);
      case Step(u, d, same) => StepInv(s, u, d, same);
    }
    HuntKeeps(s.core, Apply(s, a).core, s.hist, s.ops[t], x);
  }

  /** From the moment after its mark on, a deletion hunts for the node it has marked. */
  lemma {:induction false} HuntGoesOn(run: seq<State>, acts: seq<Action>, m: nat, i: nat, t: nat, x: Gptr)
    requires IsRun(run, acts) && m <= i < |run| && forall j | m <= j < i :: !Begins(acts[j], t)
    requires t in run[m].ops && Dead(run[m].core, x, run[m].ops[t].name) && Hunts(run[m].core, run[m].ops[t], x)
    ensures t in run[i].ops && run[i].ops[t].name == run[m].ops[t].name
    ensures Dead(run[i].core, x, run[i].ops[t].name) && Hunts(run[i].core, run[i].ops[t], x)
    decreases i
  {
    if m < i {
      HuntGoesOn(run, acts, m, i - 1, t, x);
      var s, a := run[i - 1], acts[i - 1];
      assert Enabled(s, a) && run[i] == Apply(s, a);
      RunInv(run, acts, i - 1);
      RunOlder(run, acts, i - 1);
      if StepsOf(a, t) { OwnHunts(s, t, a.dummy, a.same, x); } else { OtherHunts(s, a, t, x); }
    }
  }

  /** The step with which a deletion removes its name marks a node of that name. */
  lemma MarkStep(s: State, t: nat, d: Gptr, same: bool, name: Name) returns (x: Gptr)
    requires Inv(s) && Enabled(s, Step(t, d, same)) && s.ops[t].kind.Deleting? && s.ops[t].name == name
    requires Names(Apply(s, Step(t, d, same)).core) != Names(s.core)
    ensures Live(s.core, x) && s.core.heap[x].name == name
    ensures var s' := Apply(s, Step(t, d, same)); t in s'.ops && Dead(s'.core, x, name) && Hunts(s'.core, s'.ops[t], x)
    ensures Apply(s, Step(t, d, same)).ops[t].name == name
  {
    assert ThreadOk(s, t);
    StepInv(s, t, d, same);
    x := s.ops[t].cur.ptr;
    assert NodeOk(s.core, x);
  }

  lemma MarkAt(run: seq<State>, acts: seq<Action>, b: nat, m: nat, t: nat, name: Name) returns (x: Gptr)
    requires Calls(run, acts, b, m, t) && acts[b] == Begin(t, Deleting, name) && m < |acts| && StepsOf(acts[m], t)
    requires Removes(run[m], run[m + 1], name)
    ensures Live(run[m].core, x) && run[m].core.heap[x].name == name
    ensures t in run[m + 1].ops && run[m + 1].ops[t].name == name
    ensures Dead(run[m + 1].core, x, name) && Hunts(run[m + 1].core, run[m + 1].ops[t], x)
  {
    CallIs(run, acts, b, m, t);
    RunInv(run, acts, m);
    assert Enabled(run[m], acts[m]) && run[m + 1] == Apply(run[m], acts[m]);
    x := MarkStep(run[m], t, acts[m].dummy, acts[m].same, name);
  }

  /** Main result: a deletion that has answered true marked, at one of its own steps, a node that held the name, and by the
      time it returns that node has been taken off the list. With `TakenOffOnce` it has been taken off exactly once. */
  lemma DeletesTakeOff(run: seq<State>, acts: seq<Action>, b: nat, i: nat, t: nat, name: Name) returns (m: nat, x: Gptr)
    requires Calls(run, acts, b, i, t) && acts[b] == Begin(t, Deleting, name) && IsRegular(name)
    requires t in run[i].ops && run[i].ops[t].pc == Done(true)
    ensures b < m < i && StepsOf(acts[m], t) && Removes(run[m], run[m + 1], name)
    ensures Live(run[m].core, x) && run[m].core.heap[x].name == name && !Live(run[m + 1].core, x)
    ensures x in run[i].core.freed
  {
    CallIs(run, acts, b, i, t);
    m := Progress(run, acts, b, i, t, Deleting, name);
    x := MarkAt(run, acts, b, m, t, name);
    HuntGoesOn(run, acts, m + 1, i, t, x);
  }
}
