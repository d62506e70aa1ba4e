/** Many threads on the split-ordered list (src/split_ordered.cc:177-317, 420-532): every shared read and every
    compare-and-swap of ListFind, ListInsert and ListDelete is one step, in any interleaving. */
module SplitListSteps {

  import opened Common
  import opened SplitListCore

  datatype Kind = Finding | Inserting(node: Gptr) | Deleting

  /** What the thread does next: fetch the bucket cell, read the current node's cell, compare the cell before it,
      or try one of the swaps. */
  datatype Pc =
    | Start
    | Visit
    | Check(next: Link)
    | Unlink(next: Link)
    | Linking
    | Marking(next: Link)
    | Cutting(next: Link)
    | Done(result: bool)

  /** `prev` is the node whose cell led to `cur`; 0 stands for the bucket's cell. `helping` is set when a deletion
      has marked its node and searches once more to have it taken off. */
  datatype Op = Op(kind: Kind, name: Name, began: nat, prev: Gptr, cur: Link, helping: bool, pc: Pc)

  /** `hist` lists the stored names at every moment, the present one last. */
  datatype State = State(core: Core, ops: map<nat, Op>, hist: seq<set<Name>>)

  datatype Action =
    | Begin(t: nat, kind: Kind, name: Name)
    | Step(t: nat, dummy: Gptr, same: bool)

  /* ---- one thread's step ---- */

  /** ListFind returns. */
  function Return(op: Op, found: bool, next: Link): Op {
    if op.helping then op.(pc := Done(true))
    else match op.kind
      case Finding => op.(pc := Done(found))
      case Inserting(_) => if found && IsRegular(op.name) then op.(pc := Done(false)) else op.(pc := Linking)
      case Deleting => if found then op.(pc := Marking(next)) else op.(pc := Done(false))
  }

  /** The cell before `cur` still holds what was read from it. */
  predicate Unmoved(c: Core, op: Op) {
    op.prev in c.heap && c.heap[op.prev].next == Link(false, op.cur.ptr, op.cur.tag)
  }

  function CheckStep(c: Core, op: Op, next: Link, same: bool): Op {
    if op.cur.ptr !in c.heap || !(if op.prev == 0 then same else Unmoved(c, op)) then op.(pc := Start)
    else if next.mark then op.(pc := Unlink(next))
    else if c.heap[op.cur.ptr].name.key > op.name.key then Return(op, false, next)
    else if c.heap[op.cur.ptr].name == op.name then Return(op, true, next)
    else op.(prev := op.cur.ptr, cur := next, pc := Visit)
  }

  /** One step; `dummy` is where the bucket's cell points and `same` whether it did not move. */
  function StepOp(c: Core, op: Op, dummy: Gptr, same: bool): (Core, Op) {
    match op.pc
    case Start => (c, op.(prev := 0, cur := Link(false, dummy, 0), pc := Visit))
    case Visit =>
      if op.cur.ptr in c.heap then (c, op.(pc := Check(c.heap[op.cur.ptr].next))) else (c, Return(op, false, op.cur))
    case Check(next) => (c, CheckStep(c, op, next, same))
    case Unlink(next) =>
      if Unmoved(c, op) then (Cut(c, op.prev, op.cur, next.ptr), op.(cur := next, pc := Visit))
      else (c, op.(pc := Start))
    case Linking =>
      if Unmoved(c, op) && op.kind.Inserting? && op.kind.node in c.heap && op.prev in c.pos then
        (Put(c, op.prev, op.kind.node, op.cur), op.(pc := Done(true)))
      else (c, op.(pc := Start))
    case Marking(next) =>
      if op.cur.ptr in c.heap && c.heap[op.cur.ptr].next == Link(false, next.ptr, next.tag) then
        (Mark(c, op.cur.ptr), op.(pc := Cutting(next)))
      else (c, op.(pc := Start))
    case Cutting(next) =>
      if Unmoved(c, op) then (Cut(c, op.prev, op.cur, next.ptr), op.(pc := Done(true)))
      else (c, op.(helping := true, pc := Start))
    case Done(_) => (c, op)
  }

  /* ---- the whole system ---- */

  predicate Idle(s: State, t: nat) { t !in s.ops || s.ops[t].pc.Done? }

  predicate Enabled(s: State, a: Action) {
    match a
    case Begin(t, kind, name) =>
      && Idle(s, t) && name.key > 0
      && (if kind.Inserting? then kind.node != 0 && kind.node !in s.core.heap else IsRegular(name))
    case Step(t, d, _) =>
      && !Idle(s, t)
      && (s.ops[t].pc.Start? ==>
            && d in s.core.placed && d in s.core.heap && !IsRegular(s.core.heap[d].name)
            && s.core.heap[d].name.key < s.ops[t].name.key)
  }

  function Apply(s: State, a: Action): State
    requires Enabled(s, a)
  {
    match a
    case Begin(t, kind, name) =>
      var c := if kind.Inserting? then s.core.(heap := s.core.heap[kind.node := Node(name, Link(false, 0, 0))]) else s.core;
      State(c, s.ops[t := Op(kind, name, |s.hist|, 0, Link(false, 0, 0), false, Start)], s.hist + [Names(c)])
    case Step(t, d, same) =>
      var (c, op) := StepOp(s.core, s.ops[t], d, same);
      State(c, s.ops[t := op], s.hist + [Names(c)])
  }

  function InitCore(root: Gptr): Core {
    Core(map[root := Node(Name(0, []), Link(false, 0, 0))], root, {root}, [], map[root := 0.0])
  }

  /** Only bucket 0's dummy is on the list. */
  function Init(root: Gptr): State {
    State(InitCore(root), map[], [Names(InitCore(root))])
  }

  /* ---- what a thread knows ---- */

  /** The name was stored, or was not stored, at some moment since the call began. */
  ghost predicate Present(hist: seq<set<Name>>, op: Op) {
    exists j :: op.began <= j < |hist| && op.name in hist[j]
  }

  ghost predicate Absent(hist: seq<set<Name>>, op: Op) {
    exists j :: op.began <= j < |hist| && op.name !in hist[j]
  }

  /** The call put its name in, or took it out, at some moment since it began. */
  ghost predicate Added(hist: seq<set<Name>>, op: Op) {
    exists j :: op.began <= j && AddedAt(hist, j, op.name)
  }

  ghost predicate Removed(hist: seq<set<Name>>, op: Op) {
    exists j :: op.began <= j && RemovedAt(hist, j, op.name)
  }

  ghost predicate AddedAt(hist: seq<set<Name>>, j: nat, name: Name) {
    j + 1 < |hist| && name !in hist[j] && hist[j + 1] == hist[j] + {name}
  }

  ghost predicate RemovedAt(hist: seq<set<Name>>, j: nat, name: Name) {
    j + 1 < |hist| && name in hist[j] && hist[j + 1] == hist[j] - {name}
  }

  ghost predicate Holds(c: Core, x: Gptr, name: Name) {
    Live(c, x) && c.heap[x].name == name
  }

  ghost predicate Beyond(c: Core, prev: Gptr, x: Gptr) {
    prev in c.pos && x in c.pos && c.pos[prev] < c.pos[x]
  }

  /** The thread has passed `prev`: while `prev` is not marked, what it looks for can only be behind it. */
  ghost predicate Passed(c: Core, op: Op) {
    op.prev != 0 ==>
      && op.prev in c.placed && op.prev in c.heap && c.heap[op.prev].name.key <= op.name.key
      && (IsRegular(op.name) && Live(c, op.prev) ==>
            forall x {:trigger Holds(c, x, op.name)} | Holds(c, x, op.name) :: Beyond(c, op.prev, x))
  }

  ghost predicate Starts(c: Core, op: Op) {
    op.prev == 0 ==>
      && op.cur.ptr in c.placed && op.cur.ptr in c.heap
      && !IsRegular(c.heap[op.cur.ptr].name) && c.heap[op.cur.ptr].name.key < op.name.key
  }

  /** Somewhere up to `cur` the list holds the name. */
  ghost predicate HeldUpTo(c: Core, cur: Gptr, name: Name) {
    exists x :: Holds(c, x, name) && !Beyond(c, cur, x)
  }

  ghost predicate PcOk(c: Core, hist: seq<set<Name>>, op: Op) {
    match op.pc
    case Start => true
    case Visit =>
      && Passed(c, op) && Starts(c, op)
      && (op.cur.ptr != 0 ==> op.cur.ptr in c.placed)
      && (op.cur.ptr == 0 && IsRegular(op.name) ==> Absent(hist, op))
    case Check(next) =>
      && Passed(c, op) && Starts(c, op) && op.cur.ptr in c.placed && op.cur.ptr in c.heap
      && (next.ptr != 0 ==> next.ptr in c.placed)
      && (next.mark ==> c.heap[op.cur.ptr].next == next)
      && (!next.mark && c.heap[op.cur.ptr].name == op.name ==> Present(hist, op))
      && (!next.mark && next.ptr == 0 && IsRegular(op.name) ==> Absent(hist, op) || HeldUpTo(c, op.cur.ptr, op.name))
    case Unlink(next) =>
      && op.prev != 0 && Passed(c, op) && op.cur.ptr in c.placed && op.cur.ptr in c.heap
      && next.mark && c.heap[op.cur.ptr].next == next
    case Linking =>
      && op.kind.Inserting? && op.prev != 0 && Passed(c, op)
      && (op.cur.ptr != 0 ==>
            && op.cur.ptr in c.placed && op.cur.ptr in c.heap
            && c.heap[op.cur.ptr].name.key >= op.name.key
            && (IsRegular(op.name) ==> c.heap[op.cur.ptr].name.key > op.name.key))
    case Marking(next) =>
      && op.kind.Deleting? && !op.helping && op.prev != 0 && op.prev in c.placed
      && op.cur.ptr in c.placed && op.cur.ptr in c.heap && c.heap[op.cur.ptr].name == op.name
    case Cutting(next) =>
      && op.kind.Deleting? && op.prev != 0 && op.prev in c.placed
      && op.cur.ptr in c.placed && op.cur.ptr in c.heap
      && c.heap[op.cur.ptr].next.mark && c.heap[op.cur.ptr].next.ptr == next.ptr
      && Removed(hist, op)
    case Done(r) => Answered(hist, op, r) && (op.helping ==> r)
  }

  /** The answer of a call was right at some moment of the call. */
  ghost predicate Answered(hist: seq<set<Name>>, op: Op, r: bool) {
    match op.kind
    case Finding => if r then Present(hist, op) else Absent(hist, op)
    case Inserting(_) => if r then IsRegular(op.name) ==> Added(hist, op) else Present(hist, op)
    case Deleting => if r then Removed(hist, op) else Absent(hist, op)
  }

  ghost predicate OpOk(c: Core, hist: seq<set<Name>>, op: Op) {
    && PcOk(c, hist, op) && op.name.key > 0
    && op.began < |hist|
    && (!op.kind.Inserting? ==> IsRegular(op.name))
    && (op.helping ==> op.kind.Deleting? && Removed(hist, op))
    && (op.kind.Inserting? && !op.pc.Done? ==>
          && op.kind.node != 0 && op.kind.node in c.heap && op.kind.node !in c.placed
          && c.heap[op.kind.node].name == op.name)
  }

  /* ---- what other threads' steps leave alone ---- */

  ghost predicate NodeLater(c: Core, c': Core, x: Gptr) {
    x in c.placed && x in c.heap && x in c.pos ==>
      && x in c'.placed && x in c'.heap && x in c'.pos
      && c'.heap[x].name == c.heap[x].name && c'.pos[x] == c.pos[x]
      && (c.heap[x].next.mark ==> c'.heap[x].next == c.heap[x].next)
      && (Live(c, x) ==> Live(c', x) || c.heap[x].name !in Names(c'))
  }

  /** What is newly stored lies behind every live node that does not come after it. */
  ghost predicate NewBeyond(c: Core, c': Core, x: Gptr, prev: Gptr) {
    && Live(c', x) && IsRegular(c'.heap[x].name) && !Live(c, x)
    && prev in c.placed && Live(c', prev) && c'.heap[prev].name.key <= c'.heap[x].name.key
    ==> Beyond(c', prev, x)
  }

  ghost predicate Later(c: Core, c': Core) {
    && (forall x {:trigger NodeLater(c, c', x)} :: NodeLater(c, c', x))
    && (forall x, prev {:trigger NewBeyond(c, c', x, prev)} :: NewBeyond(c, c', x, prev))
  }

  /** The private node of another insertion stays private. */
  ghost predicate Spares(c: Core, c': Core, p: Gptr) {
    p in c.heap && p !in c.placed ==> p in c'.heap && p !in c'.placed && c'.heap[p].name == c.heap[p].name
  }

  lemma SameLater(c: Core)
    ensures Later(c, c)
  {}

  lemma PutLater(c: Core, prev: Gptr, p: Gptr, cur: Link)
    requires WellFormed(c) && MayPut(c, prev, p, cur)
    requires cur.ptr != 0 && IsRegular(c.heap[p].name) ==> c.heap[p].name.key < c.heap[cur.ptr].name.key
    ensures Later(c, Put(c, prev, p, cur))
  {
    var c' := Put(c, prev, p, cur);
    forall x ensures NodeLater(c, c', x) {
      PutNodes(c, prev, p, cur, x);
    }
    forall x, q ensures NewBeyond(c, c', x, q) {
      PutNodes(c, prev, p, cur, x);
      PutNodes(c, prev, p, cur, q);
      if Live(c', x) && IsRegular(c'.heap[x].name) && !Live(c, x) && q in c.placed && Live(c', q)
        && c'.heap[q].name.key <= c'.heap[x].name.key {
        LiveIsIn(c, q);
        PutBetween(c, prev, p, cur, q);
        assert cur.ptr != 0 ==> Leads(c, cur.ptr, q);
      }
    }
  }

  lemma MarkLater(c: Core, cur: Gptr)
    requires WellFormed(c) && MayMark(c, cur)
    ensures Later(c, Mark(c, cur))
  {
    var c' := Mark(c, cur);
    MarkNames(c, cur);
    forall x ensures NodeLater(c, c', x) {}
  }

  lemma CutLater(c: Core, prev: Gptr, cur: Link, next: Gptr)
    requires WellFormed(c) && MayCut(c, prev, cur, next)
    ensures Later(c, Cut(c, prev, cur, next))
  {
    var c' := Cut(c, prev, cur, next);
    forall x ensures NodeLater(c, c', x) { CutNodes(c, prev, cur, next, x); }
    forall x, q ensures NewBeyond(c, c', x, q) { CutNodes(c, prev, cur, next, x); }
  }

  lemma SeenKeeps(hist: seq<set<Name>>, names: set<Name>, op: Op)
    ensures Present(hist, op) ==> Present(hist + [names], op)
    ensures Absent(hist, op) ==> Absent(hist + [names], op)
    ensures Added(hist, op) ==> Added(hist + [names], op)
    ensures Removed(hist, op) ==> Removed(hist + [names], op)
    ensures op.began <= |hist| && op.name in names ==> Present(hist + [names], op)
    ensures op.began <= |hist| && op.name !in names ==> Absent(hist + [names], op)
  {
    var hist' := hist + [names];
    assert hist'[|hist|] == names;
    if Present(hist, op) {
      var j :| op.began <= j < |hist| && op.name in hist[j];
      assert op.name in hist'[j];
    }
    if Absent(hist, op) {
      var j :| op.began <= j < |hist| && op.name !in hist[j];
      assert op.name !in hist'[j];
    }
    if Added(hist, op) {
      var j: nat :| op.began <= j && AddedAt(hist, j, op.name);
      assert AddedAt(hist', j, op.name);
    }
    if Removed(hist, op) {
      var j: nat :| op.began <= j && RemovedAt(hist, j, op.name);
      assert RemovedAt(hist', j, op.name);
    }
  }

  lemma PassedKeeps(c: Core, c': Core, op: Op)
    requires WellFormed(c) && Later(c, c') && Passed(c, op)
    ensures Passed(c', op)
  {
    if op.prev != 0 {
      assert NodeOk(c, op.prev) && NodeLater(c, c', op.prev);
      if IsRegular(op.name) && Live(c', op.prev) {
        forall x | Holds(c', x, op.name)
          ensures Beyond(c', op.prev, x)
        {
          if Live(c, x) {
            assert NodeOk(c, x) && NodeLater(c, c', x) && Holds(c, x, op.name);
          } else {
            assert NewBeyond(c, c', x, op.prev);
          }
        }
      }
    }
  }

  lemma HeldKeeps(c: Core, c': Core, cur: Gptr, name: Name)
    requires WellFormed(c) && Later(c, c') && HeldUpTo(c, cur, name) && cur in c.placed
    ensures HeldUpTo(c', cur, name) || name !in Names(c')
  {
    var x :| Holds(c, x, name) && !Beyond(c, cur, x);
    assert NodeOk(c, x) && NodeLater(c, c', x) && NodeOk(c, cur) && NodeLater(c, c', cur);
    if Live(c', x) { assert Holds(c', x, name); }
  }

  ghost predicate Grows(hist: seq<set<Name>>, hist': seq<set<Name>>, c': Core) {
    hist' == hist + [Names(c')]
  }

  lemma PcKeeps(c: Core, c': Core, hist: seq<set<Name>>, hist': seq<set<Name>>, op: Op)
    requires WellFormed(c) && Later(c, c') && Grows(hist, hist', c') && OpOk(c, hist, op)
    ensures PcOk(c', hist', op)
  {
    SeenKeeps(hist, Names(c'), op);
    if op.cur.ptr in c.placed { assert NodeOk(c, op.cur.ptr) && NodeLater(c, c', op.cur.ptr); }
    if op.prev in c.placed { assert NodeOk(c, op.prev) && NodeLater(c, c', op.prev); }
    match op.pc
    case Visit =>
      PassedKeeps(c, c', op);
    case Check(next) =>
      PassedKeeps(c, c', op);
      if next.ptr in c.placed { assert NodeOk(c, next.ptr) && NodeLater(c, c', next.ptr); }
      if HeldUpTo(c, op.cur.ptr, op.name) { HeldKeeps(c, c', op.cur.ptr, op.name); }
    case Unlink(next) =>
      PassedKeeps(c, c', op);
    case Linking =>
      PassedKeeps(c, c', op);
    case Start =>
    case Marking(_) =>
    case Cutting(_) =>
    case Done(_) =>
  }

  lemma OpKeeps(c: Core, c': Core, hist: seq<set<Name>>, hist': seq<set<Name>>, op: Op)
    requires WellFormed(c) && Later(c, c') && Grows(hist, hist', c') && OpOk(c, hist, op)
    requires op.kind.Inserting? ==> Spares(c, c', op.kind.node)
    ensures OpOk(c', hist', op)
  {
    PcKeeps(c, c', hist, hist', op);
    SeenKeeps(hist, Names(c'), op);
  }

  /* ---- a thread's own step ---- */

  ghost predicate Current(c: Core, hist: seq<set<Name>>) {
    hist != [] && hist[|hist| - 1] == Names(c)
  }

  lemma NameHeld(c: Core, name: Name)
    ensures name in Names(c) <==> exists x :: Holds(c, x, name)
  {
    if name in Names(c) {
      var x :| x in c.placed && Live(c, x) && c.heap[x].name == name;
      assert Holds(c, x, name);
    }
  }

  /** A live `prev` that leads to `cur`: what the thread looks for is not before `cur`. */
  lemma NotBefore(c: Core, op: Op, x: Gptr)
    requires WellFormed(c) && Passed(c, op) && op.prev != 0 && Unmoved(c, op) && IsRegular(op.name) && Holds(c, x, op.name)
    ensures In(c, op.prev) && In(c, x) && op.cur.ptr != 0 && In(c, op.cur.ptr)
    ensures c.pos[op.prev] < c.pos[op.cur.ptr] <= c.pos[x] && c.heap[op.cur.ptr].name.key <= op.name.key
    ensures op.cur.ptr != x ==> Beyond(c, op.cur.ptr, x)
  {
    LiveIsIn(c, op.prev);
    LiveIsIn(c, x);
    assert Beyond(c, op.prev, x);
    assert Leads(c, op.prev, x);
    assert Leads(c, op.cur.ptr, x);
  }

  lemma VisitOk(c: Core, hist: seq<set<Name>>, hist': seq<set<Name>>, op: Op, d: Gptr, same: bool)
    requires WellFormed(c) && OpOk(c, hist, op) && Grows(hist, hist', c) && op.pc.Visit?
    ensures OpOk(c, hist', StepOp(c, op, d, same).1)
  {
    SameLater(c);
    OpKeeps(c, c, hist, hist', op);
    if op.cur.ptr != 0 {
      var cur := op.cur.ptr;
      assert NodeOk(c, cur);
      var next := c.heap[cur].next;
      SeenKeeps(hist, Names(c), op);
      NameHeld(c, op.name);
      if !next.mark {
        if c.heap[cur].name == op.name { assert Holds(c, cur, op.name); }
        if next.ptr == 0 && op.name in Names(c) {
          var x :| Holds(c, x, op.name);
          LiveIsIn(c, cur);
          LiveIsIn(c, x);
          assert Leads(c, cur, x);
          assert HeldUpTo(c, cur, op.name);
        }
      }
    }
  }

  /** Moving on past the bucket's dummy. */
  lemma PassDummy(c: Core, op: Op)
    requires WellFormed(c) && op.prev == 0 && Starts(c, op)
    ensures Passed(c, op.(prev := op.cur.ptr)) && !c.heap[op.cur.ptr].next.mark
    ensures IsRegular(op.name) ==> !HeldUpTo(c, op.cur.ptr, op.name)
  {
    var cur := op.cur.ptr;
    assert NodeOk(c, cur);
    LiveIsIn(c, cur);
    forall x | Holds(c, x, op.name)
      ensures Beyond(c, cur, x)
    {
      LiveIsIn(c, x);
      assert Leads(c, x, cur);
    }
  }

  /** Moving on past a node that does not hold the name. */
  lemma PassNode(c: Core, op: Op)
    requires WellFormed(c) && op.prev != 0 && Passed(c, op) && Unmoved(c, op)
    requires op.cur.ptr in c.placed && op.cur.ptr in c.heap && c.heap[op.cur.ptr].name.key <= op.name.key && c.heap[op.cur.ptr].name != op.name
    ensures Passed(c, op.(prev := op.cur.ptr))
    ensures IsRegular(op.name) ==> !HeldUpTo(c, op.cur.ptr, op.name)
  {
    if IsRegular(op.name) {
      forall x | Holds(c, x, op.name)
        ensures Beyond(c, op.cur.ptr, x)
      {
        NotBefore(c, op, x);
      }
    }
  }

  /** Standing before a larger key: the name is not stored. */
  lemma NotStored(c: Core, op: Op)
    requires WellFormed(c) && op.prev != 0 && Passed(c, op) && Unmoved(c, op) && IsRegular(op.name)
    requires op.cur.ptr == 0 || (op.cur.ptr in c.heap && c.heap[op.cur.ptr].name.key > op.name.key)
    ensures op.name !in Names(c)
  {
    NameHeld(c, op.name);
    forall x
      ensures !Holds(c, x, op.name)
    {
      if Holds(c, x, op.name) { NotBefore(c, op, x); }
    }
  }

  lemma CheckOk(c: Core, hist: seq<set<Name>>, hist': seq<set<Name>>, op: Op, d: Gptr, same: bool)
    requires WellFormed(c) && OpOk(c, hist, op) && Grows(hist, hist', c) && op.pc.Check?
    ensures OpOk(c, hist', StepOp(c, op, d, same).1)
  {
    SameLater(c);
    OpKeeps(c, c, hist, hist', op);
    if op.prev == 0 {
      assert NodeOk(c, op.cur.ptr);
      PassDummy(c, op);
    } else {
      CheckNodeOk(c, hist, hist', op, d, same);
    }
  }

  lemma CheckNodeOk(c: Core, hist: seq<set<Name>>, hist': seq<set<Name>>, op: Op, d: Gptr, same: bool)
    requires WellFormed(c) && OpOk(c, hist, op) && OpOk(c, hist', op) && Grows(hist, hist', c) && op.pc.Check? && op.prev != 0
    ensures OpOk(c, hist', StepOp(c, op, d, same).1)
  {
    if Unmoved(c, op) && !op.pc.next.mark {
      if c.heap[op.cur.ptr].name.key > op.name.key {
        CheckPastOk(c, hist, hist', op, d, same);
      } else if c.heap[op.cur.ptr].name != op.name {
        assert NodeOk(c, op.cur.ptr);
        PassNode(c, op);
      }
    }
  }

  lemma CheckPastOk(c: Core, hist: seq<set<Name>>, hist': seq<set<Name>>, op: Op, d: Gptr, same: bool)
    requires WellFormed(c) && OpOk(c, hist, op) && OpOk(c, hist', op) && Grows(hist, hist', c) && op.pc.Check? && op.prev != 0
    requires Unmoved(c, op) && !op.pc.next.mark && c.heap[op.cur.ptr].name.key > op.name.key
    ensures OpOk(c, hist', StepOp(c, op, d, same).1)
  {
    SeenKeeps(hist, Names(c), op);
    if IsRegular(op.name) { NotStored(c, op); }
  }

  /** What one step does to the list: its own name goes in or comes out in one piece, or nothing is stored or removed;
      at most one node is taken off, and it was on the list. */
  ghost predicate Effect(c: Core, c': Core, op: Op, op': Op) {
    && (if op.pc.Linking? && op'.pc.Done? then Names(c') == Names(c) + {op.name} && (IsRegular(op.name) ==> op.name !in Names(c))
        else if op.pc.Marking? && op'.pc.Cutting? then op.name in Names(c) && Names(c') == Names(c) - {op.name}
        else Names(c') == Names(c))
    && (c'.freed == c.freed || exists x :: x !in c.freed && c'.freed == c.freed + [x])
    && c'.root == c.root && c.heap.Keys <= c'.heap.Keys
  }

  ghost predicate Sound(c: Core, hist: seq<set<Name>>, op: Op, c': Core, op': Op) {
    && WellFormed(c') && Later(c, c') && Effect(c, c', op, op') && OpOk(c', hist + [Names(c')], op')
    && op'.kind == op.kind && op'.name == op.name && op'.began == op.began
    && forall p {:trigger Spares(c, c', p)} | op.kind != Inserting(p) :: Spares(c, c', p)
  }

  lemma UnlinkOk(c: Core, hist: seq<set<Name>>, op: Op, d: Gptr, same: bool)
    requires WellFormed(c) && OpOk(c, hist, op) && op.pc.Unlink?
    ensures var (c', op') := StepOp(c, op, d, same); Sound(c, hist, op, c', op')
  {
    var (c', op') := StepOp(c, op, d, same);
    var next := op.pc.next;
    assert NodeOk(c, op.cur.ptr);
    if Unmoved(c, op) {
      CutKeeps(c, op.prev, op.cur, next.ptr);
      CutLater(c, op.prev, op.cur, next.ptr);
      OpKeeps(c, c', hist, hist + [Names(c')], op);
      assert NodeLater(c, c', op.cur.ptr);
      if next.ptr == 0 && IsRegular(op.name) {
        NotStored(c', op.(cur := Link(false, 0, op.cur.tag + 1)));
        SeenKeeps(hist, Names(c'), op);
      }
    } else {
      SameLater(c);
      OpKeeps(c, c, hist, hist + [Names(c)], op);
    }
  }

  lemma LinkingOk(c: Core, hist: seq<set<Name>>, op: Op, d: Gptr, same: bool)
    requires WellFormed(c) && Current(c, hist) && OpOk(c, hist, op) && op.pc.Linking?
    ensures var (c', op') := StepOp(c, op, d, same); Sound(c, hist, op, c', op')
  {
    var (c', op') := StepOp(c, op, d, same);
    assert NodeOk(c, op.prev);
    if Unmoved(c, op) {
      var p := op.kind.node;
      if IsRegular(op.name) { NotStored(c, op); }
      assert MayPut(c, op.prev, p, op.cur);
      PutKeeps(c, op.prev, p, op.cur);
      PutLater(c, op.prev, p, op.cur);
      PutNames(c, op.prev, p, op.cur);
      if IsRegular(op.name) { assert AddedAt(hist + [Names(c')], |hist| - 1, op.name); }
    } else {
      SameLater(c);
      OpKeeps(c, c, hist, hist + [Names(c)], op);
    }
  }

  lemma MarkingOk(c: Core, hist: seq<set<Name>>, op: Op, d: Gptr, same: bool)
    requires WellFormed(c) && Current(c, hist) && OpOk(c, hist, op) && op.pc.Marking?
    ensures var (c', op') := StepOp(c, op, d, same); Sound(c, hist, op, c', op')
  {
    var (c', op') := StepOp(c, op, d, same);
    var cur := op.cur.ptr;
    if c.heap[cur].next == Link(false, op.pc.next.ptr, op.pc.next.tag) {
      assert MayMark(c, cur);
      MarkKeeps(c, cur);
      MarkLater(c, cur);
      MarkNames(c, cur);
      assert RemovedAt(hist + [Names(c')], |hist| - 1, op.name);
      OpKeeps(c, c', hist, hist + [Names(c')], op);
    } else {
      SameLater(c);
      OpKeeps(c, c, hist, hist + [Names(c)], op);
    }
  }

  lemma CuttingOk(c: Core, hist: seq<set<Name>>, op: Op, d: Gptr, same: bool)
    requires WellFormed(c) && OpOk(c, hist, op) && op.pc.Cutting?
    ensures var (c', op') := StepOp(c, op, d, same); Sound(c, hist, op, c', op')
  {
    var (c', op') := StepOp(c, op, d, same);
    if Unmoved(c, op) {
      CutKeeps(c, op.prev, op.cur, op.pc.next.ptr);
      CutLater(c, op.prev, op.cur, op.pc.next.ptr);
      OpKeeps(c, c', hist, hist + [Names(c')], op);
    } else {
      SameLater(c);
      OpKeeps(c, c, hist, hist + [Names(c)], op);
    }
  }

  lemma StepOk(c: Core, hist: seq<set<Name>>, op: Op, d: Gptr, same: bool)
    requires WellFormed(c) && Current(c, hist) && OpOk(c, hist, op) && !op.pc.Done?
    requires op.pc.Start? ==> d in c.placed && d in c.heap && !IsRegular(c.heap[d].name) && c.heap[d].name.key < op.name.key
    ensures var (c', op') := StepOp(c, op, d, same); Sound(c, hist, op, c', op')
  {
    SameLater(c);
    match op.pc
    case Start => OpKeeps(c, c, hist, hist + [Names(c)], op);
    case Visit => VisitOk(c, hist, hist + [Names(c)], op, d, same);
    case Check(_) => CheckOk(c, hist, hist + [Names(c)], op, d, same);
    case Unlink(_) => UnlinkOk(c, hist, op, d, same);
    case Linking => LinkingOk(c, hist, op, d, same);
    case Marking(_) => MarkingOk(c, hist, op, d, same);
    case Cutting(_) => CuttingOk(c, hist, op, d, same);
  }

  /* ---- every reachable state ---- */

  ghost predicate ThreadOk(s: State, t: nat)
    requires t in s.ops
  {
    OpOk(s.core, s.hist, s.ops[t]) && (s.ops[t].kind.Inserting? ==> s.ops[t].kind.node in s.core.heap)
  }

  ghost predicate Apart(s: State, t: nat, u: nat)
    requires t in s.ops && u in s.ops
  {
    t != u && s.ops[t].kind.Inserting? ==> s.ops[t].kind != s.ops[u].kind
  }

  ghost predicate Inv(s: State) {
    && WellFormed(s.core) && Current(s.core, s.hist)
    && (forall t {:trigger ThreadOk(s, t)} | t in s.ops :: ThreadOk(s, t))
    && (forall t, u {:trigger Apart(s, t, u)} | t in s.ops && u in s.ops :: Apart(s, t, u))
  }

  lemma StepInv(s: State, t: nat, d: Gptr, same: bool)
    requires Inv(s) && Enabled(s, Step(t, d, same))
    ensures Inv(Apply(s, Step(t, d, same)))
    ensures var s' := Apply(s, Step(t, d, same)); Later(s.core, s'.core) && Effect(s.core, s'.core, s.ops[t], s'.ops[t])
  {
    var s' := Apply(s, Step(t, d, same));
    var op := s.ops[t];
    assert ThreadOk(s, t);
    StepOk(s.core, s.hist, op, d, same);
    forall u | u in s'.ops
      ensures ThreadOk(s', u)
    {
      if u != t {
        assert ThreadOk(s, u) && Apart(s, u, t);
        OpKeeps(s.core, s'.core, s.hist, s'.hist, s.ops[u]);
      }
    }
    forall u, v | u in s'.ops && v in s'.ops
      ensures Apart(s', u, v)
    {
      assert Apart(s, u, v);
    }
  }

  lemma AllocKeeps(c: Core, f: Gptr, name: Name)
    requires WellFormed(c) && f !in c.heap && f != 0
    ensures var c' := c.(heap := c.heap[f := Node(name, Link(false, 0, 0))]);
      WellFormed(c') && Names(c') == Names(c) && Later(c, c')
  {
    var c' := c.(heap := c.heap[f := Node(name, Link(false, 0, 0))]);
    forall x | x in c.placed ensures NodeOk(c', x) && x != f { assert NodeOk(c, x); }
    forall a | In(c', a) ensures Onward(c', a) { assert Onward(c, a); }
    forall a, b | In(c', a) && In(c', b) ensures Leads(c', a, b) { assert Leads(c, a, b); }
    forall a, b | Live(c', a) && Live(c', b) ensures Alone(c', a, b) { assert Alone(c, a, b); }
    forall x ensures Live(c', x) <==> Live(c, x) {}
  }

  lemma BeginInv(s: State, t: nat, kind: Kind, name: Name)
    requires Inv(s) && Enabled(s, Begin(t, kind, name))
    ensures Inv(Apply(s, Begin(t, kind, name)))
    ensures Later(s.core, Apply(s, Begin(t, kind, name)).core) && Names(Apply(s, Begin(t, kind, name)).core) == Names(s.core)
  {
    var s' := Apply(s, Begin(t, kind, name));
    if kind.Inserting? { AllocKeeps(s.core, kind.node, name); } else { SameLater(s.core); }
    forall u | u in s'.ops
      ensures ThreadOk(s', u)
    {
      if u != t {
        assert ThreadOk(s, u);
        OpKeeps(s.core, s'.core, s.hist, s'.hist, s.ops[u]);
      } else if kind.Inserting? {
        assert kind.node in s.core.placed ==> NodeOk(s.core, kind.node);
      }
    }
    forall u, v | u in s'.ops && v in s'.ops
      ensures Apart(s', u, v)
    {
      if u != t { assert ThreadOk(s, u); }
      if v != t { assert ThreadOk(s, v); }
      if u != t && v != t { assert Apart(s, u, v); }
    }
  }

  lemma InitInv(root: Gptr)
    requires root != 0
    ensures Inv(Init(root))
  {
    var c := InitCore(root);
    assert NodeOk(c, root);
  }

  ghost predicate IsRun(run: seq<State>, acts: seq<Action>) {
    && |run| == |acts| + 1 && run[0].core.root != 0 && run[0] == Init(run[0].core.root)
    && forall i {:trigger acts[i]} | 0 <= i < |acts| :: Enabled(run[i], acts[i]) && run[i + 1] == Apply(run[i], acts[i])
  }

  lemma {:induction false} RunInv(run: seq<State>, acts: seq<Action>, i: nat)
    requires IsRun(run, acts) && i < |run|
    ensures Inv(run[i]) && |run[i].hist| == i + 1 && run[i].core.root == run[0].core.root
    ensures forall j | 0 <= j <= i :: run[i].hist[j] == Names(run[j].core)
  {
    if i == 0 {
      InitInv(run[0].core.root);
    } else {
      RunInv(run, acts, i - 1);
      var s, a := run[i - 1], acts[i - 1];
      assert run[i] == Apply(s, a) && run[i].hist == s.hist + [Names(run[i].core)];
      match a
      case Begin(t, kind, name) => BeginInv(s, t, kind, name);
      case Step(t, d, same) => StepInv(s, t, d, same);
    }
  }

  /* ---- the list in every interleaving ---- */

  /** The list from bucket 0 is sorted by split-order key. */
  lemma ListStaysSorted(run: seq<State>, acts: seq<Action>, i: nat, path: seq<Gptr>, a: nat, b: nat)
    requires IsRun(run, acts) && i < |run|
    requires IsWalk(run[i].core, path) && path[0] == run[0].core.root && a <= b < |path|
    ensures var c := run[i].core; In(c, path[a]) && In(c, path[b]) && c.heap[path[a]].name.key <= c.heap[path[b]].name.key
  {
    RunInv(run, acts, i);
    WalkIsSorted(run[i].core, path, a, b);
  }

  lemma {:induction false} RunLater(run: seq<State>, acts: seq<Action>, i: nat, j: nat, p: Gptr)
    requires IsRun(run, acts) && i <= j < |run| && p in run[i].core.placed
    ensures p in run[i].core.heap && p in run[j].core.placed && p in run[j].core.heap
    ensures run[j].core.heap[p].name == run[i].core.heap[p].name
    ensures run[i].core.heap[p].next.mark ==> run[j].core.heap[p].next == run[i].core.heap[p].next
    decreases j
  {
    RunInv(run, acts, i);
    assert NodeOk(run[i].core, p);
    if i < j {
      RunLater(run, acts, i, j - 1, p);
      RunInv(run, acts, j - 1);
      var s, a := run[j - 1], acts[j - 1];
      match a {
        case Begin(t, kind, name) => BeginInv(s, t, kind, name);
        case Step(t, d, same) => StepInv(s, t, d, same);
      }
      assert NodeOk(s.core, p) && NodeLater(s.core, run[j].core, p);
    }
  }

  /** A marked node's next cell never changes again. */
  lemma MarkedIsFinal(run: seq<State>, acts: seq<Action>, i: nat, j: nat, p: Gptr)
    requires IsRun(run, acts) && i <= j < |run|
    requires p in run[i].core.placed && p in run[i].core.heap && run[i].core.heap[p].next.mark
    ensures p in run[j].core.heap && run[j].core.heap[p].next == run[i].core.heap[p].next
  {
    RunLater(run, acts, i, j, p);
  }

  /** A node that was put in and is not marked is reached from bucket 0. */
  lemma UnmarkedIsReachable(run: seq<State>, acts: seq<Action>, i: nat, j: nat, p: Gptr) returns (path: seq<Gptr>)
    requires IsRun(run, acts) && i <= j < |run| && p in run[i].core.placed
    requires p in run[j].core.heap && !run[j].core.heap[p].next.mark
    ensures IsWalk(run[j].core, path) && path[0] == run[0].core.root && path[|path| - 1] == p
  {
    RunLater(run, acts, i, j, p);
    RunInv(run, acts, j);
    var c := run[j].core;
    LiveIsIn(c, p);
    assert p != c.root ==> c.pos[c.root] < c.pos[p];
    path := Walk(c, c.root, p);
  }

  /** Each node is taken off the list at most once, and only after it was marked. */
  lemma TakenOffOnce(run: seq<State>, acts: seq<Action>, i: nat)
    requires IsRun(run, acts) && i < |run|
    ensures NoDup(run[i].core.freed)
    ensures forall p | p in run[i].core.freed :: p in run[i].core.placed && p in run[i].core.heap && run[i].core.heap[p].next.mark
  {
    RunInv(run, acts, i);
    forall p | p in run[i].core.freed
      ensures p in run[i].core.heap && run[i].core.heap[p].next.mark
    {
      assert NodeOk(run[i].core, p);
    }
  }

  /* ---- the calls in every interleaving ---- */

  /** A step stores its own name, removes its own name, or changes nothing that is stored. */
  lemma StepsAreAtomic(run: seq<State>, acts: seq<Action>, i: nat)
    requires IsRun(run, acts) && i < |acts|
    ensures match acts[i]
      case Begin(_, _, _) => Names(run[i + 1].core) == Names(run[i].core)
      case Step(t, _, _) =>
        t in run[i].ops && t in run[i + 1].ops && Effect(run[i].core, run[i + 1].core, run[i].ops[t], run[i + 1].ops[t])
  {
    RunInv(run, acts, i);
    match acts[i]
    case Begin(t, kind, name) => BeginInv(run[i], t, kind, name);
    case Step(t, d, same) => StepInv(run[i], t, d, same);
  }
}
