/** Whole calls on the concurrent radix tree, as their callers see them (src/radix_tree.cc:221-534, 1097-1261): what a call
    was begun with, the one write it makes, and that it comes to its end when it is left alone. */
module RadixCalls {
  import opened Common
  import opened RadixHeap
  import opened RadixSteps

  /* ---- the one write of a call ---- */

  /** What a write of `ptr` makes of the cell of `k`: the next tag, or tag 0 in a new node. */
  ghost function NextCell(h: Heap, k: Key, ptr: Gptr): TagGptr {
    if NodeOf(h, k) == 0 then TagGptr(ptr, 0) else TagGptr(ptr, Cell(h, k).tag + 1)
  }

  /** From `h` to `h'` the cell of `k`, alone, went from `was` to `ptr` under the next tag. */
  ghost predicate Writes(h: Heap, h': Heap, k: Key, was: TagGptr, ptr: Gptr) {
    && Cell(h, k) == was
    && forall k' :: Cell(h', k') == if k' == k then NextCell(h, k, ptr) else Cell(h, k')
  }

  /** The only step of thread `t` between `b` and `i` that changes the tree, if there is one, is `m`. */
  ghost predicate OnlyAt(run: seq<State>, acts: seq<Action>, b: nat, i: nat, t: nat, m: nat)
    requires |run| == |acts| + 1 && i < |run|
  {
    forall j | b < j < i && StepsOf(acts[j], t) && j != m :: run[j + 1].heap == run[j].heap
  }

  /** No node carried the key at some moment after `b`. */
  ghost predicate MissedIn(run: seq<State>, b: nat, i: nat, k: Key)
    requires i < |run|
  {
    exists j :: b < j <= i && NodeOf(run[j].heap, k) == 0
  }

  /** What the steps of a call have done to the tree by moment `i`; `m == 0` stands for no write. */
  ghost predicate Done(run: seq<State>, acts: seq<Action>, b: nat, i: nat, t: nat, kind: Kind, k: Key, m: nat)
    requires |run| == |acts| + 1 && b < i < |run| && t in run[i].ops
  {
    && OnlyAt(run, acts, b, i, t, m)
    && (m != 0 ==>
          && Returned(run[i], t) && !kind.Reading? && b < m < i && StepsOf(acts[m], t)
          && (kind.Clearing? ==> NodeOf(run[m].heap, k) != 0)
          && Writes(run[m].heap, run[m + 1].heap, k, run[i].ops[t].pc.result, Target(kind)))
    && (m == 0 && Returned(run[i], t) ==>
          && !kind.Writing?
          && (kind.Clearing? ==> run[i].ops[t].pc.result == Nil && MissedIn(run, b, i, k)))
  }

  /** A destroy that returns without a write has found no node. */
  lemma ClearingMisses(h: Heap, root: Gptr, rebuild: bool, op: Op, f1: Gptr, f2: Gptr)
    requires WellFormed(h, root) && Shape(h, op) && op.kind.Clearing? && !op.pc.Ret? && !op.pc.Done?
    requires StepOp(h, rebuild, op, f1, f2).0 == h && StepOp(h, rebuild, op, f1, f2).1.pc.Ret?
    ensures Strayed(h, op) || NodeOf(h, op.key) == 0
  {
    if !op.pc.Cas? && h[op.q].key < op.key {
      SlotDecides(h, root, op.q, op.key);
    }
  }

  lemma QuietStep(run: seq<State>, acts: seq<Action>, b: nat, i: nat, t: nat)
    requires Sound(run, acts) && Calls(run, acts, b, i, t) && i < |acts| && StepsOf(acts[i], t)
    requires t in run[i].ops && !Returned(run[i], t) && Returned(run[i + 1], t) && run[i + 1].heap == run[i].heap
    requires Enabled(run[b], acts[b]) && acts[b].kind.Clearing?
    ensures MissedIn(run, b, i + 1, KeyOf(run[b], acts[b]))
  {
    CallIs(run, acts, b, i, t);
    SoundInv(run, acts, i);
    RunFacts(run, acts, i);
    var s, op := run[i], run[i].ops[t];
    assert OpOk(s, t) && run[i + 1] == Apply(s, acts[i]);
    ClearingMisses(s.heap, s.root, s.rebuild, op, acts[i].f1, acts[i].f2);
    if Strayed(s.heap, op) {
      var j :| op.began <= j <= |s.past| && NodeOf(At(s, j), op.key) == 0;
      assert NodeOf(run[j].heap, op.key) == 0;
    }
  }

  /** A step of a call: it leaves the tree alone, or it is the call's write and the call returns what it replaced. */
  ghost predicate Stepped(s: State, s': State, t: nat, kind: Kind, k: Key)
    requires t in s.ops && t in s'.ops
  {
    || (s'.heap == s.heap && Quiet(s.ops[t], s'.ops[t]))
    || (!kind.Reading? && !Returned(s, t) && Returned(s', t) && (kind.Clearing? ==> NodeOf(s.heap, k) != 0)
        && Writes(s.heap, s'.heap, k, s'.ops[t].pc.result, Target(kind)))
  }

  lemma StepIs(run: seq<State>, acts: seq<Action>, b: nat, i: nat, t: nat, kind: Kind, k: Key)
    requires Sound(run, acts) && i < |acts| && StepsOf(acts[i], t)
    requires IsCall(run[i], t, kind, k, b + 1) && t in run[i + 1].ops
    ensures Stepped(run[i], run[i + 1], t, kind, k)
  {
    ActionsAreAtomic(run, acts, i);
  }

  lemma OthersLeave(s: State, a: Action, t: nat)
    requires Enabled(s, a) && t in s.ops && !Begins(a, t) && !StepsOf(a, t)
    ensures t in Apply(s, a).ops && Apply(s, a).ops[t] == s.ops[t]
  {}

  lemma OwnStep(run: seq<State>, acts: seq<Action>, b: nat, i: nat, t: nat, kind: Kind, k: Key, m: nat) returns (m': nat)
    requires |run| == |acts| + 1 && b < i < |acts| && StepsOf(acts[i], t)
    requires t in run[i].ops && t in run[i + 1].ops && run[i].ops[t].kind == kind
    requires Done(run, acts, b, i, t, kind, k, m) && Stepped(run[i], run[i + 1], t, kind, k)
    requires !Returned(run[i], t) && Returned(run[i + 1], t) && run[i + 1].heap == run[i].heap && kind.Clearing? ==>
      MissedIn(run, b, i + 1, k)
    ensures Done(run, acts, b, i + 1, t, kind, k, m')
  {
    m' := if run[i + 1].heap == run[i].heap && Quiet(run[i].ops[t], run[i + 1].ops[t]) then m else i;
    if MissedIn(run, b, i, k) {
      var j :| b < j <= i && NodeOf(run[j].heap, k) == 0;
      assert MissedIn(run, b, i + 1, k);
    }
  }

  lemma OtherStep(run: seq<State>, acts: seq<Action>, b: nat, i: nat, t: nat, kind: Kind, k: Key, m: nat)
    requires |run| == |acts| + 1 && b < i < |acts| && !StepsOf(acts[i], t)
    requires t in run[i].ops && t in run[i + 1].ops && run[i + 1].ops[t] == run[i].ops[t]
    requires Done(run, acts, b, i, t, kind, k, m)
    ensures Done(run, acts, b, i + 1, t, kind, k, m)
  {
    if MissedIn(run, b, i, k) {
      var j :| b < j <= i && NodeOf(run[j].heap, k) == 0;
      assert MissedIn(run, b, i + 1, k);
    }
  }

  lemma {:induction false} Progress(run: seq<State>, acts: seq<Action>, b: nat, i: nat, t: nat, kind: Kind, k: Key)
      returns (m: nat)
    requires Sound(run, acts) && Calls(run, acts, b, i, t)
    requires Enabled(run[b], acts[b]) && kind == acts[b].kind && k == KeyOf(run[b], acts[b])
    ensures t in run[i].ops && Done(run, acts, b, i, t, kind, k, m)
    decreases i
  {
    if i == b + 1 {
      m := JustBegun(run, acts, b, t, kind, k);
    } else {
      m := Progress(run, acts, b, i - 1, t, kind, k);
      m := OneMore(run, acts, b, i - 1, t, kind, k, m);
    }
  }

  lemma BeginIs(s: State, a: Action)
    requires Enabled(s, a) && !a.Step?
    ensures a.t in Apply(s, a).ops && !Returned(Apply(s, a), a.t)
  {}

  lemma JustBegun(run: seq<State>, acts: seq<Action>, b: nat, t: nat, kind: Kind, k: Key) returns (m: nat)
    requires IsRun(run, acts) && b < |acts| && Begins(acts[b], t)
    ensures t in run[b + 1].ops && Done(run, acts, b, b + 1, t, kind, k, m)
  {
    BeginIs(run[b], acts[b]);
    m := 0;
  }

  lemma OneMore(run: seq<State>, acts: seq<Action>, b: nat, i: nat, t: nat, kind: Kind, k: Key, m: nat) returns (m': nat)
    requires Sound(run, acts) && i < |acts| && Calls(run, acts, b, i, t) && !Begins(acts[i], t)
    requires Enabled(run[b], acts[b]) && kind == acts[b].kind && k == KeyOf(run[b], acts[b])
    requires t in run[i].ops && Done(run, acts, b, i, t, kind, k, m)
    ensures t in run[i + 1].ops && Done(run, acts, b, i + 1, t, kind, k, m')
  {
    CallIs(run, acts, b, i, t);
    CallGoesOn(run[i], acts[i], t, kind, k, b + 1);
    if StepsOf(acts[i], t) {
      StepIs(run, acts, b, i, t, kind, k);
      if !Returned(run[i], t) && Returned(run[i + 1], t) && run[i + 1].heap == run[i].heap && kind.Clearing? {
        QuietStep(run, acts, b, i, t);
      }
      m' := OwnStep(run, acts, b, i, t, kind, k, m);
    } else {
      OthersLeave(run[i], acts[i], t);
      OtherStep(run, acts, b, i, t, kind, k, m);
      m' := m;
    }
  }

  /** Main result: a put or destroy that has returned made exactly one change to the tree, at one of its own steps: the
      cell of its key, alone, went from what the call returned to its own value under the next tag, or to tag 0 in a new
      node. The one other case is a destroy that returned null because no node carried its key at a moment of the call. A
      get makes no change. */
  lemma WritesAreAtomic(run: seq<State>, acts: seq<Action>, b: nat, i: nat, t: nat) returns (wrote: bool, m: nat)
    requires Sound(run, acts) && Calls(run, acts, b, i, t) && Returned(run[i], t)
    ensures Enabled(run[b], acts[b])
    ensures var kind, k, v := acts[b].kind, KeyOf(run[b], acts[b]), run[i].ops[t].pc.result;
      && (wrote ==> b < m < i && StepsOf(acts[m], t) && Writes(run[m].heap, run[m + 1].heap, k, v, Target(kind)))
      && (forall j | b < j < i && StepsOf(acts[j], t) && !(wrote && j == m) :: run[j + 1].heap == run[j].heap)
      && (kind.Writing? ==> wrote) && (kind.Reading? ==> !wrote)
      && (kind.Clearing? && wrote ==> NodeOf(run[m].heap, k) != 0)
      && (kind.Clearing? && !wrote ==> v == Nil && MissedIn(run, b, i, k))
  {
    CallIs(run, acts, b, i, t);
    m := Progress(run, acts, b, i, t, acts[b].kind, KeyOf(run[b], acts[b]));
    wrote := m != 0;
  }

  /* ---- a call that is left alone ends ---- */

  ghost function LongerNodes(h: Heap, n: nat): set<Gptr> {
    set x | x in h && |h[x].key| > n
  }

  /** How many nodes have a key of more than `n` bytes. */
  ghost function Longer(h: Heap, n: nat): nat { |LongerNodes(h, n)| }

  lemma LongerLess(h: Heap, n: nat, c: Gptr)
    requires c in h && |h[c].key| > n
    ensures Longer(h, |h[c].key|) < Longer(h, n)
  {
    var all, fewer := LongerNodes(h, n), LongerNodes(h, |h[c].key|);
    assert c in all && fewer <= all - {c};
    SubsetSize(fewer, all - {c});
  }

  datatype Rank = Rank(way: nat, phase: nat, off: nat)

  predicate Below(a: Rank, b: Rank) {
    a.way < b.way || (a.way == b.way && (a.phase < b.phase || (a.phase == b.phase && a.off < b.off)))
  }

  /** The slot that the call came by still holds the node it is at. */
  ghost predicate Unmoved(h: Heap, op: Op) {
    op.p in h && |h[op.p].key| < |op.key| && Slot(h, op.p, op.key) == op.q
  }

  ghost function LengthAt(h: Heap, p: Gptr): nat { if p in h then |h[p].key| else 0 }

  /** How far a call still is from its end: nodes on the way, then what is to be done there. */
  ghost function RankOf(h: Heap, op: Op): Rank {
    match op.pc
    case Look =>
      if !Strayed(h, op) then Rank(Longer(h, LengthAt(h, op.q)), 6, 0)
      else Rank(Longer(h, LengthAt(h, op.p)), if op.kind.Writing? && !Unmoved(h, op) then 5 else 2, Longer(h, LengthAt(h, op.q)))
    case Hang => Rank(Longer(h, LengthAt(h, op.p)), 3, 0)
    case Split(_) => Rank(Longer(h, LengthAt(h, op.p)), if Unmoved(h, op) then 1 else 4, 0)
    case Cas(seen) => Rank(Longer(h, LengthAt(h, op.q)), if op.q in h && h[op.q].value == seen then 1 else 2, 0)
    case Ret(_) => Rank(0, 0, 1)
    case Done(_) => Rank(0, 0, 0)
  }

  /** Following the slot of `op.p` brings a call nearer to its end. */
  lemma GotoDescends(h: Heap, root: Gptr, op: Op)
    requires WellFormed(h, root) && op.p in h && h[op.p].key < op.key
    ensures Below(RankOf(h, Goto(op, Slot(h, op.p, op.key))), Rank(Longer(h, |h[op.p].key|), 4, 0))
  {
    SlotDecides(h, root, op.p, op.key);
    var c := Slot(h, op.p, op.key);
    if c != 0 { LongerLess(h, |h[op.p].key|, c); }
  }

  lemma LookDescends(h: Heap, root: Gptr, op: Op)
    requires WellFormed(h, root) && Shape(h, op) && op.pc.Look?
    ensures Below(RankOf(h, LookStep(h, op)), RankOf(h, op))
  {
    var n := h[op.q];
    var i := Agree(op.key, n.key);
    if i == |n.key| {
      if i < |op.key| { GotoDescends(h, root, op.(p := op.q)); }
    } else if !op.kind.Writing? && op.kind.past.Some? && op.kind.past.value in n.child {
      assert ChildFits(h, op.q, op.kind.past.value);
      LongerLess(h, |n.key|, n.child[op.kind.past.value]);
    }
  }

  lemma SplitDescends(h: Heap, root: Gptr, rebuild: bool, op: Op, f1: Gptr, f2: Gptr)
    requires WellFormed(h, root) && Shape(h, op) && op.pc.Split?
    ensures var (h', op') := SplitStep(h, rebuild, op, f1, f2); Below(RankOf(h', op'), RankOf(h, op))
  {
    if !Unmoved(h, op) { GotoDescends(h, root, Fill(h, rebuild, op, f1, f2)); }
  }

  lemma HangDescends(h: Heap, root: Gptr, op: Op, f1: Gptr)
    requires WellFormed(h, root) && Shape(h, op) && op.pc.Hang?
    ensures var (h', op') := HangStep(h, op, f1); Below(RankOf(h', op'), RankOf(h, op))
  {
    SlotDecides(h, root, op.p, op.key);
    var c := Slot(h, op.p, op.key);
    if c != 0 { LongerLess(h, |h[op.p].key|, c); }
  }

  lemma StepDescends(h: Heap, root: Gptr, rebuild: bool, op: Op, f1: Gptr, f2: Gptr)
    requires WellFormed(h, root) && Shape(h, op) && !op.pc.Done?
    ensures var (h', op') := StepOp(h, rebuild, op, f1, f2); Below(RankOf(h', op'), RankOf(h, op))
  {
    match op.pc
    case Look => LookDescends(h, root, op);
    case Hang => HangDescends(h, root, op, f1);
    case Split(_) => SplitDescends(h, root, rebuild, op, f1, f2);
    case _ =>
  }

  /** The allocator never runs out. */
  lemma FreshPair(s: State) returns (f1: Gptr, f2: Gptr)
    ensures Fresh(s, f1) && Fresh(s, f2) && f1 != f2
  {
    var used := s.heap.Keys + {0} + (set t, x | t in s.ops && x in Private(s.ops[t]) :: x);
    var n := AboveAll(used);
    f1, f2 := n, n + 1;
    forall t | t in s.ops ensures f1 !in Private(s.ops[t]) && f2 !in Private(s.ops[t]) {
      assert forall x | x in Private(s.ops[t]) :: x in used;
    }
  }

  /** Thread `t` alone takes steps, from `run[0]` on. */
  ghost predicate Alone(run: seq<State>, acts: seq<Action>, t: nat) {
    IsRun(run, acts) && forall i | 0 <= i < |acts| :: StepsOf(acts[i], t)
  }

  lemma StepFirst(s: State, a: Action, rest: seq<State>, more: seq<Action>, t: nat)
    requires Enabled(s, a) && StepsOf(a, t) && Alone(rest, more, t) && rest[0] == Apply(s, a)
    ensures Alone([s] + rest, [a] + more, t)
  {
    var run, acts := [s] + rest, [a] + more;
    forall i | 0 <= i < |acts|
      ensures Enabled(run[i], acts[i]) && run[i + 1] == Apply(run[i], acts[i]) && StepsOf(acts[i], t)
    {
      if i > 0 { assert run[i] == rest[i - 1] && acts[i] == more[i - 1] && run[i + 1] == rest[i]; }
    }
  }

  lemma EndsFromRet(s: State, t: nat) returns (run: seq<State>, acts: seq<Action>)
    requires t in s.ops && s.ops[t].pc.Ret?
    ensures Alone(run, acts, t) && run[0] == s && t in run[|acts|].ops && run[|acts|].ops[t].pc.Done?
  {
    var f1, f2 := FreshPair(s);
    var a := Step(t, f1, f2);
    run, acts := [s, Apply(s, a)], [a];
  }

  /** Main result: from every state of a sound run, and of a run of the code as it is up to its first leftover, a call that is
      left alone comes to its end. */
  lemma {:induction false} FinishesAlone(s: State, t: nat) returns (run: seq<State>, acts: seq<Action>)
    requires Inv(s) && t in s.ops
    ensures Alone(run, acts, t) && run[0] == s && t in run[|acts|].ops && run[|acts|].ops[t].pc.Done?
    decreases RankOf(s.heap, s.ops[t]).way, RankOf(s.heap, s.ops[t]).phase, RankOf(s.heap, s.ops[t]).off
  {
    assert OpOk(s, t);
    if s.ops[t].pc.Done? {
      return [s], [];
    }
    var f1, f2 := FreshPair(s);
    var a := Step(t, f1, f2);
    var s' := Apply(s, a);
    StepDescends(s.heap, s.root, s.rebuild, s.ops[t], f1, f2);
    if Leftover(s, a) {
      run, acts := EndsFromRet(s', t);
    } else {
      ApplyInv(s, a);
      run, acts := FinishesAlone(s', t);
    }
    StepFirst(s, a, run, acts, t);
    run, acts := [s] + run, [a] + acts;
  }
}
