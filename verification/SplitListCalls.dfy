/** Whole calls on the concurrent split-ordered list, as their callers see them (src/split_ordered.cc:177-317): what a call was
    begun with, the one change it makes, and what it answers. */
module SplitListCalls {
  import opened Common
  import opened SplitListCore
  import opened SplitListSteps

  predicate Begins(a: Action, t: nat) { a.Begin? && a.t == t }

  predicate StepsOf(a: Action, t: nat) { a.Step? && a.t == t }

  /** Thread `t` began its call with action `b` and has begun no other before moment `i`. */
  ghost predicate Calls(run: seq<State>, acts: seq<Action>, b: nat, i: nat, t: nat) {
    && IsRun(run, acts) && b < i < |run| && Begins(acts[b], t)
    && forall j | b < j < i :: !Begins(acts[j], t)
  }

  ghost predicate IsCall(s: State, t: nat, kind: Kind, name: Name, began: nat) {
    t in s.ops && s.ops[t].kind == kind && s.ops[t].name == name && s.ops[t].began == began
  }

  lemma StepKeepsCall(c: Core, op: Op, d: Gptr, same: bool)
    ensures var op' := StepOp(c, op, d, same).1; op'.kind == op.kind && op'.name == op.name && op'.began == op.began
  {}

  lemma CallGoesOn(s: State, a: Action, t: nat, kind: Kind, name: Name, began: nat)
    requires Enabled(s, a) && IsCall(s, t, kind, name, began) && !Begins(a, t)
    ensures IsCall(Apply(s, a), t, kind, name, began)
    ensures !StepsOf(a, t) ==> Apply(s, a).ops[t] == s.ops[t]
  {
    if StepsOf(a, t) { StepKeepsCall(s.core, s.ops[t], a.dummy, a.same); }
  }

  /** A call is of the kind, for the name and from the moment that its begin says. */
  lemma {:induction false} CallIs(run: seq<State>, acts: seq<Action>, b: nat, i: nat, t: nat)
    requires Calls(run, acts, b, i, t)
    ensures IsCall(run[i], t, acts[b].kind, acts[b].name, b + 1)
    decreases i
  {
    if i == b + 1 {
      RunInv(run, acts, b);
      assert run[i] == Apply(run[b], acts[b]);
    } else {
      CallIs(run, acts, b, i - 1, t);
      assert run[i] == Apply(run[i - 1], acts[i - 1]);
      CallGoesOn(run[i - 1], acts[i - 1], t, acts[b].kind, acts[b].name, b + 1);
    }
  }

  /* ---- the one change of a call ---- */

  /** The call has made its change. */
  predicate HasChanged(op: Op) {
    match op.kind
    case Finding => false
    case Inserting(_) => op.pc == Done(true)
    case Deleting => op.pc.Cutting? || op.helping || op.pc == Done(true)
  }

  ghost predicate Adds(s: State, s': State, name: Name) {
    name !in Names(s.core) && Names(s'.core) == Names(s.core) + {name}
  }

  ghost predicate Removes(s: State, s': State, name: Name) {
    name in Names(s.core) && Names(s'.core) == Names(s.core) - {name}
  }

  ghost predicate Changes(s: State, s': State, kind: Kind, name: Name) {
    if kind.Inserting? then Adds(s, s', name) else kind.Deleting? && Removes(s, s', name)
  }

  /** The only step of `t` between `b` and `i` that changes what is stored, if there is one, is `m`. */
  ghost predicate OnlyAt(run: seq<State>, acts: seq<Action>, b: nat, i: nat, t: nat, m: nat)
    requires |run| == |acts| + 1 && i < |run|
  {
    forall j | b < j < i && StepsOf(acts[j], t) && j != m :: Names(run[j + 1].core) == Names(run[j].core)
  }

  /** What the steps of a call have done by moment `i`; `m == 0` stands for nothing. */
  ghost predicate Progressed(run: seq<State>, acts: seq<Action>, b: nat, i: nat, t: nat, kind: Kind, name: Name, m: nat)
    requires |run| == |acts| + 1 && b < i < |run| && t in run[i].ops
  {
    && OnlyAt(run, acts, b, i, t, m) && (m != 0 <==> HasChanged(run[i].ops[t]))
    && (m != 0 ==> b < m < i && StepsOf(acts[m], t) && Changes(run[m], run[m + 1], kind, name))
  }

  /** How a step moves a call towards its change. */
  lemma StepTurns(c: Core, op: Op, d: Gptr, same: bool)
    requires op.pc.Linking? ==> op.kind.Inserting?
    requires op.pc.Marking? || op.pc.Cutting? ==> op.kind.Deleting? && (op.pc.Marking? ==> !op.helping)
    requires op.helping ==> op.kind.Deleting?
    ensures var op' := StepOp(c, op, d, same).1;
      && (HasChanged(op') <==> HasChanged(op) || (op.pc.Linking? && op'.pc.Done?) || (op.pc.Marking? && op'.pc.Cutting?))
      && (HasChanged(op) ==> !op.pc.Linking? && !op.pc.Marking?)
  {}

  ghost predicate Turned(s: State, s': State, t: nat, kind: Kind, name: Name)
    requires t in s.ops && t in s'.ops
  {
    if HasChanged(s'.ops[t]) && !HasChanged(s.ops[t]) then Changes(s, s', kind, name)
    else Names(s'.core) == Names(s.core) && (HasChanged(s'.ops[t]) <==> HasChanged(s.ops[t]))
  }

  lemma StepIs(s: State, t: nat, d: Gptr, same: bool, kind: Kind, name: Name, began: nat)
    requires Inv(s) && Enabled(s, Step(t, d, same)) && IsCall(s, t, kind, name, began) && IsRegular(name)
    ensures t in Apply(s, Step(t, d, same)).ops && Turned(s, Apply(s, Step(t, d, same)), t, kind, name)
  {
    assert ThreadOk(s, t);
    StepInv(s, t, d, same);
    StepTurns(s.core, s.ops[t], d, same);
  }

  lemma OwnStep(run: seq<State>, acts: seq<Action>, b: nat, i: nat, t: nat, kind: Kind, name: Name, m: nat) returns (m': nat)
    requires |run| == |acts| + 1 && b < i < |acts| && StepsOf(acts[i], t) && t in run[i].ops && t in run[i + 1].ops
    requires Progressed(run, acts, b, i, t, kind, name, m) && Turned(run[i], run[i + 1], t, kind, name)
    ensures Progressed(run, acts, b, i + 1, t, kind, name, m')
  {
    m' := if HasChanged(run[i + 1].ops[t]) && !HasChanged(run[i].ops[t]) then i else m;
  }

  lemma {:induction false} Progress(run: seq<State>, acts: seq<Action>, b: nat, i: nat, t: nat, kind: Kind, name: Name)
      returns (m: nat)
    requires Calls(run, acts, b, i, t) && acts[b] == Begin(t, kind, name) && IsRegular(name)
    ensures t in run[i].ops && Progressed(run, acts, b, i, t, kind, name, m)
    decreases i
  {
    if i == b + 1 {
      JustBegun(run[b], acts[b]);
      m := 0;
    } else {
      m := Progress(run, acts, b, i - 1, t, kind, name);
      m := OneMore(run, acts, b, i - 1, t, kind, name, m);
    }
  }

  lemma JustBegun(s: State, a: Action)
    requires Enabled(s, a) && a.Begin?
    ensures a.t in Apply(s, a).ops && !HasChanged(Apply(s, a).ops[a.t])
  {}

  lemma OneMore(run: seq<State>, acts: seq<Action>, b: nat, i: nat, t: nat, kind: Kind, name: Name, m: nat) returns (m': nat)
    requires Calls(run, acts, b, i, t) && acts[b] == Begin(t, kind, name) && IsRegular(name) && i < |acts| && !Begins(acts[i], t)
    requires t in run[i].ops && Progressed(run, acts, b, i, t, kind, name, m)
    ensures t in run[i + 1].ops && Progressed(run, acts, b, i + 1, t, kind, name, m')
  {
    CallIs(run, acts, b, i, t);
    var s, a := run[i], acts[i];
    assert Enabled(s, a) && run[i + 1] == Apply(s, a);
    if StepsOf(a, t) {
      RunInv(run, acts, i);
      StepIs(s, t, a.dummy, a.same, kind, name, b + 1);
      m' := OwnStep(run, acts, b, i, t, kind, name, m);
    } else {
      CallGoesOn(s, a, t, kind, name, b + 1);
      m' := m;
    }
  }

  /** What a call answers agrees with what is stored at moment `j`: a name found is stored then and one not found is not; a
      successful insertion or deletion is the change from that moment to the next. */
  ghost predicate RightAt(run: seq<State>, kind: Kind, name: Name, r: bool, j: nat)
    requires j < |run|
  {
    match kind
    case Finding => r == (name in Names(run[j].core))
    case Inserting(_) => if r then j + 1 < |run| && Adds(run[j], run[j + 1], name) else name in Names(run[j].core)
    case Deleting => if r then j + 1 < |run| && Removes(run[j], run[j + 1], name) else name !in Names(run[j].core)
  }

  /** Main result: the answer of every search, insertion and deletion of a stored key was right at a moment of the call. A
      successful insertion or deletion is the change made by one step of this very call, and no other step of
      the call changes what is stored. */
  lemma AnswersAreRight(run: seq<State>, acts: seq<Action>, b: nat, i: nat, t: nat, kind: Kind, name: Name) returns (j: nat)
    requires Calls(run, acts, b, i, t) && acts[b] == Begin(t, kind, name) && IsRegular(name)
    requires t in run[i].ops && run[i].ops[t].pc.Done?
    ensures b < j <= i && RightAt(run, kind, name, run[i].ops[t].pc.result, j)
    ensures var r := run[i].ops[t].pc.result;
      && (r && !kind.Finding? ==> j < i && StepsOf(acts[j], t) && OnlyAt(run, acts, b, i, t, j))
      && (!r || kind.Finding? ==> OnlyAt(run, acts, b, i, t, 0))
  {
    var m := Progress(run, acts, b, i, t, kind, name);
    CallIs(run, acts, b, i, t);
    DoneIs(run, acts, i, t);
    if !kind.Finding? && run[i].ops[t].pc.result {
      j := m;
    } else {
      j := Witness(run, acts, b, i, t, kind, name);
    }
  }

  lemma DoneIs(run: seq<State>, acts: seq<Action>, i: nat, t: nat)
    requires IsRun(run, acts) && i < |run| && t in run[i].ops && run[i].ops[t].pc.Done?
    ensures run[i].ops[t].helping ==> run[i].ops[t].pc.result
  {
    RunInv(run, acts, i);
    assert ThreadOk(run[i], t);
  }

  lemma Witness(run: seq<State>, acts: seq<Action>, b: nat, i: nat, t: nat, kind: Kind, name: Name) returns (j: nat)
    requires IsRun(run, acts) && i < |run| && IsCall(run[i], t, kind, name, b + 1) && run[i].ops[t].pc.Done?
    requires kind.Finding? || !run[i].ops[t].pc.result
    ensures b < j <= i && RightAt(run, kind, name, run[i].ops[t].pc.result, j)
  {
    RunInv(run, acts, i);
    assert ThreadOk(run[i], t);
    j := Seen(run[i].hist, run[i].ops[t], run[i].ops[t].pc.result);
  }

  lemma Seen(hist: seq<set<Name>>, op: Op, r: bool) returns (j: nat)
    requires Answered(hist, op, r) && (op.kind.Finding? || !r)
    ensures op.began <= j < |hist| && ((op.name in hist[j]) == if op.kind.Finding? then r else op.kind.Inserting?)
  {
    if (op.kind.Finding? && r) || op.kind.Inserting? {
      j :| op.began <= j < |hist| && op.name in hist[j];
    } else {
      j :| op.began <= j < |hist| && op.name !in hist[j];
    }
  }

  /* ---- a call that is left alone ends ---- */

  /** The nodes that are marked and not yet taken off. */
  ghost function Marked(c: Core): set<Gptr> {
    set x | x in c.placed && In(c, x) && c.heap[x].next.mark
  }

  /** The nodes placed behind `p`. */
  ghost function Behind(c: Core, p: Gptr): set<Gptr>
    requires p in c.pos
  {
    set x | x in c.placed && x in c.pos && c.pos[p] < c.pos[x]
  }

  /** How much of the list lies ahead of the node the call is at. */
  ghost function Ahead(c: Core, op: Op): nat {
    if op.cur.ptr != 0 && op.cur.ptr in c.pos then |Behind(c, op.cur.ptr)| + 1 else 0
  }

  /** What the call has read is still so. */
  ghost predicate Fresh(c: Core, op: Op) {
    match op.pc
    case Visit => Reached(c, op)
    case Check(next) => Reached(c, op) && op.cur.ptr in c.heap && c.heap[op.cur.ptr].next == next
    case Marking(next) => op.cur.ptr in c.heap && c.heap[op.cur.ptr].next == Link(false, next.ptr, next.tag)
    case _ => Unmoved(c, op)
  }

  ghost predicate Reached(c: Core, op: Op) { op.prev == 0 || Unmoved(c, op) }

  datatype Rank = Rank(stage: nat, marked: nat, zone: nat, ahead: nat, phase: nat)

  predicate Below(a: Rank, b: Rank) {
    || a.stage < b.stage
    || (a.stage == b.stage && (a.marked < b.marked || (a.marked == b.marked && (a.zone < b.zone
        || (a.zone == b.zone && (a.ahead < b.ahead || (a.ahead == b.ahead && a.phase < b.phase)))))))
  }

  ghost function Phase(c: Core, op: Op): nat {
    match op.pc
    case Check(_) => if Reached(c, op) && !Fresh(c, op) then 6 else 4
    case Visit => 5
    case Unlink(_) => 3
    case _ => 2
  }

  /** How far a call still is from its end: whether its change is to come, how many marked nodes it may have to take off,
      whether it has to start again, and how much of the list is left to it. */
  ghost function RankOf(c: Core, op: Op): Rank {
    if op.pc.Done? then Rank(0, 0, 0, 0, 0)
    else
      Rank(if op.kind.Deleting? && !HasChanged(op) then 1 else 0, |Marked(c)|,
           if op.pc.Start? then 1 else if Fresh(c, op) then 0 else 2,
           if Fresh(c, op) && !op.pc.Start? then Ahead(c, op) else 0, Phase(c, op))
  }

  lemma BehindLess(c: Core, p: Gptr, q: Gptr)
    requires p in c.pos && q in c.pos && q in c.placed && c.pos[p] < c.pos[q]
    ensures |Behind(c, q)| < |Behind(c, p)|
  {
    assert q in Behind(c, p) && Behind(c, q) <= Behind(c, p) - {q};
    SubsetSize(Behind(c, q), Behind(c, p) - {q});
  }

  /** What a fresh call is at is on the list. */
  lemma FreshIsOn(c: Core, op: Op)
    requires WellFormed(c) && Reached(c, op) && Starts(c, op) && Passed(c, op) && op.cur.ptr != 0
    ensures In(c, op.cur.ptr)
  {
    if op.prev == 0 {
      assert NodeOk(c, op.cur.ptr);
    } else {
      LiveIsIn(c, op.prev);
      assert Onward(c, op.prev);
    }
  }

  lemma CheckDescends(c: Core, hist: seq<set<Name>>, op: Op)
    requires WellFormed(c) && OpOk(c, hist, op) && op.pc.Check?
    ensures Below(RankOf(c, CheckStep(c, op, op.pc.next, true)), RankOf(c, op))
  {
    var next := op.pc.next;
    if Reached(c, op) {
      assert NodeOk(c, op.cur.ptr);
      if Fresh(c, op) {
        FreshIsOn(c, op);
        assert Onward(c, op.cur.ptr);
        if next.ptr != 0 { BehindLess(c, op.cur.ptr, next.ptr); }
      }
    }
  }

  lemma UnlinkDescends(c: Core, hist: seq<set<Name>>, op: Op)
    requires WellFormed(c) && OpOk(c, hist, op) && op.pc.Unlink?
    ensures var (c', op') := StepOp(c, op, c.root, true); Below(RankOf(c', op'), RankOf(c, op))
  {
    if Unmoved(c, op) {
      var c' := Cut(c, op.prev, op.cur, op.pc.next.ptr);
      LiveIsIn(c, op.prev);
      assert Onward(c, op.prev) && NodeOk(c, op.cur.ptr);
      assert op.cur.ptr in Marked(c) && Marked(c') <= Marked(c) - {op.cur.ptr};
      SubsetSize(Marked(c'), Marked(c) - {op.cur.ptr});
    }
  }

  lemma StepDescends(c: Core, hist: seq<set<Name>>, op: Op)
    requires WellFormed(c) && OpOk(c, hist, op) && !op.pc.Done?
    ensures var (c', op') := StepOp(c, op, c.root, true); Below(RankOf(c', op'), RankOf(c, op))
  {
    match op.pc
    case Check(_) => CheckDescends(c, hist, op);
    case Unlink(_) => UnlinkDescends(c, hist, op);
    case Visit => if op.cur.ptr != 0 { assert NodeOk(c, op.cur.ptr); }
    case Linking => assert NodeOk(c, op.prev);
    case _ =>
  }

  lemma RunMore(run: seq<State>, acts: seq<Action>, a: Action)
    requires IsRun(run, acts) && Enabled(run[|acts|], a)
    ensures IsRun(run + [Apply(run[|acts|], a)], acts + [a])
  {
    var run1, acts1 := run + [Apply(run[|acts|], a)], acts + [a];
    forall i {:trigger acts1[i]} | 0 <= i < |acts1| ensures Enabled(run1[i], acts1[i]) && run1[i + 1] == Apply(run1[i], acts1[i]) {
      if i < |acts| { assert run1[i] == run[i] && run1[i + 1] == run[i + 1] && acts1[i] == acts[i]; }
    }
  }

  lemma NextDescends(s: State, t: nat) returns (a: Action)
    requires Inv(s) && t in s.ops && !s.ops[t].pc.Done?
    ensures StepsOf(a, t) && Enabled(s, a) && t in Apply(s, a).ops
    ensures Below(RankOf(Apply(s, a).core, Apply(s, a).ops[t]), RankOf(s.core, s.ops[t]))
  {
    assert ThreadOk(s, t) && NodeOk(s.core, s.core.root);
    a := Step(t, s.core.root, true);
    StepDescends(s.core, s.hist, s.ops[t]);
  }

  /** Main result: from every state that a run can reach, a call that is left alone comes to its end. */
  lemma {:induction false} FinishesAlone(run: seq<State>, acts: seq<Action>, t: nat) returns (run': seq<State>, acts': seq<Action>)
    requires IsRun(run, acts) && t in run[|acts|].ops
    ensures IsRun(run', acts') && acts <= acts' && forall i | |acts| <= i < |acts'| :: StepsOf(acts'[i], t)
    ensures t in run'[|acts'|].ops && run'[|acts'|].ops[t].pc.Done?
    decreases RankOf(run[|acts|].core, run[|acts|].ops[t]).stage, RankOf(run[|acts|].core, run[|acts|].ops[t]).marked,
      RankOf(run[|acts|].core, run[|acts|].ops[t]).zone, RankOf(run[|acts|].core, run[|acts|].ops[t]).ahead,
      RankOf(run[|acts|].core, run[|acts|].ops[t]).phase
  {
    var s := run[|acts|];
    if s.ops[t].pc.Done? {
      return run, acts;
    }
    RunInv(run, acts, |acts|);
    var a := NextDescends(s, t);
    RunMore(run, acts, a);
    run', acts' := FinishesAlone(run + [Apply(s, a)], acts + [a], t);
  }
}
