/** The middle node of a put is cleared when it is allocated and not before a retry
    (src/radix_tree.cc:357-431). A run of three puts that publishes what an earlier attempt left in it. */
module RadixLeftover {
  import opened Common
  import opened RadixHeap
  import opened RadixSteps

  const K0: Key := [1, 2, 9]
  const K1: Key := [1, 2, 3, 4]
  const K2: Key := [1, 2, 3, 5]

  /** A run ending in state `s`. */
  ghost predicate Reaches(run: seq<State>, acts: seq<Action>, s: State) {
    IsRun(run, acts) && run[0] == Init(1, false) && run[|acts|] == s
  }

  lemma Extend(run: seq<State>, acts: seq<Action>, s: State, a: Action)
      returns (run': seq<State>, acts': seq<Action>, s': State)
    requires Reaches(run, acts, s) && Enabled(s, a)
    ensures s' == Apply(s, a) && Reaches(run', acts', s') && acts' == acts + [a]
  {
    s' := Apply(s, a);
    run', acts' := run + [s'], acts + [a];
  }

  function Tree0(): Heap {
    map[1 := Node([], map[1 := 10], Nil), 10 := Node(K0, map[], TagGptr(100, 0))]
  }

  function Tree1(): Heap {
    map[1 := Node([], map[1 := 31], Nil), 10 := Node(K0, map[], TagGptr(100, 0)),
        31 := Node([1, 2], map[3 := 30, 9 := 10], Nil), 30 := Node(K2, map[], TagGptr(102, 0))]
  }

  /** A call that holds nothing private: the others need not care about it. */
  predicate Bare(s: State, ts: set<nat>) {
    s.root == 1 && !s.rebuild && s.ops.Keys == ts && forall t | t in ts :: Private(s.ops[t]) == {}
  }

  /** Call `t`, writing `v` under `key`, at `pc` with nothing allocated yet. */
  predicate Standing(s: State, t: nat, v: Gptr, key: Key, pc: Pc, p: Gptr, q: Gptr) {
    t in s.ops && s.ops[t] == Op(Writing(v), key, s.ops[t].began, pc, p, q, 0, 0, map[], Nil)
  }

  /** One put completes alone. */
  lemma First() returns (run: seq<State>, acts: seq<Action>, s: State)
    ensures Reaches(run, acts, s) && Bare(s, {0}) && s.heap == Tree0() && s.bufs == {100}
  {
    run, acts, s := Hanging();
    run, acts, s := Extend(run, acts, s, Step(0, 10, 11));
  }

  lemma Hanging() returns (run: seq<State>, acts: seq<Action>, s: State)
    ensures Reaches(run, acts, s) && Bare(s, {0}) && s.heap == Init(1, false).heap && s.bufs == {100}
    ensures Standing(s, 0, 100, K0, Hang, 1, 0)
  {
    run, acts, s := [Init(1, false)], [], Init(1, false);
    run, acts, s := Extend(run, acts, s, Begin(0, Writing(100), K0));
    AgreeIs(K0, [], 0);
    run, acts, s := Extend(run, acts, s, Step(0, 10, 11));
  }

  /** A second put goes as far as wanting to split the first one's leaf. */
  lemma Second() returns (run: seq<State>, acts: seq<Action>, s: State)
    ensures Reaches(run, acts, s) && Bare(s, {0, 1}) && s.heap == Tree0() && s.bufs == {100, 101}
    ensures Standing(s, 1, 101, K1, Split(2), 1, 10)
  {
    run, acts, s := First();
    run, acts, s := Extend(run, acts, s, Begin(1, Writing(101), K1));
    AgreeIs(K1, [], 0);
    AgreeIs(K1, K0, 2);
    run, acts, s := Extend(run, acts, s, Step(1, 20, 21));
    assert Standing(s, 1, 101, K1, Look, 1, 10);
    run, acts, s := Extend(run, acts, s, Step(1, 20, 21));
  }

  /** A third put overtakes it and wants to split the same leaf. */
  lemma Third() returns (run: seq<State>, acts: seq<Action>, s: State)
    ensures Reaches(run, acts, s) && Bare(s, {0, 1, 2}) && s.heap == Tree0()
    ensures Standing(s, 1, 101, K1, Split(2), 1, 10) && Standing(s, 2, 102, K2, Split(2), 1, 10)
  {
    run, acts, s := Second();
    run, acts, s := Extend(run, acts, s, Begin(2, Writing(102), K2));
    AgreeIs(K2, [], 0);
    AgreeIs(K2, K0, 2);
    run, acts, s := Extend(run, acts, s, Step(2, 30, 31));
    assert Standing(s, 2, 102, K2, Look, 1, 10);
    run, acts, s := Extend(run, acts, s, Step(2, 30, 31));
  }

  /** The third put swings the slot. */
  lemma Fourth() returns (run: seq<State>, acts: seq<Action>, s: State)
    ensures Reaches(run, acts, s) && Bare(s, {0, 1, 2}) && s.heap == Tree1()
    ensures Standing(s, 1, 101, K1, Split(2), 1, 10)
  {
    run, acts, s := Third();
    run, acts, s := Extend(run, acts, s, Step(2, 30, 31));
    assert s.heap[31] == Node([1, 2], map[3 := 30, 9 := 10], Nil);
    assert s.heap[1] == Node([], map[1 := 31], Nil);
  }

  /** The second put fails to swing and goes on below, its middle node filled for two bytes. */
  predicate Refilled(s: State, pc: Pc, p: Gptr, q: Gptr) {
    && s.heap == Tree1() && s.root == 1 && !s.rebuild && s.ops.Keys == {0, 1, 2}
    && Private(s.ops[0]) == {} && Private(s.ops[2]) == {}
    && s.ops[1] == Op(Writing(101), K1, s.ops[1].began, pc, p, q, 20, 21, map[3 := 20, 9 := 10], Nil)
  }

  lemma Fifth() returns (run: seq<State>, acts: seq<Action>, s: State)
    ensures Reaches(run, acts, s) && Refilled(s, Look, 1, 31)
  {
    run, acts, s := Fourth();
    run, acts, s := Extend(run, acts, s, Step(1, 20, 21));
  }

  lemma Sixth() returns (run: seq<State>, acts: seq<Action>, s: State)
    ensures Reaches(run, acts, s) && Refilled(s, Look, 31, 30)
  {
    run, acts, s := Fifth();
    AgreeIs(K1, [1, 2], 2);
    run, acts, s := Extend(run, acts, s, Step(1, 22, 23));
  }

  lemma Seventh() returns (run: seq<State>, acts: seq<Action>, s: State)
    ensures Reaches(run, acts, s) && Refilled(s, Split(3), 31, 30)
  {
    run, acts, s := Sixth();
    AgreeIs(K1, K2, 3);
    run, acts, s := Extend(run, acts, s, Step(1, 22, 23));
  }

  /** Its next swing succeeds and publishes, below prefix [1, 2, 3], the slot for byte 9 that belonged
      below prefix [1, 2]. */
  lemma LeftoverBreaksTree() returns (run: seq<State>, acts: seq<Action>)
    ensures IsRun(run, acts) && run[0] == Init(1, false)
    ensures !WellFormed(run[|acts|].heap, run[0].root)
  {
    var s;
    run, acts, s := Seventh();
    run, acts, s := Extend(run, acts, s, Step(1, 22, 23));
    assert s.heap[21].child[9] == 10;
    assert !ChildFits(s.heap, 21, 9);
  }
}
