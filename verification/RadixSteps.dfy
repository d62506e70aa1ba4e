/** Many clients on one radix tree, one shared read or compare-and-swap at a time (src/radix_tree.cc),
    with the value buffers the key-value store hangs into it (src/kvs_radix_tree.cc). */
module RadixSteps {
  import opened Common
  import opened RadixHeap

  /** What a call does to the cell of its key. get and destroy have no `past`; getC and destroyC do not stop at a node
      that extends the key, but go on with the byte that lies behind the key in memory. */
  datatype Kind = Reading(past: Option<Byte>) | Writing(value: Gptr) | Clearing(past: Option<Byte>)

  /** Where a call stands. `Look`: about to inspect node `q`. `Hang`: found an empty slot. `Split`: node `q`
      leaves the way to the key after `i` bytes. `Cas`: retries the value cell of `q`. `Ret`: the tree
      operation returned. `Done`: the displaced buffer, if any, was handed to delayed free. */
  datatype Pc = Look | Hang | Split(i: nat) | Cas(seen: TagGptr) | Ret(result: TagGptr) | Done(result: TagGptr)

  /** The locals of a call. `leaf` and `mid` are allocated but unpublished nodes, `slots` and `midValue`
      what has been written into `mid` so far. */
  datatype Op = Op(kind: Kind, key: Key, began: nat, pc: Pc, p: Gptr, q: Gptr,
                   leaf: Gptr, mid: Gptr, slots: map<Byte, Gptr>, midValue: TagGptr)

  /** `past` lists the tree at every earlier moment; `bufs` are the value buffers allocated so far and
      `freed` those handed to delayed free, in order. `rebuild` tells whether a middle node is cleared
      before every attempt or, as in the source, only when it is allocated. */
  datatype State = State(heap: Heap, root: Gptr, ops: map<nat, Op>, past: seq<Heap>,
                         bufs: set<Gptr>, freed: seq<Gptr>, rebuild: bool)

  datatype Action =
    | Begin(t: nat, kind: Kind, key: Key)
    | BeginAt(t: nat, kind: Kind, node: Gptr)
    | Step(t: nat, f1: Gptr, f2: Gptr)

  /* ---- one step of one call ---- */

  function Return(op: Op, v: TagGptr): Op {
    op.(pc := Ret(v), leaf := 0, mid := 0, slots := map[], midValue := Nil)
  }

  function Target(k: Kind): Gptr {
    if k.Writing? then k.value else 0
  }

  /** Continues at `c`, the content just read from the slot of `op.p`. */
  function Goto(op: Op, c: Gptr): Op {
    if c != 0 then op.(q := c, pc := Look)
    else if op.kind.Writing? then op.(q := 0, pc := Hang)
    else Return(op, Nil)
  }

  /** The node, or nothing, that getC and destroyC go on to from a node `n` whose key extends theirs. */
  function Beyond(n: Node, past: Byte): Gptr {
    if past in n.child then n.child[past] else 0
  }

  function LookStep(h: Heap, op: Op): Op
    requires op.q in h
  {
    var n := h[op.q];
    var i := Agree(op.key, n.key);
    if i < |n.key| then
      if op.kind.Writing? then op.(pc := Split(i))
      else if op.kind.past.Some? && i == |op.key| && Beyond(n, op.kind.past.value) != 0 then
        op.(q := Beyond(n, op.kind.past.value))
      else Return(op, Nil)
    else if i == |op.key| then
      if op.kind.Reading? then Return(op, n.value) else op.(pc := Cas(n.value))
    else
      Goto(op.(p := op.q), Slot(h, op.q, op.key))
  }

  function CasStep(h: Heap, op: Op): (Heap, Op)
    requires op.q in h && op.pc.Cas?
  {
    if h[op.q].value == op.pc.seen then
      (WithValue(h, op.q, TagGptr(Target(op.kind), op.pc.seen.tag + 1)), Return(op, op.pc.seen))
    else
      (h, op.(pc := Cas(h[op.q].value)))
  }

  function HangStep(h: Heap, op: Op, f1: Gptr): (Heap, Op)
    requires op.p in h && h[op.p].key < op.key
  {
    var leaf := if op.leaf != 0 then op.leaf else f1;
    var c := Slot(h, op.p, op.key);
    if c == 0 then
      (WithLeaf(h, op.p, leaf, op.key, TagGptr(Target(op.kind), 0)), Return(op, Nil))
    else
      (h, Goto(op.(leaf := leaf), c))
  }

  /** The locals after the middle node was filled for an attempt at prefix length `op.pc.i`. */
  function Fill(h: Heap, rebuild: bool, op: Op, f1: Gptr, f2: Gptr): Op
    requires op.pc.Split? && op.q in h && op.pc.i < |h[op.q].key| && op.pc.i <= |op.key|
  {
    var i := op.pc.i;
    var mid := if op.mid != 0 then op.mid else f2;
    var kept := if rebuild then map[] else op.slots;
    if i == |op.key| then
      op.(mid := mid, slots := kept[h[op.q].key[i] := op.q], midValue := TagGptr(Target(op.kind), 0))
    else
      var leaf := if op.leaf != 0 then op.leaf else f1;
      op.(mid := mid, leaf := leaf,
          slots := kept[op.key[i] := leaf][h[op.q].key[i] := op.q],
          midValue := if rebuild then Nil else op.midValue)
  }

  /** The tree once the slot of `op.p` points to the middle node. */
  function Publish(h: Heap, op: Op): Heap
    requires op.pc.Split? && op.p in h && |h[op.p].key| < |op.key| && op.pc.i <= |op.key|
  {
    var i := op.pc.i;
    var h1 := WithChild(h, op.p, op.key[|h[op.p].key|], op.mid)[op.mid := Node(op.key[..i], op.slots, op.midValue)];
    if i == |op.key| then h1
    else h1[op.leaf := Node(op.key, map[], TagGptr(Target(op.kind), 0))]
  }

  function SplitStep(h: Heap, rebuild: bool, op: Op, f1: Gptr, f2: Gptr): (Heap, Op)
    requires op.pc.Split? && op.q in h && op.pc.i < |h[op.q].key| && op.pc.i <= |op.key|
    requires op.p in h && |h[op.p].key| < |op.key|
  {
    var filled := Fill(h, rebuild, op, f1, f2);
    var c := Slot(h, op.p, op.key);
    if c == op.q then (Publish(h, filled), Return(op, Nil))
    else (h, Goto(filled, c))
  }

  /** One step of a call. A call that would follow a pointer to nothing is stuck. */
  function StepOp(h: Heap, rebuild: bool, op: Op, f1: Gptr, f2: Gptr): (Heap, Op) {
    match op.pc
    case Look => if op.q in h then (h, LookStep(h, op)) else (h, op)
    case Cas(_) => if op.q in h then CasStep(h, op) else (h, op)
    case Hang => if op.p in h && h[op.p].key < op.key then HangStep(h, op, f1) else (h, op)
    case Split(i) =>
      if op.p in h && |h[op.p].key| < |op.key| && op.q in h && i < |h[op.q].key| && i <= |op.key|
      then SplitStep(h, rebuild, op, f1, f2) else (h, op)
    case Ret(v) => (h, op.(pc := Done(v)))
    case Done(_) => (h, op)
  }

  /* ---- the system ---- */

  function Private(op: Op): set<Gptr> {
    {op.leaf, op.mid} - {0}
  }

  /** A pointer the allocator may return: not null, not a published node, not held by any call. */
  predicate Fresh(s: State, f: Gptr) {
    f != 0 && f !in s.heap && forall t | t in s.ops :: f !in Private(s.ops[t])
  }

  predicate Idle(s: State, t: nat) {
    t !in s.ops || s.ops[t].pc.Done?
  }

  /** The buffer a returned writer has displaced and not yet freed. */
  function Displaced(op: Op): seq<Gptr> {
    if op.pc.Ret? && !op.kind.Reading? && op.pc.result.IsValid() then [op.pc.result.ptr] else []
  }

  predicate Enabled(s: State, a: Action) {
    match a
    case Begin(t, kind, key) =>
      && Idle(s, t) && 0 < |key| <= MAX_KEY_LEN
      && (kind.Writing? ==> kind.value != 0 && kind.value !in s.bufs)
    case BeginAt(t, kind, node) =>
      && Idle(s, t) && node in s.heap && node != s.root
      && (kind.Writing? ==> kind.value != 0 && kind.value !in s.bufs)
    case Step(t, f1, f2) => t in s.ops && Fresh(s, f1) && Fresh(s, f2) && f1 != f2
  }

  function Started(s: State, kind: Kind, key: Key, q: Gptr): Op {
    Op(kind, key, |s.past| + 1, Look, 0, q, 0, 0, map[], Nil)
  }

  function Apply(s: State, a: Action): State
    requires Enabled(s, a)
  {
    match a
    case Begin(t, kind, key) =>
      s.(ops := s.ops[t := Started(s, kind, key, s.root)], past := s.past + [s.heap],
         bufs := if kind.Writing? then s.bufs + {kind.value} else s.bufs)
    case BeginAt(t, kind, node) =>
      s.(ops := s.ops[t := Started(s, kind, s.heap[node].key, node)], past := s.past + [s.heap],
         bufs := if kind.Writing? then s.bufs + {kind.value} else s.bufs)
    case Step(t, f1, f2) =>
      var (h, op) := StepOp(s.heap, s.rebuild, s.ops[t], f1, f2);
      s.(heap := h, ops := s.ops[t := op], past := s.past + [s.heap],
         freed := s.freed + Displaced(s.ops[t]))
  }

  function Init(root: Gptr, rebuild: bool): State {
    State(map[root := Node([], map[], Nil)], root, map[], [], {}, [], rebuild)
  }

  /* ---- what holds of one call ---- */

  ghost predicate Shape(h: Heap, op: Op) {
    && 0 < |op.key| <= MAX_KEY_LEN
    && match op.pc
       case Look => op.q in h && (h[op.q].key <= op.key || (op.p in h && h[op.p].key < op.key))
       case Cas(_) => op.q in h && h[op.q].key == op.key && !op.kind.Reading?
       case Hang => op.kind.Writing? && op.p in h && h[op.p].key < op.key
       case Split(i) =>
         && op.kind.Writing? && op.p in h && h[op.p].key < op.key && op.q in h
         && i <= |op.key| && i < |h[op.q].key| && op.key[..i] == h[op.q].key[..i]
         && (i < |op.key| ==> op.key[i] != h[op.q].key[i])
       case _ => true
  }

  /** The unpublished nodes are unpublished; what was written into the middle node points to published
      nodes or to the leaf; a value was put there only while some stored key extended the call's key. */
  ghost predicate Local(h: Heap, op: Op) {
    && (op.leaf != 0 ==> op.leaf !in h) && (op.mid != 0 ==> op.mid !in h)
    && (op.leaf == op.mid ==> op.leaf == 0)
    && (forall b | b in op.slots :: op.slots[b] in h || (op.slots[b] == op.leaf && op.leaf != 0))
    && (op.midValue == Nil || exists x :: x in h && op.key < h[x].key)
  }

  /** The cell a successful write leaves behind. */
  ghost function Written(h: Heap, op: Op): TagGptr {
    if NodeOf(h, op.key) == 0 then TagGptr(Target(op.kind), 0)
    else TagGptr(Target(op.kind), Cell(h, op.key).tag + 1)
  }

  /** A step without a write: a put does not return, a destroy returns only the null cell. */
  ghost predicate Quiet(op: Op, op': Op) {
    && op'.kind == op.kind && op'.key == op.key
    && (op.pc.Ret? ==> op'.pc == Done(op.pc.result))
    && (op.pc.Done? ==> op' == op)
    && (!op.pc.Ret? && !op.pc.Done? ==>
          && !op'.pc.Done?
          && (op'.pc.Ret? ==> !op.kind.Writing? && (op.kind.Clearing? ==> op'.pc.result == Nil)))
  }

  /** A step either leaves the tree alone or is the one write of its call, and then it returns what it
      replaced. */
  ghost predicate Atomic(h: Heap, h': Heap, root: Gptr, op: Op, op': Op) {
    || (h' == h && Quiet(op, op'))
    || (!op.kind.Reading? && !op.pc.Ret? && !op.pc.Done? && (op.kind.Clearing? ==> NodeOf(h, op.key) != 0)
        && Wrote(h, h', root, op.key, Written(h, op)) && op' == Return(op, Cell(h, op.key)))
  }

  /** Following the slot of `op.p` the call stays in shape. */
  lemma GotoKeeps(h: Heap, root: Gptr, op: Op)
    requires WellFormed(h, root) && 0 < |op.key| <= MAX_KEY_LEN && op.p in h && h[op.p].key < op.key && Local(h, op)
    ensures var op' := Goto(op, Slot(h, op.p, op.key));
      && Shape(h, op') && Local(h, op')
      && Private(op') <= Private(op)
  {
    SlotDecides(h, root, op.p, op.key);
  }

  lemma BeyondKeeps(h: Heap, op: Op, past: Byte)
    requires Fitted(h) && Shape(h, op) && Local(h, op) && op.pc.Look? && past in h[op.q].child
    requires op.p in h && h[op.p].key < op.key
    ensures Shape(h, op.(q := Beyond(h[op.q], past))) && Local(h, op.(q := Beyond(h[op.q], past)))
  {
    assert ChildFits(h, op.q, past);
  }

  lemma LookKeepsOff(h: Heap, root: Gptr, op: Op)
    requires WellFormed(h, root) && Shape(h, op) && Local(h, op) && op.pc.Look?
    requires Agree(op.key, h[op.q].key) < |h[op.q].key|
    ensures Shape(h, LookStep(h, op)) && Local(h, LookStep(h, op))
  {
    if !op.kind.Writing? && op.kind.past.Some? && op.kind.past.value in h[op.q].child {
      BeyondKeeps(h, op, op.kind.past.value);
    }
  }

  lemma LookKeeps(h: Heap, root: Gptr, op: Op)
    requires WellFormed(h, root) && Shape(h, op) && Local(h, op) && op.pc.Look?
    ensures Shape(h, LookStep(h, op)) && Local(h, LookStep(h, op))
  {
    var i := Agree(op.key, h[op.q].key);
    if i < |h[op.q].key| {
      LookKeepsOff(h, root, op);
    } else if i < |op.key| {
      GotoKeeps(h, root, op.(p := op.q));
    }
  }

  lemma CasKeeps(h: Heap, root: Gptr, op: Op)
    requires WellFormed(h, root) && Shape(h, op) && Local(h, op) && op.pc.Cas?
    ensures var (h', op') := CasStep(h, op);
      Shape(h', op') && Local(h', op') && Atomic(h, h', root, op, op') && h'.Keys == h.Keys
  {
    CellIs(h, root, op.q);
    if h[op.q].value == op.pc.seen {
      WithValueKeeps(h, root, op.q, TagGptr(Target(op.kind), op.pc.seen.tag + 1));
    }
  }

  lemma HangKeeps(h: Heap, root: Gptr, op: Op, f1: Gptr)
    requires WellFormed(h, root) && Shape(h, op) && Local(h, op) && op.pc.Hang?
    requires f1 != 0 && f1 !in h && f1 !in Private(op)
    ensures var (h', op') := HangStep(h, op, f1);
      && Shape(h', op') && Local(h', op') && Atomic(h, h', root, op, op')
      && h'.Keys <= h.Keys + Private(op) + {f1} && Private(op') <= Private(op) + {f1}
  {
    var leaf := if op.leaf != 0 then op.leaf else f1;
    SlotDecides(h, root, op.p, op.key);
    if Slot(h, op.p, op.key) == 0 {
      WithLeafKeeps(h, root, op.p, leaf, op.key, TagGptr(Target(op.kind), 0));
    }
  }

  /* ---- the swing ---- */

  /** The slots a middle node is meant to have: towards `q` and, if the key goes on, towards the leaf. */
  function Meant(h: Heap, op: Op): set<Byte>
    requires op.pc.Split? && op.q in h && op.pc.i < |h[op.q].key| && op.pc.i <= |op.key|
  {
    {h[op.q].key[op.pc.i]} + (if op.pc.i < |op.key| then {op.key[op.pc.i]} else {})
  }

  /** A call about to swing: the slot still holds `q`. */
  ghost predicate Swinging(h: Heap, root: Gptr, op: Op, f1: Gptr, f2: Gptr) {
    && WellFormed(h, root) && Shape(h, op) && Local(h, op)
    && op.pc.Split? && Slot(h, op.p, op.key) == op.q
    && f1 != 0 && f1 !in h && f1 !in Private(op)
    && f2 != 0 && f2 !in h && f2 !in Private(op) && f1 != f2
  }

  lemma NoStaleValue(h: Heap, root: Gptr, op: Op, f1: Gptr, f2: Gptr)
    requires Swinging(h, root, op, f1, f2) && op.pc.i < |op.key|
    ensures op.midValue == Nil
  {
    if op.midValue != Nil {
      var x :| x in h && op.key < h[x].key;
      Toward(h, root, op.p, x);
    }
  }

  lemma CleanPublish(h: Heap, root: Gptr, rebuild: bool, op: Op, f1: Gptr, f2: Gptr, leaf: Gptr)
    requires Swinging(h, root, op, f1, f2)
    requires Fill(h, rebuild, op, f1, f2).slots.Keys == Meant(h, op)
    requires op.pc.i < |op.key| ==> op.midValue == Nil
    requires h[op.p].key < op.key[..op.pc.i] < h[op.q].key
    requires leaf == if op.leaf != 0 then op.leaf else f1
    ensures Publish(h, Fill(h, rebuild, op, f1, f2)) ==
      WithSplit(h, op.p, op.q, op.pc.i, Fill(h, rebuild, op, f1, f2).mid, leaf, op.key, TagGptr(Target(op.kind), 0))
  {
    var i, filled := op.pc.i, Fill(h, rebuild, op, f1, f2);
    if i < |op.key| {
      assert filled.slots == map[h[op.q].key[i] := op.q][op.key[i] := leaf];
    } else {
      assert filled.slots == map[h[op.q].key[i] := op.q];
      assert op.key[..i] == op.key;
    }
  }

  lemma CleanSwing(h: Heap, root: Gptr, rebuild: bool, op: Op, f1: Gptr, f2: Gptr)
    requires Swinging(h, root, op, f1, f2)
    requires Fill(h, rebuild, op, f1, f2).slots.Keys == Meant(h, op)
    ensures Wrote(h, Publish(h, Fill(h, rebuild, op, f1, f2)), root, op.key, Written(h, op))
    ensures Cell(h, op.key) == Nil
  {
    var i, filled := op.pc.i, Fill(h, rebuild, op, f1, f2);
    var leaf := if op.leaf != 0 then op.leaf else f1;
    PartsBelow(h, root, op.p, op.q, i, op.key);
    if i < |op.key| { NoStaleValue(h, root, op, f1, f2); }
    CleanPublish(h, root, rebuild, op, f1, f2, leaf);
    WithSplitKeeps(h, root, op.p, op.q, i, filled.mid, leaf, op.key, TagGptr(Target(op.kind), 0));
  }

  /** The exact condition. A swing that is about to succeed leaves a well-formed tree if and only if no
      slot written for an earlier attempt is left in the middle node. */
  lemma SwingExact(h: Heap, root: Gptr, rebuild: bool, op: Op, f1: Gptr, f2: Gptr)
    requires Swinging(h, root, op, f1, f2)
    ensures WellFormed(Publish(h, Fill(h, rebuild, op, f1, f2)), root)
      <==> Fill(h, rebuild, op, f1, f2).slots.Keys == Meant(h, op)
  {
    var filled := Fill(h, rebuild, op, f1, f2);
    if filled.slots.Keys == Meant(h, op) {
      CleanSwing(h, root, rebuild, op, f1, f2);
    } else {
      var b :| b in filled.slots && b !in Meant(h, op);
      PartsBelow(h, root, op.p, op.q, op.pc.i, op.key);
      LeftoverMisfits(h, root, rebuild, op, f1, f2, b);
    }
  }

  lemma LeftoverMisfits(h: Heap, root: Gptr, rebuild: bool, op: Op, f1: Gptr, f2: Gptr, b: Byte)
    requires Swinging(h, root, op, f1, f2) && h[op.p].key < op.key[..op.pc.i]
    requires b in Fill(h, rebuild, op, f1, f2).slots && b !in Meant(h, op)
    ensures !Fitted(Publish(h, Fill(h, rebuild, op, f1, f2)))
  {
    var filled := Fill(h, rebuild, op, f1, f2);
    var h' := Publish(h, filled);
    var c := filled.slots[b];
    assert c == op.slots[b];
    if ChildFits(h', filled.mid, b) && c in h {
      assert op.key[..op.pc.i] < h[c].key;
      Toward(h, root, op.p, c);
    }
    assert !ChildFits(h', filled.mid, b);
  }

  lemma SplitRetries(h: Heap, root: Gptr, rebuild: bool, op: Op, filled: Op, f1: Gptr, f2: Gptr)
    requires WellFormed(h, root) && Shape(h, op) && op.pc.Split?
    requires Local(h, filled) && filled.key == op.key && filled.p == op.p && filled.kind == op.kind && filled.pc == op.pc
    requires Private(filled) <= Private(op) + {f1, f2}
    ensures var op' := Goto(filled, Slot(h, op.p, op.key));
      Shape(h, op') && Local(h, op') && Quiet(op, op') && Private(op') <= Private(op) + {f1, f2}
  {
    GotoKeeps(h, root, filled);
  }

  lemma SplitKeeps(h: Heap, root: Gptr, rebuild: bool, op: Op, f1: Gptr, f2: Gptr)
    requires WellFormed(h, root) && Shape(h, op) && Local(h, op) && op.pc.Split?
    requires f1 != 0 && f1 !in h && f1 !in Private(op) && f2 != 0 && f2 !in h && f2 !in Private(op) && f1 != f2
    requires Slot(h, op.p, op.key) == op.q ==> Fill(h, rebuild, op, f1, f2).slots.Keys == Meant(h, op)
    ensures var (h', op') := SplitStep(h, rebuild, op, f1, f2);
      && Shape(h', op') && Local(h', op') && Atomic(h, h', root, op, op')
      && h'.Keys <= h.Keys + Private(op) + {f1, f2} && Private(op') <= Private(op) + {f1, f2}
  {
    if Slot(h, op.p, op.key) == op.q {
      CleanSwing(h, root, rebuild, op, f1, f2);
    } else {
      FillLocal(h, rebuild, op, f1, f2);
      SplitRetries(h, root, rebuild, op, Fill(h, rebuild, op, f1, f2), f1, f2);
    }
  }

  lemma FillLocal(h: Heap, rebuild: bool, op: Op, f1: Gptr, f2: Gptr)
    requires 0 !in h && Shape(h, op) && Local(h, op) && op.pc.Split?
    requires f1 != 0 && f1 !in h && f1 !in Private(op) && f2 != 0 && f2 !in h && f2 !in Private(op) && f1 != f2
    ensures Local(h, Fill(h, rebuild, op, f1, f2))
    ensures Private(Fill(h, rebuild, op, f1, f2)) <= Private(op) + {f1, f2}
  {}

  lemma StepKeeps(h: Heap, root: Gptr, rebuild: bool, op: Op, f1: Gptr, f2: Gptr)
    requires WellFormed(h, root) && Shape(h, op) && Local(h, op)
    requires f1 != 0 && f1 !in h && f1 !in Private(op) && f2 != 0 && f2 !in h && f2 !in Private(op) && f1 != f2
    requires op.pc.Split? && Slot(h, op.p, op.key) == op.q ==> Fill(h, rebuild, op, f1, f2).slots.Keys == Meant(h, op)
    ensures var (h', op') := StepOp(h, rebuild, op, f1, f2);
      && Shape(h', op') && Local(h', op') && Atomic(h, h', root, op, op')
      && h'.Keys <= h.Keys + Private(op) + {f1, f2} && Private(op') <= Private(op) + {f1, f2}
  {
    match op.pc
    case Look => LookKeeps(h, root, op); LookQuiet(h, op);
    case Cas(_) => CasKeeps(h, root, op); CasPrivate(h, op);
    case Hang => HangKeeps(h, root, op, f1);
    case Split(_) => SplitKeeps(h, root, rebuild, op, f1, f2);
    case _ =>
  }

  lemma LookQuiet(h: Heap, op: Op)
    requires op.q in h && op.pc.Look?
    ensures Private(LookStep(h, op)) <= Private(op) && Quiet(op, LookStep(h, op))
  {}

  lemma CasPrivate(h: Heap, op: Op)
    requires op.q in h && op.pc.Cas?
    ensures Private(CasStep(h, op).1) <= Private(op)
  {}

  /* ---- what holds of the system ---- */

  /** The tree at moment `j` of the run, the last moment being now. */
  function At(s: State, j: nat): Heap
    requires j <= |s.past|
  {
    if j < |s.past| then s.past[j] else s.heap
  }

  /** `v` was the cell of the call's key at some moment of the call. */
  ghost predicate Witnessed(s: State, op: Op, v: TagGptr) {
    exists j :: op.began <= j <= |s.past| && Cell(At(s, j), op.key) == v
  }

  /** The call's key had no node at some moment of the call. */
  ghost predicate Missed(s: State, op: Op) {
    exists j :: op.began <= j <= |s.past| && NodeOf(At(s, j), op.key) == 0
  }

  ghost predicate Seen(s: State, op: Op) {
    && op.began <= |s.past|
    && (Strayed(s.heap, op) ==> Missed(s, op))
    && (op.pc.Ret? || op.pc.Done? ==> Witnessed(s, op, op.pc.result))
  }

  ghost predicate OpOk(s: State, t: nat)
    requires t in s.ops
  {
    Shape(s.heap, s.ops[t]) && Local(s.heap, s.ops[t]) && Seen(s, s.ops[t])
  }

  ghost predicate Apart(s: State, t: nat, u: nat)
    requires t in s.ops && u in s.ops
  {
    t != u ==> Private(s.ops[t]) !! Private(s.ops[u])
  }

  ghost predicate Ordered(s: State, i: nat, j: nat) {
    i <= j <= |s.past| ==> WellFormed(At(s, i), s.root) && Grown(At(s, i), At(s, j))
  }

  ghost predicate Inv(s: State) {
    && WellFormed(s.heap, s.root)
    && (forall t {:trigger OpOk(s, t)} | t in s.ops :: OpOk(s, t))
    && (forall t, u {:trigger Apart(s, t, u)} | t in s.ops && u in s.ops :: Apart(s, t, u))
    && (forall i: nat, j: nat {:trigger Ordered(s, i, j)} :: Ordered(s, i, j))
  }

  /** The step publishes a middle node that still holds slots written for an earlier attempt. */
  predicate Leftover(s: State, a: Action) {
    && a.Step? && a.t in s.ops
    && var op := s.ops[a.t];
    && op.pc.Split? && op.p in s.heap && |s.heap[op.p].key| < |op.key| && op.q in s.heap
    && op.pc.i < |s.heap[op.q].key| && op.pc.i <= |op.key|
    && Slot(s.heap, op.p, op.key) == op.q
    && Fill(s.heap, s.rebuild, op, a.f1, a.f2).slots.Keys != Meant(s.heap, op)
  }

  /** The call is about to look at a node that is not on the way to its key. */
  ghost predicate Strayed(h: Heap, op: Op) {
    op.pc.Look? && op.q in h && !(h[op.q].key <= op.key)
  }

  /** A call returns the cell its key has now, unless it had already left the way to the key. */
  ghost predicate Honest(h: Heap, op: Op, op': Op) {
    && op'.key == op.key && op'.began == op.began && op'.kind == op.kind && !op'.pc.Done?
    && (op'.pc.Ret? ==>
          || op'.pc.result == Cell(h, op.key)
          || (Strayed(h, op) && op'.pc.result == Nil))
    && (Strayed(h, op') ==> NodeOf(h, op.key) == 0 || Strayed(h, op))
  }

  lemma LookHonest(h: Heap, root: Gptr, op: Op)
    requires WellFormed(h, root) && Shape(h, op) && op.pc.Look?
    ensures Honest(h, op, LookStep(h, op))
  {
    var i := Agree(op.key, h[op.q].key);
    if i < |h[op.q].key| {
    } else if i == |op.key| {
      assert h[op.q].key == op.key;
      CellIs(h, root, op.q);
    } else {
      SlotDecides(h, root, op.q, op.key);
    }
  }

  lemma SplitHonest(h: Heap, root: Gptr, rebuild: bool, op: Op, f1: Gptr, f2: Gptr)
    requires WellFormed(h, root) && Shape(h, op) && op.pc.Split?
    ensures Honest(h, op, SplitStep(h, rebuild, op, f1, f2).1)
  {
    SlotDecides(h, root, op.p, op.key);
    if Slot(h, op.p, op.key) == op.q { PartsBelow(h, root, op.p, op.q, op.pc.i, op.key); }
  }

  lemma StepHonest(h: Heap, root: Gptr, rebuild: bool, op: Op, f1: Gptr, f2: Gptr)
    requires WellFormed(h, root) && Shape(h, op) && !op.pc.Ret? && !op.pc.Done?
    ensures Honest(h, op, StepOp(h, rebuild, op, f1, f2).1)
  {
    match op.pc
    case Look => LookHonest(h, root, op);
    case Cas(_) => CellIs(h, root, op.q);
    case Hang => SlotDecides(h, root, op.p, op.key);
    case Split(_) => SplitHonest(h, root, rebuild, op, f1, f2);
  }

  /* ---- every action keeps the invariant ---- */

  lemma OthersKeep(h: Heap, h': Heap, op: Op, used: set<Gptr>)
    requires Grown(h, h') && Shape(h, op) && Local(h, op)
    requires h'.Keys <= h.Keys + used && used !! Private(op)
    ensures Shape(h', op) && Local(h', op)
  {
    if op.q in h { assert NodeKept(h, h', op.q); }
    if op.p in h { assert NodeKept(h, h', op.p); }
    forall b | b in op.slots ensures op.slots[b] in h' || (op.slots[b] == op.leaf && op.leaf != 0) {
      if op.slots[b] in h { assert NodeKept(h, h', op.slots[b]); }
    }
    if op.midValue != Nil {
      var x :| x in h && op.key < h[x].key;
      assert NodeKept(h, h', x);
    }
  }

  lemma WitnessedLater(s: State, s': State, op: Op, v: TagGptr)
    requires s'.past == s.past + [s.heap] && Witnessed(s, op, v)
    ensures Witnessed(s', op, v)
  {
    var j :| op.began <= j <= |s.past| && Cell(At(s, j), op.key) == v;
    assert At(s', j) == At(s, j);
  }

  lemma WitnessedNow(s: State, s': State, op: Op)
    requires s'.past == s.past + [s.heap] && op.began <= |s.past|
    ensures Witnessed(s', op, Cell(s.heap, op.key))
    ensures NodeOf(s.heap, op.key) == 0 ==> Missed(s', op)
  {
    assert At(s', |s.past|) == s.heap;
  }

  lemma MissedLater(s: State, s': State, op: Op)
    requires s'.past == s.past + [s.heap] && Missed(s, op)
    ensures Missed(s', op) && Witnessed(s', op, Nil)
  {
    var j :| op.began <= j <= |s.past| && NodeOf(At(s, j), op.key) == 0;
    assert At(s', j) == At(s, j) && Cell(At(s', j), op.key) == Nil;
  }

  lemma OrderedKeep(s: State, s': State, i: nat, j: nat)
    requires Inv(s) && s'.past == s.past + [s.heap] && s'.root == s.root
    requires WellFormed(s'.heap, s.root) && Grown(s.heap, s'.heap)
    ensures Ordered(s', i, j)
  {
    if i <= j <= |s'.past| {
      assert forall m: nat | m <= |s.past| :: At(s', m) == At(s, m);
      if j <= |s.past| {
        assert Ordered(s, i, j);
      } else if i <= |s.past| {
        assert Ordered(s, i, |s.past|);
        GrownTwice(At(s, i), s.heap, s'.heap);
      } else {
        GrownSame(s'.heap);
      }
    }
  }

  lemma GrownSame(h: Heap)
    ensures Grown(h, h)
  {
    forall p | p in h ensures NodeKept(h, h, p) {}
  }

  lemma SeenKeeps(s: State, s': State, op: Op)
    requires s'.past == s.past + [s.heap] && Grown(s.heap, s'.heap)
    requires Shape(s.heap, op) && Seen(s, op)
    ensures Seen(s', op)
  {
    if op.q in s.heap { assert NodeKept(s.heap, s'.heap, op.q); }
    if Missed(s, op) { MissedLater(s, s', op); }
    if op.pc.Ret? || op.pc.Done? { WitnessedLater(s, s', op, op.pc.result); }
  }

  lemma SeenSteps(s: State, t: nat, f1: Gptr, f2: Gptr)
    requires Inv(s) && Enabled(s, Step(t, f1, f2)) && !Leftover(s, Step(t, f1, f2))
    requires Grown(s.heap, Apply(s, Step(t, f1, f2)).heap)
    ensures Seen(Apply(s, Step(t, f1, f2)), Apply(s, Step(t, f1, f2)).ops[t])
  {
    var op, s' := s.ops[t], Apply(s, Step(t, f1, f2));
    var op' := s'.ops[t];
    assert OpOk(s, t);
    if op.pc.Ret? || op.pc.Done? {
      WitnessedLater(s, s', op, op.pc.result);
    } else {
      StepHonest(s.heap, s.root, s.rebuild, op, f1, f2);
      WitnessedNow(s, s', op);
      if Strayed(s.heap, op) { MissedLater(s, s', op); }
    }
  }

  /** A step of a call: the tree stays well formed and grown, and the change is the call's one atomic
      write or nothing. */
  lemma StepWrites(s: State, t: nat, f1: Gptr, f2: Gptr)
    requires Inv(s) && Enabled(s, Step(t, f1, f2)) && !Leftover(s, Step(t, f1, f2))
    ensures var s' := Apply(s, Step(t, f1, f2));
      && Atomic(s.heap, s'.heap, s.root, s.ops[t], s'.ops[t])
      && WellFormed(s'.heap, s.root) && Grown(s.heap, s'.heap)
      && Shape(s'.heap, s'.ops[t]) && Local(s'.heap, s'.ops[t])
      && s'.heap.Keys <= s.heap.Keys + Private(s.ops[t]) + {f1, f2}
      && Private(s'.ops[t]) <= Private(s.ops[t]) + {f1, f2}
  {
    assert OpOk(s, t);
    StepKeeps(s.heap, s.root, s.rebuild, s.ops[t], f1, f2);
    GrownSame(s.heap);
  }

  lemma StepInv(s: State, t: nat, f1: Gptr, f2: Gptr)
    requires Inv(s) && Enabled(s, Step(t, f1, f2)) && !Leftover(s, Step(t, f1, f2))
    ensures Inv(Apply(s, Step(t, f1, f2)))
  {
    var s' := Apply(s, Step(t, f1, f2));
    var used := Private(s.ops[t]) + {f1, f2};
    StepWrites(s, t, f1, f2);
    forall u | u in s'.ops ensures OpOk(s', u) {
      if u == t {
        SeenSteps(s, t, f1, f2);
      } else {
        assert OpOk(s, u) && Apart(s, t, u);
        OthersKeep(s.heap, s'.heap, s.ops[u], used);
        SeenKeeps(s, s', s.ops[u]);
      }
    }
    forall u, w | u in s'.ops && w in s'.ops ensures Apart(s', u, w) {
      assert Apart(s, u, w);
    }
    forall i: nat, j: nat ensures Ordered(s', i, j) {
      OrderedKeep(s, s', i, j);
    }
  }

  lemma BeginInv(s: State, s': State, t: nat, kind: Kind, key: Key, q: Gptr)
    requires Inv(s) && 0 < |key| <= MAX_KEY_LEN && q in s.heap && s.heap[q].key <= key
    requires s' == s.(ops := s.ops[t := Started(s, kind, key, q)], past := s.past + [s.heap], bufs := s'.bufs)
    ensures Inv(s')
  {
    GrownSame(s.heap);
    forall u | u in s'.ops ensures OpOk(s', u) {
      if u != t {
        assert OpOk(s, u);
        SeenKeeps(s, s', s.ops[u]);
      }
    }
    forall u, w | u in s'.ops && w in s'.ops ensures Apart(s', u, w) {
      if u != t && w != t { assert Apart(s, u, w); }
    }
    forall i: nat, j: nat ensures Ordered(s', i, j) {
      OrderedKeep(s, s', i, j);
    }
  }

  lemma ApplyInv(s: State, a: Action)
    requires Inv(s) && Enabled(s, a) && !Leftover(s, a)
    ensures Inv(Apply(s, a))
  {
    match a
    case Begin(t, kind, key) => BeginInv(s, Apply(s, a), t, kind, key, s.root);
    case BeginAt(t, kind, node) =>
      CellIs(s.heap, s.root, s.root);
      BeginInv(s, Apply(s, a), t, kind, s.heap[node].key, node);
    case Step(t, f1, f2) => StepInv(s, t, f1, f2);
  }

  /* ---- whole runs ---- */

  /** The states a run of actions goes through, each action enabled where it is taken. */
  ghost predicate IsRun(run: seq<State>, acts: seq<Action>) {
    && |run| == |acts| + 1
    && forall i | 0 <= i < |acts| :: Enabled(run[i], acts[i]) && run[i + 1] == Apply(run[i], acts[i])
  }

  /** No middle node is published with slots left from an earlier attempt. */
  ghost predicate NoLeftover(run: seq<State>, acts: seq<Action>)
    requires IsRun(run, acts)
  {
    forall i | 0 <= i < |acts| :: !Leftover(run[i], acts[i])
  }

  lemma InitInv(root: Gptr, rebuild: bool)
    requires root != 0
    ensures Inv(Init(root, rebuild))
  {
    var s := Init(root, rebuild);
    GrownSame(s.heap);
    forall p, x | p in s.heap && x in s.heap ensures Leads(s.heap, p, x) {}
    assert WellFormed(s.heap, root);
    forall i: nat, j: nat ensures Ordered(s, i, j) {}
  }

  lemma {:induction false} PrefixInv(run: seq<State>, acts: seq<Action>, i: nat)
    requires IsRun(run, acts) && Inv(run[0]) && i <= |acts|
    requires forall j | 0 <= j < i :: !Leftover(run[j], acts[j])
    ensures Inv(run[i])
  {
    if i > 0 {
      PrefixInv(run, acts, i - 1);
      ApplyInv(run[i - 1], acts[i - 1]);
    }
  }

  lemma RunInv(run: seq<State>, acts: seq<Action>, i: nat)
    requires IsRun(run, acts) && Inv(run[0]) && NoLeftover(run, acts) && i < |run|
    ensures Inv(run[i])
  {
    PrefixInv(run, acts, i);
  }

  /** With the middle node cleared before every attempt nothing is ever left over. */
  lemma RebuiltIsClean(s: State, a: Action)
    requires s.rebuild && Enabled(s, a)
    ensures !Leftover(s, a)
  {}

  lemma {:induction false} RunFacts(run: seq<State>, acts: seq<Action>, i: nat)
    requires IsRun(run, acts) && run[0].past == [] && i < |run|
    ensures |run[i].past| == i && run[i].root == run[0].root && run[i].rebuild == run[0].rebuild
    ensures forall j: nat | j <= i :: At(run[i], j) == run[j].heap
  {
    if i > 0 {
      RunFacts(run, acts, i - 1);
      assert run[i] == Apply(run[i - 1], acts[i - 1]);
      assert run[i].past == run[i - 1].past + [run[i - 1].heap];
      forall j: nat | j <= i ensures At(run[i], j) == run[j].heap {
        if j < i { assert At(run[i], j) == At(run[i - 1], j); }
      }
    }
  }

  /** Main result, for the code as it is: the tree is well formed throughout a run exactly when no swing of the run
      publishes a node with leftovers. */
  lemma {:induction false} RunExact(run: seq<State>, acts: seq<Action>)
    requires IsRun(run, acts) && run[0] == Init(run[0].root, run[0].rebuild) && run[0].root != 0
    ensures (forall i | 0 <= i < |run| :: WellFormed(run[i].heap, run[0].root)) <==> NoLeftover(run, acts)
  {
    InitInv(run[0].root, run[0].rebuild);
    if NoLeftover(run, acts) {
      forall i | 0 <= i < |run| ensures WellFormed(run[i].heap, run[0].root) {
        RunInv(run, acts, i);
        RunFacts(run, acts, i);
      }
    } else {
      var i :| 0 <= i < |acts| && Leftover(run[i], acts[i]);
      FirstLeftover(run, acts, i);
    }
  }

  lemma {:induction false} FirstLeftover(run: seq<State>, acts: seq<Action>, i: nat)
    requires IsRun(run, acts) && run[0].past == [] && Inv(run[0]) && i < |acts| && Leftover(run[i], acts[i])
    ensures exists j :: 0 <= j < |run| && !WellFormed(run[j].heap, run[0].root)
    decreases i
  {
    if j :| 0 <= j < i && Leftover(run[j], acts[j]) {
      FirstLeftover(run, acts, j);
    } else {
      PrefixInv(run, acts, i);
      RunFacts(run, acts, i);
      LeftoverBreaks(run[i], acts[i]);
      assert !WellFormed(run[i + 1].heap, run[0].root);
    }
  }

  lemma LeftoverBreaks(s: State, a: Action)
    requires Inv(s) && Enabled(s, a) && Leftover(s, a)
    ensures !WellFormed(Apply(s, a).heap, s.root)
  {
    assert OpOk(s, a.t);
    SwingExact(s.heap, s.root, s.rebuild, s.ops[a.t], a.f1, a.f2);
  }

  /** A run from the empty tree that never publishes leftovers. */
  ghost predicate Sound(run: seq<State>, acts: seq<Action>) {
    && IsRun(run, acts) && run[0] == Init(run[0].root, run[0].rebuild) && run[0].root != 0
    && (run[0].rebuild || NoLeftover(run, acts))
  }

  lemma {:induction false} SoundInv(run: seq<State>, acts: seq<Action>, i: nat)
    requires Sound(run, acts) && i < |run|
    ensures Inv(run[i]) && run[i].root == run[0].root
    ensures i < |acts| ==> !Leftover(run[i], acts[i])
  {
    InitInv(run[0].root, run[0].rebuild);
    forall j | 0 <= j < |acts| ensures !Leftover(run[j], acts[j]) {
      if run[0].rebuild {
        RunFacts(run, acts, j);
        RebuiltIsClean(run[j], acts[j]);
      }
    }
    RunInv(run, acts, i);
    RunFacts(run, acts, i);
  }

  /* ---- calls, by the action that began them ---- */

  predicate Begins(a: Action, t: nat) { !a.Step? && a.t == t }

  predicate StepsOf(a: Action, t: nat) { a.Step? && a.t == t }

  /** The key a call was begun with: given, or that of the node it was given. */
  function KeyOf(s: State, a: Action): Key
    requires Enabled(s, a) && !a.Step?
  {
    if a.Begin? then a.key else s.heap[a.node].key
  }

  /** Thread `t` began its call with action `b` and has begun no other before moment `i`. */
  ghost predicate Calls(run: seq<State>, acts: seq<Action>, b: nat, i: nat, t: nat) {
    && IsRun(run, acts) && run[0].past == []
    && b < i < |run| && Begins(acts[b], t) && forall j | b < j < i :: !Begins(acts[j], t)
  }

  predicate Returned(s: State, t: nat) { t in s.ops && (s.ops[t].pc.Ret? || s.ops[t].pc.Done?) }

  /** What a call was begun with. */
  ghost predicate SameCall(op: Op, op': Op) {
    op'.kind == op.kind && op'.key == op.key && op'.began == op.began
  }

  lemma LookKeepsCall(h: Heap, op: Op)
    requires op.q in h
    ensures SameCall(op, LookStep(h, op))
  {}

  lemma SplitKeepsCall(h: Heap, rebuild: bool, op: Op, f1: Gptr, f2: Gptr)
    requires op.pc.Split? && op.q in h && op.pc.i < |h[op.q].key| && op.pc.i <= |op.key|
    requires op.p in h && |h[op.p].key| < |op.key|
    ensures SameCall(op, SplitStep(h, rebuild, op, f1, f2).1)
  {
    assert SameCall(op, Fill(h, rebuild, op, f1, f2));
  }

  lemma StepKeepsCall(h: Heap, rebuild: bool, op: Op, f1: Gptr, f2: Gptr)
    ensures SameCall(op, StepOp(h, rebuild, op, f1, f2).1)
  {
    match op.pc
    case Look => if op.q in h { LookKeepsCall(h, op); }
    case Split(i) =>
      if op.p in h && |h[op.p].key| < |op.key| && op.q in h && i < |h[op.q].key| && i <= |op.key| {
        SplitKeepsCall(h, rebuild, op, f1, f2);
      }
    case _ =>
  }

  ghost predicate IsCall(s: State, t: nat, kind: Kind, key: Key, began: nat) {
    t in s.ops && s.ops[t].kind == kind && s.ops[t].key == key && s.ops[t].began == began
  }

  lemma CallGoesOn(s: State, a: Action, t: nat, kind: Kind, key: Key, began: nat)
    requires Enabled(s, a) && IsCall(s, t, kind, key, began) && !Begins(a, t)
    ensures IsCall(Apply(s, a), t, kind, key, began)
  {
    if StepsOf(a, t) { StepKeepsCall(s.heap, s.rebuild, s.ops[t], a.f1, a.f2); }
  }

  /** A call is of the kind, for the key and from the moment that its begin says. */
  lemma {:induction false} CallIs(run: seq<State>, acts: seq<Action>, b: nat, i: nat, t: nat)
    requires Calls(run, acts, b, i, t)
    ensures Enabled(run[b], acts[b]) && IsCall(run[i], t, acts[b].kind, KeyOf(run[b], acts[b]), b + 1)
    decreases i
  {
    if i == b + 1 {
      RunFacts(run, acts, b);
    } else {
      CallIs(run, acts, b, i - 1, t);
      CallGoesOn(run[i - 1], acts[i - 1], t, acts[b].kind, KeyOf(run[b], acts[b]), b + 1);
    }
  }

  /** Main result: what a call returns was the cell of the key it was begun with, at a moment after its begin; and the
      tree is well formed at every moment. */
  lemma ReturnsAreCurrent(run: seq<State>, acts: seq<Action>, b: nat, i: nat, t: nat)
    requires Sound(run, acts) && Calls(run, acts, b, i, t)
    ensures WellFormed(run[i].heap, run[0].root) && Enabled(run[b], acts[b])
    ensures Returned(run[i], t) ==>
      exists j :: b < j <= i && Cell(run[j].heap, KeyOf(run[b], acts[b])) == run[i].ops[t].pc.result
  {
    SoundInv(run, acts, i);
    RunFacts(run, acts, i);
    CallIs(run, acts, b, i, t);
    if Returned(run[i], t) {
      var op := run[i].ops[t];
      assert OpOk(run[i], t);
      var j :| op.began <= j <= |run[i].past| && Cell(At(run[i], j), op.key) == op.pc.result;
      assert Cell(run[j].heap, op.key) == op.pc.result;
    }
  }

  /** An action changes no cell, or it is the step of a writing call that sets the cell of that call's key, and no other,
      from what the call returns to its own value under the next tag. */
  lemma ActionsAreAtomic(run: seq<State>, acts: seq<Action>, i: nat)
    requires Sound(run, acts) && i < |acts|
    ensures
      || (run[i + 1].heap == run[i].heap && (acts[i].Step? ==>
          acts[i].t in run[i].ops && Quiet(run[i].ops[acts[i].t], run[i + 1].ops[acts[i].t])))
      || (acts[i].Step? && acts[i].t in run[i].ops && var op := run[i].ops[acts[i].t];
          && !op.kind.Reading? && !op.pc.Ret? && !op.pc.Done? && (op.kind.Clearing? ==> NodeOf(run[i].heap, op.key) != 0)
          && run[i + 1].ops[acts[i].t].pc == Ret(Cell(run[i].heap, op.key))
          && forall k :: Cell(run[i + 1].heap, k) == if k == op.key then Written(run[i].heap, op) else Cell(run[i].heap, k))
  {
    SoundInv(run, acts, i);
    if acts[i].Step? {
      StepWrites(run[i], acts[i].t, acts[i].f1, acts[i].f2);
    }
  }

  lemma RunGrown(run: seq<State>, acts: seq<Action>, i: nat, j: nat)
    requires Sound(run, acts) && i <= j < |run|
    ensures Grown(run[i].heap, run[j].heap)
    ensures WellFormed(run[i].heap, run[0].root) && WellFormed(run[j].heap, run[0].root)
  {
    SoundInv(run, acts, i);
    SoundInv(run, acts, j);
    RunFacts(run, acts, j);
    assert Ordered(run[j], i, j);
  }

  /** The node of a key, once published, is the only node of that key ever after, so a call that starts
      at a remembered node pointer works on the same cell as one that starts at the root. */
  lemma NodesAreForever(run: seq<State>, acts: seq<Action>, i: nat, j: nat, k: Key)
    requires Sound(run, acts) && i <= j < |run| && NodeOf(run[i].heap, k) != 0
    ensures NodeOf(run[j].heap, k) == NodeOf(run[i].heap, k)
    ensures Cell(run[j].heap, k) == run[j].heap[NodeOf(run[i].heap, k)].value
  {
    RunGrown(run, acts, i, j);
    assert NodeKept(run[i].heap, run[j].heap, NodeOf(run[i].heap, k));
    CellIs(run[j].heap, run[0].root, NodeOf(run[i].heap, k));
  }

  /** A cell that reads the same at two moments was not replaced in between. */
  lemma SameTagMeansUnchanged(run: seq<State>, acts: seq<Action>, i: nat, m: nat, j: nat, k: Key)
    requires Sound(run, acts) && i <= m <= j < |run| && NodeOf(run[i].heap, k) != 0
    requires Cell(run[i].heap, k) == Cell(run[j].heap, k)
    ensures Cell(run[m].heap, k) == Cell(run[i].heap, k)
  {
    var p := NodeOf(run[i].heap, k);
    NodesAreForever(run, acts, i, m, k);
    NodesAreForever(run, acts, i, j, k);
    RunGrown(run, acts, i, m);
    RunGrown(run, acts, m, j);
    assert NodeKept(run[i].heap, run[m].heap, p) && NodeKept(run[m].heap, run[j].heap, p);
  }

  /** A child slot never returns to a pointer it has left. */
  lemma SlotsNeverReturn(run: seq<State>, acts: seq<Action>, i: nat, m: nat, j: nat, p: Gptr, b: Byte)
    requires Sound(run, acts) && i <= m <= j < |run|
    requires p in run[i].heap && b in run[i].heap[p].child
    ensures p in run[m].heap && b in run[m].heap[p].child && p in run[j].heap && b in run[j].heap[p].child
    ensures run[m].heap[p].child[b] != run[i].heap[p].child[b] ==> run[j].heap[p].child[b] != run[i].heap[p].child[b]
  {
    RunGrown(run, acts, i, m);
    RunGrown(run, acts, m, j);
    assert NodeKept(run[i].heap, run[m].heap, p) && NodeKept(run[m].heap, run[j].heap, p);
    var c, c1, c2 := run[i].heap[p].child[b], run[m].heap[p].child[b], run[j].heap[p].child[b];
    assert SlotKept(run[i].heap, run[m].heap, c, c1) && SlotKept(run[m].heap, run[j].heap, c1, c2);
    if c1 != c {
      RunGrown(run, acts, i, j);
      assert NodeKept(run[i].heap, run[j].heap, c) && NodeKept(run[m].heap, run[j].heap, c1);
    }
  }
}
