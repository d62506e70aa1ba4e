/** Who owns a value buffer (src/kvs_radix_tree.cc): the store allocates one per put, installs it through
    the tree and hands the one it displaced to delayed free. */
module KvsBuffers {
  import opened Common
  import opened RadixHeap
  import opened RadixSteps

  /** The places a buffer can be: with a put that has not installed it, in the cell of a key, with a call
      that has displaced it, or the i-th buffer handed to delayed free. */
  datatype Place = Held(t: nat) | Stored(k: Key) | Taken(t: nat) | Released(i: nat)

  ghost predicate Lies(s: State, b: Gptr, w: Place) {
    match w
    case Held(t) => t in s.ops && s.ops[t].kind == Writing(b) && !s.ops[t].pc.Ret? && !s.ops[t].pc.Done?
    case Stored(k) => Cell(s.heap, k).ptr == b
    case Taken(t) => t in s.ops && Displaced(s.ops[t]) == [b]
    case Released(i) => i < |s.freed| && s.freed[i] == b
  }

  /** An allocated buffer is in exactly one place; nothing else is anywhere. */
  ghost predicate Single(s: State, b: Gptr) {
    && (b in s.bufs ==> exists w :: Lies(s, b, w))
    && (forall w | Lies(s, b, w) :: b in s.bufs)
    && (forall w, w' | Lies(s, b, w) && Lies(s, b, w') :: w == w')
  }

  ghost predicate Owned(s: State) {
    && 0 !in s.bufs && (forall t | t in s.ops && s.ops[t].kind.Writing? :: s.ops[t].kind.value != 0)
    && forall b: Gptr {:trigger Single(s, b)} | b != 0 :: Single(s, b)
  }

  /** If every place in the new state comes from a place in the old one, and different places from
      different ones, and the old place has a successor, then the buffer is still in exactly one place. */
  lemma Carried(s: State, s': State, b: Gptr, back: Place -> Place, forth: Place -> Place)
    requires Single(s, b) && (b in s'.bufs <==> b in s.bufs)
    requires forall w | Lies(s', b, w) :: Lies(s, b, back(w)) && forth(back(w)) == w
    requires forall w | Lies(s, b, w) :: Lies(s', b, forth(w))
    ensures Single(s', b)
  {
    if b in s'.bufs {
      var w :| Lies(s, b, w);
      assert Lies(s', b, forth(w));
    }
    forall w, w' | Lies(s', b, w) && Lies(s', b, w') ensures w == w' {
      assert Lies(s, b, back(w)) && Lies(s, b, back(w'));
    }
  }

  /** A step that writes moves the call's own buffer into the cell and the displaced one to the call. */
  lemma WriteMoves(s: State, s': State, t: nat, b: Gptr)
    requires b != 0 && Single(s, b) && t in s.ops && s'.bufs == s.bufs && s'.freed == s.freed
    requires var op := s.ops[t];
      && !op.kind.Reading? && !op.pc.Ret? && !op.pc.Done? && (op.kind.Writing? ==> op.kind.value != 0)
      && s'.ops == s.ops[t := Return(op, Cell(s.heap, op.key))]
      && forall k :: Cell(s'.heap, k) == if k == op.key then Written(s.heap, op) else Cell(s.heap, k)
    ensures Single(s', b)
  {
    var op := s.ops[t];
    var back := (w: Place) =>
      if w == Taken(t) then Stored(op.key) else if w == Stored(op.key) then Held(t) else w;
    var forth := (w: Place) =>
      if w == Held(t) then Stored(op.key) else if w == Stored(op.key) then Taken(t) else w;
    Carried(s, s', b, back, forth);
  }

  /** A step that frees moves the displaced buffer to the end of the free list. */
  lemma FreeMoves(s: State, s': State, t: nat, b: Gptr)
    requires b != 0 && Single(s, b) && t in s.ops && s'.bufs == s.bufs && s'.heap == s.heap
    requires s.ops[t].pc.Ret? && s'.ops == s.ops[t := s.ops[t].(pc := Done(s.ops[t].pc.result))]
    requires s'.freed == s.freed + Displaced(s.ops[t])
    ensures Single(s', b)
  {
    var n := |s.freed|;
    var back := (w: Place) => if w == Released(n) then Taken(t) else w;
    var forth := (w: Place) => if w == Taken(t) then Released(n) else w;
    Carried(s, s', b, back, forth);
  }

  lemma QuietMoves(s: State, s': State, t: nat, b: Gptr)
    requires b != 0 && Single(s, b) && t in s.ops && s'.bufs == s.bufs && s'.heap == s.heap && s'.freed == s.freed
    requires !s.ops[t].pc.Ret? && t in s'.ops && s'.ops == s.ops[t := s'.ops[t]] && Quiet(s.ops[t], s'.ops[t])
    ensures Single(s', b)
  {
    Carried(s, s', b, w => w, w => w);
  }

  lemma BeginMoves(s: State, s': State, t: nat, op: Op, b: Gptr)
    requires b != 0 && Single(s, b) && Idle(s, t) && s'.heap == s.heap && s'.freed == s.freed
    requires op.pc.Look? && s'.ops == s.ops[t := op]
    requires op.kind.Writing? ==> op.kind.value !in s.bufs
    requires s'.bufs == if op.kind.Writing? then s.bufs + {op.kind.value} else s.bufs
    ensures Single(s', b)
  {
    if op.kind == Writing(b) {
      assert Lies(s', b, Held(t));
      forall w | Lies(s', b, w) ensures w == Held(t) {
        assert w != Held(t) ==> Lies(s, b, w);
      }
    } else {
      Carried(s, s', b, w => w, w => w);
    }
  }

  lemma ApplyOwned(s: State, a: Action)
    requires Inv(s) && Owned(s) && Enabled(s, a) && !Leftover(s, a)
    ensures Owned(Apply(s, a))
  {
    var s' := Apply(s, a);
    match a
    case Begin(t, kind, key) =>
      forall b: Gptr | b != 0 ensures Single(s', b) { assert Single(s, b); BeginMoves(s, s', t, s'.ops[t], b); }
    case BeginAt(t, kind, node) =>
      forall b: Gptr | b != 0 ensures Single(s', b) { assert Single(s, b); BeginMoves(s, s', t, s'.ops[t], b); }
    case Step(t, f1, f2) =>
      StepOwned(s, t, f1, f2);
  }

  lemma StepOwned(s: State, t: nat, f1: Gptr, f2: Gptr)
    requires Inv(s) && Owned(s) && Enabled(s, Step(t, f1, f2)) && !Leftover(s, Step(t, f1, f2))
    ensures Owned(Apply(s, Step(t, f1, f2)))
  {
    var s' := Apply(s, Step(t, f1, f2));
    var op := s.ops[t];
    StepWrites(s, t, f1, f2);
    forall b: Gptr | b != 0 ensures Single(s', b) {
      assert Single(s, b);
      if op.pc.Ret? {
        FreeMoves(s, s', t, b);
      } else if s'.heap == s.heap && Quiet(op, s'.ops[t]) {
        QuietMoves(s, s', t, b);
      } else {
        WriteMoves(s, s', t, b);
      }
    }
  }

  lemma {:induction false} RunOwned(run: seq<State>, acts: seq<Action>, i: nat)
    requires Sound(run, acts) && i < |run|
    ensures Owned(run[i])
  {
    if i == 0 {
      forall k ensures Cell(run[0].heap, k) == Nil {}
    } else {
      RunOwned(run, acts, i - 1);
      SoundInv(run, acts, i - 1);
      ApplyOwned(run[i - 1], acts[i - 1]);
    }
  }

  /** Main result: in every run, every allocated buffer is in exactly one place; no buffer is handed to
      delayed free twice, and none that is reachable through a cell or still with a call has been freed. */
  lemma BuffersAreOwnedOnce(run: seq<State>, acts: seq<Action>, i: nat)
    requires Sound(run, acts) && i < |run|
    ensures forall b | b in run[i].bufs :: exists w :: Lies(run[i], b, w)
    ensures forall b, w, w' | b != 0 && Lies(run[i], b, w) && Lies(run[i], b, w') :: w == w'
    ensures forall m, n | 0 <= m < n < |run[i].freed| && run[i].freed[m] != 0 :: run[i].freed[m] != run[i].freed[n]
    ensures forall k, m | 0 <= m < |run[i].freed| && Cell(run[i].heap, k).IsValid() ::
      Cell(run[i].heap, k).ptr != run[i].freed[m]
  {
    RunOwned(run, acts, i);
    var s := run[i];
    forall b | b in s.bufs ensures exists w :: Lies(s, b, w) { assert Single(s, b); }
    forall b, w, w' | b != 0 && Lies(s, b, w) && Lies(s, b, w') ensures w == w' { assert Single(s, b); }
    forall m, n | 0 <= m < n < |s.freed| && s.freed[m] != 0 ensures s.freed[m] != s.freed[n] {
      assert Single(s, s.freed[m]) && Lies(s, s.freed[m], Released(m));
      assert Lies(s, s.freed[n], Released(n));
    }
    forall k, m | 0 <= m < |s.freed| && Cell(s.heap, k).IsValid() ensures Cell(s.heap, k).ptr != s.freed[m] {
      assert Single(s, Cell(s.heap, k).ptr) && Lies(s, Cell(s.heap, k).ptr, Stored(k));
      assert Lies(s, s.freed[m], Released(m));
    }
  }
}
