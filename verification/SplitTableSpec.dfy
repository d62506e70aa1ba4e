/** What a caller of the split-ordered table sees (src/split_ordered.cc:420-532): calls, their answers, and the
    map the table stands for. The table compares only as many bytes as the stored key has
    (src/split_ordered.cc:226), so a stored key may answer for another key. */
module SplitTableSpec {

  import opened Common

  /** Callers hand keys over in a zero-filled buffer of this many bytes. */
  const BUFFER: nat := 40

  function Zeros(n: nat): (z: Key)
    ensures |z| == n
  {
    seq(n, i => 0)
  }

  function Padded(k: Key): (b: Key)
    requires |k| <= BUFFER
    ensures |b| == BUFFER && k <= b
  {
    k + Zeros(BUFFER - |k|)
  }

  /** memcmp over the stored key's length. */
  predicate Matches(stored: Key, k: Key)
    requires |k| <= BUFFER
  {
    |stored| <= BUFFER && stored == Padded(k)[..|stored|]
  }

  type Hash = Key -> nat

  /** The stored key `a` answers for the key `k`. */
  ghost predicate Answers(hash: Hash, a: Key, k: Key)
    requires |k| <= BUFFER
  {
    hash(a) == hash(k) && Matches(a, k)
  }

  lemma AnswersItself(hash: Hash, k: Key)
    requires |k| <= BUFFER
    ensures Answers(hash, k, k)
  {}

  datatype Call =
    | Insert(key: Key, value: nat)
    | Update(key: Key, value: nat)
    | Find(key: Key)
    | Delete(key: Key)

  ghost predicate Legal(call: Call) {
    |call.key| <= BUFFER && (call.Insert? || call.Update? ==> call.value != 0)
  }

  ghost predicate Unanswered(hash: Hash, m: map<Key, nat>, k: Key)
    requires |k| <= BUFFER
  {
    forall a | a in m :: !Answers(hash, a, k)
  }

  /** The table's answer to a call: `a` is the stored key that answers for the key of the call. */
  ghost predicate Hit(hash: Hash, m: map<Key, nat>, call: Call, a: Key, r: nat, m': map<Key, nat>)
    requires Legal(call)
  {
    && a in m && Answers(hash, a, call.key)
    && match call
       case Insert(k, v) => r == 0 && m' == m
       case Update(k, v) => r == 1 && m' == m[a := v]
       case Find(k) => r == m[a] && m' == m
       case Delete(k) => r == 1 && m' == m - {a}
  }

  ghost predicate Miss(hash: Hash, m: map<Key, nat>, call: Call, r: nat, m': map<Key, nat>)
    requires Legal(call)
  {
    && Unanswered(hash, m, call.key)
    && match call
       case Insert(k, v) => r == 1 && m' == m[k := v]
       case Update(k, v) => r == 1 && m' == m[k := v]
       case Find(k) => r == 0 && m' == m
       case Delete(k) => r == 0 && m' == m
  }

  ghost predicate Step(hash: Hash, m: map<Key, nat>, call: Call, r: nat, m': map<Key, nat>)
    requires Legal(call)
  {
    Miss(hash, m, call, r, m') || exists a :: Hit(hash, m, call, a, r, m')
  }

  /** What a map does. */
  ghost predicate MapStep(m: map<Key, nat>, call: Call, r: nat, m': map<Key, nat>) {
    var k := call.key;
    match call
    case Insert(_, v) => if k in m then r == 0 && m' == m else r == 1 && m' == m[k := v]
    case Update(_, v) => r == 1 && m' == m[k := v]
    case Find(_) => m' == m && r == if k in m then m[k] else 0
    case Delete(_) => m' == m - {k} && r == if k in m then 1 else 0
  }

  /** No two of the keys collide in such a way that one answers for the other. */
  ghost predicate Separated(hash: Hash, keys: iset<Key>) {
    forall a, b | a in keys && b in keys && |b| <= BUFFER && Answers(hash, a, b) :: a == b
  }

  lemma StepIsMapStep(hash: Hash, keys: iset<Key>, m: map<Key, nat>, call: Call, r: nat, m': map<Key, nat>)
    requires Separated(hash, keys) && Legal(call) && call.key in keys
    requires forall a | a in m :: a in keys
    requires Step(hash, m, call, r, m')
    ensures MapStep(m, call, r, m')
    ensures forall a | a in m' :: a in keys
  {
    AnswersItself(hash, call.key);
  }

  /** A run of the table: each call takes it from one content to the next. */
  ghost predicate Run(hash: Hash, calls: seq<Call>, rs: seq<nat>, ms: seq<map<Key, nat>>) {
    && |rs| == |calls| && |ms| == |calls| + 1 && ms[0] == map[]
    && forall i | 0 <= i < |calls| :: Legal(calls[i]) && Step(hash, ms[i], calls[i], rs[i], ms[i + 1])
  }

  ghost predicate UsesOnly(calls: seq<Call>, keys: iset<Key>) {
    forall i | 0 <= i < |calls| :: calls[i].key in keys
  }

  ghost predicate ActsAsMap(calls: seq<Call>, rs: seq<nat>, ms: seq<map<Key, nat>>)
    requires |rs| == |calls| && |ms| == |calls| + 1
  {
    forall i | 0 <= i < |calls| :: MapStep(ms[i], calls[i], rs[i], ms[i + 1])
  }

  lemma {:induction false} KeysStayIn(hash: Hash, keys: iset<Key>, calls: seq<Call>, rs: seq<nat>, ms: seq<map<Key, nat>>, i: nat)
    requires Separated(hash, keys) && Run(hash, calls, rs, ms) && UsesOnly(calls, keys) && i <= |calls|
    ensures forall a | a in ms[i] :: a in keys
  {
    if i > 0 {
      KeysStayIn(hash, keys, calls, rs, ms, i - 1);
      StepIsMapStep(hash, keys, ms[i - 1], calls[i - 1], rs[i - 1], ms[i]);
    }
  }

  /** With separated keys, every run over them is a run of a map. */
  lemma SeparatedActsAsMap(hash: Hash, keys: iset<Key>, calls: seq<Call>, rs: seq<nat>, ms: seq<map<Key, nat>>)
    requires Separated(hash, keys) && Run(hash, calls, rs, ms) && UsesOnly(calls, keys)
    ensures ActsAsMap(calls, rs, ms)
  {
    forall i | 0 <= i < |calls|
      ensures MapStep(ms[i], calls[i], rs[i], ms[i + 1])
    {
      KeysStayIn(hash, keys, calls, rs, ms, i);
      StepIsMapStep(hash, keys, ms[i], calls[i], rs[i], ms[i + 1]);
    }
  }

  /** Two keys that are not separated give a run that no map has: store the one, and look for the other. */
  lemma CollisionMisleads(hash: Hash, a: Key, b: Key, v: nat, rs: seq<nat>, ms: seq<map<Key, nat>>)
    requires |a| <= BUFFER && |b| <= BUFFER && a != b && Answers(hash, a, b) && v != 0
    requires Run(hash, [Insert(a, v), Find(b)], rs, ms)
    ensures rs[1] == v && b !in ms[1] && !ActsAsMap([Insert(a, v), Find(b)], rs, ms)
  {
    var calls := [Insert(a, v), Find(b)];
    assert Step(hash, ms[0], calls[0], rs[0], ms[1]);
    assert ms[1] == map[a := v];
    assert Step(hash, ms[1], calls[1], rs[1], ms[2]);
    assert a in ms[1];
    assert !MapStep(ms[1], calls[1], rs[1], ms[2]);
  }

  /** The table is a map on a set of keys, for all runs, exactly when no two of them collide that way. */
  lemma MapExactlyWhenSeparated(hash: Hash, keys: iset<Key>)
    requires forall k | k in keys :: |k| <= BUFFER
    ensures Separated(hash, keys) <==>
            (forall calls, rs, ms | Run(hash, calls, rs, ms) && UsesOnly(calls, keys) :: ActsAsMap(calls, rs, ms))
  {
    if Separated(hash, keys) {
      forall calls, rs, ms | Run(hash, calls, rs, ms) && UsesOnly(calls, keys)
        ensures ActsAsMap(calls, rs, ms)
      {
        SeparatedActsAsMap(hash, keys, calls, rs, ms);
      }
    } else {
      var a, b :| a in keys && b in keys && Answers(hash, a, b) && a != b;
      var calls := [Insert(a, 7), Find(b)];
      var rs, ms := [1, 7], [map[], map[a := 7], map[a := 7]];
      assert Miss(hash, ms[0], calls[0], rs[0], ms[1]);
      assert Hit(hash, ms[1], calls[1], a, rs[1], ms[2]);
      assert Run(hash, calls, rs, ms);
      assert UsesOnly(calls, keys);
      CollisionMisleads(hash, a, b, 7, rs, ms);
    }
  }
}
