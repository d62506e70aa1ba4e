/** Values shared by the modules: global pointers, key bytes, tagged pointers, and small facts about collections. */
module Common {

  /** A global pointer into the shared heap; 0 is the null pointer. */
  type Gptr = nat

  type Byte = b: nat | b < 256

  type Key = seq<Byte>

  /** A pointer and the version tag stored next to it; both halves are read and swapped as one word. */
  datatype TagGptr = TagGptr(ptr: Gptr, tag: nat) {
    predicate IsValid() { ptr != 0 }
  }

  const Nil := TagGptr(0, 0)

  /** Bytes on which `a` and `b` agree before they differ or one ends. */
  function Agree(a: Key, b: Key): (i: nat)
    ensures i <= |a| && i <= |b| && a[..i] == b[..i]
    ensures i < |a| && i < |b| ==> a[i] != b[i]
  {
    if a == [] || b == [] || a[0] != b[0] then 0
    else
      var i := 1 + Agree(a[1..], b[1..]);
      assert a[..i] == [a[0]] + a[1..][..i-1];
      assert b[..i] == [b[0]] + b[1..][..i-1];
      i
  }

  lemma AgreeIs(a: Key, b: Key, i: nat)
    requires i <= |a| && i <= |b| && a[..i] == b[..i] && (i < |a| && i < |b| ==> a[i] != b[i])
    ensures Agree(a, b) == i
  {
    var j := Agree(a, b);
    assert forall x | 0 <= x < i :: a[x] == a[..i][x] && b[x] == b[..i][x];
    assert forall x | 0 <= x < j :: a[x] == a[..j][x] && b[x] == b[..j][x];
  }

  /** Byte order of keys, a key before its extensions. */
  predicate Less(a: Key, b: Key) {
    var i := Agree(a, b);
    i < |b| && (i == |a| || a[i] < b[i])
  }

  lemma LessAt(a: Key, b: Key, i: nat)
    requires i <= |a| && i < |b| && a[..i] == b[..i] && (i == |a| || a[i] < b[i])
    ensures Less(a, b)
  {
    AgreeIs(a, b, i);
  }

  lemma LessTotal(a: Key, b: Key)
    ensures a == b || Less(a, b) || Less(b, a)
    ensures !(Less(a, b) && Less(b, a)) && !Less(a, a)
  {
    var i := Agree(a, b);
    AgreeIs(b, a, i);
    AgreeIs(a, a, |a|);
    if i == |a| == |b| {
      assert a == a[..i] == b[..i] == b;
    }
  }

  lemma LessTrans(a: Key, b: Key, c: Key)
    requires Less(a, b) && Less(b, c)
    ensures Less(a, c)
  {
    var i, j := Agree(a, b), Agree(b, c);
    var m := if i <= j then i else j;
    assert a[..m] == a[..i][..m] == b[..m] == b[..j][..m] == c[..m];
    LessAt(a, c, m);
  }

  /* ---- collections ---- */

  datatype Option<T> = None | Some(value: T)

  ghost predicate NoDup<T>(s: seq<T>) {
    forall i, j | 0 <= i < j < |s| :: s[i] != s[j]
  }

  /** A number beyond all of a finite set. */
  lemma {:induction false} AboveAll(used: set<nat>) returns (n: nat)
    ensures n > 0 && forall x | x in used :: x < n
  {
    if used == {} {
      n := 1;
    } else {
      var x :| x in used;
      var m := AboveAll(used - {x});
      n := if m <= x then x + 1 else m;
      forall y | y in used ensures y < n {
        if y != x { assert y in used - {x}; }
      }
    }
  }

  lemma {:induction false} SubsetSize<T>(a: set<T>, b: set<T>)
    requires a <= b
    ensures |a| <= |b|
  {
    if a != {} {
      var x :| x in a;
      SubsetSize(a - {x}, b - {x});
    }
  }
}
