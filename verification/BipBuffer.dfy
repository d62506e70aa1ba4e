/** The two-region byte buffer between the worker threads and the logger (extra/KVS-DRAM-Cache/bipbuffer.c:23-179;
    extra/KVS-DRAM-Cache/logger.c:305-336). Region A is read first; region B, at the start of the buffer, takes over
    when it has more room than is left behind A. */
module BipBuffer {

  import opened Common

  /** The cursors of the buffer. */
  datatype Cursors = Cursors(size: nat, aStart: nat, aEnd: nat, bEnd: nat, bInUse: bool)

  /** Region B ends before region A starts and an empty region A is at the start. Region B is in use exactly when there is
      more room before A than behind it. */
  ghost predicate WellFormed(c: Cursors) {
    && c.bEnd <= c.aStart <= c.aEnd <= c.size
    && (c.aStart == c.aEnd ==> c.aStart == 0)
    && (c.bInUse <==> c.size - c.aEnd < c.aStart)
    && (!c.bInUse ==> c.bEnd == 0)
  }

  /** The room there is for one offer, by where the regions lie: in the larger of the gaps behind and before region A, less
      what region B has taken of the latter. */
  function Room(c: Cursors): int {
    if c.aStart <= c.size - c.aEnd then c.size - c.aEnd else c.aStart - c.bEnd
  }

  /** bipbuf_unused. */
  function Unused(c: Cursors): int {
    if c.bInUse then c.aStart - c.bEnd else c.size - c.aEnd
  }

  /** bipbuf_used. */
  function Used(c: Cursors): int { c.aEnd - c.aStart + c.bEnd }

  /** bipbuf_is_empty. */
  predicate IsEmpty(c: Cursors) { c.aStart == c.aEnd }

  /** The switch to region B. */
  function Switched(c: Cursors): Cursors {
    if c.size - c.aEnd < c.aStart - c.bEnd then c.(bInUse := true) else c
  }

  /** Where the next bytes are written. */
  function Place(c: Cursors): nat { if c.bInUse then c.bEnd else c.aEnd }

  /** bipbuf_push. */
  function Pushed(c: Cursors, n: nat): Cursors {
    Switched(if c.bInUse then c.(bEnd := c.bEnd + n) else c.(aEnd := c.aEnd + n))
  }

  /** bipbuf_poll; it refuses only what lies beyond the end of the whole buffer. */
  function Polled(c: Cursors, n: nat): Option<Cursors> {
    if IsEmpty(c) || c.size < c.aStart + n then None
    else if c.aStart + n == c.aEnd then
      Some(Switched(if c.bInUse then Cursors(c.size, 0, c.bEnd, 0, false) else c.(aStart := 0, aEnd := 0)))
    else Some(Switched(c.(aStart := c.aStart + n)))
  }

  /** The bytes in the buffer, in the order in which they come out. */
  function Contents(c: Cursors, data: seq<Byte>): seq<Byte>
    requires c.bEnd <= |data| && c.aStart <= c.aEnd <= |data|
  {
    data[c.aStart..c.aEnd] + data[..c.bEnd]
  }

  lemma UsedIsLength(c: Cursors, data: seq<Byte>)
    requires WellFormed(c) && |data| == c.size
    ensures |Contents(c, data)| == Used(c) && (IsEmpty(c) <==> Contents(c, data) == [])
  {}

  /** bipbuf_unused goes by the flag, and tells the room there is; an empty buffer has room for its whole size. */
  lemma UnusedIsRoom(c: Cursors)
    requires WellFormed(c)
    ensures Unused(c) == Room(c)
    ensures c.bEnd == 0 ==> Room(c) >= c.size - c.aEnd && Room(c) >= c.aStart
    ensures IsEmpty(c) ==> Room(c) == c.size
  {}

  /** A push that fits appends what stands at the place for it. */
  lemma PushAppends(c: Cursors, data: seq<Byte>, n: nat)
    requires WellFormed(c) && |data| == c.size && n <= Unused(c)
    ensures WellFormed(Pushed(c, n)) && Place(c) + n <= c.size
    ensures Contents(Pushed(c, n), data) == Contents(c, data) + data[Place(c)..Place(c) + n]
    ensures Pushed(c, n).aStart == c.aStart && data[c.aStart..c.aEnd] <= data[c.aStart..Pushed(c, n).aEnd]
  {}

  /** The first bytes are the first bytes of region A. */
  lemma FrontIsA(c: Cursors, data: seq<Byte>, n: nat)
    requires WellFormed(c) && |data| == c.size && n <= c.aEnd - c.aStart
    ensures Contents(c, data) == data[c.aStart..c.aStart + n] + Contents(c, data)[n..]
  {
    assert Contents(c, data)[..n] == data[c.aStart..c.aStart + n];
  }

  /** The place for new bytes is outside both regions. */
  lemma PlaceIsFree(c: Cursors, data: seq<Byte>, data': seq<Byte>, n: nat)
    requires WellFormed(c) && |data| == |data'| == c.size && n <= Unused(c)
    requires forall i | 0 <= i < c.size && !(Place(c) <= i < Place(c) + n) :: data'[i] == data[i]
    ensures Contents(c, data') == Contents(c, data) && data'[c.aStart..c.aEnd] == data[c.aStart..c.aEnd]
  {}

  /** A poll of no more than region A drops a prefix; a longer one that is not refused breaks the buffer. */
  lemma PollExact(c: Cursors, data: seq<Byte>, n: nat)
    requires WellFormed(c) && |data| == c.size && Polled(c, n).Some?
    ensures n <= c.aEnd - c.aStart <==> WellFormed(Polled(c, n).value)
    ensures n <= c.aEnd - c.aStart ==> Contents(Polled(c, n).value, data) == Contents(c, data)[n..]
  {
    if n <= c.aEnd - c.aStart {
      var all := Contents(c, data);
      assert all[n..] == data[c.aStart + n..c.aEnd] + data[..c.bEnd];
    }
  }

  /** Three bytes in a buffer of eight: a poll of five is not refused, and leaves cursors that are no regions. */
  lemma PollTooLong()
    ensures var c := Cursors(8, 0, 3, 0, false);
      WellFormed(c) && Polled(c, 5) == Some(Cursors(8, 5, 3, 0, false)) && !WellFormed(Polled(c, 5).value)
  {}

  class Buffer {

    const data: array<Byte>
    var c: Cursors

    ghost predicate Valid()
      reads this
    {
      WellFormed(c) && data.Length == c.size
    }

    ghost function Bytes(): seq<Byte>
      requires Valid()
      reads this, data
    {
      Contents(c, data[..])
    }

    /** Region A, which is what a reader is given. */
    ghost function RegionA(): seq<Byte>
      requires Valid()
      reads this, data
    {
      data[..][c.aStart..c.aEnd]
    }

    constructor (size: nat)
      ensures Valid() && Bytes() == [] && fresh(data)
    {
      data := new Byte[size](i => 0);
      c := Cursors(size, 0, 0, 0, false);
    }

    /** bipbuf_request, and the bytes that the caller then writes there; nothing in the buffer changes yet. */
    method Write(bytes: seq<Byte>) returns (ok: bool)
      requires Valid()
      modifies data
      ensures Valid() && ok == (|bytes| <= Unused(c)) && Bytes() == old(Bytes()) && RegionA() == old(RegionA())
      ensures ok ==> Place(c) + |bytes| <= c.size && data[..][Place(c)..Place(c) + |bytes|] == bytes
    {
      if Unused(c) < |bytes| { return false; }
      var p := Place(c);
      for i := 0 to |bytes|
        invariant forall j | 0 <= j < data.Length :: data[j] == if p <= j < p + i then bytes[j - p] else old(data[j])
      {
        data[p + i] := bytes[i];
      }
      PlaceIsFree(c, old(data[..]), data[..], |bytes|);
      return true;
    }

    /** bipbuf_push. */
    method Push(n: nat) returns (r: nat)
      requires Valid()
      modifies this`c
      ensures Valid() && c.aStart == old(c.aStart) && old(RegionA()) <= RegionA()
      ensures n > old(Unused(c)) ==> r == 0 && c == old(c)
      ensures n <= old(Unused(c)) ==> r == n && old(Place(c)) + n <= c.size
      ensures n <= old(Unused(c)) ==> Bytes() == old(Bytes()) + data[..][old(Place(c))..old(Place(c)) + n]
    {
      if Unused(c) < n { return 0; }
      PushAppends(c, data[..], n);
      c := Pushed(c, n);
      return n;
    }

    /** bipbuf_offer: all of the bytes are appended, or none. */
    method Offer(bytes: seq<Byte>) returns (r: nat)
      requires Valid()
      modifies this`c, data
      ensures Valid() && (r == |bytes| || r == 0)
      ensures Bytes() == old(Bytes()) + bytes[..r]
      ensures r == |bytes| <==> |bytes| <= old(Room(c))
      ensures c.aStart == old(c.aStart) && old(RegionA()) <= RegionA()
    {
      UnusedIsRoom(c);
      var ok := Write(bytes);
      if !ok { return 0; }
      r := Push(|bytes|);
    }

    /** bipbuf_peek_all: where region A is, if there is anything. */
    method PeekAll() returns (r: Option<(nat, nat)>)
      requires Valid()
      ensures r == None <==> Bytes() == []
      ensures r.Some? ==> r.value.0 + r.value.1 <= c.size && data[..][r.value.0..r.value.0 + r.value.1] == RegionA() <= Bytes()
      ensures r.Some? ==> r.value == (c.aStart, c.aEnd - c.aStart) && r.value.1 > 0
    {
      UsedIsLength(c, data[..]);
      if IsEmpty(c) { return None; }
      return Some((c.aStart, c.aEnd - c.aStart));
    }

    /** bipbuf_poll. It is a FIFO's removal exactly when it asks for no more than region A. */
    method Poll(n: nat) returns (r: Option<nat>)
      requires Valid()
      modifies this`c
      ensures r == None <==> old(Bytes()) == [] || old(c.aStart) + n > old(c.size)
      ensures r == None ==> c == old(c)
      ensures r.Some? ==> r == Some(old(c.aStart)) && (Valid() <==> n <= |old(RegionA())|)
      ensures r.Some? && Valid() ==> Bytes() == old(Bytes())[n..]
    {
      UsedIsLength(c, data[..]);
      var p := Polled(c, n);
      if p == None { return None; }
      PollExact(c, data[..], n);
      r := Some(c.aStart);
      c := p.value;
    }

    /** The poll that takes out what a peek has shown. */
    method PollPeeked(n: nat)
      requires Valid() && 0 < n <= |RegionA()|
      modifies this`c
      ensures Valid() && Bytes() == old(Bytes())[n..]
    {
      UsedIsLength(c, data[..]);
      var _ := Poll(n);
    }

    /** The reader looks at the first bytes of region A. */
    method Front(n: nat) returns (bytes: seq<Byte>)
      requires Valid() && n <= |RegionA()|
      ensures bytes == RegionA()[..n] && Bytes() == bytes + Bytes()[n..]
    {
      FrontIsA(c, data[..], n);
      bytes := data[c.aStart..c.aStart + n];
    }

    /** Any number of offers: region A only grows at its end. */
    method OfferAll(offers: seq<seq<Byte>>) returns (ghost added: seq<Byte>)
      requires Valid()
      modifies this`c, data
      ensures Valid() && Bytes() == old(Bytes()) + added
      ensures c.aStart == old(c.aStart) && old(RegionA()) <= RegionA()
    {
      added := [];
      for i := 0 to |offers|
        invariant Valid() && Bytes() == old(Bytes()) + added && c.aStart == old(c.aStart) && old(RegionA()) <= RegionA()
      {
        ghost var before := Bytes();
        var r := Offer(offers[i]);
        assert Bytes() == old(Bytes()) + (added + offers[i][..r]);
        added := added + offers[i][..r];
      }
    }

    /** The logger's reading cycle: peek, let the workers offer, and poll what was peeked. What was peeked is still in
        place after the offers, and exactly that is taken out. */
    method ReadCycle(offers: seq<seq<Byte>>) returns (got: seq<Byte>, ghost added: seq<Byte>)
      requires Valid()
      modifies this`c, data
      ensures Valid() && old(Bytes()) + added == got + Bytes()
      ensures got == old(RegionA())
    {
      var peek := PeekAll();
      ghost var a := RegionA();
      added := OfferAll(offers);
      if peek == None {
        return [], added;
      }
      var n := peek.value.1;
      got := Front(n);
      ghost var all := Bytes();
      PollPeeked(n);
      assert all == got + Bytes();
    }
  }
}
