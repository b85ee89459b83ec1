/** The bounded ring of 12-byte records in shared memory.

    Layout: capacity (4 bytes), head count (8), tail count (8), working flag (4), then the records.
    Both counts only grow; record `i` lives in slot `i % cap`.
 */
module Ring {
  import opened Basics
  import opened Bytes

  const HEADER_LENGTH := 24
  const ELEMENT_LEN := 12

  datatype Element = Element(seqId: nat, offset: nat, status: nat)

  predicate Fits(e: Element) {
    e.seqId < U32_LIMIT && e.offset < U32_LIMIT && e.status < U32_LIMIT
  }

  // ---------------------------------------------------------------------------------------------
  // Reading a queue out of memory
  // ---------------------------------------------------------------------------------------------

  predicate InMemory(m: seq<Byte>, base: nat) {
    base + HEADER_LENGTH <= |m| && base + HEADER_LENGTH + ELEMENT_LEN * Cap(m, base) <= |m|
  }

  function Cap(m: seq<Byte>, base: nat): nat
    requires base + HEADER_LENGTH <= |m|
  {
    Load(m, base, 4)
  }

  function Head(m: seq<Byte>, base: nat): nat
    requires base + HEADER_LENGTH <= |m|
  {
    Load(m, base + 4, 8)
  }

  function Tail(m: seq<Byte>, base: nat): nat
    requires base + HEADER_LENGTH <= |m|
  {
    Load(m, base + 12, 8)
  }

  function Flag(m: seq<Byte>, base: nat): nat
    requires base + HEADER_LENGTH <= |m|
  {
    Load(m, base + 20, 4)
  }

  function Slot(base: nat, cap: nat, i: nat): (off: nat)
    requires cap > 0
    ensures base + HEADER_LENGTH <= off && off + ELEMENT_LEN <= base + HEADER_LENGTH + ELEMENT_LEN * cap
  {
    base + HEADER_LENGTH + ELEMENT_LEN * (i % cap)
  }

  function Record(m: seq<Byte>, base: nat, i: nat): Element
    requires InMemory(m, base) && Cap(m, base) > 0
  {
    var off := Slot(base, Cap(m, base), i);
    Element(Load(m, off, 4), Load(m, off + 4, 4), Load(m, off + 8, 4))
  }

  predicate Valid(m: seq<Byte>, base: nat) {
    InMemory(m, base) && Head(m, base) <= Tail(m, base) <= Head(m, base) + Cap(m, base)
  }

  /** The queue a ring stands for: the records from head to tail. */
  function Contents(m: seq<Byte>, base: nat): (q: seq<Element>)
    requires Valid(m, base)
    ensures |q| == Tail(m, base) - Head(m, base) <= Cap(m, base)
  {
    seq(Tail(m, base) - Head(m, base), k requires 0 <= k < Tail(m, base) - Head(m, base) =>
      Record(m, base, Head(m, base) + k))
  }

  lemma SameSlot(cap: nat, i: nat, j: nat)
    requires cap > 0 && i <= j && i % cap == j % cap
    ensures j == i || j - i >= cap
  {
    var d := j / cap - i / cap;
    assert j - i == d * cap;
    assert d >= 1 ==> d * cap >= cap;
    assert d < 0 ==> d * cap < 0;
  }

  /** Live slots are pairwise different, and different from the slot the next put writes. */
  lemma SlotsApart(base: nat, cap: nat, i: nat, j: nat)
    requires i < j < i + cap
    ensures Slot(base, cap, i) + ELEMENT_LEN <= Slot(base, cap, j) || Slot(base, cap, j) + ELEMENT_LEN <= Slot(base, cap, i)
  {
    if i % cap == j % cap { SameSlot(cap, i, j); }
  }

  // ---------------------------------------------------------------------------------------------
  // The memory a put or a pop leaves
  // ---------------------------------------------------------------------------------------------

  function PutBytes(m: seq<Byte>, base: nat, e: Element): (r: seq<Byte>)
    requires Valid(m, base) && Tail(m, base) - Head(m, base) < Cap(m, base)
    ensures |r| == |m|
  {
    var off := Slot(base, Cap(m, base), Tail(m, base));
    var m1 := Store(m, off, e.seqId, 4);
    var m2 := Store(m1, off + 4, e.offset, 4);
    var m3 := Store(m2, off + 8, e.status, 4);
    Store(m3, base + 12, Tail(m, base) + 1, 8)
  }

  function PopBytes(m: seq<Byte>, base: nat): (r: seq<Byte>)
    requires Valid(m, base)
    ensures |r| == |m|
  {
    Store(m, base + 4, Head(m, base) + 1, 8)
  }

  lemma PutHeader(m: seq<Byte>, base: nat, e: Element)
    requires Valid(m, base) && Tail(m, base) - Head(m, base) < Cap(m, base)
    requires Tail(m, base) + 1 < I64_LIMIT
    ensures var r := PutBytes(m, base, e);
            Cap(r, base) == Cap(m, base) && Head(r, base) == Head(m, base)
            && Tail(r, base) == Tail(m, base) + 1 && Flag(r, base) == Flag(m, base)
  {
    hide Load;
    hide Store;
    var off := Slot(base, Cap(m, base), Tail(m, base));
    var m1 := Store(m, off, e.seqId, 4);
    var m2 := Store(m1, off + 4, e.offset, 4);
    var m3 := Store(m2, off + 8, e.status, 4);
    var t := Tail(m, base) + 1;
    Widths();
    LoadStored(m3, base + 12, t, 8);
    Elsewhere4(m, off, e, base, 4);
    Elsewhere4(m, off, e, base + 4, 8);
    Elsewhere4(m, off, e, base + 20, 4);
    LoadElsewhere(m3, base + 12, t, 8, base, 4);
    LoadElsewhere(m3, base + 12, t, 8, base + 4, 8);
    LoadElsewhere(m3, base + 12, t, 8, base + 20, 4);
  }

  function WriteRecord(m: seq<Byte>, off: nat, e: Element): (r: seq<Byte>)
    requires off + ELEMENT_LEN <= |m|
    ensures |r| == |m|
  {
    Store(Store(Store(m, off, e.seqId, 4), off + 4, e.offset, 4), off + 8, e.status, 4)
  }

  lemma Elsewhere4(m: seq<Byte>, off: nat, e: Element, at: nat, n: nat)
    requires off + ELEMENT_LEN <= |m| && at + n <= |m|
    requires at + n <= off || off + ELEMENT_LEN <= at
    ensures Load(WriteRecord(m, off, e), at, n) == Load(m, at, n)
  {
    var m1 := Store(m, off, e.seqId, 4);
    var m2 := Store(m1, off + 4, e.offset, 4);
    LoadElsewhere(m, off, e.seqId, 4, at, n);
    LoadElsewhere(m1, off + 4, e.offset, 4, at, n);
    LoadElsewhere(m2, off + 8, e.status, 4, at, n);
  }

  lemma RecordWritten(m: seq<Byte>, off: nat, e: Element)
    requires off + ELEMENT_LEN <= |m| && Fits(e)
    ensures var r := WriteRecord(m, off, e);
            Element(Load(r, off, 4), Load(r, off + 4, 4), Load(r, off + 8, 4)) == e
  {
    Widths();
    var m1 := Store(m, off, e.seqId, 4);
    var m2 := Store(m1, off + 4, e.offset, 4);
    LoadStored(m, off, e.seqId, 4);
    LoadStored(m1, off + 4, e.offset, 4);
    LoadStored(m2, off + 8, e.status, 4);
    LoadElsewhere(m1, off + 4, e.offset, 4, off, 4);
    LoadElsewhere(m2, off + 8, e.status, 4, off, 4);
    LoadElsewhere(m2, off + 8, e.status, 4, off + 4, 4);
  }

  lemma PutRecord(m: seq<Byte>, base: nat, e: Element, i: nat)
    requires Valid(m, base) && Tail(m, base) - Head(m, base) < Cap(m, base) && Fits(e)
    requires Tail(m, base) + 1 < I64_LIMIT && Head(m, base) <= i <= Tail(m, base)
    ensures var r := PutBytes(m, base, e);
            InMemory(r, base) && Cap(r, base) == Cap(m, base)
            && Record(r, base, i) == if i == Tail(m, base) then e else Record(m, base, i)
  {
    hide Load;
    hide Store;
    PutHeader(m, base, e);
    var cap, t := Cap(m, base), Tail(m, base);
    var off, at := Slot(base, cap, t), Slot(base, cap, i);
    var w := WriteRecord(m, off, e);
    LoadElsewhere(w, base + 12, t + 1, 8, at, 4);
    LoadElsewhere(w, base + 12, t + 1, 8, at + 4, 4);
    LoadElsewhere(w, base + 12, t + 1, 8, at + 8, 4);
    if i == t {
      RecordWritten(m, off, e);
    } else {
      SlotsApart(base, cap, i, t);
      Elsewhere4(m, off, e, at, 4);
      Elsewhere4(m, off, e, at + 4, 4);
      Elsewhere4(m, off, e, at + 8, 4);
    }
  }

  /** A put appends, for any number of wraps around the slots. */
  lemma PutAppends(m: seq<Byte>, base: nat, e: Element)
    requires Valid(m, base) && |Contents(m, base)| < Cap(m, base) && Fits(e)
    requires Tail(m, base) + 1 < I64_LIMIT
    ensures var r := PutBytes(m, base, e);
            Valid(r, base) && Contents(r, base) == Contents(m, base) + [e]
  {
    hide Load;
    hide Store;
    hide PutBytes;
    PutHeader(m, base, e);
    var r := PutBytes(m, base, e);
    assert Contents(r, base) == Contents(m, base) + [e] by {
      forall k | 0 <= k < |Contents(r, base)| ensures Contents(r, base)[k] == (Contents(m, base) + [e])[k] {
        PutRecord(m, base, e, Head(m, base) + k);
      }
    }
  }

  lemma PopDrops(m: seq<Byte>, base: nat)
    requires Valid(m, base) && Contents(m, base) != [] && Head(m, base) + 1 < I64_LIMIT
    ensures var r := PopBytes(m, base);
            Valid(r, base) && Contents(r, base) == Contents(m, base)[1..] && Cap(r, base) == Cap(m, base)
            && Flag(r, base) == Flag(m, base) && Tail(r, base) == Tail(m, base)
  {
    hide Load;
    hide Store;
    var r, h := PopBytes(m, base), Head(m, base);
    Widths();
    LoadStored(m, base + 4, h + 1, 8);
    LoadElsewhere(m, base + 4, h + 1, 8, base, 4);
    LoadElsewhere(m, base + 4, h + 1, 8, base + 12, 8);
    LoadElsewhere(m, base + 4, h + 1, 8, base + 20, 4);
    forall i: nat ensures Record(r, base, i) == Record(m, base, i) {
      var at := Slot(base, Cap(m, base), i);
      LoadElsewhere(m, base + 4, h + 1, 8, at, 4);
      LoadElsewhere(m, base + 4, h + 1, 8, at + 4, 4);
      LoadElsewhere(m, base + 4, h + 1, 8, at + 8, 4);
    }
  }

  // ---------------------------------------------------------------------------------------------
  // The operations on mapped memory
  // ---------------------------------------------------------------------------------------------

  class Queue {
    const mem: array<Byte>
    const base: nat

    ghost predicate Ok()
      reads mem
    {
      Valid(mem[..], base)
    }

    ghost function Items(): seq<Element>
      requires Ok()
      reads mem
    {
      Contents(mem[..], base)
    }

    /** `create_from_bytes`: an empty queue, whatever the memory held. */
    constructor (data: array<Byte>, base: nat, cap: nat)
      requires base + HEADER_LENGTH + ELEMENT_LEN * cap <= data.Length && cap < U32_LIMIT
      modifies data
      ensures mem == data && this.base == base
      ensures Ok() && Items() == [] && Cap(mem[..], base) == cap && Flag(mem[..], base) == 0
    {
      mem := data;
      this.base := base;
      new;
      Widths();
      StoreInto(mem, base, cap, 4);
      LoadStored(old(data[..]), base, cap, 4);
      ghost var m1 := mem[..];
      StoreInto(mem, base + 4, 0, 8);
      LoadStored(m1, base + 4, 0, 8);
      LoadElsewhere(m1, base + 4, 0, 8, base, 4);
      ghost var m2 := mem[..];
      StoreInto(mem, base + 12, 0, 8);
      LoadStored(m2, base + 12, 0, 8);
      LoadElsewhere(m2, base + 12, 0, 8, base, 4);
      LoadElsewhere(m2, base + 12, 0, 8, base + 4, 8);
      ghost var m3 := mem[..];
      StoreInto(mem, base + 20, 0, 4);
      LoadStored(m3, base + 20, 0, 4);
      LoadElsewhere(m3, base + 20, 0, 4, base, 4);
      LoadElsewhere(m3, base + 20, 0, 4, base + 4, 8);
      LoadElsewhere(m3, base + 20, 0, 4, base + 12, 8);
    }

    /** False reports a full queue and leaves the memory alone. */
    method Put(e: Element) returns (ok: bool)
      requires Ok() && Fits(e) && Tail(mem[..], base) + 1 < I64_LIMIT
      modifies mem
      ensures Ok() && ok == (|old(Items())| < old(Cap(mem[..], base)))
      ensures Items() == if ok then old(Items()) + [e] else old(Items())
      ensures !ok ==> mem[..] == old(mem[..])
      ensures ok ==> mem[..] == PutBytes(old(mem[..]), base, e)
      ensures Tail(mem[..], base) == old(Tail(mem[..], base)) + if ok then 1 else 0
    {
      hide Load;
      hide Store;
      var cap := LoadFrom(mem, base, 4);
      var head := LoadFrom(mem, base + 4, 8);
      var tail := LoadFrom(mem, base + 12, 8);
      if tail - head >= cap {
        return false;
      }
      ghost var m := mem[..];
      var off := Slot(base, cap, tail);
      StoreInto(mem, off, e.seqId, 4);
      StoreInto(mem, off + 4, e.offset, 4);
      StoreInto(mem, off + 8, e.status, 4);
      StoreInto(mem, base + 12, tail + 1, 8);
      PutAppends(m, base, e);
      PutHeader(m, base, e);
      return true;
    }

    method Pop() returns (r: Option<Element>)
      requires Ok() && (Items() != [] ==> Head(mem[..], base) + 1 < I64_LIMIT)
      modifies mem
      ensures Ok() && (r == None <==> old(Items()) == [])
      ensures r.Some? ==> r.value == old(Items())[0] && Items() == old(Items())[1..]
      ensures r.Some? ==> mem[..] == PopBytes(old(mem[..]), base)
      ensures r == None ==> mem[..] == old(mem[..])
      ensures Tail(mem[..], base) == old(Tail(mem[..], base))
    {
      hide Load;
      hide Store;
      var cap := LoadFrom(mem, base, 4);
      var head := LoadFrom(mem, base + 4, 8);
      var tail := LoadFrom(mem, base + 12, 8);
      if head >= tail {
        return None;
      }
      ghost var m := mem[..];
      var off := Slot(base, cap, head);
      var id := LoadFrom(mem, off, 4);
      var at := LoadFrom(mem, off + 4, 4);
      var status := LoadFrom(mem, off + 8, 4);
      r := Some(Element(id, at, status));
      assert r.value == Record(m, base, head) == Contents(m, base)[0];
      StoreInto(mem, base + 4, head + 1, 8);
      PopDrops(m, base);
    }
  }
}
