/** One free list in shared memory, byte by byte.

    Layout of a list: size, capacity, head, tail, capacity of a buffer, counter (4 bytes each), padding
    up to byte 36; then the nodes, each a 20-byte header (capacity, size, start, next, flags) and its
    data area.  Head, tail and next are offsets from the first node.  All offsets below are relative
    to the start of the list's own window of memory.
 */
module BufferLists {
  import opened Basics
  import opened Bytes

  const LIST_HEADER := 36
  const NODE_HEADER := 20
  const HAS_NEXT := 1
  const IN_USED := 2

  datatype Header = Header(size: nat, cap: nat, head: nat, tail: nat, capPer: nat, counter: nat)

  function HeaderOf(w: seq<Byte>): Header
    requires |w| >= LIST_HEADER
  {
    Header(Load(w, 0, 4), Load(w, 4, 4), Load(w, 8, 4), Load(w, 12, 4), Load(w, 16, 4), Load(w, 20, 4))
  }

  /** `count_buffer_list_mem_size`. */
  function WindowSize(num: nat, cap: nat): nat {
    LIST_HEADER + num * (cap + NODE_HEADER)
  }

  /** Where node `i` starts. */
  function At(i: nat, cap: nat): nat {
    LIST_HEADER + i * (cap + NODE_HEADER)
  }

  lemma Spread(i: nat, j: nat, cap: nat)
    requires i < j
    ensures At(i, cap) + cap + NODE_HEADER <= At(j, cap)
  {
    Times(i + 1, j, cap + NODE_HEADER);
  }

  lemma {:induction false} Times(i: nat, j: nat, s: nat)
    requires i <= j
    ensures i * s <= j * s
  {
    if i < j {
      Times(i, j - 1, s);
      assert j * s == (j - 1) * s + s;
    }
  }

  lemma Inside(i: nat, num: nat, cap: nat)
    requires i < num
    ensures At(i, cap) + cap + NODE_HEADER <= WindowSize(num, cap)
  {
    Spread(i, num, cap);
  }

  // ---------------------------------------------------------------------------------------------
  // What a well-formed list is
  // ---------------------------------------------------------------------------------------------

  /** A node is as large as the list says. */
  predicate NodeOk(w: seq<Byte>, cap: nat, i: nat) {
    At(i, cap) + cap + NODE_HEADER <= |w| && Load(w, At(i, cap), 4) == cap
  }

  /** Free node number `k`: an empty header whose link leads to the next free node. */
  predicate FreeOk(w: seq<Byte>, cap: nat, free: seq<nat>, k: nat)
    requires k < |free|
  {
    var a := At(free[k], cap);
    && a + cap + NODE_HEADER <= |w|
    && Load(w, a + 4, 4) == 0 && Load(w, a + 8, 4) == 0
    && w[a + 16] == (if k + 1 < |free| then HAS_NEXT else 0)
    && (k + 1 < |free| ==> LIST_HEADER + Load(w, a + 12, 4) == At(free[k + 1], cap))
  }

  /** The header agrees with a free list of these nodes. */
  predicate HeaderOk(h: Header, num: nat, cap: nat, free: seq<nat>) {
    && free != [] && |free| <= num
    && h.size == |free| && h.cap == num && h.capPer == cap && h.counter == num - |free|
    && LIST_HEADER + h.head == At(free[0], cap) && LIST_HEADER + h.tail == At(free[|free| - 1], cap)
  }

  predicate ListOk(w: seq<Byte>, num: nat, cap: nat, free: seq<nat>) {
    && 0 < cap && LIST_HEADER <= |w| == WindowSize(num, cap) < U32_LIMIT
    && HeaderOk(HeaderOf(w), num, cap, free)
    && Distinct(free) && (forall k | 0 <= k < |free| :: free[k] < num)
    && (forall i | 0 <= i < num :: NodeOk(w, cap, i))
    && (forall k | 0 <= k < |free| :: FreeOk(w, cap, free, k))
  }

  // ---------------------------------------------------------------------------------------------
  // Stores into a window
  // ---------------------------------------------------------------------------------------------

  function Changed(h: Header, k: nat, v: nat): Header {
    match k
    case 0 => h.(size := v)
    case 1 => h.(cap := v)
    case 2 => h.(head := v)
    case 3 => h.(tail := v)
    case 4 => h.(capPer := v)
    case 5 => h.(counter := v)
    case _ => h
  }

  /** Storing header field `k` changes that field and nothing else. */
  lemma FieldStored(w: seq<Byte>, k: nat, v: nat)
    requires |w| >= LIST_HEADER && k < 6 && v < U32_LIMIT
    ensures HeaderOf(Store(w, 4 * k, v, 4)) == Changed(HeaderOf(w), k, v)
    ensures BodySame(w, Store(w, 4 * k, v, 4))
  {
    Widths();
    LoadStored(w, 4 * k, v, 4);
    hide Load;
    if k != 0 { LoadElsewhere(w, 4 * k, v, 4, 0, 4); }
    if k != 1 { LoadElsewhere(w, 4 * k, v, 4, 4, 4); }
    if k != 2 { LoadElsewhere(w, 4 * k, v, 4, 8, 4); }
    if k != 3 { LoadElsewhere(w, 4 * k, v, 4, 12, 4); }
    if k != 4 { LoadElsewhere(w, 4 * k, v, 4, 16, 4); }
    if k != 5 { LoadElsewhere(w, 4 * k, v, 4, 20, 4); }
  }

  /** The nodes are what they were. */
  predicate BodySame(w: seq<Byte>, r: seq<Byte>) {
    |r| == |w| >= LIST_HEADER && forall x | LIST_HEADER <= x < |w| :: r[x] == w[x]
  }

  lemma LoadSame(w: seq<Byte>, r: seq<Byte>, at: nat, n: nat)
    requires at + n <= |w| == |r| && forall x | at <= x < at + n :: r[x] == w[x]
    ensures Load(r, at, n) == Load(w, at, n)
  {
    assert r[at..at + n] == w[at..at + n];
  }

  lemma HeaderSame(w: seq<Byte>, r: seq<Byte>)
    requires LIST_HEADER <= |w| == |r| && forall x | 0 <= x < LIST_HEADER :: r[x] == w[x]
    ensures HeaderOf(r) == HeaderOf(w)
  {
    LoadSame(w, r, 0, 4);
    LoadSame(w, r, 4, 4);
    LoadSame(w, r, 8, 4);
    LoadSame(w, r, 12, 4);
    LoadSame(w, r, 16, 4);
    LoadSame(w, r, 20, 4);
  }

  /** The header and the data area of node `i` are what they were. */
  predicate SameNode(w: seq<Byte>, r: seq<Byte>, cap: nat, i: nat) {
    |w| == |r| && At(i, cap) + cap + NODE_HEADER <= |w|
    && forall x | At(i, cap) <= x < At(i, cap) + cap + NODE_HEADER :: r[x] == w[x]
  }

  lemma SameNodeOk(w: seq<Byte>, r: seq<Byte>, cap: nat, i: nat)
    requires SameNode(w, r, cap, i)
    ensures NodeOk(w, cap, i) <==> NodeOk(r, cap, i)
    ensures forall f | 0 <= f <= 3 :: Load(r, At(i, cap) + 4 * f, 4) == Load(w, At(i, cap) + 4 * f, 4)
    ensures r[At(i, cap) + 16] == w[At(i, cap) + 16]
  {
    hide Load;
    forall f | 0 <= f <= 3 ensures Load(r, At(i, cap) + 4 * f, 4) == Load(w, At(i, cap) + 4 * f, 4) {
      LoadSame(w, r, At(i, cap) + 4 * f, 4);
    }
    LoadSame(w, r, At(i, cap), 4);
  }

  /** A free node whose place in the list is the same. */
  lemma SameFree(w: seq<Byte>, r: seq<Byte>, cap: nat, free: seq<nat>, k: nat, other: seq<nat>, j: nat)
    requires k < |free| && FreeOk(w, cap, free, k) && j < |other| && other[j] == free[k] && SameNode(w, r, cap, free[k])
    requires (k + 1 < |free|) == (j + 1 < |other|) && (k + 1 < |free| ==> other[j + 1] == free[k + 1])
    ensures FreeOk(r, cap, other, j)
  {
    hide Load;
    var a := At(free[k], cap);
    LoadSame(w, r, a + 4, 4);
    LoadSame(w, r, a + 8, 4);
    LoadSame(w, r, a + 12, 4);
  }

  // ---------------------------------------------------------------------------------------------
  // Pop and push
  // ---------------------------------------------------------------------------------------------

  /** A byte of node `i` lies outside every other node. */
  lemma Apart(i: nat, j: nat, cap: nat, x: nat)
    requires i != j && At(i, cap) <= x < At(i, cap) + cap + NODE_HEADER
    ensures !(At(j, cap) <= x < At(j, cap) + cap + NODE_HEADER)
  {
    if i < j { Spread(i, j, cap); } else { Spread(j, i, cap); }
  }

  /** Nodes that were not written to are the same. */
  lemma Untouched(w: seq<Byte>, r: seq<Byte>, num: nat, cap: nat, i: nat, t: nat, j: nat)
    requires |r| == |w| == WindowSize(num, cap) && j < num && j != i && j != t
    requires forall x | LIST_HEADER <= x < |w| && !InHeader(x, i, cap) && !InHeader(x, t, cap) :: r[x] == w[x]
    ensures SameNode(w, r, cap, j)
  {
    Inside(j, num, cap);
    forall x | At(j, cap) <= x < At(j, cap) + cap + NODE_HEADER ensures r[x] == w[x] {
      Apart(j, i, cap, x);
      Apart(j, t, cap, x);
    }
  }

  /** Byte `x` is in the header of node `i`, behind the capacity. */
  predicate InHeader(x: nat, i: nat, cap: nat) {
    At(i, cap) + 4 <= x < At(i, cap) + NODE_HEADER
  }

  lemma CapKept(w: seq<Byte>, r: seq<Byte>, num: nat, cap: nat, i: nat, t: nat, j: nat)
    requires |r| == |w| == WindowSize(num, cap) && j < num && NodeOk(w, cap, j)
    requires forall x | LIST_HEADER <= x < |w| && !InHeader(x, i, cap) && !InHeader(x, t, cap) :: r[x] == w[x]
    ensures NodeOk(r, cap, j)
  {
    hide Load;
    Inside(j, num, cap);
    forall x | At(j, cap) <= x < At(j, cap) + 4 ensures r[x] == w[x] {
      if j != i { Apart(j, i, cap, x); }
      if j != t { Apart(j, t, cap, x); }
    }
    LoadSame(w, r, At(j, cap), 4);
  }

  /** What a pop does to the window: the oldest free node leaves the list. */
  predicate PopOf(w: seq<Byte>, r: seq<Byte>, num: nat, cap: nat, free: seq<nat>)
  {
    && |r| == |w| >= LIST_HEADER && |free| > 1
    && HeaderOk(HeaderOf(r), num, cap, free[1..])
    && (forall x | LIST_HEADER <= x < |w| && x != At(free[0], cap) + 16 :: r[x] == w[x])
    && At(free[0], cap) + 16 < |r| && r[At(free[0], cap) + 16] == IN_USED
  }

  lemma PopKeeps(w: seq<Byte>, r: seq<Byte>, num: nat, cap: nat, free: seq<nat>)
    requires ListOk(w, num, cap, free) && |free| > 1 && PopOf(w, r, num, cap, free)
    ensures ListOk(r, num, cap, free[1..])
  {
    hide Load;
    hide FreeOk;
    hide NodeOk;
    hide At;
    var i, rest := free[0], free[1..];
    assert forall x :: x == At(i, cap) + 16 ==> InHeader(x, i, cap);
    forall j | 0 <= j < num ensures NodeOk(r, cap, j) { CapKept(w, r, num, cap, i, i, j); }
    forall k | 0 <= k < |rest| ensures FreeOk(r, cap, rest, k) {
      assert FreeOk(w, cap, free, k + 1);
      Untouched(w, r, num, cap, i, i, free[k + 1]);
      SameFree(w, r, cap, free, k + 1, rest, k);
    }
  }

  /** What a push of node `i` does: it is reset and linked behind the last free node. */
  predicate PushOf(w: seq<Byte>, r: seq<Byte>, num: nat, cap: nat, free: seq<nat>, i: nat)
  {
    && |r| == |w| >= LIST_HEADER && free != [] && i < num
    && var t := free[|free| - 1];
    && At(i, cap) + NODE_HEADER <= |w| && At(t, cap) + NODE_HEADER <= |w|
    && HeaderOk(HeaderOf(r), num, cap, free + [i])
    && (forall x | LIST_HEADER <= x < |w| && !InHeader(x, i, cap) && !InHeader(x, t, cap) :: r[x] == w[x])
    && Load(r, At(i, cap) + 4, 4) == 0 && Load(r, At(i, cap) + 8, 4) == 0 && r[At(i, cap) + 16] == 0
    && Load(r, At(t, cap) + 4, 4) == 0 && Load(r, At(t, cap) + 8, 4) == 0 && r[At(t, cap) + 16] == HAS_NEXT
    && LIST_HEADER + Load(r, At(t, cap) + 12, 4) == At(i, cap)
  }

  function Below(n: nat): (r: set<nat>)
    ensures |r| == n && forall x: nat :: x in r <==> x < n
  {
    if n == 0 then {} else Below(n - 1) + {n - 1}
  }

  /** There is room for a node that is not free. */
  lemma Room(free: seq<nat>, num: nat, i: nat)
    requires Distinct(free) && (forall k | 0 <= k < |free| :: free[k] < num) && i < num && i !in free
    ensures |free| < num && Distinct(free + [i])
  {
    var more := free + [i];
    ElemsSize(more);
    assert Elems(more) <= Below(num);
    Subset(Elems(more), Below(num));
  }

  lemma Subset(a: set<nat>, b: set<nat>)
    requires a <= b
    ensures |a| <= |b|
  {
    assert b == a + (b - a);
  }

  lemma PushKeeps(w: seq<Byte>, r: seq<Byte>, num: nat, cap: nat, free: seq<nat>, i: nat)
    requires ListOk(w, num, cap, free) && i < num && i !in free && PushOf(w, r, num, cap, free, i)
    ensures ListOk(r, num, cap, free + [i])
  {
    hide Load;
    hide FreeOk;
    hide NodeOk;
    hide At;
    var t, more := free[|free| - 1], free + [i];
    Room(free, num, i);
    forall j | 0 <= j < num ensures NodeOk(r, cap, j) { CapKept(w, r, num, cap, i, t, j); }
    forall k | 0 <= k < |more| ensures FreeOk(r, cap, more, k) {
      if k + 1 < |free| {
        assert FreeOk(w, cap, free, k);
        Untouched(w, r, num, cap, i, t, free[k]);
        SameFree(w, r, cap, free, k, more, k);
      } else {
        LastTwo(r, num, cap, more, k);
      }
    }
  }

  lemma LastTwo(r: seq<Byte>, num: nat, cap: nat, more: seq<nat>, k: nat)
    requires |more| >= 2 && |more| - 2 <= k < |more| && |r| == WindowSize(num, cap)
    requires forall j | 0 <= j < |more| :: more[j] < num
    requires At(more[|more| - 1], cap) + NODE_HEADER <= |r| && At(more[|more| - 2], cap) + NODE_HEADER <= |r|
    requires var a := At(more[|more| - 1], cap); Load(r, a + 4, 4) == 0 && Load(r, a + 8, 4) == 0 && r[a + 16] == 0
    requires var b := At(more[|more| - 2], cap);
             && Load(r, b + 4, 4) == 0 && Load(r, b + 8, 4) == 0 && r[b + 16] == HAS_NEXT
             && LIST_HEADER + Load(r, b + 12, 4) == At(more[|more| - 1], cap)
    ensures FreeOk(r, cap, more, k)
  {
    hide Load;
    Inside(more[k], num, cap);
  }

  // ---------------------------------------------------------------------------------------------
  // The list in mapped memory
  // ---------------------------------------------------------------------------------------------

  /** A slice handed out: where its header is, and what `BufferSlice` reads from it. */
  datatype Slice = Slice(offset: nat, cap: nat, start: nat, size: nat)

  /** Memory outside the window is untouched. */
  predicate Outside(m: seq<Byte>, r: seq<Byte>, base: nat, len: nat) {
    |r| == |m| && base + len <= |m| && r[..base] == m[..base] && r[base + len..] == m[base + len..]
  }

  class BufferList {
    const mem: array<Byte>
    const base: nat
    const num: nat
    const cap: nat
    ghost var free: seq<nat>

    ghost predicate Placed() {
      LIST_HEADER <= WindowSize(num, cap) && base + WindowSize(num, cap) <= mem.Length
    }

    ghost function Window(): (w: seq<Byte>)
      requires Placed()
      reads mem
      ensures |w| == WindowSize(num, cap)
    {
      mem[base..base + WindowSize(num, cap)]
    }

    ghost predicate Valid()
      reads this, mem
    {
      Placed() && ListOk(Window(), num, cap, free)
    }

    constructor (mem: array<Byte>, base: nat, num: nat, cap: nat, ghost free: seq<nat>)
      ensures this.mem == mem && this.base == base && this.num == num && this.cap == cap && this.free == free
    {
      this.mem, this.base, this.num, this.cap, this.free := mem, base, num, cap, free;
    }

    method Put4(off: nat, v: nat)
      requires Placed() && off + 4 <= WindowSize(num, cap)
      modifies mem
      ensures Window() == Store(old(Window()), off, v, 4)
      ensures Outside(old(mem[..]), mem[..], base, WindowSize(num, cap))
    {
      hide WindowSize;
      hide Store;
      ghost var m, len := mem[..], WindowSize(num, cap);
      assert Window() == m[base..base + len];
      StoreInto(mem, base + off, v, 4);
      WindowStore(m, base, len, off, v, 4);
      assert Window() == mem[..][base..base + len];
    }

    method Put1(off: nat, v: Byte)
      requires Placed() && off < WindowSize(num, cap)
      modifies mem
      ensures Window() == old(Window())[off := v]
      ensures Outside(old(mem[..]), mem[..], base, WindowSize(num, cap))
    {
      hide WindowSize;
      mem[base + off] := v;
    }

    method Get4(off: nat) returns (v: nat)
      requires Placed() && off + 4 <= WindowSize(num, cap)
      ensures v == Load(Window(), off, 4) && v < U32_LIMIT
    {
      hide WindowSize;
      hide Load;
      v := LoadFrom(mem, base + off, 4);
      WindowLoad(mem[..], base, WindowSize(num, cap), off, 4);
      assert Window() == mem[..][base..base + WindowSize(num, cap)];
      LoadBound(Window(), off);
    }

    /** A store into the list header. */
    method SetField(k: nat, v: nat)
      requires Placed() && k < 6 && v < U32_LIMIT
      modifies mem
      ensures HeaderOf(Window()) == Changed(HeaderOf(old(Window())), k, v) && BodySame(old(Window()), Window())
      ensures Window() == Store(old(Window()), 4 * k, v, 4)
      ensures Outside(old(mem[..]), mem[..], base, WindowSize(num, cap))
    {
      hide Store;
      hide WindowSize;
      hide HeaderOf;
      FieldStored(Window(), k, v);
      Put4(4 * k, v);
    }

    /** `pop`: the oldest free node, with an empty header marked in use; the last node is never
        handed out, and then nothing changes. */
    method Pop() returns (r: Option<Slice>)
      requires Valid()
      modifies this`free, mem
      ensures Valid() && (r == None <==> |old(free)| == 1)
      ensures r == None ==> free == old(free) && mem[..] == old(mem[..])
      ensures r.Some? ==>
        && free == old(free)[1..] && PopOf(old(Window()), Window(), num, cap, old(free))
        && r.value == Slice(base + At(old(free)[0], cap), cap, 0, 0)
      ensures Outside(old(mem[..]), mem[..], base, WindowSize(num, cap))
    {
      hide Load;
      hide Store;
      hide At;
      hide NodeOk;
      hide WindowSize;
      ghost var w, was := Window(), mem[..];
      FirstFree(w, num, cap, free);
      var head := Get4(8);
      var remain := Get4(0);
      SetField(0, remain - 1);
      var per := Get4(16);
      if remain <= 1 || LIST_HEADER + head + NODE_HEADER + per > WindowSize(num, cap) {
        SetField(0, remain);
        StoreBack(w, 0, remain - 1, 4);
        Whole(was, mem[..], base, WindowSize(num, cap));
        return None;
      }
      var s := Take(w, head);
      return Some(s);
    }

    /** The rest of a pop, once the size was taken down. */
    method Take(ghost w: seq<Byte>, head: nat) returns (s: Slice)
      requires Placed() && ListOk(w, num, cap, free) && |free| > 1 && head == HeaderOf(w).head
      requires |Window()| == |w| && HeaderOf(Window()) == HeaderOf(w).(size := |free| - 1) && BodySame(w, Window())
      modifies this`free, mem
      ensures Valid() && free == old(free)[1..] && PopOf(w, Window(), num, cap, old(free))
      ensures s == Slice(base + At(old(free)[0], cap), cap, 0, 0)
      ensures Outside(old(mem[..]), mem[..], base, WindowSize(num, cap))
    {
      hide Load;
      hide Store;
      hide At;
      hide WindowSize;
      hide NodeOk;
      FirstFree(w, num, cap, free);
      SmallNum(num, cap);
      var a := LIST_HEADER + head;
      NodeLoads(w, Window(), a);
      var c := Get4(a);
      var size := Get4(a + 4);
      var start := Get4(a + 8);
      var next := Get4(a + 12);
      var counter := Get4(20);
      SetField(2, next);
      SetField(5, counter + 1);
      ghost var w1 := Window();
      Put1(a + 16, 0);
      Put1(a + 16, IN_USED);
      HeaderSame(w1, Window());
      s := Slice(base + a, c, start, size);
      PopKeeps(w, Window(), num, cap, free);
      free := free[1..];
    }

    /** `BufferSlice::reset` of the header at `a`. */
    method ResetHeader(a: nat)
      requires Placed() && LIST_HEADER <= a && a + NODE_HEADER <= WindowSize(num, cap)
      modifies mem
      ensures forall x | 0 <= x < WindowSize(num, cap) && !(a + 4 <= x < a + NODE_HEADER) :: Window()[x] == old(Window())[x]
      ensures Load(Window(), a + 4, 4) == 0 && Load(Window(), a + 8, 4) == 0 && Window()[a + 16] == 0
      ensures Outside(old(mem[..]), mem[..], base, WindowSize(num, cap))
    {
      hide Load;
      hide Store;
      hide WindowSize;
      ghost var w := Window();
      Put4(a + 4, 0);
      ghost var w1 := Window();
      Put4(a + 8, 0);
      ghost var w2 := Window();
      Put1(a + 16, 0);
      Stored4(w, a + 4, 0);
      Stored4(w1, a + 8, 0);
      LoadSame(w1, Window(), a + 4, 4);
      LoadSame(w2, Window(), a + 8, 4);
    }

    /** `link_next` of the header at `b`. */
    method LinkNext(b: nat, v: nat)
      requires Placed() && LIST_HEADER <= b && b + NODE_HEADER <= WindowSize(num, cap) && v < U32_LIMIT
      modifies mem
      ensures forall x | 0 <= x < WindowSize(num, cap) && !(b + 12 <= x < b + 17) :: Window()[x] == old(Window())[x]
      ensures Load(Window(), b + 12, 4) == v
      ensures var flag := old(Window())[b + 16]; Window()[b + 16] == if flag % 2 == 1 then flag else flag + 1
      ensures Outside(old(mem[..]), mem[..], base, WindowSize(num, cap))
    {
      hide Load;
      hide Store;
      hide WindowSize;
      ghost var w := Window();
      Put4(b + 12, v);
      ghost var w1 := Window();
      Stored4(w, b + 12, v);
      var flag := mem[base + b + 16];
      assert flag == Window()[b + 16];
      Put1(b + 16, if flag % 2 == 1 then flag else flag + 1);
      LoadSame(w1, Window(), b + 12, 4);
    }

    /** `push`: the node is reset and joins at the back. */
    method Push(offset: nat, ghost i: nat)
      requires Valid() && i < num && i !in free && offset == base + At(i, cap)
      modifies this`free, mem
      ensures Valid() && free == old(free) + [i] && PushOf(old(Window()), Window(), num, cap, old(free), i)
      ensures Outside(old(mem[..]), mem[..], base, WindowSize(num, cap))
    {
      hide Load;
      hide Store;
      hide At;
      hide WindowSize;
      hide NodeOk;
      ghost var w, t := Window(), free[|free| - 1];
      Room(free, num, i);
      Inside(i, num, cap);
      LastFree(w, num, cap, free, i);
      var a := offset - base;
      ResetHeader(a);
      ghost var w1 := Window();
      HeaderSame(w, w1);
      SmallNum(num, cap);
      var tail := Get4(12);
      var b := LIST_HEADER + tail;
      SetField(3, a - LIST_HEADER);
      BumpBack();
      ghost var w2 := Window();
      LinkNext(b, a - LIST_HEADER);
      HeaderSame(w2, Window());
      PushDone(w, w1, w2, Window(), num, cap, free, i, a, b);
      PushKeeps(w, Window(), num, cap, free, i);
      free := free + [i];
    }

    /** The two counts after a push. */
    method BumpBack()
      requires Placed() && HeaderOf(Window()).counter > 0 && HeaderOf(Window()).size + 1 < U32_LIMIT
      modifies mem
      ensures var h := HeaderOf(old(Window()));
              HeaderOf(Window()) == h.(size := h.size + 1, counter := h.counter - 1) && BodySame(old(Window()), Window())
      ensures Outside(old(mem[..]), mem[..], base, WindowSize(num, cap))
    {
      hide Load;
      hide Store;
      hide WindowSize;
      var size := Get4(0);
      SetField(0, size + 1);
      var counter := Get4(20);
      SetField(5, counter - 1);
    }

    /** Whoever holds node `i` may write anything but its capacity. */
    method Scribble(ghost i: nat, at: nat, bytes: seq<Byte>)
      requires Valid() && i < num && i !in free
      requires At(i, cap) + 4 <= at && at + |bytes| <= At(i, cap) + NODE_HEADER + cap <= WindowSize(num, cap)
      modifies mem
      ensures Valid() && forall j | 0 <= j < num && j != i :: SameNode(old(Window()), Window(), cap, j)
      ensures base + at + |bytes| <= mem.Length && mem[..] == Splice(old(mem[..]), base + at, bytes)
      ensures Outside(old(mem[..]), mem[..], base, WindowSize(num, cap))
    {
      hide Load;
      hide At;
      hide WindowSize;
      hide ListOk;
      ghost var w, len := Window(), WindowSize(num, cap);
      Inside(i, num, cap);
      for n := 0 to |bytes|
        invariant forall x | 0 <= x < n :: mem[base + at + x] == bytes[x]
        invariant forall x | 0 <= x < mem.Length && !(base + at <= x < base + at + n) :: mem[x] == old(mem[x])
      {
        mem[base + at + n] := bytes[n];
      }
      assert mem[..] == Splice(old(mem[..]), base + at, bytes);
      ScribbleKeeps(w, Window(), num, cap, free, i);
    }

    /** The list header `create` writes. */
    method InitHeader()
      requires Placed() && 0 < num && 0 < cap && WindowSize(num, cap) < U32_LIMIT
      modifies mem
      ensures HeaderOk(HeaderOf(Window()), num, cap, Upto(num))
      ensures Outside(old(mem[..]), mem[..], base, WindowSize(num, cap))
    {
      hide Load;
      hide Store;
      hide HeaderOf;
      LastAt(num, cap);
      SmallNum(num, cap);
      hide WindowSize;
      FirstAt(cap);
      var tail := (num - 1) * (cap + NODE_HEADER);
      assert LIST_HEADER + tail == At(num - 1, cap);
      hide At;
      SetField(0, num);
      SetField(1, num);
      SetField(2, 0);
      SetField(3, tail);
      SetField(4, cap);
      SetField(5, 0);
    }

    /** One round of the loop of `create`: the header of the node at `a`. */
    method InitNode(a: nat, next: nat, linked: bool)
      requires Placed() && LIST_HEADER <= a && a + cap + NODE_HEADER <= WindowSize(num, cap)
      requires cap < U32_LIMIT && next < U32_LIMIT
      modifies mem
      ensures forall x | 0 <= x < WindowSize(num, cap) && !(a <= x < a + NODE_HEADER) :: Window()[x] == old(Window())[x]
      ensures Load(Window(), a, 4) == cap && Load(Window(), a + 4, 4) == 0 && Load(Window(), a + 8, 4) == 0
      ensures linked ==> Load(Window(), a + 12, 4) == next && Window()[a + 16] == HAS_NEXT
      ensures Outside(old(mem[..]), mem[..], base, WindowSize(num, cap))
    {
      hide Load;
      hide Store;
      hide WindowSize;
      ghost var w := Window();
      Put4(a, cap);
      ghost var w1 := Window();
      Put4(a + 4, 0);
      ghost var w2 := Window();
      Put4(a + 8, 0);
      ghost var w3 := Window();
      Stored4(w, a, cap);
      Stored4(w1, a + 4, 0);
      Stored4(w2, a + 8, 0);
      if linked {
        Put4(a + 16, 0);
        Stored4(w3, a + 16, 0);
        ZeroFlag(Window(), a + 16);
        LinkNext(a, next);
      }
      LoadSame(w1, Window(), a, 4);
      LoadSame(w2, Window(), a + 4, 4);
      LoadSame(w3, Window(), a + 8, 4);
    }

    /** The flag word of the last node. */
    method ClearTail(ghost h: Header)
      requires Placed() && 0 < num && 0 < cap && WindowSize(num, cap) < U32_LIMIT
      requires HeaderOk(h, num, cap, Upto(num)) && HeaderOf(Window()) == h
      requires forall k | 0 <= k < num :: Inited(Window(), num, cap, k)
      modifies mem
      ensures ListOk(Window(), num, cap, Upto(num))
      ensures Outside(old(mem[..]), mem[..], base, WindowSize(num, cap))
    {
      hide Load;
      hide Store;
      hide WindowSize;
      hide Inited;
      ghost var w := Window();
      LastAt(num, cap);
      hide At;
      var tail := Get4(12);
      Put4(LIST_HEADER + tail + 16, 0);
      Stored4(w, LIST_HEADER + tail + 16, 0);
      ZeroFlag(Window(), LIST_HEADER + tail + 16);
      HeaderSame(w, Window());
      CreatedOk(w, Window(), num, cap);
    }

    /** The header and the node loop of `create`. */
    method Init()
      requires Placed() && 0 < num && 0 < cap && WindowSize(num, cap) < U32_LIMIT
      modifies this`free, mem
      ensures Valid() && free == Upto(num)
      ensures Outside(old(mem[..]), mem[..], base, WindowSize(num, cap))
    {
      hide Load;
      hide Store;
      hide At;
      hide WindowSize;
      hide HeaderOf;
      hide Inited;
      LastAt(num, cap);
      InitHeader();
      ghost var h := HeaderOf(Window());
      var current, i := 0, 0;
      while i < num
        invariant 0 <= i <= num && LIST_HEADER + current == At(i, cap)
        invariant HeaderOf(Window()) == h && forall k | 0 <= k < i :: Inited(Window(), num, cap, k)
        invariant Outside(old(mem[..]), mem[..], base, WindowSize(num, cap))
      {
        ghost var w := Window();
        NextAt(i, num, cap);
        InitNode(LIST_HEADER + current, current + cap + NODE_HEADER, i + 1 < num);
        InitedMore(w, Window(), num, cap, i);
        HeaderSame(w, Window());
        current := current + cap + NODE_HEADER;
        i := i + 1;
      }
      ClearTail(h);
      free := Upto(num);
    }
  }

  function Upto(n: nat): (c: seq<nat>)
    ensures |c| == n && forall i | 0 <= i < n :: c[i] == i
  {
    seq(n, i requires 0 <= i < n => i)
  }

  /** What `create` writes into node `k`; the flags of the last one are cleared at the end. */
  predicate Inited(w: seq<Byte>, num: nat, cap: nat, k: nat) {
    var a := At(k, cap);
    && LIST_HEADER <= a && a + cap + NODE_HEADER <= |w|
    && Load(w, a, 4) == cap && Load(w, a + 4, 4) == 0 && Load(w, a + 8, 4) == 0
    && (k + 1 < num ==> LIST_HEADER + Load(w, a + 12, 4) == At(k + 1, cap) && w[a + 16] == HAS_NEXT)
  }

  lemma FirstBytes(i: nat, cap: nat)
    ensures LIST_HEADER <= At(i, cap)
  {
    Times(0, i, cap + NODE_HEADER);
  }

  lemma FirstAt(cap: nat)
    ensures At(0, cap) == LIST_HEADER
  {
  }

  lemma LastAt(num: nat, cap: nat)
    requires 0 < num
    ensures LIST_HEADER <= At(num - 1, cap) && At(num - 1, cap) + cap + NODE_HEADER == WindowSize(num, cap)
    ensures At(0, cap) == LIST_HEADER
  {
    var s := cap + NODE_HEADER;
    assert num * s == (num - 1) * s + s;
    Times(0, num - 1, s);
  }

  lemma NextAt(i: nat, num: nat, cap: nat)
    requires i < num
    ensures LIST_HEADER <= At(i, cap) && At(i + 1, cap) == At(i, cap) + cap + NODE_HEADER <= WindowSize(num, cap)
  {
    LastAt(i + 1, cap);
    Inside(i, num, cap);
  }

  /** The first byte of a zero word is zero. */
  lemma ZeroFlag(w: seq<Byte>, a: nat)
    requires a + 4 <= |w| && Load(w, a, 4) == 0
    ensures w[a] == 0
  {
    assert w[a..a + 4][0] == w[a];
  }

  lemma InitedMore(w: seq<Byte>, r: seq<Byte>, num: nat, cap: nat, i: nat)
    requires |r| == |w| == WindowSize(num, cap) && i < num && forall k | 0 <= k < i :: Inited(w, num, cap, k)
    requires forall x | 0 <= x < |w| && !(At(i, cap) <= x < At(i, cap) + NODE_HEADER) :: r[x] == w[x]
    requires Inited(r, num, cap, i)
    ensures forall k | 0 <= k < i + 1 :: Inited(r, num, cap, k)
  {
    forall k | 0 <= k < i ensures Inited(r, num, cap, k) {
      InitedElsewhere(w, r, num, cap, i, k);
    }
  }

  lemma InitedElsewhere(w: seq<Byte>, r: seq<Byte>, num: nat, cap: nat, i: nat, k: nat)
    requires |r| == |w| == WindowSize(num, cap) && i < num && k < i && Inited(w, num, cap, k)
    requires forall x | 0 <= x < |w| && !(At(i, cap) <= x < At(i, cap) + NODE_HEADER) :: r[x] == w[x]
    ensures Inited(r, num, cap, k)
  {
    hide Load;
    Spread(k, i, cap);
    var a := At(k, cap);
    LoadSame(w, r, a, 4);
    LoadSame(w, r, a + 4, 4);
    LoadSame(w, r, a + 8, 4);
    LoadSame(w, r, a + 12, 4);
  }

  /** The nodes of a new list are free, in address order. */
  lemma CreatedOk(w: seq<Byte>, r: seq<Byte>, num: nat, cap: nat)
    requires 0 < num && 0 < cap && |r| == |w| == WindowSize(num, cap) < U32_LIMIT && LIST_HEADER <= |w|
    requires HeaderOk(HeaderOf(r), num, cap, Upto(num))
    requires forall k | 0 <= k < num :: Inited(w, num, cap, k)
    requires var b := At(num - 1, cap) + 16;
             b + 4 <= |w| && r[b] == 0 && forall x | 0 <= x < |w| && !(b <= x < b + 4) :: r[x] == w[x]
    ensures ListOk(r, num, cap, Upto(num))
  {
    hide Inited;
    hide FreeOk;
    hide NodeOk;
    hide HeaderOk;
    hide Load;
    hide At;
    var free := Upto(num);
    forall k | 0 <= k < num ensures NodeOk(r, cap, k) && FreeOk(r, cap, free, k) {
      CreatedNode(w, r, num, cap, k);
    }
  }

  lemma CreatedNode(w: seq<Byte>, r: seq<Byte>, num: nat, cap: nat, k: nat)
    requires k < num && |r| == |w| == WindowSize(num, cap) && Inited(w, num, cap, k)
    requires var b := At(num - 1, cap) + 16;
             b + 4 <= |w| && r[b] == 0 && forall x | 0 <= x < |w| && !(b <= x < b + 4) :: r[x] == w[x]
    ensures NodeOk(r, cap, k) && FreeOk(r, cap, Upto(num), k)
  {
    hide Load;
    if k < num - 1 { Spread(k, num - 1, cap); }
    hide WindowSize;
    var a := At(k, cap);
    LoadSame(w, r, a, 4);
    LoadSame(w, r, a + 4, 4);
    LoadSame(w, r, a + 8, 4);
    if k < num - 1 { LoadSame(w, r, a + 12, 4); }
  }

  lemma ScribbleKeeps(w: seq<Byte>, r: seq<Byte>, num: nat, cap: nat, free: seq<nat>, i: nat)
    requires ListOk(w, num, cap, free) && i < num && i !in free && |r| == |w|
    requires forall x | 0 <= x < |w| && !(At(i, cap) + 4 <= x < At(i, cap) + NODE_HEADER + cap) :: r[x] == w[x]
    ensures ListOk(r, num, cap, free) && forall j | 0 <= j < num && j != i :: SameNode(w, r, cap, j)
  {
    hide Load;
    hide FreeOk;
    hide NodeOk;
    hide At;
    hide WindowSize;
    Inside(i, num, cap);
    FirstBytes(i, cap);
    HeaderSame(w, r);
    forall j | 0 <= j < num && j != i ensures SameNode(w, r, cap, j) {
      Inside(j, num, cap);
      forall x | At(j, cap) <= x < At(j, cap) + cap + NODE_HEADER ensures r[x] == w[x] { Apart(j, i, cap, x); }
    }
    forall j | 0 <= j < num ensures NodeOk(r, cap, j) {
      if j != i { SameNodeOk(w, r, cap, j); } else { CapOnly(w, r, num, cap, i); }
    }
    forall k | 0 <= k < |free| ensures FreeOk(r, cap, free, k) {
      assert FreeOk(w, cap, free, k);
      SameFree(w, r, cap, free, k, free, k);
    }
  }

  lemma CapOnly(w: seq<Byte>, r: seq<Byte>, num: nat, cap: nat, i: nat)
    requires |r| == |w| && NodeOk(w, cap, i)
    requires forall x | At(i, cap) <= x < At(i, cap) + 4 :: r[x] == w[x]
    ensures NodeOk(r, cap, i)
  {
    hide Load;
    LoadSame(w, r, At(i, cap), 4);
  }

  /** A push, put together: the node reset, then the list header, then the link. */
  lemma PushDone(w: seq<Byte>, w1: seq<Byte>, w2: seq<Byte>, r: seq<Byte>, num: nat, cap: nat, free: seq<nat>,
                 i: nat, a: nat, b: nat)
    requires ListOk(w, num, cap, free) && i < num && i !in free && |r| == |w| == |w1| == |w2|
    requires a == At(i, cap) && b == At(free[|free| - 1], cap) && a + NODE_HEADER <= |w| && b + NODE_HEADER <= |w|
    requires forall x | 0 <= x < |w| && !(a + 4 <= x < a + NODE_HEADER) :: w1[x] == w[x]
    requires Load(w1, a + 4, 4) == 0 && Load(w1, a + 8, 4) == 0 && w1[a + 16] == 0
    requires BodySame(w1, w2) && HeaderOk(HeaderOf(r), num, cap, free + [i])
    requires forall x | 0 <= x < |w| && !(b + 12 <= x < b + 17) :: r[x] == w2[x]
    requires Load(r, b + 12, 4) == a - LIST_HEADER && w2[b + 16] < 2 && r[b + 16] == 1
    ensures PushOf(w, r, num, cap, free, i)
  {
    hide Load;
    LastFree(w, num, cap, free, i);
    hide At;
    LoadSame(w1, r, a + 4, 4);
    LoadSame(w1, r, a + 8, 4);
    LoadSame(w, r, b + 4, 4);
    LoadSame(w, r, b + 8, 4);
  }

  lemma SmallNum(num: nat, cap: nat)
    ensures num <= WindowSize(num, cap)
  {
    var s := cap + NODE_HEADER;
    Times(1, s, num);
    assert num * s == s * num;
  }

  lemma Stored4(w: seq<Byte>, off: nat, v: nat)
    requires off + 4 <= |w| && v < U32_LIMIT
    ensures var r := Store(w, off, v, 4);
            Load(r, off, 4) == v && forall x | 0 <= x < |w| && !(off <= x < off + 4) :: r[x] == w[x]
  {
    Widths();
    LoadStored(w, off, v, 4);
  }

  /** The last free node, and a node that is not free. */
  lemma LastFree(w: seq<Byte>, num: nat, cap: nat, free: seq<nat>, i: nat)
    requires ListOk(w, num, cap, free) && i !in free
    ensures var t := free[|free| - 1];
            && FreeOk(w, cap, free, |free| - 1) && At(t, cap) + cap + NODE_HEADER <= |w| && t != i
            && LIST_HEADER <= At(t, cap) && LIST_HEADER <= At(i, cap)
            && (At(t, cap) + cap + NODE_HEADER <= At(i, cap) || At(i, cap) + cap + NODE_HEADER <= At(t, cap))
  {
    hide Load;
    var t := free[|free| - 1];
    assert FreeOk(w, cap, free, |free| - 1);
    if t < i { Spread(t, i, cap); } else { Spread(i, t, cap); }
  }

  /** Nothing outside the window changed and nothing inside did. */
  lemma Whole(m: seq<Byte>, r: seq<Byte>, base: nat, len: nat)
    requires Outside(m, r, base, len) && r[base..base + len] == m[base..base + len]
    ensures r == m
  {
    assert m == m[..base] + m[base..base + len] + m[base + len..];
    assert r == r[..base] + r[base..base + len] + r[base + len..];
  }

  /** The links of node `i` seen through a change of the list header. */
  lemma NodeLoads(w: seq<Byte>, r: seq<Byte>, a: nat)
    requires BodySame(w, r) && LIST_HEADER <= a && a + NODE_HEADER <= |w|
    ensures Load(r, a, 4) == Load(w, a, 4) && Load(r, a + 4, 4) == Load(w, a + 4, 4)
    ensures Load(r, a + 8, 4) == Load(w, a + 8, 4) && Load(r, a + 12, 4) == Load(w, a + 12, 4)
  {
    LoadSame(w, r, a, 4);
    LoadSame(w, r, a + 4, 4);
    LoadSame(w, r, a + 8, 4);
    LoadSame(w, r, a + 12, 4);
  }

  lemma FirstFree(w: seq<Byte>, num: nat, cap: nat, free: seq<nat>)
    requires ListOk(w, num, cap, free)
    ensures FreeOk(w, cap, free, 0) && At(free[0], cap) + cap + NODE_HEADER <= |w|
    ensures Load(w, At(free[0], cap), 4) == cap
  {
    hide Load;
    assert NodeOk(w, cap, free[0]);
  }

  lemma LoadBound(w: seq<Byte>, off: nat)
    requires off + 4 <= |w|
    ensures Load(w, off, 4) < U32_LIMIT
  {
    LittleOfBytes(w[off..off + 4]);
    Widths();
  }
}
