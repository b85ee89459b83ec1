/** The buffer manager's memory: a header of 8 bytes (number of lists, length), then the lists one
    behind the other.  `create` cuts them by percentage, `mapping` finds them again. */
module PoolLayout {
  import opened Basics
  import opened Bytes
  import opened BufferLists

  const MANAGER_HEADER := 8

  datatype SizePercent = SizePercent(size: nat, percent: nat)

  // ---------------------------------------------------------------------------------------------
  // The arithmetic of `create`
  // ---------------------------------------------------------------------------------------------

  /** The percentage of the region holds `n` buffers of the class, and not one more. */
  predicate Cut(region: nat, pair: SizePercent, n: nat) {
    n * (pair.size + NODE_HEADER) * 100 <= region * pair.percent < (n + 1) * (pair.size + NODE_HEADER) * 100
  }

  /** How many buffers of one class the region holds. */
  function Share(region: nat, pair: SizePercent): nat {
    region * pair.percent / 100 / (pair.size + NODE_HEADER)
  }

  lemma ShareIsCut(region: nat, pair: SizePercent)
    ensures Cut(region, pair, Share(region, pair))
    ensures Share(region, pair) > 0 <==> (pair.size + NODE_HEADER) * 100 <= region * pair.percent
  {
    ShareFits(region, pair);
    var a, s, n := region * pair.percent / 100, pair.size + NODE_HEADER, Share(region, pair);
    Floor(a, s);
    assert a + 1 <= (n + 1) * s;
    Times(a + 1, (n + 1) * s, 100);
    if n > 0 { Times(s, n * s, 100) by { Times(1, n, s); } }
  }

  lemma Floor(a: nat, s: nat)
    requires s > 0
    ensures a < (a / s + 1) * s
  {
    assert a == (a / s) * s + a % s;
  }

  function SumPercent(pairs: seq<SizePercent>): nat {
    if pairs == [] then 0 else SumPercent(pairs[..|pairs| - 1]) + pairs[|pairs| - 1].percent
  }

  /** What the lists of `pairs` take, headers included. */
  function Taken(region: nat, pairs: seq<SizePercent>): nat {
    if pairs == [] then 0
    else
      var last := pairs[|pairs| - 1];
      Taken(region, pairs[..|pairs| - 1]) + WindowSize(Share(region, last), last.size)
  }

  lemma ShareFits(region: nat, pair: SizePercent)
    ensures Share(region, pair) * (pair.size + NODE_HEADER) * 100 <= region * pair.percent
  {
    var a, s := region * pair.percent / 100, pair.size + NODE_HEADER;
    assert a * 100 <= region * pair.percent;
    assert (a / s) * s <= a;
  }

  lemma {:induction false} TakenShare(region: nat, pairs: seq<SizePercent>)
    ensures (Taken(region, pairs) - LIST_HEADER * |pairs|) * 100 <= region * SumPercent(pairs)
  {
    if pairs != [] {
      var front, last := pairs[..|pairs| - 1], pairs[|pairs| - 1];
      TakenShare(region, front);
      ShareFits(region, last);
      WindowOf(region, last);
      hide Share;
      hide WindowSize;
      Distribute(region, SumPercent(front), last.percent);
    }
  }

  lemma WindowOf(region: nat, pair: SizePercent)
    ensures WindowSize(Share(region, pair), pair.size) == LIST_HEADER + Share(region, pair) * (pair.size + NODE_HEADER)
  {
  }

  lemma Distribute(r: nat, a: nat, b: nat)
    ensures r * (a + b) == r * a + r * b
  {
  }

  /** The lists never take more than their percentage, so never more than the region. */
  lemma TakenFits(region: nat, pairs: seq<SizePercent>)
    requires SumPercent(pairs) <= 100
    ensures Taken(region, pairs) <= LIST_HEADER * |pairs| + region
  {
    hide Taken;
    TakenShare(region, pairs);
    Times(SumPercent(pairs), 100, region);
  }

  lemma {:induction false} SumPercentPrefix(pairs: seq<SizePercent>, n: nat)
    requires n <= |pairs|
    ensures SumPercent(pairs[..n]) <= SumPercent(pairs)
    decreases |pairs| - n
  {
    if n == |pairs| {
      assert pairs[..n] == pairs;
    } else {
      SumPercentPrefix(pairs, n + 1);
      assert pairs[..n + 1][..n] == pairs[..n];
    }
  }

  /** When `create` succeeds: the percentages fit, and every class gets at least one buffer. */
  predicate Divisible(region: nat, pairs: seq<SizePercent>) {
    && SumPercent(pairs) <= 100
    && forall k | 0 <= k < |pairs| :: pairs[k].size > 0 && (pairs[k].size + NODE_HEADER) * 100 <= region * pairs[k].percent
  }

  // ---------------------------------------------------------------------------------------------
  // One list
  // ---------------------------------------------------------------------------------------------

  /** `BufferList::create`: fails on an empty geometry, on one that overflows 32 bits, and on one the
      memory does not hold; otherwise all nodes are free. */
  method CreateList(num: nat, cap: nat, mem: array<Byte>, base: nat) returns (r: Option<BufferList>)
    requires mem.Length < U32_LIMIT
    modifies mem
    ensures r == None <==>
            num == 0 || cap == 0 || U32_LIMIT <= WindowSize(num, cap) || mem.Length < base + WindowSize(num, cap)
    ensures r == None ==> mem[..] == old(mem[..])
    ensures r.Some? ==>
      && fresh(r.value) && r.value.mem == mem && r.value.base == base && r.value.num == num && r.value.cap == cap
      && r.value.Valid() && r.value.free == Upto(num)
      && Outside(old(mem[..]), mem[..], base, WindowSize(num, cap))
  {
    if num == 0 || cap == 0 {
      return None;
    }
    LastAt(num, cap);
    hide WindowSize;
    var size := WindowSize(num, cap);
    if size >= U32_LIMIT || mem.Length < base + size {
      return None;
    }
    var l := new BufferList(mem, base, num, cap, []);
    l.Init();
    return Some(l);
  }

  /** Where a list lies, how many nodes it has, and how many bytes each holds. */
  datatype Geometry = Geometry(base: nat, num: nat, cap: nat) {
    function End(): nat { base + WindowSize(num, cap) }
  }

  /** What a list header at `base` says. */
  function GeometryAt(m: seq<Byte>, base: nat): Geometry
    requires base + LIST_HEADER <= |m|
  {
    Geometry(base, Load(m, base + 4, 4), Load(m, base + 16, 4))
  }

  /** The memory holds a list header at `base` and the nodes it announces. */
  predicate ListFits(m: seq<Byte>, base: nat) {
    base + LIST_HEADER <= |m| && GeometryAt(m, base).End() <= |m|
  }

  /** `BufferList::mapping`, on any memory: the geometry is read from the list header, and refused
      exactly when the nodes it announces do not lie in the memory. */
  method MapList(mem: array<Byte>, base: nat) returns (r: Option<Geometry>)
    requires mem.Length < U32_LIMIT
    ensures r == if ListFits(mem[..], base) then Some(GeometryAt(mem[..], base)) else None
  {
    hide Load;
    if mem.Length < base + LIST_HEADER {
      return None;
    }
    var num := LoadFrom(mem, base + 4, 4);
    var cap := LoadFrom(mem, base + 16, 4);
    var need := WindowSize(num, cap);
    if need >= U32_LIMIT || base + need > mem.Length {
      return None;
    }
    return Some(Geometry(base, num, cap));
  }

  // ---------------------------------------------------------------------------------------------
  // All lists
  // ---------------------------------------------------------------------------------------------

  /** Where the first `n` lists end. */
  function End(lists: seq<BufferList>, offset: nat, n: nat): nat
    requires n <= |lists|
  {
    if n == 0 then offset + MANAGER_HEADER
    else End(lists, offset, n - 1) + WindowSize(lists[n - 1].num, lists[n - 1].cap)
  }

  /** The lists lie one behind the other. */
  predicate Stacked(lists: seq<BufferList>, offset: nat) {
    forall k | 0 <= k < |lists| :: lists[k].base == End(lists, offset, k)
  }

  lemma {:induction false} Before(lists: seq<BufferList>, offset: nat, k: nat, l: nat)
    requires k < l <= |lists|
    ensures End(lists, offset, k) + WindowSize(lists[k].num, lists[k].cap) <= End(lists, offset, l)
    ensures offset + MANAGER_HEADER <= End(lists, offset, k)
    decreases l
  {
    if k + 1 < l { Before(lists, offset, k, l - 1); }
    if k > 0 { Before(lists, offset, 0, k); }
  }

  lemma {:induction false} EndSame(a: seq<BufferList>, b: seq<BufferList>, offset: nat, n: nat)
    requires n <= |a| && n <= |b| && forall k | 0 <= k < n :: a[k].num == b[k].num && a[k].cap == b[k].cap
    ensures End(a, offset, n) == End(b, offset, n)
  {
    if n > 0 { EndSame(a, b, offset, n - 1); }
  }

  /** A write to one window leaves another alone. */
  lemma WindowKept(m: seq<Byte>, r: seq<Byte>, base: nat, len: nat, b: nat, n: nat)
    requires Outside(m, r, base, len) && b + n <= |m| && (b + n <= base || base + len <= b)
    ensures r[b..b + n] == m[b..b + n]
  {
    forall x | b <= x < b + n ensures r[x] == m[x] {
      if x < base {
        assert r[..base][x] == m[..base][x];
      } else {
        assert r[base + len..][x - base - len] == m[base + len..][x - base - len];
      }
    }
  }

  /** Well-formed lists, one behind the other in `mem`. */
  ghost predicate LaidOut(lists: seq<BufferList>, mem: array<Byte>, offset: nat)
    reads mem, lists
  {
    && Stacked(lists, offset)
    && (forall k | 0 <= k < |lists| :: lists[k].mem == mem && lists[k].Valid())
    && (forall k, l | 0 <= k < l < |lists| :: lists[k] != lists[l])
  }

  ghost function FreeOf(lists: seq<BufferList>): (f: seq<seq<nat>>)
    reads lists
    ensures |f| == |lists| && forall k | 0 <= k < |lists| :: f[k] == lists[k].free
  {
    seq(|lists|, k requires 0 <= k < |lists| reads lists => lists[k].free)
  }

  /** List `l` in memory `m`. */
  predicate InMemory(m: seq<Byte>, l: BufferList, free: seq<nat>) {
    var n := WindowSize(l.num, l.cap);
    LIST_HEADER <= n && l.base + n <= |m| && ListOk(m[l.base..l.base + n], l.num, l.cap, free)
  }

  predicate AllInMemory(m: seq<Byte>, lists: seq<BufferList>, frees: seq<seq<nat>>) {
    |frees| == |lists| && forall k | 0 <= k < |lists| :: InMemory(m, lists[k], frees[k])
  }

  lemma ToMemory(l: BufferList)
    requires l.Valid()
    ensures InMemory(l.mem[..], l, l.free)
  {
    hide ListOk;
    hide WindowSize;
    var n := WindowSize(l.num, l.cap);
    assert l.Window() == l.mem[..][l.base..l.base + n];
  }

  lemma FromMemory(l: BufferList)
    requires InMemory(l.mem[..], l, l.free)
    ensures l.Valid()
  {
    hide ListOk;
    hide WindowSize;
    var n := WindowSize(l.num, l.cap);
    assert l.Window() == l.mem[..][l.base..l.base + n];
  }

  lemma AllToMemory(lists: seq<BufferList>, mem: array<Byte>, offset: nat)
    requires LaidOut(lists, mem, offset)
    ensures AllInMemory(mem[..], lists, FreeOf(lists))
  {
    hide InMemory;
    forall k | 0 <= k < |lists| ensures InMemory(mem[..], lists[k], lists[k].free) { ToMemory(lists[k]); }
  }

  lemma AllFromMemory(lists: seq<BufferList>, mem: array<Byte>, offset: nat)
    requires AllInMemory(mem[..], lists, FreeOf(lists)) && Stacked(lists, offset)
    requires forall k | 0 <= k < |lists| :: lists[k].mem == mem
    requires forall k, l | 0 <= k < l < |lists| :: lists[k] != lists[l]
    ensures LaidOut(lists, mem, offset)
  {
    hide InMemory;
    forall k | 0 <= k < |lists| ensures lists[k].Valid() { FromMemory(lists[k]); }
  }

  /** What is written away from the windows of all lists leaves them as they are. */
  lemma AllKept(m: seq<Byte>, r: seq<Byte>, lists: seq<BufferList>, frees: seq<seq<nat>>, base: nat, len: nat)
    requires AllInMemory(m, lists, frees) && Outside(m, r, base, len)
    requires forall k | 0 <= k < |lists| ::
               lists[k].base + WindowSize(lists[k].num, lists[k].cap) <= base || base + len <= lists[k].base
    ensures AllInMemory(r, lists, frees)
  {
    hide ListOk;
    hide WindowSize;
    forall k | 0 <= k < |lists| ensures InMemory(r, lists[k], frees[k]) {
      WindowKept(m, r, base, len, lists[k].base, WindowSize(lists[k].num, lists[k].cap));
    }
  }

  /** List `i` changed inside its own window. */
  lemma OneChanged(m: seq<Byte>, r: seq<Byte>, lists: seq<BufferList>, frees: seq<seq<nat>>, offset: nat, i: nat,
                   free: seq<nat>)
    requires AllInMemory(m, lists, frees) && Stacked(lists, offset) && i < |lists|
    requires Outside(m, r, lists[i].base, WindowSize(lists[i].num, lists[i].cap)) && InMemory(r, lists[i], free)
    ensures AllInMemory(r, lists, frees[i := free])
  {
    hide ListOk;
    hide WindowSize;
    hide End;
    forall k | 0 <= k < |lists| ensures InMemory(r, lists[k], frees[i := free][k]) {
      if k != i {
        Elsewhere(lists, offset, i, k);
        WindowKept(m, r, lists[i].base, WindowSize(lists[i].num, lists[i].cap), lists[k].base,
                   WindowSize(lists[k].num, lists[k].cap));
      }
    }
  }

  class PoolMemory {
    const mem: array<Byte>
    const offset: nat
    const lists: seq<BufferList>

    constructor (mem: array<Byte>, offset: nat, lists: seq<BufferList>)
      ensures this.mem == mem && this.offset == offset && this.lists == lists
    {
      this.mem, this.offset, this.lists := mem, offset, lists;
    }

    ghost predicate Valid()
      reads mem, lists
    {
      && 0 < |lists| < U16_LIMIT && offset + MANAGER_HEADER <= End(lists, offset, |lists|) <= mem.Length < U32_LIMIT
      && LaidOut(lists, mem, offset)
      && Load(mem[..], offset, 2) == |lists|
      && Load(mem[..], offset + 4, 4) == End(lists, offset, |lists|) - MANAGER_HEADER
    }

    /** The free nodes of every list, oldest first. */
    ghost function Free(): (f: seq<seq<nat>>)
      reads lists
    {
      FreeOf(lists)
    }

    /** One list worked inside its own window. */
    ghost predicate Ready(k: nat, frees: seq<seq<nat>>, m: seq<Byte>)
      reads mem, lists
    {
      && k < |lists| && |frees| == |lists| && lists[k].mem == mem && lists[k].Valid()
      && Outside(m, mem[..], lists[k].base, WindowSize(lists[k].num, lists[k].cap))
      && FreeOf(lists) == frees[k := lists[k].free]
    }

    /** Then the pool is intact. */
    lemma Settle(k: nat, frees: seq<seq<nat>>, m: seq<Byte>)
      requires 0 < |lists| < U16_LIMIT && offset + MANAGER_HEADER <= End(lists, offset, |lists|) <= mem.Length < U32_LIMIT
      requires Stacked(lists, offset) && (forall i | 0 <= i < |lists| :: lists[i].mem == mem)
      requires (forall i, j | 0 <= i < j < |lists| :: lists[i] != lists[j])
      requires AllInMemory(m, lists, frees) && Ready(k, frees, m)
      requires Load(m, offset, 2) == |lists| && Load(m, offset + 4, 4) == End(lists, offset, |lists|) - MANAGER_HEADER
      ensures Valid()
    {
      hide ListOk;
      hide Load;
      hide End;
      hide InMemory;
      hide WindowSize;
      ToMemory(lists[k]);
      OneChanged(m, mem[..], lists, frees, offset, k, lists[k].free);
      AllFromMemory(lists, mem, offset);
      BelowEnd(lists, offset, k);
      HeaderKept(m, mem[..], offset, lists[k].base, WindowSize(lists[k].num, lists[k].cap));
    }

    /** A pop of list `k`. */
    method PopFrom(k: nat) returns (r: Option<Slice>)
      requires Valid() && k < |lists|
      modifies mem, lists[k]
      ensures Valid() && (r == None <==> |old(Free())[k]| == 1)
      ensures r == None ==> Free() == old(Free()) && mem[..] == old(mem[..])
      ensures r.Some? ==>
        && old(Free())[k] != [] && Free() == old(Free())[k := old(Free())[k][1..]]
        && r.value == Slice(lists[k].base + At(old(Free())[k][0], lists[k].cap), lists[k].cap, 0, 0)
        && PopOf(old(lists[k].Window()), lists[k].Window(), lists[k].num, lists[k].cap, old(Free())[k])
      ensures Outside(old(mem[..]), mem[..], lists[k].base, WindowSize(lists[k].num, lists[k].cap))
    {
      hide ListOk;
      hide Load;
      hide End;
      hide WindowSize;
      hide Outside;
      hide PopOf;
      ghost var m, frees := mem[..], FreeOf(lists);
      AllToMemory(lists, mem, offset);
      NotEmpty(lists[k]);
      r := lists[k].Pop();
      assert FreeOf(lists) == frees[k := lists[k].free];
      Settle(k, frees, m);
    }

    /** A push of node `i` to list `k`. */
    method PushTo(k: nat, at: nat, ghost i: nat)
      requires Valid() && k < |lists| && i < lists[k].num && i !in Free()[k] && at == lists[k].base + At(i, lists[k].cap)
      modifies mem, lists[k]
      ensures Valid() && Free() == old(Free())[k := old(Free())[k] + [i]]
      ensures PushOf(old(lists[k].Window()), lists[k].Window(), lists[k].num, lists[k].cap, old(Free())[k], i)
      ensures Outside(old(mem[..]), mem[..], lists[k].base, WindowSize(lists[k].num, lists[k].cap))
    {
      hide ListOk;
      hide Load;
      hide End;
      hide WindowSize;
      hide Outside;
      hide PushOf;
      ghost var m, frees := mem[..], FreeOf(lists);
      AllToMemory(lists, mem, offset);
      lists[k].Push(at, i);
      assert FreeOf(lists) == frees[k := lists[k].free];
      Settle(k, frees, m);
    }

    /** A write by the holder of node `i` of list `k`. */
    method WriteTo(k: nat, ghost i: nat, at: nat, bytes: seq<Byte>)
      requires Valid() && k < |lists| && i < lists[k].num && i !in Free()[k]
      requires At(i, lists[k].cap) + 4 <= at
      requires at + |bytes| <= At(i, lists[k].cap) + NODE_HEADER + lists[k].cap
      modifies mem
      ensures Valid() && Free() == old(Free()) && lists[k].base + at + |bytes| <= mem.Length
      ensures mem[..] == Splice(old(mem[..]), lists[k].base + at, bytes)
    {
      hide Splice;
      hide At;
      hide InMemory;
      hide Stacked;
      hide ListOk;
      hide Load;
      hide End;
      hide WindowSize;
      hide Outside;
      ghost var m, frees := mem[..], FreeOf(lists);
      AllToMemory(lists, mem, offset);
      Inside(i, lists[k].num, lists[k].cap);
      lists[k].Scribble(i, at, bytes);
      assert FreeOf(lists) == frees[k := lists[k].free];
      Settle(k, frees, m);
    }
  }

  lemma NotEmpty(l: BufferList)
    requires l.Valid()
    ensures l.free != []
  {
  }

  /** Two lists of the pool do not overlap. */
  lemma Elsewhere(lists: seq<BufferList>, offset: nat, k: nat, l: nat)
    requires Stacked(lists, offset) && k < |lists| && l < |lists| && k != l
    ensures var a, b := lists[k], lists[l];
            b.base + WindowSize(b.num, b.cap) <= a.base || a.base + WindowSize(a.num, a.cap) <= b.base
  {
    hide WindowSize;
    if l < k { Before(lists, offset, l, k); } else { Before(lists, offset, k, l); }
  }

  lemma HeaderKept(m: seq<Byte>, r: seq<Byte>, offset: nat, base: nat, len: nat)
    requires Outside(m, r, base, len) && offset + MANAGER_HEADER <= base
    ensures |r| == |m| && offset + MANAGER_HEADER <= |m|
    ensures Load(r, offset, 2) == Load(m, offset, 2) && Load(r, offset + 4, 4) == Load(m, offset + 4, 4)
  {
    WindowKept(m, r, base, len, offset, 2);
    WindowKept(m, r, base, len, offset + 4, 4);
    SameLoad(m, r, offset, 2);
    SameLoad(m, r, offset + 4, 4);
  }

  lemma SameLoad(m: seq<Byte>, r: seq<Byte>, at: nat, n: nat)
    requires at + n <= |m| == |r| && r[at..at + n] == m[at..at + n]
    ensures Load(r, at, n) == Load(m, at, n)
  {
  }

  // ---------------------------------------------------------------------------------------------
  // `create`
  // ---------------------------------------------------------------------------------------------

  /** The lists of a pool after `create`: as many buffers of each class as its percentage of the region
      holds, every node free. */
  ghost predicate Carved(lists: seq<BufferList>, region: nat, pairs: seq<SizePercent>)
    reads lists
  {
    && |lists| == |pairs|
    && forall k | 0 <= k < |lists| ::
         lists[k].cap == pairs[k].size && Cut(region, pairs[k], lists[k].num) && lists[k].free == Upto(lists[k].num)
  }

  lemma MeasuredIsCarved(lists: seq<BufferList>, region: nat, pairs: seq<SizePercent>)
    requires Measured(lists, region, pairs)
    ensures Carved(lists, region, pairs)
  {
    hide Share;
    hide Cut;
    forall k | 0 <= k < |lists| ensures Cut(region, pairs[k], lists[k].num) { ShareIsCut(region, pairs[k]); }
  }

  /** The same by the source's own arithmetic. */
  ghost predicate Measured(lists: seq<BufferList>, region: nat, pairs: seq<SizePercent>)
    reads lists
  {
    && |lists| == |pairs|
    && forall k | 0 <= k < |lists| ::
         && lists[k].cap == pairs[k].size && lists[k].num == Share(region, pairs[k])
         && lists[k].free == Upto(lists[k].num)
  }

  lemma {:induction false} EndIsTaken(lists: seq<BufferList>, offset: nat, region: nat, pairs: seq<SizePercent>)
    requires |lists| == |pairs|
    requires forall k | 0 <= k < |lists| :: lists[k].cap == pairs[k].size && lists[k].num == Share(region, pairs[k])
    ensures End(lists, offset, |lists|) == offset + MANAGER_HEADER + Taken(region, pairs)
  {
    if lists != [] {
      var n := |lists| - 1;
      EndIsTaken(lists[..n], offset, region, pairs[..n]);
      EndSame(lists, lists[..n], offset, n);
    }
  }

  /** The next list fits: its percentage of the region is still there. */
  lemma NextFits(region: nat, pairs: seq<SizePercent>, i: nat, used: nat, offset: nat, length: nat)
    requires i < |pairs| && SumPercent(pairs[..i + 1]) <= 100
    requires length == offset + MANAGER_HEADER + LIST_HEADER * |pairs| + region
    requires used == offset + MANAGER_HEADER + Taken(region, pairs[..i])
    ensures used + WindowSize(Share(region, pairs[i]), pairs[i].size) <= length
    ensures used + WindowSize(Share(region, pairs[i]), pairs[i].size)
            == offset + MANAGER_HEADER + Taken(region, pairs[..i + 1])
  {
    hide Share;
    hide WindowSize;
    assert pairs[..i + 1][..i] == pairs[..i];
    TakenFits(region, pairs[..i + 1]);
  }

  lemma Counted(m: seq<Byte>, offset: nat, n: nat)
    requires offset + 2 <= |m| && n < U16_LIMIT
    ensures Load(Store(m, offset, n, 2), offset, 2) == n
  {
    Widths();
    LoadStored(m, offset, n, 2);
  }

  lemma Nothing(region: nat, pairs: seq<SizePercent>, mem: array<Byte>, offset: nat)
    ensures SumPercent(pairs[..0]) == 0 && Taken(region, pairs[..0]) == 0
    ensures LaidOut([], mem, offset) && Measured([], region, pairs[..0]) && End([], offset, 0) == offset + MANAGER_HEADER
  {
  }

  lemma SumStep(pairs: seq<SizePercent>, i: nat)
    requires i < |pairs|
    ensures SumPercent(pairs[..i + 1]) == SumPercent(pairs[..i]) + pairs[i].percent
  {
    assert pairs[..i + 1][..i] == pairs[..i];
  }

  lemma StackedMore(lists: seq<BufferList>, offset: nat, l: BufferList)
    requires Stacked(lists, offset) && l.base == End(lists, offset, |lists|)
    ensures Stacked(lists + [l], offset)
  {
    hide WindowSize;
    hide End;
    var more := lists + [l];
    forall k | 0 <= k < |more| ensures more[k].base == End(more, offset, k) {
      EndSame(lists, more, offset, k);
      if k < |lists| { assert more[k] == lists[k]; }
    }
  }

  lemma Bottom(lists: seq<BufferList>, offset: nat)
    ensures offset + MANAGER_HEADER <= End(lists, offset, |lists|)
  {
    if lists != [] { Before(lists, offset, 0, |lists|); }
  }

  lemma BelowEnd(lists: seq<BufferList>, offset: nat, k: nat)
    requires Stacked(lists, offset) && k < |lists|
    ensures lists[k].base + WindowSize(lists[k].num, lists[k].cap) <= End(lists, offset, |lists|)
    ensures offset + MANAGER_HEADER <= lists[k].base
  {
    hide WindowSize;
    Before(lists, offset, k, |lists|);
  }

  lemma EndNext(lists: seq<BufferList>, offset: nat, l: BufferList)
    ensures End(lists + [l], offset, |lists| + 1) == End(lists, offset, |lists|) + WindowSize(l.num, l.cap)
  {
    EndSame(lists, lists + [l], offset, |lists|);
  }

  lemma CountKept(m: seq<Byte>, r: seq<Byte>, offset: nat, base: nat, len: nat)
    requires Outside(m, r, base, len) && offset + 2 <= base
    ensures |r| == |m| && Load(r, offset, 2) == Load(m, offset, 2)
  {
    WindowKept(m, r, base, len, offset, 2);
    SameLoad(m, r, offset, 2);
  }

  lemma OnlyThere(m: seq<Byte>, off: nat, v: nat, k: nat)
    requires off + k <= |m|
    ensures Outside(m, Store(m, off, v, k), off, k)
  {
  }

  /** One round of the loop of `create`. */
  method AddList(lists: seq<BufferList>, pairs: seq<SizePercent>, region: nat, mem: array<Byte>, offset: nat, used: nat)
    returns (r: Option<BufferList>)
    requires |lists| < |pairs| && SumPercent(pairs[..|lists| + 1]) <= 100 && mem.Length < U32_LIMIT
    requires mem.Length == offset + MANAGER_HEADER + LIST_HEADER * |pairs| + region
    requires LaidOut(lists, mem, offset) && Measured(lists, region, pairs[..|lists|])
    requires used == End(lists, offset, |lists|)
    modifies mem
    ensures r.Some? <==>
            pairs[|lists|].size > 0 && (pairs[|lists|].size + NODE_HEADER) * 100 <= region * pairs[|lists|].percent
    ensures r.Some? ==>
      && fresh(r.value) && LaidOut(lists + [r.value], mem, offset)
      && Measured(lists + [r.value], region, pairs[..|lists| + 1])
      && used + WindowSize(r.value.num, r.value.cap) == End(lists + [r.value], offset, |lists| + 1) <= mem.Length
      && Load(mem[..], offset, 2) == old(Load(mem[..], offset, 2))
  {
    hide WindowSize;
    hide Load;
    hide ListOk;
    hide Share;
    hide SumPercent;
    hide Taken;
    hide End;
    hide Stacked;
    hide InMemory;
    ghost var i, m := |lists|, mem[..];
    var pair := pairs[|lists|];
    ShareIsCut(region, pair);
    EndIsTaken(lists, offset, region, pairs[..i]);
    NextFits(region, pairs, i, used, offset, mem.Length);
    Bottom(lists, offset);
    AllToMemory(lists, mem, offset);
    ghost var frees := FreeOf(lists);
    r := CreateList(Share(region, pair), pair.size, mem, used);
    if r.Some? {
      StackedMore(lists, offset, r.value);
      forall k | 0 <= k < i ensures lists[k].base + WindowSize(lists[k].num, lists[k].cap) <= used {
        BelowEnd(lists, offset, k);
      }
      AllKept(m, mem[..], lists, frees, used, WindowSize(r.value.num, r.value.cap));
      assert FreeOf(lists) == frees;
      AllFromMemory(lists, mem, offset);
      CountKept(m, mem[..], offset, used, WindowSize(r.value.num, r.value.cap));
      EndNext(lists, offset, r.value);
      assert pairs[..i + 1][..i] == pairs[..i];
    }
  }

  /** `BufferManager::create`, on memory that holds the headers: it succeeds exactly when the
      percentages sum to at most 100 and each class gets a buffer, and never for lack of space. */
  method CreateInRoom(pairs: seq<SizePercent>, mem: array<Byte>, offset: nat) returns (r: Option<PoolMemory>)
    requires 0 < |pairs| < U16_LIMIT && mem.Length < U32_LIMIT
    requires offset + MANAGER_HEADER + LIST_HEADER * |pairs| <= mem.Length
    requires forall k | 0 <= k < |pairs| :: pairs[k].size < U32_LIMIT && pairs[k].percent < U32_LIMIT - 100
    modifies mem
    ensures var region := mem.Length - offset - LIST_HEADER * |pairs| - MANAGER_HEADER;
            && (r.Some? <==> Divisible(region, pairs))
            && (r.Some? ==>
                  && r.value.mem == mem && r.value.offset == offset && r.value.Valid()
                  && Carved(r.value.lists, region, pairs))
  {
    hide WindowSize;
    hide Load;
    hide ListOk;
    hide Share;
    hide SumPercent;
    hide End;
    hide LaidOut;
    hide Cut;
    var region := mem.Length - offset - LIST_HEADER * |pairs| - MANAGER_HEADER;
    StoreInto(mem, offset, |pairs|, 2);
    Counted(old(mem[..]), offset, |pairs|);
    var used, sum := MANAGER_HEADER + offset, 0;
    var lists: seq<BufferList> := [];
    Nothing(region, pairs, mem, offset);
    while |lists| < |pairs|
      invariant |lists| <= |pairs| && sum == SumPercent(pairs[..|lists|]) <= 100
      invariant forall k | 0 <= k < |lists| ::
                  pairs[k].size > 0 && (pairs[k].size + NODE_HEADER) * 100 <= region * pairs[k].percent
      invariant used == End(lists, offset, |lists|) <= mem.Length
      invariant LaidOut(lists, mem, offset) && Measured(lists, region, pairs[..|lists|])
      invariant Load(mem[..], offset, 2) == |pairs|
      decreases |pairs| - |lists|
    {
      SumStep(pairs, |lists|);
      sum := sum + pairs[|lists|].percent;
      if sum > 100 {
        SumPercentPrefix(pairs, |lists| + 1);
        return None;
      }
      var l := AddList(lists, pairs, region, mem, offset, used);
      if l == None {
        return None;
      }
      used := used + WindowSize(l.value.num, l.value.cap);
      lists := lists + [l.value];
    }
    assert pairs[..|lists|] == pairs;
    MeasuredIsCarved(lists, region, pairs);
    Bottom(lists, offset);
    Seal(lists, mem, offset, used);
    var p := new PoolMemory(mem, offset, lists);
    return Some(p);
  }

  const U64_LIMIT := 0x1_0000_0000_0000_0000

  /** The same loop on memory that does not hold the headers: the subtraction wraps, and whatever the
      numbers then are, some list does not find its room. */
  method CreateCramped(pairs: seq<SizePercent>, mem: array<Byte>, offset: nat) returns (ok: bool)
    requires 0 < |pairs| < U16_LIMIT && mem.Length < U32_LIMIT
    requires offset + 2 <= mem.Length < offset + MANAGER_HEADER + LIST_HEADER * |pairs|
    modifies mem
    ensures !ok
  {
    hide WindowSize;
    var region := U64_LIMIT + mem.Length - offset - LIST_HEADER * |pairs| - MANAGER_HEADER;
    StoreInto(mem, offset, |pairs|, 2);
    var used, sum, i := MANAGER_HEADER + offset, 0, 0;
    while i < |pairs|
      invariant i <= |pairs| && offset + MANAGER_HEADER + (LIST_HEADER + NODE_HEADER + 1) * i <= used
      invariant i > 0 ==> used <= mem.Length
    {
      sum := sum + pairs[i].percent;
      if sum > 100 {
        return false;
      }
      var num := (region * pairs[i].percent) % U64_LIMIT / 100 / (pairs[i].size + NODE_HEADER) % U32_LIMIT;
      var l := CreateList(num, pairs[i].size, mem, used);
      if l == None {
        return false;
      }
      OneNode(num, pairs[i].size);
      used := used + WindowSize(num, pairs[i].size);
      i := i + 1;
    }
    assert false;
  }

  lemma OneNode(num: nat, cap: nat)
    requires num > 0 && cap > 0
    ensures WindowSize(num, cap) >= LIST_HEADER + NODE_HEADER + 1
  {
    assert num * (cap + NODE_HEADER) >= cap + NODE_HEADER;
  }

  /** The memory holds the headers of the manager and of `n` lists. */
  predicate HeadersFit(len: nat, offset: nat, n: nat) {
    offset + MANAGER_HEADER + LIST_HEADER * n <= len
  }

  /** `BufferManager::create`. */
  method CreatePool(pairs: seq<SizePercent>, mem: array<Byte>, offset: nat) returns (r: Option<PoolMemory>)
    requires 0 < |pairs| < U16_LIMIT && mem.Length < U32_LIMIT
    requires mem.Length != offset + 1 && offset + MANAGER_HEADER < U32_LIMIT
    requires forall k | 0 <= k < |pairs| :: pairs[k].size < U32_LIMIT && pairs[k].percent < U32_LIMIT - 100
    modifies mem
    ensures r.Some? ==> HeadersFit(mem.Length, offset, |pairs|)
    ensures HeadersFit(mem.Length, offset, |pairs|) ==>
      var region := mem.Length - offset - LIST_HEADER * |pairs| - MANAGER_HEADER;
      && (r.Some? <==> Divisible(region, pairs))
      && (r.Some? ==>
            && r.value.mem == mem && r.value.offset == offset && r.value.Valid()
            && Carved(r.value.lists, region, pairs))
  {
    hide Divisible;
    hide Carved;
    if mem.Length <= offset {
      return None;
    }
    if offset + MANAGER_HEADER + LIST_HEADER * |pairs| <= mem.Length {
      r := CreateInRoom(pairs, mem, offset);
    } else {
      var ok := CreateCramped(pairs, mem, offset);
      assert !ok;
      r := None;
    }
  }

  /** The end of `create`: the length in use. */
  method Seal(lists: seq<BufferList>, mem: array<Byte>, offset: nat, used: nat)
    requires LaidOut(lists, mem, offset) && used == End(lists, offset, |lists|) <= mem.Length < U32_LIMIT
    requires offset + MANAGER_HEADER <= used
    modifies mem
    ensures LaidOut(lists, mem, offset) && Load(mem[..], offset + 4, 4) == used - MANAGER_HEADER
    ensures Load(mem[..], offset, 2) == old(Load(mem[..], offset, 2))
  {
    hide WindowSize;
    hide ListOk;
    hide Load;
    hide Store;
    hide End;
    ghost var m, frees := mem[..], FreeOf(lists);
    AllToMemory(lists, mem, offset);
    StoreInto(mem, offset + 4, used - MANAGER_HEADER, 4);
    Widths();
    LoadStored(m, offset + 4, used - MANAGER_HEADER, 4);
    LoadElsewhere(m, offset + 4, used - MANAGER_HEADER, 4, offset, 2);
    OnlyThere(m, offset + 4, used - MANAGER_HEADER, 4);
    forall k | 0 <= k < |lists| ensures offset + MANAGER_HEADER <= lists[k].base { BelowEnd(lists, offset, k); }
    AllKept(m, mem[..], lists, frees, offset + 4, 4);
    assert FreeOf(lists) == frees;
    AllFromMemory(lists, mem, offset);
  }

  /** The bytes of two different buffers, of one list or of two, do not overlap, and all lie in the
      memory behind the manager's header. */
  lemma BuffersApart(lists: seq<BufferList>, offset: nat, k: nat, i: nat, l: nat, j: nat)
    requires Stacked(lists, offset) && k < |lists| && l < |lists| && i < lists[k].num && j < lists[l].num && (k, i) != (l, j)
    ensures var a, b := lists[k].base + At(i, lists[k].cap), lists[l].base + At(j, lists[l].cap);
            && (a + NODE_HEADER + lists[k].cap <= b || b + NODE_HEADER + lists[l].cap <= a)
            && offset + MANAGER_HEADER <= a && a + NODE_HEADER + lists[k].cap <= End(lists, offset, |lists|)
  {
    hide WindowSize;
    hide At;
    hide End;
    Inside(i, lists[k].num, lists[k].cap);
    Inside(j, lists[l].num, lists[l].cap);
    FirstBytes(i, lists[k].cap);
    FirstBytes(j, lists[l].cap);
    BelowEnd(lists, offset, k);
    if k != l {
      Elsewhere(lists, offset, k, l);
    } else if i < j {
      Spread(i, j, lists[k].cap);
    } else {
      Spread(j, i, lists[k].cap);
    }
  }

  // ---------------------------------------------------------------------------------------------
  // `mapping`
  // ---------------------------------------------------------------------------------------------

  /** The memory holds `n` lists, one behind the other, from `at` on. */
  predicate ListsFit(m: seq<Byte>, at: nat, n: nat)
    decreases n
  {
    n == 0 || (ListFits(m, at) && ListsFit(m, GeometryAt(m, at).End(), n - 1))
  }

  function Geometries(m: seq<Byte>, at: nat, n: nat): (g: seq<Geometry>)
    requires ListsFit(m, at, n)
    ensures |g| == n
    decreases n
  {
    if n == 0 then [] else [GeometryAt(m, at)] + Geometries(m, GeometryAt(m, at).End(), n - 1)
  }

  /** What `mapping` asks of a memory: a manager header that announces lists and a length that is there,
      and the lists. */
  predicate PoolFits(m: seq<Byte>, offset: nat) {
    && offset + MANAGER_HEADER <= |m| && Load(m, offset, 2) > 0
    && MANAGER_HEADER + Load(m, offset + 4, 4) <= |m|
    && ListsFit(m, offset + MANAGER_HEADER, Load(m, offset, 2))
  }

  /** Whatever the memory holds, the lists that are found lie in it, behind the manager's header, and
      no two of them overlap. */
  lemma {:induction false} MappedInside(m: seq<Byte>, at: nat, n: nat, k: nat)
    requires ListsFit(m, at, n) && k < n
    ensures var g := Geometries(m, at, n);
            at <= g[k].base && g[k].End() <= |m| && forall l | k < l < n :: g[k].End() <= g[l].base
    decreases n
  {
    hide Load;
    hide WindowSize;
    var first := GeometryAt(m, at);
    var rest := Geometries(m, first.End(), n - 1);
    if k > 0 { MappedInside(m, first.End(), n - 1, k - 1); }
    forall l | k < l < n ensures Geometries(m, at, n)[k].End() <= Geometries(m, at, n)[l].base {
      if k == 0 { MappedInside(m, first.End(), n - 1, l - 1); }
    }
  }

  lemma {:induction false} FitsNext(m: seq<Byte>, at: nat, i: nat, g: Geometry)
    requires ListsFit(m, at, i)
    requires var end := if i == 0 then at else Geometries(m, at, i)[i - 1].End();
             ListFits(m, end) && g == GeometryAt(m, end)
    ensures ListsFit(m, at, i + 1) && Geometries(m, at, i + 1) == Geometries(m, at, i) + [g]
    decreases i
  {
    hide Load;
    hide WindowSize;
    if i > 0 {
      var next := GeometryAt(m, at).End();
      var rest := Geometries(m, next, i - 1);
      assert i > 1 ==> Geometries(m, at, i)[i - 1] == rest[i - 2];
      FitsNext(m, next, i - 1, g);
    } else {
      assert ListsFit(m, g.End(), 0);
    }
  }

  lemma {:induction false} NoFit(m: seq<Byte>, at: nat, i: nat, n: nat)
    requires i < n && ListsFit(m, at, i)
    requires !ListFits(m, if i == 0 then at else Geometries(m, at, i)[i - 1].End())
    ensures !ListsFit(m, at, n)
    decreases i
  {
    hide Load;
    hide WindowSize;
    if i > 0 {
      var next := GeometryAt(m, at).End();
      assert i > 1 ==> Geometries(m, at, i)[i - 1] == Geometries(m, next, i - 1)[i - 2];
      NoFit(m, next, i - 1, n - 1);
    }
  }

  /** `BufferManager::mapping`, on any memory (a header cut off in its length field is not looked for):
      it succeeds exactly when the manager's header and all lists it announces lie in the memory. */
  method MapGeometry(mem: array<Byte>, offset: nat) returns (r: Option<seq<Geometry>>)
    requires mem.Length < U32_LIMIT && (mem.Length <= offset + 4 || offset + MANAGER_HEADER <= mem.Length)
    ensures r.Some? <==> PoolFits(mem[..], offset)
    ensures r.Some? ==> r.value == Geometries(mem[..], offset + MANAGER_HEADER, Load(mem[..], offset, 2))
  {
    hide WindowSize;
    hide Load;
    if mem.Length <= offset + 4 {
      return None;
    }
    var count := LoadFrom(mem, offset, 2);
    var length := LoadFrom(mem, offset + 4, 4);
    if mem.Length < MANAGER_HEADER + length || count == 0 {
      return None;
    }
    ghost var m, at := mem[..], offset + MANAGER_HEADER;
    var used := MANAGER_HEADER;
    var found: seq<Geometry> := [];
    while |found| < count
      invariant |found| <= count && ListsFit(m, at, |found|) && found == Geometries(m, at, |found|)
      invariant offset + used == if found == [] then at else found[|found| - 1].End()
      decreases count - |found|
    {
      var l := MapList(mem, offset + used);
      if l == None {
        NoFit(m, at, |found|, count);
        return None;
      }
      FitsNext(m, at, |found|, l.value);
      used := used + WindowSize(l.value.num, l.value.cap);
      found := found + [l.value];
    }
    return Some(found);
  }

  predicate SaysSo(m: seq<Byte>, g: Geometry) {
    ListFits(m, g.base) && GeometryAt(m, g.base) == g
  }

  /** These lists lie one behind the other from `at` on, and their headers say what they are. */
  predicate Recorded(m: seq<Byte>, at: nat, g: seq<Geometry>) {
    && (g != [] ==> g[0].base == at) && (forall i | 0 < i < |g| :: g[i].base == g[i - 1].End())
    && (forall i | 0 <= i < |g| :: SaysSo(m, g[i]))
  }

  /** What is recorded is found. */
  lemma {:induction false} RecordedIsFound(m: seq<Byte>, at: nat, g: seq<Geometry>)
    requires Recorded(m, at, g)
    ensures ListsFit(m, at, |g|) && Geometries(m, at, |g|) == g
    decreases |g|
  {
    hide Load;
    hide WindowSize;
    if g != [] {
      assert SaysSo(m, g[0]);
      RecordedIsFound(m, g[0].End(), g[1..]);
      assert g == [g[0]] + g[1..];
    }
  }

  function GeometryOf(lists: seq<BufferList>): (g: seq<Geometry>)
    ensures |g| == |lists|
  {
    seq(|lists|, k requires 0 <= k < |lists| => Geometry(lists[k].base, lists[k].num, lists[k].cap))
  }

  /** A pool that was created and used is found as it is, wherever its heads and tails are by now. */
  lemma CreatedIsRecorded(lists: seq<BufferList>, mem: array<Byte>, offset: nat)
    requires LaidOut(lists, mem, offset)
    ensures Recorded(mem[..], offset + MANAGER_HEADER, GeometryOf(lists))
  {
    hide Load;
    hide WindowSize;
    hide BufferList.Valid;
    hide SaysSo;
    hide End;
    var g := GeometryOf(lists);
    EndFirst(lists, offset);
    forall i | 0 < i < |g| ensures g[i].base == g[i - 1].End() { EndStep(lists, offset, i - 1); }
    forall i | 0 <= i < |g| ensures SaysSo(mem[..], g[i]) { HeaderSays(lists[i]); }
  }

  lemma EndFirst(lists: seq<BufferList>, offset: nat)
    ensures End(lists, offset, 0) == offset + MANAGER_HEADER
  {
  }

  lemma EndStep(lists: seq<BufferList>, offset: nat, k: nat)
    requires k < |lists|
    ensures End(lists, offset, k + 1) == End(lists, offset, k) + WindowSize(lists[k].num, lists[k].cap)
  {
  }

  lemma HeaderSays(l: BufferList)
    requires l.Valid()
    ensures l.base + LIST_HEADER <= l.mem.Length && l.base + WindowSize(l.num, l.cap) <= l.mem.Length
    ensures SaysSo(l.mem[..], Geometry(l.base, l.num, l.cap))
  {
    hide Load;
    var size := WindowSize(l.num, l.cap);
    WindowLoad(l.mem[..], l.base, size, 4, 4);
    WindowLoad(l.mem[..], l.base, size, 16, 4);
    assert l.Window() == l.mem[..][l.base..l.base + size];
  }

  /** `BufferManager::mapping`, on a pool that was created and used: the peer finds the same lists,
      wherever their heads and tails are by now. */
  method MapPool(mem: array<Byte>, offset: nat, ghost was: PoolMemory) returns (r: Option<PoolMemory>)
    requires was.mem == mem && was.offset == offset && was.Valid()
    ensures r.Some? && r.value.mem == mem && r.value.offset == offset && r.value.Valid()
    ensures |r.value.lists| == |was.lists| && r.value.Free() == was.Free()
    ensures forall k | 0 <= k < |was.lists| :: SameGeometry(r.value.lists[k], was.lists[k])
  {
    hide WindowSize;
    hide Load;
    hide ListOk;
    hide End;
    hide Mapped;
    hide LaidOut;
    hide Stacked;
    hide ListsFit;
    hide Geometries;
    InOrder(was.lists, mem, offset);
    NoneMapped(mem, was.lists, offset);
    hide Recorded;
    CreatedIsRecorded(was.lists, mem, offset);
    RecordedIsFound(mem[..], offset + MANAGER_HEADER, GeometryOf(was.lists));
    OfMemory(was.lists, mem, offset);
    var g := MapGeometry(mem, offset);
    var lists := Build(mem, g.value, was.lists);
    MappedEnd(lists, mem, was.lists, offset);
    var p := new PoolMemory(mem, offset, lists);
    return Some(p);
  }

  lemma OfMemory(lists: seq<BufferList>, mem: array<Byte>, offset: nat)
    requires LaidOut(lists, mem, offset)
    ensures forall k | 0 <= k < |lists| :: lists[k].mem == mem && lists[k].Valid()
  {
  }

  lemma InOrder(lists: seq<BufferList>, mem: array<Byte>, offset: nat)
    requires LaidOut(lists, mem, offset)
    ensures Stacked(lists, offset)
  {
  }

  /** The lists at what was found. */
  method Build(mem: array<Byte>, found: seq<Geometry>, ghost was: seq<BufferList>) returns (lists: seq<BufferList>)
    requires |found| == |was| && mem.Length < U32_LIMIT
    requires forall k | 0 <= k < |was| ::
               was[k].mem == mem && was[k].Valid() && found[k] == Geometry(was[k].base, was[k].num, was[k].cap)
    ensures Mapped(lists, mem, was) && |lists| == |was|
  {
    hide WindowSize;
    hide Mapped;
    hide BufferList.Valid;
    lists := [];
    NoneMapped(mem, was, 0);
    while |lists| < |found|
      invariant |lists| <= |found| == |was| && Mapped(lists, mem, was)
      decreases |found| - |lists|
    {
      var g := found[|lists|];
      var l := new BufferList(mem, g.base, g.num, g.cap, was[|lists|].free);
      SameList(was[|lists|], l);
      MappedMore(lists, mem, was, l);
      lists := lists + [l];
    }
  }

  lemma SameList(a: BufferList, b: BufferList)
    requires a.Valid() && b.mem == a.mem && b.free == a.free && SameGeometry(b, a)
    ensures b.Valid()
  {
    hide ListOk;
    assert a.Placed() ==> b.Window() == a.Window();
  }

  /** The lists found so far. */
  ghost predicate Mapped(lists: seq<BufferList>, mem: array<Byte>, was: seq<BufferList>)
    reads mem, lists, was
  {
    && |lists| <= |was|
    && (forall k | 0 <= k < |lists| ::
          lists[k].mem == mem && lists[k].Valid() && SameGeometry(lists[k], was[k]) && lists[k].free == was[k].free)
    && (forall k, l | 0 <= k < l < |lists| :: lists[k] != lists[l])
  }

  lemma NoneMapped(mem: array<Byte>, was: seq<BufferList>, offset: nat)
    ensures Mapped([], mem, was) && End(was, offset, 0) == offset + MANAGER_HEADER
  {
  }

  lemma MappedMore(lists: seq<BufferList>, mem: array<Byte>, was: seq<BufferList>, l: BufferList)
    requires Mapped(lists, mem, was) && |lists| < |was| && l !in lists && l.mem == mem && l.Valid()
    requires SameGeometry(l, was[|lists|]) && l.free == was[|lists|].free
    ensures Mapped(lists + [l], mem, was)
  {
    hide BufferList.Valid;
    var more := lists + [l];
    forall k | 0 <= k < |more|
      ensures more[k].mem == mem && more[k].Valid() && SameGeometry(more[k], was[k]) && more[k].free == was[k].free
    {
      if k < |lists| { assert more[k] == lists[k]; }
    }
  }

  predicate SameGeometry(a: BufferList, b: BufferList) {
    a.base == b.base && a.num == b.num && a.cap == b.cap
  }

  lemma MappedEnd(a: seq<BufferList>, mem: array<Byte>, b: seq<BufferList>, offset: nat)
    requires |a| == |b| && Stacked(b, offset) && Mapped(a, mem, b)
    ensures LaidOut(a, mem, offset) && End(a, offset, |a|) == End(b, offset, |b|) && FreeOf(a) == FreeOf(b)
    ensures forall k | 0 <= k < |a| :: SameGeometry(a[k], b[k])
  {
    hide BufferList.Valid;
    hide WindowSize;
    forall k | 0 <= k <= |a| ensures End(a, offset, k) == End(b, offset, k) { EndSame(a, b, offset, k); }
  }

  // ---------------------------------------------------------------------------------------------
  // `read_buffer_slice`
  // ---------------------------------------------------------------------------------------------

  /** The slice at an offset of the memory; the end is computed in 32 bits. */
  method ReadSlice(mem: array<Byte>, offset: nat) returns (r: Option<Slice>)
    requires offset < U32_LIMIT
    ensures r.Some? ==> offset + NODE_HEADER < mem.Length && r.value.offset == offset
    ensures offset + NODE_HEADER < mem.Length ==>
      var cap := Load(mem[..], offset, 4);
      && (r.Some? <==> (offset + NODE_HEADER + cap) % U32_LIMIT <= mem.Length)
      && (r.Some? ==> r.value == Slice(offset, cap, Load(mem[..], offset + 8, 4), Load(mem[..], offset + 4, 4)))
  {
    if offset + NODE_HEADER >= mem.Length {
      return None;
    }
    var cap := LoadFrom(mem, offset, 4);
    var end := (offset + NODE_HEADER + cap) % U32_LIMIT;
    if end > mem.Length {
      return None;
    }
    var size := LoadFrom(mem, offset + 4, 4);
    var start := LoadFrom(mem, offset + 8, 4);
    return Some(Slice(offset, cap, start, size));
  }

  /** Every buffer of a pool can be read back by its offset, with the capacity of its class. */
  method ReadBack(p: PoolMemory, k: nat, i: nat) returns (r: Option<Slice>)
    requires p.Valid() && k < |p.lists| && i < p.lists[k].num
    ensures r.Some? && r.value.offset == p.lists[k].base + At(i, p.lists[k].cap) && r.value.cap == p.lists[k].cap
    ensures r.value.offset + NODE_HEADER + r.value.cap <= p.mem.Length
  {
    hide Load;
    hide WindowSize;
    hide At;
    hide End;
    var l := p.lists[k];
    BelowEnd(p.lists, p.offset, k);
    Inside(i, l.num, l.cap);
    CapAt(l, i);
    r := ReadSlice(p.mem, l.base + At(i, l.cap));
  }

  lemma CapAt(l: BufferList, i: nat)
    requires l.Valid() && i < l.num
    ensures l.cap > 0 && At(i, l.cap) + 4 <= WindowSize(l.num, l.cap)
    ensures l.base + At(i, l.cap) + 4 <= l.mem.Length && Load(l.mem[..], l.base + At(i, l.cap), 4) == l.cap
  {
    hide Load;
    hide FreeOk;
    var w, n := l.Window(), WindowSize(l.num, l.cap);
    assert NodeOk(w, l.cap, i);
    assert w == l.mem[..][l.base..l.base + n];
    WindowLoad(l.mem[..], l.base, n, At(i, l.cap), 4);
  }

  // ---------------------------------------------------------------------------------------------
  // Histories
  // ---------------------------------------------------------------------------------------------

  /** One step of a history: a pop, or a push or a write by the holder of a node. */
  datatype Op = Pop(k: nat) | Push(k: nat, i: nat) | Write(k: nat, i: nat, at: nat, bytes: seq<Byte>)

  /** The free lists as plain queues: a pop takes the oldest node unless it is the last one. */
  function Next(free: seq<seq<nat>>, op: Op): seq<seq<nat>>
    requires op.k < |free|
  {
    match op
    case Pop(k) => if |free[k]| <= 1 then free else free[k := free[k][1..]]
    case Push(k, i) => free[k := free[k] + [i]]
    case Write(_, _, _, _) => free
  }

  /** What a holder may do. */
  ghost predicate Allowed(p: PoolMemory, free: seq<seq<nat>>, op: Op)
    requires |free| == |p.lists|
  {
    && op.k < |p.lists|
    && (op.Push? || op.Write? ==> op.i < p.lists[op.k].num && op.i !in free[op.k])
    && (op.Write? ==> At(op.i, p.lists[op.k].cap) + 4 <= op.at
                      && op.at + |op.bytes| <= At(op.i, p.lists[op.k].cap) + NODE_HEADER + p.lists[op.k].cap)
  }

  ghost predicate AllAllowed(p: PoolMemory, free: seq<seq<nat>>, ops: seq<Op>)
    requires |free| == |p.lists|
    decreases |ops|
  {
    ops == [] || (Allowed(p, free, ops[0]) && AllAllowed(p, Next(free, ops[0]), ops[1..]))
  }

  function Queues(free: seq<seq<nat>>, ops: seq<Op>): seq<seq<nat>>
    requires forall i | 0 <= i < |ops| :: ops[i].k < |free|
    decreases |ops|
  {
    if ops == [] then free else Queues(Next(free, ops[0]), ops[1..])
  }

  method Do(p: PoolMemory, op: Op)
    requires p.Valid() && Allowed(p, p.Free(), op)
    modifies p.mem, p.lists
    ensures p.Valid() && p.Free() == Next(old(p.Free()), op)
  {
    hide ListOk;
    hide Load;
    hide WindowSize;
    hide End;
    hide LaidOut;
    match op
    case Pop(k) =>
      NonEmptyList(p, k);
      var r := p.PopFrom(k);
    case Push(k, i) => p.PushTo(k, p.lists[k].base + At(i, p.lists[k].cap), i);
    case Write(k, i, at, bytes) => p.WriteTo(k, i, at, bytes);
  }

  lemma NonEmptyList(p: PoolMemory, k: nat)
    requires p.Valid() && k < |p.lists|
    ensures p.Free()[k] != []
  {
    NotEmpty(p.lists[k]);
  }

  /** Any history of pops, pushes and writes leaves well-formed lists whose free nodes are what the
      plain queues hold; so `MapPool` finds the same geometry after it. */
  method History(p: PoolMemory, ops: seq<Op>)
    requires p.Valid() && AllAllowed(p, p.Free(), ops)
    modifies p.mem, p.lists
    ensures p.Valid() && (forall i | 0 <= i < |ops| :: ops[i].k < |p.lists|) && p.Free() == Queues(old(p.Free()), ops)
    decreases |ops|
  {
    hide ListOk;
    hide Load;
    hide WindowSize;
    hide End;
    hide LaidOut;
    if ops != [] {
      Do(p, ops[0]);
      History(p, ops[1..]);
    }
  }
}
