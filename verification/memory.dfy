/** The 1 MB block allocator of kernel/core/memory.c: a stack of free block addresses and a
    header flag in every block. A panic stops the machine, so it is an outcome, not a state. */
module Memory {
  import Lists

  const GRANULARITY := 0x10_0000
  const HEADER := 48 // sizeof(struct memhdr): flag and name padded to 32 bytes, start, size
  const TABLE := 2000
  const FIRST := 0x00a0_0000
  const END := 0x5dc0_0000
  const BLOCKS := 1490
  const FREE_FLAG := 0x5566_7788
  const USED_FLAG := 0xaabb_ccdd

  datatype Outcome<T> = Ok(value: T) | Panic

  /** Free stack, and the live blocks with the size each was asked for. */
  datatype Mem = Mem(free: seq<nat>, live: map<nat, nat>)

  function Addr(k: nat): nat { FIRST + k * GRANULARITY }

  /** The addresses of the first n blocks. */
  ghost function Blocks(n: nat): set<nat> {
    set k: nat | k < n :: Addr(k)
  }

  ghost function All(): set<nat> { Blocks(BLOCKS) }

  /** Every block is on the free stack once or live once, never both, and nothing else is either. */
  ghost predicate Inv(m: Mem) {
    multiset(m.free) + multiset(m.live.Keys) == multiset(All())
  }

  function Alloc(m: Mem, size: nat): Outcome<(Mem, nat)> {
    if size > GRANULARITY || m.free == [] then Panic
    else
      var a := m.free[|m.free| - 1];
      Ok((Mem(m.free[..|m.free| - 1], m.live[a := size]), a + HEADER))
  }

  function Free(m: Mem, p: int): Outcome<Mem> {
    var a := p - HEADER;
    if |m.free| >= TABLE - 1 || a !in m.live then Panic
    else Ok(Mem(m.free + [a], m.live - {a}))
  }

  datatype Op = AllocOp(size: nat) | FreeOp(p: int)

  function Step(m: Mem, op: Op): Outcome<Mem> {
    match op
    case AllocOp(n) => (match Alloc(m, n) case Panic => Panic case Ok(r) => Ok(r.0))
    case FreeOp(p) => Free(m, p)
  }

  /** The state after the calls, or Panic if one of them stopped the machine. */
  function Run(m: Mem, ops: seq<Op>): Outcome<Mem>
    decreases |ops|
  {
    if ops == [] then Ok(m)
    else match Step(m, ops[0])
      case Panic => Panic
      case Ok(r) => Run(r, ops[1..])
  }

  datatype Header = Header(flag: nat, start: nat, size: nat)

  function FreshHeader(a: nat): Header {
    Header(FREE_FLAG, a + HEADER, GRANULARITY - HEADER)
  }

  /** The loop of mem_init: fills the free table from FIRST to END. */
  method LayOut() returns (table: array<nat>, n: nat, hdrs: map<nat, Header>)
    ensures fresh(table) && table.Length == TABLE && n == BLOCKS
    ensures multiset(table[..n]) == multiset(All()) && hdrs.Keys == All()
    ensures forall a :: a in hdrs ==> hdrs[a] == FreshHeader(a)
  {
    table := new nat[TABLE];
    var at := FIRST;
    n, hdrs := 0, map[];
    while at + GRANULARITY <= END && n < TABLE
      invariant n <= BLOCKS && at == Addr(n)
      invariant forall i :: 0 <= i < n ==> table[i] == Addr(i)
      invariant hdrs.Keys == Blocks(n)
      invariant forall a :: a in hdrs ==> hdrs[a] == FreshHeader(a)
    {
      OneMore(n);
      table[n] := at;
      hdrs := hdrs[at := Header(FREE_FLAG, at + HEADER, GRANULARITY - HEADER)];
      n := n + 1;
      at := at + GRANULARITY;
    }
    InOrder(table[..n]);
  }

  class Table {
    const addr: array<nat>
    var len: nat
    var hdr: map<nat, Header> // the header at each block address
    ghost var live: map<nat, nat>

    ghost function View(): Mem
      reads this, addr
      requires len <= addr.Length
    {
      Mem(addr[..len], live)
    }

    ghost predicate Valid()
      reads this, addr
    {
      && addr.Length == TABLE && len <= TABLE
      && Inv(View())
      && hdr.Keys == All()
      && (forall a :: a in hdr ==> hdr[a] == FreshHeader(a).(flag := if a in live then USED_FLAG else FREE_FLAG))
    }

    /** mem_init. */
    constructor ()
      ensures Valid() && fresh(addr) && live == map[] && len == BLOCKS
    {
      var table, n, hdrs := LayOut();
      addr, len, hdr, live := table, n, hdrs, map[];
    }

    method MemAlloc(size: nat) returns (r: Outcome<nat>)
      requires Valid()
      modifies this
      ensures Valid() && addr[..] == old(addr[..])
      ensures match Alloc(old(View()), size)
        case Panic => r.Panic? && View() == old(View())
        case Ok(v) => r == Ok(v.1) && View() == v.0
    {
      if size > GRANULARITY { return Panic; }
      if len == 0 { return Panic; }
      ghost var was := View();
      AllocKeeps(was, size);
      len := len - 1;
      var a := addr[len];
      assert was.free[len] == a && addr[..len] == was.free[..len];
      if hdr[a].flag != FREE_FLAG {
        assert false;
      }
      hdr := hdr[a := hdr[a].(flag := USED_FLAG)];
      live := live[a := size];
      r := Ok(hdr[a].start);
    }

    method MemFree(p: nat) returns (r: Outcome<()>)
      requires Valid()
      modifies this, addr
      ensures Valid()
      ensures match Free(old(View()), p)
        case Panic => r.Panic? && View() == old(View())
        case Ok(m) => r.Ok? && View() == m
    {
      if len >= TABLE - 1 { return Panic; }
      var a := p - HEADER;
      if a >= 0 { Where(View(), a); }
      // a word that is not a header of the table never holds the USED flag
      if a !in hdr || hdr[a].flag != USED_FLAG { return Panic; }
      FreeKeeps(View(), p);
      Release(a);
      r := Ok(());
    }

    /** Flips the flag of a used block and puts it on the stack. */
    method Release(a: nat)
      requires Valid() && a in hdr && hdr[a].flag == USED_FLAG && a in live && len < TABLE - 1
      requires Inv(Mem(View().free + [a], View().live - {a}))
      modifies this, addr
      ensures Valid() && View() == Mem(old(View()).free + [a], old(View()).live - {a})
    {
      ghost var was := View();
      addr[len] := a;
      len := len + 1;
      hdr := hdr[a := hdr[a].(flag := FREE_FLAG)];
      live := live - {a};
      assert View().free == was.free + [a];
    }
  }

  /** Every address is a block exactly when it is free or live, and never both. */
  lemma Where(m: Mem, a: nat)
    requires Inv(m)
    ensures a in m.live || a in m.free <==> a in All()
    ensures !(a in m.live && a in m.free)
  {
    assert multiset(m.free)[a] + multiset(m.live.Keys)[a] == multiset(All())[a];
    assert a in m.free <==> a in multiset(m.free);
  }

  /** A successful allocation takes a block that was not live, and keeps the invariant. */
  lemma AllocKeeps(m: Mem, size: nat)
    requires Inv(m) && Alloc(m, size).Ok?
    ensures var r := Alloc(m, size).value;
      && Inv(r.0)
      && r.1 - HEADER in All() && r.1 - HEADER !in m.live && r.0.live == m.live[r.1 - HEADER := size]
  {
    var f, a := m.free[..|m.free| - 1], m.free[|m.free| - 1];
    assert m.free == f + [a];
    assert a in m.free;
    Where(m, a);
    assert m.live[a := size].Keys == m.live.Keys + {a};
  }

  lemma FreeKeeps(m: Mem, p: int)
    requires Inv(m) && Free(m, p).Ok?
    ensures Inv(Free(m, p).value)
  {
    var a: nat := p - HEADER;
    assert (m.live - {a}).Keys == m.live.Keys - {a};
  }

  /** Free plus live is always 1490, so the free table never fills up. */
  lemma Conservation(m: Mem)
    requires Inv(m)
    ensures |m.free| + |m.live| == BLOCKS
  {
    BlockCount(BLOCKS);
    assert |multiset(m.free)| + |multiset(m.live.Keys)| == |multiset(All())|;
  }

  /** An allocation succeeds exactly for at most 1 MB while fewer than 1490 blocks are live. */
  lemma AllocIff(m: Mem, size: nat)
    requires Inv(m)
    ensures Alloc(m, size).Ok? <==> size <= 0x10_0000 && |m.live| < 1490
  {
    Conservation(m);
  }

  /** A free succeeds exactly for the payload address of a live block. */
  lemma FreeIff(m: Mem, p: int)
    requires Inv(m)
    ensures Free(m, p).Ok? <==> exists a :: a in m.live && p == a + HEADER
  {
    Conservation(m);
    if Free(m, p).Ok? { assert p - HEADER in m.live; }
  }

  /** Freeing what was just allocated gives back the same allocator, free stack and all. */
  lemma FreeUndoesAlloc(m: Mem, size: nat)
    requires Inv(m) && Alloc(m, size).Ok?
    ensures var r := Alloc(m, size).value; Free(r.0, r.1) == Ok(m)
  {
    AllocKeeps(m, size);
    var r := Alloc(m, size).value;
    Conservation(r.0);
    assert m.free[..|m.free| - 1] + [m.free[|m.free| - 1]] == m.free;
    assert r.0.live - {r.1 - HEADER} == m.live;
  }

  lemma {:induction false} BlockCount(n: nat)
    ensures |Blocks(n)| == n
  {
    if n > 0 {
      BlockCount(n - 1);
      OneMore(n - 1);
    }
  }

  lemma OneMore(n: nat)
    ensures Blocks(n + 1) == Blocks(n) + {Addr(n)} && Addr(n) !in Blocks(n)
  {
    forall a | a in Blocks(n + 1) ensures a in Blocks(n) + {Addr(n)} {
      var k: nat :| k < n + 1 && a == Addr(k);
      if k < n { assert Addr(k) in Blocks(n); }
    }
    assert forall k: nat :: k < n ==> Addr(k) in Blocks(n + 1);
    assert Addr(n) in Blocks(n + 1);
  }

  lemma {:induction false} InOrder(s: seq<nat>)
    requires forall i :: 0 <= i < |s| ==> s[i] == Addr(i)
    ensures multiset(s) == multiset(Blocks(|s|))
  {
    if s != [] {
      var t := s[..|s| - 1];
      InOrder(t);
      OneMore(|t|);
      assert s == t + [Addr(|t|)];
    }
  }

  /** Different blocks are at least one granularity apart. */
  lemma Spacing(a: nat, b: nat)
    requires a in All() && b in All() && a != b
    ensures a + GRANULARITY <= b || b + GRANULARITY <= a
  {
    var i: nat :| i < BLOCKS && a == Addr(i);
    var j: nat :| j < BLOCKS && b == Addr(j);
  }

  lemma FreeDistinct(m: Mem, i: nat, j: nat)
    requires Inv(m) && i < j < |m.free|
    ensures m.free[i] != m.free[j]
  {
    var s := m.free;
    assert s == s[..j] + [s[j]] + s[j + 1..];
    assert s[j] in multiset(s) ==> multiset(All())[s[j]] <= 1;
    assert s[i] == s[..j][i];
    assert s[i] in multiset(s[..j]);
  }

  /** Two byte ranges [a, a+n) and [b, b+k) do not meet. */
  predicate Apart(a: int, n: nat, b: int, k: nat) {
    n == 0 || k == 0 || a + n <= b || b + k <= a
  }

  /** What the allocator promises its callers about one state. */
  ghost predicate Safe(m: Mem) {
    && |m.free| + |m.live| == BLOCKS
    && (forall i, j :: 0 <= i < j < |m.free| ==> m.free[i] != m.free[j])
    && (forall a :: a in m.free ==> a in All() && a !in m.live)
    && (forall a, b :: a in m.live && b in m.live && a != b ==> (Fits(m, a) && Fits(m, b) ==>
          Apart(a + HEADER, m.live[a], b + HEADER, m.live[b])))
    && (forall a, h :: a in m.live && h in All() && Fits(m, a) ==> Apart(a + HEADER, m.live[a], h, HEADER))
    && (forall a :: a in m.live ==> Free(m, a + HEADER).Ok?)
  }

  /** The allocation leaves room for the header of its block. */
  predicate Fits(m: Mem, a: nat)
    requires a in m.live
  {
    m.live[a] <= GRANULARITY - HEADER
  }

  lemma InvSafe(m: Mem)
    requires Inv(m)
    ensures Safe(m)
  {
    Conservation(m);
    forall i, j | 0 <= i < j < |m.free| ensures m.free[i] != m.free[j] { FreeDistinct(m, i, j); }
    forall a | a in m.free ensures a in All() && a !in m.live { Where(m, a); }
    forall a, h | a in m.live && h in All() && Fits(m, a) ensures Apart(a + HEADER, m.live[a], h, HEADER) {
      ClearOf(m, a, h);
    }
    forall a, b | a in m.live && b in m.live && a != b
      ensures Fits(m, a) && Fits(m, b) ==> Apart(a + HEADER, m.live[a], b + HEADER, m.live[b])
    {
      Where(m, b);
      ClearOf(m, a, b);
    }
  }

  /** A fitting allocation in block a stays clear of the header of block h, and of all of h if h is another block. */
  lemma ClearOf(m: Mem, a: nat, h: nat)
    requires Inv(m) && a in m.live && h in All()
    ensures Fits(m, a) ==> Apart(a + HEADER, m.live[a], h, if a == h then HEADER else GRANULARITY)
  {
    Where(m, a);
    if a != h { Spacing(a, h); }
  }

  lemma StepKeeps(m: Mem, op: Op)
    requires Inv(m) && Step(m, op).Ok?
    ensures Inv(Step(m, op).value)
  {
    match op
    case AllocOp(n) => AllocKeeps(m, n);
    case FreeOp(p) => FreeKeeps(m, p);
  }

  /** Safety over every run of allocations and frees, from the state mem_init builds or any state reached later. */
  lemma {:induction false} RunSafe(m: Mem, ops: seq<Op>)
    requires Inv(m)
    ensures Run(m, ops).Ok? ==> Inv(Run(m, ops).value) && Safe(Run(m, ops).value)
    decreases |ops|
  {
    if ops == [] {
      InvSafe(m);
    } else if Step(m, ops[0]).Ok? {
      StepKeeps(m, ops[0]);
      RunSafe(Step(m, ops[0]).value, ops[1..]);
    }
  }

  /** What stops the machine: an allocation of more than 1 MB or with all 1490 blocks live, or a free of an address
      that is not the payload of a live block. */
  ghost predicate Refused(m: Mem, op: Op) {
    match op
    case AllocOp(size) => size > 0x10_0000 || |m.live| == 1490
    case FreeOp(p) => forall a :: a in m.live ==> p != a + HEADER
  }

  /** The calls before number n succeed, and n is refused. */
  ghost predicate StopsAt(m: Mem, ops: seq<Op>, n: nat) {
    n < |ops| && Run(m, ops[..n]).Ok? && Refused(Run(m, ops[..n]).value, ops[n])
  }

  lemma StepRefused(m: Mem, op: Op)
    requires Inv(m)
    ensures Step(m, op).Panic? <==> Refused(m, op)
  {
    Conservation(m);
    match op
    case AllocOp(size) => AllocIff(m, size);
    case FreeOp(p) => FreeIff(m, p);
  }

  lemma StopsLater(m: Mem, ops: seq<Op>, n: nat)
    requires ops != [] && Step(m, ops[0]).Ok?
    ensures StopsAt(m, ops, n + 1) <==> StopsAt(Step(m, ops[0]).value, ops[1..], n)
  {
    if n + 1 < |ops| {
      assert ops[..n + 1][1..] == ops[1..][..n];
    }
  }

  /** A run panics exactly at such a call: from mem_init on, every other allocation and free succeeds. */
  lemma {:induction false} RunPanicsIff(m: Mem, ops: seq<Op>)
    requires Inv(m)
    ensures Run(m, ops).Panic? <==> exists n: nat :: StopsAt(m, ops, n)
    decreases |ops|
  {
    if ops != [] {
      assert ops[..0] == [];
      StepRefused(m, ops[0]);
      if Refused(m, ops[0]) {
        assert StopsAt(m, ops, 0);
      } else {
        var next := Step(m, ops[0]).value;
        StepKeeps(m, ops[0]);
        RunPanicsIff(next, ops[1..]);
        if n: nat :| StopsAt(next, ops[1..], n) { StopsLater(m, ops, n); }
        if n: nat :| StopsAt(m, ops, n) { StopsLater(m, ops, n - 1); }
      }
    }
  }

  /** mem_alloc accepts any size up to 1 MB although the header takes 48 bytes of the block. An accepted
      allocation keeps clear of every header exactly when it leaves that room, or lies in the last block. */
  lemma FitsIff(m: Mem, size: nat)
    requires Inv(m) && Alloc(m, size).Ok?
    ensures var a := Alloc(m, size).value.1 - HEADER;
      (forall h :: h in All() ==> Apart(a + HEADER, size, h, HEADER))
        <==> size <= GRANULARITY - HEADER || a + 2 * GRANULARITY > END
  {
    AllocKeeps(m, size);
    var a := Alloc(m, size).value.1 - HEADER;
    var k: nat :| k < BLOCKS && a == Addr(k);
    assert k + 1 < BLOCKS ==> Addr(k + 1) in All();
    assert forall h :: h in All() ==> h + GRANULARITY <= END;
    forall h | h in All() && h != a ensures a + GRANULARITY <= h || h + GRANULARITY <= a {
      Spacing(a, h);
    }
    if size > GRANULARITY - HEADER && a + 2 * GRANULARITY <= END {
      assert !Apart(a + HEADER, size, a + GRANULARITY, HEADER);
    }
  }

  /** A list with one live heap block per node is far below the wrap of its uint16 count. */
  lemma CountNeverWraps(m: Mem, nodes: seq<nat>)
    requires Inv(m) && multiset(nodes) <= multiset(m.live.Keys)
    ensures |nodes| <= BLOCKS && |nodes| + 1 < Lists.UINT16
  {
    Conservation(m);
    assert multiset(m.live.Keys) == multiset(nodes) + (multiset(m.live.Keys) - multiset(nodes));
    assert |multiset(nodes)| <= |multiset(m.live.Keys)|;
  }
}
