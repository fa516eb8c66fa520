/** The sorted timer list of kernel/core/timer.c. */
module Timers {
  import opened Lists
  import opened Words

  const SENTINEL := 0xffff_ffff // deadline of the entry init_timer leaves at the end of the list

  /** A deadline, and the work handed to the callback; later calls of set_timer get larger ids. */
  datatype Entry = Entry(tick: nat, id: nat)

  /** Insertion after every entry that is not later. */
  function Insert(s: seq<Entry>, e: Entry): seq<Entry> {
    if s == [] || s[0].tick > e.tick then [e] + s else [s[0]] + Insert(s[1..], e)
  }

  /** The number of leading entries whose deadline has come. */
  function Due(s: seq<Entry>, now: nat): (k: nat)
    ensures k <= |s|
  {
    if s == [] || s[0].tick > now then 0 else 1 + Due(s[1..], now)
  }

  /** Sorted by deadline, equal deadlines in order of insertion. */
  ghost predicate Ordered(s: seq<Entry>) {
    forall i, j :: 0 <= i < j < |s| ==> Before(s[i], s[j])
  }

  predicate Before(a: Entry, b: Entry) {
    a.tick < b.tick || (a.tick == b.tick && a.id < b.id)
  }

  /** The sentinel is last, and the only entry with its deadline. */
  ghost predicate Guarded(s: seq<Entry>) {
    && s != [] && s[|s| - 1].tick == SENTINEL
    && (forall i :: 0 <= i < |s| - 1 ==> s[i].tick < SENTINEL)
  }

  /** Insertion is a splice at the only position that keeps a sorted list sorted and equal deadlines in order. */
  lemma {:induction false} InsertIs(s: seq<Entry>, e: Entry, p: nat)
    requires p <= |s|
    requires forall i :: 0 <= i < p ==> s[i].tick <= e.tick
    requires p < |s| ==> s[p].tick > e.tick
    ensures Insert(s, e) == s[..p] + [e] + s[p..]
  {
    if p > 0 {
      InsertIs(s[1..], e, p - 1);
      assert s[..p] + [e] + s[p..] == [s[0]] + (s[1..][..p - 1] + [e] + s[1..][p - 1..]);
    }
  }

  /** The position of InsertIs. */
  function Place(s: seq<Entry>, e: Entry): (p: nat)
    ensures p <= |s|
    ensures forall i :: 0 <= i < p ==> s[i].tick <= e.tick
    ensures p < |s| ==> s[p].tick > e.tick
  {
    if s == [] || s[0].tick > e.tick then 0 else 1 + Place(s[1..], e)
  }

  lemma SpliceOrdered(s: seq<Entry>, e: Entry, p: nat)
    requires Ordered(s) && p <= |s|
    requires forall i :: 0 <= i < p ==> Before(s[i], e)
    requires forall i :: p <= i < |s| ==> Before(e, s[i])
    ensures Ordered(s[..p] + [e] + s[p..])
  {
    var r := s[..p] + [e] + s[p..];
    forall i, j | 0 <= i < j < |r| ensures Before(r[i], r[j]) {
      var x := if i < p then s[i] else if i == p then e else s[i - 1];
      var y := if j < p then s[j] else if j == p then e else s[j - 1];
      assert r[i] == x && r[j] == y;
    }
  }

  lemma SpliceGuarded(s: seq<Entry>, e: Entry, p: nat)
    requires Guarded(s) && e.tick < SENTINEL && p < |s|
    ensures var r := s[..p] + [e] + s[p..];
      Guarded(r) && r[|s|] == s[|s| - 1] && multiset(r) == multiset(s) + multiset{e}
  {
    var r := s[..p] + [e] + s[p..];
    assert s == s[..p] + s[p..];
    forall i | 0 <= i < |s| ensures r[i].tick < SENTINEL {
      assert r[i] == if i < p then s[i] else if i == p then e else s[i - 1];
    }
  }

  /** Insertion keeps the sentinel last and every entry. */
  lemma InsertGuarded(s: seq<Entry>, e: Entry)
    requires Guarded(s) && e.tick < SENTINEL
    ensures var r := Insert(s, e);
      |r| == |s| + 1 && Guarded(r) && r[|s|] == s[|s| - 1] && multiset(r) == multiset(s) + multiset{e}
  {
    var p := Place(s, e);
    SpliceGuarded(s, e, p);
    InsertIs(s, e, p);
  }

  /** A second entry with the sentinel's deadline comes to lie behind it. */
  lemma BehindSentinel(s: seq<Entry>, e: Entry)
    requires Guarded(s) && e.tick == SENTINEL
    ensures Insert(s, e) == s + [e] && !Guarded(Insert(s, e))
  {
    InsertIs(s, e, |s|);
    assert s[..|s|] + [e] + s[|s|..] == s + [e];
    assert (s + [e])[|s| - 1].tick == SENTINEL;
  }

  /** Insertion keeps the order, with a new entry behind those of its own deadline. */
  lemma InsertOrdered(s: seq<Entry>, e: Entry)
    requires Ordered(s) && Guarded(s) && e.tick < SENTINEL
    requires forall i :: 0 <= i < |s| - 1 ==> s[i].id < e.id
    ensures Ordered(Insert(s, e))
  {
    var p := Place(s, e);
    forall i | p <= i < |s| ensures Before(e, s[i]) { assert i > p ==> Before(s[p], s[i]); }
    SpliceOrdered(s, e, p);
    InsertIs(s, e, p);
  }

  /** A drain takes exactly the entries whose deadline has come, and never the sentinel before its tick. */
  lemma {:induction false} DueIs(s: seq<Entry>, now: nat)
    requires Ordered(s)
    ensures var k := Due(s, now);
      && (forall i :: 0 <= i < k ==> s[i].tick <= now)
      && (forall i :: k <= i < |s| ==> s[i].tick > now)
  {
    if s != [] && s[0].tick <= now {
      DueIs(s[1..], now);
      var k := Due(s[1..], now);
      forall i | 0 <= i < |s| ensures if i < k + 1 then s[i].tick <= now else s[i].tick > now {
        if i > 0 { assert s[i] == s[1..][i - 1]; }
      }
    }
  }

  lemma DrainKeeps(s: seq<Entry>, now: nat)
    requires Ordered(s) && Guarded(s) && now < SENTINEL
    ensures var k := Due(s, now);
      k < |s| && Ordered(s[k..]) && Guarded(s[k..]) && s[k..][|s| - k - 1] == s[|s| - 1]
  {
    DueIs(s, now);
  }

  /** Only the sentinel's own deadline takes the walk to the last entry. */
  lemma WalksPast(s: seq<Entry>, t: nat, i: nat)
    requires Guarded(s) && i < |s| && t <= SENTINEL && s[i].tick <= t && (i + 1 < |s| ==> s[i + 1].tick > t)
    ensures i + 1 < |s| <==> t != SENTINEL
  {
    assert i + 1 < |s| - 1 ==> s[i + 1].tick < SENTINEL;
  }

  class TimerList {
    var tick: nat
    const list: List<Entry>

    ghost predicate Valid()
      reads this, list, list.items
    {
      tick < TWO32 && list.Valid() && Guarded(list.Contents())
    }

    /** init_timer. */
    constructor ()
      ensures Valid() && fresh(list) && tick == 0
      ensures list.Contents() == [Entry(SENTINEL, 0)]
    {
      tick := 0;
      list := new List<Entry>();
      new;
      var last := new Node(Entry(SENTINEL, 0));
      list.PushBack(last);
    }

    /** The walk of set_timer: the last entry, from the head on, that is not later than t. */
    method Walk(t: nat, ghost s: seq<Entry>) returns (prev: Node<Entry>, ghost i: nat)
      requires list.Valid() && list.Contents() == s && s != [] && s[0].tick <= t
      ensures i < |s| && prev == list.items[i]
      ensures forall k :: 0 <= k <= i ==> s[k].tick <= t
      ensures i + 1 < |s| ==> s[i + 1].tick > t
    {
      prev, i := list.head, 0;
      while true
        invariant i < |s| && prev == list.items[i]
        invariant forall k :: 0 <= k <= i ==> s[k].tick <= t
        decreases |s| - i
      {
        var next := prev.next;
        if next == null || next.data.tick > t { break; }
        prev := next;
        i := i + 1;
      }
    }

    /** The insertion of set_timer. Only a deadline equal to the sentinel's would walk past it, to where
        list_insert leaves `tail` behind. */
    method InsertNode(node: Node<Entry>)
      requires list.Valid() && Guarded(list.Contents()) && |list.items| + 1 < UINT16
      requires node !in list.items && node.data.tick <= SENTINEL
      modifies list, list.items`next, node`next
      ensures list.Valid() <==> node.data.tick != SENTINEL
      ensures list.Contents() == Insert(old(list.Contents()), node.data)
    {
      ghost var s := list.Contents();
      if node.data.tick < list.head.data.tick {
        InsertIs(s, node.data, 0);
        assert s[..0] + [node.data] + s[0..] == [node.data] + s;
        list.PushFront(node);
      } else {
        var prev, i := Walk(node.data.tick, s);
        WalksPast(s, node.data.tick, i);
        InsertIs(s, node.data, i + 1);
        InsertBehind(prev, node, i);
      }
    }

    method InsertBehind(prev: Node<Entry>, node: Node<Entry>, ghost i: nat)
      requires list.Valid() && node !in list.items && |list.items| + 1 < UINT16
      requires i < |list.items| && list.items[i] == prev
      modifies list, list.items`next, node`next
      ensures list.Valid() <==> i + 1 < |old(list.items)|
      ensures list.Contents() == old(list.Contents())[..i + 1] + [node.data] + old(list.Contents())[i + 1..]
    {
      list.Insert(prev, node, i);
    }

    /** set_timer; the sum wraps like uint32. */
    method SetTimer(id: nat, msec: nat)
      requires Valid() && |list.items| + 1 < UINT16
      modifies list, list.items`next
      ensures Valid() <==> Add32(tick, msec) != SENTINEL
      ensures tick == old(tick)
      ensures list.Contents() == Insert(old(list.Contents()), Entry(Add32(tick, msec), id))
    {
      var node := new Node(Entry(Add32(tick, msec), id));
      if node.data.tick != SENTINEL { InsertGuarded(list.Contents(), node.data); }
      InsertNode(node);
    }
  }
}
