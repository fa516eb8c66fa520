/** The intrusive singly linked list of kernel/lib/list.c.
    A node is the structure that embeds the `list_item`, so it carries its payload. */
module Lists {

  const UINT16 := 0x1_0000

  class Node<T> {
    var next: Node?<T>
    const data: T

    constructor (data: T)
      ensures this.data == data && next == null
    {
      this.data := data;
      next := null;
    }
  }

  /** The node after position i, or null at the end. */
  ghost function Succ<T>(s: seq<Node<T>>, i: nat): (n: Node?<T>)
    requires i < |s|
    ensures n == null <==> i == |s| - 1
  {
    if i + 1 < |s| then s[i + 1] else null
  }

  /** `head` starts a null-terminated chain of `next` links through exactly the nodes of s. */
  ghost predicate Chain<T>(head: Node?<T>, s: seq<Node<T>>)
    reads s
  {
    && (s == [] ==> head == null)
    && (s != [] ==> head == s[0])
    && (forall i {:trigger s[i].next} :: 0 <= i < |s| ==> s[i].next == Succ(s, i))
  }

  ghost function Payloads<T>(s: seq<Node<T>>): (c: seq<T>)
    ensures |c| == |s|
    ensures forall i :: 0 <= i < |c| ==> c[i] == s[i].data
  {
    seq(|s|, i requires 0 <= i < |s| => s[i].data)
  }

  lemma {:induction false} PayloadsSplice<T>(s: seq<Node<T>>, p: nat, x: Node<T>)
    requires p <= |s|
    ensures Payloads(s[..p] + [x] + s[p..]) == Payloads(s)[..p] + [x.data] + Payloads(s)[p..]
  {
    var t := s[..p] + [x] + s[p..];
    forall k | 0 <= k < |t| ensures t[k] == if k < p then s[k] else if k == p then x else s[k - 1] {}
  }

  lemma {:induction false} PayloadsCut<T>(s: seq<Node<T>>, p: nat)
    requires p < |s|
    ensures Payloads(s[..p] + s[p + 1..]) == Payloads(s)[..p] + Payloads(s)[p + 1..]
  {
    var t := s[..p] + s[p + 1..];
    forall k | 0 <= k < |t| ensures t[k] == if k < p then s[k] else s[k + 1] {}
  }

  class List<T> {
    var count: nat
    var head: Node?<T>
    var tail: Node?<T>
    ghost var items: seq<Node<T>>

    /** The three fields and the links describe the sequence s. `tail` is stale on an empty list. */
    ghost predicate Represents(s: seq<Node<T>>)
      reads this, s
    {
      && count == |s| < UINT16
      && Chain(head, s)
      && (s != [] ==> tail == s[|s| - 1])
    }

    ghost predicate Valid()
      reads this, items
    {
      Represents(items)
    }

    ghost function Contents(): (c: seq<T>)
      reads this`items
      ensures |c| == |items|
      ensures forall i :: 0 <= i < |c| ==> c[i] == items[i].data
    {
      Payloads(items)
    }

    constructor ()
      ensures Valid() && items == []
    {
      count, head, tail := 0, null, null;
      items := [];
    }

    method Empty() returns (r: bool)
      requires Valid()
      ensures r <==> items == []
    {
      r := count == 0;
    }

    method PopFront() returns (first: Node?<T>)
      requires Valid()
      modifies this, (if head == null then {} else {head})`next
      ensures Valid()
      ensures old(items) == [] ==> first == null && items == []
      ensures old(items) != [] ==>
        && first == old(items)[0] && items == old(items)[1..] && first.next == null
        && first.data == old(Contents())[0] && Contents() == old(Contents())[1..]
    {
      if count == 0 { return null; }
      ChainDistinct(head, items, 0);
      count := count - 1;
      first := head;
      head := first.next;
      first.next := null;
      items := items[1..];
    }

    method PushFront(item: Node<T>)
      requires Valid() && item !in items && |items| + 1 < UINT16
      modifies this, item`next
      ensures Valid() && items == [item] + old(items) && Contents() == [item.data] + old(Contents())
    {
      if count == 0 {
        item.next := null;
        head, tail := item, item;
      } else {
        item.next := head;
        head := item;
      }
      count := (count + 1) % UINT16;
      items := [item] + items;
    }

    method PushBack(item: Node<T>)
      requires Valid() && item !in items && |items| + 1 < UINT16
      modifies this, item`next, items`next
      ensures Valid() && items == old(items) + [item] && Contents() == old(Contents()) + [item.data]
    {
      item.next := null;
      if count == 0 {
        head, tail := item, item;
      } else {
        ChainDistinct(head, items, |items| - 1);
        tail.next := item;
        tail := tail.next;
      }
      count := (count + 1) % UINT16;
      items := items + [item];
    }

    /** Insertion after `prev`, which stands at position i. The chain from `head` is always right, but `tail`
        is not moved: the structure is a valid list again exactly when `prev` was not the last node, and in the
        other case no sequence at all is represented any more. */
    method Insert(prev: Node?<T>, item: Node<T>, ghost i: nat)
      requires Valid() && item !in items && |items| + 1 < UINT16
      requires prev != null ==> i < |items| && items[i] == prev
      modifies this, item`next, items`next
      ensures prev == null ==> Valid() && items == old(items)
      ensures prev != null ==>
        && items == old(items)[..i + 1] + [item] + old(items)[i + 1..] && Chain(head, items)
        && Contents() == old(Contents())[..i + 1] + [item.data] + old(Contents())[i + 1..]
      ensures prev != null ==> (Valid() <==> i + 1 < |old(items)|)
      ensures prev != null && i + 1 == |old(items)| ==> forall s :: !Represents(s)
    {
      if prev == null { return; }
      ChainDistinct(head, items, i);
      var post := prev.next;
      prev.next := item;
      item.next := post;
      count := (count + 1) % UINT16;
      ghost var was := items;
      items := was[..i + 1] + [item] + was[i + 1..];
      Spliced(was, item, i);
    }

    /** What the relinked nodes are afterwards. */
    lemma Spliced(was: seq<Node<T>>, item: Node<T>, i: nat)
      requires i < |was| && head == was[0] && item !in was && count == |was| + 1 < UINT16 && tail == was[|was| - 1]
      requires forall k {:trigger was[k].next} :: 0 <= k < |was| ==>
        was[k].next == if k == i then item else Succ(was, k)
      requires item.next == Succ(was, i) && items == was[..i + 1] + [item] + was[i + 1..]
      ensures Chain(head, items) && (Valid() <==> i + 1 < |was|)
      ensures i + 1 == |was| ==> forall s :: !Represents(s)
      ensures Contents() == Payloads(was)[..i + 1] + [item.data] + Payloads(was)[i + 1..]
    {
      SpliceChain(head, was, item, i);
      if i + 1 == |was| { StaleTail(); }
      PayloadsSplice(was, i + 1, item);
    }

    /** A wrong `tail` cannot be repaired by describing the list with another sequence. */
    lemma StaleTail()
      requires Chain(head, items) && items != [] && tail != items[|items| - 1]
      ensures forall s :: !Represents(s)
    {
      forall s ensures !Represents(s) {
        if Represents(s) { ChainUnique(head, s, items); }
      }
    }

    /** Removal of the node after `prev`; the removed node's own link is cleared. */
    method Remove(prev: Node?<T>, ghost i: nat)
      requires Valid()
      requires prev != null ==> i < |items| && items[i] == prev
      modifies this, items`next
      ensures Valid()
      ensures prev == null || i + 1 == |old(items)| ==> items == old(items) && unchanged(old(items))
      ensures prev != null && i + 1 < |old(items)| ==>
        && items == old(items)[..i + 1] + old(items)[i + 2..]
        && Contents() == old(Contents())[..i + 1] + old(Contents())[i + 2..]
        && old(items)[i + 1].next == null
    {
      if prev == null { return; }
      var gone := prev.next;
      if gone == null { return; }
      ChainDistinct(head, items, i);
      ChainDistinct(head, items, i + 1);
      prev.next := gone.next;
      gone.next := null;
      if prev.next == null { tail := prev; }
      count := count - 1;
      ghost var was := items;
      assert gone == was[i + 1] && gone.next == null;
      items := was[..i + 1] + was[i + 2..];
      UnlinkChain(head, was, i);
      PayloadsCut(was, i + 1);
    }
  }

  /** Relinking position i to `item` and `item` to the old successor chains the spliced sequence. */
  lemma SpliceChain<T>(head: Node?<T>, s: seq<Node<T>>, item: Node<T>, i: nat)
    requires i < |s| && head == s[0] && item !in s
    requires forall k {:trigger s[k].next} :: 0 <= k < |s| ==> s[k].next == if k == i then item else Succ(s, k)
    requires item.next == Succ(s, i)
    ensures var t := s[..i + 1] + [item] + s[i + 1..];
      Chain(head, t) && t[|s|] == if i + 1 < |s| then s[|s| - 1] else item
  {
    var t := s[..i + 1] + [item] + s[i + 1..];
    forall k | 0 <= k < |t| ensures t[k].next == Succ(t, k) {
      if k <= i {
        assert t[k] == s[k];
      } else if k > i + 1 {
        assert t[k] == s[k - 1];
      }
    }
  }

  /** Relinking position i past its successor chains the sequence without that successor. */
  lemma UnlinkChain<T>(head: Node?<T>, s: seq<Node<T>>, i: nat)
    requires i + 1 < |s| && head == s[0]
    requires forall k {:trigger s[k].next} :: 0 <= k < |s| && k != i + 1 ==>
      s[k].next == if k == i then Succ(s, i + 1) else Succ(s, k)
    ensures Chain(head, s[..i + 1] + s[i + 2..])
  {
    var t := s[..i + 1] + s[i + 2..];
    forall k | 0 <= k < |t| ensures t[k].next == Succ(t, k) {
      if k <= i {
        assert t[k] == s[k];
      } else {
        assert t[k] == s[k + 1];
      }
    }
  }

  /** The links determine the sequence: two sequences chained from one head are equal. */
  lemma {:induction false} ChainUnique<T>(head: Node?<T>, s: seq<Node<T>>, t: seq<Node<T>>)
    requires Chain(head, s) && Chain(head, t)
    ensures s == t
  {
    if s == [] || t == [] {
    } else {
      assert s[0].next == Succ(s, 0) && t[0].next == Succ(t, 0);
      ChainTail(s);
      ChainTail(t);
      ChainUnique(s[0].next, s[1..], t[1..]);
    }
  }

  /** A null-terminated chain visits no node twice. */
  lemma {:induction false} ChainDistinct<T>(head: Node?<T>, s: seq<Node<T>>, i: nat)
    requires Chain(head, s) && i < |s|
    ensures forall k :: 0 <= k < |s| && k != i ==> s[k] != s[i]
  {
    forall k | 0 <= k < |s| && k != i ensures s[k] != s[i] {
      if s[k] == s[i] {
        ChainDrop(head, s, k);
        ChainDrop(head, s, i);
        ChainUnique(s[i], s[k..], s[i..]);
      }
    }
  }

  lemma {:induction false} ChainDrop<T>(head: Node?<T>, s: seq<Node<T>>, i: nat)
    requires Chain(head, s) && i < |s|
    ensures Chain(s[i], s[i..])
  {
    if i == 0 {
      assert s[0..] == s;
    } else {
      ChainTail(s);
      ChainDrop(s[0].next, s[1..], i - 1);
      assert s[1..][i - 1..] == s[i..];
    }
  }

  lemma ChainTail<T>(s: seq<Node<T>>)
    requires s != [] && Chain(s[0], s)
    ensures Chain(s[0].next, s[1..])
  {
    assert s[0].next == Succ(s, 0);
    forall i | 0 <= i < |s| - 1 ensures s[1..][i].next == Succ(s[1..], i) {
      assert s[i + 1].next == Succ(s, i + 1);
    }
  }
}
