/** Kernel-style intrusive circular lists (src/llist.h), with real links in the heap.

    A `Link` is a `struct llist_head`. The `container_of` arithmetic is the `owner` field: the struct a link
    is embedded in, or None for a list head. `Ring(head, xs)` says that following `next` from `head` visits
    exactly `xs` and comes back, and that `prev` goes the other way. The ghost field `home` names the head of
    the ring a link is on; a list head and an unlinked link are their own home. */
module LList {
  import opened Wrappers

  class Link<O> {
    var prev: Link<O>
    var next: Link<O>
    var owner: Option<O>
    ghost var home: Link<O>

    /** LLIST_INIT */
    constructor ()
      ensures Ring(this, []) && owner == None
    {
      prev, next, owner, home := this, this, None, this;
    }
  }

  ghost predicate Ring<O>(head: Link<O>, xs: seq<Link<O>>)
    reads head, xs
  {
    && head !in xs && head.home == head
    && (forall i, j :: 0 <= i < j < |xs| ==> xs[i] != xs[j])
    && (if |xs| == 0 then head.next == head.prev == head else
        && head.next == xs[0] && xs[0].prev == head
        && head.prev == xs[|xs| - 1] && xs[|xs| - 1].next == head)
    && (forall i {:trigger xs[i].prev} :: 1 <= i < |xs| ==> xs[i].prev == xs[i - 1])
    && (forall i {:trigger xs[i].next} :: 0 <= i < |xs| - 1 ==> xs[i].next == xs[i + 1])
    && (forall i {:trigger xs[i].home} :: 0 <= i < |xs| ==> xs[i].home == head)
  }

  /** LLIST_INSERT_TAIL: only the new link, the head and the old last link are written. */
  method InsertTail<O>(head: Link<O>, elem: Link<O>, ghost xs: seq<Link<O>>)
    requires Ring(head, xs) && elem != head && elem.home == elem
    modifies head`prev, head.prev`next, elem`prev, elem`next, elem`home
    ensures Ring(head, xs + [elem])
  {
    assert forall i :: 0 <= i < |xs| ==> xs[i].home != elem;
    elem.next := head;
    elem.prev := head.prev;
    head.prev.next := elem;
    head.prev := elem;
    elem.home := head;
  }

  /** LLIST_REMOVE: unlinks `elem`, keeps the order of the others and leaves `elem` linked to itself. */
  method Remove<O>(elem: Link<O>, ghost head: Link<O>, ghost xs: seq<Link<O>>, ghost i: nat)
    requires Ring(head, xs) && i < |xs| && xs[i] == elem
    modifies elem`prev, elem`next, elem`home, elem.prev`next, elem.next`prev
    ensures Ring(head, xs[..i] + xs[i + 1..]) && Ring(elem, [])
  {
    elem.next.prev := elem.prev;
    elem.prev.next := elem.next;
    elem.next := elem;
    elem.prev := elem;
    elem.home := elem;
  }

  /** A ring has one reading: two sequences that both describe it are equal. */
  lemma {:induction false} RingUnique<O>(head: Link<O>, xs: seq<Link<O>>, ys: seq<Link<O>>)
    requires Ring(head, xs) && Ring(head, ys)
    ensures xs == ys
  {
    for k := 0 to |xs|
      invariant k <= |ys| && xs[..k] == ys[..k]
    {
      if k > 0 {
        assert xs[k - 1] == xs[..k][k - 1] == ys[..k][k - 1] == ys[k - 1];
        assert ys[k - 1].next == xs[k];
      }
    }
    assert xs == xs[..|xs|];
    assert |xs| > 0 ==> xs[|xs| - 1] == ys[..|xs|][|xs| - 1] == ys[|xs| - 1];
  }
}
