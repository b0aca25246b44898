/** Several rings side by side, and moving links between them.

    A hash table is such a family: the key ring and one ring per bucket. Rings with different heads share no
    link, because every link knows its home. */
module RingFamily {
  import opened LList

  ghost predicate Family<O>(heads: seq<Link<O>>, rings: seq<seq<Link<O>>>)
    reads heads, set b, i | 0 <= b < |rings| && 0 <= i < |rings[b]| :: rings[b][i]
  {
    && |heads| == |rings|
    && (forall b, c :: 0 <= b < c < |heads| ==> heads[b] != heads[c])
    && (forall b :: 0 <= b < |heads| ==> Ring(heads[b], rings[b]))
  }

  /** `l` is neither linked nor one of the heads. */
  ghost predicate Outside<O>(heads: seq<Link<O>>, l: Link<O>)
    reads l
  {
    l.home == l && l !in heads
  }

  twostate predicate Same<O>(l: Link<O>)
    reads l
  {
    l.prev == old(l.prev) && l.next == old(l.next) && l.home == old(l.home)
  }

  twostate lemma RingKept<O>(r: (Link<O>, seq<Link<O>>))
    requires old(Ring(r.0, r.1)) && Same(r.0)
    requires forall i :: 0 <= i < |r.1| ==> Same(r.1[i])
    ensures Ring(r.0, r.1)
  {
  }

  twostate lemma FamilyKept<O>(t: (seq<Link<O>>, seq<seq<Link<O>>>))
    requires old(Family(t.0, t.1))
    requires forall b :: 0 <= b < |t.0| ==> Same(t.0[b])
    requires forall b, i :: 0 <= b < |t.1| && 0 <= i < |t.1[b]| ==> Same(t.1[b][i])
    ensures Family(t.0, t.1)
  {
    forall b | 0 <= b < |t.0|
      ensures Ring(t.0[b], t.1[b])
    {
      RingKept((t.0[b], t.1[b]));
    }
  }

  /** All heads and all linked links are among `links`. */
  ghost predicate Within<O>(heads: seq<Link<O>>, rings: seq<seq<Link<O>>>, links: set<Link<O>>) {
    && (forall b :: 0 <= b < |heads| ==> heads[b] in links)
    && (forall b, i :: 0 <= b < |rings| && 0 <= i < |rings[b]| ==> rings[b][i] in links)
  }

  /** LLIST_INSERT_TAIL on one ring of a family. */
  method Append<O>(head: Link<O>, elem: Link<O>, ghost heads: seq<Link<O>>, ghost rings: seq<seq<Link<O>>>,
                   ghost b: nat, ghost links: set<Link<O>>)
    requires Family(heads, rings) && Outside(heads, elem)
    requires b < |heads| && heads[b] == head
    requires Within(heads, rings, links) && elem in links
    modifies links`prev, links`next, links`home
    ensures Family(heads, rings[b := rings[b] + [elem]])
    ensures forall l :: l in links && l != elem ==> l.home == old(l.home)
  {
    ghost var last := head.prev;
    assert last == head || exists i :: 0 <= i < |rings[b]| && last == rings[b][i];
    assert last.home == head;
    InsertTail(head, elem, rings[b]);
    forall c | 0 <= c < |heads| && c != b
      ensures Ring(heads[c], rings[c])
    {
      RingKept((heads[c], rings[c]));
    }
  }

  /** LLIST_REMOVE on one ring of a family. */
  method Extract<O>(elem: Link<O>, ghost heads: seq<Link<O>>, ghost rings: seq<seq<Link<O>>>, ghost b: nat,
                    ghost i: nat, ghost links: set<Link<O>>)
    requires Family(heads, rings)
    requires b < |heads| && i < |rings[b]| && rings[b][i] == elem
    requires Within(heads, rings, links)
    modifies links`prev, links`next, links`home
    ensures Family(heads, rings[b := rings[b][..i] + rings[b][i + 1..]])
    ensures Outside(heads, elem)
  {
    ghost var before, after := elem.prev, elem.next;
    assert before == if i == 0 then heads[b] else rings[b][i - 1];
    assert after == if i + 1 == |rings[b]| then heads[b] else rings[b][i + 1];
    assert before.home == after.home == elem.home == heads[b];
    Remove(elem, heads[b], rings[b], i);
    forall c | 0 <= c < |heads| && c != b
      ensures Ring(heads[c], rings[c])
    {
      RingKept((heads[c], rings[c]));
    }
  }

  /** LLIST_REMOVE from ring `b` followed by LLIST_INSERT_TAIL on ring `c`. */
  method Move<O>(elem: Link<O>, head: Link<O>, ghost heads: seq<Link<O>>, ghost rings: seq<seq<Link<O>>>,
                 ghost b: nat, ghost i: nat, ghost c: nat, ghost links: set<Link<O>>)
    requires Family(heads, rings) && Within(heads, rings, links)
    requires b < |heads| && i < |rings[b]| && rings[b][i] == elem
    requires c < |heads| && heads[c] == head
    modifies links`prev, links`next, links`home
    ensures Family(heads, Moved(rings, b, i, c))
  {
    Extract(elem, heads, rings, b, i, links);
    Append(head, elem, heads, rings[b := rings[b][..i] + rings[b][i + 1..]], c, links);
  }

  ghost function Moved<O>(rings: seq<seq<Link<O>>>, b: nat, i: nat, c: nat): seq<seq<Link<O>>>
    requires b < |rings| && i < |rings[b]| && c < |rings|
  {
    var out := rings[b := rings[b][..i] + rings[b][i + 1..]];
    out[c := out[c] + [rings[b][i]]]
  }

  /** Dropping some rings of a family leaves a family. */
  lemma Project<O>(hs: seq<Link<O>>, bs: seq<Link<O>>, cs: seq<Link<O>>,
                   rs: seq<seq<Link<O>>>, ps: seq<seq<Link<O>>>, qs: seq<seq<Link<O>>>)
    requires Family(hs + bs + cs, rs + ps + qs) && |hs| == |rs| && |bs| == |ps|
    ensures Family(hs + cs, rs + qs)
  {
    var heads, rings, n, m := hs + bs + cs, rs + ps + qs, |hs|, |bs|;
    assert forall b :: 0 <= b < |hs + cs| ==>
      (hs + cs)[b] == heads[if b < n then b else b + m] && (rs + qs)[b] == rings[if b < n then b else b + m];
  }

  /** Adding empty rings with new heads leaves a family. */
  lemma Extend<O>(hs: seq<Link<O>>, rs: seq<seq<Link<O>>>, cs: seq<Link<O>>, empty: seq<seq<Link<O>>>)
    requires Family(hs, rs) && |cs| == |empty|
    requires forall c :: 0 <= c < |cs| ==> cs[c] !in hs && Ring(cs[c], []) && empty[c] == []
    requires forall b, c :: 0 <= b < c < |cs| ==> cs[b] != cs[c]
    ensures Family(hs + cs, rs + empty)
  {
    var heads, rings, n := hs + cs, rs + empty, |hs|;
    assert forall b :: 0 <= b < |heads| ==> heads[b] == (if b < n then hs[b] else cs[b - n]);
    assert forall b :: 0 <= b < |heads| ==> rings[b] == (if b < n then rs[b] else []);
  }
}
