/** The chained hash table of src/hashmap.c on real pointer rings.

    Every entry is linked on two rings at once: the ring of its bucket (`mapHead`) and the ring of all keys in
    insertion order (`keyHead`). The ghost field `entries` is the key ring read off from its head; each bucket
    ring is exactly the subsequence of it that hashes there. */
module Hashmap {
  import opened Wrappers
  import opened LList
  import opened RingFamily
  import opened Hashing

  const DEFAULT_BUCKET_COUNT: nat := 16

  /** struct hashmap_entry. */
  class Entry<V> {
    const key: string
    const value: V
    const mapHead: Link<Entry<V>>
    const keyHead: Link<Entry<V>>

    constructor (key: string, value: V)
      ensures this.key == key && this.value == value
      ensures fresh(mapHead) && fresh(keyHead) && mapHead != keyHead
      ensures mapHead.owner == keyHead.owner == Some(this)
      ensures mapHead.home == mapHead && keyHead.home == keyHead
    {
      this.key, this.value := key, value;
      var m := new Link<Entry<V>>();
      var k := new Link<Entry<V>>();
      mapHead, keyHead := m, k;
      new;
      m.owner := Some(this);
      k.owner := Some(this);
    }
  }

  /** hashmap_bucket. */
  function BucketOf(d: Descriptor, key: string, bucketCount: nat): (b: nat)
    requires bucketCount > 0
    ensures b < bucketCount
  {
    And(d.hash(key), bucketCount - 1)
  }

  /** When the number of buckets is a power of two, masking picks the bucket by the remainder, so every bucket can be
      reached. */
  lemma BucketIsRemainder(d: Descriptor, key: string, k: nat)
    ensures BucketOf(d, key, Pow2(k)) == d.hash(key) % Pow2(k)
  {
    MaskIsModulo(d.hash(key), k);
  }

  /** The hash function at one table size: what decides the bucket of a key. */
  datatype Indexer = Indexer(desc: Descriptor, bucketCount: nat)
  {
    ghost function Of(key: string): nat {
      if bucketCount == 0 then 0 else BucketOf(desc, key, bucketCount)
    }
  }

  // ----- Bucket rings as subsequences of the key ring.

  /** The entries of `es` that belong to bucket `b`, in the order of `es`. */
  ghost function InBucket<V>(f: Indexer, es: seq<Entry<V>>, b: nat): seq<Entry<V>> {
    if es == [] then [] else
      (if f.Of(es[0].key) == b then [es[0]] else []) + InBucket(f, es[1..], b)
  }

  lemma {:induction false} InBucketMember<V>(f: Indexer, es: seq<Entry<V>>, b: nat)
    ensures forall e :: e in InBucket(f, es, b) <==> e in es && f.Of(e.key) == b
  {
    if es != [] {
      InBucketMember(f, es[1..], b);
    }
  }

  lemma {:induction false} InBucketAt<V>(f: Indexer, es: seq<Entry<V>>, b: nat, i: nat)
    requires i < |InBucket(f, es, b)|
    ensures InBucket(f, es, b)[i] in es && f.Of(InBucket(f, es, b)[i].key) == b
  {
    if f.Of(es[0].key) != b {
      InBucketAt(f, es[1..], b, i);
    } else if i > 0 {
      InBucketAt(f, es[1..], b, i - 1);
    }
  }

  lemma {:induction false} InBucketConcat<V>(f: Indexer, xs: seq<Entry<V>>, ys: seq<Entry<V>>, b: nat)
    ensures InBucket(f, xs + ys, b) == InBucket(f, xs, b) + InBucket(f, ys, b)
  {
    if xs == [] {
      assert xs + ys == ys;
    } else {
      assert (xs + ys)[1..] == xs[1..] + ys;
      InBucketConcat(f, xs[1..], ys, b);
    }
  }

  ghost function MapLinks<V>(es: seq<Entry<V>>): (ls: seq<Link<Entry<V>>>)
    ensures |ls| == |es| && forall i :: 0 <= i < |es| ==> ls[i] == es[i].mapHead
  {
    seq(|es|, i requires 0 <= i < |es| => es[i].mapHead)
  }

  ghost function KeyLinks<V>(es: seq<Entry<V>>): (ls: seq<Link<Entry<V>>>)
    ensures |ls| == |es| && forall i :: 0 <= i < |es| ==> ls[i] == es[i].keyHead
  {
    seq(|es|, i requires 0 <= i < |es| => es[i].keyHead)
  }

  /** All bucket rings for the entries `es`. */
  ghost function BucketRings<V>(f: Indexer, es: seq<Entry<V>>): (rings: seq<seq<Link<Entry<V>>>>)
    ensures |rings| == f.bucketCount
    ensures forall b :: 0 <= b < f.bucketCount ==> rings[b] == MapLinks(InBucket(f, es, b))
  {
    seq(f.bucketCount, b requires 0 <= b < f.bucketCount => MapLinks(InBucket(f, es, b)))
  }

  lemma AppendedRings<V>(f: Indexer, es: seq<Entry<V>>, he: Entry<V>)
    requires f.bucketCount > 0
    ensures var rings, b := BucketRings(f, es), f.Of(he.key);
      BucketRings(f, es + [he]) == rings[b := rings[b] + [he.mapHead]]
  {
    var rings, after, idx := BucketRings(f, es), BucketRings(f, es + [he]), f.Of(he.key);
    forall b | 0 <= b < f.bucketCount
      ensures after[b] == if b == idx then rings[b] + [he.mapHead] else rings[b]
    {
      InBucketConcat(f, es, [he], b);
      assert InBucket(f, [he], b) == if idx == b then [he] else [];
    }
  }

  /** A bucket is what comes before the `k`-th entry, the entry itself if it belongs there, and what follows. */
  lemma InBucketSplit<V>(f: Indexer, es: seq<Entry<V>>, k: nat, b: nat)
    requires k < |es|
    ensures var p, q := InBucket(f, es[..k], b), InBucket(f, es[k + 1..], b);
      && InBucket(f, es, b) == p + (if f.Of(es[k].key) == b then [es[k]] else []) + q
      && InBucket(f, es[..k] + es[k + 1..], b) == p + q
  {
    var pre, post := es[..k], es[k + 1..];
    assert es == pre + ([es[k]] + post);
    InBucketConcat(f, pre, [es[k]] + post, b);
    InBucketConcat(f, pre, post, b);
    assert ([es[k]] + post)[1..] == post;
    var p, h, q := InBucket(f, pre, b), if f.Of(es[k].key) == b then [es[k]] else [], InBucket(f, post, b);
    assert p + (h + q) == p + h + q;
  }

  lemma RemovedRings<V>(f: Indexer, es: seq<Entry<V>>, k: nat) returns (i: nat)
    requires f.bucketCount > 0 && k < |es|
    ensures var rings, b := BucketRings(f, es), f.Of(es[k].key);
      && i < |rings[b]| && rings[b][i] == es[k].mapHead
      && BucketRings(f, es[..k] + es[k + 1..]) == rings[b := rings[b][..i] + rings[b][i + 1..]]
  {
    var rings, rest, idx := BucketRings(f, es), BucketRings(f, es[..k] + es[k + 1..]), f.Of(es[k].key);
    i := |InBucket(f, es[..k], idx)|;
    InBucketSplit(f, es, k, idx);
    assert InBucket(f, es, idx)[i] == es[k];
    forall b | 0 <= b < f.bucketCount
      ensures rest[b] == if b == idx then rings[b][..i] + rings[b][i + 1..] else rings[b]
    {
      RemovedRing(f, es, k, b);
    }
  }

  lemma RemovedRing<V>(f: Indexer, es: seq<Entry<V>>, k: nat, b: nat)
    requires k < |es|
    ensures var ring, i := MapLinks(InBucket(f, es, b)), |InBucket(f, es[..k], b)|;
      && (b == f.Of(es[k].key) ==> i < |ring|)
      && MapLinks(InBucket(f, es[..k] + es[k + 1..], b)) ==
        if b == f.Of(es[k].key) then ring[..i] + ring[i + 1..] else ring
  {
    var p, q := InBucket(f, es[..k], b), InBucket(f, es[k + 1..], b);
    InBucketSplit(f, es, k, b);
    if b == f.Of(es[k].key) {
      LinksWithout(p, es[k], q);
    } else {
      assert p + [] + q == p + q;
    }
  }

  lemma LinksWithout<V>(p: seq<Entry<V>>, e: Entry<V>, q: seq<Entry<V>>)
    ensures var ring := MapLinks(p + [e] + q); MapLinks(p + q) == ring[..|p|] + ring[|p| + 1..]
  {
  }

  ghost function ItemsOf<V>(es: seq<Entry<V>>): (items: seq<(string, V)>)
    ensures |items| == |es| && forall i :: 0 <= i < |es| ==> items[i] == (es[i].key, es[i].value)
  {
    seq(|es|, i requires 0 <= i < |es| => (es[i].key, es[i].value))
  }

  /** The key ring first, then the bucket rings. */
  ghost function TableRings<V>(f: Indexer, es: seq<Entry<V>>): (rings: seq<seq<Link<Entry<V>>>>)
    ensures |rings| == 1 + f.bucketCount
  {
    [KeyLinks(es)] + BucketRings(f, es)
  }

  lemma TableLinksIn<V>(f: Indexer, es: seq<Entry<V>>)
    ensures forall b, i :: 0 <= b < |TableRings(f, es)| && 0 <= i < |TableRings(f, es)[b]| ==>
      TableRings(f, es)[b][i] in Links(es)
  {
    BucketLinksIn(f, es);
  }

  ghost function Links<V>(es: seq<Entry<V>>): set<Link<Entry<V>>> {
    (set e <- es :: e.mapHead) + (set e <- es :: e.keyHead)
  }

  lemma BucketLinksIn<V>(f: Indexer, es: seq<Entry<V>>)
    ensures forall b, i :: 0 <= b < f.bucketCount && 0 <= i < |BucketRings(f, es)[b]| ==>
      BucketRings(f, es)[b][i] in Links(es)
  {
    forall b, i | 0 <= b < f.bucketCount && 0 <= i < |BucketRings(f, es)[b]|
      ensures BucketRings(f, es)[b][i] in Links(es)
    {
      InBucketAt(f, es, b, i);
      var e := InBucket(f, es, b)[i];
      assert BucketRings(f, es)[b][i] == e.mapHead;
    }
  }

  /** Both links of an entry lead back to it. */
  ghost predicate Owned<V>(es: seq<Entry<V>>)
    reads Links(es)
  {
    forall e :: e in es ==> e.mapHead.owner == e.keyHead.owner == Some(e)
  }

  /** The heap side of a table: its rings hold exactly `es`, and only links of `links` are involved. */
  ghost predicate Linked<V>(f: Indexer, keys: Link<Entry<V>>, bs: seq<Link<Entry<V>>>, es: seq<Entry<V>>,
                            links: set<Link<Entry<V>>>)
    reads links
  {
    && f.bucketCount == |bs| > 0
    && keys in links && (forall b :: 0 <= b < |bs| ==> bs[b] in links) && Links(es) <= links
    && Owned(es)
    && (TableLinksIn(f, es); Family([keys] + bs, TableRings(f, es)))
  }

  datatype Table<V> = Table(f: Indexer, keys: Link<Entry<V>>, bs: seq<Link<Entry<V>>>, es: seq<Entry<V>>,
                            links: set<Link<Entry<V>>>)

  /** A table none of whose links was written is still the same table. */
  twostate lemma LinkedKept<V>(t: Table<V>)
    requires old(Linked(t.f, t.keys, t.bs, t.es, t.links))
    requires unchanged(t.links)
    ensures Linked(t.f, t.keys, t.bs, t.es, t.links)
  {
    TableLinksIn(t.f, t.es);
    FamilyKept(([t.keys] + t.bs, TableRings(t.f, t.es)));
  }

  lemma LinkedWider<V>(f: Indexer, keys: Link<Entry<V>>, bs: seq<Link<Entry<V>>>, es: seq<Entry<V>>,
                       links: set<Link<Entry<V>>>, wider: set<Link<Entry<V>>>)
    requires Linked(f, keys, bs, es, links) && links <= wider
    ensures Linked(f, keys, bs, es, wider)
    ensures forall l :: l !in links ==> l !in [keys] + bs
  {
  }

  /** No two entries compare equal. */
  ghost predicate KeysDistinct<V>(d: Descriptor, es: seq<Entry<V>>) {
    forall i, j :: 0 <= i < j < |es| ==> d.fold(es[i].key) != d.fold(es[j].key)
  }

  /** The rings half way through a resize: `done` entries are on their new bucket ring, `rest` on the old one. */
  ghost function SplitRings<V>(f: Indexer, g: Indexer, es: seq<Entry<V>>, i: nat): seq<seq<Link<Entry<V>>>>
    requires i <= |es|
  {
    [KeyLinks(es)] + BucketRings(f, es[i..]) + BucketRings(g, es[..i])
  }

  lemma SplitRingsStep<V>(f: Indexer, g: Indexer, es: seq<Entry<V>>, i: nat) returns (j: nat)
    requires f.bucketCount > 0 && g.bucketCount > 0 && i < |es|
    ensures var rings, b, c := SplitRings(f, g, es, i), 1 + f.Of(es[i].key), 1 + f.bucketCount + g.Of(es[i].key);
      && j < |rings[b]| && rings[b][j] == es[i].mapHead
      && SplitRings(f, g, es, i + 1) == Moved(rings, b, j, c)
  {
    var p, q := BucketRings(f, es[i..]), BucketRings(g, es[..i]);
    var x, y := f.Of(es[i].key), g.Of(es[i].key);
    j := FirstLeaves(f, es, i);
    LastArrives(g, es, i);
    var p', q' := p[x := p[x][..j] + p[x][j + 1..]], q[y := q[y] + [es[i].mapHead]];
    UpdateMiddle([KeyLinks(es)], p, q, x, p'[x]);
    UpdateLast([KeyLinks(es)] + p', q, y, q'[y]);
  }

  /** The next entry is the first to leave the old rings, and the last to arrive on the new ones. */
  lemma FirstLeaves<V>(f: Indexer, es: seq<Entry<V>>, i: nat) returns (j: nat)
    requires f.bucketCount > 0 && i < |es|
    ensures var p, x := BucketRings(f, es[i..]), f.Of(es[i].key);
      && j < |p[x]| && p[x][j] == es[i].mapHead
      && BucketRings(f, es[i + 1..]) == p[x := p[x][..j] + p[x][j + 1..]]
  {
    var rest := es[i..];
    assert rest[0] == es[i] && rest[..0] + rest[1..] == es[i + 1..];
    j := RemovedRings(f, rest, 0);
  }

  lemma LastArrives<V>(g: Indexer, es: seq<Entry<V>>, i: nat)
    requires g.bucketCount > 0 && i < |es|
    ensures var q, y := BucketRings(g, es[..i]), g.Of(es[i].key);
      BucketRings(g, es[..i + 1]) == q[y := q[y] + [es[i].mapHead]]
  {
    AppendedRings(g, es[..i], es[i]);
    assert es[..i] + [es[i]] == es[..i + 1];
  }

  lemma UpdateMiddle<T>(a: seq<T>, b: seq<T>, c: seq<T>, i: nat, x: T)
    requires i < |b|
    ensures (a + b + c)[|a| + i] == b[i]
    ensures (a + b + c)[|a| + i := x] == a + b[i := x] + c
  {
  }

  lemma UpdateLast<T>(a: seq<T>, b: seq<T>, i: nat, x: T)
    requires i < |b|
    ensures (a + b)[|a| + i] == b[i]
    ensures (a + b)[|a| + i := x] == a + b[i := x]
  {
  }

  /** The loop of hashmap_resize: follows the key ring and moves every entry from its old bucket ring in `bs`
      to its new one in `cs`. */
  method Rehash<V>(ghost f: Indexer, g: Indexer, ghost bs: seq<Link<Entry<V>>>, cs: array<Link<Entry<V>>>,
                   keys: Link<Entry<V>>, ghost es: seq<Entry<V>>, ghost links: set<Link<Entry<V>>>)
    requires 0 < f.bucketCount == |bs| && 0 < g.bucketCount == cs.Length
    requires Family([keys] + bs + cs[..], SplitRings(f, g, es, 0)) && Owned(es)
    requires AllIn(keys, bs, cs[..], es, links)
    modifies links`prev, links`next, links`home
    ensures Family([keys] + cs[..], TableRings(g, es))
  {
    ghost var css, i := cs[..], 0;
    ghost var heads := [keys] + bs + css;
    KeysWalk(f, g, heads, es, 0);
    var l := keys.next;
    while l != keys
      invariant 0 <= i <= |es| && cs[..] == css
      invariant l == if i < |es| then es[i].keyHead else keys
      invariant Family(heads, SplitRings(f, g, es, i))
      decreases |es| - i
    {
      assert es[i] in es;
      var he := l.owner.value;
      assert he == es[i];
      var idx := BucketOf(g.desc, he.key, g.bucketCount);
      MoveNext(f, g, bs, css, keys, es, i, idx, cs[idx], he, links);
      KeysWalk(f, g, heads, es, i + 1);
      l := l.next;
      i := i + 1;
    }
    AllMoved(f, g, keys, bs, css, es);
  }

  /** The key ring leads from entry to entry all through a resize. */
  lemma KeysWalk<V>(f: Indexer, g: Indexer, heads: seq<Link<Entry<V>>>, es: seq<Entry<V>>, i: nat)
    requires i <= |es| && heads != [] && Family(heads, SplitRings(f, g, es, i))
    ensures heads[0].next == if es == [] then heads[0] else es[0].keyHead
    ensures i > 0 ==> es[i - 1].keyHead.next == if i < |es| then es[i].keyHead else heads[0]
  {
    var ring := SplitRings(f, g, es, i)[0];
    assert ring == KeyLinks(es) && Ring(heads[0], ring);
    if i > 0 {
      assert ring[i - 1].next == if i < |es| then ring[i] else heads[0];
    }
  }

  lemma AllMoved<V>(f: Indexer, g: Indexer, keys: Link<Entry<V>>, bs: seq<Link<Entry<V>>>, cs: seq<Link<Entry<V>>>,
                    es: seq<Entry<V>>)
    requires f.bucketCount == |bs| && g.bucketCount == |cs|
    requires Family([keys] + bs + cs, SplitRings(f, g, es, |es|))
    ensures Family([keys] + cs, TableRings(g, es))
  {
    assert es[..|es|] == es;
    Project([keys], bs, cs, [KeyLinks(es)], BucketRings(f, es[|es|..]), BucketRings(g, es));
  }

  /** One turn of the resize loop. */
  method MoveNext<V>(ghost f: Indexer, ghost g: Indexer, ghost bs: seq<Link<Entry<V>>>, ghost cs: seq<Link<Entry<V>>>,
                     ghost keys: Link<Entry<V>>, ghost es: seq<Entry<V>>, ghost i: nat, ghost idx: nat,
                     head: Link<Entry<V>>, he: Entry<V>, ghost links: set<Link<Entry<V>>>)
    requires 0 < f.bucketCount == |bs| && 0 < g.bucketCount == |cs|
    requires i < |es| && es[i] == he && idx == g.Of(he.key) && cs[idx] == head
    requires Family([keys] + bs + cs, SplitRings(f, g, es, i))
    requires AllIn(keys, bs, cs, es, links)
    modifies links`prev, links`next, links`home
    ensures Family([keys] + bs + cs, SplitRings(f, g, es, i + 1))
  {
    ghost var j, b, c := MovePlan(f, g, keys, bs, cs, es, i, links);
    Move(he.mapHead, head, [keys] + bs + cs, SplitRings(f, g, es, i), b, j, c, links);
  }

  /** Which ring the next entry leaves, where it is on it, and which ring it joins. */
  lemma MovePlan<V>(f: Indexer, g: Indexer, keys: Link<Entry<V>>, bs: seq<Link<Entry<V>>>, cs: seq<Link<Entry<V>>>,
                    es: seq<Entry<V>>, i: nat, links: set<Link<Entry<V>>>) returns (j: nat, b: nat, c: nat)
    requires AllIn(keys, bs, cs, es, links) && i < |es|
    requires f.bucketCount == |bs| > 0 && g.bucketCount == |cs| > 0
    ensures var heads, rings := [keys] + bs + cs, SplitRings(f, g, es, i);
      && Within(heads, rings, links) && |heads| == |rings|
      && b < |heads| && c < |heads| && heads[c] == cs[g.Of(es[i].key)]
      && j < |rings[b]| && rings[b][j] == es[i].mapHead
      && SplitRings(f, g, es, i + 1) == Moved(rings, b, j, c)
  {
    j := SplitRingsStep(f, g, es, i);
    SplitHeads(f, g, keys, bs, cs, es, i, links);
    b, c := 1 + f.Of(es[i].key), 1 + f.bucketCount + g.Of(es[i].key);
  }

  /** The heads of the old and the new rings and the links of the entries are among `links`. */
  ghost predicate AllIn<V>(keys: Link<Entry<V>>, bs: seq<Link<Entry<V>>>, cs: seq<Link<Entry<V>>>, es: seq<Entry<V>>,
                           links: set<Link<Entry<V>>>) {
    && keys in links && (forall b :: 0 <= b < |bs| ==> bs[b] in links) && (forall c :: 0 <= c < |cs| ==> cs[c] in links)
    && Links(es) <= links
  }

  lemma SplitHeads<V>(f: Indexer, g: Indexer, keys: Link<Entry<V>>, bs: seq<Link<Entry<V>>>, cs: seq<Link<Entry<V>>>,
                      es: seq<Entry<V>>, i: nat, links: set<Link<Entry<V>>>)
    requires AllIn(keys, bs, cs, es, links) && i < |es|
    requires f.bucketCount == |bs| > 0 && g.bucketCount == |cs| > 0
    ensures Within([keys] + bs + cs, SplitRings(f, g, es, i), links)
    ensures |[keys] + bs + cs| == 1 + f.bucketCount + g.bucketCount
    ensures ([keys] + bs + cs)[1 + f.bucketCount + g.Of(es[i].key)] == cs[g.Of(es[i].key)]
  {
    SplitRingsWithin(f, g, es, i);
  }

  lemma SplitRingsWithin<V>(f: Indexer, g: Indexer, es: seq<Entry<V>>, i: nat)
    requires i <= |es|
    ensures forall b, j :: 0 <= b < |SplitRings(f, g, es, i)| && 0 <= j < |SplitRings(f, g, es, i)[b]| ==>
      SplitRings(f, g, es, i)[b][j] in Links(es)
  {
    BucketLinksIn(f, es[i..]);
    BucketLinksIn(g, es[..i]);
    assert Links(es[i..]) <= Links(es) && Links(es[..i]) <= Links(es);
  }

  /** Growing happens before an insertion that would make the table more than three quarters full. */
  predicate MustGrow(size: nat, bucketCount: nat) {
    size > bucketCount / 4 * 3
  }

  /** The two LLIST_INSERT_TAIL of hashmap_insert. */
  method LinkEntry<V>(ghost f: Indexer, ghost bs: seq<Link<Entry<V>>>, head: Link<Entry<V>>, keys: Link<Entry<V>>,
                      he: Entry<V>, ghost es: seq<Entry<V>>, ghost links: set<Link<Entry<V>>>)
    requires Linked(f, keys, bs, es, links) && bs[f.Of(he.key)] == head
    requires he.mapHead in links && he.keyHead in links && he.mapHead != he.keyHead
    requires Outside([keys] + bs, he.mapHead) && Outside([keys] + bs, he.keyHead)
    requires he.mapHead.owner == he.keyHead.owner == Some(he)
    modifies links`prev, links`next, links`home
    ensures Linked(f, keys, bs, es + [he], links)
  {
    TableWithin(f, keys, bs, es, links);
    AppendedTable(f, es, he);
    LinksAppend(es, he);
    LinkBoth(keys, head, he.mapHead, he.keyHead, [keys] + bs, TableRings(f, es), 1 + f.Of(he.key), links);
  }

  lemma TableWithin<V>(f: Indexer, keys: Link<Entry<V>>, bs: seq<Link<Entry<V>>>, es: seq<Entry<V>>,
                       links: set<Link<Entry<V>>>)
    requires keys in links && (forall b :: 0 <= b < |bs| ==> bs[b] in links) && Links(es) <= links
    ensures Within([keys] + bs, TableRings(f, es), links)
  {
    TableLinksIn(f, es);
  }

  lemma LinksAppend<V>(es: seq<Entry<V>>, he: Entry<V>)
    requires Owned(es) && he.mapHead.owner == he.keyHead.owner == Some(he)
    ensures Links(es + [he]) == Links(es) + {he.mapHead, he.keyHead} && Owned(es + [he])
  {
    var all := es + [he];
    assert all[|es|] == he && forall i :: 0 <= i < |es| ==> all[i] == es[i];
    assert forall e :: e in all <==> e in es || e == he;
  }

  /** Appends one link to ring `b` and one to ring 0. */
  method LinkBoth<O>(keys: Link<O>, head: Link<O>, mapHead: Link<O>, keyHead: Link<O>, ghost heads: seq<Link<O>>,
                     ghost rings: seq<seq<Link<O>>>, ghost b: nat, ghost links: set<Link<O>>)
    requires Family(heads, rings) && Within(heads, rings, links)
    requires 0 < b < |heads| && heads[0] == keys && heads[b] == head
    requires mapHead in links && keyHead in links && mapHead != keyHead
    requires Outside(heads, mapHead) && Outside(heads, keyHead)
    modifies links`prev, links`next, links`home
    ensures Family(heads, LinkedBoth(rings, b, mapHead, keyHead))
  {
    Append(head, mapHead, heads, rings, b, links);
    Append(keys, keyHead, heads, rings[b := rings[b] + [mapHead]], 0, links);
  }

  ghost function LinkedBoth<O>(rings: seq<seq<Link<O>>>, b: nat, mapHead: Link<O>, keyHead: Link<O>): seq<seq<Link<O>>>
    requires b < |rings|
  {
    var mid := rings[b := rings[b] + [mapHead]];
    mid[0 := mid[0] + [keyHead]]
  }

  lemma AppendedTable<V>(f: Indexer, es: seq<Entry<V>>, he: Entry<V>)
    requires f.bucketCount > 0
    ensures TableRings(f, es + [he]) == LinkedBoth(TableRings(f, es), 1 + f.Of(he.key), he.mapHead, he.keyHead)
  {
    AppendedRings(f, es, he);
    LinkedBothIs(KeyLinks(es), BucketRings(f, es), f.Of(he.key), he.mapHead, he.keyHead);
    assert KeyLinks(es + [he]) == KeyLinks(es) + [he.keyHead];
  }

  lemma LinkedBothIs<O>(ring: seq<Link<O>>, rings: seq<seq<Link<O>>>, b: nat, mapHead: Link<O>, keyHead: Link<O>)
    requires b < |rings|
    ensures LinkedBoth([ring] + rings, 1 + b, mapHead, keyHead) == [ring + [keyHead]] + rings[b := rings[b] + [mapHead]]
  {
    UpdateLast([ring], rings, b, rings[b] + [mapHead]);
  }

  /** The two LLIST_REMOVE of hashmap_remove_entry. */
  method UnlinkEntry<V>(ghost f: Indexer, ghost bs: seq<Link<Entry<V>>>, ghost keys: Link<Entry<V>>, he: Entry<V>,
                        ghost es: seq<Entry<V>>, ghost k: nat, ghost links: set<Link<Entry<V>>>)
    requires Linked(f, keys, bs, es, links) && k < |es| && es[k] == he
    modifies links`prev, links`next, links`home
    ensures Linked(f, keys, bs, es[..k] + es[k + 1..], links)
  {
    ghost var j := RemovedTable(f, es, k);
    TableWithin(f, keys, bs, es, links);
    LinksRemove(es, k);
    ghost var rings, b := TableRings(f, es), 1 + f.Of(he.key);
    ghost var after := UnlinkedBoth(rings, b, j, k);
    assert TableRings(f, es[..k] + es[k + 1..]) == after;
    UnlinkBoth(he.mapHead, he.keyHead, [keys] + bs, rings, b, j, k, links);
    assert Family([keys] + bs, after);
  }

  lemma LinksRemove<V>(es: seq<Entry<V>>, k: nat)
    requires k < |es| && Owned(es)
    ensures Links(es[..k] + es[k + 1..]) <= Links(es) && Owned(es[..k] + es[k + 1..])
  {
    assert forall e :: e in es[..k] + es[k + 1..] ==> e in es;
  }

  /** Removes the `j`-th link of ring `b` and the `k`-th of ring 0. */
  method UnlinkBoth<O>(mapHead: Link<O>, keyHead: Link<O>, ghost heads: seq<Link<O>>, ghost rings: seq<seq<Link<O>>>,
                       ghost b: nat, ghost j: nat, ghost k: nat, ghost links: set<Link<O>>)
    requires Family(heads, rings) && Within(heads, rings, links)
    requires 0 < b < |heads| && j < |rings[b]| && rings[b][j] == mapHead
    requires k < |rings[0]| && rings[0][k] == keyHead
    modifies links`prev, links`next, links`home
    ensures Family(heads, UnlinkedBoth(rings, b, j, k))
  {
    Extract(mapHead, heads, rings, b, j, links);
    Extract(keyHead, heads, rings[b := rings[b][..j] + rings[b][j + 1..]], 0, k, links);
  }

  ghost function UnlinkedBoth<O>(rings: seq<seq<Link<O>>>, b: nat, j: nat, k: nat): seq<seq<Link<O>>>
    requires 0 < b < |rings| && j < |rings[b]| && k < |rings[0]|
  {
    var mid := rings[b := rings[b][..j] + rings[b][j + 1..]];
    mid[0 := mid[0][..k] + mid[0][k + 1..]]
  }

  lemma RemovedTable<V>(f: Indexer, es: seq<Entry<V>>, k: nat) returns (j: nat)
    requires f.bucketCount > 0 && k < |es|
    ensures var rings, b := TableRings(f, es), 1 + f.Of(es[k].key);
      && j < |rings[b]| && rings[b][j] == es[k].mapHead && k < |rings[0]| && rings[0][k] == es[k].keyHead
      && TableRings(f, es[..k] + es[k + 1..]) == UnlinkedBoth(rings, b, j, k)
  {
    j := RemovedRings(f, es, k);
    UnlinkedBothIs(KeyLinks(es), BucketRings(f, es), f.Of(es[k].key), j, k);
    KeyLinksWithout(es, k);
  }

  lemma KeyLinksWithout<V>(es: seq<Entry<V>>, k: nat)
    requires k < |es|
    ensures KeyLinks(es[..k] + es[k + 1..]) == KeyLinks(es)[..k] + KeyLinks(es)[k + 1..]
  {
  }

  lemma UnlinkedBothIs<O>(ring: seq<Link<O>>, rings: seq<seq<Link<O>>>, b: nat, j: nat, k: nat)
    requires b < |rings| && j < |rings[b]| && k < |ring|
    ensures ([ring] + rings)[1 + b] == rings[b]
    ensures UnlinkedBoth([ring] + rings, 1 + b, j, k) ==
      [ring[..k] + ring[k + 1..]] + rings[b := rings[b][..j] + rings[b][j + 1..]]
  {
    UpdateLast([ring], rings, b, rings[b][..j] + rings[b][j + 1..]);
  }

  /** The search loop of hashmap_find and hashmap_insert. */
  method WalkBucket<V>(desc: Descriptor, head: Link<Entry<V>>, key: string, ghost xs: seq<Entry<V>>)
    returns (entry: Option<Entry<V>>)
    requires Ring(head, MapLinks(xs)) && forall i :: 0 <= i < |xs| ==> xs[i].mapHead.owner == Some(xs[i])
    ensures entry.Some? ==> entry.value in xs && desc.fold(entry.value.key) == desc.fold(key)
    ensures entry.None? ==> forall e :: e in xs ==> desc.fold(e.key) != desc.fold(key)
  {
    ghost var i, ring := 0, MapLinks(xs);
    var l := head.next;
    while l != head
      invariant 0 <= i <= |ring|
      invariant l == if i < |ring| then ring[i] else head
      invariant forall j :: 0 <= j < i ==> desc.fold(xs[j].key) != desc.fold(key)
      decreases |ring| - i
    {
      var he := l.owner.value;
      if desc.fold(he.key) == desc.fold(key) {
        return Some(he);
      }
      l := l.next;
      i := i + 1;
    }
    return None;
  }

  lemma EmptyTable<V>(f: Indexer, keys: Link<Entry<V>>, heads: seq<Link<Entry<V>>>)
    requires f.bucketCount == |heads| && Ring(keys, [])
    requires forall b :: 0 <= b < |heads| ==> heads[b] != keys && Ring(heads[b], [])
    requires forall b, c :: 0 <= b < c < |heads| ==> heads[b] != heads[c]
    ensures Family([keys] + heads, TableRings(f, []))
  {
    Extend([keys], [[]], heads, BucketRings<V>(f, []));
    assert KeyLinks<V>([]) == [];
  }

  /** The ring of a bucket, with links that lead back to their entries. */
  lemma BucketLinked<V>(f: Indexer, keys: Link<Entry<V>>, bs: seq<Link<Entry<V>>>, es: seq<Entry<V>>,
                        links: set<Link<Entry<V>>>, b: nat)
    requires Linked(f, keys, bs, es, links) && b < |bs|
    ensures var xs := InBucket(f, es, b);
      Ring(bs[b], MapLinks(xs)) && forall i :: 0 <= i < |xs| ==> xs[i].mapHead.owner == Some(xs[i])
  {
    var xs := InBucket(f, es, b);
    RingOf([keys] + bs, TableRings(f, es), 1 + b);
    assert TableRings(f, es)[1 + b] == BucketRings(f, es)[b];
    forall i | 0 <= i < |xs|
      ensures xs[i].mapHead.owner == Some(xs[i])
    {
      InBucketAt(f, es, b, i);
    }
  }

  lemma RingOf<O>(heads: seq<Link<O>>, rings: seq<seq<Link<O>>>, b: nat)
    requires Family(heads, rings) && b < |heads|
    ensures Ring(heads[b], rings[b])
  {
  }

  class Hashmap<V> {
    const desc: Descriptor
    var size: nat
    var bucketCount: nat
    var buckets: array<Link<Entry<V>>>
    const keys: Link<Entry<V>>

    ghost var entries: seq<Entry<V>>
    ghost var links: set<Link<Entry<V>>>

    ghost predicate Valid()
      reads this, links, buckets
    {
      && desc.Lawful()
      && size == |entries| && KeysDistinct(desc, entries)
      && bucketCount == buckets.Length
      && Linked(Indexer(desc, bucketCount), keys, buckets[..], entries, links)
    }

    /** What the table stands for: its keys and values in insertion order. */
    ghost function Model(): seq<(string, V)>
      reads this
    {
      ItemsOf(entries)
    }

    /** hashmap_new. A zero initial count means the default. */
    constructor (desc: Descriptor, initialBucketCount: nat)
      requires desc.Lawful()
      ensures Valid() && fresh(links) && fresh(buckets)
      ensures this.desc == desc && entries == []
      ensures bucketCount == if initialBucketCount == 0 then DEFAULT_BUCKET_COUNT else initialBucketCount
    {
      this.desc := desc;
      var n := if initialBucketCount == 0 then DEFAULT_BUCKET_COUNT else initialBucketCount;
      size, bucketCount := 0, n;
      var k := new Link<Entry<V>>();
      keys := k;
      var heads := NewHeads<Entry<V>>(n);
      buckets := heads;
      entries := [];
      links := {k} + set b | b in heads[..];
      new;
      EmptyTable(Indexer(desc, n), k, heads[..]);
    }

    /** hashmap_find: walks the ring of the key's bucket. */
    method Find(key: string) returns (entry: Option<Entry<V>>)
      requires Valid()
      ensures entry.Some? ==> entry.value in entries && desc.fold(entry.value.key) == desc.fold(key)
      ensures entry.None? ==> forall e :: e in entries ==> desc.fold(e.key) != desc.fold(key)
    {
      var idx := BucketOf(desc, key, bucketCount);
      ghost var f := Indexer(desc, bucketCount);
      ghost var xs := InBucket(f, entries, idx);
      BucketLinked(f, keys, buckets[..], entries, links, idx);
      entry := WalkBucket(desc, buckets[idx], key, xs);
      if entry.Some? {
        InBucketMember(f, entries, idx);
        assert entry.value in InBucket(f, entries, idx);
      } else {
        NowhereElse(desc, bucketCount, entries, key);
      }
    }

    /** hashmap_resize: rebuilds every bucket ring from the key ring, without touching the key ring. */
    method Resize(newBucketCount: nat)
      requires Valid() && newBucketCount > 0
      modifies this, links
      ensures Valid() && fresh(links - old(links)) && fresh(buckets)
      ensures entries == old(entries) && bucketCount == newBucketCount
    {
      var newMap := NewTable(Indexer(desc, bucketCount), Indexer(desc, newBucketCount), buckets, keys, entries, links);
      label built:
      links := links + HeadSet(newMap[..]);
      buckets := newMap;
      bucketCount := newBucketCount;
      LinkedKept@built(Table(Indexer(desc, newBucketCount), keys, newMap[..], entries, links));
    }

    /** hashmap_insert. A key that compares equal to one already there changes nothing and gives the old entry. */
    method Insert(key: string, value: V) returns (inserted: bool, entry: Entry<V>)
      requires Valid()
      modifies this, links
      ensures Valid() && fresh(links - old(links))
      ensures inserted <==> old(Absent(desc, entries, key))
      ensures inserted ==> entries == old(entries) + [entry] && entry.key == key && entry.value == value
      ensures !inserted ==> entries == old(entries) && entry in entries && desc.fold(entry.key) == desc.fold(key)
      ensures bucketCount ==
        if inserted && MustGrow(old(size), old(bucketCount)) then old(bucketCount) * 2 else old(bucketCount)
    {
      var existing := Find(key);
      if existing.Some? {
        return false, existing.value;
      }
      entry := InsertNew(key, value);
      inserted := true;
    }

    /** The part of hashmap_insert that follows an unsuccessful search. */
    method InsertNew(key: string, value: V) returns (entry: Entry<V>)
      requires Valid() && Absent(desc, entries, key)
      modifies this, links
      ensures Valid() && fresh(links - old(links))
      ensures entries == old(entries) + [entry] && entry.key == key && entry.value == value
      ensures bucketCount == if MustGrow(old(size), old(bucketCount)) then old(bucketCount) * 2 else old(bucketCount)
    {
      if MustGrow(size, bucketCount) {
        Resize(bucketCount * 2);
      }
      entry := new Entry<V>(key, value);
      AddEntry(entry);
    }

    method AddEntry(he: Entry<V>)
      requires Valid() && Absent(desc, entries, he.key)
      requires he.mapHead !in links && he.keyHead !in links && he.mapHead != he.keyHead
      requires he.mapHead.owner == he.keyHead.owner == Some(he)
      requires he.mapHead.home == he.mapHead && he.keyHead.home == he.keyHead
      modifies this, links, he.mapHead, he.keyHead
      ensures Valid() && links == old(links) + {he.mapHead, he.keyHead}
      ensures entries == old(entries) + [he] && bucketCount == old(bucketCount)
    {
      ghost var f := Indexer(desc, bucketCount);
      ghost var all := links + {he.mapHead, he.keyHead};
      KeysMore(desc, entries, he);
      LinkNew(he, f, all);
      Record(entries + [he], all);
    }

    /** The table is what has been linked. */
    method Record(ghost es: seq<Entry<V>>, ghost all: set<Link<Entry<V>>>)
      requires desc.Lawful() && bucketCount == buckets.Length && size + 1 == |es| && KeysDistinct(desc, es)
      requires Linked(Indexer(desc, bucketCount), keys, buckets[..], es, all)
      modifies this`size, this`entries, this`links
      ensures Valid() && links == all && entries == es
    {
      label linked:
      size := size + 1;
      entries := es;
      links := all;
      LinkedKept@linked(Table(Indexer(desc, bucketCount), keys, buckets[..], es, all));
    }

    /** The entry goes on its bucket ring and on the key ring. */
    method LinkNew(he: Entry<V>, ghost f: Indexer, ghost all: set<Link<Entry<V>>>)
      requires f == Indexer(desc, bucketCount) && bucketCount == buckets.Length
      requires Linked(f, keys, buckets[..], entries, links) && all == links + {he.mapHead, he.keyHead}
      requires he.mapHead !in links && he.keyHead !in links && he.mapHead != he.keyHead
      requires he.mapHead.owner == he.keyHead.owner == Some(he)
      requires he.mapHead.home == he.mapHead && he.keyHead.home == he.keyHead
      modifies all`prev, all`next, all`home
      ensures Linked(f, keys, buckets[..], entries + [he], all)
    {
      var idx := BucketOf(desc, he.key, bucketCount);
      LinkedWider(f, keys, buckets[..], entries, links, all);
      LinkEntry(f, buckets[..], buckets[idx], keys, he, entries, all);
    }

    /** hashmap_remove_entry. */
    method RemoveEntry(he: Entry<V>, ghost k: nat)
      requires Valid() && k < |entries| && entries[k] == he
      modifies this, links
      ensures Valid() && links == old(links) && bucketCount == old(bucketCount)
      ensures entries == Without(old(entries), k)
    {
      ghost var f, es := Indexer(desc, bucketCount), entries;
      UnlinkEntry(f, buckets[..], keys, he, es, k, links);
      label unlinked:
      size := size - 1;
      entries := Without(es, k);
      LinkedKept@unlinked(Table(f, keys, buckets[..], entries, links));
    }

    /** hashmap_erase. */
    method Erase(key: string) returns (erased: bool)
      requires Valid()
      modifies this, links
      ensures Valid() && links == old(links) && bucketCount == old(bucketCount)
      ensures erased <==> !old(Absent(desc, entries, key))
      ensures !erased ==> entries == old(entries)
      ensures erased ==> (exists k ::
        0 <= k < |old(entries)| && desc.fold(old(entries)[k].key) == desc.fold(key) && entries == Without(old(entries), k))
    {
      var entry := Find(key);
      if entry.None? {
        return false;
      }
      ghost var k :| 0 <= k < |entries| && entries[k] == entry.value;
      RemoveEntry(entry.value, k);
      return true;
    }

    /** hashmap_flush. */
    method Flush()
      requires Valid()
      modifies this, links
      ensures Valid() && links == old(links) && entries == [] && bucketCount == old(bucketCount)
    {
      var empty := IsEmpty();
      while !empty
        invariant Valid() && links == old(links) && bucketCount == old(bucketCount)
        invariant empty <==> entries == []
        decreases |entries|
      {
        FirstEntry();
        var he := keys.next.owner.value;
        RemoveEntry(he, 0);
        empty := IsEmpty();
      }
    }

    /** LLIST_EMPTY on the key ring. */
    method IsEmpty() returns (empty: bool)
      requires Valid()
      ensures empty <==> entries == []
    {
      KeyRing();
      empty := keys.next == keys;
    }

    /** HASHMAP_FOREACH_ENTRY: visits the keys and values in insertion order. */
    method ForEach() returns (items: seq<(string, V)>)
      requires Valid()
      ensures items == Model()
    {
      KeyRing();
      items := [];
      ghost var i, ring := 0, KeyLinks(entries);
      var l := keys.next;
      while l != keys
        invariant 0 <= i <= |ring|
        invariant l == if i < |ring| then ring[i] else keys
        invariant items == Model()[..i]
        decreases |ring| - i
      {
        assert entries[i] in entries;
        var he := l.owner.value;
        items := items + [(he.key, he.value)];
        l := l.next;
        i := i + 1;
      }
    }

    lemma KeyRing()
      requires Valid()
      ensures Ring(keys, KeyLinks(entries))
    {
      var f := Indexer(desc, bucketCount);
      assert ([keys] + buckets[..])[0] == keys && TableRings(f, entries)[0] == KeyLinks(entries);
    }

    /** The ring of a bucket is the subsequence of the key ring that hashes to the bucket. */
    lemma BucketRing(b: nat)
      requires Valid() && b < bucketCount
      ensures Ring(buckets[b], MapLinks(InBucket(Indexer(desc, bucketCount), entries, b)))
    {
      var f := Indexer(desc, bucketCount);
      assert ([keys] + buckets[..])[1 + b] == buckets[b];
      assert TableRings(f, entries)[1 + b] == BucketRings(f, entries)[b];
    }

    lemma FirstEntry()
      requires Valid() && entries != []
      ensures keys.next.owner == Some(entries[0])
    {
      KeyRing();
      assert entries[0] in entries;
    }
  }

  ghost function Without<T>(xs: seq<T>, k: nat): seq<T>
    requires k < |xs|
  {
    xs[..k] + xs[k + 1..]
  }

  /** Keys that compare equal share a bucket. */
  lemma NowhereElse<V>(d: Descriptor, bucketCount: nat, es: seq<Entry<V>>, key: string)
    requires d.Lawful() && bucketCount > 0
    requires forall e :: e in InBucket(Indexer(d, bucketCount), es, BucketOf(d, key, bucketCount)) ==>
      d.fold(e.key) != d.fold(key)
    ensures Absent(d, es, key)
  {
    InBucketMember(Indexer(d, bucketCount), es, BucketOf(d, key, bucketCount));
  }

  lemma KeysMore<V>(d: Descriptor, es: seq<Entry<V>>, he: Entry<V>)
    requires KeysDistinct(d, es) && Absent(d, es, he.key)
    ensures KeysDistinct(d, es + [he])
  {
    assert forall i :: 0 <= i < |es| ==> es[i] in es;
  }

  ghost predicate Absent<V>(d: Descriptor, es: seq<Entry<V>>, key: string) {
    forall e :: e in es ==> d.fold(e.key) != d.fold(key)
  }

  /** The part of hashmap_resize that builds the new bucket array. */
  method NewTable<V>(ghost f: Indexer, g: Indexer, ghost bs: array<Link<Entry<V>>>, keys: Link<Entry<V>>,
                     ghost es: seq<Entry<V>>, ghost links: set<Link<Entry<V>>>)
    returns (newMap: array<Link<Entry<V>>>)
    requires Linked(f, keys, bs[..], es, links) && 0 < g.bucketCount
    modifies links`prev, links`next, links`home
    ensures fresh(newMap) && newMap.Length == g.bucketCount
    ensures forall b :: 0 <= b < newMap.Length ==> fresh(newMap[b])
    ensures Linked(g, keys, newMap[..], es, links + HeadSet(newMap[..]))
  {
    newMap := NewHeads<Entry<V>>(g.bucketCount);
    TableLinksIn(f, es);
    Extend([keys] + bs[..], TableRings(f, es), newMap[..], BucketRings(g, []));
    assert es[0..] == es && es[..0] == [];
    assert TableRings(f, es) + BucketRings(g, []) == SplitRings(f, g, es, 0);
    assert forall b :: 0 <= b < newMap.Length ==> newMap[b] in newMap[..];
    ghost var all := links + HeadSet(newMap[..]);
    Rehash(f, g, bs[..], newMap, keys, es, all);
  }

  ghost function HeadSet<O>(heads: seq<Link<O>>): set<Link<O>> {
    set l | l in heads
  }

  /** malloc of a bucket array followed by LLIST_INIT of every head. */
  method NewHeads<O>(n: nat) returns (heads: array<Link<O>>)
    ensures fresh(heads) && heads.Length == n
    ensures forall b :: 0 <= b < n ==> fresh(heads[b]) && Ring(heads[b], [])
    ensures forall b, c :: 0 <= b < c < n ==> heads[b] != heads[c]
  {
    var head := new Link<O>();
    heads := new Link<O>[n](_ => head);
    for i := 0 to n
      invariant fresh(heads)
      invariant forall b :: 0 <= b < n ==> fresh(heads[b]) && Ring(heads[b], [])
      invariant forall b, c :: 0 <= b < c < i ==> heads[b] != heads[c]
    {
      head := new Link<O>();
      heads[i] := head;
    }
  }
}
