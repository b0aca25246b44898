/** What a registry is to its users: an insertion-ordered finite map whose keys are compared up to case, and the
    proof that every run of operations on the pointer structure behaves like one. */
module OrderedMap {
  import opened Wrappers
  import opened Hashing
  import opened Hashmap

  type Items<V> = seq<(string, V)>

  /** No two keys fold to the same string. */
  ghost predicate Keyed<V>(d: Descriptor, items: Items<V>) {
    forall i, j :: 0 <= i < j < |items| ==> d.fold(items[i].0) != d.fold(items[j].0)
  }

  ghost function Lookup<V>(d: Descriptor, items: Items<V>, key: string): Option<(string, V)> {
    if items == [] then None
    else if d.fold(items[0].0) == d.fold(key) then Some(items[0])
    else Lookup(d, items[1..], key)
  }

  ghost function Drop<V>(d: Descriptor, items: Items<V>, key: string): Items<V> {
    if items == [] then []
    else if d.fold(items[0].0) == d.fold(key) then items[1..]
    else [items[0]] + Drop(d, items[1..], key)
  }

  datatype Op<V> = OpInsert(key: string, value: V) | OpFind(key: string) | OpErase(key: string) | OpFlush

  /** The list of items after one operation. */
  ghost function After<V>(d: Descriptor, items: Items<V>, op: Op<V>): Items<V> {
    match op
    case OpInsert(k, v) => if Lookup(d, items, k).None? then items + [(k, v)] else items
    case OpFind(_) => items
    case OpErase(k) => Drop(d, items, k)
    case OpFlush => []
  }

  /** The item an operation reports: the one found, the one inserted, or the one that was already there. */
  ghost function Answer<V>(d: Descriptor, items: Items<V>, op: Op<V>): Option<(string, V)> {
    match op
    case OpInsert(k, v) => if Lookup(d, items, k).None? then Some((k, v)) else Lookup(d, items, k)
    case OpFind(k) => Lookup(d, items, k)
    case OpErase(k) => Lookup(d, items, k)
    case OpFlush => None
  }

  ghost function Run<V>(d: Descriptor, items: Items<V>, ops: seq<Op<V>>): Items<V> {
    if ops == [] then items else After(d, Run(d, items, ops[..|ops| - 1]), ops[|ops| - 1])
  }

  // ----- The finite map behind the list.

  ghost function AsMap<V>(d: Descriptor, items: Items<V>): map<string, (string, V)> {
    if items == [] then map[] else AsMap(d, items[..|items| - 1])[d.fold(items[|items| - 1].0) := items[|items| - 1]]
  }

  ghost function MapAfter<V>(d: Descriptor, m: map<string, (string, V)>, op: Op<V>): map<string, (string, V)> {
    match op
    case OpInsert(k, v) => if d.fold(k) in m then m else m[d.fold(k) := (k, v)]
    case OpFind(_) => m
    case OpErase(k) => m - {d.fold(k)}
    case OpFlush => map[]
  }

  ghost function MapRun<V>(d: Descriptor, m: map<string, (string, V)>, ops: seq<Op<V>>): map<string, (string, V)> {
    if ops == [] then m else MapAfter(d, MapRun(d, m, ops[..|ops| - 1]), ops[|ops| - 1])
  }

  lemma {:induction false} AsMapAt<V>(d: Descriptor, items: Items<V>)
    requires Keyed(d, items)
    ensures forall i :: 0 <= i < |items| ==>
      d.fold(items[i].0) in AsMap(d, items) && AsMap(d, items)[d.fold(items[i].0)] == items[i]
    ensures forall f :: f in AsMap(d, items) ==> exists i :: 0 <= i < |items| && d.fold(items[i].0) == f
  {
    if items != [] {
      AsMapAt(d, items[..|items| - 1]);
    }
  }

  lemma {:induction false} LookupIndex<V>(d: Descriptor, items: Items<V>, key: string) returns (i: nat)
    requires Keyed(d, items)
    ensures Lookup(d, items, key).None? ==>
      (forall j :: 0 <= j < |items| ==> d.fold(items[j].0) != d.fold(key)) && Drop(d, items, key) == items
    ensures Lookup(d, items, key).Some? ==>
      && i < |items| && Lookup(d, items, key) == Some(items[i]) && d.fold(items[i].0) == d.fold(key)
      && Drop(d, items, key) == Without(items, i)
  {
    i := 0;
    if items != [] && d.fold(items[0].0) != d.fold(key) {
      i := LookupIndex(d, items[1..], key);
      if Lookup(d, items, key).Some? {
        assert [items[0]] + Without(items[1..], i) == Without(items, i + 1);
        i := i + 1;
      }
    }
  }

  /** Looking an item up in the list and in the map is the same thing. */
  lemma LookupIsMap<V>(d: Descriptor, items: Items<V>, key: string)
    requires Keyed(d, items)
    ensures Lookup(d, items, key) ==
      if d.fold(key) in AsMap(d, items) then Some(AsMap(d, items)[d.fold(key)]) else None
  {
    AsMapAt(d, items);
    var i := LookupIndex(d, items, key);
  }

  /** One operation on the list is the same operation on the map, and keeps the keys distinct. */
  lemma AfterIsMap<V>(d: Descriptor, items: Items<V>, op: Op<V>)
    requires Keyed(d, items)
    ensures Keyed(d, After(d, items, op))
    ensures AsMap(d, After(d, items, op)) == MapAfter(d, AsMap(d, items), op)
  {
    match op
    case OpInsert(k, v) => InsertIsMap(d, items, k, v);
    case OpErase(k) => EraseIsMap(d, items, k);
    case OpFind(_) =>
    case OpFlush =>
  }

  lemma InsertIsMap<V>(d: Descriptor, items: Items<V>, k: string, v: V)
    requires Keyed(d, items)
    ensures Keyed(d, After(d, items, OpInsert(k, v)))
    ensures AsMap(d, After(d, items, OpInsert(k, v))) == MapAfter(d, AsMap(d, items), OpInsert(k, v))
  {
    var i := LookupIndex(d, items, k);
    LookupIsMap(d, items, k);
    if Lookup(d, items, k).None? {
      assert (items + [(k, v)])[..|items|] == items;
    }
  }

  lemma EraseIsMap<V>(d: Descriptor, items: Items<V>, key: string)
    requires Keyed(d, items)
    ensures Keyed(d, Drop(d, items, key))
    ensures AsMap(d, Drop(d, items, key)) == AsMap(d, items) - {d.fold(key)}
  {
    var k := LookupIndex(d, items, key);
    if Lookup(d, items, key).Some? {
      WithoutIsMap(d, items, k);
    } else {
      NotInMap(d, items, d.fold(key));
    }
  }

  lemma NotInMap<V>(d: Descriptor, items: Items<V>, f: string)
    requires Keyed(d, items) && forall i :: 0 <= i < |items| ==> d.fold(items[i].0) != f
    ensures f !in AsMap(d, items)
  {
    AsMapAt(d, items);
  }

  lemma WithoutIsMap<V>(d: Descriptor, items: Items<V>, k: nat)
    requires Keyed(d, items) && k < |items|
    ensures Keyed(d, Without(items, k))
    ensures AsMap(d, Without(items, k)) == AsMap(d, items) - {d.fold(items[k].0)}
  {
    KeyedWithout(d, items, k);
    WithoutValues(d, items, k);
    WithoutKeys(d, items, k);
  }

  lemma WithoutValues<V>(d: Descriptor, items: Items<V>, k: nat)
    requires Keyed(d, items) && k < |items|
    ensures var m, rest := AsMap(d, items), AsMap(d, Without(items, k));
      forall f :: f in m && f != d.fold(items[k].0) ==> f in rest && rest[f] == m[f]
  {
    AsMapAt(d, items);
    forall f | f in AsMap(d, items) && f != d.fold(items[k].0)
      ensures f in AsMap(d, Without(items, k)) && AsMap(d, Without(items, k))[f] == AsMap(d, items)[f]
    {
      var i :| 0 <= i < |items| && d.fold(items[i].0) == f;
      WithoutValue(d, items, k, i);
    }
  }

  lemma WithoutValue<V>(d: Descriptor, items: Items<V>, k: nat, i: nat)
    requires Keyed(d, items) && k < |items| && i < |items| && i != k
    ensures var f, rest := d.fold(items[i].0), AsMap(d, Without(items, k)); f in rest && rest[f] == items[i]
  {
    KeyedWithout(d, items, k);
    AsMapAt(d, Without(items, k));
    assert items[i] == Without(items, k)[if i < k then i else i - 1];
  }

  lemma WithoutKeys<V>(d: Descriptor, items: Items<V>, k: nat)
    requires Keyed(d, items) && k < |items|
    ensures forall f :: f in AsMap(d, Without(items, k)) ==> f in AsMap(d, items) && f != d.fold(items[k].0)
  {
    var rest := Without(items, k);
    KeyedWithout(d, items, k);
    AsMapAt(d, items);
    AsMapAt(d, rest);
    forall f | f in AsMap(d, rest)
      ensures f in AsMap(d, items) && f != d.fold(items[k].0)
    {
      var i :| 0 <= i < |rest| && d.fold(rest[i].0) == f;
    }
  }

  lemma KeyedWithout<V>(d: Descriptor, items: Items<V>, k: nat)
    requires Keyed(d, items) && k < |items|
    ensures Keyed(d, Without(items, k))
    ensures forall i :: 0 <= i < |items| - 1 ==> Without(items, k)[i] == items[if i < k then i else i + 1]
  {
    var rest := Without(items, k);
    assert forall i :: 0 <= i < |rest| ==> rest[i] == items[if i < k then i else i + 1];
  }

  /** Over every run, the list stays keyed and stands for the map the run computes. */
  lemma {:induction false} RunIsMap<V>(d: Descriptor, items: Items<V>, ops: seq<Op<V>>)
    requires Keyed(d, items)
    ensures Keyed(d, Run(d, items, ops))
    ensures AsMap(d, Run(d, items, ops)) == MapRun(d, AsMap(d, items), ops)
  {
    if ops != [] {
      RunIsMap(d, items, ops[..|ops| - 1]);
      AfterIsMap(d, Run(d, items, ops[..|ops| - 1]), ops[|ops| - 1]);
    }
  }

  /** The times at which the items of the table were inserted. */
  ghost predicate InsertedAt<V>(d: Descriptor, ops: seq<Op<V>>, times: seq<nat>, items: Items<V>) {
    && |times| == |items|
    && (forall i, j :: 0 <= i < j < |times| ==> times[i] < times[j])
    && (forall i :: 0 <= i < |times| ==>
          times[i] < |ops| && ops[times[i]] == OpInsert(items[i].0, items[i].1))
  }

  /** Iteration gives insertion order: after a run from an empty table there are strictly increasing times at
      which exactly the surviving items were inserted. */
  lemma {:induction false} InsertionOrder<V>(d: Descriptor, ops: seq<Op<V>>) returns (times: seq<nat>)
    ensures InsertedAt(d, ops, times, Run(d, [], ops))
  {
    if ops == [] {
      return [];
    }
    var n := |ops| - 1;
    RunIsMap(d, [], ops[..n]);
    times := InsertionOrder(d, ops[..n]);
    InsertedAtLater(d, ops, n, times, Run(d, [], ops[..n]));
    times := InsertedAtAfter(d, ops, n, times, Run(d, [], ops[..n]));
  }

  lemma InsertedAtAfter<V>(d: Descriptor, ops: seq<Op<V>>, n: nat, times: seq<nat>, items: Items<V>) returns (t: seq<nat>)
    requires n < |ops| && Keyed(d, items) && InsertedAt(d, ops, times, items) && forall i :: 0 <= i < |times| ==> times[i] < n
    ensures InsertedAt(d, ops, t, After(d, items, ops[n]))
  {
    match ops[n] {
      case OpInsert(k, v) => t := InsertedAtInsert(d, ops, n, times, items, k, v);
      case OpFind(_) => t := times;
      case OpErase(k) => t := InsertedAtErase(d, ops, times, items, k);
      case OpFlush => t := [];
    }
  }

  lemma InsertedAtInsert<V>(d: Descriptor, ops: seq<Op<V>>, n: nat, times: seq<nat>, items: Items<V>, k: string, v: V)
    returns (t: seq<nat>)
    requires n < |ops| && ops[n] == OpInsert(k, v) && InsertedAt(d, ops, times, items)
    requires forall i :: 0 <= i < |times| ==> times[i] < n
    ensures InsertedAt(d, ops, t, After(d, items, OpInsert(k, v)))
  {
    t := if Lookup(d, items, k).None? then times + [n] else times;
  }

  lemma InsertedAtErase<V>(d: Descriptor, ops: seq<Op<V>>, times: seq<nat>, items: Items<V>, k: string) returns (t: seq<nat>)
    requires Keyed(d, items) && InsertedAt(d, ops, times, items)
    ensures InsertedAt(d, ops, t, Drop(d, items, k))
  {
    var i := LookupIndex(d, items, k);
    t := times;
    if Lookup(d, items, k).Some? {
      InsertedAtWithout(d, ops, times, items, i);
      t := Without(times, i);
    }
  }

  lemma InsertedAtLater<V>(d: Descriptor, ops: seq<Op<V>>, n: nat, times: seq<nat>, items: Items<V>)
    requires n <= |ops| && InsertedAt(d, ops[..n], times, items)
    ensures InsertedAt(d, ops, times, items)
    ensures forall i :: 0 <= i < |times| ==> times[i] < n
  {
  }

  lemma InsertedAtWithout<V>(d: Descriptor, ops: seq<Op<V>>, times: seq<nat>, items: Items<V>, k: nat)
    requires k < |items| && InsertedAt(d, ops, times, items)
    ensures InsertedAt(d, ops, Without(times, k), Without(items, k))
  {
    var ts, rest := Without(times, k), Without(items, k);
    assert forall i :: 0 <= i < |ts| ==> ts[i] == times[if i < k then i else i + 1];
    assert forall i :: 0 <= i < |rest| ==> rest[i] == items[if i < k then i else i + 1];
  }

  // ----- The pointer structure behaves like the list.

  /** From the default 16 buckets on, at most one entry more than three quarters of the buckets. */
  predicate LoadBounded(size: nat, bucketCount: nat) {
    bucketCount % 4 == 0 && bucketCount > 0 && size <= 3 * (bucketCount / 4) + 1
  }

  lemma FoundAgrees<V>(d: Descriptor, es: seq<Entry<V>>, key: string, e: Entry<V>)
    requires KeysDistinct(d, es) && e in es && d.fold(e.key) == d.fold(key)
    ensures Lookup(d, ItemsOf(es), key) == Some((e.key, e.value))
  {
    var i := LookupIndex(d, ItemsOf(es), key);
    var j :| 0 <= j < |es| && es[j] == e;
    assert ItemsOf(es)[j] == (e.key, e.value);
  }

  lemma AbsentAgrees<V>(d: Descriptor, es: seq<Entry<V>>, key: string)
    requires KeysDistinct(d, es) && Absent(d, es, key)
    ensures Lookup(d, ItemsOf(es), key) == None && Drop(d, ItemsOf(es), key) == ItemsOf(es)
  {
    var i := LookupIndex(d, ItemsOf(es), key);
    assert i < |es| ==> es[i] in es;
  }

  lemma EraseAgrees<V>(d: Descriptor, es: seq<Entry<V>>, key: string, k: nat)
    requires KeysDistinct(d, es) && k < |es| && d.fold(es[k].key) == d.fold(key)
    ensures Lookup(d, ItemsOf(es), key) == Some((es[k].key, es[k].value))
    ensures Drop(d, ItemsOf(es), key) == ItemsOf(Without(es, k))
  {
    FoundAgrees(d, es, key, es[k]);
    var items := ItemsOf(es);
    var i := LookupIndex(d, items, key);
    assert items[k].0 == es[k].key && items[i].0 == es[i].key;
    assert i == k;
    ItemsWithout(es, k);
  }

  lemma ItemsWithout<V>(es: seq<Entry<V>>, k: nat)
    requires k < |es|
    ensures ItemsOf(Without(es, k)) == Without(ItemsOf(es), k)
  {
  }

  /** The number of buckets after one operation, and after a run. */
  ghost function BucketsAfter<V>(d: Descriptor, items: Items<V>, count: nat, op: Op<V>): nat {
    if op.OpInsert? && Lookup(d, items, op.key).None? && MustGrow(|items|, count) then 2 * count else count
  }

  ghost function Buckets<V>(d: Descriptor, items: Items<V>, count: nat, ops: seq<Op<V>>): nat {
    if ops == [] then count
    else
      var front := ops[..|ops| - 1];
      BucketsAfter(d, Run(d, items, front), Buckets(d, items, count, front), ops[|ops| - 1])
  }

  /** The `i`th operation puts a new item into a table of this size. */
  ghost predicate AddsTo<V>(d: Descriptor, items: Items<V>, ops: seq<Op<V>>, i: nat, size: int)
    requires i < |ops|
  {
    var before := Run(d, items, ops[..i]);
    ops[i].OpInsert? && Lookup(d, before, ops[i].key).None? && |before| == size
  }

  /** The table is as large as it had to be, and no larger: the items were at most three quarters of the buckets of today
      whenever one was added, and if it has grown, more than three quarters of half of them once. */
  lemma {:induction false} BucketsExactly<V>(d: Descriptor, items: Items<V>, count: nat, ops: seq<Op<V>>)
    requires LoadBounded(|items|, count)
    ensures var n := Buckets(d, items, count, ops);
      && LoadBounded(|Run(d, items, ops)|, n)
      && (forall i, size :: 0 <= i < |ops| && AddsTo(d, items, ops, i, size) ==> 4 * size <= 3 * n)
      && (n == count || exists i, size :: 0 <= i < |ops| && AddsTo(d, items, ops, i, size) && 8 * size > 3 * n)
  {
    if ops != [] {
      var front, last := ops[..|ops| - 1], |ops| - 1;
      BucketsExactly(d, items, count, front);
      var before, n := Run(d, items, front), Buckets(d, items, count, front);
      forall i, size | 0 <= i < last
        ensures AddsTo(d, items, ops, i, size) <==> AddsTo(d, items, front, i, size)
      {
        assert ops[..i] == front[..i];
      }
      assert AddsTo(d, items, ops, last, |before|) || BucketsAfter(d, before, n, ops[last]) == n;
      OneBucketStep(d, before, n, ops[last]);
    }
  }

  lemma OneBucketStep<V>(d: Descriptor, items: Items<V>, n: nat, op: Op<V>)
    requires LoadBounded(|items|, n)
    ensures var m, add := BucketsAfter(d, items, n, op), op.OpInsert? && Lookup(d, items, op.key).None?;
      && LoadBounded(|After(d, items, op)|, m) && n <= m
      && (add ==> 4 * |items| <= 3 * m)
      && (m != n ==> m == 2 * n && 8 * |items| > 3 * m)
  {
    var q := n / 4;
    assert n == 4 * q && 2 * n == 4 * (2 * q);
    assert 4 * (2 * q) / 4 == 2 * q && 4 * (2 * q) % 4 == 0;
    if op.OpErase? {
      NoMore(d, items, op.key);
    }
  }

  lemma {:induction false} NoMore<V>(d: Descriptor, items: Items<V>, key: string)
    ensures |Drop(d, items, key)| <= |items|
  {
    if items != [] {
      NoMore(d, items[1..], key);
    }
  }

  /** One operation on the heap structure does to its items what the list operation does, and gives its answer. */
  method Perform<V>(hm: Hashmap<V>, op: Op<V>) returns (answer: Option<(string, V)>)
    requires hm.Valid()
    modifies hm, hm.links
    ensures hm.Valid() && fresh(hm.links - old(hm.links))
    ensures hm.Model() == After(hm.desc, old(hm.Model()), op)
    ensures answer == Answer(hm.desc, old(hm.Model()), op)
    ensures hm.bucketCount == BucketsAfter(hm.desc, old(hm.Model()), old(hm.bucketCount), op)
  {
    answer := None;
    match op {
      case OpInsert(k, v) => answer := PerformInsert(hm, k, v);
      case OpFind(k) => answer := PerformFind(hm, k);
      case OpErase(k) => answer := PerformErase(hm, k);
      case OpFlush => hm.Flush();
    }
  }

  method PerformInsert<V>(hm: Hashmap<V>, key: string, value: V) returns (answer: Option<(string, V)>)
    requires hm.Valid()
    modifies hm, hm.links
    ensures hm.Valid() && fresh(hm.links - old(hm.links))
    ensures hm.Model() == After(hm.desc, old(hm.Model()), OpInsert(key, value))
    ensures answer == Answer(hm.desc, old(hm.Model()), OpInsert(key, value))
    ensures hm.bucketCount == BucketsAfter(hm.desc, old(hm.Model()), old(hm.bucketCount), OpInsert(key, value))
  {
    ghost var es := hm.entries;
    var inserted, entry := hm.Insert(key, value);
    answer := Some((entry.key, entry.value));
    if inserted {
      AbsentAgrees(hm.desc, es, key);
      assert ItemsOf(es + [entry]) == ItemsOf(es) + [(key, value)];
    } else {
      FoundAgrees(hm.desc, es, key, entry);
    }
  }

  method PerformFind<V>(hm: Hashmap<V>, key: string) returns (answer: Option<(string, V)>)
    requires hm.Valid()
    ensures answer == Lookup(hm.desc, hm.Model(), key)
  {
    var entry := hm.Find(key);
    if entry.None? {
      AbsentAgrees(hm.desc, hm.entries, key);
      return None;
    }
    FoundAgrees(hm.desc, hm.entries, key, entry.value);
    return Some((entry.value.key, entry.value.value));
  }

  method PerformErase<V>(hm: Hashmap<V>, key: string) returns (answer: Option<(string, V)>)
    requires hm.Valid()
    modifies hm, hm.links
    ensures hm.Valid() && hm.links == old(hm.links) && hm.bucketCount == old(hm.bucketCount)
    ensures hm.size <= old(hm.size)
    ensures hm.Model() == Drop(hm.desc, old(hm.Model()), key)
    ensures answer == Lookup(hm.desc, old(hm.Model()), key)
  {
    ghost var es := hm.entries;
    answer := PerformFind(hm, key);
    var erased := hm.Erase(key);
    if erased {
      ghost var k :| 0 <= k < |es| && hm.desc.fold(es[k].key) == hm.desc.fold(key) && hm.entries == Without(es, k);
      EraseAgrees(hm.desc, es, key, k);
    } else {
      AbsentAgrees(hm.desc, es, key);
    }
  }

  /** Every run of operations on the heap structure gives the items and the answers of the list. */
  method PerformAll<V>(hm: Hashmap<V>, ops: seq<Op<V>>) returns (answers: seq<Option<(string, V)>>)
    requires hm.Valid() && LoadBounded(hm.size, hm.bucketCount)
    modifies hm, hm.links
    ensures hm.Valid() && LoadBounded(hm.size, hm.bucketCount)
    ensures hm.Model() == Run(hm.desc, old(hm.Model()), ops)
    ensures hm.bucketCount == Buckets(hm.desc, old(hm.Model()), old(hm.bucketCount), ops)
    ensures Answered(hm.desc, old(hm.Model()), ops, answers, |ops|)
  {
    answers := [];
    ghost var start, count := hm.Model(), hm.bucketCount;
    for i := 0 to |ops|
      invariant hm.Valid() && fresh(hm.links - old(hm.links))
      invariant hm.Model() == Run(hm.desc, start, ops[..i]) && hm.bucketCount == Buckets(hm.desc, start, count, ops[..i])
      invariant Answered(hm.desc, start, ops, answers, i)
    {
      RunNext(hm.desc, start, ops, i);
      var answer := Perform(hm, ops[i]);
      OneMoreAnswer(hm.desc, start, ops, answers, answer);
      answers := answers + [answer];
    }
    BucketsExactly(hm.desc, start, count, ops);
    assert ops[..|ops|] == ops;
  }

  /** The first `n` answers are those of the list. */
  ghost predicate Answered<V>(d: Descriptor, items: Items<V>, ops: seq<Op<V>>, answers: seq<Option<(string, V)>>, n: nat) {
    n <= |ops| && |answers| == n
    && forall i :: 0 <= i < n ==> answers[i] == Answer(d, Run(d, items, ops[..i]), ops[i])
  }

  lemma OneMoreAnswer<V>(d: Descriptor, items: Items<V>, ops: seq<Op<V>>, answers: seq<Option<(string, V)>>,
                         answer: Option<(string, V)>)
    requires Answered(d, items, ops, answers, |answers|) && |answers| < |ops|
    requires answer == Answer(d, Run(d, items, ops[..|answers|]), ops[|answers|])
    ensures Answered(d, items, ops, answers + [answer], |answers| + 1)
  {
  }

  lemma RunNext<V>(d: Descriptor, items: Items<V>, ops: seq<Op<V>>, i: nat)
    requires i < |ops|
    ensures Run(d, items, ops[..i + 1]) == After(d, Run(d, items, ops[..i]), ops[i])
    ensures forall count: nat ::
      Buckets(d, items, count, ops[..i + 1]) ==
      BucketsAfter(d, Run(d, items, ops[..i]), Buckets(d, items, count, ops[..i]), ops[i])
  {
    assert ops[..i + 1][..i] == ops[..i];
  }
}
