/** Tables of the database: a registry is saved as rows that come back in any order, and a table is loaded row by row up
    to the first row that is refused. */
module Tables {
  import opened Wrappers

  datatype Row<K, V> = Row(key: K, value: V)

  /** What becomes of a row that is read. */
  datatype Outcome<W> = PassedOver | Refused | Taken(value: W)

  /** One row. A key that is there already is refused. */
  function LoadRow<K, V, W>(load: (K, V) -> Outcome<W>, m: map<K, W>, r: Row<K, V>): Option<map<K, W>> {
    match load(r.key, r.value)
    case PassedOver => Some(m)
    case Refused => None
    case Taken(w) => if r.key in m then None else Some(m[r.key := w])
  }

  function LoadRows<K, V, W>(load: (K, V) -> Outcome<W>, m: map<K, W>, rows: seq<Row<K, V>>): Option<map<K, W>>
    decreases |rows|
  {
    if rows == [] then Some(m)
    else
      match LoadRows(load, m, rows[..|rows| - 1])
      case None => None
      case Some(t) => LoadRow(load, t, rows[|rows| - 1])
  }

  lemma {:induction false} Stuck<K, V, W>(load: (K, V) -> Outcome<W>, m: map<K, W>, rows: seq<Row<K, V>>, i: nat)
    requires i <= |rows| && LoadRows(load, m, rows[..i]).None?
    ensures LoadRows(load, m, rows).None?
    decreases |rows| - i
  {
    if i < |rows| {
      assert rows[..i + 1][..i] == rows[..i];
      Stuck(load, m, rows, i + 1);
    } else {
      assert rows[..i] == rows;
    }
  }

  /** The rows are those of the map, in any order. */
  ghost predicate Saved<K(!new), V>(m: map<K, V>, rows: seq<Row<K, V>>) {
    && Distinct(rows)
    && (forall i :: 0 <= i < |rows| ==> rows[i].key in m && rows[i].value == m[rows[i].key])
    && (forall k :: k in m ==> Row(k, m[k]) in rows)
  }

  ghost predicate Distinct<K, V>(rows: seq<Row<K, V>>) {
    forall i, j :: 0 <= i < j < |rows| ==> rows[i].key != rows[j].key
  }

  /** A row that is not refused: its load is taken and its key is new. */
  predicate Fits<K, V, W>(load: (K, V) -> Outcome<W>, start: map<K, W>, k: K, v: V) {
    load(k, v).Taken? && k !in start
  }

  ghost predicate NonePassed<K, V, W>(load: (K, V) -> Outcome<W>, rows: seq<Row<K, V>>) {
    forall i :: 0 <= i < |rows| ==> !load(rows[i].key, rows[i].value).PassedOver?
  }

  /** What is in the registry after rows that all fit. */
  ghost predicate Holds<K(!new), V, W>(load: (K, V) -> Outcome<W>, start: map<K, W>, rows: seq<Row<K, V>>, t: map<K, W>)
    requires forall i :: 0 <= i < |rows| ==> Fits(load, start, rows[i].key, rows[i].value)
  {
    && (forall k :: k in t <==> k in start || exists i :: 0 <= i < |rows| && rows[i].key == k)
    && (forall k :: k in start ==> k in t && t[k] == start[k])
    && (forall i :: 0 <= i < |rows| ==> rows[i].key in t && load(rows[i].key, rows[i].value) == Taken(t[rows[i].key]))
  }

  /** Rows with distinct keys are loaded exactly when each of them fits. */
  lemma {:induction false} LoadsRows<K(!new), V, W>(load: (K, V) -> Outcome<W>, start: map<K, W>, rows: seq<Row<K, V>>)
    requires Distinct(rows) && NonePassed(load, rows)
    ensures LoadRows(load, start, rows).Some? <==>
      forall i :: 0 <= i < |rows| ==> Fits(load, start, rows[i].key, rows[i].value)
    ensures LoadRows(load, start, rows).Some? ==> Holds(load, start, rows, LoadRows(load, start, rows).value)
    decreases |rows|
  {
    if rows != [] {
      var front, last := rows[..|rows| - 1], rows[|rows| - 1];
      LoadsRows(load, start, front);
      if LoadRows(load, start, front).Some? {
        var t := LoadRows(load, start, front).value;
        assert last.key in t <==> last.key in start;
        if Fits(load, start, last.key, last.value) {
          HoldsMore(load, start, front, last, t);
          assert front + [last] == rows;
        }
      }
    }
  }

  lemma HoldsMore<K(!new), V, W>(load: (K, V) -> Outcome<W>, start: map<K, W>, rows: seq<Row<K, V>>, r: Row<K, V>, t: map<K, W>)
    requires forall i :: 0 <= i < |rows| ==> Fits(load, start, rows[i].key, rows[i].value)
    requires Fits(load, start, r.key, r.value) && Holds(load, start, rows, t)
    requires forall i :: 0 <= i < |rows| ==> rows[i].key != r.key
    ensures forall i :: 0 <= i < |rows + [r]| ==> Fits(load, start, (rows + [r])[i].key, (rows + [r])[i].value)
    ensures Holds(load, start, rows + [r], t[r.key := load(r.key, r.value).value])
  {
    var more, u := rows + [r], t[r.key := load(r.key, r.value).value];
    forall k | k in u
      ensures k in start || exists i :: 0 <= i < |more| && more[i].key == k
    {
      if k == r.key {
        assert more[|rows|].key == k;
      } else if k !in start {
        var i :| 0 <= i < |rows| && rows[i].key == k;
        assert more[i].key == k;
      }
    }
  }

  /** The registry that comes back, beside what was there before. */
  function Restored<K(!new), V, W>(load: (K, V) -> Outcome<W>, m: map<K, V>): map<K, W> {
    map k | k in m && load(k, m[k]).Taken? :: load(k, m[k]).value
  }

  /** A saved registry is loaded, whatever the order of its rows, exactly when each of its items fits; and then it
      is there again beside what was there before. */
  lemma LoadsExactly<K(!new), V, W>(load: (K, V) -> Outcome<W>, start: map<K, W>, m: map<K, V>, rows: seq<Row<K, V>>)
    requires Saved(m, rows) && forall k :: k in m ==> !load(k, m[k]).PassedOver?
    ensures LoadRows(load, start, rows).Some? <==> forall k :: k in m ==> Fits(load, start, k, m[k])
    ensures LoadRows(load, start, rows).Some? ==> LoadRows(load, start, rows).value == start + Restored(load, m)
  {
    LoadsRows(load, start, rows);
    forall k | k in m
      ensures exists i :: 0 <= i < |rows| && rows[i] == Row(k, m[k])
    {
      assert Row(k, m[k]) in rows;
    }
    if LoadRows(load, start, rows).Some? {
      HoldsAll(load, start, m, rows, LoadRows(load, start, rows).value);
    }
  }

  lemma HoldsAll<K(!new), V, W>(load: (K, V) -> Outcome<W>, start: map<K, W>, m: map<K, V>, rows: seq<Row<K, V>>, t: map<K, W>)
    requires forall i :: 0 <= i < |rows| ==> rows[i].key in m && rows[i].value == m[rows[i].key]
    requires forall k :: k in m ==> exists i :: 0 <= i < |rows| && rows[i] == Row(k, m[k])
    requires forall i :: 0 <= i < |rows| ==> Fits(load, start, rows[i].key, rows[i].value)
    requires Holds(load, start, rows, t)
    ensures (forall k :: k in m ==> Fits(load, start, k, m[k])) && t == start + Restored(load, m)
  {
    forall k | k in m
      ensures Fits(load, start, k, m[k]) && k in t && load(k, m[k]) == Taken(t[k])
    {
      var i :| 0 <= i < |rows| && rows[i] == Row(k, m[k]);
    }
    assert t.Keys == start.Keys + m.Keys;
  }

  /** The same where `e` is known to be what comes back. */
  lemma LoadsAs<K(!new), V, W>(load: (K, V) -> Outcome<W>, start: map<K, W>, m: map<K, V>, rows: seq<Row<K, V>>, e: map<K, W>)
    requires Saved(m, rows) && e.Keys == m.Keys
    requires forall k :: k in m ==> load(k, m[k]) == Refused || load(k, m[k]) == Taken(e[k])
    ensures LoadRows(load, start, rows).Some? <==> forall k :: k in m ==> Fits(load, start, k, m[k])
    ensures LoadRows(load, start, rows).Some? ==> LoadRows(load, start, rows).value == start + e
  {
    LoadsExactly(load, start, m, rows);
    if LoadRows(load, start, rows).Some? {
      assert forall k :: k in m ==> Fits(load, start, k, m[k]);
      assert Restored(load, m) == e;
    }
  }

  /** And into an empty registry. */
  lemma LoadsNew<K(!new), V, W>(load: (K, V) -> Outcome<W>, m: map<K, V>, rows: seq<Row<K, V>>, e: map<K, W>)
    requires Saved(m, rows) && e.Keys == m.Keys
    requires forall k :: k in m ==> load(k, m[k]) == Refused || load(k, m[k]) == Taken(e[k])
    ensures LoadRows(load, map[], rows).Some? <==> forall k :: k in m ==> load(k, m[k]) == Taken(e[k])
    ensures LoadRows(load, map[], rows).Some? ==> LoadRows(load, map[], rows).value == e
  {
    var none: map<K, W> := map[];
    LoadsAs(load, none, m, rows, e);
    assert none + e == e;
    assert forall k :: k in m ==> (Fits(load, none, k, m[k]) <==> load(k, m[k]) == Taken(e[k]));
  }

  // ----- The loops.

  /** The loop over the rows of a table. */
  method LoadTable<K(==), V, W>(load: (K, V) -> Outcome<W>, start: map<K, W>, rows: seq<Row<K, V>>)
    returns (ok: bool, m: map<K, W>)
    ensures ok == LoadRows(load, start, rows).Some? && (ok ==> m == LoadRows(load, start, rows).value)
  {
    m := start;
    for i := 0 to |rows|
      invariant LoadRows(load, start, rows[..i]) == Some(m)
    {
      assert rows[..i + 1][..i] == rows[..i];
      var loaded := LoadRow(load, m, rows[i]);
      if loaded.None? {
        Stuck(load, start, rows, i + 1);
        return false, m;
      }
      m := loaded.value;
    }
    assert rows[..|rows|] == rows;
    return true, m;
  }

  /** The loop over a registry. */
  method SaveTable<K(!new, ==), V>(m: map<K, V>) returns (rows: seq<Row<K, V>>)
    ensures Saved(m, rows)
  {
    rows := [];
    var left := m.Keys;
    while left != {}
      invariant left <= m.Keys && Distinct(rows)
      invariant forall i :: 0 <= i < |rows| ==>
        rows[i].key in m && rows[i].key !in left && rows[i].value == m[rows[i].key]
      invariant forall k :: k in m && k !in left ==> Row(k, m[k]) in rows
      decreases |left|
    {
      var k :| k in left;
      left := left - {k};
      rows := rows + [Row(k, m[k])];
    }
  }

  // ----- Rows that are passed over.

  /** A row that is passed over makes no difference, wherever it stands; one that is refused ends the loading. */
  lemma {:induction false} OneRow<K, V, W>(load: (K, V) -> Outcome<W>, m: map<K, W>, front: seq<Row<K, V>>, r: Row<K, V>,
                                           back: seq<Row<K, V>>)
    ensures load(r.key, r.value).PassedOver? ==> LoadRows(load, m, front + [r] + back) == LoadRows(load, m, front + back)
    ensures load(r.key, r.value).Refused? ==> LoadRows(load, m, front + [r] + back).None?
  {
    var most := front + [r] + back;
    if back == [] {
      assert most[..|most| - 1] == front && front + back == front;
    } else {
      var less := back[..|back| - 1];
      OneRow(load, m, front, r, less);
      assert most[..|most| - 1] == front + [r] + less;
      assert (front + back)[..|front + back| - 1] == front + less;
    }
  }
}
