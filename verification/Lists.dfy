/** Lists as the intrusive rings of the program present them: sequences without repetition, appended at the tail
    and filtered by removals. */
module Lists {
  import opened Wrappers

  ghost predicate NoDup<T(!new)>(xs: seq<T>) {
    forall i, j :: 0 <= i < j < |xs| ==> xs[i] != xs[j]
  }

  function Elements<T>(xs: seq<T>): set<T> {
    set x | x in xs
  }

  /** `xs` without the elements of `d`, in the same order. */
  function Minus<T(==)>(xs: seq<T>, d: set<T>): seq<T> {
    if xs == [] then []
    else if xs[0] in d then Minus(xs[1..], d)
    else [xs[0]] + Minus(xs[1..], d)
  }

  lemma {:induction false} MinusMember<T(!new)>(xs: seq<T>, d: set<T>)
    ensures forall x :: x in Minus(xs, d) <==> x in xs && x !in d
  {
    if xs != [] {
      MinusMember(xs[1..], d);
      assert xs == [xs[0]] + xs[1..];
    }
  }

  lemma {:induction false} MinusNoDup<T(!new)>(xs: seq<T>, d: set<T>)
    requires NoDup(xs)
    ensures NoDup(Minus(xs, d))
  {
    if xs != [] {
      MinusNoDup(xs[1..], d);
      MinusMember(xs[1..], d);
      assert xs[0] !in xs[1..];
    }
  }

  /** Removing twice is removing the union. */
  lemma {:induction false} MinusMinus<T(!new)>(xs: seq<T>, a: set<T>, b: set<T>)
    ensures Minus(Minus(xs, a), b) == Minus(xs, a + b)
  {
    if xs != [] {
      MinusMinus(xs[1..], a, b);
      if xs[0] !in a {
        assert Minus(xs, a)[1..] == Minus(xs[1..], a);
      }
    }
  }

  lemma {:induction false} MinusNone<T(!new)>(xs: seq<T>, d: set<T>)
    requires forall x :: x in xs ==> x !in d
    ensures Minus(xs, d) == xs
  {
    if xs != [] {
      assert forall x :: x in xs[1..] ==> x in xs;
      assert xs[0] in xs;
      MinusNone(xs[1..], d);
    }
  }

  /** Two removals that agree on the elements of the list give the same list. */
  lemma {:induction false} MinusAgree<T(!new)>(xs: seq<T>, a: set<T>, b: set<T>)
    requires forall x :: x in xs ==> (x in a <==> x in b)
    ensures Minus(xs, a) == Minus(xs, b)
  {
    if xs != [] {
      assert forall x :: x in xs[1..] ==> x in xs;
      assert xs[0] in xs;
      MinusAgree(xs[1..], a, b);
    }
  }

  /** Removing the first element of a list without repetition leaves its tail. */
  lemma MinusFirst<T(!new)>(xs: seq<T>)
    requires NoDup(xs) && xs != []
    ensures Minus(xs, {xs[0]}) == xs[1..]
  {
    assert forall x :: x in xs[1..] ==> x != xs[0];
    MinusNone(xs[1..], {xs[0]});
  }

  /** Position of an element. */
  function Index<T(==)>(xs: seq<T>, x: T): (i: nat)
    requires x in xs
    ensures i < |xs| && xs[i] == x
  {
    if xs[0] == x then 0 else 1 + Index(xs[1..], x)
  }

  /** Removals keep the relative order of what remains. */
  lemma {:induction false} MinusOrder<T(!new)>(xs: seq<T>, d: set<T>, x: T, y: T)
    requires NoDup(xs) && x in Minus(xs, d) && y in Minus(xs, d) && x in xs && y in xs
    requires Index(xs, x) < Index(xs, y)
    ensures Index(Minus(xs, d), x) < Index(Minus(xs, d), y)
  {
    MinusMember(xs[1..], d);
    if xs[0] in d {
      assert x != xs[0] && y != xs[0];
      MinusOrder(xs[1..], d, x, y);
    } else if x == xs[0] {
      assert Minus(xs, d)[0] == x;
    } else {
      assert Minus(xs, d)[1..] == Minus(xs[1..], d) && Minus(xs, d)[0] == xs[0];
      MinusOrder(xs[1..], d, x, y);
    }
  }

  // ----- Safe iteration.

  /** LLIST_FIRST_ENTRY and LLIST_NEXT_ENTRY: None stands for the list head. Stepping from an element reads it,
      so the element must still be on the list. */
  function First<T>(xs: seq<T>): Option<T> {
    if xs == [] then None else Some(xs[0])
  }

  function Next<T(==)>(xs: seq<T>, cursor: Option<T>): Option<T>
    requires cursor.Some? ==> cursor.value in xs
  {
    match cursor
    case None => First(xs)
    case Some(x) => if Index(xs, x) + 1 < |xs| then Some(xs[Index(xs, x) + 1]) else None
  }

  function Second<T>(xs: seq<T>): Option<T> {
    if |xs| < 2 then None else Some(xs[1])
  }

  lemma NextIsSecond<T>(xs: seq<T>)
    requires xs != []
    ensures First(xs[1..]) == Second(xs) && (Second(xs).Some? ==> Second(xs).value in xs[1..])
    ensures Next(xs[1..], Second(xs)) == Second(xs[1..])
  {
  }

  lemma HeadAndTail<T(!new)>(xs: seq<T>, all: set<T>)
    requires NoDup(xs) && xs != [] && xs[0] in all
    ensures all - Elements(xs[1..]) == (all - Elements(xs)) + {xs[0]}
  {
    assert xs == [xs[0]] + xs[1..];
    assert forall x :: x in xs[1..] ==> x != xs[0];
  }
}
