/** Flag commands: what one of them may change, and what no run of them can bring about. */
module FlagRuns {
  import opened Uflags
  import opened Access
  import opened Ownership

  // ----- Bits.

  lemma ClearHas(m: bv32, flags: bv32, b: bv32)
    ensures Has(m & !flags, b) ==> Has(m, b)
    ensures !Has(flags, b) ==> (m & !flags) & b == m & b
  {
    ClearSwap(m, flags, b);
    NotIn(flags, b);
    if m & b == 0 {
      NothingIn(!flags);
    }
  }

  lemma ClearSwap(m: bv32, flags: bv32, b: bv32)
    ensures (m & !flags) & b == (m & b) & !flags && (m & !flags) & b == m & (b & !flags)
  {
  }

  lemma NothingIn(flags: bv32)
    ensures 0 & flags == 0
  {
  }

  lemma NotIn(flags: bv32, b: bv32)
    ensures flags & b == 0 ==> b & !flags == b
    ensures b == OWNER && flags & b != 0 ==> b & !flags == 0
  {
  }

  lemma ClearsOwner(m: bv32, flags: bv32)
    requires Has(flags, OWNER)
    ensures !Has(m & !flags, OWNER)
  {
    assert (m & !flags) & OWNER == m & (OWNER & !flags);
    NotIn(flags, OWNER);
  }

  // ----- Ownership.

  /** A flag command keeps the ownership invariant, except one that gives F to somebody else or takes it from the
      owner. */
  lemma FlagsChangedKeeps(lv: Levels, w: Staff, a: Acl, c: Name, caller: Name, target: Name, plus: bool, flags: bv32)
    requires Owned(a) && Acyclic(a.links)
    ensures Owned(FlagsChanged(lv, w, a, c, caller, target, plus, flags)) <==>
      !(MayChange(lv, w, a, c, caller, target, plus, flags) && Has(flags, OWNER) && (plus <==> target != a.chans[c].owner))
  {
    if MayChange(lv, w, a, c, caller, target, plus, flags) {
      if target == a.chans[c].owner {
        assert HasOwner(a, c);
        OwnersEntry(lv, a, c, plus, flags);
      } else {
        OthersEntry(lv, a, c, target, plus, flags);
      }
    }
  }

  lemma OthersEntry(lv: Levels, a: Acl, c: Name, target: Name, plus: bool, flags: bv32)
    requires Owned(a) && c in a.chans && target in a.users && target != a.chans[c].owner && flags != 0
    ensures Owned(Edited(lv, a, c, target, plus, flags)) <==> !plus || !Has(flags, OWNER)
  {
    var t, k := Edited(lv, a, c, target, plus, flags), (c, target);
    var was := if k in a.rel then a.rel[k].uflags else 0;
    BitOfJoin(was, flags, OWNER);
    ClearHas(was, flags, OWNER);
    assert k in a.rel ==> OnlyOwner(a, k);
    if plus && Has(flags, OWNER) {
      assert k in t.rel && Has(t.rel[k].uflags, OWNER) && !OnlyOwner(t, k);
    } else {
      OtherEntryKeeps(a, t, k);
    }
  }

  lemma OwnersMask(was: bv32, plus: bool, flags: bv32)
    requires Has(was, OWNER) && !Has(was, COOWNER) && (plus ==> !Has(flags, COOWNER))
    ensures Has(NewMask(was, plus, flags), OWNER) <==> plus || !Has(flags, OWNER)
    ensures !Has(NewMask(was, plus, flags), COOWNER)
  {
    if plus {
      BitOfJoin(was, flags, OWNER);
      BitOfJoin(was, flags, COOWNER);
    } else {
      ClearHas(was, flags, OWNER);
      ClearHas(was, flags, COOWNER);
      if Has(flags, OWNER) {
        ClearsOwner(was, flags);
      }
    }
  }

  lemma OwnersEntry(lv: Levels, a: Acl, c: Name, plus: bool, flags: bv32)
    requires Owned(a) && c in a.chans && (plus ==> !Has(flags, COOWNER))
    ensures Owned(Edited(lv, a, c, a.chans[c].owner, plus, flags)) <==> plus || !Has(flags, OWNER)
  {
    var k := (c, a.chans[c].owner);
    var t := Edited(lv, a, c, k.1, plus, flags);
    assert HasOwner(a, c);
    var m := NewMask(a.rel[k].uflags, plus, flags);
    OwnersMask(a.rel[k].uflags, plus, flags);
    if Has(m, OWNER) {
      NothingIn(OWNER);
      OwnerEntryKeeps(a, c, m);
    } else {
      assert !HasOwner(t, c);
    }
  }

  lemma OwnerEntryKeeps(a: Acl, c: Name, m: bv32)
    requires Owned(a) && c in a.chans && Has(m, OWNER) && !Has(m, COOWNER)
    requires (c, a.chans[c].owner) in a.rel
    ensures var k := (c, a.chans[c].owner); Owned(a.(rel := a.rel[k := a.rel[k].(uflags := m)]))
  {
    var k := (c, a.chans[c].owner);
    var t := a.(rel := a.rel[k := a.rel[k].(uflags := m)]);
    forall d | d in t.chans
      ensures HasOwner(t, d)
    {
      assert HasOwner(a, d);
    }
    forall j | j in t.rel
      ensures j.0 in t.chans && j.1 in t.users && OnlyOwner(t, j)
    {
      assert OnlyOwner(a, j);
    }
  }

  // ----- Where flags come from.

  /** The flags of a user on a channel; none without an entry. */
  function Mask(a: Acl, c: Name, v: Name): bv32 {
    if (c, v) in a.rel then a.rel[(c, v)].uflags else 0
  }

  /** A bit is changed between two states. */
  predicate Changes(a: Acl, t: Acl, c: Name, v: Name, b: bv32) {
    Mask(a, c, v) & b != Mask(t, c, v) & b
  }

  predicate NoEmptyEntries(a: Acl) {
    forall k :: k in a.rel ==> a.rel[k].uflags != 0
  }

  ghost predicate OneCoowner(a: Acl, c: Name) {
    forall u, v :: IsCoowner(a, c, u) && IsCoowner(a, c, v) ==> u == v
  }

  /** A change of flags from `m` to `n` that a caller with the flags `z` may make; `self` says whether the flags are
      its own. */
  predicate Permitted(z: bv32, m: bv32, n: bv32, self: bool) {
    && m & OWNER == n & OWNER
    && (m & (COOWNER | AUTOOWNER) != n & (COOWNER | AUTOOWNER) ==> Has(z, OWNER) || (Has(z, COOWNER) && self))
    && (Has(n, COOWNER) && !Has(m, COOWNER) ==> Has(z, OWNER))
    && (m & PROTECT != n & PROTECT ==> Has(z, OWNER | COOWNER))
    && (m & AUTOPROTECT != n & AUTOPROTECT ==> Has(z, OWNER | COOWNER) || (Has(z, PROTECT) && self))
    && (m & (ACL | SET) != n & (ACL | SET) ==> Has(z, OWNER | COOWNER | PROTECT))
    && (Has(m, OWNER | COOWNER | PROTECT) && !self && m != n ==> Has(z, OWNER | COOWNER))
  }

  /** Where a change of flags may come from. */
  predicate Sourced(a: Acl, t: Acl, c: Name, caller: Name, target: Name) {
    Permitted(Mask(a, c, caller), Mask(a, c, target), Mask(t, c, target), caller == target)
  }

  predicate Ordinary(w: Staff, caller: Name) {
    caller !in w.superadmins && caller !in w.supermodes
  }

  /** What chan_flags has established about a caller with flags `z` that changes flags `m`. */
  predicate MayMake(z: bv32, m: bv32, self: bool, plus: bool, flags: bv32) {
    && !Has(flags, OWNER)
    && (Has(flags, COOWNER | AUTOOWNER) ==> Has(z, OWNER) || (Has(z, COOWNER) && self))
    && (plus && Has(flags, COOWNER) ==> Has(z, OWNER))
    && (Has(flags, PROTECT) ==> Has(z, OWNER | COOWNER))
    && (Has(flags, AUTOPROTECT) ==> Has(z, OWNER | COOWNER) || (Has(z, PROTECT) && self))
    && (Has(flags, ACL | SET) ==> Has(z, OWNER | COOWNER | PROTECT))
    && (Has(m, OWNER | COOWNER | PROTECT) && !self ==> Has(z, OWNER | COOWNER))
  }

  lemma GuardsPassed(lv: Levels, w: Staff, a: Acl, c: Name, caller: Name, target: Name, plus: bool, flags: bv32)
    requires Acyclic(a.links) && Ordinary(w, caller) && MayChange(lv, w, a, c, caller, target, plus, flags)
    ensures MayMake(Mask(a, c, caller), Mask(a, c, target), caller == target, plus, flags)
  {
    var m := a.rel[(c, caller)].uflags;
    HasEither(m, OWNER, COOWNER);
    HasEither(m, OWNER | COOWNER, PROTECT);
    HasEither(flags, COOWNER, AUTOOWNER);
    HasEither(flags, ACL, SET);
    if plus && Has(flags, COOWNER) && !Has(m, OWNER) {
      assert IsCoowner(a, c, caller);
    }
  }

  /** The bits that a command does not name stay. */
  lemma Untouched(m: bv32, plus: bool, flags: bv32, b: bv32)
    ensures NewMask(m, plus, flags) & b != m & b ==> Has(flags, b)
  {
    if flags & b == 0 {
      if plus {
        JoinOutside(m, flags, b);
      } else {
        ClearOutside(m, flags, b);
      }
    }
  }

  lemma JoinOutside(m: bv32, flags: bv32, b: bv32)
    requires flags & b == 0
    ensures NewMask(m, true, flags) & b == m & b
  {
    Distribute(b, m, flags);
  }

  lemma ClearOutside(m: bv32, flags: bv32, b: bv32)
    requires flags & b == 0
    ensures NewMask(m, false, flags) & b == m & b
  {
    ClearHas(m, flags, b);
  }

  lemma EditedMask(lv: Levels, a: Acl, c: Name, target: Name, plus: bool, flags: bv32)
    requires flags != 0
    ensures Mask(Edited(lv, a, c, target, plus, flags), c, target) == NewMask(Mask(a, c, target), plus, flags)
  {
    FromNothing(flags);
  }

  lemma FromNothing(flags: bv32)
    ensures NewMask(0, true, flags) == flags && NewMask(0, false, flags) == 0
  {
  }

  lemma OtherMasks(lv: Levels, a: Acl, c: Name, target: Name, plus: bool, flags: bv32, d: Name, v: Name)
    requires (d, v) != (c, target)
    ensures Mask(Edited(lv, a, c, target, plus, flags), d, v) == Mask(a, d, v)
  {
  }

  lemma EditPermitted(z: bv32, m: bv32, self: bool, plus: bool, flags: bv32)
    requires MayMake(z, m, self, plus, flags)
    ensures Permitted(z, m, NewMask(m, plus, flags), self)
  {
    Untouched(m, plus, flags, OWNER);
    Untouched(m, plus, flags, COOWNER | AUTOOWNER);
    Untouched(m, plus, flags, PROTECT);
    Untouched(m, plus, flags, AUTOPROTECT);
    Untouched(m, plus, flags, ACL | SET);
    CoownerGained(m, plus, flags);
  }

  lemma CoownerGained(m: bv32, plus: bool, flags: bv32)
    ensures Has(NewMask(m, plus, flags), COOWNER) && !Has(m, COOWNER) ==> plus && Has(flags, COOWNER)
  {
    BitOfJoin(m, flags, COOWNER);
    ClearHas(m, flags, COOWNER);
  }

  /** One flag command changes one entry, and only as far as its caller's own flags go. */
  lemma FlagsSourced(lv: Levels, w: Staff, a: Acl, c: Name, caller: Name, target: Name, plus: bool, flags: bv32)
    requires Acyclic(a.links) && Ordinary(w, caller)
    ensures var t := FlagsChanged(lv, w, a, c, caller, target, plus, flags);
      && Sourced(a, t, c, caller, target)
      && (forall d, v :: (d, v) != (c, target) ==> Mask(t, d, v) == Mask(a, d, v))
  {
    if MayChange(lv, w, a, c, caller, target, plus, flags) {
      GuardsPassed(lv, w, a, c, caller, target, plus, flags);
      EditedMask(lv, a, c, target, plus, flags);
      EditPermitted(Mask(a, c, caller), Mask(a, c, target), caller == target, plus, flags);
      forall d, v | (d, v) != (c, target)
        ensures Mask(Edited(lv, a, c, target, plus, flags), d, v) == Mask(a, d, v)
      {
        OtherMasks(lv, a, c, target, plus, flags, d, v);
      }
    } else {
      NoChangePermitted(Mask(a, c, caller), Mask(a, c, target), caller == target);
    }
  }

  lemma NoChangePermitted(z: bv32, m: bv32, self: bool)
    ensures Permitted(z, m, m, self)
  {
  }

  /** A flag command leaves no entry without flags and makes no second co-owner. */
  lemma FlagsKept(lv: Levels, w: Staff, a: Acl, c: Name, caller: Name, target: Name, plus: bool, flags: bv32)
    requires Acyclic(a.links) && NoEmptyEntries(a) && OneCoowner(a, c) && forall k :: k in a.rel ==> k.1 in a.users
    ensures var t := FlagsChanged(lv, w, a, c, caller, target, plus, flags);
      && NoEmptyEntries(t) && OneCoowner(t, c) && (forall k :: k in t.rel ==> k.1 in t.users)
  {
    if MayChange(lv, w, a, c, caller, target, plus, flags) {
      EditedNotEmpty(lv, a, c, target, plus, flags);
      CoownersKept(lv, a, c, target, plus, flags);
    }
  }

  lemma EditedNotEmpty(lv: Levels, a: Acl, c: Name, target: Name, plus: bool, flags: bv32)
    requires NoEmptyEntries(a) && flags != 0
    ensures NoEmptyEntries(Edited(lv, a, c, target, plus, flags))
  {
    OrIsZero(Mask(a, c, target), flags);
  }

  lemma CoownersKept(lv: Levels, a: Acl, c: Name, target: Name, plus: bool, flags: bv32)
    requires OneCoowner(a, c) && flags != 0 && forall k :: k in a.rel ==> k.1 in a.users
    requires plus && Has(flags, COOWNER) ==> !(exists v :: v in a.users && IsCoowner(a, c, v))
    ensures OneCoowner(Edited(lv, a, c, target, plus, flags), c)
  {
    var t := Edited(lv, a, c, target, plus, flags);
    forall v | IsCoowner(t, c, v)
      ensures IsCoowner(a, c, v) || (v == target && plus && Has(flags, COOWNER))
    {
      if v == target {
        EditedMask(lv, a, c, target, plus, flags);
        CoownerGained(Mask(a, c, target), plus, flags);
      }
    }
  }

  // ----- Runs.

  /** A flag command, with the levels and the administrators of the moment. */
  datatype Command = Command(lv: Levels, w: Staff, caller: Name, target: Name, plus: bool, flags: bv32)

  ghost predicate AllOrdinary(run: seq<Command>) {
    forall i :: 0 <= i < |run| ==> Ordinary(run[i].w, run[i].caller)
  }

  /** The state after a run of flag commands on one channel. */
  function After(a: Acl, c: Name, run: seq<Command>): (t: Acl)
    requires Acyclic(a.links)
    ensures t.links == a.links && t.users == a.users && t.chans == a.chans
    decreases |run|
  {
    if run == [] then a
    else
      var r := run[|run| - 1];
      FlagsChanged(r.lv, r.w, After(a, c, run[..|run| - 1]), c, r.caller, r.target, r.plus, r.flags)
  }

  /** No run of flag commands by ordinary callers changes who holds F, makes a second co-owner or leaves an entry
      without flags. */
  lemma {:induction false} RunKeeps(a: Acl, c: Name, run: seq<Command>)
    requires Acyclic(a.links) && AllOrdinary(run)
    requires NoEmptyEntries(a) && OneCoowner(a, c) && forall k :: k in a.rel ==> k.1 in a.users
    ensures var t := After(a, c, run);
      && NoEmptyEntries(t) && OneCoowner(t, c) && (forall k :: k in t.rel ==> k.1 in t.users)
      && (forall v :: Has(Mask(t, c, v), OWNER) <==> Has(Mask(a, c, v), OWNER))
    decreases |run|
  {
    if run != [] {
      var front, r := run[..|run| - 1], run[|run| - 1];
      RunKeeps(a, c, front);
      var mid := After(a, c, front);
      FlagsKept(r.lv, r.w, mid, c, r.caller, r.target, r.plus, r.flags);
      FlagsSourced(r.lv, r.w, mid, c, r.caller, r.target, r.plus, r.flags);
    }
  }

  /** Every change a run makes to a bit of a user's flags is made by one of its commands, by a caller whose flags at
      that moment allow it. */
  lemma {:induction false} ChangeHasOrigin(a: Acl, c: Name, run: seq<Command>, v: Name, b: bv32)
    requires Acyclic(a.links) && AllOrdinary(run)
    requires Changes(a, After(a, c, run), c, v, b)
    ensures exists i :: 0 <= i < |run| && Origin(a, c, run, v, b, i)
    decreases |run|
  {
    var front := run[..|run| - 1];
    var mid := After(a, c, front);
    if Changes(mid, After(a, c, run), c, v, b) {
      LastOrigin(a, c, run, v, b);
    } else {
      ChangeHasOrigin(a, c, front, v, b);
      var i :| 0 <= i < |front| && Origin(a, c, front, v, b, i);
      OriginExtends(a, c, run, v, b, i);
    }
  }

  lemma LastOrigin(a: Acl, c: Name, run: seq<Command>, v: Name, b: bv32)
    requires Acyclic(a.links) && AllOrdinary(run) && run != []
    requires Changes(After(a, c, run[..|run| - 1]), After(a, c, run), c, v, b)
    ensures Origin(a, c, run, v, b, |run| - 1)
  {
    var r := run[|run| - 1];
    FlagsSourced(r.lv, r.w, After(a, c, run[..|run| - 1]), c, r.caller, r.target, r.plus, r.flags);
    assert run[..|run| - 1 + 1] == run;
  }

  lemma OriginExtends(a: Acl, c: Name, run: seq<Command>, v: Name, b: bv32, i: nat)
    requires Acyclic(a.links) && run != [] && i < |run| - 1 && Origin(a, c, run[..|run| - 1], v, b, i)
    ensures Origin(a, c, run, v, b, i)
  {
    assert run[..|run| - 1][..i] == run[..i] && run[..|run| - 1][..i + 1] == run[..i + 1];
  }

  /** Command `i` of the run changes the bit, and its caller's flags allow it. */
  ghost predicate Origin(a: Acl, c: Name, run: seq<Command>, v: Name, b: bv32, i: nat)
    requires Acyclic(a.links) && i < |run|
  {
    var before, after := After(a, c, run[..i]), After(a, c, run[..i + 1]);
    run[i].target == v && Changes(before, after, c, v, b) && Sourced(before, after, c, run[i].caller, v)
  }

  /** Someone who becomes co-owner during a run has been made so by a holder of F. */
  lemma CoownerFromOwner(a: Acl, c: Name, run: seq<Command>, v: Name)
    requires Acyclic(a.links) && AllOrdinary(run)
    requires NoEmptyEntries(a) && OneCoowner(a, c) && forall k :: k in a.rel ==> k.1 in a.users
    requires Has(Mask(After(a, c, run), c, v), COOWNER) && !Has(Mask(a, c, v), COOWNER)
    ensures exists i :: 0 <= i < |run| && run[i].target == v && Has(Mask(a, c, run[i].caller), OWNER)
    decreases |run|
  {
    var front, r := run[..|run| - 1], run[|run| - 1];
    var mid := After(a, c, front);
    FlagsSourced(r.lv, r.w, mid, c, r.caller, r.target, r.plus, r.flags);
    RunKeeps(a, c, front);
    if Has(Mask(mid, c, v), COOWNER) {
      CoownerFromOwner(a, c, front, v);
      var i :| 0 <= i < |front| && front[i].target == v && Has(Mask(a, c, front[i].caller), OWNER);
      assert run[i] == front[i];
    } else {
      assert run[|run| - 1].target == v;
    }
  }

  const STRONG: bv32 := OWNER | COOWNER | PROTECT
  const RESERVED: bv32 := OWNER | COOWNER | AUTOOWNER | PROTECT | AUTOPROTECT | ACL | SET

  /** No escalation: a run whose callers hold none of F, f and p to begin with changes nobody's F, f, w, p, P, x
      or s. */
  lemma {:induction false} NoEscalation(a: Acl, c: Name, run: seq<Command>)
    requires Acyclic(a.links) && AllOrdinary(run)
    requires forall i :: 0 <= i < |run| ==> !Has(Mask(a, c, run[i].caller), STRONG)
    ensures forall v :: !Changes(a, After(a, c, run), c, v, RESERVED)
    decreases |run|
  {
    if run != [] {
      var front, r := run[..|run| - 1], run[|run| - 1];
      NoEscalation(a, c, front);
      var mid, t := After(a, c, front), After(a, c, run);
      assert !Changes(a, mid, c, r.caller, RESERVED);
      StrongIsReserved(Mask(mid, c, r.caller), Mask(a, c, r.caller));
      StepNoEscalation( mid, c, r);
      forall v
        ensures !Changes(a, t, c, v, RESERVED)
      {
        assert !Changes(a, mid, c, v, RESERVED) && !Changes(mid, t, c, v, RESERVED);
      }
    }
  }

  lemma StepNoEscalation(a: Acl, c: Name, r: Command)
    requires Acyclic(a.links) && Ordinary(r.w, r.caller) && !Has(Mask(a, c, r.caller), STRONG)
    ensures forall v :: !Changes(a, FlagsChanged(r.lv, r.w, a, c, r.caller, r.target, r.plus, r.flags), c, v, RESERVED)
  {
    var t := FlagsChanged(r.lv, r.w, a, c, r.caller, r.target, r.plus, r.flags);
    FlagsSourced(r.lv, r.w, a, c, r.caller, r.target, r.plus, r.flags);
    WeakCaller(Mask(a, c, r.caller), Mask(a, c, r.target), Mask(t, c, r.target), r.caller == r.target);
  }

  lemma StrongIsReserved(m: bv32, n: bv32)
    requires m & RESERVED == n & RESERVED
    ensures Has(m, STRONG) <==> Has(n, STRONG)
  {
    assert m & STRONG == (m & RESERVED) & STRONG;
    assert n & STRONG == (n & RESERVED) & STRONG;
  }

  lemma WeakCaller(z: bv32, m: bv32, n: bv32, self: bool)
    requires Permitted(z, m, n, self) && !Has(z, STRONG)
    ensures m & RESERVED == n & RESERVED
  {
    WeakMask(z);
    SameParts(m, n);
  }

  lemma WeakMask(z: bv32)
    requires !Has(z, STRONG)
    ensures !Has(z, OWNER) && !Has(z, COOWNER) && !Has(z, PROTECT)
    ensures !Has(z, OWNER | COOWNER) && !Has(z, OWNER | COOWNER | PROTECT)
  {
  }

  lemma SameParts(m: bv32, n: bv32)
    requires m & OWNER == n & OWNER && m & (COOWNER | AUTOOWNER) == n & (COOWNER | AUTOOWNER)
    requires m & PROTECT == n & PROTECT && m & AUTOPROTECT == n & AUTOPROTECT && m & (ACL | SET) == n & (ACL | SET)
    ensures m & RESERVED == n & RESERVED
  {
  }
}
