/** Who owns a channel: the commands that change the access relation, and what they keep. */
module Ownership {
  import opened Uflags
  import opened Access

  /** GetUFlagsFromLevel. */
  function FlagsOfLevel(lv: Levels, level: int): bv32 {
    if level == CHLEV_OWNER then CHANOWNER
    else if level == CHLEV_COOWNER then CHANCOOWNER
    else if level < CHLEV_COOWNER && level >= lv.sadmin then CHANSADMIN
    else if level < lv.sadmin && level >= lv.admin then CHANADMIN
    else if level < lv.admin && level >= lv.op then CHANOP
    else if level < lv.op && level >= lv.halfop then CHANHALFOP
    else if level < lv.halfop && level >= lv.voice then CHANVOICE
    else if level < lv.voice && level >= lv.invite then INVITE
    else if level < 0 && level >= lv.nostatus then NOOP
    else if level < lv.nostatus && level >= lv.akick then AUTOKICK
    else AUTOKICKBAN
  }

  const OWNERS := Grant(CHLEV_OWNER, CHANOWNER, 1, false)

  /** The entry AddUserToChannel makes. */
  function NewGrant(lv: Levels, level: int, uflags: bv32): Grant {
    Grant(level, if uflags != 0 then uflags else FlagsOfLevel(lv, level), 1, false)
  }

  lemma OwnerFlags(lv: Levels, level: int)
    ensures Has(CHANOWNER, OWNER) && !Has(CHANOWNER, COOWNER)
    ensures level != CHLEV_OWNER ==> !Has(FlagsOfLevel(lv, level), OWNER)
    ensures FlagsOfLevel(lv, level) != 0
  {
  }

  // ----- The invariant.

  /** The owner named by the channel is registered and holds the channel's entry of level CHLEV_OWNER, with F and
      without f. */
  ghost predicate HasOwner(a: Acl, c: Name)
    requires c in a.chans
  {
    var k := (c, a.chans[c].owner);
    && a.chans[c].owner in a.users
    && k in a.rel && a.rel[k].level == CHLEV_OWNER && Has(a.rel[k].uflags, OWNER) && !Has(a.rel[k].uflags, COOWNER)
  }

  /** No other entry has that level, or F, or more. */
  ghost predicate OnlyOwner(a: Acl, k: (Name, Name))
    requires k in a.rel && k.0 in a.chans
  {
    && a.rel[k].level <= CHLEV_OWNER
    && (a.rel[k].level == CHLEV_OWNER || Has(a.rel[k].uflags, OWNER) ==> k.1 == a.chans[k.0].owner)
  }

  ghost predicate Owned(a: Acl) {
    && (forall c :: c in a.chans ==> HasOwner(a, c))
    && (forall k :: k in a.rel ==> k.0 in a.chans && k.1 in a.users && OnlyOwner(a, k))
    && (forall s :: s in a.links ==> a.links[s] in a.users)
  }

  /** There is one entry of level CHLEV_OWNER on a channel, and it is the owner's. */
  lemma ExactlyOneOwner(a: Acl, c: Name)
    requires Owned(a) && c in a.chans
    ensures (set k | k in a.rel && k.0 == c && a.rel[k].level == CHLEV_OWNER) == {(c, a.chans[c].owner)}
    ensures (set k | k in a.rel && k.0 == c && Has(a.rel[k].uflags, OWNER)) == {(c, a.chans[c].owner)}
  {
    assert HasOwner(a, c);
    forall k | k in a.rel && k.0 == c && (a.rel[k].level == CHLEV_OWNER || Has(a.rel[k].uflags, OWNER))
      ensures k == (c, a.chans[c].owner)
    {
      assert OnlyOwner(a, k);
    }
  }

  // ----- Commands.

  /** CreateChannel: a channel that exists stays; with an unknown owner the new channel stays without an entry. */
  function Created(a: Acl, c: Name, u: Name): Acl {
    if c in a.chans then a
    else if u !in a.users then a.(chans := a.chans[c := Info(u, true, false)])
    else a.(chans := a.chans[c := Info(u, true, false)], rel := a.rel[(c, u) := OWNERS])
  }

  /** chandrop. */
  function ChanDropped(a: Acl, c: Name): Acl {
    a.(chans := a.chans - {c}, rel := map k | k in a.rel && k.0 != c :: a.rel[k])
  }

  /** chan_set_founder; `oper` says whether the caller is an operator of sufficient level. */
  function FounderSet(a: Acl, c: Name, caller: Name, oper: bool, target: Name): Acl
    requires Acyclic(a.links)
  {
    if c !in a.chans || !(IsTrueOwner(a, c, caller) || oper) || target !in a.users then a
    else a.(rel := (a.rel - {(c, a.chans[c].owner)})[(c, target) := OWNERS],
            chans := a.chans[c := a.chans[c].(owner := target)])
  }

  /** The guards of the add branch of __chan_access. */
  predicate MayAdd(lv: Levels, w: Staff, a: Acl, c: Name, caller: Name, oper: bool, target: Name, level: int)
    requires Acyclic(a.links)
  {
    && c in a.chans && !a.chans[c].axxflags
    && (var strong := IsFounder(a, w, c, caller) || oper;
      && (GetFlag(a, w, c, caller) >= lv.admin || strong)
      && target in a.users
      && (GetFlag(a, w, c, target) < GetFlag(a, w, c, caller) || strong)
      && (level < GetFlag(a, w, c, caller) || strong)
      && level < CHLEV_OWNER && target != a.chans[c].owner
      && !(level == CHLEV_COOWNER
        && exists v :: v in a.users && (c, v) in a.rel && a.rel[(c, v)].level == CHLEV_COOWNER))
  }

  /** The add branch of __chan_access. */
  function AccessAdded(lv: Levels, w: Staff, a: Acl, c: Name, caller: Name, oper: bool, target: Name, level: int): Acl
    requires Acyclic(a.links)
  {
    if MayAdd(lv, w, a, c, caller, oper, target, level)
    then a.(rel := a.rel[(c, target) := NewGrant(lv, level, 0)])
    else a
  }

  /** The del branch, where the caller gave its own nick. */
  predicate DeletesItself(w: Staff, a: Acl, c: Name, caller: Name, self: bool)
    requires Acyclic(a.links)
  {
    c in a.chans && !a.chans[c].axxflags && GetFlag(a, w, c, caller) != 0 && self
  }

  /** The guards of the rest of the del branch. */
  predicate MayDelete(lv: Levels, w: Staff, a: Acl, c: Name, caller: Name, oper: bool, target: Name)
    requires Acyclic(a.links)
  {
    && c in a.chans && !a.chans[c].axxflags
    && (var strong := IsFounder(a, w, c, caller) || oper;
      && (GetFlag(a, w, c, caller) >= lv.admin || strong)
      && target in a.users && GetFlag(a, w, c, target) != 0
      && (GetFlag(a, w, c, target) < GetFlag(a, w, c, caller) || strong)
      && target != a.chans[c].owner)
  }

  /** The del branch of __chan_access; `self` says whether the caller gave its own nick. */
  function AccessDeleted(lv: Levels, w: Staff, a: Acl, c: Name, caller: Name, self: bool, oper: bool, target: Name): Acl
    requires Acyclic(a.links)
  {
    if DeletesItself(w, a, c, caller, self) then a.(rel := a.rel - {(c, caller)})
    else if MayDelete(lv, w, a, c, caller, oper, target) then a.(rel := a.rel - {(c, target)})
    else a
  }

  /** chan_set_axxflags. */
  function AxxflagsSet(w: Staff, a: Acl, c: Name, caller: Name, on: bool): Acl
    requires Acyclic(a.links)
  {
    if c in a.chans && IsFounder(a, w, c, caller) then a.(chans := a.chans[c := a.chans[c].(axxflags := on)]) else a
  }

  /** chan_suspend and chan_unsuspend, once the caller has been found to outrank the target. */
  function EntrySuspended(a: Acl, c: Name, target: Name, on: bool): Acl {
    if (c, target) in a.rel then a.(rel := a.rel[(c, target) := a.rel[(c, target)].(suspended := on)]) else a
  }

  // ----- Flag commands.

  /** can_modify_uflag. */
  datatype Reach = Nobody | Oneself | Anyone

  function CanModify(a: Acl, w: Staff, c: Name, u: Name, flags: bv32): Reach {
    if u in w.superadmins then Anyone
    else if (c, u) !in a.rel then Nobody
    else ReachOf(a.rel[(c, u)].uflags, flags)
  }

  /** The reach of a holder of the flags `m`. */
  function ReachOf(m: bv32, flags: bv32): Reach {
    if Has(flags, OWNER) then Nobody
    else if Has(flags, COOWNER | AUTOOWNER) then
      (if Has(m, OWNER) then Anyone else if Has(m, COOWNER) then Oneself else Nobody)
    else if Has(flags, PROTECT) then
      (if Has(m, OWNER | COOWNER) then Anyone else Nobody)
    else if Has(flags, AUTOPROTECT) then
      (if Has(m, OWNER | COOWNER) then Anyone else if Has(m, PROTECT) then Oneself else Nobody)
    else if Has(flags, ACL) then
      (if Has(m, OWNER | COOWNER | PROTECT) then Anyone else Nobody)
    else if Has(flags, SET) then
      (if Has(m, OWNER | COOWNER | PROTECT) then Anyone else Nobody)
    else Anyone
  }

  predicate IsCoowner(a: Acl, c: Name, v: Name) {
    (c, v) in a.rel && (Has(a.rel[(c, v)].uflags, COOWNER) || a.rel[(c, v)].level == CHLEV_COOWNER)
  }

  /** chan_flags, up to the sign of the change. */
  predicate PassesGuards(lv: Levels, w: Staff, a: Acl, c: Name, caller: Name, target: Name, flags: bv32)
    requires Acyclic(a.links)
  {
    && c in a.chans && a.chans[c].axxflags
    && (ChannelCan(CanAcl, lv, a, w, c, caller) || IsFounder(a, w, c, caller))
    && target in a.users && flags != 0
    && ChannelCanWriteAcl(a, w, c, caller, target)
    && CanModify(a, w, c, caller, flags) != Nobody
    && (CanModify(a, w, c, caller, flags) == Oneself ==> caller == target)
  }

  /** chan_flags, up to the point where the entry is changed. */
  predicate MayChange(lv: Levels, w: Staff, a: Acl, c: Name, caller: Name, target: Name, plus: bool, flags: bv32)
    requires Acyclic(a.links)
  {
    && PassesGuards(lv, w, a, c, caller, target, flags)
    && (plus && Has(flags, COOWNER) ==> !(exists v :: v in a.users && IsCoowner(a, c, v)) && !IsTrueOwner(a, c, target))
  }

  function NewMask(m: bv32, plus: bool, flags: bv32): bv32 {
    if plus then m | flags else m & !flags
  }

  /** The change of the entry at the end of chan_flags. */
  function Edited(lv: Levels, a: Acl, c: Name, target: Name, plus: bool, flags: bv32): Acl {
    var k := (c, target);
    if k in a.rel then
      var m := NewMask(a.rel[k].uflags, plus, flags);
      if plus || m != 0 then a.(rel := a.rel[k := a.rel[k].(uflags := m)]) else a.(rel := a.rel - {k})
    else if plus then a.(rel := a.rel[k := NewGrant(lv, 0, flags)])
    else a
  }

  lemma EditedDown(lv: Levels, a: Acl, c: Name, target: Name, flags: bv32, left: bv32)
    requires (c, target) in a.rel && left == NewMask(a.rel[(c, target)].uflags, false, flags)
    ensures var t := a.(rel := a.rel[(c, target) := a.rel[(c, target)].(uflags := left)]);
      Edited(lv, a, c, target, false, flags) == if left == 0 then t.(rel := t.rel - {(c, target)}) else t
  {
  }

  /** chan_flags. */
  function FlagsChanged(lv: Levels, w: Staff, a: Acl, c: Name, caller: Name, target: Name, plus: bool, flags: bv32): Acl
    requires Acyclic(a.links)
  {
    if MayChange(lv, w, a, c, caller, target, plus, flags) then Edited(lv, a, c, target, plus, flags) else a
  }

  // ----- Users.

  /** userdrop: the channels of the user go to the co-owner `heir` names, or are dropped where there is none. */
  function UserDropped(a: Acl, u: Name, heir: map<Name, Name>): Acl {
    Acl(a.users - {u},
        map c | c in a.chans && (a.chans[c].owner != u || c in heir) ::
          if a.chans[c].owner == u then a.chans[c].(owner := heir[c]) else a.chans[c],
        map k | k in a.rel && k.1 != u && k.0 in a.chans && (a.chans[k.0].owner != u || k.0 in heir) ::
          if a.chans[k.0].owner == u && k.1 == heir[k.0] then OWNERS else a.rel[k],
        map s | s in a.links && s != u && a.links[s] != u :: a.links[s])
  }

  /** An heir is a co-owner, and there is one wherever a channel of the user has a co-owner. */
  ghost predicate Heirs(a: Acl, u: Name, heir: map<Name, Name>) {
    && (forall c :: c in heir ==> c in a.chans && a.chans[c].owner == u && heir[c] in a.users && IsCoowner(a, c, heir[c]))
    && (forall c, v :: c in a.chans && a.chans[c].owner == u && v in a.users && IsCoowner(a, c, v) ==> c in heir)
  }

  /** userdrop, when the channels `done` have been gone through. */
  function Partly(a: Acl, u: Name, heir: map<Name, Name>, done: set<Name>): Acl {
    a.(chans := map c | c in a.chans && (Passed(a, u, done, c) ==> c in heir) ::
         if Passed(a, u, done, c) then a.chans[c].(owner := heir[c]) else a.chans[c],
       rel := map k | k in a.rel && (Passed(a, u, done, k.0) ==> k.0 in heir) ::
         if Passed(a, u, done, k.0) && k.1 == heir[k.0] then OWNERS else a.rel[k])
  }

  predicate Passed(a: Acl, u: Name, done: set<Name>, c: Name) {
    c in done && c in a.chans && a.chans[c].owner == u
  }

  /** The co-owner becomes the owner of a channel. */
  function Promoted(a: Acl, c: Name, co: Name): Acl
    requires c in a.chans
  {
    a.(rel := a.rel[(c, co) := OWNERS], chans := a.chans[c := a.chans[c].(owner := co)])
  }

  lemma PartlyPromotes(a: Acl, u: Name, heir: map<Name, Name>, done: set<Name>, c: Name, co: Name)
    requires c in a.chans && a.chans[c].owner == u && c !in done && c !in heir && (c, co) in a.rel
    ensures c in Partly(a, u, heir, done).chans
    ensures Partly(a, u, heir[c := co], done + {c}) == Promoted(Partly(a, u, heir, done), c, co)
  {
    assert forall d :: Passed(a, u, done + {c}, d) <==> Passed(a, u, done, d) || d == c;
    PartlyPromotesEntries(a, u, heir, done, c, co);
    assert Partly(a, u, heir[c := co], done + {c}).chans == Promoted(Partly(a, u, heir, done), c, co).chans;
  }

  lemma PartlyPromotesEntries(a: Acl, u: Name, heir: map<Name, Name>, done: set<Name>, c: Name, co: Name)
    requires c in a.chans && c !in heir && (c, co) in a.rel && !Passed(a, u, done, c)
    requires forall d :: Passed(a, u, done + {c}, d) <==> Passed(a, u, done, d) || d == c
    ensures Partly(a, u, heir[c := co], done + {c}).rel == Partly(a, u, heir, done).rel[(c, co) := OWNERS]
  {
  }

  lemma PartlyDrops(a: Acl, u: Name, heir: map<Name, Name>, done: set<Name>, c: Name)
    requires c in a.chans && a.chans[c].owner == u && c !in done && c !in heir
    ensures Partly(a, u, heir, done + {c}) == ChanDropped(Partly(a, u, heir, done), c)
  {
    assert forall d :: Passed(a, u, done + {c}, d) <==> Passed(a, u, done, d) || d == c;
    PartlyDropsEntries(a, u, heir, done, c);
    assert Partly(a, u, heir, done + {c}).chans == ChanDropped(Partly(a, u, heir, done), c).chans;
  }

  lemma PartlyDropsEntries(a: Acl, u: Name, heir: map<Name, Name>, done: set<Name>, c: Name)
    requires c !in heir && forall d :: Passed(a, u, done + {c}, d) <==> Passed(a, u, done, d) || d == c
    ensures Partly(a, u, heir, done + {c}).rel == ChanDropped(Partly(a, u, heir, done), c).rel
  {
  }

  lemma PartlySkips(a: Acl, u: Name, heir: map<Name, Name>, done: set<Name>, c: Name)
    requires c in a.chans && a.chans[c].owner != u
    ensures Partly(a, u, heir, done + {c}) == Partly(a, u, heir, done)
  {
  }

  lemma NothingDone(a: Acl, u: Name)
    ensures Partly(a, u, map[], {}) == a
  {
  }

  lemma PartlyDone(a: Acl, u: Name, heir: map<Name, Name>, links: map<Name, Name>)
    requires Owned(a) && links == map s | s in a.links && s != u && a.links[s] != u :: a.links[s]
    ensures var t := Partly(a, u, heir, a.chans.Keys);
      UserDropped(a, u, heir) ==
        Acl(t.users - {u}, t.chans, t.rel - (set k | k in t.rel && k.1 == u), links)
  {
    DroppedChans(a, u, heir);
    DroppedEntries(a, u, heir);
  }

  lemma DroppedChans(a: Acl, u: Name, heir: map<Name, Name>)
    ensures UserDropped(a, u, heir).chans == Partly(a, u, heir, a.chans.Keys).chans
  {
  }

  lemma DroppedEntries(a: Acl, u: Name, heir: map<Name, Name>)
    requires Owned(a)
    ensures var t := Partly(a, u, heir, a.chans.Keys);
      UserDropped(a, u, heir).rel == t.rel - (set k | k in t.rel && k.1 == u)
  {
    assert forall k :: k in a.rel ==> k.0 in a.chans;
  }

  // ----- What the commands keep.

  /** Creating a channel keeps the invariant exactly when nothing is created or the owner is registered. */
  lemma CreatedKeeps(a: Acl, c: Name, u: Name)
    requires Owned(a)
    ensures Owned(Created(a, c, u)) <==> c in a.chans || u in a.users
  {
    var t := Created(a, c, u);
    if c !in a.chans && u !in a.users {
      assert !HasOwner(t, c);
    } else if c !in a.chans {
      NewChannelOwned(a, c, u);
    }
  }

  lemma NewChannelOwned(a: Acl, c: Name, u: Name)
    requires Owned(a) && c !in a.chans && u in a.users
    ensures Owned(Created(a, c, u))
  {
    OwnerFlags(Levels(0, 0, 0, 0, 0, 0, 0, 0), 0);
    var t := Created(a, c, u);
    forall d | d in t.chans
      ensures HasOwner(t, d)
    {
      assert d != c ==> HasOwner(a, d);
    }
    forall k | k in t.rel
      ensures k.0 in t.chans && k.1 in t.users && OnlyOwner(t, k)
    {
      assert k != (c, u) ==> k in a.rel && k.0 != c && OnlyOwner(a, k);
    }
  }

  lemma ChanDroppedKeeps(a: Acl, c: Name)
    requires Owned(a)
    ensures Owned(ChanDropped(a, c))
  {
    var t := ChanDropped(a, c);
    forall d | d in t.chans
      ensures HasOwner(t, d)
    {
      assert HasOwner(a, d);
    }
    forall k | k in t.rel
      ensures k.0 in t.chans && k.1 in t.users && OnlyOwner(t, k)
    {
      assert OnlyOwner(a, k);
    }
  }

  lemma FounderSetKeeps(a: Acl, c: Name, caller: Name, oper: bool, target: Name)
    requires Owned(a) && Acyclic(a.links)
    ensures Owned(FounderSet(a, c, caller, oper, target))
  {
    OwnerFlags(Levels(0, 0, 0, 0, 0, 0, 0, 0), 0);
    var t := FounderSet(a, c, caller, oper, target);
    forall d | d in t.chans
      ensures HasOwner(t, d)
    {
      assert HasOwner(a, d);
    }
    forall k | k in t.rel
      ensures k.0 in t.chans && k.1 in t.users && OnlyOwner(t, k)
    {
      assert k in a.rel ==> OnlyOwner(a, k);
    }
  }

  /** Changing, adding or deleting one entry of somebody who does not own the channel. */
  lemma OtherEntryKeeps(a: Acl, t: Acl, k: (Name, Name))
    requires Owned(a) && t.users == a.users && t.chans.Keys == a.chans.Keys && t.links == a.links
    requires forall c :: c in a.chans ==> t.chans[c].owner == a.chans[c].owner
    requires k.0 in a.chans && k.1 in a.users
    requires forall j :: j != k ==> (j in t.rel <==> j in a.rel) && (j in a.rel ==> t.rel[j] == a.rel[j])
    requires k.1 != a.chans[k.0].owner
    requires k in t.rel ==> t.rel[k].level < CHLEV_OWNER && !Has(t.rel[k].uflags, OWNER)
    ensures Owned(t)
  {
    forall d | d in t.chans
      ensures HasOwner(t, d)
    {
      assert HasOwner(a, d);
    }
    forall j | j in t.rel
      ensures j.0 in t.chans && j.1 in t.users && OnlyOwner(t, j)
    {
      assert j in a.rel ==> OnlyOwner(a, j);
    }
  }

  lemma AccessAddedKeeps(lv: Levels, w: Staff, a: Acl, c: Name, caller: Name, oper: bool, target: Name, level: int)
    requires Owned(a) && Acyclic(a.links)
    ensures Owned(AccessAdded(lv, w, a, c, caller, oper, target, level))
  {
    var t := AccessAdded(lv, w, a, c, caller, oper, target, level);
    OwnerFlags(lv, level);
    if t != a {
      OtherEntryKeeps(a, t, (c, target));
    }
  }

  /** Deleting keeps the invariant unless the owner deletes itself: the owner's own entry is not protected on that
      path. */
  lemma AccessDeletedKeeps(lv: Levels, w: Staff, a: Acl, c: Name, caller: Name, self: bool, oper: bool, target: Name)
    requires Owned(a) && Acyclic(a.links)
    ensures Owned(AccessDeleted(lv, w, a, c, caller, self, oper, target)) <==>
      !(c in a.chans && !a.chans[c].axxflags && self && caller == a.chans[c].owner && GetFlag(a, w, c, caller) != 0)
  {
    var t := AccessDeleted(lv, w, a, c, caller, self, oper, target);
    if c in a.chans && !a.chans[c].axxflags && self && GetFlag(a, w, c, caller) != 0 {
      if caller == a.chans[c].owner {
        assert !HasOwner(t, c);
      } else if (c, caller) in a.rel {
        OtherEntryKeeps(a, t, (c, caller));
      } else {
        assert t.rel == a.rel;
        assert t == a;
      }
    } else if t != a {
      OtherEntryKeeps(a, t, (c, target));
    }
  }

  lemma SameEntriesKeep(a: Acl, t: Acl)
    requires Owned(a) && t.users == a.users && t.links == a.links && t.rel.Keys == a.rel.Keys && t.chans.Keys == a.chans.Keys
    requires forall c :: c in a.chans ==> t.chans[c].owner == a.chans[c].owner
    requires forall k :: k in a.rel ==> t.rel[k].level == a.rel[k].level && t.rel[k].uflags == a.rel[k].uflags
    ensures Owned(t)
  {
    forall d | d in t.chans
      ensures HasOwner(t, d)
    {
      assert HasOwner(a, d);
    }
    forall j | j in t.rel
      ensures j.0 in t.chans && j.1 in t.users && OnlyOwner(t, j)
    {
      assert OnlyOwner(a, j);
    }
  }

  /** After userdrop no entry and no link names the user, its channels with a co-owner belong to the co-owner, its
      other channels are gone, and the invariant holds. */
  lemma UserDroppedKeeps(a: Acl, u: Name, heir: map<Name, Name>)
    requires Owned(a) && Heirs(a, u, heir)
    ensures var t := UserDropped(a, u, heir);
      && Owned(t)
      && (forall k :: k in t.rel ==> k.1 != u)
      && (forall s :: s in t.links ==> s != u && t.links[s] != u)
      && (forall c :: c in t.chans ==> t.chans[c].owner != u)
  {
    var t := UserDropped(a, u, heir);
    OwnerFlags(Levels(0, 0, 0, 0, 0, 0, 0, 0), 0);
    forall c | c in heir
      ensures heir[c] != u
    {
      assert HasOwner(a, c) && IsCoowner(a, c, heir[c]);
    }
    forall d | d in t.chans
      ensures HasOwner(t, d)
    {
      assert HasOwner(a, d);
      assert d in heir && a.chans[d].owner == u ==> IsCoowner(a, d, heir[d]);
    }
    forall j | j in t.rel
      ensures j.0 in t.chans && j.1 in t.users && OnlyOwner(t, j)
    {
      assert OnlyOwner(a, j);
    }
  }
}
