/** The registries of accounts, channels and links, changed in place. Each method is proved to do to the two lists
    exactly what the corresponding function does to the access relation. Decisions are made on the stored lists and links
    and are proved to be those the functions make on the relation. */
module Registry {
  import opened Wrappers
  import opened Lists
  import opened Uflags
  import opened Access
  import opened Ownership
  import opened CflagLists

  class Registry {
    var users: map<Name, seq<Ptr>>
    var chans: map<Name, Chan>
    var cflags: map<Ptr, Cflag>
    var links: map<Name, Name>
    ghost var acl: Acl
    ghost var at: map<(Name, Name), Ptr>

    ghost function V(): View
      reads this
    {
      View(users, chans, cflags, links, acl, at)
    }

    ghost predicate Valid()
      reads this
    {
      Consistent(V())
    }

    constructor ()
      ensures Valid() && acl == Acl({}, map[], map[], map[])
    {
      users, chans, cflags, links := map[], map[], map[], map[];
      acl, at := Acl({}, map[], map[], map[]), map[];
    }

    /** malloc: a pointer that is not in use. */
    method Malloc() returns (p: Ptr)
      ensures p !in cflags
    {
      p := 0;
      var rest := cflags.Keys;
      while rest != {}
        invariant rest <= cflags.Keys
        invariant forall q :: q in cflags && q !in rest ==> q < p
        decreases |rest|
      {
        var q :| q in rest;
        rest := rest - {q};
        if q >= p {
          p := q + 1;
        }
      }
    }

    /** find_cflag: walks the list of the user. */
    method FindCflag(c: Name, u: Name) returns (r: Option<Ptr>)
      requires Valid() && u in users
      ensures r.Some? <==> (c, u) in acl.rel
      ensures r.Some? ==> r.value in cflags && Key(cflags[r.value]) == (c, u)
    {
      assert Holds(V(), Law.Users) && Holds(V(), Entries);
      assert (c, u) in acl.rel ==> at[(c, u)] in users[u];
      for i := 0 to |users[u]|
        invariant forall j :: 0 <= j < i ==> cflags[users[u][j]].chan != c
      {
        var cflag := users[u][i];
        if cflags[cflag].chan == c {
          assert Key(cflags[cflag]) == (c, u);
          return Some(cflag);
        }
      }
      return None;
    }

    /** AddUserToChannel. */
    method AddUserToChannel(lv: Levels, u: Name, c: Name, level: int, uflags: bv32)
      requires Valid() && u in users && c in chans && (c, u) !in acl.rel
      modifies this
      ensures Valid() && acl == old(acl).(rel := old(acl).rel[(c, u) := NewGrant(lv, level, uflags)])
    {
      var p := Malloc();
      var g := Grant(level, if uflags != 0 then uflags else FlagsOfLevel(lv, level), 1, false);
      AddedKeeps(V(), p, c, u, g);
      cflags := cflags[p := Cflag(c, u, g)];
      users := users[u := users[u] + [p]];
      chans := chans[c := chans[c].(cflags := chans[c].cflags + [p])];
      acl, at := acl.(rel := acl.rel[(c, u) := g]), at[(c, u) := p];
    }

    /** DeleteCflag. */
    method DeleteCflag(p: Ptr)
      requires Valid() && p in cflags
      modifies this
      ensures Valid() && V() == Without(old(V()), {p})
    {
      DeletedIsWithout(V(), p);
      WithoutKeeps(V(), {p});
      var f := cflags[p];
      chans := chans[f.chan := chans[f.chan].(cflags := Minus(chans[f.chan].cflags, {p}))];
      users := users[f.user := Minus(users[f.user], {p})];
      cflags := cflags - {p};
      acl, at := acl.(rel := acl.rel - {Key(f)}), at - {Key(f)};
    }

    /** DeleteUserFromChannel. */
    method DeleteUserFromChannel(u: Name, c: Name)
      requires Valid() && u in users
      modifies this
      ensures Valid() && acl == old(acl).(rel := old(acl).rel - {(c, u)})
    {
      var cflag := FindCflag(c, u);
      if cflag.None? {
        assert acl.rel - {(c, u)} == acl.rel;
        return;
      }
      assert KeysOf(cflags, {cflag.value}) == {(c, u)};
      DeleteCflag(cflag.value);
    }

    /** DeleteUsersFromChannel: LLIST_FOREACH_ENTRY_SAFE over the list of the channel. */
    method DeleteUsersFromChannel(c: Name)
      requires Valid() && c in chans
      modifies this
      ensures Valid() && V() == Without(old(V()), Elements(old(chans)[c].cflags))
    {
      ghost var v, rest, done: set<Ptr> := V(), chans[c].cflags, {};
      WithoutNothing(v);
      assert Holds(V(), Chans);
      var cflag := First(chans[c].cflags);
      var tmp := Next(chans[c].cflags, cflag);
      while cflag.Some?
        invariant Valid() && V() == Without(v, done) && c in chans && chans[c].cflags == rest && cflag == First(rest)
        invariant cflag.Some? ==> tmp == Second(rest)
        invariant done == Elements(v.chans[c].cflags) - Elements(rest)
        decreases |rest|
      {
        HeadOfChan(v, c, done, V());
        DeleteCflag(cflag.value);
        NextIsSecond(rest);
        done := done + {rest[0]};
        rest := rest[1..];
        cflag, tmp := tmp, Next(chans[c].cflags, tmp);
      }
      assert done == Elements(v.chans[c].cflags);
    }

    /** DeleteUserFromChannels: LLIST_FOREACH_ENTRY_SAFE over the list of the user. */
    method DeleteUserFromChannels(u: Name)
      requires Valid() && u in users
      modifies this
      ensures Valid() && V() == Without(old(V()), Elements(old(users)[u]))
    {
      ghost var v, rest, done: set<Ptr> := V(), users[u], {};
      WithoutNothing(v);
      assert Holds(V(), Law.Users);
      var cflag := First(users[u]);
      var tmp := Next(users[u], cflag);
      while cflag.Some?
        invariant Valid() && V() == Without(v, done) && u in users && users[u] == rest && cflag == First(rest)
        invariant cflag.Some? ==> tmp == Second(rest)
        invariant done == Elements(v.users[u]) - Elements(rest)
        decreases |rest|
      {
        HeadOfUser(v, u, done, V());
        DeleteCflag(cflag.value);
        NextIsSecond(rest);
        done := done + {rest[0]};
        rest := rest[1..];
        cflag, tmp := tmp, Next(users[u], tmp);
      }
      assert done == Elements(v.users[u]);
    }

    /** CreateChannel. */
    method CreateChannel(lv: Levels, c: Name, u: Name) returns (ok: bool)
      requires Valid()
      modifies this
      ensures Valid() && acl == Created(old(acl), c, u)
      ensures ok <==> c !in old(chans) && u in old(users)
    {
      assert Holds(V(), Names);
      if c in chans {
        return false;
      }
      WithChanKeeps(V(), c, Info(u, true, false));
      NoEntries(V(), c, u);
      chans := chans[c := Chan(Info(u, true, false), [])];
      acl := acl.(chans := acl.chans[c := Info(u, true, false)]);
      if u !in users {
        return false;
      }
      OwnerFlags(lv, 0);
      AddUserToChannel(lv, u, c, CHLEV_OWNER, CHANOWNER);
      return true;
    }

    /** chandrop. */
    method Chandrop(c: Name)
      requires Valid() && c in chans
      modifies this
      ensures Valid() && acl == ChanDropped(old(acl), c)
    {
      ghost var v := V();
      ChannelCleared(v, c);
      DeleteUsersFromChannel(c);
      WithoutChanKeeps(V(), c);
      chans := chans - {c};
      acl := acl.(chans := acl.chans - {c});
      assert acl.rel == ChanDropped(v.acl, c).rel;
    }

    /** get_coowner: the first on the list of the channel. */
    method GetCoowner(c: Name) returns (r: Option<Name>)
      requires Valid() && c in chans
      ensures r == FirstCoowner(cflags, chans[c].cflags)
      ensures r.Some? ==> r.value in users && IsCoowner(acl, c, r.value)
      ensures r.None? ==> forall u :: !IsCoowner(acl, c, u)
    {
      CoownersListed(V(), c);
      for i := 0 to |chans[c].cflags|
        invariant forall j :: 0 <= j < i ==> !Coowns(cflags[chans[c].cflags[j]].grant)
        invariant FirstCoowner(cflags, chans[c].cflags) == FirstCoowner(cflags, chans[c].cflags[i..])
      {
        var f := cflags[chans[c].cflags[i]];
        if Has(f.grant.uflags, COOWNER) || f.grant.level == CHLEV_COOWNER {
          return Some(f.user);
        }
      }
      return None;
    }

    // ----- Decisions, made on the lists.

    /** get_link_master. */
    method GetLinkMaster(u: Name) returns (m: Option<Name>)
      requires Valid()
      ensures m == Master(acl, u)
    {
      assert Holds(V(), Names);
      return if u in links && links[u] in users then Some(links[u]) else None;
    }

    method FindGrant(c: Name, u: Name) returns (g: Option<Grant>)
      requires Valid() && u in users
      ensures g == if (c, u) in acl.rel then Some(acl.rel[(c, u)]) else None
    {
      assert Holds(V(), Entries);
      var cflag := FindCflag(c, u);
      return if cflag.Some? then Some(cflags[cflag.value].grant) else None;
    }

    /** IsFounder. */
    method IsFounder(w: Staff, c: Name, u: Name) returns (b: bool)
      requires Valid() && Acyclic(acl.links) && c in chans && c in acl.chans && u in users
      ensures b == Access.IsFounder(acl, w, c, u)
      decreases Height(acl.links, u)
    {
      assert Holds(V(), Names);
      var g := FindGrant(c, u);
      if g.None? {
        MasterDescends(acl, u);
        var m := GetLinkMaster(u);
        if m.None? {
          return false;
        }
        b := IsFounder(w, c, m.value);
      } else if u in w.supermodes {
        b := true;
      } else if chans[c].info.axxflags {
        b := Has(g.value.uflags, OWNER) || Has(g.value.uflags, COOWNER);
      } else {
        b := g.value.level == CHLEV_OWNER || g.value.level == CHLEV_COOWNER;
      }
    }

    /** IsTrueOwner. */
    method IsTrueOwner(c: Name, u: Name) returns (b: bool)
      requires Valid() && Acyclic(acl.links) && c in chans && c in acl.chans && u in users
      ensures b == Access.IsTrueOwner(acl, c, u)
      decreases Height(acl.links, u)
    {
      assert Holds(V(), Names);
      var g := FindGrant(c, u);
      if g.None? {
        MasterDescends(acl, u);
        var m := GetLinkMaster(u);
        if m.None? {
          return false;
        }
        b := IsTrueOwner(c, m.value);
      } else {
        b := if chans[c].info.axxflags then Has(g.value.uflags, OWNER) else g.value.level == CHLEV_OWNER;
      }
    }

    /** GetFlag. */
    method GetFlag(w: Staff, c: Name, u: Name) returns (level: int)
      requires Valid() && Acyclic(acl.links) && c in chans && c in acl.chans && u in users
      ensures level == Access.GetFlag(acl, w, c, u)
      decreases Height(acl.links, u)
    {
      assert Holds(V(), Names);
      if u in w.supermodes {
        return CHLEV_OWNER;
      }
      if chans[c].info.suspended {
        return 0;
      }
      var g := FindGrant(c, u);
      if g.None? {
        MasterDescends(acl, u);
        var m := GetLinkMaster(u);
        if m.None? {
          return 0;
        }
        level := GetFlag(w, c, m.value);
      } else {
        level := if g.value.suspended then 0 else g.value.level;
      }
    }

    /** ChannelCanProtect, ChannelCanOp and so on. */
    method ChannelCan(p: Privilege, lv: Levels, w: Staff, c: Name, u: Name) returns (b: bool)
      requires Valid() && Acyclic(acl.links) && c in chans && c in acl.chans && u in users
      ensures b == Access.ChannelCan(p, lv, acl, w, c, u)
      decreases Height(acl.links, u)
    {
      assert Holds(V(), Names);
      if u in w.superadmins {
        return true;
      }
      var g := FindGrant(c, u);
      if g.None? {
        MasterDescends(acl, u);
        var m := GetLinkMaster(u);
        if m.None? {
          return false;
        }
        b := ChannelCan(p, lv, w, c, m.value);
      } else if g.value.suspended {
        b := false;
      } else if chans[c].info.axxflags {
        b := Has(g.value.uflags, Flags(p));
        if !b {
          b := IsFounder(w, c, u);
        }
      } else {
        b := g.value.level >= Level(lv, p);
      }
    }

    /** ChannelCanWriteACL. */
    method ChannelCanWriteAcl(w: Staff, c: Name, source: Name, target: Name) returns (b: bool)
      requires Valid() && Acyclic(acl.links) && c in chans && c in acl.chans && source in users && target in users
      ensures b == Access.ChannelCanWriteAcl(acl, w, c, source, target)
      decreases Height(acl.links, source)
    {
      assert Holds(V(), Names);
      if source in w.superadmins {
        return true;
      }
      var g1 := FindGrant(c, source);
      if g1.None? {
        MasterDescends(acl, source);
        var m := GetLinkMaster(source);
        if m.None? {
          return false;
        }
        b := ChannelCanWriteAcl(w, c, m.value, target);
        return;
      }
      if g1.value.suspended {
        return false;
      }
      b := IsFounder(w, c, source);
      if b || !Has(g1.value.uflags, ACL) {
        return;
      }
      var g2 := FindGrant(c, target);
      b := g2.None? || Outranks(g1.value.uflags, g2.value.uflags) || source == target;
    }

    /** can_modify_uflag. */
    method CanModifyUflag(w: Staff, c: Name, u: Name, flags: bv32) returns (r: Reach)
      requires Valid() && u in users
      ensures r == CanModify(acl, w, c, u, flags)
    {
      if u in w.superadmins {
        return Anyone;
      }
      var g := FindGrant(c, u);
      return if g.None? then Nobody else ReachOf(g.value.uflags, flags);
    }

    /** Whether the list of a channel has an entry at the level of a co-owner. */
    method HasLevelCoowner(c: Name) returns (b: bool)
      requires Valid() && c in chans
      ensures b <==> exists v :: v in acl.users && (c, v) in acl.rel && acl.rel[(c, v)].level == CHLEV_COOWNER
    {
      EntriesListed(V(), c);
      for i := 0 to |chans[c].cflags|
        invariant forall j :: 0 <= j < i ==> cflags[chans[c].cflags[j]].grant.level != CHLEV_COOWNER
      {
        if cflags[chans[c].cflags[i]].grant.level == CHLEV_COOWNER {
          return true;
        }
      }
      return false;
    }

    // ----- Commands.

    /** chan_set_founder. */
    method ChanSetFounder(lv: Levels, c: Name, caller: Name, oper: bool, target: Name)
      requires Valid() && Acyclic(acl.links) && c in chans && caller in users
      requires c in acl.chans && acl.chans[c].owner in acl.users
      modifies this
      ensures Valid() && acl == FounderSet(old(acl), c, caller, oper, target)
    {
      assert Holds(V(), Names);
      var owner := IsTrueOwner(c, caller);
      if !(owner || oper) || target !in users {
        return;
      }
      GiveChannel(lv, c, chans[c].info.owner, target);
    }

    method SetOwner(c: Name, u: Name)
      requires Valid() && c in chans && c in acl.chans
      modifies this
      ensures Valid()
      ensures acl == old(acl).(chans := old(acl).chans[c := old(acl).chans[c].(owner := u)])
    {
      assert Holds(V(), Names);
      WithChanKeeps(V(), c, chans[c].info.(owner := u));
      chans := chans[c := chans[c].(info := chans[c].info.(owner := u))];
      acl := acl.(chans := acl.chans[c := acl.chans[c].(owner := u)]);
    }

    /** The entry of a user is replaced. */
    method ReplaceEntry(lv: Levels, u: Name, c: Name, level: int, uflags: bv32)
      requires Valid() && c in chans && u in users
      modifies this
      ensures Valid() && acl == old(acl).(rel := old(acl).rel[(c, u) := NewGrant(lv, level, uflags)])
    {
      assert Holds(V(), Names);
      DeleteUserFromChannel(u, c);
      assert Holds(V(), Names);
      AddUserToChannel(lv, u, c, level, uflags);
    }

    /** The former owner and the new one lose their entries; the new one becomes the owner. */
    method GiveChannel(lv: Levels, c: Name, former: Name, target: Name)
      requires Valid() && c in chans && c in acl.chans && former in users && target in users
      modifies this
      ensures Valid()
      ensures acl == old(acl).(rel := (old(acl).rel - {(c, former)})[(c, target) := OWNERS],
                               chans := old(acl).chans[c := old(acl).chans[c].(owner := target)])
    {
      OwnerFlags(lv, 0);
      assert Holds(V(), Names);
      DeleteUserFromChannel(former, c);
      assert Holds(V(), Names);
      SetOwner(c, target);
      assert Holds(V(), Names);
      ReplaceEntry(lv, target, c, CHLEV_OWNER, CHANOWNER);
    }

    /** The add branch of __chan_access. */
    method ChanAccessAdd(lv: Levels, w: Staff, c: Name, caller: Name, oper: bool, target: Name, level: int)
      requires Valid() && Acyclic(acl.links) && caller in users
      modifies this
      ensures Valid() && acl == AccessAdded(lv, w, old(acl), c, caller, oper, target, level)
    {
      var granted := DecideAdd(lv, w, c, caller, oper, target, level);
      assert Holds(V(), Names);
      if granted {
        ReplaceEntry(lv, target, c, level, 0);
      }
    }

    method DecideAdd(lv: Levels, w: Staff, c: Name, caller: Name, oper: bool, target: Name, level: int)
      returns (granted: bool)
      requires Valid() && Acyclic(acl.links) && caller in users
      ensures granted == MayAdd(lv, w, acl, c, caller, oper, target, level)
    {
      assert Holds(V(), Names);
      if c !in chans || chans[c].info.axxflags || target !in users {
        return false;
      }
      var mine := GetFlag(w, c, caller);
      var theirs := GetFlag(w, c, target);
      var founder := IsFounder(w, c, caller);
      var strong := founder || oper;
      if !(strong || (mine >= lv.admin && theirs < mine && level < mine)) {
        return false;
      }
      if level >= CHLEV_OWNER || target == chans[c].info.owner {
        return false;
      }
      if level == CHLEV_COOWNER {
        var taken := HasLevelCoowner(c);
        return !taken;
      }
      return true;
    }

    /** The del branch of __chan_access. */
    method ChanAccessDel(lv: Levels, w: Staff, c: Name, caller: Name, self: bool, oper: bool, target: Name)
      requires Valid() && Acyclic(acl.links) && caller in users
      modifies this
      ensures Valid() && acl == AccessDeleted(lv, w, old(acl), c, caller, self, oper, target)
    {
      assert Holds(V(), Names);
      if c !in chans || chans[c].info.axxflags {
        return;
      }
      var mine := GetFlag(w, c, caller);
      if mine != 0 && self {
        DeleteUserFromChannel(caller, c);
        return;
      }
      var founder := IsFounder(w, c, caller);
      var strong := founder || oper;
      if !(mine >= lv.admin || strong) || target !in users {
        return;
      }
      var theirs := GetFlag(w, c, target);
      if theirs != 0 && (theirs < mine || strong) && target != chans[c].info.owner {
        DeleteUserFromChannel(target, c);
      }
    }

    /** The guards of chan_flags, up to the sign of the change. */
    method DecideFlags(lv: Levels, w: Staff, c: Name, caller: Name, target: Name, flags: bv32) returns (granted: bool)
      requires Valid() && Acyclic(acl.links) && caller in users
      ensures granted == PassesGuards(lv, w, acl, c, caller, target, flags)
    {
      assert Holds(V(), Names);
      if c !in chans || !chans[c].info.axxflags {
        return false;
      }
      var acls := ChannelCan(CanAcl, lv, w, c, caller);
      if !acls {
        acls := IsFounder(w, c, caller);
      }
      if !acls || target !in users || flags == 0 {
        return false;
      }
      var write := ChannelCanWriteAcl(w, c, caller, target);
      var reach := CanModifyUflag(w, c, caller, flags);
      return write && reach != Nobody && (reach == Oneself ==> caller == target);
    }

    /** chan_flags. */
    method ChanFlags(lv: Levels, w: Staff, c: Name, caller: Name, target: Name, plus: bool, flags: bv32)
      requires Valid() && Acyclic(acl.links) && caller in users
      modifies this
      ensures Valid() && acl == FlagsChanged(lv, w, old(acl), c, caller, target, plus, flags)
    {
      var granted := DecideFlags(lv, w, c, caller, target, flags);
      assert Holds(V(), Names);
      if !granted {
        return;
      }
      if plus {
        if Has(flags, COOWNER) {
          var coowner := GetCoowner(c);
          var owner := IsTrueOwner(c, target);
          if coowner.Some? || owner {
            return;
          }
        }
        RaiseFlags(lv, c, target, flags);
      } else {
        LowerFlags(lv, c, target, flags);
      }
    }

    method RaiseFlags(lv: Levels, c: Name, target: Name, flags: bv32)
      requires Valid() && c in chans && target in users
      modifies this
      ensures Valid() && acl == Edited(lv, old(acl), c, target, true, flags)
    {
      assert Holds(V(), Entries);
      var cflag := FindCflag(c, target);
      if cflag.None? {
        AddUserToChannel(lv, target, c, 0, flags);
      } else {
        var g := cflags[cflag.value].grant;
        SetGrant(cflag.value, g.(uflags := g.uflags | flags));
      }
    }

    method LowerFlags(ghost lv: Levels, c: Name, target: Name, flags: bv32)
      requires Valid() && c in chans && target in users
      modifies this
      ensures Valid() && acl == Edited(lv, old(acl), c, target, false, flags)
    {
      assert Holds(V(), Entries);
      var cflag := FindCflag(c, target);
      if cflag.None? {
        return;
      }
      var g := cflags[cflag.value].grant;
      var left := NewMask(g.uflags, false, flags);
      EditedDown(lv, acl, c, target, flags, left);
      SetGrant(cflag.value, g.(uflags := left));
      if left == 0 {
        DeleteUserFromChannel(target, c);
      }
    }

    method SetGrant(p: Ptr, g: Grant)
      requires Valid() && p in cflags
      modifies this
      ensures Valid() && users == old(users) && chans == old(chans)
      ensures acl == old(acl).(rel := old(acl).rel[Key(old(cflags)[p]) := g])
    {
      WithGrantKeeps(V(), p, g);
      var f := cflags[p];
      cflags := cflags[p := f.(grant := g)];
      acl := acl.(rel := acl.rel[Key(f) := g]);
    }

    /** DeleteLinks: goes through the links and deletes those that name the user. */
    method DeleteLinks(u: Name) returns (left: map<Name, Name>)
      ensures left == map s | s in links && s != u && links[s] != u :: links[s]
    {
      left := links;
      var rest := links.Keys;
      while rest != {}
        invariant rest <= links.Keys
        invariant left == map s | s in links && (s in rest || (s != u && links[s] != u)) :: links[s]
        decreases |rest|
      {
        var s :| s in rest;
        rest := rest - {s};
        if links[s] == u || s == u {
          left := left - {s};
        }
      }
    }

    /** The loop of userdrop over the channels. */
    method GiveAwayChannels(lv: Levels, u: Name) returns (ghost heir: map<Name, Name>)
      requires Valid() && Owned(acl) && u in users
      modifies this
      ensures Valid() && Heirs(old(acl), u, heir)
      ensures acl == Partly(old(acl), u, heir, old(acl).chans.Keys)
    {
      ghost var a, done: set<Name> := acl, {};
      heir := map[];
      NothingDone(a, u);
      assert Holds(V(), Names);
      var rest := chans.Keys;
      while rest != {}
        invariant Valid() && acl == Partly(a, u, heir, done) && done == a.chans.Keys - rest && rest <= a.chans.Keys
        invariant HeirsSoFar(a, u, heir, done)
        decreases |rest|
      {
        var c :| c in rest;
        heir := GiveAway(lv, u, c, a, heir, done);
        OneMoreDone(a.chans.Keys, rest, c);
        rest, done := rest - {c}, done + {c};
      }
      assert a.chans.Keys - {} == a.chans.Keys;
    }

    /** One turn of the loop of userdrop. */
    method GiveAway(lv: Levels, u: Name, c: Name, ghost a: Acl, ghost before: map<Name, Name>, ghost done: set<Name>)
      returns (ghost heir: map<Name, Name>)
      requires Valid() && acl == Partly(a, u, before, done) && c in a.chans && c !in done
      requires HeirsSoFar(a, u, before, done)
      modifies this
      ensures Valid() && acl == Partly(a, u, heir, done + {c}) && HeirsSoFar(a, u, heir, done + {c})
    {
      heir := before;
      StillThere(V(), a, u, heir, done, c);
      if chans[c].info.owner != u {
        PartlySkips(a, u, heir, done, c);
        HeirsStay(a, u, heir, done, c);
        return;
      }
      var uptr2 := GetCoowner(c);
      if uptr2.Some? {
        PartlyPromotes(a, u, heir, done, c, uptr2.value);
        HeirFound(a, u, heir, done, c, uptr2.value);
        Promote(lv, c, uptr2.value);
        heir := heir[c := uptr2.value];
      } else {
        PartlyDrops(a, u, heir, done, c);
        HeirsStay(a, u, heir, done, c);
        Chandrop(c);
      }
    }

    /** The co-owner takes a channel over. */
    method Promote(lv: Levels, c: Name, co: Name)
      requires Valid() && c in chans && c in acl.chans && co in users
      modifies this
      ensures Valid() && acl == Promoted(old(acl), c, co)
    {
      OwnerFlags(lv, 0);
      ReplaceEntry(lv, co, c, CHLEV_OWNER, CHANOWNER);
      assert Holds(V(), Names);
      SetOwner(c, co);
    }

    /** userdrop, and the part of DeleteAccount that concerns the registries. */
    method Userdrop(lv: Levels, u: Name) returns (ghost heir: map<Name, Name>)
      requires Valid() && Owned(acl) && u in users
      modifies this
      ensures Valid() && Heirs(old(acl), u, heir) && acl == UserDropped(old(acl), u, heir)
      ensures Owned(acl)
    {
      ghost var a := acl;
      assert Holds(V(), Names);
      heir := GiveAwayChannels(lv, u);
      PartlyLinks(V(), a, u, heir);
      var left := DeleteLinks(u);
      PartlyDone(a, u, heir, left);
      ghost var v := V();
      UserCleared(v, u);
      DeleteUserFromChannels(u);
      WithoutUserKeeps(V(), u, left);
      users, links := users - {u}, left;
      acl := acl.(users := acl.users - {u}, links := left);
      UserDroppedKeeps(a, u, heir);
    }
  }

  predicate Coowns(g: Grant) {
    Has(g.uflags, COOWNER) || g.level == CHLEV_COOWNER
  }

  function FirstCoowner(cflags: map<Ptr, Cflag>, list: seq<Ptr>): Option<Name> {
    if list == [] then None
    else if list[0] in cflags && Coowns(cflags[list[0]].grant) then Some(cflags[list[0]].user)
    else FirstCoowner(cflags, list[1..])
  }

  /** The entries of a channel are those on its list. */
  lemma EntriesListed(v: View, c: Name)
    requires Consistent(v) && c in v.chans
    ensures forall p :: p in v.chans[c].cflags ==>
      p in v.cflags && (c, v.cflags[p].user) in v.acl.rel && v.acl.rel[(c, v.cflags[p].user)] == v.cflags[p].grant
      && v.cflags[p].user in v.acl.users
    ensures forall u :: (c, u) in v.acl.rel ==>
      (c, u) in v.at && v.at[(c, u)] in v.chans[c].cflags && v.cflags[v.at[(c, u)]].grant == v.acl.rel[(c, u)]
  {
    assert Holds(v, Chans) && Holds(v, Law.Users) && Holds(v, Entries) && Holds(v, Names);
    forall p | p in v.chans[c].cflags
      ensures p in v.cflags && Key(v.cflags[p]) == (c, v.cflags[p].user)
    {
    }
  }

  /** The co-owners of a channel are the users of the entries on its list that say so. */
  lemma CoownersListed(v: View, c: Name)
    requires Consistent(v) && c in v.chans
    ensures forall p :: p in v.chans[c].cflags ==>
      p in v.cflags && v.cflags[p].user in v.users
      && (IsCoowner(v.acl, c, v.cflags[p].user) <==> Coowns(v.cflags[p].grant))
    ensures forall u :: IsCoowner(v.acl, c, u) ==>
      (c, u) in v.at && v.at[(c, u)] in v.chans[c].cflags && v.cflags[v.at[(c, u)]].user == u
  {
    assert Holds(v, Chans) && Holds(v, Law.Users) && Holds(v, Entries);
    forall p | p in v.chans[c].cflags
      ensures p in v.cflags && Key(v.cflags[p]) == (c, v.cflags[p].user)
    {
    }
  }

  lemma ChanListSound(v: View, c: Name)
    requires Consistent(v) && c in v.chans
    ensures NoDup(v.chans[c].cflags) && forall p :: p in v.chans[c].cflags ==> p in v.cflags
  {
    assert Holds(v, Chans);
  }

  lemma UserListSound(v: View, u: Name)
    requires Consistent(v) && u in v.users
    ensures NoDup(v.users[u]) && forall p :: p in v.users[u] ==> p in v.cflags
  {
    assert Holds(v, Law.Users);
  }

  lemma HeadOfChan(v: View, c: Name, done: set<Ptr>, now: View)
    requires Consistent(now) && now == Without(v, done) && c in now.chans && now.chans[c].cflags != []
    requires done == Elements(v.chans[c].cflags) - Elements(now.chans[c].cflags)
    ensures var p, rest := now.chans[c].cflags[0], now.chans[c].cflags;
      && p in now.cflags
      && Without(now, {p}) == Without(v, done + {p})
      && Without(now, {p}).chans[c].cflags == rest[1..]
      && done + {p} == Elements(v.chans[c].cflags) - Elements(rest[1..])
  {
    ChanListSound(now, c);
    WithoutTwice(v, done, {now.chans[c].cflags[0]});
    HeadLeaves(v.chans[c].cflags, done, now.chans[c].cflags);
  }

  lemma HeadOfUser(v: View, u: Name, done: set<Ptr>, now: View)
    requires Consistent(now) && now == Without(v, done) && u in now.users && now.users[u] != []
    requires done == Elements(v.users[u]) - Elements(now.users[u])
    ensures var p, rest := now.users[u][0], now.users[u];
      && p in now.cflags
      && Without(now, {p}) == Without(v, done + {p})
      && Without(now, {p}).users[u] == rest[1..]
      && done + {p} == Elements(v.users[u]) - Elements(rest[1..])
  {
    UserListSound(now, u);
    WithoutTwice(v, done, {now.users[u][0]});
    HeadLeaves(v.users[u], done, now.users[u]);
  }

  lemma HeadLeaves(all: seq<Ptr>, done: set<Ptr>, rest: seq<Ptr>)
    requires NoDup(rest) && rest != [] && rest == Minus(all, done) && done == Elements(all) - Elements(rest)
    ensures rest[0] in rest && Minus(rest, {rest[0]}) == rest[1..]
    ensures done + {rest[0]} == Elements(all) - Elements(rest[1..])
  {
    MinusFirst(rest);
    MinusMember(all, done);
    assert rest[0] in rest;
    HeadAndTail(rest, Elements(all));
  }

  /** A name that is not a channel is in no pair. */
  lemma NoEntries(v: View, c: Name, u: Name)
    requires Consistent(v) && c !in v.chans
    ensures (c, u) !in v.acl.rel
  {
    assert Holds(v, Chans) && Holds(v, Entries);
  }

  lemma OneMoreDone(all: set<Name>, rest: set<Name>, c: Name)
    requires rest <= all && c in rest
    ensures all - (rest - {c}) == (all - rest) + {c}
  {
  }

  /** Heirs of the channels gone through so far. */
  ghost predicate HeirsSoFar(a: Acl, u: Name, heir: map<Name, Name>, done: set<Name>) {
    && (forall c :: c in heir ==>
      c in done && c in a.chans && a.chans[c].owner == u && heir[c] in a.users && IsCoowner(a, c, heir[c]))
    && (forall c, v :: c in done && c in a.chans && a.chans[c].owner == u && v in a.users && IsCoowner(a, c, v) ==> c in heir)
  }

  lemma HeirFound(a: Acl, u: Name, heir: map<Name, Name>, done: set<Name>, c: Name, co: Name)
    requires HeirsSoFar(a, u, heir, done) && c in a.chans && a.chans[c].owner == u && co in a.users && IsCoowner(a, c, co)
    ensures HeirsSoFar(a, u, heir[c := co], done + {c})
  {
  }

  lemma HeirsStay(a: Acl, u: Name, heir: map<Name, Name>, done: set<Name>, c: Name)
    requires HeirsSoFar(a, u, heir, done) && c in a.chans
    requires a.chans[c].owner == u ==> forall v :: v in a.users ==> !IsCoowner(a, c, v)
    ensures HeirsSoFar(a, u, heir, done + {c})
  {
  }

  /** A channel that has not been gone through yet is as it was. */
  lemma StillThere(v: View, a: Acl, u: Name, heir: map<Name, Name>, done: set<Name>, c: Name)
    requires Consistent(v) && v.acl == Partly(a, u, heir, done) && c in a.chans && c !in done
    requires HeirsSoFar(a, u, heir, done)
    ensures c in v.chans && v.chans[c].info == a.chans[c] && v.users.Keys == a.users && c in v.acl.chans && c !in heir
    ensures forall w :: IsCoowner(v.acl, c, w) <==> IsCoowner(a, c, w)
  {
    assert Holds(v, Names);
  }

  lemma PartlyLinks(v: View, a: Acl, u: Name, heir: map<Name, Name>)
    requires Consistent(v) && v.acl == Partly(a, u, heir, a.chans.Keys) && u in a.users
    ensures v.links == a.links && u in v.users
  {
    assert Holds(v, Names);
  }
}
