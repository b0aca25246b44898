/** Who passes which check, and what a command then does to the access relation: for every command exactly. */
module Decisions {
  import opened Wrappers
  import opened Uflags
  import opened Access
  import opened Ownership
  import opened FlagRuns
  import opened AccessRuns

  // ----- Checks, decided by the first holder on the chain.

  /** A true owner is one whose chain of masters first meets the owner of the channel. */
  lemma {:induction false} TrueOwnerExactly(a: Acl, c: Name, u: Name)
    requires Owned(a) && Acyclic(a.links) && c in a.chans
    ensures IsTrueOwner(a, c, u) <==> FindCflagRecursive(a, c, u) == Some(a.chans[c].owner)
    decreases Height(a.links, u)
  {
    MasterDescends(a, u);
    assert HasOwner(a, c);
    if (c, u) in a.rel {
      assert OnlyOwner(a, (c, u));
    } else if Master(a, u).Some? {
      NoSelfMaster(a, u);
      TrueOwnerExactly(a, c, Master(a, u).value);
    }
  }

  /** A link to a name that is no account leads nowhere. */
  lemma LinkToNobody(a: Acl, c: Name, u: Name)
    requires Acyclic(a.links) && u in a.links && a.links[u] !in a.users
    ensures Chain(a, u) == [u]
    ensures FindCflagRecursive(a, c, u) == if (c, u) in a.rel then Some(u) else None
  {
  }

  lemma NoSelfMaster(a: Acl, u: Name)
    requires Acyclic(a.links)
    ensures Master(a, u) != Some(u)
  {
    MasterDescends(a, u);
  }

  /** The level of a user: the highest one for whoever is or is linked below a nick with the mode, unless the channel is
      suspended and it is not the nick's own; or else that of the entry found, unless that is suspended. */
  lemma {:induction false} LevelDecidedBy(a: Acl, w: Staff, c: Name, u: Name)
    requires Acyclic(a.links) && c in a.chans
    ensures var found, modes := FindCflagRecursive(a, c, u), Staff(w.supermodes, w.supermodes);
      GetFlag(a, w, c, u) ==
        if u in w.supermodes then CHLEV_OWNER
        else if a.chans[c].suspended then 0
        else if Overruled(a, modes, c, u) then CHLEV_OWNER
        else if found.Some? && (c, found.value) in a.rel && !a.rel[(c, found.value)].suspended
        then a.rel[(c, found.value)].level
        else 0
    decreases Height(a.links, u)
  {
    var modes := Staff(w.supermodes, w.supermodes);
    MasterDescends(a, u);
    OverruledStep(a, modes, c, u);
    if (c, u) !in a.rel && Master(a, u).Some? {
      NoSelfMaster(a, u);
      LevelDecidedBy(a, w, c, Master(a, u).value);
      OwnMode(a, modes, c, Master(a, u).value);
    }
  }

  lemma OwnMode(a: Acl, w: Staff, c: Name, u: Name)
    requires Acyclic(a.links)
    ensures u in w.superadmins ==> Overruled(a, w, c, u)
  {
    OverruledStep(a, w, c, u);
  }

  /** How high the flags put their holder: F above f above p. */
  function Rank(mask: bv32): nat {
    if Has(mask, OWNER) then 3 else if Has(mask, COOWNER) then 2 else if Has(mask, PROTECT) then 1 else 0
  }

  lemma OutranksByRank(m: bv32, n: bv32)
    ensures Outranks(m, n) <==> Rank(n) == 0 || (Rank(m) >= 2 && Rank(n) <= Rank(m))
  {
    HasEither(n, OWNER | COOWNER, PROTECT);
    HasEither(n, OWNER, COOWNER);
    HasEither(m, OWNER | COOWNER, PROTECT);
    HasEither(m, OWNER, COOWNER);
  }

  /** The entry lets its holder write that of the target. */
  predicate MayWrite(a: Acl, w: Staff, c: Name, u: Name, target: Name)
    requires c in a.chans && (c, u) in a.rel
  {
    var m, n := a.rel[(c, u)].uflags, Mask(a, c, target);
    && !a.rel[(c, u)].suspended
    && (u in w.supermodes || Founds(a, c, u)
      || (Has(m, ACL) && (u == target || Rank(n) == 0 || (Rank(m) >= 2 && Rank(n) <= Rank(m)))))
  }

  lemma OwnEntryWrites(a: Acl, w: Staff, c: Name, u: Name, target: Name)
    requires Acyclic(a.links) && c in a.chans && (c, u) in a.rel && u !in w.superadmins
    ensures ChannelCanWriteAcl(a, w, c, u, target) <==> MayWrite(a, w, c, u, target)
  {
    OutranksByRank(a.rel[(c, u)].uflags, Mask(a, c, target));
    assert Rank(0) == 0;
  }

  /** Writing entries is decided by the entry found, by rank, unless a super administrator comes first on the chain. */
  lemma {:induction false} WriteAclDecidedBy(a: Acl, w: Staff, c: Name, source: Name, target: Name)
    requires Acyclic(a.links) && c in a.chans
    ensures var found := FindCflagRecursive(a, c, source);
      ChannelCanWriteAcl(a, w, c, source, target) <==>
        Overruled(a, w, c, source)
        || (found.Some? && (c, found.value) in a.rel && MayWrite(a, w, c, found.value, target))
    decreases Height(a.links, source)
  {
    MasterDescends(a, source);
    OverruledStep(a, w, c, source);
    if (c, source) in a.rel {
      if source !in w.superadmins {
        OwnEntryWrites(a, w, c, source, target);
      }
    } else if Master(a, source).Some? {
      NoSelfMaster(a, source);
      WriteAclDecidedBy(a, w, c, Master(a, source).value, target);
    }
  }

  // ----- Level mode and flag mode.

  predicate Ordered(lv: Levels) {
    CHLEV_COOWNER > lv.sadmin >= lv.admin >= lv.op >= lv.halfop >= lv.voice >= lv.invite
  }

  /** An entry made with a level allows the same in level mode and, by the flags it was given, in flag mode, with one
      exception: half ops may change the topic in flag mode only. */
  lemma ModesAgree(lv: Levels, p: Privilege, level: int)
    requires Ordered(lv) && level <= CHLEV_OWNER
    ensures (level >= Level(lv, p) <==> Has(NewGrant(lv, level, 0).uflags, Flags(p) | OWNER | COOWNER)) <==>
      !(p == CanTopic && lv.halfop <= level < lv.op)
  {
    MaskPrivileges(p);
  }

  /** A level too low for any privilege stands for being refused op, kicked or banned; and so does, by the last branch, a
      level from 0 up to that for invitations, whose entry has the flag of those who are kicked and banned. */
  lemma LowLevels(lv: Levels, level: int)
    requires Ordered(lv) && lv.invite >= 0 >= lv.nostatus >= lv.akick && level <= CHLEV_OWNER
    ensures var m := NewGrant(lv, level, 0).uflags;
      && (Has(m, NOOP) <==> lv.nostatus <= level < 0)
      && (Has(m, AUTOKICK) <==> lv.akick <= level < lv.nostatus)
      && (Has(m, AUTOKICKBAN) <==> level < lv.akick || 0 <= level < lv.invite)
      && (Has(m, INVITE) <==> level >= lv.invite)
  {
  }

  /** What the masks of the levels allow, strongest first. */
  lemma MaskPrivileges(p: Privilege)
    ensures Has(CHANOWNER, Flags(p) | OWNER | COOWNER) && Has(CHANCOOWNER, Flags(p) | OWNER | COOWNER)
    ensures Has(CHANSADMIN, Flags(p) | OWNER | COOWNER)
    ensures Has(CHANADMIN, Flags(p) | OWNER | COOWNER) <==> p != CanSet
    ensures Has(CHANOP, Flags(p) | OWNER | COOWNER) <==> p !in {CanSet, CanAcl, CanProtect}
    ensures Has(CHANHALFOP, Flags(p) | OWNER | COOWNER) <==> p in {CanHalfop, CanVoice, CanInvite, CanTopic}
    ensures Has(CHANVOICE, Flags(p) | OWNER | COOWNER) <==> p in {CanVoice, CanInvite}
    ensures Has(INVITE, Flags(p) | OWNER | COOWNER) <==> p == CanInvite
    ensures !Has(NOOP, Flags(p) | OWNER | COOWNER) && !Has(AUTOKICK, Flags(p) | OWNER | COOWNER)
    ensures !Has(AUTOKICKBAN, Flags(p) | OWNER | COOWNER)
  {
    match p {
      case CanProtect => case CanOp => case CanHalfop => case CanVoice =>
      case CanInvite => case CanSet => case CanTopic => case CanAcl =>
    }
  }

  /** The letters one of which is enough, beside F and f. */
  function LettersFor(p: Privilege): string {
    match p
    case CanProtect => "p"
    case CanOp => "o"
    case CanHalfop => "h" + "o"
    case CanVoice => "v" + "h" + "o"
    case CanInvite => "i"
    case CanSet => "s"
    case CanTopic => "t"
    case CanAcl => "x"
  }

  lemma FlagsByLetters(p: Privilege)
    ensures Flags(p) == Parsed(LettersFor(p))
  {
    forall letter
      ensures Parsed([letter]) == Flag(letter)
    {
      ParsedOne(letter);
    }
    ParsedJoin("h", "o");
    ParsedJoin("v" + "h", "o");
    ParsedJoin("v", "h");
  }

  // ----- Founders.

  /** A founder is changed exactly when the new one is registered and the caller is an operator of sufficient level or its
      chain meets the owner first; then the owner's entry goes and the new one's is that of an owner. */
  lemma FounderSetExactly(lv: Levels, w: Staff, a: Acl, c: Name, caller: Name, oper: bool, target: Name)
    requires Sound(a) && c in a.chans
    ensures var t, owner := Step(lv, w, a, SetFounder(c, caller, oper, target)), a.chans[c].owner;
      var passes := target in a.users && (oper || FindCflagRecursive(a, c, caller) == Some(owner));
      && (!passes ==> t == a)
      && (passes ==>
        && t.users == a.users && t.links == a.links && t.chans == a.chans[c := a.chans[c].(owner := target)]
        && (forall k :: k in t.rel <==> k == (c, target) || (k in a.rel && k != (c, owner)))
        && (forall k :: k in t.rel ==> t.rel[k] == if k == (c, target) then Grant(10000, CHANOWNER, 1, false) else a.rel[k]))
  {
    TrueOwnerExactly(a, c, caller);
  }

  /** The event makes `o` the owner of the channel: it registers the channel, it is a founder change by an operator or
      by one whose chain meets the owner first, or the owner is dropped and this is the heir. */
  predicate MakesOwner(a: Acl, ev: Event, c: Name, o: Name)
    requires Acyclic(a.links)
  {
    match ev
    case RegisterChannel(d, u) => c == d && o == u && c !in a.chans
    case SetFounder(d, caller, oper, target) =>
      c == d && o == target && c in a.chans && target in a.users
      && (oper || FindCflagRecursive(a, c, caller) == Some(a.chans[c].owner))
    case DropAccount(u, heir) => c in a.chans && a.chans[c].owner == u && c in heir && heir[c] == o
    case _ => false
  }

  /** The channel goes: it is dropped, or its owner is without a co-owner. */
  predicate Closes(a: Acl, ev: Event, c: Name) {
    match ev
    case DropChannel(d) => c == d
    case DropAccount(u, heir) => c in a.chans && a.chans[c].owner == u && c !in heir
    case _ => false
  }

  /** Channels come and go, and their owners change, by these events and by no other. */
  lemma OwnersExactly(lv: Levels, w: Staff, a: Acl, ev: Event, c: Name)
    requires Sound(a) && Allowed(w, a, ev)
    ensures var t := Step(lv, w, a, ev);
      && (c in t.chans <==> (c in a.chans && !Closes(a, ev, c)) || (ev.RegisterChannel? && ev.c == c))
      && (c in t.chans ==> forall o :: t.chans[c].owner == o <==>
        MakesOwner(a, ev, c, o) || (c in a.chans && a.chans[c].owner == o && forall p :: !MakesOwner(a, ev, c, p)))
  {
    ChannelsAfter(lv, w, a, ev, c);
    if c in Step(lv, w, a, ev).chans {
      OwnerAfter(lv, w, a, ev, c);
    }
  }

  lemma ChannelsAfter(lv: Levels, w: Staff, a: Acl, ev: Event, c: Name)
    requires Sound(a) && Allowed(w, a, ev)
    ensures c in Step(lv, w, a, ev).chans <==> (c in a.chans && !Closes(a, ev, c)) || (ev.RegisterChannel? && ev.c == c)
  {
    if !ev.SetFounder? && !ev.RegisterChannel? && !ev.DropAccount? && !ev.DropChannel? {
      SameChannelOwners(lv, w, a, ev);
    }
  }

  lemma OwnerAfter(lv: Levels, w: Staff, a: Acl, ev: Event, c: Name)
    requires Sound(a) && Allowed(w, a, ev) && c in Step(lv, w, a, ev).chans
    ensures var o := Step(lv, w, a, ev).chans[c].owner;
      MakesOwner(a, ev, c, o) || (c in a.chans && a.chans[c].owner == o && forall p :: !MakesOwner(a, ev, c, p))
    ensures forall o :: MakesOwner(a, ev, c, o) ==> o == Step(lv, w, a, ev).chans[c].owner
  {
    if ev.SetFounder? && ev.c in a.chans {
      FounderSetExactly(lv, w, a, ev.c, ev.caller, ev.oper, ev.target);
    } else if !ev.SetFounder? && !ev.RegisterChannel? && !ev.DropAccount? && !ev.DropChannel? {
      SameChannelOwners(lv, w, a, ev);
    }
  }

  /** The other events leave the channels and their owners. */
  lemma SameChannelOwners(lv: Levels, w: Staff, a: Acl, ev: Event)
    requires Acyclic(a.links) && !ev.SetFounder? && !ev.RegisterChannel? && !ev.DropAccount? && !ev.DropChannel?
    ensures var t := Step(lv, w, a, ev);
      t.chans.Keys == a.chans.Keys && forall c :: c in a.chans ==> t.chans[c].owner == a.chans[c].owner
  {
  }

  /** An event of the run has made `o` the owner. */
  ghost predicate MadeOwnerDuring(a: Acl, run: seq<Moment>, c: Name, o: Name)
    requires Sound(a) && Possible(a, run)
    decreases |run|
  {
    run != []
    && (MakesOwner(a, run[0].ev, c, o) || (NextSound(a, run); MadeOwnerDuring(Next(a, run[0]), run[1..], c, o)))
  }

  /** Whoever owns a channel at the end of a run owned it at the beginning or was made its owner on the way. */
  lemma {:induction false} OwnerHasOrigin(a: Acl, run: seq<Moment>, c: Name)
    requires Sound(a) && Possible(a, run) && c in AccessRuns.After(a, run).chans
    ensures var o := AccessRuns.After(a, run).chans[c].owner;
      (c in a.chans && a.chans[c].owner == o) || MadeOwnerDuring(a, run, c, o)
    decreases |run|
  {
    if run != [] {
      NextSound(a, run);
      OwnerHasOrigin(Next(a, run[0]), run[1..], c);
      var t, o := Next(a, run[0]), AccessRuns.After(a, run).chans[c].owner;
      if c in t.chans && t.chans[c].owner == o {
        OwnerAfter(run[0].lv, run[0].w, a, run[0].ev, c);
      }
    }
  }

  // ----- Flag commands.

  /** A caller with the flags `z` may change the reserved ones among `flags`: f and w with F, or with f its own; p with F
      or f; P with F or f, or with p its own; x and s with F, f or p; F nobody. */
  predicate MayName(z: bv32, self: bool, flags: bv32) {
    && !Has(flags, OWNER)
    && (Has(flags, COOWNER) || Has(flags, AUTOOWNER) ==> Rank(z) == 3 || (Has(z, COOWNER) && self))
    && (Has(flags, PROTECT) ==> Rank(z) >= 2)
    && (Has(flags, AUTOPROTECT) ==> Rank(z) >= 2 || (Has(z, PROTECT) && self))
    && (Has(flags, ACL) || Has(flags, SET) ==> Rank(z) >= 1)
  }

  lemma ReachByRank(z: bv32, self: bool, flags: bv32)
    ensures ReachOf(z, flags) != Nobody && (ReachOf(z, flags) == Oneself ==> self) <==> MayName(z, self, flags)
  {
    HasEither(flags, COOWNER, AUTOOWNER);
    HasEither(z, OWNER | COOWNER, PROTECT);
    HasEither(z, OWNER, COOWNER);
  }

  /** An entry with f, or with the level that goes with it. */
  predicate Coowns(g: Grant) {
    Has(g.uflags, COOWNER) || g.level == 9999
  }

  /** All a caller needs for a flag command, and no more: to be an identified super administrator, or an entry of its own
      that is not suspended, with F, f or x; without F and f a target that has none of F, f and p or is itself, unless it
      has the mode; and the flags that go with its own. Nobody may become a second co-owner, or the owner one. */
  predicate MayCommand(w: Staff, a: Acl, c: Name, caller: Name, target: Name, plus: bool, flags: bv32)
    requires c in a.chans && Acyclic(a.links)
  {
    var z := Mask(a, c, caller);
    && a.chans[c].axxflags && target in a.users && flags != 0
    && (caller in w.superadmins || (
      && (c, caller) in a.rel && !a.rel[(c, caller)].suspended
      && (caller in w.supermodes || Rank(z) >= 2 || (Has(z, ACL) && (caller == target || Rank(Mask(a, c, target)) == 0)))
      && MayName(z, caller == target, flags)))
    && (plus && Has(flags, COOWNER) ==>
      (forall v :: v in a.users && (c, v) in a.rel ==> !Coowns(a.rel[(c, v)])) && !IsTrueOwner(a, c, target))
  }

  lemma FlagCommandExactly(lv: Levels, w: Staff, a: Acl, c: Name, caller: Name, target: Name, plus: bool, flags: bv32)
    requires Acyclic(a.links) && c in a.chans
    ensures MayChange(lv, w, a, c, caller, target, plus, flags) <==> MayCommand(w, a, c, caller, target, plus, flags)
  {
    if caller !in w.superadmins && (c, caller) in a.rel {
      var z := a.rel[(c, caller)].uflags;
      OwnEntryWrites(a, w, c, caller, target);
      OwnEntrySays(CanAcl, lv, a, w, c, caller);
      HasAny(z, ACL);
      ReachByRank(z, caller == target, flags);
    }
  }

  /** A plus sets exactly the named flags, a minus clears them, and the others stay as they are. */
  lemma NamedFlags(m: bv32, plus: bool, flags: bv32)
    ensures NewMask(m, plus, flags) & flags == if plus then flags else 0
    ensures NewMask(m, plus, flags) & !flags == m & !flags
  {
    if plus {
      JoinNamed(m, flags);
      JoinOthers(m, flags);
    } else {
      ClearNamed(m, flags);
      ClearOthers(m, flags);
    }
  }

  lemma JoinNamed(m: bv32, flags: bv32)
    ensures (m | flags) & flags == flags
  {
  }

  lemma JoinOthers(m: bv32, flags: bv32)
    ensures (m | flags) & !flags == m & !flags
  {
  }

  lemma ClearNamed(m: bv32, flags: bv32)
    ensures (m & !flags) & flags == 0
  {
  }

  lemma ClearOthers(m: bv32, flags: bv32)
    ensures (m & !flags) & !flags == m & !flags
  {
  }

  /** What a flag command does: the target's entry has the named flags set or cleared, is made with them when there was
      none, and is gone when none are left; all else stays. */
  lemma FlagEffect(lv: Levels, w: Staff, a: Acl, c: Name, caller: Name, target: Name, plus: bool, flags: bv32)
    requires Acyclic(a.links) && c in a.chans
    ensures var t, k := Step(lv, w, a, ChangeFlags(c, caller, target, plus, flags)), (c, target);
      var m := NewMask(Mask(a, c, target), plus, flags);
      && t.users == a.users && t.chans == a.chans && t.links == a.links
      && (forall j :: j != k ==> (j in t.rel <==> j in a.rel) && (j in a.rel ==> t.rel[j] == a.rel[j]))
      && (!MayCommand(w, a, c, caller, target, plus, flags) ==> t == a)
      && (MayCommand(w, a, c, caller, target, plus, flags) ==>
        && (k in t.rel <==> m != 0 || (plus && k in a.rel))
        && (k in t.rel ==> t.rel[k] == if k in a.rel then a.rel[k].(uflags := m) else Grant(0, m, 1, false)))
  {
    FlagCommandExactly(lv, w, a, c, caller, target, plus, flags);
    FromNothing(flags);
  }

  // ----- Level mode.

  /** A caller to whom ranks do not matter. */
  predicate Strong(a: Acl, w: Staff, c: Name, caller: Name, oper: bool)
    requires Acyclic(a.links) && c in a.chans
  {
    var found := FindCflagRecursive(a, c, caller);
    oper || (found.Some? && (c, found.value) in a.rel && (found.value in w.supermodes || Founds(a, c, found.value)))
  }

  /** Who may be put at a level: with the level of an administrator of the channel, whoever is below the caller, and at a
      level below the caller; and for the strong anybody but the owner, below the level of an owner. There is at
      most one at the level of a co-owner. */
  lemma AddExactly(lv: Levels, w: Staff, a: Acl, c: Name, caller: Name, oper: bool, target: Name, level: int)
    requires Acyclic(a.links) && c in a.chans
    ensures var t, mine, theirs :=
        Step(lv, w, a, AddAccess(c, caller, oper, target, level)), GetFlag(a, w, c, caller), GetFlag(a, w, c, target);
      var passes := !a.chans[c].axxflags && target in a.users && level < 10000 && target != a.chans[c].owner
        && (level == 9999 ==> forall v :: v in a.users && (c, v) in a.rel ==> a.rel[(c, v)].level != 9999)
        && (Strong(a, w, c, caller, oper) || (lv.admin <= mine && theirs < mine && level < mine));
      && t == a.(rel := t.rel)
      && (forall k :: k in t.rel <==> k in a.rel || (passes && k == (c, target)))
      && (forall k :: k in t.rel ==>
        t.rel[k] == (if passes && k == (c, target) then Grant(level, FlagsOfLevel(lv, level), 1, false) else a.rel[k]))
  {
    FounderDecidedBy(a, w, c, caller);
  }

  /** Who may be taken off: with some level whoever gives its own nick; and otherwise as above whoever has a level. */
  lemma DeleteExactly(lv: Levels, w: Staff, a: Acl, c: Name, caller: Name, self: bool, oper: bool, target: Name)
    requires Acyclic(a.links) && c in a.chans
    ensures var t, mine, theirs :=
        Step(lv, w, a, DelAccess(c, caller, self, oper, target)), GetFlag(a, w, c, caller), GetFlag(a, w, c, target);
      var passes := target in a.users && theirs != 0 && target != a.chans[c].owner
        && (Strong(a, w, c, caller, oper) || (lv.admin <= mine && theirs < mine));
      t == a.(rel :=
        if a.chans[c].axxflags then a.rel
        else if self && mine != 0 then a.rel - {(c, caller)}
        else if passes then a.rel - {(c, target)}
        else a.rel)
  {
    FounderDecidedBy(a, w, c, caller);
  }

  /** Modes are changed by founders only. */
  lemma AxxflagsExactly(lv: Levels, w: Staff, a: Acl, c: Name, caller: Name, on: bool)
    requires Acyclic(a.links) && c in a.chans
    ensures var t := Step(lv, w, a, SetAxxflags(c, caller, on));
      && t == a.(chans := t.chans) && t.chans.Keys == a.chans.Keys
      && (forall d :: d in a.chans ==>
        t.chans[d] == (if d == c && Strong(a, w, c, caller, false) then a.chans[d].(axxflags := on) else a.chans[d]))
  {
    FounderDecidedBy(a, w, c, caller);
  }

  // ----- Links and users.

  /** A name is linked to a master exactly when the master is another account, the name has none yet, and the master is not
      linked to it. */
  lemma LinkExactly(lv: Levels, w: Staff, a: Acl, slave: Name, master: Name)
    requires Acyclic(a.links)
    ensures var t := Step(lv, w, a, Link(slave, master));
      var passes :=
        slave != master && master in a.users && slave !in a.links && (master in a.links ==> a.links[master] != slave);
      && t == a.(links := t.links)
      && (forall s :: s in t.links <==> s in a.links || (passes && s == slave))
      && (forall s :: s in t.links ==> t.links[s] == (if passes && s == slave then master else a.links[s]))
  {
  }

  /** After userdrop a channel of somebody else has lost the user's entry and nothing else; a channel of the user is gone
      or belongs to the heir, whose entry is then that of an owner, while the other entries stay. */
  lemma UserDroppedExactly(lv: Levels, w: Staff, a: Acl, u: Name, heir: map<Name, Name>, c: Name)
    requires Sound(a) && Heirs(a, u, heir) && c in a.chans
    ensures var t, own := Step(lv, w, a, DropAccount(u, heir)), a.chans[c].owner == u;
      && (c in t.chans <==> !own || exists v :: v in a.users && (c, v) in a.rel && Coowns(a.rel[(c, v)]))
      && (c in t.chans ==> t.chans[c].(owner := u) == a.chans[c].(owner := u))
      && (c in t.chans ==>
        var k := (c, t.chans[c].owner); if own then k in a.rel && Coowns(a.rel[k]) else k.1 == a.chans[c].owner)
      && (forall v :: (c, v) in t.rel <==> c in t.chans && v != u && (c, v) in a.rel)
      && (forall v :: (c, v) in t.rel ==>
        t.rel[(c, v)] == if own && v == t.chans[c].owner then Grant(10000, CHANOWNER, 1, false) else a.rel[(c, v)])
  {
    assert forall v :: IsCoowner(a, c, v) <==> (c, v) in a.rel && Coowns(a.rel[(c, v)]);
    if c in heir {
      assert IsCoowner(a, c, heir[c]);
    }
  }

  /** A suspension of an entry, and its end. */
  lemma EntrySuspendedExactly(lv: Levels, w: Staff, a: Acl, c: Name, target: Name, on: bool)
    requires Acyclic(a.links)
    ensures var t := Step(lv, w, a, SuspendEntry(c, target, on));
      && t == a.(rel := t.rel) && t.rel.Keys == a.rel.Keys
      && (forall k :: k in a.rel ==> t.rel[k] == a.rel[k].(suspended := if k == (c, target) then on else a.rel[k].suspended))
  {
  }

  /** A new channel is in flag mode and has the one entry of its owner; a channel that goes takes its entries along. */
  lemma CreatedExactly(lv: Levels, w: Staff, a: Acl, c: Name, u: Name)
    requires Sound(a) && c !in a.chans && u in a.users
    ensures var t := Step(lv, w, a, RegisterChannel(c, u));
      && t == a.(chans := a.chans[c := Info(u, true, false)], rel := t.rel)
      && (forall k :: k in t.rel <==> k in a.rel || k == (c, u))
      && (forall k :: k in t.rel ==> t.rel[k] == if k == (c, u) then Grant(10000, CHANOWNER, 1, false) else a.rel[k])
      && Step(lv, w, t, DropChannel(c)) == a
  {
    assert ChanDropped(Created(a, c, u), c).rel == a.rel;
    assert ChanDropped(Created(a, c, u), c).chans == a.chans;
  }

  /** Accounts come and go by these events and by no other, and so do links: one goes with its slave, with either of its
      ends, and with nothing else. */
  lemma AccountsExactly(lv: Levels, w: Staff, a: Acl, ev: Event)
    requires Acyclic(a.links)
    ensures var t := Step(lv, w, a, ev);
      && (forall u :: u in t.users <==> (u in a.users || (ev.AddAccount? && ev.u == u)) && !(ev.DropAccount? && ev.u == u))
      && (forall s :: s in a.links ==>
        (s in t.links <==> !(ev.Unlink? && ev.slave == s) && !(ev.DropAccount? && ev.u in {s, a.links[s]}))
        && (s in t.links ==> t.links[s] == a.links[s]))
      && (!ev.Link? ==> t.links.Keys <= a.links.Keys)
  {
  }
}
