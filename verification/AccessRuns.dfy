/** Runs of commands on channels, accounts and links: a channel always has exactly one owner. */
module AccessRuns {
  import opened Wrappers
  import opened Uflags
  import opened Access
  import opened Ownership
  import opened FlagRuns

  // ----- Links.

  /** nick_link, and the test that it makes. */
  function NickLinked(a: Acl, slave: Name, master: Name): Acl {
    if slave == master || master !in a.users || slave in a.links || (master in a.links && a.links[master] == slave) then a
    else a.(links := a.links[slave := master])
  }

  lemma {:induction false} ChainRanked(a: Acl, u: Name, v: Name, rank: map<Name, nat>)
    requires Acyclic(a.links) && u !in a.links && u in Chain(a, v) && v != u
    requires forall s :: s in a.links && (a.links[s] in a.links || a.links[s] == u) ==>
      s in rank && a.links[s] in rank && rank[a.links[s]] < rank[s]
    ensures v in a.links && u in rank && v in rank && rank[u] < rank[v]
    decreases Height(a.links, v)
  {
    MasterDescends(a, v);
    var m := Master(a, v).value;
    assert Chain(a, v)[1..] == Chain(a, m);
    if m != u {
      ChainRanked(a, u, m, rank);
    }
  }

  /** Linking an unlinked name to a master makes a cycle exactly when the name is already among the masters of its
      new master. */
  lemma LinkKeepsAcyclic(a: Acl, slave: Name, master: Name)
    requires Acyclic(a.links) && slave !in a.links && master in a.users && (forall s :: s in a.links ==> a.links[s] in a.users)
    ensures Acyclic(a.links[slave := master]) <==> slave !in Chain(a, master)
  {
    var more := a.links[slave := master];
    if slave in Chain(a, master) {
      forall rank: map<Name, nat> | Ranked(more, rank)
        ensures false
      {
        assert more[slave] == master;
        if slave != master {
          forall s | s in a.links && (a.links[s] in a.links || a.links[s] == slave)
            ensures s in rank && a.links[s] in rank && rank[a.links[s]] < rank[s]
          {
            assert s != slave && more[s] == a.links[s];
          }
          ChainRanked(a, slave, master, rank);
        }
      }
    } else {
      var up := Height(a.links, master) + 1;
      var rank := map s | s in more :: Height(a.links, s) + if slave in Chain(a, s) then up else 0;
      forall s | s in more && more[s] in more
        ensures rank[more[s]] < rank[s]
      {
        if s != slave {
          assert Master(a, s) == Some(a.links[s]);
          MasterDescends(a, s);
          assert Chain(a, s)[1..] == Chain(a, a.links[s]);
          assert Chain(a, s) == [s] + Chain(a, a.links[s]);
        } else {
          assert slave in Chain(a, slave);
        }
      }
      assert Ranked(more, rank);
    }
  }

  /** The test of nick_link is not enough: three names can be linked in a circle. */
  lemma CircleOfThree()
    ensures var users := {"a", "b", "c"};
      var start := Acl(users, map[], map[], map[]);
      var two := NickLinked(NickLinked(start, "a", "b"), "b", "c");
      && Acyclic(two.links)
      && NickLinked(two, "c", "a").links == map["a" := "b", "b" := "c", "c" := "a"]
      && !Acyclic(NickLinked(two, "c", "a").links)
  {
    var start := Acl({"a", "b", "c"}, map[], map[], map[]);
    var two := NickLinked(NickLinked(start, "a", "b"), "b", "c");
    var rank: map<Name, nat> := map["a" := 1, "b" := 0];
    assert Ranked(two.links, rank);
    var three := NickLinked(two, "c", "a").links;
    assert three["a"] == "b" && three["b"] == "c" && three["c"] == "a";
    forall rank: map<Name, nat> | Ranked(three, rank)
      ensures false
    {
    }
  }

  lemma FewerLinks(links: map<Name, Name>, fewer: map<Name, Name>)
    requires Acyclic(links) && forall s :: s in fewer ==> s in links && fewer[s] == links[s]
    ensures Acyclic(fewer)
  {
    var rank: map<Name, nat> :| Ranked(links, rank);
    assert Ranked(fewer, rank);
  }

  // ----- Circles of links.

  /** The `n`-th master of a user. */
  function Up(a: Acl, u: Name, n: nat): Option<Name> {
    if n == 0 then Some(u)
    else match Up(a, u, n - 1)
      case None => None
      case Some(m) => Master(a, m)
  }

  lemma {:induction false} UpFromMaster(a: Acl, u: Name, n: nat)
    ensures Up(a, u, n + 1) == match Master(a, u) case None => None case Some(m) => Up(a, m, n)
  {
    if n > 0 {
      UpFromMaster(a, u, n - 1);
    } else {
      assert Up(a, u, 1) == Master(a, u);
    }
  }

  lemma {:induction false} UpAround(a: Acl, u: Name, p: nat, n: nat)
    requires Up(a, u, p) == Some(u)
    ensures Up(a, u, p + n) == Up(a, u, n)
  {
    if n > 0 {
      UpAround(a, u, p, n - 1);
    }
  }

  /** A check that goes up the chain has neither run out of masters nor found an entry after `n` of them. */
  predicate StillClimbing(a: Acl, c: Name, u: Name, n: nat) {
    Up(a, u, n).Some? && (c, Up(a, u, n).value) !in a.rel
  }

  /** On a circle of links none of whose users has an entry there is always another master and never an entry: the
      checks that go up the chain do not end. */
  lemma {:induction false} CircleNeverEnds(a: Acl, c: Name, u: Name, p: nat, n: nat)
    requires p > 0 && Up(a, u, p) == Some(u)
    requires forall i :: 0 <= i < p && Up(a, u, i).Some? ==> (c, Up(a, u, i).value) !in a.rel
    ensures StillClimbing(a, c, u, n)
  {
    if n < p {
      SomeBefore(a, u, n, p);
    } else {
      UpAround(a, u, p, n - p);
      CircleNeverEnds(a, c, u, p, n - p);
    }
  }

  lemma {:induction false} SomeBefore(a: Acl, u: Name, n: nat, p: nat)
    requires n <= p && Up(a, u, p).Some?
    ensures Up(a, u, n).Some?
    decreases p
  {
    if n < p {
      SomeBefore(a, u, n, p - 1);
    }
  }

  ghost predicate Ends(a: Acl, u: Name) {
    exists n: nat :: Up(a, u, n).None?
  }

  /** How many of the user's masters, itself included, there are. */
  ghost function LengthFrom(a: Acl, u: Name, n: nat): (r: nat)
    requires Up(a, u, n).None?
    ensures r > 0 && Up(a, u, r).None? && Up(a, u, r - 1).Some?
  {
    if Up(a, u, n - 1).None? then LengthFrom(a, u, n - 1) else n
  }

  ghost function Length(a: Acl, u: Name): (r: nat)
    requires Ends(a, u)
    ensures r > 0 && Up(a, u, r).None? && Up(a, u, r - 1).Some?
  {
    var n: nat :| Up(a, u, n).None?;
    LengthFrom(a, u, n)
  }

  lemma LengthDescends(a: Acl, u: Name, m: Name)
    requires Master(a, u) == Some(m) && Ends(a, u) && Ends(a, m)
    ensures Length(a, m) < Length(a, u)
  {
    var r := Length(a, u);
    UpFromMaster(a, u, r - 1);
    if Length(a, m) >= r {
      SomeBefore(a, m, r - 1, Length(a, m) - 1);
    }
  }

  lemma {:induction false} ChainEnds(a: Acl, u: Name)
    requires Acyclic(a.links)
    ensures Up(a, u, |Chain(a, u)|).None?
    decreases Height(a.links, u)
  {
    MasterDescends(a, u);
    UpFromMaster(a, u, |Chain(a, u)| - 1);
    if Master(a, u).Some? {
      ChainEnds(a, Master(a, u).value);
    }
  }

  /** With registered masters, the checks end for everybody exactly when the links have no circle. */
  lemma EndsExactly(a: Acl)
    requires forall s :: s in a.links ==> a.links[s] in a.users
    ensures Acyclic(a.links) <==> forall u :: Ends(a, u)
  {
    if Acyclic(a.links) {
      forall u
        ensures Ends(a, u)
      {
        ChainEnds(a, u);
      }
    } else if forall u :: Ends(a, u) {
      var rank := map u | u in a.links :: Length(a, u);
      forall u | u in a.links && a.links[u] in a.links
        ensures rank[a.links[u]] < rank[u]
      {
        assert Ends(a, u) && Ends(a, a.links[u]);
        LengthDescends(a, u, a.links[u]);
      }
      assert Ranked(a.links, rank);
    }
  }

  // ----- Runs.

  datatype Event =
    | AddAccount(u: Name)
    | DropAccount(u: Name, heir: map<Name, Name>)
    | RegisterChannel(c: Name, u: Name)
    | DropChannel(c: Name)
    | SetFounder(c: Name, caller: Name, oper: bool, target: Name)
    | AddAccess(c: Name, caller: Name, oper: bool, target: Name, level: int)
    | DelAccess(c: Name, caller: Name, self: bool, oper: bool, target: Name)
    | SetAxxflags(c: Name, caller: Name, on: bool)
    | SuspendEntry(c: Name, target: Name, on: bool)
    | ChangeFlags(c: Name, caller: Name, target: Name, plus: bool, flags: bv32)
    | Link(slave: Name, master: Name)
    | Unlink(slave: Name)

  /** What the events take for granted: a super administrator has the mode and an account, whoever gives a command has
      an account, and so has one that is dropped, whose channels go to co-owners where there are any. */
  ghost predicate Allowed(w: Staff, a: Acl, ev: Event) {
    && w.superadmins <= w.supermodes && w.superadmins <= a.users
    && match ev
      case DropAccount(u, heir) => u in a.users && Heirs(a, u, heir)
      case SetFounder(_, caller, _, _) => caller in a.users
      case AddAccess(_, caller, _, _, _) => caller in a.users
      case DelAccess(_, caller, _, _, _) => caller in a.users
      case SetAxxflags(_, caller, _) => caller in a.users
      case ChangeFlags(_, caller, _, _, _) => caller in a.users
      case _ => true
  }

  /** An event at its moment: the levels of the configuration, which can be loaded anew, and the administrators online. */
  datatype Moment = At(lv: Levels, w: Staff, ev: Event)

  /** The tests of nick_link let the link through. */
  predicate LinkPasses(a: Acl, slave: Name, master: Name) {
    slave != master && master in a.users && slave !in a.links && !(master in a.links && a.links[master] == slave)
  }

  /** The events that respect ownership and links: a channel gets a registered owner, an owner does not delete itself
      in level mode, F is neither given to another nor taken from the owner, and a link closes no circle. */
  ghost predicate Safe(lv: Levels, w: Staff, a: Acl, ev: Event)
    requires Acyclic(a.links)
  {
    match ev
    case RegisterChannel(c, u) => c in a.chans || u in a.users
    case DelAccess(c, caller, self, _, _) =>
      !(c in a.chans && !a.chans[c].axxflags && self && caller == a.chans[c].owner && GetFlag(a, w, c, caller) != 0)
    case ChangeFlags(c, caller, target, plus, flags) =>
      !(MayChange(lv, w, a, c, caller, target, plus, flags) && Has(flags, OWNER) && (plus <==> target != a.chans[c].owner))
    case Link(slave, master) => LinkPasses(a, slave, master) ==> slave !in Chain(a, master)
    case _ => true
  }

  function Step(lv: Levels, w: Staff, a: Acl, ev: Event): Acl
    requires Acyclic(a.links)
  {
    match ev
    case AddAccount(u) => a.(users := a.users + {u})
    case DropAccount(u, heir) => UserDropped(a, u, heir)
    case RegisterChannel(c, u) => Created(a, c, u)
    case DropChannel(c) => ChanDropped(a, c)
    case SetFounder(c, caller, oper, target) => FounderSet(a, c, caller, oper, target)
    case AddAccess(c, caller, oper, target, level) => AccessAdded(lv, w, a, c, caller, oper, target, level)
    case DelAccess(c, caller, self, oper, target) => AccessDeleted(lv, w, a, c, caller, self, oper, target)
    case SetAxxflags(c, caller, on) => AxxflagsSet(w, a, c, caller, on)
    case SuspendEntry(c, target, on) => EntrySuspended(a, c, target, on)
    case ChangeFlags(c, caller, target, plus, flags) => FlagsChanged(lv, w, a, c, caller, target, plus, flags)
    case Link(slave, master) => NickLinked(a, slave, master)
    case Unlink(slave) => a.(links := a.links - {slave})
  }

  lemma UsersAndLinksKeep(a: Acl, t: Acl)
    requires Owned(a) && t == a.(users := t.users, links := t.links) && a.users <= t.users
    requires forall s :: s in t.links ==> t.links[s] in t.users
    ensures Owned(t)
  {
    forall d | d in t.chans
      ensures HasOwner(t, d)
    {
      assert HasOwner(a, d);
    }
    forall j | j in t.rel
      ensures j.0 in t.chans && j.1 in t.users && OnlyOwner(t, j)
    {
      assert OnlyOwner(a, j);
    }
  }

  /** Ownership and links are as they should be. */
  ghost predicate Sound(a: Acl) {
    Owned(a) && Acyclic(a.links)
  }

  lemma StepKeepsAccounts(lv: Levels, w: Staff, a: Acl, ev: Event)
    requires Sound(a) && Allowed(w, a, ev) && (ev.AddAccount? || ev.DropAccount? || ev.Link? || ev.Unlink?)
    ensures Sound(Step(lv, w, a, ev)) <==> Safe(lv, w, a, ev)
  {
    match ev {
      case AddAccount(u) => UsersAndLinksKeep(a, Step(lv, w, a, ev));
      case DropAccount(u, heir) =>
        UserDroppedKeeps(a, u, heir);
        FewerLinks(a.links, UserDropped(a, u, heir).links);
      case Link(slave, master) =>
        UsersAndLinksKeep(a, NickLinked(a, slave, master));
        if LinkPasses(a, slave, master) {
          LinkKeepsAcyclic(a, slave, master);
        }
      case Unlink(slave) =>
        UsersAndLinksKeep(a, a.(links := a.links - {slave}));
        FewerLinks(a.links, a.links - {slave});
    }
  }

  lemma StepKeepsEntries(lv: Levels, w: Staff, a: Acl, ev: Event)
    requires Sound(a) && (ev.SetAxxflags? || ev.SuspendEntry?)
    ensures Sound(Step(lv, w, a, ev))
  {
    match ev {
      case SetAxxflags(c, caller, on) => SameEntriesKeep(a, AxxflagsSet(w, a, c, caller, on));
      case SuspendEntry(c, target, on) => SameEntriesKeep(a, EntrySuspended(a, c, target, on));
    }
  }

  lemma StepKeepsFlags(lv: Levels, w: Staff, a: Acl, ev: Event)
    requires Sound(a) && ev.ChangeFlags?
    ensures Sound(Step(lv, w, a, ev)) <==> Safe(lv, w, a, ev)
  {
    FlagsChangedKeeps(lv, w, a, ev.c, ev.caller, ev.target, ev.plus, ev.flags);
    SameLinks(lv, a, ev.c, ev.target, ev.plus, ev.flags);
  }

  lemma SameLinks(lv: Levels, a: Acl, c: Name, target: Name, plus: bool, flags: bv32)
    ensures Edited(lv, a, c, target, plus, flags).links == a.links
  {
  }

  /** A step keeps ownership and acyclic links exactly when its event respects them. */
  lemma StepKeeps(lv: Levels, w: Staff, a: Acl, ev: Event)
    requires Sound(a) && Allowed(w, a, ev)
    ensures Sound(Step(lv, w, a, ev)) <==> Safe(lv, w, a, ev)
  {
    if ev.AddAccount? || ev.DropAccount? || ev.Link? || ev.Unlink? {
      StepKeepsAccounts(lv, w, a, ev);
    } else if ev.SetAxxflags? || ev.SuspendEntry? {
      StepKeepsEntries(lv, w, a, ev);
    } else if ev.ChangeFlags? {
      StepKeepsFlags(lv, w, a, ev);
    } else {
      match ev {
        case RegisterChannel(c, u) => CreatedKeeps(a, c, u);
        case DropChannel(c) => ChanDroppedKeeps(a, c);
        case SetFounder(c, caller, oper, target) => FounderSetKeeps(a, c, caller, oper, target);
        case AddAccess(c, caller, oper, target, level) => AccessAddedKeeps(lv, w, a, c, caller, oper, target, level);
        case DelAccess(c, caller, self, oper, target) => AccessDeletedKeeps(lv, w, a, c, caller, self, oper, target);
      }
    }
  }

  /** Every event of the run is allowed and safe where it happens. */
  ghost predicate Possible(a: Acl, run: seq<Moment>)
    decreases |run|
  {
    run == []
    || (var m := run[0];
      Allowed(m.w, a, m.ev) && (Sound(a) ==> Safe(m.lv, m.w, a, m.ev) && Possible(Next(a, m), run[1..])))
  }

  function Next(a: Acl, m: Moment): Acl
    requires Acyclic(a.links)
  {
    Step(m.lv, m.w, a, m.ev)
  }

  lemma NextSound(a: Acl, run: seq<Moment>)
    requires Sound(a) && Possible(a, run) && run != []
    ensures Sound(Next(a, run[0])) && Possible(Next(a, run[0]), run[1..])
  {
    StepKeeps(run[0].lv, run[0].w, a, run[0].ev);
  }

  ghost function After(a: Acl, run: seq<Moment>): Acl
    requires Sound(a) && Possible(a, run)
    decreases |run|
  {
    if run == [] then a
    else
      NextSound(a, run);
      After(Next(a, run[0]), run[1..])
  }

  lemma {:induction false} RunKeeps(a: Acl, run: seq<Moment>)
    requires Sound(a) && Possible(a, run)
    ensures Sound(After(a, run))
    decreases |run|
  {
    if run != [] {
      NextSound(a, run);
      RunKeeps(Next(a, run[0]), run[1..]);
    }
  }

  /** Over every run of safe commands links stay acyclic, and each channel keeps exactly one entry of level CHLEV_OWNER
      and exactly one holder of F: the registered user it names as its owner. */
  lemma RunKeepsOwners(a: Acl, run: seq<Moment>, c: Name)
    requires Sound(a) && Possible(a, run)
    requires c in After(a, run).chans
    ensures var t := After(a, run); var k := (c, t.chans[c].owner);
      && Sound(t) && t.chans[c].owner in t.users && k in t.rel
      && (set j | j in t.rel && j.0 == c && t.rel[j].level == CHLEV_OWNER) == {k}
      && (set j | j in t.rel && j.0 == c && Has(t.rel[j].uflags, OWNER)) == {k}
  {
    RunKeeps(a, run);
    ExactlyOneOwner(After(a, run), c);
    assert HasOwner(After(a, run), c);
  }

  // ----- Entries and links that can be saved.

  /** No command leaves an entry without flags. */
  lemma StepNotEmpty(lv: Levels, w: Staff, a: Acl, ev: Event)
    requires Acyclic(a.links) && NoEmptyEntries(a)
    ensures NoEmptyEntries(Step(lv, w, a, ev))
  {
    OwnerFlags(lv, if ev.AddAccess? then ev.level else 0);
    if ev.ChangeFlags? && MayChange(lv, w, a, ev.c, ev.caller, ev.target, ev.plus, ev.flags) {
      EditedNotEmpty(lv, a, ev.c, ev.target, ev.plus, ev.flags);
    }
  }

  lemma {:induction false} RunNotEmpty(a: Acl, run: seq<Moment>)
    requires Sound(a) && Possible(a, run) && NoEmptyEntries(a)
    ensures NoEmptyEntries(After(a, run))
    decreases |run|
  {
    if run != [] {
      NextSound(a, run);
      StepNotEmpty(run[0].lv, run[0].w, a, run[0].ev);
      RunNotEmpty(Next(a, run[0]), run[1..]);
    }
  }

  /** The slaves of links are accounts. */
  predicate SlavesKnown(a: Acl) {
    forall s :: s in a.links ==> s in a.users
  }

  /** NICK LINK stores the name of the caller's nick, which need not be that of an account. */
  predicate LinksNick(a: Acl, ev: Event) {
    ev.Link? && ev.slave !in a.users && LinkPasses(a, ev.slave, ev.master)
  }

  lemma StepSlaves(lv: Levels, w: Staff, a: Acl, ev: Event)
    requires Acyclic(a.links) && SlavesKnown(a)
    ensures SlavesKnown(Step(lv, w, a, ev)) <==> !LinksNick(a, ev)
  {
    if LinksNick(a, ev) {
      assert ev.slave in Step(lv, w, a, ev).links;
    }
  }

  // ----- Co-owners.

  ghost predicate OneCoownerEach(a: Acl) {
    forall c :: OneCoowner(a, c)
  }

  /** ACCESS ADD at the level of a co-owner, past its test for one: that test looks at levels, and somebody else holds
      f. */
  ghost predicate SecondCoowner(lv: Levels, w: Staff, a: Acl, ev: Event)
    requires Acyclic(a.links)
  {
    ev.AddAccess? && ev.level == CHLEV_COOWNER && MayAdd(lv, w, a, ev.c, ev.caller, ev.oper, ev.target, ev.level)
    && exists v :: v != ev.target && IsCoowner(a, ev.c, v)
  }

  lemma FewerCoowners(a: Acl, t: Acl)
    requires OneCoownerEach(a) && forall c, v :: IsCoowner(t, c, v) ==> IsCoowner(a, c, v)
    ensures OneCoownerEach(t)
  {
    forall c
      ensures OneCoowner(t, c)
    {
      assert OneCoowner(a, c);
    }
  }

  lemma AddedCoowners(lv: Levels, w: Staff, a: Acl, ev: Event)
    requires Sound(a) && OneCoownerEach(a) && ev.AddAccess?
    ensures OneCoownerEach(Step(lv, w, a, ev)) <==> !SecondCoowner(lv, w, a, ev)
  {
    var t := Step(lv, w, a, ev);
    if MayAdd(lv, w, a, ev.c, ev.caller, ev.oper, ev.target, ev.level) {
      LevelCoowns(lv, ev.level);
      if ev.level != CHLEV_COOWNER {
        FewerCoowners(a, t);
      } else if SecondCoowner(lv, w, a, ev) {
        var v :| v != ev.target && IsCoowner(a, ev.c, v);
        assert IsCoowner(t, ev.c, v) && IsCoowner(t, ev.c, ev.target);
        assert !OneCoowner(t, ev.c);
      } else {
        forall c
          ensures OneCoowner(t, c)
        {
          assert OneCoowner(a, c);
          assert forall v :: v != ev.target || c != ev.c ==> (IsCoowner(t, c, v) <==> IsCoowner(a, c, v));
        }
      }
    }
  }

  lemma LevelCoowns(lv: Levels, level: int)
    ensures Has(FlagsOfLevel(lv, level), COOWNER) <==> level == CHLEV_COOWNER
  {
  }

  lemma EditedCoowners(lv: Levels, w: Staff, a: Acl, ev: Event)
    requires Sound(a) && OneCoownerEach(a) && ev.ChangeFlags?
    ensures OneCoownerEach(Step(lv, w, a, ev))
  {
    var t := Step(lv, w, a, ev);
    if MayChange(lv, w, a, ev.c, ev.caller, ev.target, ev.plus, ev.flags) {
      assert OneCoowner(a, ev.c);
      CoownersKept(lv, a, ev.c, ev.target, ev.plus, ev.flags);
      forall c
        ensures OneCoowner(t, c)
      {
        if c != ev.c {
          assert OneCoowner(a, c);
          assert forall v :: IsCoowner(t, c, v) <==> IsCoowner(a, c, v);
        }
      }
    }
  }

  lemma OtherCoowners(lv: Levels, w: Staff, a: Acl, ev: Event)
    requires Sound(a) && OneCoownerEach(a) && !ev.AddAccess? && !ev.ChangeFlags?
    ensures OneCoownerEach(Step(lv, w, a, ev))
  {
    OwnerFlags(lv, 0);
    FewerCoowners(a, Step(lv, w, a, ev));
  }

  /** A step keeps at most one co-owner on every channel exactly when it is not such an addition. */
  lemma StepCoowners(lv: Levels, w: Staff, a: Acl, ev: Event)
    requires Sound(a) && OneCoownerEach(a)
    ensures OneCoownerEach(Step(lv, w, a, ev)) <==> !SecondCoowner(lv, w, a, ev)
  {
    if ev.AddAccess? {
      AddedCoowners(lv, w, a, ev);
    } else if ev.ChangeFlags? {
      EditedCoowners(lv, w, a, ev);
    } else {
      OtherCoowners(lv, w, a, ev);
    }
  }

  /** No event of the run is such an addition. */
  ghost predicate NoSecond(a: Acl, run: seq<Moment>)
    requires Sound(a) && Possible(a, run)
    decreases |run|
  {
    run == []
    || (!SecondCoowner(run[0].lv, run[0].w, a, run[0].ev) && (NextSound(a, run); NoSecond(Next(a, run[0]), run[1..])))
  }

  /** Runs that change between level mode and flag mode keep at most one co-owner as long as they have none. */
  lemma {:induction false} RunCoowners(a: Acl, run: seq<Moment>)
    requires Sound(a) && Possible(a, run) && NoSecond(a, run) && OneCoownerEach(a)
    ensures OneCoownerEach(After(a, run))
    decreases |run|
  {
    if run != [] {
      NextSound(a, run);
      StepCoowners(run[0].lv, run[0].w, a, run[0].ev);
      RunCoowners(Next(a, run[0]), run[1..]);
    }
  }
}
