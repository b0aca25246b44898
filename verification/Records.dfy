/** What the events do to accounts, memberships, guest timers and servers: for every event exactly. */
module Records {
  import opened Wrappers
  import opened Lists
  import opened Network
  import opened NetSplit
  import opened Membership
  import opened Events
  import opened NetRuns
  import opened Suspension
  import opened Effects
  import opened Origins

  // ----- Accounts.

  /** What an account is, apart from its session. */
  datatype Record = Record(level: int, suspended: bool, protect: bool, timeout: int)

  function RecordOf(user: User): Record {
    Record(user.level, user.suspended, user.protect, user.timeout)
  }

  function RecordsOf(users: map<Name, User>): map<Name, Record> {
    map u | u in users :: RecordOf(users[u])
  }

  /** Whom the commands of a nick speak for: its account, or else the account of its name if somebody else has that. */
  function Speaker(s: State, n: NickPtr): Option<Name>
    requires n in s.nicks
  {
    var nick := s.nicks[n];
    if nick.account.Some? then nick.account
    else if nick.name in s.users && s.users[nick.name].authedNick.Some? then Some(nick.name)
    else None
  }

  lemma CallerIsSpeaker(s: State, n: NickPtr)
    requires Inv(s) && n in s.nicks
    ensures Caller(s, n) == Speaker(s, n)
    ensures Speaker(s, n).Some? ==> Speaker(s, n).value in s.users
  {
    assert Holds(s, Sessions);
  }

  /** The accounts after an event. */
  function RecordsBy(cfg: Config, s: State, ev: Event): map<Name, Record>
    requires ev.Register? || ev.SetProtect? || ev.SetTimeout? || ev.TakeOptions? ==> ev.n in s.nicks
    requires ev.SetProtect? || ev.SetTimeout? || ev.TakeOptions? ==>
      Speaker(s, ev.n).Some? ==> Speaker(s, ev.n).value in s.users
  {
    var was := RecordsOf(s.users);
    match ev
    case Register(n, _) =>
      var u := s.nicks[n].name;
      if s.nicks[n].account.Some? || u in s.users then was
      else was[u := Record(if |s.users| == 0 then cfg.levelOwner else 1, false, false, 60)]
    case Drop(u) => was - {u}
    case Suspend(u, rank) => if u in was && was[u].level < rank then was[u := was[u].(suspended := true)] else was
    case Unsuspend(u, rank) => if u in was && was[u].level < rank then was[u := was[u].(suspended := false)] else was
    case SetProtect(n, on) =>
      (match Speaker(s, n) case None => was case Some(u) => was[u := was[u].(protect := on)])
    case SetTimeout(n, timeout) =>
      (match Speaker(s, n)
       case None => was
       case Some(u) => was[u := was[u].(timeout := if timeout != 0 then timeout else 60)])
    case TakeOptions(n, master, passes) =>
      (match Speaker(s, n)
       case None => was
       case Some(u) => if passes && master in was then was[u := was[master].(level := was[u].level)] else was)
    case _ => was
  }

  /** Sessions apart, the accounts are the same. */
  predicate SameRecords(users: map<Name, User>, users': map<Name, User>) {
    users'.Keys == users.Keys && forall u :: u in users ==> RecordOf(users'[u]) == RecordOf(users[u])
  }

  lemma SameRecordsAre(users: map<Name, User>, users': map<Name, User>)
    requires SameRecords(users, users')
    ensures RecordsOf(users') == RecordsOf(users)
  {
  }

  lemma OneRecord(users: map<Name, User>, u: Name, user: User)
    ensures RecordsOf(users[u := user]) == RecordsOf(users)[u := RecordOf(user)]
  {
  }

  lemma LoginRecords(s: State, n: NickPtr, u: Name)
    requires n in s.nicks && u in s.users
    ensures SameRecords(s.users, Login(s, n, u).users) && SameRecords(s.users, Logout(s, n, Some(u)).users)
  {
  }

  lemma GhostLoginRecords(s: State, n: NickPtr, u: Name)
    requires n in s.nicks && u in s.users && s.users[u].authedNick != Some(n)
    ensures SameRecords(s.users, GhostLogin(s, n, u).users)
  {
    if s.users[u].authed && s.users[u].authedNick.Some? {
      LoginRecords(WithoutNicks(s, {s.users[u].authedNick.value}), n, u);
    } else {
      LoginRecords(s, n, u);
    }
  }

  lemma UidRecords(cfg: Config, s: State, ev: Event)
    requires Inv(s) && ev.Uid? && Allowed(s, ev)
    ensures SameRecords(s.users, Introduced(cfg, s, ev).users)
  {
    var found := ServerOf(s.servers, s.serverList, ev.server);
    if found.Some? && HowManyClones(s.clones, ev.host) < Limit(cfg, ev.trust) {
      var c := Connect(s, ev.n, NewNick(ev, found.value));
      ConnectKeeps(s, ev.n, NewNick(ev, found.value));
      SaslExactly(c, ev.n);
      SaslRecords(c, ev.n);
      GreetRecords(SaslFinish(c, ev.n), ev.n, ev.now);
    }
  }

  lemma SaslRecords(s: State, n: NickPtr)
    requires n in s.nicks && s.nicks[n].account.None? && forall u :: u in s.users ==> s.users[u].authedNick != Some(n)
    ensures SameRecords(s.users, SaslFinish(s, n).users)
  {
    var u := SaslTarget(s, s.nicks[n].name, s.nicks[n].svid);
    if u.Some? {
      GhostLoginRecords(s, n, u.value);
      assert SaslFinish(s, n) == GhostLogin(s, n, u.value);
    }
  }

  lemma GreetRecords(s: State, n: NickPtr, now: int)
    requires n in s.nicks
    ensures SameRecords(s.users, Greet(s, n, now).users)
  {
    GreetUsers(s, n, now);
    if s.nicks[n].name in s.users {
      LoginRecords(s, n, s.nicks[n].name);
    }
  }

  lemma GreetUsers(s: State, n: NickPtr, now: int)
    requires n in s.nicks
    ensures var name, t := s.nicks[n].name, Greet(s, n, now);
      t.users == s.users || (name in s.users && t.users == Login(s, n, name).users)
  {
    var r := GreetRegistered(s, n);
    assert r.users == s.users || (s.nicks[n].name in s.users && r == Login(s, n, s.nicks[n].name));
    assert Greet(s, n, now).users == r.users;
  }

  lemma IdentifyRecords(cfg: Config, s: State, n: NickPtr, password: bool, now: int)
    requires Inv(s) && n in s.nicks
    ensures SameRecords(s.users, Step(cfg, s, Identify(n, password, now)).users)
  {
    var u := s.nicks[n].name;
    if s.nicks[n].account.Some? || u !in s.users {
      IdentifyRefused(cfg, s, n, password, now);
    } else if !password {
      WrongPasswordExactly(cfg, s, n, now);
    } else if !s.users[u].suspended {
      GhostLoginExactly(s, n, u);
      GhostLoginRecords(s, n, u);
    }
  }

  lemma RenameRecords(s: State, n: NickPtr, name: Name, linked: bool, now: int)
    requires n in s.nicks
    ensures SameRecords(s.users, NickChanged(s, n, name, linked, now).users)
  {
    var t := Rename(s, n, name);
    if MovesSession(s, n, name, linked) {
      LoginRecords(t, n, s.nicks[n].name);
      LoginRecords(Logout(t, n, Some(s.nicks[n].name)), n, name);
    } else {
      assert AccountFollows(t, n, s.nicks[n].name, name, linked, now).users == t.users;
    }
  }

  lemma RegisterRecords(cfg: Config, s: State, n: NickPtr, emailreg: bool)
    requires n in s.nicks
    ensures RecordsOf(Registered(cfg, s, n, emailreg).users) == RecordsBy(cfg, s, Register(n, emailreg))
  {
    var u := s.nicks[n].name;
    if AccountOf(s, n).None? {
      var t := NewUser(cfg, s, u);
      OneRecord(s.users, u, t.users[u]);
      LoginRecords(t, n, u);
      SameRecordsAre(t.users, Login(t, n, u).users);
    }
  }

  lemma SuspensionRecords(s: State, u: Name, rank: int, on: bool)
    requires InvSessions(s.users, s.nicks) && u in s.users
    ensures var was := RecordsOf(s.users);
      RecordsOf(SuspensionSet(s, u, rank, on).users) ==
        if s.users[u].level < rank then was[u := was[u].(suspended := on)] else was
  {
    if s.users[u].level < rank {
      SuspensionUsers(s, u, rank, on);
      OneRecord(s.users, u, SuspensionSet(s, u, rank, on).users[u]);
    }
  }

  lemma ProtectRecords(cfg: Config, s: State, n: NickPtr, on: bool)
    requires Inv(s) && n in s.nicks
    ensures Speaker(s, n).Some? ==> Speaker(s, n).value in s.users
    ensures RecordsOf(ProtectSet(s, n, on).users) == RecordsBy(cfg, s, SetProtect(n, on))
  {
    CallerIsSpeaker(s, n);
    if Speaker(s, n).Some? {
      var u := Speaker(s, n).value;
      OneRecord(s.users, u, s.users[u].(protect := on));
    }
  }

  lemma TimeoutRecords(cfg: Config, s: State, n: NickPtr, timeout: int)
    requires Inv(s) && n in s.nicks
    ensures Speaker(s, n).Some? ==> Speaker(s, n).value in s.users
    ensures RecordsOf(TimeoutSet(s, n, timeout).users) == RecordsBy(cfg, s, SetTimeout(n, timeout))
  {
    CallerIsSpeaker(s, n);
    if Speaker(s, n).Some? {
      var u := Speaker(s, n).value;
      OneRecord(s.users, u, s.users[u].(timeout := if timeout != 0 then timeout else 60));
    }
  }

  lemma OptionsRecords(cfg: Config, s: State, n: NickPtr, master: Name, passes: bool)
    requires Inv(s) && n in s.nicks
    ensures Speaker(s, n).Some? ==> Speaker(s, n).value in s.users
    ensures RecordsOf(OptionsTaken(s, n, master, passes).users) == RecordsBy(cfg, s, TakeOptions(n, master, passes))
  {
    CallerIsSpeaker(s, n);
    if Speaker(s, n).Some? && passes && master in s.users {
      var u, t := Speaker(s, n).value, OptionsTaken(s, n, master, passes);
      assert t.users == s.users[u := t.users[u]];
      OneRecord(s.users, u, t.users[u]);
    }
  }

  lemma DropRecords(cfg: Config, s: State, u: Name)
    requires InvSessions(s.users, s.nicks) && u in s.users
    ensures RecordsOf(Dropped(s, u).users) == RecordsOf(s.users) - {u}
  {
    assert Dropped(s, u).users == s.users - {u};
  }

  lemma GoneRecords(s: State, gone: set<NickPtr>)
    ensures SameRecords(s.users, WithoutNicks(s, gone).users)
  {
  }

  lemma LeavingRecords(cfg: Config, s: State, ev: Event)
    requires Inv(s) && (ev.Quit? || ev.Squit?)
    ensures RecordsOf(Step(cfg, s, ev).users) == RecordsOf(s.users)
  {
    assert Holds(s, Forest);
    if ev.Quit? && NickOf(s.nicks, ev.nick).Some? {
      GoneRecords(s, {NickOf(s.nicks, ev.nick).value});
    } else if ev.Squit? && ServerOf(s.servers, s.serverList, ev.server).Some? {
      GoneRecords(s, NicksOn(s.nicks, Below(s, ServerOf(s.servers, s.serverList, ev.server).value)));
    }
    SameRecordsAre(s.users, Step(cfg, s, ev).users);
  }

  lemma OtherRecords(cfg: Config, s: State, ev: Event)
    requires Inv(s) && Allowed(s, ev) && (ev.Uid? || ev.NickChange? || ev.Identify? || ev.Forceauth?)
    ensures RecordsOf(Step(cfg, s, ev).users) == RecordsOf(s.users)
  {
    match ev {
      case Uid(_, _, _, _, _, _, _, _, _) => UidRecords(cfg, s, ev);
      case NickChange(sender, newNick, linked, now) =>
        if NickOf(s.nicks, sender).Some? {
          RenameRecords(s, NickOf(s.nicks, sender).value, newNick, linked, now);
        }
      case Identify(n, password, now) => IdentifyRecords(cfg, s, n, password, now);
      case Forceauth(nick) =>
        if NickOf(s.nicks, nick).Some? && nick in s.users {
          LoginRecords(s, NickOf(s.nicks, nick).value, nick);
        }
    }
    SameRecordsAre(s.users, Step(cfg, s, ev).users);
  }

  lemma AccountRecords(cfg: Config, s: State, ev: Event)
    requires Inv(s) && Allowed(s, ev) && (ev.Suspend? || ev.Unsuspend? || ev.Drop?)
    ensures RecordsOf(Step(cfg, s, ev).users) == RecordsBy(cfg, s, ev)
  {
    assert Holds(s, Sessions);
    match ev {
      case Suspend(u, rank) => if u in s.users { SuspensionRecords(s, u, rank, true); }
      case Unsuspend(u, rank) => if u in s.users { SuspensionRecords(s, u, rank, false); }
      case Drop(u) => if u in s.users { DropRecords(cfg, s, u); }
    }
  }

  /** Levels, suspensions, protections and timeouts change by these events in this way and by no other. */
  lemma RecordsExactly(cfg: Config, s: State, ev: Event)
    requires Inv(s) && Allowed(s, ev)
    ensures ev.SetProtect? || ev.SetTimeout? || ev.TakeOptions? ==> Speaker(s, ev.n).Some? ==> Speaker(s, ev.n).value in s.users
    ensures RecordsOf(Step(cfg, s, ev).users) == RecordsBy(cfg, s, ev)
  {
    if ev.Register? || ev.SetProtect? || ev.SetTimeout? || ev.TakeOptions? {
      OwnerRecords(cfg, s, ev);
    } else {
      ServiceRecords(cfg, s, ev);
    }
  }

  /** The commands by which users change records of their own. */
  lemma OwnerRecords(cfg: Config, s: State, ev: Event)
    requires Inv(s) && Allowed(s, ev) && (ev.Register? || ev.SetProtect? || ev.SetTimeout? || ev.TakeOptions?)
    ensures !ev.Register? && Speaker(s, ev.n).Some? ==> Speaker(s, ev.n).value in s.users
    ensures RecordsOf(Step(cfg, s, ev).users) == RecordsBy(cfg, s, ev)
  {
    match ev {
      case Register(n, emailreg) => RegisterRecords(cfg, s, n, emailreg);
      case SetProtect(n, on) => ProtectRecords(cfg, s, n, on);
      case SetTimeout(n, timeout) => TimeoutRecords(cfg, s, n, timeout);
      case TakeOptions(n, master, passes) => OptionsRecords(cfg, s, n, master, passes);
    }
  }

  lemma ServiceRecords(cfg: Config, s: State, ev: Event)
    requires Inv(s) && Allowed(s, ev) && !ev.Register? && !ev.SetProtect? && !ev.SetTimeout? && !ev.TakeOptions?
    ensures RecordsOf(Step(cfg, s, ev).users) == RecordsBy(cfg, s, ev)
  {
    match ev {
      case Suspend(_, _) => AccountRecords(cfg, s, ev);
      case Unsuspend(_, _) => AccountRecords(cfg, s, ev);
      case Drop(_) => AccountRecords(cfg, s, ev);
      case Quit(_) => LeavingRecords(cfg, s, ev);
      case Squit(_) => LeavingRecords(cfg, s, ev);
      case Uid(_, _, _, _, _, _, _, _, _) => OtherRecords(cfg, s, ev);
      case NickChange(_, _, _, _) => OtherRecords(cfg, s, ev);
      case Identify(_, _, _) => OtherRecords(cfg, s, ev);
      case Forceauth(_) => OtherRecords(cfg, s, ev);
      case _ => StepElsewhere(cfg, s, ev);
    }
  }

  // ----- Memberships.

  /** Who is on which channel. */
  function Pairs(members: map<MemberPtr, Member>): set<(Name, NickPtr)> {
    set m | m in members :: (members[m].wchan, members[m].nick)
  }

  /** Whom an event puts on a channel, and whom it takes off one. */
  ghost function Entering(s: State, ev: Event): set<(Name, NickPtr)> {
    match ev
    case Join(sender, w, _) => (match NickOf(s.nicks, sender) case None => {} case Some(n) => {(w, n)})
    case SjoinNick(w, nick, _) => (match NickOf(s.nicks, nick) case None => {} case Some(n) => {(w, n)})
    case _ => {}
  }

  ghost function Parting(s: State, ev: Event): set<(Name, NickPtr)> {
    match ev
    case Part(nick, w) => (match NickOf(s.nicks, nick) case None => {} case Some(n) => {(w, n)})
    case _ => {}
  }

  /** The memberships of nicks that stay. */
  function Staying(pairs: set<(Name, NickPtr)>, gone: set<NickPtr>): set<(Name, NickPtr)> {
    set p | p in pairs && p.1 !in gone
  }

  lemma AddedPair(members: map<MemberPtr, Member>, m: MemberPtr, w: Name, n: NickPtr)
    requires m !in members
    ensures Pairs(members[m := Member(w, n)]) == Pairs(members) + {(w, n)}
  {
    var more := members[m := Member(w, n)];
    assert (more[m].wchan, more[m].nick) in Pairs(more);
    forall k | k in members
      ensures (members[k].wchan, members[k].nick) in Pairs(more)
    {
      assert more[k] == members[k];
    }
  }

  lemma RemovedPairs(members: map<MemberPtr, Member>, d: set<MemberPtr>, off: set<(Name, NickPtr)>)
    requires forall m :: m in members ==> (m in d <==> (members[m].wchan, members[m].nick) in off)
    ensures Pairs(members - d) == Pairs(members) - off
  {
    var rest := members - d;
    forall m | m in members && m !in d
      ensures (members[m].wchan, members[m].nick) in Pairs(rest)
    {
      assert rest[m] == members[m];
    }
  }

  lemma GonePairs(s: State, gone: set<NickPtr>)
    ensures Pairs(WithoutNicks(s, gone).members) == Staying(Pairs(s.members), gone)
  {
    var off := set p | p in Pairs(s.members) && p.1 in gone;
    forall m | m in s.members
      ensures m in MembersOf(s.members, gone) <==> (s.members[m].wchan, s.members[m].nick) in off
    {
      assert (s.members[m].wchan, s.members[m].nick) in Pairs(s.members);
    }
    RemovedPairs(s.members, MembersOf(s.members, gone), off);
    assert Pairs(s.members) - off == Staying(Pairs(s.members), gone);
  }

  lemma NobodyGone(pairs: set<(Name, NickPtr)>)
    ensures Staying(pairs, {}) == pairs
  {
  }

  lemma JoinPairs(s: State, w: Name, ref: Name, m: MemberPtr)
    requires Inv(s) && m !in s.members
    ensures Pairs(Joined(s, w, ref, m).members) == Pairs(s.members) + Entering(s, Join(ref, w, m))
    ensures w in s.wchans ==> Pairs(SjoinedNick(s, w, ref, m).members) == Pairs(s.members) + Entering(s, SjoinNick(w, ref, m))
  {
    var found := NickOf(s.nicks, ref);
    if found.Some? {
      AddedPair(s.members, m, w, found.value);
      if k :| k in s.members && s.members[k] == Member(w, found.value) {
        assert (s.members[k].wchan, s.members[k].nick) in Pairs(s.members);
      }
    }
  }

  lemma PartPairs(s: State, ref: Name, w: Name)
    requires Inv(s)
    ensures Pairs(Left(s, ref, w).members) == Pairs(s.members) - Parting(s, Part(ref, w))
  {
    assert Holds(s, ChanLists);
    var found := NickOf(s.nicks, ref);
    if found.Some? {
      forall m | m in s.members
        ensures s.members[m].wchan in s.wchans
      {
      }
      if w in s.wchans {
        RemovedPairs(s.members, Memberships(s.members, found.value, w), {(w, found.value)});
      } else {
        assert Pairs(s.members) - {(w, found.value)} == Pairs(s.members);
      }
    }
  }

  lemma GhostPairs(s: State, n: NickPtr, u: Name)
    requires n in s.nicks && u in s.users && s.users[u].authedNick != Some(n) && InvSessions(s.users, s.nicks)
    ensures Pairs(GhostLogin(s, n, u).members) == Staying(Pairs(s.members), HolderOf(s, u))
  {
    if s.users[u].authed && s.users[u].authedNick.Some? {
      GonePairs(s, {s.users[u].authedNick.value});
    } else {
      NobodyGone(Pairs(s.members));
    }
  }

  lemma UidPairs(cfg: Config, s: State, ev: Event)
    requires Inv(s) && ev.Uid? && Allowed(s, ev)
    ensures Pairs(Introduced(cfg, s, ev).members) == Staying(Pairs(s.members), OnUid(cfg, s, ev).leaving)
  {
    NobodyGone(Pairs(s.members));
    AdmittedByCount(cfg, s, ev);
    if Admitted(cfg, s, ev) {
      AdmittedPairs(s, ev);
    }
  }

  lemma AdmittedPairs(s: State, ev: Event)
    requires Inv(s) && ev.Uid? && Allowed(s, ev) && ServerOf(s.servers, s.serverList, ev.server).Some?
    ensures var c := Connect(s, ev.n, NewNick(ev, ServerOf(s.servers, s.serverList, ev.server).value));
      var u := SaslTarget(s, ev.name, ev.svid);
      && (forall v :: v in c.users ==> c.users[v].authedNick != Some(ev.n))
      && ev.n in SaslFinish(c, ev.n).nicks
      && Pairs(Greet(SaslFinish(c, ev.n), ev.n, ev.now).members) ==
        Staying(Pairs(s.members), if u.Some? then HolderOf(s, u.value) else {})
  {
    var nick := NewNick(ev, ServerOf(s.servers, s.serverList, ev.server).value);
    var c := Connect(s, ev.n, nick);
    ConnectKeeps(s, ev.n, nick);
    assert Holds(c, Sessions);
    SaslExactly(c, ev.n);
    SaslPairs(c, ev.n);
    SameTargets(s, c, ev);
    GreetMembers(SaslFinish(c, ev.n), ev.n, ev.now);
  }

  lemma SaslPairs(s: State, n: NickPtr)
    requires n in s.nicks && s.nicks[n].account.None? && InvSessions(s.users, s.nicks)
    requires forall u :: u in s.users ==> s.users[u].authedNick != Some(n)
    ensures var u := SaslTarget(s, s.nicks[n].name, s.nicks[n].svid);
      Pairs(SaslFinish(s, n).members) == Staying(Pairs(s.members), if u.Some? then HolderOf(s, u.value) else {})
  {
    NobodyGone(Pairs(s.members));
    var u := SaslTarget(s, s.nicks[n].name, s.nicks[n].svid);
    if u.Some? {
      GhostPairs(s, n, u.value);
      assert SaslFinish(s, n) == GhostLogin(s, n, u.value);
    }
  }

  lemma GreetMembers(s: State, n: NickPtr, now: int)
    requires n in s.nicks
    ensures Greet(s, n, now).members == s.members
  {
    assert GreetRegistered(s, n).members == s.members;
  }

  lemma IdentifyPairs(cfg: Config, s: State, n: NickPtr, password: bool, now: int)
    requires Inv(s) && n in s.nicks
    ensures Pairs(Step(cfg, s, Identify(n, password, now)).members) ==
      Staying(Pairs(s.members), OnIdentify(cfg, s, n, password, now).leaving)
  {
    assert Holds(s, Sessions);
    NobodyGone(Pairs(s.members));
    var u := s.nicks[n].name;
    if s.nicks[n].account.None? && u in s.users {
      if !password {
        WrongPasswordPairs(cfg, s, n, now);
      } else if !s.users[u].suspended {
        GhostPairs(s, n, u);
      }
    }
  }

  lemma WrongPasswordPairs(cfg: Config, s: State, n: NickPtr, now: int)
    requires n in s.nicks
    ensures Pairs(WrongPassword(cfg, s, n, now).members) ==
      Staying(Pairs(s.members), if OneTooMany(cfg, s.nicks[n], now) then {n} else {})
  {
    var tries, since := WrongPasswordIs(cfg, s, n, now);
    NobodyGone(Pairs(s.members));
    GonePairs(Tried(s, n, tries, since), {n});
  }

  lemma LeavingPairs(cfg: Config, s: State, ev: Event)
    requires Inv(s) && Allowed(s, ev) && (ev.Quit? || ev.Squit?)
    ensures Pairs(Step(cfg, s, ev).members) == Staying(Pairs(s.members), ChangeBy(cfg, s, ev).leaving)
  {
    assert Holds(s, Forest);
    NobodyGone(Pairs(s.members));
    if ev.Quit? && NickOf(s.nicks, ev.nick).Some? {
      GonePairs(s, {NickOf(s.nicks, ev.nick).value});
    } else if ev.Squit? && ServerOf(s.servers, s.serverList, ev.server).Some? {
      GonePairs(s, NicksOn(s.nicks, Below(s, ServerOf(s.servers, s.serverList, ev.server).value)));
    }
  }

  lemma SameMembers(cfg: Config, s: State, ev: Event)
    requires Inv(s) && Allowed(s, ev) && (ev.SjoinChannel? || ev.Sid? || ev.Uplink? || ev.CheckGuests?)
    ensures Step(cfg, s, ev).members == s.members
  {
  }

  lemma SameMembersOnSettings(cfg: Config, s: State, ev: Event)
    requires Inv(s) && Allowed(s, ev) && (ev.SetProtect? || ev.SetTimeout? || ev.TakeOptions?)
    ensures Step(cfg, s, ev).members == s.members
  {
  }

  lemma SameMembersOnRegister(cfg: Config, s: State, n: NickPtr, emailreg: bool)
    requires n in s.nicks
    ensures Registered(cfg, s, n, emailreg).members == s.members
  {
  }

  lemma SameMembersOnForceauth(s: State, ref: Name)
    ensures Forced(s, ref).members == s.members
  {
  }

  lemma SameMembersOnNick(cfg: Config, s: State, ev: Event)
    requires Inv(s) && Allowed(s, ev) && ev.NickChange?
    ensures Step(cfg, s, ev).members == s.members
  {
  }

  lemma SameMembersOnAccounts(cfg: Config, s: State, ev: Event)
    requires Inv(s) && Allowed(s, ev) && (ev.Suspend? || ev.Unsuspend? || ev.Drop?)
    ensures Step(cfg, s, ev).members == s.members
  {
    assert Holds(s, Sessions);
  }

  /** Nicks are on channels for as long as they are online and have not parted, and get there by JOIN and SJOIN. */
  lemma PairsExactly(cfg: Config, s: State, ev: Event)
    requires Inv(s) && Allowed(s, ev)
    ensures Pairs(Step(cfg, s, ev).members) ==
      Staying(Pairs(s.members), ChangeBy(cfg, s, ev).leaving) - Parting(s, ev) + Entering(s, ev)
  {
    if ev.Join? || ev.SjoinNick? || ev.Part? || ev.Uid? || ev.Identify? || ev.Quit? || ev.Squit? {
      MovingPairs(cfg, s, ev);
    } else {
      StillPairs(cfg, s, ev);
    }
  }

  lemma MovingPairs(cfg: Config, s: State, ev: Event)
    requires Inv(s) && Allowed(s, ev)
    requires ev.Join? || ev.SjoinNick? || ev.Part? || ev.Uid? || ev.Identify? || ev.Quit? || ev.Squit?
    ensures Pairs(Step(cfg, s, ev).members) ==
      Staying(Pairs(s.members), ChangeBy(cfg, s, ev).leaving) - Parting(s, ev) + Entering(s, ev)
  {
    NobodyGone(Pairs(s.members));
    match ev {
      case Join(sender, w, m) => JoinPairs(s, w, sender, m);
      case SjoinNick(w, nick, m) => JoinPairs(s, w, nick, m);
      case Part(nick, w) => PartPairs(s, nick, w);
      case Uid(_, _, _, _, _, _, _, _, _) => UidPairs(cfg, s, ev);
      case Identify(n, password, now) => IdentifyPairs(cfg, s, n, password, now);
      case Quit(_) => LeavingPairs(cfg, s, ev);
      case Squit(_) => LeavingPairs(cfg, s, ev);
    }
  }

  lemma StillPairs(cfg: Config, s: State, ev: Event)
    requires Inv(s) && Allowed(s, ev)
    requires !ev.Join? && !ev.SjoinNick? && !ev.Part? && !ev.Uid? && !ev.Identify? && !ev.Quit? && !ev.Squit?
    ensures Pairs(Step(cfg, s, ev).members) ==
      Staying(Pairs(s.members), ChangeBy(cfg, s, ev).leaving) - Parting(s, ev) + Entering(s, ev)
  {
    NobodyGone(Pairs(s.members));
    match ev {
      case Suspend(_, _) => SameMembersOnAccounts(cfg, s, ev);
      case Unsuspend(_, _) => SameMembersOnAccounts(cfg, s, ev);
      case Drop(_) => SameMembersOnAccounts(cfg, s, ev);
      case NickChange(_, _, _, _) => SameMembersOnNick(cfg, s, ev);
      case Register(n, emailreg) => SameMembersOnRegister(cfg, s, n, emailreg);
      case Forceauth(nick) => SameMembersOnForceauth(s, nick);
      case SetProtect(_, _) => SameMembersOnSettings(cfg, s, ev);
      case SetTimeout(_, _) => SameMembersOnSettings(cfg, s, ev);
      case TakeOptions(_, _, _) => SameMembersOnSettings(cfg, s, ev);
      case _ => SameMembers(cfg, s, ev);
    }
  }

  // ----- The order of the lists.

  /** A nick that gets onto a channel is the last one there, and the channel the last one it is on. */
  function Appended(s: State, n: NickPtr, w: Name, m: MemberPtr): State
    requires n in s.nicks
  {
    s.(members := s.members[m := Member(w, n)],
       wchans := s.wchans[w := (if w in s.wchans then s.wchans[w] else []) + [m]],
       nicks := s.nicks[n := s.nicks[n].(wchans := s.nicks[n].wchans + [m])])
  }

  /** By JOIN a nick that is online gets there, twice if it likes; by SJOIN only when it is not there; and the channel
      itself is there, empty, from the first mention in SJOIN on. */
  lemma JoinsExactly(cfg: Config, s: State, ev: Event, n: NickPtr)
    requires Inv(s) && Allowed(s, ev)
    ensures ev.Join? && Answers(s.nicks, ev.sender, n) ==> Step(cfg, s, ev) == Appended(s, n, ev.w, ev.m)
    ensures ev.SjoinNick? && Answers(s.nicks, ev.nick, n) ==>
      Step(cfg, s, ev) == if (ev.w, n) in Pairs(s.members) then s else Appended(s, n, ev.w, ev.m)
    ensures ev.SjoinChannel? ==>
      Step(cfg, s, ev) == s.(wchans := s.wchans[ev.w := if ev.w in s.wchans then s.wchans[ev.w] else []])
  {
    assert Holds(s, Names);
    if ev.Join? && Answers(s.nicks, ev.sender, n) {
      JoinedIs(s, ev.w, ev.sender, ev.m, n);
    } else if ev.SjoinNick? && Answers(s.nicks, ev.nick, n) {
      JoinedIs(s, ev.w, ev.nick, ev.m, n);
    }
  }

  lemma JoinedIs(s: State, w: Name, ref: Name, m: MemberPtr, n: NickPtr)
    requires InvNames(s.nicks) && Answers(s.nicks, ref, n)
    ensures Joined(s, w, ref, m) == Appended(s, n, w, m)
    ensures w in s.wchans ==> SjoinedNick(s, w, ref, m) == if (w, n) in Pairs(s.members) then s else Appended(s, n, w, m)
  {
    NickOfUnique(s.nicks, ref, n);
    AppendedIs(s, n, w, m);
    if (w, n) in Pairs(s.members) {
      var k :| k in s.members && (s.members[k].wchan, s.members[k].nick) == (w, n);
      assert OnChannel(s.members, n, w);
    }
  }

  lemma AppendedIs(s: State, n: NickPtr, w: Name, m: MemberPtr)
    requires n in s.nicks
    ensures JoinChannel(s, n, w, m) == Appended(s, n, w, m)
    ensures w in s.wchans ==> AddMember(s, w, n, m) == Appended(s, n, w, m)
  {
  }
}
