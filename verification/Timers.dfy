/** When a guest timer runs, and which servers there are: for every event exactly. */
module Timers {
  import opened Wrappers
  import opened Lists
  import opened Network
  import opened NetSplit
  import opened Membership
  import opened Events
  import opened NetRuns
  import opened Suspension
  import opened Effects
  import opened Origins

  // ----- Guest timers.

  function NamesOf(nicks: map<NickPtr, Nick>, gone: set<NickPtr>): set<Name> {
    set n | n in gone && n in nicks :: nicks[n].name
  }

  /** A nick has arrived under a protected name without its account. */
  predicate Intrudes(s: State, ev: Event)
    requires ev.Uid?
  {
    ev.name in s.users && Brought(s, ev).None? && s.users[ev.name].protect && !s.users[ev.name].suspended
  }

  /** A nick has taken a protected name, and its session has not moved there. */
  ghost predicate Trespasses(s: State, n: NickPtr, name: Name, linked: bool)
    requires n in s.nicks
  {
    name != s.nicks[n].name && name in s.users && s.users[name].protect && !MovesSession(s, n, name, linked)
  }

  ghost function TimersOnRename(s: State, ref: Name, name: Name, linked: bool, now: int): map<Name, Guest> {
    match NickOf(s.nicks, ref)
    case None => s.guests
    case Some(n) =>
      if n !in s.nicks then s.guests
      else
        var rest := s.guests - {s.nicks[n].name};
        if Trespasses(s, n, name, linked) then rest[name := Guest(s.users[name].timeout, now)] else rest
  }

  ghost function TimersOnForceauth(s: State, ref: Name): map<Name, Guest> {
    match NickOf(s.nicks, ref)
    case None => s.guests
    case Some(n) =>
      if n in s.nicks && s.nicks[n].account.None? && s.nicks[n].name == ref && ref in s.users && s.users[ref].protect
      then s.guests - {ref} else s.guests
  }

  function TimersOnIdentify(cfg: Config, s: State, n: NickPtr, password: bool, now: int): map<Name, Guest>
    requires n in s.nicks
  {
    var u, gone := s.nicks[n].name, OnIdentify(cfg, s, n, password, now);
    var rest := s.guests - NamesOf(s.nicks, gone.leaving);
    if n in gone.accounts && u in s.users && s.users[u].protect then rest - {u} else rest
  }

  /** The timers after an event. */
  ghost function TimersBy(cfg: Config, s: State, ev: Event): map<Name, Guest>
    requires Allowed(s, ev)
  {
    match ev
    case Uid(_, _, _, _, _, _, _, _, _) =>
      var rest := s.guests - NamesOf(s.nicks, OnUid(cfg, s, ev).leaving);
      if Admitted(cfg, s, ev) && Intrudes(s, ev) then rest[ev.name := Guest(s.users[ev.name].timeout, ev.now)] else rest
    case NickChange(sender, newNick, linked, now) => TimersOnRename(s, sender, newNick, linked, now)
    case Identify(n, password, now) => TimersOnIdentify(cfg, s, n, password, now)
    case Forceauth(nick) => TimersOnForceauth(s, nick)
    case Quit(_) => s.guests - NamesOf(s.nicks, ChangeBy(cfg, s, ev).leaving)
    case Squit(_) => s.guests - NamesOf(s.nicks, ChangeBy(cfg, s, ev).leaving)
    case Drop(u) => if u in s.users then s.guests - {u} else s.guests
    case CheckGuests(now) => map g | g in s.guests && now < s.guests[g].nickconn + s.guests[g].timeout :: s.guests[g]
    case _ => s.guests
  }

  lemma GoneTimers(s: State, gone: set<NickPtr>)
    ensures WithoutNicks(s, gone).guests == s.guests - NamesOf(s.nicks, gone)
  {
    forall g | g in s.guests
      ensures Named(s.nicks, gone, g) <==> g in NamesOf(s.nicks, gone)
    {
    }
  }

  lemma NoTimer(s: State, name: Name)
    requires Inv(s) && forall n :: n in s.nicks ==> s.nicks[n].name != name
    ensures name !in s.guests
  {
    assert Holds(s, Guests);
  }

  lemma GhostTimers(s: State, n: NickPtr, u: Name)
    requires n in s.nicks && u in s.users && s.users[u].authedNick != Some(n) && InvSessions(s.users, s.nicks)
    ensures var rest := s.guests - NamesOf(s.nicks, HolderOf(s, u));
      GhostLogin(s, n, u).guests == if s.nicks[n].name == u && s.users[u].protect then rest - {u} else rest
  {
    if s.users[u].authed && s.users[u].authedNick.Some? {
      GoneTimers(s, {s.users[u].authedNick.value});
    } else {
      assert NamesOf(s.nicks, {}) == {};
    }
  }

  lemma GreetTimer(s: State, n: NickPtr, now: int)
    requires n in s.nicks
    ensures var name, r := s.nicks[n].name, GreetRegistered(s, n);
      var starts := name in s.users && (!s.nicks[n].registered || s.nicks[n].account.None?)
        && !s.users[name].suspended && s.users[name].protect && name !in s.guests;
      Greet(s, n, now).guests ==
        if OwnAccount(s, n) then (if s.users[name].protect then s.guests - {name} else s.guests)
        else if starts then s.guests[name := Guest(s.users[name].timeout, now)]
        else s.guests
  {
    var name, r := s.nicks[n].name, GreetRegistered(s, n);
    if OwnAccount(s, n) {
      assert r == Login(s, n, name);
      assert Greet(s, n, now) == r;
    } else {
      assert r.users == s.users && r.guests == s.guests;
      assert r.nicks[n].registered == (s.nicks[n].registered && s.nicks[n].account.Some?);
    }
  }

  lemma RenameTimer(s: State, n: NickPtr, name: Name, linked: bool, now: int)
    requires Inv(s) && n in s.nicks && FreeFor(s.nicks, n, name)
    ensures var rest := s.guests - {s.nicks[n].name};
      NickChanged(s, n, name, linked, now).guests ==
        if Trespasses(s, n, name, linked) then rest[name := Guest(s.users[name].timeout, now)] else rest
  {
    assert Holds(s, Guests);
    var t := Rename(s, n, name);
    if name != s.nicks[n].name && name in s.guests {
      var m :| m in s.nicks && s.nicks[m].name == name;
      assert Answers(s.nicks, name, m);
    }
  }

  lemma SaslTimers(s: State, n: NickPtr)
    requires n in s.nicks && s.nicks[n].account.None? && InvSessions(s.users, s.nicks) && s.nicks[n].name !in s.guests
    requires forall u :: u in s.users ==> s.users[u].authedNick != Some(n)
    ensures var u := SaslTarget(s, s.nicks[n].name, s.nicks[n].svid);
      SaslFinish(s, n).guests == s.guests - NamesOf(s.nicks, if u.Some? then HolderOf(s, u.value) else {})
  {
    var u := SaslTarget(s, s.nicks[n].name, s.nicks[n].svid);
    assert NamesOf(s.nicks, {}) == {};
    if u.Some? {
      GhostTimers(s, n, u.value);
      assert SaslFinish(s, n) == GhostLogin(s, n, u.value);
    }
  }

  lemma AdmittedTimers(s: State, ev: Event)
    requires Inv(s) && ev.Uid? && Allowed(s, ev) && ServerOf(s.servers, s.serverList, ev.server).Some?
    ensures var c := Connect(s, ev.n, NewNick(ev, ServerOf(s.servers, s.serverList, ev.server).value));
      var u := SaslTarget(s, ev.name, ev.svid);
      var rest := s.guests - NamesOf(s.nicks, if u.Some? then HolderOf(s, u.value) else {});
      && (forall v :: v in c.users ==> c.users[v].authedNick != Some(ev.n))
      && ev.n in SaslFinish(c, ev.n).nicks
      && Greet(SaslFinish(c, ev.n), ev.n, ev.now).guests ==
        if Intrudes(s, ev) then rest[ev.name := Guest(s.users[ev.name].timeout, ev.now)] else rest
  {
    var nick := NewNick(ev, ServerOf(s.servers, s.serverList, ev.server).value);
    var c := Connect(s, ev.n, nick);
    ConnectKeeps(s, ev.n, nick);
    SaslExactly(c, ev.n);
    HookTimers(s, c, ev);
    HookStarts(s, c, SaslFinish(c, ev.n), ev);
    GreetedTimers(s, SaslFinish(c, ev.n), ev);
  }

  /** The end of UID for what the hook has left. */
  lemma GreetedTimers(s: State, d: State, ev: Event)
    requires ev.Uid? && HookLeft(s, d, ev) && ev.name !in d.guests
    ensures Greet(d, ev.n, ev.now).guests ==
      if Intrudes(s, ev) then d.guests[ev.name := Guest(s.users[ev.name].timeout, ev.now)] else d.guests
  {
    GreetTimer(d, ev.n, ev.now);
  }

  lemma FreshName(s: State, ev: Event)
    requires Inv(s) && ev.Uid? && Allowed(s, ev)
    ensures ev.name !in s.guests && forall n :: n in s.nicks ==> s.nicks[n].name != ev.name
  {
    forall n | n in s.nicks
      ensures s.nicks[n].name != ev.name
    {
      assert !Answers(s.nicks, ev.name, n);
    }
    NoTimer(s, ev.name);
  }

  lemma HookTimers(s: State, c: State, ev: Event)
    requires Inv(s) && ev.Uid? && Allowed(s, ev) && ServerOf(s.servers, s.serverList, ev.server).Some?
    requires c == Connect(s, ev.n, NewNick(ev, ServerOf(s.servers, s.serverList, ev.server).value)) && Inv(c)
    requires forall v :: v in c.users ==> c.users[v].authedNick != Some(ev.n)
    ensures var u := SaslTarget(s, ev.name, ev.svid);
      SaslFinish(c, ev.n).guests == s.guests - NamesOf(s.nicks, if u.Some? then HolderOf(s, u.value) else {})
    ensures ev.name !in s.guests
  {
    var u := SaslTarget(s, ev.name, ev.svid);
    assert Holds(c, Sessions);
    FreshName(s, ev);
    SaslTimers(c, ev.n);
    NotTheNewOne(s, ev.n, u);
    SameTargets(s, c, ev);
    SameNames(s.nicks, c.nicks, ev.n, if u.Some? then HolderOf(s, u.value) else {});
  }

  lemma SameNames(nicks: map<NickPtr, Nick>, nicks': map<NickPtr, Nick>, n: NickPtr, some: set<NickPtr>)
    requires n !in some && n in nicks' && nicks' == nicks[n := nicks'[n]]
    ensures NamesOf(nicks', some) == NamesOf(nicks, some)
  {
  }

  /** Whether the hook has left anything to start. */
  ghost predicate HookLeft(s: State, d: State, ev: Event)
    requires ev.Uid?
  {
    && ev.n in d.nicks && d.nicks[ev.n].name == ev.name
    && (OwnAccount(d, ev.n) <==> SaslTarget(s, ev.name, ev.svid).None? && Brought(s, ev).Some?)
    && d.users.Keys == s.users.Keys
    && (SaslTarget(s, ev.name, ev.svid).None? ==> d.users == s.users && d.nicks[ev.n].account.None?)
    && (SaslTarget(s, ev.name, ev.svid).Some? && ev.name in s.users ==>
      d.nicks[ev.n].registered && d.nicks[ev.n].account == Some(ev.name))
  }

  lemma HookStarts(s: State, c: State, d: State, ev: Event)
    requires Inv(s) && ev.Uid? && Allowed(s, ev) && c.users == s.users
    requires ev.n in c.nicks && c.nicks[ev.n].name == ev.name && c.nicks[ev.n].svid == ev.svid
    requires c.nicks[ev.n].registered == ev.plusR && c.nicks[ev.n].account.None? && Hooked(c, ev.n, d)
    ensures HookLeft(s, d, ev)
  {
    assert SaslTarget(c, ev.name, ev.svid) == SaslTarget(s, ev.name, ev.svid);
  }

  lemma UidTimers(cfg: Config, s: State, ev: Event)
    requires Inv(s) && ev.Uid? && Allowed(s, ev)
    ensures Step(cfg, s, ev).guests == TimersBy(cfg, s, ev)
  {
    AdmittedByCount(cfg, s, ev);
    assert NamesOf(s.nicks, {}) == {};
    if Admitted(cfg, s, ev) {
      AdmittedTimers(s, ev);
    }
  }

  lemma IdentifyTimers(cfg: Config, s: State, n: NickPtr, password: bool, now: int)
    requires Inv(s) && n in s.nicks
    ensures Step(cfg, s, Identify(n, password, now)).guests == TimersOnIdentify(cfg, s, n, password, now)
  {
    assert Holds(s, Sessions);
    assert NamesOf(s.nicks, {}) == {};
    var u := s.nicks[n].name;
    if s.nicks[n].account.None? && u in s.users {
      if !password {
        WrongPasswordTimers(cfg, s, n, now);
      } else if !s.users[u].suspended {
        GhostTimers(s, n, u);
      }
    }
  }

  lemma WrongPasswordTimers(cfg: Config, s: State, n: NickPtr, now: int)
    requires n in s.nicks
    ensures WrongPassword(cfg, s, n, now).guests ==
      s.guests - NamesOf(s.nicks, if OneTooMany(cfg, s.nicks[n], now) then {n} else {})
  {
    var tries, since := WrongPasswordIs(cfg, s, n, now);
    var t := Tried(s, n, tries, since);
    assert NamesOf(s.nicks, {}) == {};
    GoneTimers(t, {n});
    assert NamesOf(t.nicks, {n}) == NamesOf(s.nicks, {n});
  }

  lemma RegisterTimers(cfg: Config, s: State, n: NickPtr, emailreg: bool)
    requires n in s.nicks
    ensures Registered(cfg, s, n, emailreg).guests == s.guests
  {
    var u := s.nicks[n].name;
    if AccountOf(s, n).None? && !emailreg {
      var t := NewUser(cfg, s, u);
      assert !t.users[u].protect;
      assert Registered(cfg, s, n, emailreg) == Login(t, n, u);
    }
  }

  lemma LeavingTimers(cfg: Config, s: State, ev: Event)
    requires Inv(s) && Allowed(s, ev) && (ev.Quit? || ev.Squit?)
    ensures Step(cfg, s, ev).guests == TimersBy(cfg, s, ev)
  {
    assert Holds(s, Forest);
    assert NamesOf(s.nicks, {}) == {};
    if ev.Quit? && NickOf(s.nicks, ev.nick).Some? {
      GoneTimers(s, {NickOf(s.nicks, ev.nick).value});
    } else if ev.Squit? && ServerOf(s.servers, s.serverList, ev.server).Some? {
      GoneTimers(s, NicksOn(s.nicks, Below(s, ServerOf(s.servers, s.serverList, ev.server).value)));
    }
  }

  lemma SuspensionTimers(s: State, u: Name, rank: int, on: bool)
    requires u in s.users && (s.users[u].authedNick.Some? ==> s.users[u].authedNick.value in s.nicks)
    ensures SuspensionSet(s, u, rank, on).guests == s.guests
  {
  }

  lemma DropTimers(s: State, u: Name)
    requires u in s.users && (s.users[u].authedNick.Some? ==> s.users[u].authedNick.value in s.nicks)
    ensures Dropped(s, u).guests == s.guests - {u}
  {
  }

  lemma AccountTimers(cfg: Config, s: State, ev: Event)
    requires Inv(s) && Allowed(s, ev) && (ev.Suspend? || ev.Unsuspend? || ev.Drop?)
    ensures Step(cfg, s, ev).guests == TimersBy(cfg, s, ev)
  {
    assert Holds(s, Sessions);
    if ev.u in s.users {
      match ev {
        case Suspend(u, rank) => SuspensionTimers(s, u, rank, true);
        case Unsuspend(u, rank) => SuspensionTimers(s, u, rank, false);
        case Drop(u) => DropTimers(s, u);
      }
    }
  }

  lemma ForceauthTimers(s: State, ref: Name)
    ensures Forced(s, ref).guests == TimersOnForceauth(s, ref)
  {
  }

  lemma ChannelTimers(cfg: Config, s: State, ev: Event)
    requires Inv(s) && Allowed(s, ev) && (ev.Join? || ev.SjoinChannel? || ev.SjoinNick? || ev.Part? || ev.Sid? || ev.Uplink?)
    ensures Step(cfg, s, ev).guests == s.guests
  {
  }

  lemma SettingTimers(cfg: Config, s: State, ev: Event)
    requires Inv(s) && Allowed(s, ev) && (ev.SetProtect? || ev.SetTimeout? || ev.TakeOptions?)
    ensures Step(cfg, s, ev).guests == s.guests
  {
  }

  /** Guest timers run from the arrival under a protected name until the nick leaves, changes its name or logs in, the
      account is dropped, or the time is over; and nothing else starts or stops one. */
  lemma TimersExactly(cfg: Config, s: State, ev: Event)
    requires Inv(s) && Allowed(s, ev)
    ensures Step(cfg, s, ev).guests == TimersBy(cfg, s, ev)
  {
    match ev {
      case Uid(_, _, _, _, _, _, _, _, _) => UidTimers(cfg, s, ev);
      case NickChange(sender, newNick, linked, now) =>
        if NickOf(s.nicks, sender).Some? {
          RenameTimer(s, NickOf(s.nicks, sender).value, newNick, linked, now);
        }
      case Identify(n, password, now) => IdentifyTimers(cfg, s, n, password, now);
      case Register(n, emailreg) => RegisterTimers(cfg, s, n, emailreg);
      case Quit(_) => LeavingTimers(cfg, s, ev);
      case Squit(_) => LeavingTimers(cfg, s, ev);
      case Forceauth(nick) => ForceauthTimers(s, nick);
      case Suspend(_, _) => AccountTimers(cfg, s, ev);
      case Unsuspend(_, _) => AccountTimers(cfg, s, ev);
      case Drop(_) => AccountTimers(cfg, s, ev);
      case SetProtect(_, _) => SettingTimers(cfg, s, ev);
      case SetTimeout(_, _) => SettingTimers(cfg, s, ev);
      case TakeOptions(_, _, _) => SettingTimers(cfg, s, ev);
      case CheckGuests(_) =>
      case _ => ChannelTimers(cfg, s, ev);
    }
  }

  // ----- Servers.

  /** find_server finds the first one on the list with that name or SID, and one whenever there is one. */
  lemma {:induction false} ServerOfExactly(servers: map<ServerPtr, Server>, list: seq<ServerPtr>, ref: Name)
    ensures var r := ServerOf(servers, list, ref);
      && (r.Some? <==> exists i :: 0 <= i < |list| && Called(servers, list[i], ref))
      && (r.Some? ==> exists i :: 0 <= i < |list| && list[i] == r.value && FirstCalled(servers, list, i, ref))
  {
    if list != [] && !Called(servers, list[0], ref) {
      ServerOfExactly(servers, list[1..], ref);
      assert forall i :: 1 <= i < |list| ==> list[i] == list[1..][i - 1];
      if ServerOf(servers, list, ref).Some? {
        var i :| 0 <= i < |list[1..]| && list[1..][i] == ServerOf(servers, list, ref).value
          && FirstCalled(servers, list[1..], i, ref);
        assert forall j :: 0 <= j < i + 1 ==> j == 0 || list[j] == list[1..][j - 1];
        assert list[i + 1] == list[1..][i] && FirstCalled(servers, list, i + 1, ref);
      }
    }
  }

  predicate Called(servers: map<ServerPtr, Server>, x: ServerPtr, ref: Name) {
    ref != "" && x in servers && (servers[x].name == ref || servers[x].sid == ref)
  }

  predicate FirstCalled(servers: map<ServerPtr, Server>, list: seq<ServerPtr>, i: nat, ref: Name)
    requires i < |list|
  {
    Called(servers, list[i], ref) && forall j :: 0 <= j < i ==> !Called(servers, list[j], ref)
  }

  /** Some server has that name or SID. */
  ghost predicate Taken(s: State, ref: Name) {
    exists x :: Called(s.servers, x, ref)
  }

  lemma TakenIsFound(s: State, ref: Name)
    requires Inv(s)
    ensures Taken(s, ref) <==> ServerOf(s.servers, s.serverList, ref).Some?
  {
    assert Holds(s, Forest);
    ServerOfExactly(s.servers, s.serverList, ref);
    if x :| Called(s.servers, x, ref) {
      assert x in s.serverList;
    }
  }

  /** The servers after an event: who has gone, and who has come below which hub. */
  ghost predicate ServersAfter(s: State, t: State, gone: set<ServerPtr>, come: map<ServerPtr, Server>) {
    && t.servers.Keys == s.servers.Keys - gone + come.Keys
    && (forall x :: x in t.servers ==>
      && x in s.servers + come
      && var was := if x in come then come[x] else s.servers[x];
      t.servers[x].name == was.name && t.servers[x].sid == was.sid && t.servers[x].hub == was.hub)
  }

  ghost function ServersGone(s: State, ev: Event): set<ServerPtr> {
    if ev.Squit? && ServerOf(s.servers, s.serverList, ev.server).Some?
    then Below(s, ServerOf(s.servers, s.serverList, ev.server).value) else {}
  }

  /** A server comes with SID below a hub that is known, and as the uplink, when its name and SID, or in the second case
      its SID, are not in use. */
  ghost function ServersCome(s: State, ev: Event): map<ServerPtr, Server> {
    match ev
    case Sid(hub, x, name, sid) =>
      var h := ServerOf(s.servers, s.serverList, hub);
      if h.Some? && !Taken(s, name) && !Taken(s, sid) then map[x := Server(name, sid, h, [], [])] else map[]
    case Uplink(x, name, sid) =>
      if sid != "" && !Taken(s, sid) then map[x := Server(name, sid, None, [], [])] else map[]
    case _ => map[]
  }

  lemma AddedServer(s: State, x: ServerPtr, name: Name, sid: Name, hub: Option<ServerPtr>)
    requires x !in s.servers && (hub.Some? ==> hub.value in s.servers)
    ensures ServersAfter(s, AddServer(s, x, name, sid, hub), {}, map[x := Server(name, sid, hub, [], [])])
  {
  }

  lemma SameServers(s: State, t: State)
    requires t.servers.Keys == s.servers.Keys
    requires forall x :: x in s.servers ==>
      t.servers[x].name == s.servers[x].name && t.servers[x].sid == s.servers[x].sid && t.servers[x].hub == s.servers[x].hub
    ensures ServersAfter(s, t, {}, map[])
  {
  }

  lemma SidServers(s: State, hub: Name, x: ServerPtr, name: Name, sid: Name)
    requires Inv(s) && x !in s.servers
    ensures ServersAfter(s, Linked(s, hub, x, name, sid), {}, ServersCome(s, Sid(hub, x, name, sid)))
  {
    TakenIsFound(s, name);
    TakenIsFound(s, sid);
    SameServers(s, s);
    var h := ServerOf(s.servers, s.serverList, hub);
    if h.Some? {
      AddedServer(s, x, name, sid, h);
    }
  }

  lemma UplinkServers(s: State, x: ServerPtr, name: Name, sid: Name)
    requires Inv(s) && x !in s.servers
    ensures ServersAfter(s, Uplinked(s, x, name, sid), {}, ServersCome(s, Uplink(x, name, sid)))
  {
    TakenIsFound(s, sid);
    SameServers(s, s);
    AddedServer(s, x, name, sid, None);
  }

  /** Servers that only gain or lose nicks. */
  lemma NickListServers(cfg: Config, s: State, ev: Event)
    requires Inv(s) && Allowed(s, ev) && (ev.Quit? || ev.Identify? || ev.Uid?)
    ensures ServersAfter(s, Step(cfg, s, ev), {}, map[])
  {
    match ev {
      case Quit(nick) => SameServers(s, Gone(s, nick));
      case Identify(n, password, now) => IdentifyServers(cfg, s, n, password, now);
      case Uid(_, _, _, _, _, _, _, _, _) => UidServers(cfg, s, ev);
    }
  }

  lemma GhostServers(s: State, n: NickPtr, u: Name)
    requires n in s.nicks && u in s.users && s.users[u].authedNick != Some(n)
    ensures ServersAfter(s, GhostLogin(s, n, u), {}, map[])
  {
    SameServers(s, GhostLogin(s, n, u));
  }

  lemma IdentifyServers(cfg: Config, s: State, n: NickPtr, password: bool, now: int)
    requires Inv(s) && n in s.nicks
    ensures ServersAfter(s, Step(cfg, s, Identify(n, password, now)), {}, map[])
  {
    assert Holds(s, Sessions);
    SameServers(s, s);
    var u := s.nicks[n].name;
    if s.nicks[n].account.None? && u in s.users {
      if !password {
        WrongPasswordServers(cfg, s, n, now);
      } else if !s.users[u].suspended {
        GhostServers(s, n, u);
      }
    }
  }

  lemma WrongPasswordServers(cfg: Config, s: State, n: NickPtr, now: int)
    requires n in s.nicks
    ensures ServersAfter(s, WrongPassword(cfg, s, n, now), {}, map[])
  {
    var tries, since := WrongPasswordIs(cfg, s, n, now);
    var t := Tried(s, n, tries, since);
    SameServers(s, t);
    SameServers(s, WithoutNicks(t, {n}));
  }

  lemma UidServers(cfg: Config, s: State, ev: Event)
    requires Inv(s) && ev.Uid? && Allowed(s, ev)
    ensures ServersAfter(s, Introduced(cfg, s, ev), {}, map[])
  {
    SameServers(s, s);
    AdmittedByCount(cfg, s, ev);
    if Admitted(cfg, s, ev) {
      var nick := NewNick(ev, ServerOf(s.servers, s.serverList, ev.server).value);
      ConnectKeeps(s, ev.n, nick);
      WelcomeServers(Connect(s, ev.n, nick), ev.n, ev.now);
      ConnectServers(s, ev.n, nick);
      SameTwice(s, Connect(s, ev.n, nick), Introduced(cfg, s, ev));
    }
  }

  lemma ConnectServers(s: State, n: NickPtr, nick: Nick)
    requires nick.server in s.servers
    ensures ServersAfter(s, Connect(s, n, nick), {}, map[])
  {
    SameServers(s, Connect(s, n, nick));
  }

  lemma SameTwice(s: State, c: State, t: State)
    requires ServersAfter(s, c, {}, map[]) && ServersAfter(c, t, {}, map[])
    ensures ServersAfter(s, t, {}, map[])
  {
  }

  lemma WelcomeServers(s: State, n: NickPtr, now: int)
    requires Inv(s) && n in s.nicks && s.nicks[n].account.None?
    ensures (forall u :: u in s.users ==> s.users[u].authedNick != Some(n)) && n in SaslFinish(s, n).nicks
    ensures ServersAfter(s, Greet(SaslFinish(s, n), n, now), {}, map[])
  {
    SaslExactly(s, n);
    SaslServers(s, n);
    GreetServers(SaslFinish(s, n), n, now);
  }

  lemma SaslServers(s: State, n: NickPtr)
    requires n in s.nicks && s.nicks[n].account.None? && forall u :: u in s.users ==> s.users[u].authedNick != Some(n)
    ensures ServersAfter(s, SaslFinish(s, n), {}, map[])
  {
    var u := SaslTarget(s, s.nicks[n].name, s.nicks[n].svid);
    if u.Some? {
      GhostServers(s, n, u.value);
      assert SaslFinish(s, n) == GhostLogin(s, n, u.value);
    } else {
      SameServers(s, SaslFinish(s, n));
    }
  }

  lemma GreetServers(s: State, n: NickPtr, now: int)
    requires n in s.nicks
    ensures Greet(s, n, now).servers == s.servers
  {
    assert GreetRegistered(s, n).servers == s.servers;
  }

  lemma SplitServers(s: State, ref: Name)
    requires Inv(s)
    ensures Holds(s, Forest) && ServersAfter(s, Split(s, ref), ServersGone(s, Squit(ref)), map[])
  {
    assert Holds(s, Forest);
    var x := ServerOf(s.servers, s.serverList, ref);
    if x.None? {
      SameServers(s, s);
    } else {
      DetachedServers(s, x.value);
    }
  }

  lemma DetachedServers(s: State, x: ServerPtr)
    requires Holds(s, Forest) && x in s.servers
    ensures ServersAfter(s, Detach(s, x), Below(s, x), map[])
  {
  }

  lemma SameServersOn(cfg: Config, s: State, ev: Event)
    requires Inv(s) && Allowed(s, ev)
    requires ev.Join? || ev.SjoinChannel? || ev.SjoinNick? || ev.Part? || ev.CheckGuests? || ev.NickChange?
    ensures Step(cfg, s, ev).servers == s.servers
  {
  }

  lemma SameServersOnAccounts(cfg: Config, s: State, ev: Event)
    requires Inv(s) && Allowed(s, ev) && (ev.Suspend? || ev.Unsuspend? || ev.Drop? || ev.Forceauth?)
    ensures Step(cfg, s, ev).servers == s.servers
  {
    assert Holds(s, Sessions);
  }

  lemma SameServersOnSettings(cfg: Config, s: State, ev: Event)
    requires Inv(s) && Allowed(s, ev) && (ev.SetProtect? || ev.SetTimeout? || ev.TakeOptions?)
    ensures Step(cfg, s, ev).servers == s.servers
  {
  }

  lemma SameServersOnRegister(cfg: Config, s: State, n: NickPtr, emailreg: bool)
    requires n in s.nicks
    ensures Registered(cfg, s, n, emailreg).servers == s.servers
  {
  }

  /** Servers come by SID and SERVER when their names are free, go with their subtree by SQUIT, and keep name, SID and hub
      in between. */
  lemma ServersExactly(cfg: Config, s: State, ev: Event)
    requires Inv(s) && Allowed(s, ev)
    ensures ServersAfter(s, Step(cfg, s, ev), ServersGone(s, ev), ServersCome(s, ev))
  {
    match ev {
      case Sid(hub, x, name, sid) => SidServers(s, hub, x, name, sid);
      case Uplink(x, name, sid) => UplinkServers(s, x, name, sid);
      case Squit(server) => SplitServers(s, server);
      case Quit(_) => NickListServers(cfg, s, ev);
      case Identify(_, _, _) => NickListServers(cfg, s, ev);
      case Uid(_, _, _, _, _, _, _, _, _) => NickListServers(cfg, s, ev);
      case _ => RestServers(cfg, s, ev);
    }
  }

  lemma RestServers(cfg: Config, s: State, ev: Event)
    requires Inv(s) && Allowed(s, ev)
    requires !ev.Sid? && !ev.Uplink? && !ev.Squit? && !ev.Quit? && !ev.Identify? && !ev.Uid?
    ensures ServersAfter(s, Step(cfg, s, ev), {}, map[])
  {
    if ev.Suspend? || ev.Unsuspend? || ev.Drop? || ev.Forceauth? {
      SameServersOnAccounts(cfg, s, ev);
    } else if ev.Register? {
      SameServersOnRegister(cfg, s, ev.n, ev.emailreg);
    } else if ev.SetProtect? || ev.SetTimeout? || ev.TakeOptions? {
      SameServersOnSettings(cfg, s, ev);
    } else {
      SameServersOn(cfg, s, ev);
    }
    SameServers(s, Step(cfg, s, ev));
  }

  /** The server is the last on the list, and the last leaf of its hub; no other server is touched. */
  ghost predicate AddedLast(s: State, t: State, x: ServerPtr, server: Server) {
    && t == s.(servers := t.servers, serverList := s.serverList + [x])
    && t.servers.Keys == s.servers.Keys + {x} && t.servers[x] == server
    && forall y :: y in s.servers ==>
      t.servers[y] == if server.hub == Some(y) then s.servers[y].(leafs := s.servers[y].leafs + [x]) else s.servers[y]
  }

  lemma AddedServerLast(s: State, x: ServerPtr, name: Name, sid: Name, hub: Option<ServerPtr>)
    requires x !in s.servers && (hub.Some? ==> hub.value in s.servers)
    ensures AddedLast(s, AddServer(s, x, name, sid, hub), x, Server(name, sid, hub, [], []))
  {
  }

  ghost predicate InOrder(s: State, t: State, x: ServerPtr, come: map<ServerPtr, Server>) {
    if come == map[] then t == s else come.Keys == {x} && AddedLast(s, t, x, come[x])
  }

  lemma ServersInOrder(cfg: Config, s: State, ev: Event)
    requires Inv(s) && Allowed(s, ev) && (ev.Sid? || ev.Uplink?)
    ensures InOrder(s, Step(cfg, s, ev), ev.x, ServersCome(s, ev))
  {
    match ev {
      case Sid(hub, x, name, sid) => LinkedInOrder(s, hub, x, name, sid);
      case Uplink(x, name, sid) => UplinkedInOrder(s, x, name, sid);
    }
  }

  lemma LinkedInOrder(s: State, ref: Name, x: ServerPtr, name: Name, sid: Name)
    requires Inv(s) && x !in s.servers
    ensures InOrder(s, Linked(s, ref, x, name, sid), x, ServersCome(s, Sid(ref, x, name, sid)))
  {
    TakenIsFound(s, name);
    TakenIsFound(s, sid);
    var hub := ServerOf(s.servers, s.serverList, ref);
    if hub.Some? && !Taken(s, name) && !Taken(s, sid) {
      AddedServerLast(s, x, name, sid, hub);
      assert ServersCome(s, Sid(ref, x, name, sid))[x] == Server(name, sid, hub, [], []);
    } else {
      assert ServersCome(s, Sid(ref, x, name, sid)) == map[];
    }
  }

  lemma UplinkedInOrder(s: State, x: ServerPtr, name: Name, sid: Name)
    requires Inv(s) && x !in s.servers
    ensures InOrder(s, Uplinked(s, x, name, sid), x, ServersCome(s, Uplink(x, name, sid)))
  {
    TakenIsFound(s, sid);
    if sid != "" && !Taken(s, sid) {
      AddedServerLast(s, x, name, sid, None);
      assert ServersCome(s, Uplink(x, name, sid))[x] == Server(name, sid, None, [], []);
    } else {
      assert ServersCome(s, Uplink(x, name, sid)) == map[];
    }
  }

  /** No two servers have the same SID, and none has an empty one. */
  ghost predicate SidsDistinct(servers: map<ServerPtr, Server>) {
    && (forall x :: x in servers ==> servers[x].sid != "")
    && (forall x, y :: x in servers && y in servers && servers[x].sid == servers[y].sid ==> x == y)
  }

  /** A SID line with an empty SID is the only event that breaks it. */
  lemma StepSids(cfg: Config, s: State, ev: Event)
    requires Inv(s) && Allowed(s, ev) && SidsDistinct(s.servers)
    ensures SidsDistinct(Step(cfg, s, ev).servers) <==>
      !(ev.Sid? && ev.sid == "" && ServersCome(s, ev) != map[])
  {
    ServersExactly(cfg, s, ev);
    SidsAfter(s, Step(cfg, s, ev), ev);
  }

  lemma SidsAfter(s: State, t: State, ev: Event)
    requires ((ev.Sid? || ev.Uplink?) ==> ev.x !in s.servers) && SidsDistinct(s.servers)
    requires ServersAfter(s, t, ServersGone(s, ev), ServersCome(s, ev))
    ensures SidsDistinct(t.servers) <==> !(ev.Sid? && ev.sid == "" && ServersCome(s, ev) != map[])
  {
    var gone, come := ServersGone(s, ev), ServersCome(s, ev);
    if come == map[] {
      FewerSids(s, t, gone);
    } else {
      FreshSid(s, ev.sid);
      NewSid(s, t, ev.x, come);
    }
  }

  lemma FewerSids(s: State, t: State, gone: set<ServerPtr>)
    requires SidsDistinct(s.servers) && ServersAfter(s, t, gone, map[])
    ensures SidsDistinct(t.servers)
  {
    forall x | x in t.servers
      ensures x in s.servers && t.servers[x].sid == s.servers[x].sid
    {
    }
  }

  lemma FreshSid(s: State, sid: Name)
    requires !Taken(s, sid)
    ensures forall y :: y in s.servers && sid != "" ==> s.servers[y].sid != sid
  {
    forall y | y in s.servers && sid != ""
      ensures s.servers[y].sid != sid
    {
      assert !Called(s.servers, y, sid);
    }
  }

  lemma NewSid(s: State, t: State, x: ServerPtr, come: map<ServerPtr, Server>)
    requires SidsDistinct(s.servers) && come.Keys == {x} && x !in s.servers && ServersAfter(s, t, {}, come)
    requires forall y :: y in s.servers && come[x].sid != "" ==> s.servers[y].sid != come[x].sid
    ensures SidsDistinct(t.servers) <==> come[x].sid != ""
  {
    assert x in t.servers && t.servers[x].sid == come[x].sid;
  }
}
