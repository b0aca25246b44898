/** Why things are as they are: which event gives a nick its account or takes it away, who arrives and who leaves; for
    one event exactly, and from there over runs. */
module Origins {
  import opened Wrappers
  import opened Lists
  import opened Network
  import opened NetSplit
  import opened Membership
  import opened Events
  import opened NetRuns
  import opened Suspension
  import opened Effects

  /** What an event makes of the nicks: who leaves and arrives, and which nicks it gives which account, or none, and
      which name. */
  datatype Change = Change(leaving: set<NickPtr>, arriving: set<NickPtr>, accounts: map<NickPtr, Option<Name>>,
                           names: map<NickPtr, Name>)

  const NOTHING := Change({}, {}, map[], map[])

  /** Exactly that has happened; UIDs, hosts and servers stay. */
  ghost predicate Applies(nicks: map<NickPtr, Nick>, nicks': map<NickPtr, Nick>, c: Change) {
    && nicks'.Keys == nicks.Keys - c.leaving + c.arriving
    && (forall n :: n in nicks' ==>
      nicks'[n].account == (if n in c.accounts then c.accounts[n] else if n in nicks then nicks[n].account else None))
    && (forall n :: n in nicks && n in nicks' ==>
      && nicks'[n].name == (if n in c.names then c.names[n] else nicks[n].name)
      && nicks'[n].uid == nicks[n].uid && nicks'[n].reshost == nicks[n].reshost && nicks'[n].server == nicks[n].server)
  }

  function Given(n: NickPtr, u: Name): Change {
    Change({}, {}, map[n := Some(u)], map[])
  }

  /** The nicks that have the account have none any more. */
  function Ended(s: State, u: Name): Change {
    Change({}, {}, map m | m in HolderOf(s, u) :: None, map[])
  }

  /** The attempt that reaches the limit within a minute of the first one. */
  predicate OneTooMany(cfg: Config, nick: Nick, now: int) {
    nick.loginattempts + 1 >= cfg.maxloginatt && (nick.lasttry == 0 || now - nick.lasttry < 60)
  }

  /** What a wrong password comes to: the attempt is noted, and the nick may be gone. */
  lemma WrongPasswordIs(cfg: Config, s: State, n: NickPtr, now: int) returns (tries: int, since: int)
    requires n in s.nicks
    ensures var t := Tried(s, n, tries, since);
      WrongPassword(cfg, s, n, now) == if OneTooMany(cfg, s.nicks[n], now) then WithoutNicks(t, {n}) else t
  {
    var nick := s.nicks[n];
    tries, since := nick.loginattempts + 1, if nick.lasttry == 0 then now else nick.lasttry;
    if tries < cfg.maxloginatt && now - since >= 60 {
      tries, since := 1, now;
    }
  }

  function OnIdentify(cfg: Config, s: State, n: NickPtr, password: bool, now: int): Change
    requires n in s.nicks
  {
    var u := s.nicks[n].name;
    if s.nicks[n].account.Some? || u !in s.users then NOTHING
    else if !password then (if OneTooMany(cfg, s.nicks[n], now) then NOTHING.(leaving := {n}) else NOTHING)
    else if s.users[u].suspended then NOTHING
    else Given(n, u).(leaving := HolderOf(s, u))
  }

  ghost function OnUid(cfg: Config, s: State, ev: Event): Change
    requires ev.Uid?
  {
    var u := SaslTarget(s, ev.name, ev.svid);
    if !Admitted(cfg, s, ev) then NOTHING
    else Change(if u.Some? then HolderOf(s, u.value) else {}, {ev.n}, map[ev.n := Brought(s, ev)], map[])
  }

  ghost function OnNick(s: State, ref: Name, name: Name, linked: bool): Change {
    match NickOf(s.nicks, ref)
    case None => NOTHING
    case Some(n) =>
      Change({}, {}, if n in s.nicks && MovesSession(s, n, name, linked) then map[n := Some(name)] else map[], map[n := name])
  }

  function OnRegister(s: State, n: NickPtr, emailreg: bool): Change
    requires n in s.nicks
  {
    var u := s.nicks[n].name;
    if s.nicks[n].account.Some? || u in s.users || emailreg then NOTHING else Given(n, u)
  }

  ghost function OnForceauth(s: State, ref: Name): Change {
    match NickOf(s.nicks, ref)
    case None => NOTHING
    case Some(n) => if ref in s.users && s.nicks[n].account.None? then Given(n, ref) else NOTHING
  }

  ghost function OnSplit(s: State, ref: Name): Change {
    match ServerOf(s.servers, s.serverList, ref)
    case None => NOTHING
    case Some(x) => NOTHING.(leaving := NicksOn(s.nicks, Below(s, x)))
  }

  ghost function ChangeBy(cfg: Config, s: State, ev: Event): Change
    requires Allowed(s, ev)
  {
    match ev
    case Uid(_, _, _, _, _, _, _, _, _) => OnUid(cfg, s, ev)
    case NickChange(sender, newNick, linked, _) => OnNick(s, sender, newNick, linked)
    case Identify(n, password, now) => OnIdentify(cfg, s, n, password, now)
    case Register(n, emailreg) => OnRegister(s, n, emailreg)
    case Forceauth(nick) => OnForceauth(s, nick)
    case Suspend(u, rank) => if u in s.users && s.users[u].level < rank then Ended(s, u) else NOTHING
    case Drop(u) => Ended(s, u)
    case Quit(nick) =>
      (match NickOf(s.nicks, nick) case None => NOTHING case Some(n) => NOTHING.(leaving := {n}))
    case Squit(server) => OnSplit(s, server)
    case _ => NOTHING
  }

  // ----- One nick changes, or none.

  predicate SameFace(nick: Nick, nick': Nick) {
    nick'.uid == nick.uid && nick'.reshost == nick.reshost && nick'.server == nick.server
  }

  lemma Unchanged(nicks: map<NickPtr, Nick>, nicks': map<NickPtr, Nick>)
    requires nicks'.Keys == nicks.Keys
    requires forall n :: n in nicks ==>
      SameFace(nicks[n], nicks'[n]) && nicks'[n].name == nicks[n].name && nicks'[n].account == nicks[n].account
    ensures Applies(nicks, nicks', NOTHING)
  {
  }

  lemma OneChanged(nicks: map<NickPtr, Nick>, n: NickPtr, nick: Nick, c: Change)
    requires n in nicks && SameFace(nicks[n], nick)
    requires c.leaving == {} == c.arriving && c.accounts.Keys <= {n} && c.names.Keys <= {n}
    requires nick.account == if n in c.accounts then c.accounts[n] else nicks[n].account
    requires nick.name == if n in c.names then c.names[n] else nicks[n].name
    ensures Applies(nicks, nicks[n := nick], c)
  {
  }

  lemma SomeGone(nicks: map<NickPtr, Nick>, gone: set<NickPtr>)
    ensures Applies(nicks, Remaining(nicks, gone), NOTHING.(leaving := gone))
  {
  }

  // ----- The events.

  lemma UidNicks(cfg: Config, s: State, ev: Event)
    requires Inv(s) && ev.Uid? && Allowed(s, ev)
    ensures Applies(s.nicks, Step(cfg, s, ev).nicks, OnUid(cfg, s, ev))
  {
    UidExactly(cfg, s, ev);
    var t := Step(cfg, s, ev);
    if Admitted(cfg, s, ev) {
      NotTheNewOne(s, ev.n, SaslTarget(s, ev.name, ev.svid));
      EnteredNicks(s, ev, t);
    }
  }

  lemma EnteredNicks(s: State, ev: Event, t: State)
    requires ev.Uid? && Entered(s, ev, t) && ev.n !in s.nicks
    requires var u := SaslTarget(s, ev.name, ev.svid); u.Some? ==> ev.n !in HolderOf(s, u.value)
    ensures var u := SaslTarget(s, ev.name, ev.svid);
      Applies(s.nicks, t.nicks,
              Change(if u.Some? then HolderOf(s, u.value) else {}, {ev.n}, map[ev.n := Brought(s, ev)], map[]))
  {
  }

  lemma RenamedNick(s: State, n: NickPtr, name: Name, linked: bool, now: int)
    requires n in s.nicks
    ensures var t := NickChanged(s, n, name, linked, now);
      && n in t.nicks && t.nicks == s.nicks[n := t.nicks[n]] && SameFace(s.nicks[n], t.nicks[n])
      && t.nicks[n].name == name
      && t.nicks[n].account == if MovesSession(s, n, name, linked) then Some(name) else s.nicks[n].account
  {
    var t := Rename(s, n, name);
    if MovesSession(s, n, name, linked) {
      MovedNick(t, n, s.nicks[n].name, name);
    } else {
      assert AccountFollows(t, n, s.nicks[n].name, name, linked, now).nicks == t.nicks;
    }
  }

  lemma MovedNick(t: State, n: NickPtr, was: Name, name: Name)
    requires n in t.nicks && was in t.users && name in t.users
    ensures var r := Login(Logout(t, n, Some(was)), n, name);
      && n in r.nicks && r.nicks == t.nicks[n := r.nicks[n]] && SameFace(t.nicks[n], r.nicks[n])
      && r.nicks[n].name == t.nicks[n].name && r.nicks[n].account == Some(name)
  {
  }

  lemma RenameNicks(cfg: Config, s: State, ev: Event)
    requires Inv(s) && ev.NickChange? && Allowed(s, ev)
    ensures Applies(s.nicks, Step(cfg, s, ev).nicks, OnNick(s, ev.sender, ev.newNick, ev.linked))
  {
    var found := NickOf(s.nicks, ev.sender);
    if found.Some? {
      RenamedNick(s, found.value, ev.newNick, ev.linked, ev.now);
      var t := NickChanged(s, found.value, ev.newNick, ev.linked, ev.now);
      OneChanged(s.nicks, found.value, t.nicks[found.value], OnNick(s, ev.sender, ev.newNick, ev.linked));
    } else {
      Unchanged(s.nicks, s.nicks);
    }
  }

  lemma IdentifyNicks(cfg: Config, s: State, n: NickPtr, password: bool, now: int)
    requires Inv(s) && n in s.nicks
    ensures Applies(s.nicks, Step(cfg, s, Identify(n, password, now)).nicks, OnIdentify(cfg, s, n, password, now))
  {
    var u := s.nicks[n].name;
    if s.nicks[n].account.Some? || u !in s.users {
      IdentifyRefused(cfg, s, n, password, now);
      Unchanged(s.nicks, s.nicks);
    } else if !password {
      WrongPasswordExactly(cfg, s, n, now);
      WrongPasswordNicks(s, n, Step(cfg, s, Identify(n, false, now)), OneTooMany(cfg, s.nicks[n], now));
    } else if s.users[u].suspended {
      Unchanged(s.nicks, s.nicks);
    } else {
      GhostNicks(s, n, u);
    }
  }

  lemma GhostNicks(s: State, n: NickPtr, u: Name)
    requires Inv(s) && n in s.nicks && u in s.users && s.nicks[n].account.None?
    ensures s.users[u].authedNick != Some(n)
    ensures Applies(s.nicks, GhostLogin(s, n, u).nicks, Given(n, u).(leaving := HolderOf(s, u)))
  {
    GhostLoginExactly(s, n, u);
    OneAndSomeGone(s.nicks, GhostLogin(s, n, u).nicks, n, u, HolderOf(s, u));
  }

  lemma OneAndSomeGone(nicks: map<NickPtr, Nick>, nicks': map<NickPtr, Nick>, n: NickPtr, u: Name, gone: set<NickPtr>)
    requires n in nicks && n in nicks' && nicks'.Keys == nicks.Keys - gone
    requires SameFace(nicks[n], nicks'[n]) && nicks'[n].name == nicks[n].name && nicks'[n].account == Some(u)
    requires forall m :: m in nicks' && m != n ==> nicks'[m] == nicks[m]
    ensures Applies(nicks, nicks', Given(n, u).(leaving := gone))
  {
  }

  lemma WrongPasswordNicks(s: State, n: NickPtr, t: State, gone: bool)
    requires n in s.nicks && (n !in t.nicks <==> gone)
    requires forall m :: m != n ==> (m in t.nicks <==> m in s.nicks) && (m in s.nicks ==> t.nicks[m] == s.nicks[m])
    requires n in t.nicks ==>
      SameFace(s.nicks[n], t.nicks[n]) && t.nicks[n].account == s.nicks[n].account && t.nicks[n].name == s.nicks[n].name
    ensures Applies(s.nicks, t.nicks, if gone then NOTHING.(leaving := {n}) else NOTHING)
  {
    assert t.nicks.Keys == s.nicks.Keys - if gone then {n} else {};
  }

  lemma NotLoggedIn(cfg: Config, s: State, n: NickPtr, emailreg: bool)
    requires n in s.nicks && (s.nicks[n].account.Some? || s.nicks[n].name in s.users || emailreg)
    ensures Registered(cfg, s, n, emailreg).nicks == s.nicks
  {
  }

  lemma RegisterNicks(cfg: Config, s: State, n: NickPtr, emailreg: bool)
    requires Inv(s) && n in s.nicks
    ensures Applies(s.nicks, Registered(cfg, s, n, emailreg).nicks, OnRegister(s, n, emailreg))
  {
    var u := s.nicks[n].name;
    if s.nicks[n].account.Some? || u in s.users || emailreg {
      NotLoggedIn(cfg, s, n, emailreg);
      Unchanged(s.nicks, s.nicks);
    } else {
      GivenNick(NewUser(cfg, s, u), n, u);
      assert Registered(cfg, s, n, emailreg) == Login(NewUser(cfg, s, u), n, u);
    }
  }

  lemma GivenNick(s: State, n: NickPtr, u: Name)
    requires n in s.nicks && u in s.users
    ensures Applies(s.nicks, Login(s, n, u).nicks, Given(n, u))
  {
    OneChanged(s.nicks, n, Login(s, n, u).nicks[n], Given(n, u));
  }

  lemma ForceauthNicks(s: State, ref: Name)
    requires Inv(s)
    ensures Applies(s.nicks, Forced(s, ref).nicks, OnForceauth(s, ref))
  {
    var found := NickOf(s.nicks, ref);
    if found.Some? && ref in s.users && s.nicks[found.value].account.None? {
      GivenNick(s, found.value, ref);
    } else {
      Unchanged(s.nicks, s.nicks);
    }
  }

  /** A session ends with its account, or with a suspension. */
  lemma EndedNick(s: State, u: Name, t: State)
    requires InvSessions(s.users, s.nicks) && u in s.users
    requires t.nicks == (if s.users[u].authedNick.Some? then Logout(s, s.users[u].authedNick.value, Some(u)).nicks else s.nicks)
    ensures Applies(s.nicks, t.nicks, Ended(s, u))
  {
    if s.users[u].authedNick.Some? {
      var n := s.users[u].authedNick.value;
      OneChanged(s.nicks, n, t.nicks[n], Ended(s, u));
    } else {
      assert Ended(s, u) == NOTHING;
      Unchanged(s.nicks, s.nicks);
    }
  }

  lemma SuspendNicks(s: State, u: Name, rank: int)
    requires InvSessions(s.users, s.nicks) && u in s.users
    ensures Applies(s.nicks, SuspensionSet(s, u, rank, true).nicks, if s.users[u].level < rank then Ended(s, u) else NOTHING)
  {
    if s.users[u].level < rank {
      EndedNick(s, u, Suspended(s, u));
    } else {
      Unchanged(s.nicks, s.nicks);
    }
  }

  lemma SuspensionNicks(cfg: Config, s: State, ev: Event)
    requires Inv(s) && Allowed(s, ev) && (ev.Suspend? || ev.Unsuspend?)
    ensures Applies(s.nicks, Step(cfg, s, ev).nicks, ChangeBy(cfg, s, ev))
  {
    assert Holds(s, Sessions);
    if ev.u in s.users && ev.Suspend? {
      SuspendNicks(s, ev.u, ev.rank);
    } else {
      Unchanged(s.nicks, s.nicks);
    }
  }

  lemma DropNicks(cfg: Config, s: State, ev: Event)
    requires Inv(s) && ev.Drop?
    ensures Applies(s.nicks, Step(cfg, s, ev).nicks, ChangeBy(cfg, s, ev))
  {
    assert Holds(s, Sessions);
    if ev.u in s.users {
      EndedNick(s, ev.u, Dropped(s, ev.u));
    } else {
      assert Ended(s, ev.u) == NOTHING;
      Unchanged(s.nicks, s.nicks);
    }
  }

  lemma LeavingNicks(cfg: Config, s: State, ev: Event)
    requires Inv(s) && (ev.Quit? || ev.Squit?)
    ensures Applies(s.nicks, Step(cfg, s, ev).nicks, ChangeBy(cfg, s, ev))
  {
    assert Holds(s, Forest);
    Unchanged(s.nicks, s.nicks);
    if ev.Quit? && NickOf(s.nicks, ev.nick).Some? {
      SomeGone(s.nicks, {NickOf(s.nicks, ev.nick).value});
    } else if ev.Squit? && ServerOf(s.servers, s.serverList, ev.server).Some? {
      SomeGone(s.nicks, NicksOn(s.nicks, Below(s, ServerOf(s.servers, s.serverList, ev.server).value)));
    }
  }

  /** Only memberships change. */
  lemma MembershipNicks(s: State, w: Name, ref: Name, m: MemberPtr)
    ensures Applies(s.nicks, Joined(s, w, ref, m).nicks, NOTHING)
    ensures w in s.wchans ==> Applies(s.nicks, SjoinedNick(s, w, ref, m).nicks, NOTHING)
  {
    Unchanged(s.nicks, s.nicks);
    var found := NickOf(s.nicks, ref);
    if found.Some? {
      var n := found.value;
      var nick := s.nicks[n].(wchans := s.nicks[n].wchans + [m]);
      OneChanged(s.nicks, n, nick, NOTHING);
      assert JoinChannel(s, n, w, m).nicks == s.nicks[n := nick];
    }
  }

  lemma LeftNicks(s: State, ref: Name, w: Name)
    ensures Applies(s.nicks, Left(s, ref, w).nicks, NOTHING)
  {
    Unchanged(s.nicks, s.nicks);
    var found := NickOf(s.nicks, ref);
    if found.Some? && w in s.wchans {
      var t := PartChannel(s, found.value, w);
      OneChanged(s.nicks, found.value, t.nicks[found.value], NOTHING);
    }
  }

  lemma OtherNicks(cfg: Config, s: State, ev: Event)
    requires Inv(s) && Allowed(s, ev)
    requires ev.SjoinChannel? || ev.Sid? || ev.Uplink? || ev.CheckGuests? || ev.SetProtect? || ev.SetTimeout? || ev.TakeOptions?
    ensures Applies(s.nicks, Step(cfg, s, ev).nicks, NOTHING)
  {
    assert Step(cfg, s, ev).nicks == s.nicks;
    Unchanged(s.nicks, s.nicks);
  }

  /** Every event: exactly these nicks leave and arrive, and exactly these accounts are gained and lost. */
  lemma NicksExactly(cfg: Config, s: State, ev: Event)
    requires Inv(s) && Allowed(s, ev)
    ensures Applies(s.nicks, Step(cfg, s, ev).nicks, ChangeBy(cfg, s, ev))
  {
    if ev.Uid? || ev.NickChange? || ev.Identify? || ev.Register? || ev.Forceauth? || ev.Suspend? || ev.Unsuspend? || ev.Drop? {
      SessionNicks(cfg, s, ev);
    } else {
      PlaceNicks(cfg, s, ev);
    }
  }

  /** The events that concern accounts. */
  lemma SessionNicks(cfg: Config, s: State, ev: Event)
    requires Inv(s) && Allowed(s, ev)
    requires ev.Uid? || ev.NickChange? || ev.Identify? || ev.Register? || ev.Forceauth? || ev.Suspend?
      || ev.Unsuspend? || ev.Drop?
    ensures Applies(s.nicks, Step(cfg, s, ev).nicks, ChangeBy(cfg, s, ev))
  {
    match ev {
      case Uid(_, _, _, _, _, _, _, _, _) => UidNicks(cfg, s, ev);
      case NickChange(_, _, _, _) => RenameNicks(cfg, s, ev);
      case Identify(n, password, now) => IdentifyNicks(cfg, s, n, password, now);
      case Register(n, emailreg) => RegisterNicks(cfg, s, n, emailreg);
      case Forceauth(nick) => ForceauthNicks(s, nick);
      case Suspend(_, _) => SuspensionNicks(cfg, s, ev);
      case Unsuspend(_, _) => SuspensionNicks(cfg, s, ev);
      case Drop(_) => DropNicks(cfg, s, ev);
    }
  }

  /** The others. */
  lemma PlaceNicks(cfg: Config, s: State, ev: Event)
    requires Inv(s) && Allowed(s, ev) && !ev.Uid? && !ev.NickChange? && !ev.Identify? && !ev.Register? && !ev.Forceauth?
    requires !ev.Suspend? && !ev.Unsuspend? && !ev.Drop?
    ensures Applies(s.nicks, Step(cfg, s, ev).nicks, ChangeBy(cfg, s, ev))
  {
    match ev {
      case Quit(_) => LeavingNicks(cfg, s, ev);
      case Squit(_) => LeavingNicks(cfg, s, ev);
      case Join(sender, w, m) => MembershipNicks(s, w, sender, m);
      case SjoinNick(w, nick, m) => MembershipNicks(s, w, nick, m);
      case Part(nick, w) => LeftNicks(s, nick, w);
      case _ => OtherNicks(cfg, s, ev);
    }
  }

  // ----- Runs.

  /** An event of the run has given the nick the account. */
  ghost predicate GivenDuring(s: State, run: seq<Moment>, n: NickPtr, u: Name)
    requires Inv(s) && Possible(s, run)
    decreases |run|
  {
    run != []
    && (var c := ChangeBy(run[0].cfg, s, run[0].ev);
      || (n in c.accounts && c.accounts[n] == Some(u))
      || (NextKeeps(s, run); GivenDuring(Step(run[0].cfg, s, run[0].ev), run[1..], n, u)))
  }

  /** Whoever has an account at the end of a run had it at the beginning or was given it during the run: by a UID line
      with its SVID or with +r, by IDENTIFY with the right password, by REGISTER, by NICK to a linked account, or by OPER
      FORCEAUTH. */
  lemma {:induction false} AccountHasOrigin(s: State, run: seq<Moment>, n: NickPtr, u: Name)
    requires Inv(s) && Possible(s, run)
    requires var t := NetRuns.After(s, run); n in t.nicks && t.nicks[n].account == Some(u)
    ensures (n in s.nicks && s.nicks[n].account == Some(u)) || GivenDuring(s, run, n, u)
    decreases |run|
  {
    if run != [] {
      NextKeeps(s, run);
      NicksExactly(run[0].cfg, s, run[0].ev);
      AccountHasOrigin(Step(run[0].cfg, s, run[0].ev), run[1..], n, u);
    }
  }

  /** IDENTIFY is the origin of an account exactly with the right password for it: it gives one to nobody but the nick that
      sends it, and none but that of its name, while it has none and the account is not suspended. */
  lemma IdentifyGives(cfg: Config, s: State, n: NickPtr, password: bool, now: int, m: NickPtr, u: Name)
    requires Inv(s) && n in s.nicks
    ensures var c := ChangeBy(cfg, s, Identify(n, password, now));
      m in c.accounts && c.accounts[m] == Some(u) <==>
        m == n && password && u == s.nicks[n].name && u in s.users && s.nicks[n].account.None? && !s.users[u].suspended
  {
  }
}
