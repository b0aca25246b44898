/** What the commands keep of the accounts themselves: which steps give a suspended account a session, and that timeouts
    are never 0. */
module Suspension {
  import opened Wrappers
  import opened Network
  import opened NetSplit
  import opened Membership
  import opened Events
  import opened NetRuns

  /** A suspended account has no session. */
  predicate Quiet(users: map<Name, User>) {
    forall u :: u in users && users[u].suspended ==> !users[u].authed
  }

  predicate TimeoutsSet(users: map<Name, User>) {
    forall u :: u in users ==> users[u].timeout != 0
  }

  /** The account a nick that comes with an SVID is logged in to. */
  function SaslTarget(s: State, name: Name, svid: Name): Option<Name> {
    if svid == "0" then None
    else if name in s.users then Some(name)
    else if svid in s.users then Some(svid)
    else None
  }

  /** The steps that log in without asking whether the account is suspended: an SVID, the linked branch of a nick change
      and OPER FORCEAUTH; and a link to a suspended master, whose options the caller's account takes over. */
  ghost predicate WakesSuspended(cfg: Config, s: State, ev: Event)
    requires Inv(s) && Allowed(s, ev)
  {
    match ev
    case Uid(_, _, _, _, _, _, _, _, _) => UidWakes(cfg, s, ev)
    case NickChange(sender, newNick, linked, _) =>
      var found := NickOf(s.nicks, sender);
      found.Some? && RenameWakes(s, found.value, newNick, linked)
    case Forceauth(nick) =>
      var found := NickOf(s.nicks, nick);
      found.Some? && s.nicks[found.value].account.None? && nick in s.users && s.users[nick].suspended
    case TakeOptions(n, master, passes) =>
      Caller(s, n).Some? && passes && master in s.users && s.users[master].suspended
    case _ => false
  }

  predicate UidWakes(cfg: Config, s: State, ev: Event)
    requires ev.Uid?
  {
    var u := SaslTarget(s, ev.name, ev.svid);
    && ServerOf(s.servers, s.serverList, ev.server).Some? && HowManyClones(s.clones, ev.host) < Limit(cfg, ev.trust)
    && u.Some? && s.users[u.value].suspended
  }

  ghost predicate RenameWakes(s: State, n: NickPtr, name: Name, linked: bool)
    requires n in s.nicks
  {
    MovesSession(s, n, name, linked) && s.users[name].suspended
  }

  /** Nothing has happened to the accounts but ends of sessions and of accounts. */
  predicate OnlyLoggedOut(users: map<Name, User>, users': map<Name, User>) {
    forall u :: u in users' ==>
      u in users && (users'[u] == users[u] || users'[u] == users[u].(authed := false, authedNick := None))
  }

  lemma LoggedOutKeeps(users: map<Name, User>, users': map<Name, User>)
    requires OnlyLoggedOut(users, users')
    ensures Quiet(users) ==> Quiet(users')
    ensures TimeoutsSet(users) ==> TimeoutsSet(users')
  {
  }

  lemma LogsIn(s: State, n: NickPtr, u: Name)
    requires n in s.nicks && u in s.users
    ensures Quiet(s.users) ==> (Quiet(Login(s, n, u).users) <==> !s.users[u].suspended)
    ensures TimeoutsSet(s.users) ==> TimeoutsSet(Login(s, n, u).users)
  {
    var t := Login(s, n, u);
    assert t.users[u].authed && t.users[u].suspended == s.users[u].suspended;
  }

  lemma GhostLogsIn(s: State, n: NickPtr, u: Name)
    requires n in s.nicks && u in s.users && s.users[u].authedNick != Some(n)
    ensures Quiet(s.users) ==> (Quiet(GhostLogin(s, n, u).users) <==> !s.users[u].suspended)
    ensures TimeoutsSet(s.users) ==> TimeoutsSet(GhostLogin(s, n, u).users)
  {
    if s.users[u].authed && s.users[u].authedNick.Some? {
      var t := WithoutNicks(s, {s.users[u].authedNick.value});
      LoggedOutKeeps(s.users, t.users);
      LogsIn(t, n, u);
    } else {
      LogsIn(s, n, u);
    }
  }

  lemma SaslLogsIn(s: State, n: NickPtr)
    requires n in s.nicks && s.nicks[n].account.None?
    requires forall u :: u in s.users ==> s.users[u].authedNick != Some(n)
    ensures var u := SaslTarget(s, s.nicks[n].name, s.nicks[n].svid);
      Quiet(s.users) ==> (Quiet(SaslFinish(s, n).users) <==> !(u.Some? && s.users[u.value].suspended))
    ensures TimeoutsSet(s.users) ==> TimeoutsSet(SaslFinish(s, n).users)
  {
    var u := SaslTarget(s, s.nicks[n].name, s.nicks[n].svid);
    if u.Some? {
      GhostLogsIn(s, n, u.value);
    }
  }

  lemma GreetKeepsQuiet(s: State, n: NickPtr, now: int)
    requires n in s.nicks
    ensures Quiet(Greet(s, n, now).users) <==> Quiet(s.users)
    ensures TimeoutsSet(s.users) ==> TimeoutsSet(Greet(s, n, now).users)
  {
    assert Greet(s, n, now).users == GreetRegistered(s, n).users;
    if GreetRegistered(s, n).users != s.users {
      AwakeSame(s.users, GreetRegistered(s, n).users, s.nicks[n].name);
    }
  }

  /** An account that is not suspended does not matter. */
  lemma AwakeSame(users: map<Name, User>, users': map<Name, User>, u: Name)
    requires u in users && !users[u].suspended && users'.Keys == users.Keys && !users'[u].suspended
    requires users'[u].timeout == users[u].timeout && forall v :: v in users && v != u ==> users'[v] == users[v]
    ensures Quiet(users') <==> Quiet(users)
    ensures TimeoutsSet(users) ==> TimeoutsSet(users')
  {
    if Quiet(users') {
      forall v | v in users && users[v].suspended
        ensures !users[v].authed
      {
        assert users'[v] == users[v];
      }
    }
  }

  lemma StepUid(cfg: Config, s: State, ev: Event)
    requires Inv(s) && Allowed(s, ev) && ev.Uid?
    ensures Quiet(s.users) ==> (Quiet(Step(cfg, s, ev).users) <==> !WakesSuspended(cfg, s, ev))
    ensures TimeoutsSet(s.users) ==> TimeoutsSet(Step(cfg, s, ev).users)
  {
    IntroducedQuiet(cfg, s, ev);
  }

  lemma IntroducedQuiet(cfg: Config, s: State, ev: Event)
    requires Inv(s) && ev.Uid? && ev.n !in s.nicks && FreeNames(s.nicks, ev.name, ev.uid)
    ensures Quiet(s.users) ==> (Quiet(Introduced(cfg, s, ev).users) <==> !UidWakes(cfg, s, ev))
    ensures TimeoutsSet(s.users) ==> TimeoutsSet(Introduced(cfg, s, ev).users)
  {
    var found := ServerOf(s.servers, s.serverList, ev.server);
    if found.Some? && HowManyClones(s.clones, ev.host) < Limit(cfg, ev.trust) {
      var t := Connect(s, ev.n, NewNick(ev, found.value));
      ConnectKeeps(s, ev.n, NewNick(ev, found.value));
      assert t.users == s.users && SaslTarget(t, ev.name, ev.svid) == SaslTarget(s, ev.name, ev.svid);
      Welcomed(t, ev.n, ev.now);
    }
  }

  lemma Welcomed(s: State, n: NickPtr, now: int)
    requires Inv(s) && n in s.nicks && s.nicks[n].account.None?
    ensures (forall u :: u in s.users ==> s.users[u].authedNick != Some(n)) && n in SaslFinish(s, n).nicks
    ensures var u, t := SaslTarget(s, s.nicks[n].name, s.nicks[n].svid), Greet(SaslFinish(s, n), n, now);
      && (Quiet(s.users) ==> (Quiet(t.users) <==> !(u.Some? && s.users[u.value].suspended)))
      && (TimeoutsSet(s.users) ==> TimeoutsSet(t.users))
  {
    SaslKeeps(s, n);
    SaslLogsIn(s, n);
    GreetKeepsQuiet(SaslFinish(s, n), n, now);
  }

  lemma StepRename(cfg: Config, s: State, ev: Event)
    requires Inv(s) && Allowed(s, ev) && ev.NickChange?
    ensures Quiet(s.users) ==> (Quiet(Step(cfg, s, ev).users) <==> !WakesSuspended(cfg, s, ev))
    ensures TimeoutsSet(s.users) ==> TimeoutsSet(Step(cfg, s, ev).users)
  {
    if NickOf(s.nicks, ev.sender).Some? {
      RenameQuiet(s, NickOf(s.nicks, ev.sender).value, ev.newNick, ev.linked, ev.now);
    }
  }

  lemma RenameQuiet(s: State, n: NickPtr, name: Name, linked: bool, now: int)
    requires n in s.nicks
    ensures Quiet(s.users) ==> (Quiet(NickChanged(s, n, name, linked, now).users) <==> !RenameWakes(s, n, name, linked))
    ensures TimeoutsSet(s.users) ==> TimeoutsSet(NickChanged(s, n, name, linked, now).users)
  {
    if MovesSession(s, n, name, linked) {
      var t := Logout(Rename(s, n, name), n, Some(s.nicks[n].name));
      LoggedOutKeeps(s.users, t.users);
      LogsIn(t, n, name);
    }
  }

  lemma StepForceauth(cfg: Config, s: State, ev: Event)
    requires Inv(s) && Allowed(s, ev) && ev.Forceauth?
    ensures Quiet(s.users) ==> (Quiet(Step(cfg, s, ev).users) <==> !WakesSuspended(cfg, s, ev))
    ensures TimeoutsSet(s.users) ==> TimeoutsSet(Step(cfg, s, ev).users)
  {
    var found := NickOf(s.nicks, ev.nick);
    if found.Some? && s.nicks[found.value].account.None? && ev.nick in s.users {
      LogsIn(s, found.value, ev.nick);
    }
  }

  lemma StepSettings(cfg: Config, s: State, ev: Event)
    requires Inv(s) && Allowed(s, ev) && (ev.SetProtect? || ev.SetTimeout?)
    ensures Quiet(s.users) ==> Quiet(Step(cfg, s, ev).users)
    ensures TimeoutsSet(s.users) ==> TimeoutsSet(Step(cfg, s, ev).users)
  {
    if ev.SetProtect? {
      QuietProtect(s, ev.n, ev.on);
    } else {
      QuietTimeout(s, ev.n, ev.timeout);
    }
  }

  lemma QuietProtect(s: State, n: NickPtr, on: bool)
    requires n in s.nicks
    ensures Quiet(s.users) ==> Quiet(ProtectSet(s, n, on).users)
    ensures TimeoutsSet(s.users) ==> TimeoutsSet(ProtectSet(s, n, on).users)
  {
  }

  lemma QuietTimeout(s: State, n: NickPtr, timeout: int)
    requires n in s.nicks
    ensures Quiet(s.users) ==> Quiet(TimeoutSet(s, n, timeout).users)
    ensures TimeoutsSet(s.users) ==> TimeoutsSet(TimeoutSet(s, n, timeout).users)
  {
  }

  lemma StepTakeOptions(cfg: Config, s: State, ev: Event)
    requires Inv(s) && Allowed(s, ev) && ev.TakeOptions?
    ensures Quiet(s.users) ==> (Quiet(Step(cfg, s, ev).users) <==> !WakesSuspended(cfg, s, ev))
    ensures TimeoutsSet(s.users) ==> TimeoutsSet(Step(cfg, s, ev).users)
  {
    QuietOptions(s, ev.n, ev.master, ev.passes);
  }

  lemma QuietOptions(s: State, n: NickPtr, master: Name, passes: bool)
    requires n in s.nicks
    ensures var wakes := Caller(s, n).Some? && passes && master in s.users && s.users[master].suspended;
      Quiet(s.users) ==> (Quiet(OptionsTaken(s, n, master, passes).users) <==> !wakes)
    ensures TimeoutsSet(s.users) ==> TimeoutsSet(OptionsTaken(s, n, master, passes).users)
  {
    var t := OptionsTaken(s, n, master, passes);
    if Caller(s, n).Some? && passes && master in s.users {
      var u := Caller(s, n).value;
      assert t.users[u].authed && t.users[u].suspended == s.users[master].suspended;
    }
  }

  lemma StepIdentify(cfg: Config, s: State, ev: Event)
    requires Inv(s) && Allowed(s, ev) && ev.Identify?
    ensures Quiet(s.users) ==> Quiet(Step(cfg, s, ev).users)
    ensures TimeoutsSet(s.users) ==> TimeoutsSet(Step(cfg, s, ev).users)
  {
    assert Holds(s, Sessions);
    var u := s.nicks[ev.n].name;
    if s.nicks[ev.n].account.None? && u in s.users {
      if !ev.password {
        WrongPasswordLogsOut(cfg, s, ev.n, ev.now);
        LoggedOutKeeps(s.users, WrongPassword(cfg, s, ev.n, ev.now).users);
      } else if !s.users[u].suspended {
        GhostLogsIn(s, ev.n, u);
      }
    }
  }

  lemma WrongPasswordLogsOut(cfg: Config, s: State, n: NickPtr, now: int)
    requires n in s.nicks
    ensures OnlyLoggedOut(s.users, WrongPassword(cfg, s, n, now).users)
  {
    var nick := s.nicks[n];
    var tries, since := nick.loginattempts + 1, if nick.lasttry == 0 then now else nick.lasttry;
    var t := Tried(s, n, tries, since);
    assert t.users == s.users;
    if tries >= cfg.maxloginatt && now - since < 60 {
      GoneLogsOut(t, {n});
    } else {
      assert WrongPassword(cfg, s, n, now).users == s.users;
    }
  }

  lemma GoneLogsOut(s: State, gone: set<NickPtr>)
    ensures OnlyLoggedOut(s.users, WithoutNicks(s, gone).users)
  {
  }

  lemma StepRegister(cfg: Config, s: State, ev: Event)
    requires Inv(s) && Allowed(s, ev) && ev.Register?
    ensures Quiet(s.users) ==> Quiet(Step(cfg, s, ev).users)
    ensures TimeoutsSet(s.users) ==> TimeoutsSet(Step(cfg, s, ev).users)
  {
    var u := s.nicks[ev.n].name;
    if AccountOf(s, ev.n).None? {
      LogsIn(NewUser(cfg, s, u), ev.n, u);
    }
  }

  lemma StepSuspension(cfg: Config, s: State, ev: Event)
    requires Inv(s) && Allowed(s, ev) && (ev.Suspend? || ev.Unsuspend?)
    ensures Quiet(s.users) ==> Quiet(Step(cfg, s, ev).users)
    ensures TimeoutsSet(s.users) ==> TimeoutsSet(Step(cfg, s, ev).users)
  {
    assert Holds(s, Sessions);
    if ev.u in s.users {
      QuietSuspension(s, ev.u, ev.rank, ev.Suspend?);
    }
  }

  lemma QuietSuspension(s: State, u: Name, rank: int, on: bool)
    requires InvSessions(s.users, s.nicks) && u in s.users
    ensures Quiet(s.users) ==> Quiet(SuspensionSet(s, u, rank, on).users)
    ensures TimeoutsSet(s.users) ==> TimeoutsSet(SuspensionSet(s, u, rank, on).users)
  {
    if s.users[u].level < rank {
      SuspensionUsers(s, u, rank, on);
      OneAccount(s.users, SuspensionSet(s, u, rank, on).users, u);
    }
  }

  lemma SuspensionUsers(s: State, u: Name, rank: int, on: bool)
    requires InvSessions(s.users, s.nicks) && u in s.users && s.users[u].level < rank
    ensures SuspensionSet(s, u, rank, on).users ==
      s.users[u := if on then s.users[u].(suspended := true, authed := false, authedNick := None)
                   else s.users[u].(suspended := false)]
  {
  }

  lemma OneAccount(users: map<Name, User>, users': map<Name, User>, u: Name)
    requires u in users && users'.Keys == users.Keys && forall v :: v in users && v != u ==> users'[v] == users[v]
    requires users'[u].timeout == users[u].timeout
    requires !users'[u].suspended || !users'[u].authed || users'[u] == users[u]
    ensures Quiet(users) ==> Quiet(users')
    ensures TimeoutsSet(users) ==> TimeoutsSet(users')
  {
  }

  lemma StepElsewhere(cfg: Config, s: State, ev: Event)
    requires Inv(s) && Allowed(s, ev)
    requires ev.Join? || ev.SjoinChannel? || ev.SjoinNick? || ev.Part? || ev.Sid? || ev.Uplink? || ev.CheckGuests?
    ensures Step(cfg, s, ev).users == s.users
  {
  }

  lemma StepDepartures(cfg: Config, s: State, ev: Event)
    requires Inv(s) && Allowed(s, ev) && (ev.Quit? || ev.Squit? || ev.Drop?)
    ensures OnlyLoggedOut(s.users, Step(cfg, s, ev).users)
  {
    assert Holds(s, Sessions) && Holds(s, Forest);
  }

  /** A step keeps suspended accounts without sessions exactly when it is none of those named above, and no step sets a
      timeout to 0. */
  lemma StepQuiet(cfg: Config, s: State, ev: Event)
    requires Inv(s) && Allowed(s, ev)
    ensures Quiet(s.users) ==> (Quiet(Step(cfg, s, ev).users) <==> !WakesSuspended(cfg, s, ev))
    ensures TimeoutsSet(s.users) ==> TimeoutsSet(Step(cfg, s, ev).users)
  {
    match ev {
      case Uid(_, _, _, _, _, _, _, _, _) => StepUid(cfg, s, ev);
      case NickChange(_, _, _, _) => StepRename(cfg, s, ev);
      case Forceauth(_) => StepForceauth(cfg, s, ev);
      case SetProtect(_, _) => StepSettings(cfg, s, ev);
      case SetTimeout(_, _) => StepSettings(cfg, s, ev);
      case TakeOptions(_, _, _) => StepTakeOptions(cfg, s, ev);
      case Identify(_, _, _) => StepIdentify(cfg, s, ev);
      case Register(_, _) => StepRegister(cfg, s, ev);
      case Suspend(_, _) => StepSuspension(cfg, s, ev);
      case Unsuspend(_, _) => StepSuspension(cfg, s, ev);
      case Quit(_) => StepGone(cfg, s, ev);
      case Squit(_) => StepGone(cfg, s, ev);
      case Drop(_) => StepGone(cfg, s, ev);
      case _ => StepElsewhere(cfg, s, ev);
    }
  }

  lemma StepGone(cfg: Config, s: State, ev: Event)
    requires Inv(s) && Allowed(s, ev) && (ev.Quit? || ev.Squit? || ev.Drop?)
    ensures Quiet(s.users) ==> Quiet(Step(cfg, s, ev).users)
    ensures TimeoutsSet(s.users) ==> TimeoutsSet(Step(cfg, s, ev).users)
  {
    StepDepartures(cfg, s, ev);
    LoggedOutKeeps(s.users, Step(cfg, s, ev).users);
  }

  /** No event of the run is of that kind. */
  ghost predicate Undisturbed(s: State, run: seq<Moment>)
    requires Inv(s) && Possible(s, run)
    decreases |run|
  {
    run == []
    || (!WakesSuspended(run[0].cfg, s, run[0].ev)
      && (NextKeeps(s, run); Undisturbed(Step(run[0].cfg, s, run[0].ev), run[1..])))
  }

  /** Over every run without such steps no suspended account has a session. */
  lemma {:induction false} RunQuiet(s: State, run: seq<Moment>)
    requires Inv(s) && Possible(s, run) && Undisturbed(s, run) && Quiet(s.users)
    ensures Quiet(NetRuns.After(s, run).users)
    decreases |run|
  {
    if run != [] {
      NextKeeps(s, run);
      StepQuiet(run[0].cfg, s, run[0].ev);
      RunQuiet(Step(run[0].cfg, s, run[0].ev), run[1..]);
    }
  }

  /** Over every run no timeout is 0. */
  lemma {:induction false} RunTimeouts(s: State, run: seq<Moment>)
    requires Inv(s) && Possible(s, run) && TimeoutsSet(s.users)
    ensures TimeoutsSet(NetRuns.After(s, run).users)
    decreases |run|
  {
    if run != [] {
      NextKeeps(s, run);
      StepQuiet(run[0].cfg, s, run[0].ev);
      RunTimeouts(Step(run[0].cfg, s, run[0].ev), run[1..]);
    }
  }
}
