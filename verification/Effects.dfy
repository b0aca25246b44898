/** What the events do, said of the registries before and after: who is online, who has which account, and why. */
module Effects {
  import opened Wrappers
  import opened Lists
  import opened Network
  import opened NetSplit
  import opened Membership
  import opened Events
  import opened NetRuns
  import opened Suspension

  /** find_nick finds a nick by its name and by its UID, and nobody by the empty string. */
  lemma NickOfExactly(s: State, ref: Name, n: NickPtr)
    requires Inv(s)
    ensures NickOf(s.nicks, ref) == Some(n) <==>
      n in s.nicks && ref != "" && (ref == s.nicks[n].name || ref == s.nicks[n].uid)
  {
    assert Holds(s, Names);
    if Answers(s.nicks, ref, n) {
      NickOfUnique(s.nicks, ref, n);
    }
  }

  // ----- IDENTIFY.

  /** The nicks that hold the session of an account; there is at most one. */
  function HolderOf(s: State, u: Name): set<NickPtr> {
    if u in s.users && s.users[u].authedNick.Some? then {s.users[u].authedNick.value} else {}
  }

  lemma GhostLoginExactly(s: State, n: NickPtr, u: Name)
    requires Inv(s) && n in s.nicks && u in s.users && s.nicks[n].account.None?
    ensures s.users[u].authedNick != Some(n)
    ensures var t := GhostLogin(s, n, u);
      && n in t.nicks && u in t.users && t.users[u].authedNick == Some(n)
      && t.nicks[n] == s.nicks[n].(account := Some(u), svid := u, loginattempts := 0, lasttry := 0,
                                   registered := s.nicks[n].registered || u == s.nicks[n].name)
      && t.nicks.Keys == s.nicks.Keys - HolderOf(s, u)
      && (forall m :: m in t.nicks && m != n ==> t.nicks[m] == s.nicks[m])
      && t.users.Keys == s.users.Keys && (forall v :: v in s.users && v != u ==> t.users[v] == s.users[v])
  {
    assert Holds(s, Sessions);
    if s.users[u].authedNick.Some? {
      OthersStayLoggedIn(s.users, s.nicks, s.users[u].authedNick.value, u);
    }
  }

  lemma OthersStayLoggedIn(users: map<Name, User>, nicks: map<NickPtr, Nick>, m: NickPtr, u: Name)
    requires InvSessions(users, nicks) && u in users && users[u].authedNick == Some(m)
    ensures forall v :: v in users && v != u ==> LoggedOut(users, {m})[v] == users[v]
  {
    forall v | v in users && v != u
      ensures users[v].authedNick != Some(m)
    {
      assert nicks[m].account == Some(u);
    }
  }

  /** A nick gets the account of its name by IDENTIFY exactly with the right password and when the account is not
      suspended; then whoever had the session before is gone, and nobody else is touched. */
  lemma IdentifyExactly(cfg: Config, s: State, n: NickPtr, password: bool, now: int)
    requires Inv(s) && n in s.nicks && s.nicks[n].account.None? && s.nicks[n].name in s.users
    ensures var u, t := s.nicks[n].name, Step(cfg, s, Identify(n, password, now));
      && (n in t.nicks && t.nicks[n].account.Some? <==> password && !s.users[u].suspended)
      && (password && s.users[u].suspended ==> t == s)
      && (password && !s.users[u].suspended ==>
        && t.nicks[n].account == Some(u) && u in t.users && t.users[u].authedNick == Some(n)
        && t.nicks.Keys == s.nicks.Keys - HolderOf(s, u)
        && (forall m :: m in t.nicks && m != n ==> t.nicks[m] == s.nicks[m])
        && (forall v :: v in s.users && v != u ==> v in t.users && t.users[v] == s.users[v]))
  {
    if password {
      GhostLoginExactly(s, n, s.nicks[n].name);
    } else {
      WrongPasswordExactly(cfg, s, n, now);
    }
  }

  /** Without an account of its name, or with one already, IDENTIFY does nothing. */
  lemma IdentifyRefused(cfg: Config, s: State, n: NickPtr, password: bool, now: int)
    requires Inv(s) && n in s.nicks && (s.nicks[n].account.Some? || s.nicks[n].name !in s.users)
    ensures Step(cfg, s, Identify(n, password, now)) == s
  {
  }

  /** The first attempt is a minute old or more. */
  predicate Late(nick: Nick, now: int) {
    nick.lasttry != 0 && now - nick.lasttry >= 60
  }

  /** The attempts are counted from the first one on, the nick is gone exactly when the limit is reached within a minute
      of it, the count starts anew exactly when the minute is over below the limit, and no account and no other nick
      changes. */
  ghost predicate Guessed(cfg: Config, s: State, n: NickPtr, now: int, t: State)
    requires n in s.nicks
  {
    var nick := s.nicks[n];
    var late, limit := Late(nick, now), nick.loginattempts + 1 >= cfg.maxloginatt;
    && t.users == s.users
    && t.nicks ==
      if limit && !late then s.nicks - {n}
      else if late && !limit then s.nicks[n := nick.(loginattempts := 1, lasttry := now)]
      else s.nicks[n := nick.(loginattempts := nick.loginattempts + 1,
                              lasttry := if nick.lasttry == 0 then now else nick.lasttry)]
  }

  lemma WrongPasswordExactly(cfg: Config, s: State, n: NickPtr, now: int)
    requires Inv(s) && n in s.nicks && s.nicks[n].account.None? && s.nicks[n].name in s.users
    ensures Guessed(cfg, s, n, now, Step(cfg, s, Identify(n, false, now)))
  {
    assert Holds(s, Sessions);
    TriedExactly(cfg, s, n, now);
  }

  lemma TriedExactly(cfg: Config, s: State, n: NickPtr, now: int)
    requires n in s.nicks && forall u :: u in s.users ==> s.users[u].authedNick != Some(n)
    ensures Guessed(cfg, s, n, now, WrongPassword(cfg, s, n, now))
  {
    if Late(s.nicks[n], now) || s.nicks[n].loginattempts + 1 < cfg.maxloginatt {
      OtherTry(cfg, s, n, now);
    } else {
      var t := Tried(s, n, s.nicks[n].loginattempts + 1, if s.nicks[n].lasttry == 0 then now else s.nicks[n].lasttry);
      LastTry(cfg, s, n, now, t);
      KilledAlone(s, t, n);
    }
  }

  lemma OtherTry(cfg: Config, s: State, n: NickPtr, now: int)
    requires n in s.nicks && (Late(s.nicks[n], now) || s.nicks[n].loginattempts + 1 < cfg.maxloginatt)
    ensures Guessed(cfg, s, n, now, WrongPassword(cfg, s, n, now))
  {
  }

  lemma KilledAlone(s: State, r: State, n: NickPtr)
    requires n in s.nicks && forall u :: u in s.users ==> s.users[u].authedNick != Some(n)
    requires r.users == s.users && n in r.nicks && r.nicks == s.nicks[n := r.nicks[n]]
    ensures var t := WithoutNicks(r, {n}); t.users == s.users && t.nicks == s.nicks - {n}
  {
    assert LoggedOut(s.users, {n}) == s.users;
    assert Remaining(r.nicks, {n}) == s.nicks - {n};
  }

  // ----- Guessing passwords.

  /** Wrong passwords at these times. */
  function Guesses(cfg: Config, n: NickPtr, times: seq<int>): seq<Moment> {
    seq(|times|, i requires 0 <= i < |times| => At(cfg, Identify(n, false, times[i])))
  }

  /** A nick that has tried `k` times since `since`. */
  ghost predicate HasTried(s: State, n: NickPtr, k: nat, since: int) {
    && n in s.nicks && s.nicks[n].account.None? && s.nicks[n].name in s.users
    && s.nicks[n].loginattempts == k && s.nicks[n].lasttry == if k == 0 then 0 else since
  }

  /** A nick that only gives wrong passwords, all within a minute of the first, is online exactly until it has given
      as many as the limit. */
  lemma {:induction false} GuessedOut(cfg: Config, s: State, n: NickPtr, times: seq<int>, since: int, k: nat)
    requires Inv(s) && HasTried(s, n, k, since) && since != 0 && k + |times| <= cfg.maxloginatt
    requires forall i :: 0 <= i < |times| ==> times[i] - since < 60
    requires k == 0 && times != [] ==> times[0] == since
    ensures Possible(s, Guesses(cfg, n, times))
    ensures var t := NetRuns.After(s, Guesses(cfg, n, times));
      n in t.nicks <==> times == [] || k + |times| < cfg.maxloginatt
    decreases |times|
  {
    if times != [] {
      var run := Guesses(cfg, n, times);
      assert run[1..] == Guesses(cfg, n, times[1..]);
      WrongPasswordExactly(cfg, s, n, times[0]);
      StepKeeps(cfg, s, run[0].ev);
      if k + 1 < cfg.maxloginatt {
        GuessedOut(cfg, Step(cfg, s, run[0].ev), n, times[1..], since, k + 1);
      } else {
        assert times[1..] == [];
      }
    }
  }

  /** But once the last attempt below the limit is a minute old, no number of wrong passwords has the nick killed: the
      count has reached the limit and the minute is over for good. */
  lemma {:induction false} GuessesUnlimited(cfg: Config, s: State, n: NickPtr, times: seq<int>)
    requires Inv(s) && n in s.nicks && s.nicks[n].account.None? && s.nicks[n].name in s.users
    requires s.nicks[n].loginattempts + 1 >= cfg.maxloginatt && s.nicks[n].lasttry != 0
    requires forall i :: 0 <= i < |times| ==> times[i] - s.nicks[n].lasttry >= 60
    ensures Possible(s, Guesses(cfg, n, times)) && n in NetRuns.After(s, Guesses(cfg, n, times)).nicks
    decreases |times|
  {
    if times != [] {
      var run := Guesses(cfg, n, times);
      assert run[1..] == Guesses(cfg, n, times[1..]);
      WrongPasswordExactly(cfg, s, n, times[0]);
      StepKeeps(cfg, s, run[0].ev);
      GuessesUnlimited(cfg, Step(cfg, s, run[0].ev), n, times[1..]);
    }
  }

  // ----- UID.

  /** How many nicks a host may have: what its trust says, or else what the configuration says. */
  function Room(cfg: Config, trust: Option<Name>): int {
    match trust
    case None => cfg.maxclones
    case Some(t) => if t in cfg.trusts then cfg.trusts[t] else cfg.maxclones
  }

  ghost predicate Admitted(cfg: Config, s: State, ev: Event)
    requires ev.Uid?
  {
    ServerOf(s.servers, s.serverList, ev.server).Some? && |OnHost(s.nicks, ev.host)| < Room(cfg, ev.trust)
  }

  /** The account a new nick is logged in to: that of an SVID, or its own when it brings +r along and nobody has it. */
  function Brought(s: State, ev: Event): Option<Name>
    requires ev.Uid?
  {
    var u := SaslTarget(s, ev.name, ev.svid);
    if u.Some? then u
    else if ev.plusR && ev.name in s.users && !s.users[ev.name].authed && !s.users[ev.name].suspended then Some(ev.name)
    else None
  }

  /** What is known of a nick that has just arrived. */
  ghost predicate Arrived(s: State, ev: Event, t: State)
    requires ev.Uid?
  {
    && ev.n in t.nicks
    && var nick := t.nicks[ev.n];
    && nick.name == ev.name && nick.uid == ev.uid && nick.reshost == ev.host && nick.wchans == []
    && Some(nick.server) == ServerOf(s.servers, s.serverList, ev.server)
    && nick.account == Brought(s, ev)
    && (nick.registered <==> nick.account.Some? && (ev.plusR || nick.account == Some(ev.name)))
  }

  lemma AdmittedByCount(cfg: Config, s: State, ev: Event)
    requires Inv(s) && ev.Uid?
    ensures HowManyClones(s.clones, ev.host) == |OnHost(s.nicks, ev.host)|
    ensures ServerOf(s.servers, s.serverList, ev.server).Some? && HowManyClones(s.clones, ev.host) < Limit(cfg, ev.trust) <==>
      Admitted(cfg, s, ev)
  {
    assert Holds(s, Clones);
    if ev.host !in s.clones {
      assert OnHost(s.nicks, ev.host) == {};
    }
  }

  /** What the hook makes of a nick that has just been connected. */
  ghost predicate Hooked(s: State, n: NickPtr, t: State)
    requires n in s.nicks
  {
    var nick, u := s.nicks[n], SaslTarget(s, s.nicks[n].name, s.nicks[n].svid);
    && n in t.nicks
    && t.nicks[n] == (if u.None? then nick.(svid := "0")
      else nick.(account := u, svid := u.value, loginattempts := 0, lasttry := 0,
                 registered := nick.registered || u.value == nick.name))
    && t.nicks.Keys == s.nicks.Keys - (if u.Some? then HolderOf(s, u.value) else {})
    && (forall m :: m in t.nicks && m != n ==> t.nicks[m] == s.nicks[m])
    && t.users.Keys == s.users.Keys && (u.None? ==> t.users == s.users)
  }

  lemma SaslExactly(s: State, n: NickPtr)
    requires Inv(s) && n in s.nicks && s.nicks[n].account.None?
    ensures (forall u :: u in s.users ==> s.users[u].authedNick != Some(n)) && Hooked(s, n, SaslFinish(s, n))
  {
    assert Holds(s, Sessions);
    var u := SaslTarget(s, s.nicks[n].name, s.nicks[n].svid);
    if u.Some? {
      GhostLoginExactly(s, n, u.value);
      assert SaslFinish(s, n) == GhostLogin(s, n, u.value);
    } else {
      NotHooked(s, n);
    }
  }

  lemma NotHooked(s: State, n: NickPtr)
    requires n in s.nicks && s.nicks[n].account.None? && SaslTarget(s, s.nicks[n].name, s.nicks[n].svid).None?
    requires forall u :: u in s.users ==> s.users[u].authedNick != Some(n)
    ensures Hooked(s, n, SaslFinish(s, n))
  {
    var t := SaslFinish(s, n);
    assert t == s || t == Logout(s, n, None);
  }

  /** The +r a nick has is honoured when nobody has its account and that is not suspended, and dropped when it has no
      account. */
  predicate OwnAccount(s: State, n: NickPtr)
    requires n in s.nicks
  {
    var nick := s.nicks[n];
    && nick.registered && nick.account.None?
    && nick.name in s.users && !s.users[nick.name].authed && !s.users[nick.name].suspended
  }

  ghost predicate Greeted(s: State, n: NickPtr, t: State)
    requires n in s.nicks
  {
    var nick, own := s.nicks[n], OwnAccount(s, n);
    && t.nicks.Keys == s.nicks.Keys && (forall m :: m in t.nicks && m != n ==> t.nicks[m] == s.nicks[m])
    && t.nicks[n].name == nick.name && t.nicks[n].uid == nick.uid && t.nicks[n].reshost == nick.reshost
    && t.nicks[n].wchans == nick.wchans && t.nicks[n].server == nick.server
    && t.nicks[n].account == (if own then Some(nick.name) else nick.account)
    && t.nicks[n].registered == (nick.registered && (nick.account.Some? || own))
  }

  lemma GreetRegisteredExactly(s: State, n: NickPtr)
    requires n in s.nicks
    ensures Greeted(s, n, GreetRegistered(s, n))
  {
    if OwnAccount(s, n) {
      assert GreetRegistered(s, n) == Login(s, n, s.nicks[n].name);
    }
  }

  lemma GreetExactly(s: State, n: NickPtr, now: int)
    requires n in s.nicks
    ensures Greeted(s, n, Greet(s, n, now))
  {
    GreetRegisteredExactly(s, n);
    assert Greet(s, n, now).nicks == GreetRegistered(s, n).nicks;
  }

  /** A UID line of a known server is admitted exactly when the host has fewer nicks than its room; then the nick is
      what the line says, with the account it brought, and the one whose session it took is gone. */
  lemma UidExactly(cfg: Config, s: State, ev: Event)
    requires Inv(s) && ev.Uid? && Allowed(s, ev)
    ensures var t := Step(cfg, s, ev);
      && (ev.n in t.nicks <==> Admitted(cfg, s, ev))
      && (!Admitted(cfg, s, ev) ==> t == s)
      && (Admitted(cfg, s, ev) ==> Entered(s, ev, t))
  {
    AdmittedByCount(cfg, s, ev);
    if Admitted(cfg, s, ev) {
      AdmittedExactly(s, ev);
    }
  }

  /** The nick of a line and the one whose session it takes. */
  ghost predicate Entered(s: State, ev: Event, t: State)
    requires ev.Uid?
  {
    && Arrived(s, ev, t)
    && t.nicks.Keys == s.nicks.Keys + {ev.n} -
      (var u := SaslTarget(s, ev.name, ev.svid); if u.Some? then HolderOf(s, u.value) else {})
    && (forall m :: m in t.nicks && m != ev.n ==> t.nicks[m] == s.nicks[m])
  }

  lemma AdmittedExactly(s: State, ev: Event)
    requires Inv(s) && ev.Uid? && Allowed(s, ev) && ServerOf(s.servers, s.serverList, ev.server).Some?
    ensures var c := Connect(s, ev.n, NewNick(ev, ServerOf(s.servers, s.serverList, ev.server).value));
      && (forall u :: u in c.users ==> c.users[u].authedNick != Some(ev.n))
      && ev.n in SaslFinish(c, ev.n).nicks && Entered(s, ev, Greet(SaslFinish(c, ev.n), ev.n, ev.now))
  {
    var nick := NewNick(ev, ServerOf(s.servers, s.serverList, ev.server).value);
    var c := Connect(s, ev.n, nick);
    ConnectKeeps(s, ev.n, nick);
    SaslExactly(c, ev.n);
    var d := SaslFinish(c, ev.n);
    GreetExactly(d, ev.n, ev.now);
    NotTheNewOne(s, ev.n, SaslTarget(s, ev.name, ev.svid));
    SameTargets(s, c, ev);
    HookedThenGreeted(s, ev, c, d, Greet(d, ev.n, ev.now));
  }

  lemma HookedThenGreeted(s: State, ev: Event, c: State, d: State, t: State)
    requires ev.Uid? && ev.n !in s.nicks && ServerOf(s.servers, s.serverList, ev.server).Some?
    requires c.users == s.users && c.nicks == s.nicks[ev.n := NewNick(ev, ServerOf(s.servers, s.serverList, ev.server).value)]
    requires Hooked(c, ev.n, d) && Greeted(d, ev.n, t)
    requires SaslTarget(c, ev.name, ev.svid) == SaslTarget(s, ev.name, ev.svid) && forall u :: HolderOf(c, u) == HolderOf(s, u)
    requires var u := SaslTarget(s, ev.name, ev.svid); u.Some? ==> ev.n !in HolderOf(s, u.value)
    ensures Entered(s, ev, t)
  {
    var u := SaslTarget(s, ev.name, ev.svid);
    if u.None? {
      assert OwnAccount(d, ev.n) <==> Brought(s, ev).Some?;
    }
  }

  lemma NotTheNewOne(s: State, n: NickPtr, u: Option<Name>)
    requires Inv(s) && n !in s.nicks
    ensures u.Some? ==> n !in HolderOf(s, u.value)
  {
    assert Holds(s, Sessions);
  }

  lemma SameTargets(s: State, c: State, ev: Event)
    requires ev.Uid? && c.users == s.users
    ensures SaslTarget(c, ev.name, ev.svid) == SaslTarget(s, ev.name, ev.svid)
    ensures forall u :: HolderOf(c, u) == HolderOf(s, u)
  {
  }
}
