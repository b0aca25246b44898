/** Every run of protocol events and service commands keeps the invariants of the network, and never lets a host
    have more nicks than the limits allow. */
module NetRuns {
  import opened Wrappers
  import opened Network
  import opened NetSplit
  import opened Membership
  import opened Events

  datatype Event =
    | Uid(server: Name, n: NickPtr, name: Name, uid: Name, host: Name, svid: Name, plusR: bool, trust: Option<Name>, now: int)
    | NickChange(sender: Name, newNick: Name, linked: bool, now: int)
    | Join(sender: Name, w: Name, m: MemberPtr)
    | SjoinChannel(w: Name)
    | SjoinNick(w: Name, nick: Name, m: MemberPtr)
    | Part(nick: Name, w: Name)
    | Quit(nick: Name)
    | Sid(hub: Name, x: ServerPtr, name: Name, sid: Name)
    | Uplink(x: ServerPtr, name: Name, sid: Name)
    | Squit(server: Name)
    | Identify(n: NickPtr, password: bool, now: int)
    | Register(n: NickPtr, emailreg: bool)
    | Suspend(u: Name, rank: int)
    | Unsuspend(u: Name, rank: int)
    | Drop(u: Name)
    | Forceauth(nick: Name)
    | SetProtect(n: NickPtr, on: bool)
    | SetTimeout(n: NickPtr, timeout: int)
    | TakeOptions(n: NickPtr, master: Name, passes: bool)
    | CheckGuests(now: int)

  /** An event at its moment: the configuration can be loaded anew. */
  datatype Moment = At(cfg: Config, ev: Event)

  function NewNick(ev: Event, x: ServerPtr): Nick
    requires ev.Uid?
  {
    Nick(ev.name, ev.uid, ev.host, ev.svid, ev.plusR, None, x, [], 0, 0)
  }

  /** m_uid. */
  ghost function Introduced(cfg: Config, s: State, ev: Event): State
    requires Inv(s) && ev.Uid? && ev.n !in s.nicks && FreeNames(s.nicks, ev.name, ev.uid)
  {
    match ServerOf(s.servers, s.serverList, ev.server)
    case None => s
    case Some(x) =>
      if HowManyClones(s.clones, ev.host) >= Limit(cfg, ev.trust) then s
      else
        var t := Connect(s, ev.n, NewNick(ev, x));
        ConnectKeeps(s, ev.n, NewNick(ev, x));
        SaslKeeps(t, ev.n);
        Greet(SaslFinish(t, ev.n), ev.n, ev.now)
  }

  /** A UID line that is not refused and whose name is in use: the new nick is not made, and the program goes on to
      dereference it. */
  ghost predicate UidFaults(cfg: Config, s: State, ev: Event)
    requires ev.Uid?
  {
    && ServerOf(s.servers, s.serverList, ev.server).Some? && HowManyClones(s.clones, ev.host) < Limit(cfg, ev.trust)
    && Named(s.nicks, s.nicks.Keys, ev.name)
  }

  /** What the events take for granted: what malloc returns is not in use, a nick that is named by pointer is online,
      and the names of a new or renamed nick are free. */
  ghost predicate Allowed(s: State, ev: Event) {
    match ev
    case Uid(_, n, name, uid, _, _, _, _, _) => n !in s.nicks && FreeNames(s.nicks, name, uid)
    case NickChange(sender, newNick, _, _) =>
      var found := NickOf(s.nicks, sender);
      found.None? || FreeFor(s.nicks, found.value, newNick)
    case Join(_, _, m) => m !in s.members
    case SjoinNick(w, _, m) => m !in s.members && w in s.wchans
    case Sid(_, x, _, _) => x !in s.servers
    case Uplink(x, _, _) => x !in s.servers
    case Identify(n, _, _) => n in s.nicks
    case Register(n, _) => n in s.nicks
    case SetProtect(n, _) => n in s.nicks
    case SetTimeout(n, _) => n in s.nicks
    case TakeOptions(n, _, _) => n in s.nicks
    case _ => true
  }

  /** The events that respect the registries: a nick joins a channel it is not on, a session is moved only where it is
      the nick's own and the other account has none, and nick and account are forced together only when the account
      is not in use. */
  ghost predicate Safe(s: State, ev: Event)
    requires Allowed(s, ev)
  {
    match ev
    case NickChange(sender, newNick, linked, _) =>
      var found := NickOf(s.nicks, sender);
      found.None? || (var n := found.value;
        MovesSession(s, n, newNick, linked) ==>
          s.nicks[n].account == Some(s.nicks[n].name) && !s.users[newNick].authed)
    case Join(sender, w, _) =>
      var found := NickOf(s.nicks, sender);
      found.None? || !OnChannel(s.members, found.value, w)
    case Forceauth(nick) =>
      var found := NickOf(s.nicks, nick);
      !(found.Some? && s.nicks[found.value].account.None? && nick in s.users && s.users[nick].authed)
    case _ => true
  }

  /** oper_forceauth: looks both the nick and the account up under the name given. */
  ghost function Forced(s: State, ref: Name): State {
    match NickOf(s.nicks, ref)
    case None => s
    case Some(n) => if ref in s.users && s.nicks[n].account.None? then Login(s, n, ref) else s
  }

  ghost function Joined(s: State, w: Name, ref: Name, m: MemberPtr): State {
    match NickOf(s.nicks, ref)
    case None => s
    case Some(n) => JoinChannel(s, n, w, m)
  }

  /** An item of an SJOIN buffer; a nick that is on the channel already is skipped. */
  ghost function SjoinedNick(s: State, w: Name, ref: Name, m: MemberPtr): State
    requires w in s.wchans
  {
    match NickOf(s.nicks, ref)
    case None => s
    case Some(n) => if OnChannel(s.members, n, w) then s else AddMember(s, w, n, m)
  }

  ghost function Left(s: State, ref: Name, w: Name): State {
    match NickOf(s.nicks, ref)
    case None => s
    case Some(n) => if w in s.wchans then PartChannel(s, n, w) else s
  }

  ghost function Gone(s: State, ref: Name): State {
    match NickOf(s.nicks, ref)
    case None => s
    case Some(n) => WithoutNicks(s, {n})
  }

  /** m_sid. */
  function Linked(s: State, ref: Name, x: ServerPtr, name: Name, sid: Name): State {
    match ServerOf(s.servers, s.serverList, ref)
    case None => s
    case Some(hub) =>
      if ServerOf(s.servers, s.serverList, name).Some? || ServerOf(s.servers, s.serverList, sid).Some? then s
      else AddServer(s, x, name, sid, Some(hub))
  }

  /** m_server. */
  function Uplinked(s: State, x: ServerPtr, name: Name, sid: Name): State {
    if sid == "" || ServerOf(s.servers, s.serverList, sid).Some? then s else AddServer(s, x, name, sid, None)
  }

  /** m_squit. */
  ghost function Split(s: State, ref: Name): State
    requires Holds(s, Forest)
  {
    match ServerOf(s.servers, s.serverList, ref)
    case None => s
    case Some(x) => Detach(s, x)
  }

  /** oper_suspend, for a caller with the level `rank`. */
  function SuspensionSet(s: State, u: Name, rank: int, on: bool): State
    requires u in s.users && (s.users[u].authedNick.Some? ==> s.users[u].authedNick.value in s.nicks)
  {
    if s.users[u].level >= rank then s
    else if on then Suspended(s, u)
    else s.(users := s.users[u := s.users[u].(suspended := false)])
  }

  ghost function Step(cfg: Config, s: State, ev: Event): State
    requires Inv(s) && Allowed(s, ev)
  {
    assert Holds(s, Sessions) && Holds(s, Forest);
    match ev
    case Uid(_, _, _, _, _, _, _, _, _) => Introduced(cfg, s, ev)
    case NickChange(sender, newNick, linked, now) =>
      (match NickOf(s.nicks, sender)
       case None => s
       case Some(n) => NickChanged(s, n, newNick, linked, now))
    case Join(sender, w, m) => Joined(s, w, sender, m)
    case SjoinChannel(w) => OpenChannel(s, w)
    case SjoinNick(w, nick, m) => SjoinedNick(s, w, nick, m)
    case Part(nick, w) => Left(s, nick, w)
    case Quit(nick) => Gone(s, nick)
    case Sid(hub, x, name, sid) => Linked(s, hub, x, name, sid)
    case Uplink(x, name, sid) => Uplinked(s, x, name, sid)
    case Squit(server) => Split(s, server)
    case Identify(n, password, now) => Identified(cfg, s, n, password, now)
    case Register(n, emailreg) => Registered(cfg, s, n, emailreg)
    case Suspend(u, rank) => if u in s.users then SuspensionSet(s, u, rank, true) else s
    case Unsuspend(u, rank) => if u in s.users then SuspensionSet(s, u, rank, false) else s
    case Drop(u) => if u in s.users then Dropped(s, u) else s
    case Forceauth(nick) => Forced(s, nick)
    case SetProtect(n, on) => ProtectSet(s, n, on)
    case SetTimeout(n, timeout) => TimeoutSet(s, n, timeout)
    case TakeOptions(n, master, passes) => OptionsTaken(s, n, master, passes)
    case CheckGuests(now) => Ticked(s, now)
  }

  lemma IntroducedKeeps(cfg: Config, s: State, ev: Event)
    requires Inv(s) && ev.Uid? && ev.n !in s.nicks && FreeNames(s.nicks, ev.name, ev.uid)
    ensures Inv(Introduced(cfg, s, ev))
  {
    var found := ServerOf(s.servers, s.serverList, ev.server);
    if found.Some? && HowManyClones(s.clones, ev.host) < Limit(cfg, ev.trust) {
      var t := Connect(s, ev.n, NewNick(ev, found.value));
      ConnectKeeps(s, ev.n, NewNick(ev, found.value));
      SaslKeeps(t, ev.n);
      GreetKeeps(SaslFinish(t, ev.n), ev.n, ev.now);
    }
  }

  lemma SjoinedNickKeeps(s: State, w: Name, ref: Name, m: MemberPtr)
    requires Inv(s) && w in s.wchans && m !in s.members
    ensures Inv(SjoinedNick(s, w, ref, m))
  {
    var found := NickOf(s.nicks, ref);
    if found.Some? && !OnChannel(s.members, found.value, w) {
      AddMemberKeeps(s, w, found.value, m);
    }
  }

  lemma SuspensionKeeps(s: State, u: Name, rank: int, on: bool)
    requires Inv(s) && u in s.users
    ensures Holds(s, Sessions) && Inv(SuspensionSet(s, u, rank, on))
  {
    assert Holds(s, Sessions) && Holds(s, Guests);
    SuspendedKeeps(s, u);
    SessionStepKeeps(s, s.(users := s.users[u := s.users[u].(suspended := false)]));
  }

  lemma LinkedKeeps(s: State, ref: Name, x: ServerPtr, name: Name, sid: Name)
    requires Inv(s) && x !in s.servers
    ensures Inv(Linked(s, ref, x, name, sid)) && Inv(Uplinked(s, x, name, sid))
  {
    var hub := ServerOf(s.servers, s.serverList, ref);
    if hub.Some? {
      AddServerKeeps(s, x, name, sid, hub);
    }
    AddServerKeeps(s, x, name, sid, None);
  }

  lemma ForcedKeeps(s: State, ref: Name)
    requires Inv(s)
    ensures Inv(Forced(s, ref)) <==> Safe(s, Forceauth(ref))
  {
    var found := NickOf(s.nicks, ref);
    if found.Some? && ref in s.users && s.nicks[found.value].account.None? {
      LoginKeeps(s, found.value, ref);
    }
  }

  lemma RenamedKeeps(s: State, ev: Event)
    requires Inv(s) && ev.NickChange? && Allowed(s, ev)
    ensures match NickOf(s.nicks, ev.sender)
      case None => true
      case Some(n) => Inv(NickChanged(s, n, ev.newNick, ev.linked, ev.now)) <==> Safe(s, ev)
  {
    if NickOf(s.nicks, ev.sender).Some? {
      NickChangedKeeps(s, NickOf(s.nicks, ev.sender).value, ev.newNick, ev.linked, ev.now);
    }
  }

  lemma GoneKeeps(s: State, ref: Name)
    requires Inv(s)
    ensures Inv(Gone(s, ref))
  {
    if NickOf(s.nicks, ref).Some? {
      WithoutKeepsInv(s, {NickOf(s.nicks, ref).value});
    }
  }

  lemma SplitKeeps(s: State, ref: Name)
    requires Inv(s)
    ensures Holds(s, Forest) && Inv(Split(s, ref))
  {
    assert Holds(s, Forest);
    if ServerOf(s.servers, s.serverList, ref).Some? {
      DetachKeeps(s, ServerOf(s.servers, s.serverList, ref).value);
    }
  }

  lemma LeftKeeps(s: State, ref: Name, w: Name)
    requires Inv(s)
    ensures Inv(Left(s, ref, w))
  {
    if NickOf(s.nicks, ref).Some? && w in s.wchans {
      PartKeeps(s, NickOf(s.nicks, ref).value, w);
    }
  }

  lemma JoinedKeeps(s: State, w: Name, ref: Name, m: MemberPtr)
    requires Inv(s) && m !in s.members
    ensures Inv(Joined(s, w, ref, m)) <==> Safe(s, Join(ref, w, m))
  {
    if NickOf(s.nicks, ref).Some? {
      JoinKeeps(s, NickOf(s.nicks, ref).value, w, m);
    }
  }

  /** A step keeps the laws exactly when its event respects them. */
  lemma StepKeeps(cfg: Config, s: State, ev: Event)
    requires Inv(s) && Allowed(s, ev)
    ensures Inv(Step(cfg, s, ev)) <==> Safe(s, ev)
  {
    match ev {
      case Uid(_, _, _, _, _, _, _, _, _) => IntroducedKeeps(cfg, s, ev);
      case NickChange(_, _, _, _) => RenamedKeeps(s, ev);
      case Join(sender, w, m) => JoinedKeeps(s, w, sender, m);
      case SjoinChannel(w) => OpenChannelKeeps(s, w);
      case SjoinNick(w, nick, m) => SjoinedNickKeeps(s, w, nick, m);
      case Part(nick, w) => LeftKeeps(s, nick, w);
      case Quit(nick) => GoneKeeps(s, nick);
      case Sid(hub, x, name, sid) => LinkedKeeps(s, hub, x, name, sid);
      case Uplink(x, name, sid) => LinkedKeeps(s, "", x, name, sid);
      case Squit(server) => SplitKeeps(s, server);
      case Identify(n, password, now) => IdentifiedKeeps(cfg, s, n, password, now);
      case Register(n, emailreg) => RegisteredKeeps(cfg, s, n, emailreg);
      case Suspend(u, rank) => if u in s.users { SuspensionKeeps(s, u, rank, true); }
      case Unsuspend(u, rank) => if u in s.users { SuspensionKeeps(s, u, rank, false); }
      case Drop(u) => if u in s.users { DroppedKeeps(s, u); }
      case Forceauth(nick) => ForcedKeeps(s, nick);
      case SetProtect(n, on) => SettingsKeep(s, n, on, 0, "", false);
      case SetTimeout(n, timeout) => SettingsKeep(s, n, true, timeout, "", false);
      case TakeOptions(n, master, passes) => SettingsKeep(s, n, true, 0, master, passes);
      case CheckGuests(now) => TickedKeeps(s, now);
    }
  }

  // ----- Runs.

  /** Every event of the run is allowed and safe where it happens. That the laws hold there is not part of this: it
      is only what makes the next state defined. */
  ghost predicate Possible(s: State, run: seq<Moment>)
    decreases |run|
  {
    run == []
    || (Allowed(s, run[0].ev) && Safe(s, run[0].ev)
      && (Inv(s) ==> Possible(Step(run[0].cfg, s, run[0].ev), run[1..])))
  }

  lemma NextKeeps(s: State, run: seq<Moment>)
    requires Inv(s) && Possible(s, run) && run != []
    ensures var t := Step(run[0].cfg, s, run[0].ev); Inv(t) && Possible(t, run[1..])
  {
    StepKeeps(run[0].cfg, s, run[0].ev);
  }

  ghost function After(s: State, run: seq<Moment>): State
    requires Inv(s) && Possible(s, run)
    decreases |run|
  {
    if run == [] then s
    else
      NextKeeps(s, run);
      After(Step(run[0].cfg, s, run[0].ev), run[1..])
  }

  /** From a state in which the laws hold no run of safe events reaches one in which a law is broken. */
  lemma {:induction false} RunKeeps(s: State, run: seq<Moment>)
    requires Inv(s) && Possible(s, run)
    ensures Inv(After(s, run))
    decreases |run|
  {
    if run != [] {
      NextKeeps(s, run);
      RunKeeps(Step(run[0].cfg, s, run[0].ev), run[1..]);
    }
  }

  /** The state of a daemon that has just started. */
  const START := State(map[], map[], map[], map[], map[], map[], map[], [])

  lemma StartKeeps()
    ensures Inv(START)
  {
    forall law: Law
      ensures Holds(START, law)
    {
      match law {
        case Names => case NickLists => case ChanLists => case Pairs => case Clones =>
        case Guests => case Sessions => case Homes => case Forest =>
      }
    }
  }

  /** A nick that comes with the SVID of an account is logged in to the account of its own name, if there is one, and
      to the one its SVID names otherwise. */
  lemma IntroducedAccount(cfg: Config, s: State, ev: Event)
    requires Inv(s) && ev.Uid? && Allowed(s, ev) && ev.svid != "0" && ev.svid in s.users
    requires ServerOf(s.servers, s.serverList, ev.server).Some? && HowManyClones(s.clones, ev.host) < Limit(cfg, ev.trust)
    ensures var t := Step(cfg, s, ev);
      && ev.n in t.nicks
      && t.nicks[ev.n].account == Some(if ev.name in s.users then ev.name else ev.svid)
      && (t.nicks[ev.n].account == Some(ev.svid) <==> ev.name !in s.users || ev.name == ev.svid)
  {
    var x := ServerOf(s.servers, s.serverList, ev.server).value;
    var c := Connect(s, ev.n, NewNick(ev, x));
    ConnectKeeps(s, ev.n, NewNick(ev, x));
    SaslAccount(c, ev.n);
  }

  // ----- Clone limits.

  /** All limits are at most `cap`. */
  predicate Bounded(cfg: Config, cap: nat) {
    cfg.maxclones <= cap && forall t :: t in cfg.trusts ==> cfg.trusts[t] <= cap
  }

  predicate Capped(clones: map<Name, nat>, cap: nat) {
    forall h :: h in clones ==> clones[h] <= cap
  }

  lemma FewerOnHost(nicks: map<NickPtr, Nick>, gone: set<NickPtr>, h: Name)
    ensures |OnHost(Remaining(nicks, gone), h)| <= |OnHost(nicks, h)|
  {
    SubsetSize(OnHost(Remaining(nicks, gone), h), OnHost(nicks, h));
  }

  lemma {:induction false} SubsetSize<T>(a: set<T>, b: set<T>)
    requires a <= b
    ensures |a| <= |b|
  {
    if a != {} {
      var x :| x in a;
      SubsetSize(a - {x}, b - {x});
    }
  }

  lemma WithoutCapped(s: State, gone: set<NickPtr>, cap: nat)
    requires InvClones(s.nicks, s.clones) && Capped(s.clones, cap)
    ensures Capped(WithoutNicks(s, gone).clones, cap)
  {
    forall h | h in WithoutNicks(s, gone).clones
      ensures WithoutNicks(s, gone).clones[h] <= cap
    {
      FewerOnHost(s.nicks, gone, h);
    }
  }

  lemma GhostLoginCapped(s: State, n: NickPtr, u: Name, cap: nat)
    requires Inv(s) && n in s.nicks && u in s.users && s.users[u].authedNick != Some(n) && Capped(s.clones, cap)
    ensures Capped(GhostLogin(s, n, u).clones, cap)
  {
    assert Holds(s, Clones);
    if s.users[u].authedNick.Some? {
      WithoutCapped(s, {s.users[u].authedNick.value}, cap);
    }
  }

  lemma ConnectCapped(s: State, n: NickPtr, nick: Nick, cap: nat)
    requires nick.server in s.servers && Capped(s.clones, cap) && HowManyClones(s.clones, nick.reshost) < cap
    ensures Capped(Connect(s, n, nick).clones, cap)
  {
  }

  lemma IntroducedCapped(cfg: Config, s: State, ev: Event, cap: nat)
    requires Inv(s) && ev.Uid? && ev.n !in s.nicks && FreeNames(s.nicks, ev.name, ev.uid)
    requires Bounded(cfg, cap) && Capped(s.clones, cap)
    ensures Capped(Introduced(cfg, s, ev).clones, cap)
  {
    var found := ServerOf(s.servers, s.serverList, ev.server);
    if found.Some? && HowManyClones(s.clones, ev.host) < Limit(cfg, ev.trust) {
      var n, t := ev.n, Connect(s, ev.n, NewNick(ev, found.value));
      ConnectKeeps(s, n, NewNick(ev, found.value));
      ConnectCapped(s, n, NewNick(ev, found.value), cap);
      WelcomeCapped(t, n, ev.now, cap);
    }
  }

  lemma WelcomeCapped(s: State, n: NickPtr, now: int, cap: nat)
    requires Inv(s) && n in s.nicks && s.nicks[n].account.None? && Capped(s.clones, cap)
    ensures (forall u :: u in s.users ==> s.users[u].authedNick != Some(n)) && n in SaslFinish(s, n).nicks
    ensures Capped(Greet(SaslFinish(s, n), n, now).clones, cap)
  {
    SaslKeeps(s, n);
    SaslCapped(s, n, cap);
    GreetClones(SaslFinish(s, n), n, now);
  }

  lemma GreetClones(s: State, n: NickPtr, now: int)
    requires n in s.nicks
    ensures Greet(s, n, now).clones == s.clones
  {
    assert GreetRegistered(s, n).clones == s.clones;
  }

  lemma SaslCapped(s: State, n: NickPtr, cap: nat)
    requires Inv(s) && n in s.nicks && Capped(s.clones, cap)
    requires forall u :: u in s.users ==> s.users[u].authedNick != Some(n)
    ensures Capped(SaslFinish(s, n).clones, cap)
  {
    var found := AccountOf(s, n);
    var u := if found.Some? then found else if s.nicks[n].svid in s.users then Some(s.nicks[n].svid) else None;
    if u.Some? && u.value in s.users {
      GhostLoginCapped(s, n, u.value, cap);
    }
  }

  lemma WrongPasswordCapped(cfg: Config, s: State, n: NickPtr, now: int, cap: nat)
    requires Inv(s) && n in s.nicks && Capped(s.clones, cap)
    ensures Capped(WrongPassword(cfg, s, n, now).clones, cap)
  {
    var nick := s.nicks[n];
    var t := Tried(s, n, nick.loginattempts + 1, if nick.lasttry == 0 then now else nick.lasttry);
    TriedKeeps(s, n, nick.loginattempts + 1, if nick.lasttry == 0 then now else nick.lasttry);
    assert Holds(t, Clones);
    WithoutCapped(t, {n}, cap);
  }

  lemma IdentifiedCapped(cfg: Config, s: State, n: NickPtr, password: bool, now: int, cap: nat)
    requires Inv(s) && n in s.nicks && Holds(s, Sessions) && Capped(s.clones, cap)
    ensures Capped(Identified(cfg, s, n, password, now).clones, cap)
  {
    WrongPasswordCapped(cfg, s, n, now, cap);
    if s.nicks[n].account.None? && s.nicks[n].name in s.users {
      GhostLoginCapped(s, n, s.nicks[n].name, cap);
    }
  }

  lemma SameClonesOnJoin(cfg: Config, s: State, ev: Event)
    requires Inv(s) && Allowed(s, ev) && (ev.Join? || ev.SjoinChannel? || ev.SjoinNick?)
    ensures Step(cfg, s, ev).clones == s.clones
  {
  }

  lemma SameClonesOnPart(cfg: Config, s: State, ev: Event)
    requires Inv(s) && Allowed(s, ev) && ev.Part?
    ensures Step(cfg, s, ev).clones == s.clones
  {
  }

  lemma SameClonesOnNickChange(cfg: Config, s: State, ev: Event)
    requires Inv(s) && Allowed(s, ev) && ev.NickChange?
    ensures Step(cfg, s, ev).clones == s.clones
  {
  }

  lemma SameClonesOnServers(cfg: Config, s: State, ev: Event)
    requires Inv(s) && Allowed(s, ev) && (ev.Sid? || ev.Uplink? || ev.CheckGuests?)
    ensures Step(cfg, s, ev).clones == s.clones
  {
  }

  lemma SameClonesOnForceauth(cfg: Config, s: State, ev: Event)
    requires Inv(s) && Allowed(s, ev) && ev.Forceauth?
    ensures Step(cfg, s, ev).clones == s.clones
  {
  }

  lemma SameClonesOnRegister(cfg: Config, s: State, ev: Event)
    requires Inv(s) && Allowed(s, ev) && ev.Register?
    ensures Step(cfg, s, ev).clones == s.clones
  {
    RegisteredClones(cfg, s, ev.n, ev.emailreg);
  }

  lemma RegisteredClones(cfg: Config, s: State, n: NickPtr, emailreg: bool)
    requires n in s.nicks
    ensures Registered(cfg, s, n, emailreg).clones == s.clones
  {
  }

  lemma SameClonesOnSettings(cfg: Config, s: State, ev: Event)
    requires Inv(s) && Allowed(s, ev) && (ev.SetProtect? || ev.SetTimeout? || ev.TakeOptions?)
    ensures Step(cfg, s, ev).clones == s.clones
  {
  }

  lemma SameClonesOnUnsuspend(cfg: Config, s: State, ev: Event)
    requires Inv(s) && Allowed(s, ev) && ev.Unsuspend?
    ensures Step(cfg, s, ev).clones == s.clones
  {
  }

  lemma SameClonesOnSuspend(cfg: Config, s: State, ev: Event)
    requires Inv(s) && Allowed(s, ev) && ev.Suspend?
    ensures Step(cfg, s, ev).clones == s.clones
  {
    assert Holds(s, Sessions);
  }

  lemma SameClonesOnDrop(cfg: Config, s: State, ev: Event)
    requires Inv(s) && Allowed(s, ev) && ev.Drop?
    ensures Step(cfg, s, ev).clones == s.clones
  {
    assert Holds(s, Sessions);
  }

  lemma StepCapped(cfg: Config, s: State, ev: Event, cap: nat)
    requires Inv(s) && Allowed(s, ev) && Bounded(cfg, cap) && Capped(s.clones, cap)
    ensures Capped(Step(cfg, s, ev).clones, cap)
  {
    assert Holds(s, Sessions) && Holds(s, Forest) && Holds(s, Clones);
    if ev.Uid? {
      IntroducedCapped(cfg, s, ev, cap);
    } else if ev.Quit? {
      if NickOf(s.nicks, ev.nick).Some? {
        WithoutCapped(s, {NickOf(s.nicks, ev.nick).value}, cap);
      }
    } else if ev.Squit? {
      var found := ServerOf(s.servers, s.serverList, ev.server);
      if found.Some? {
        WithoutCapped(s, NicksOn(s.nicks, Subtree(s.servers, s.serverList, found.value)), cap);
      }
    } else if ev.Identify? {
      IdentifiedCapped(cfg, s, ev.n, ev.password, ev.now, cap);
    } else {
      SameClones(cfg, s, ev);
    }
  }

  /** Nothing else changes the counters. */
  lemma SameClones(cfg: Config, s: State, ev: Event)
    requires Inv(s) && Allowed(s, ev) && !ev.Uid? && !ev.Quit? && !ev.Squit? && !ev.Identify?
    ensures Step(cfg, s, ev).clones == s.clones
  {
    match ev {
      case Suspend(_, _) => SameClonesOnSuspend(cfg, s, ev);
      case Unsuspend(_, _) => SameClonesOnUnsuspend(cfg, s, ev);
      case Drop(_) => SameClonesOnDrop(cfg, s, ev);
      case Forceauth(_) => SameClonesOnForceauth(cfg, s, ev);
      case Register(_, _) => SameClonesOnRegister(cfg, s, ev);
      case NickChange(_, _, _, _) => SameClonesOnNickChange(cfg, s, ev);
      case SetProtect(_, _) => SameClonesOnSettings(cfg, s, ev);
      case SetTimeout(_, _) => SameClonesOnSettings(cfg, s, ev);
      case TakeOptions(_, _, _) => SameClonesOnSettings(cfg, s, ev);
      case _ => SameClonesElsewhere(cfg, s, ev);
    }
  }

  lemma SameClonesElsewhere(cfg: Config, s: State, ev: Event)
    requires Inv(s) && Allowed(s, ev)
    requires ev.Join? || ev.SjoinChannel? || ev.SjoinNick? || ev.Part? || ev.Sid? || ev.Uplink? || ev.CheckGuests?
    ensures Step(cfg, s, ev).clones == s.clones
  {
    if ev.Part? {
      SameClonesOnPart(cfg, s, ev);
    } else if ev.Sid? || ev.Uplink? || ev.CheckGuests? {
      SameClonesOnServers(cfg, s, ev);
    } else {
      SameClonesOnJoin(cfg, s, ev);
    }
  }

  /** While all limits are at most `cap`, no host ever has more nicks online than that. */
  lemma {:induction false} RunCapped(s: State, run: seq<Moment>, cap: nat)
    requires Inv(s) && Possible(s, run) && Capped(s.clones, cap)
    requires forall i :: 0 <= i < |run| ==> Bounded(run[i].cfg, cap)
    ensures forall h :: |OnHost(After(s, run).nicks, h)| <= cap
    decreases |run|
  {
    if run != [] {
      NextKeeps(s, run);
      StepCapped(run[0].cfg, s, run[0].ev, cap);
      RunCapped(Step(run[0].cfg, s, run[0].ev), run[1..], cap);
    } else {
      CappedHosts(s, cap);
    }
  }

  lemma CappedHosts(s: State, cap: nat)
    requires Inv(s) && Capped(s.clones, cap)
    ensures forall h :: |OnHost(s.nicks, h)| <= cap
  {
    assert Holds(s, Clones);
    forall h
      ensures |OnHost(s.nicks, h)| <= cap
    {
      if n :| n in OnHost(s.nicks, h) {
        assert s.nicks[n].reshost in s.clones;
      }
    }
  }
}
