/** The protocol events and service commands that change the network registries, as functions on the whole state,
    and the proof that every run of them keeps the invariants. */
module Events {
  import opened Wrappers
  import opened Lists
  import opened Network
  import opened Membership

  // ----- Lookups. Strcmp holds the empty string to be different from every string.

  ghost predicate Answers(nicks: map<NickPtr, Nick>, ref: Name, n: NickPtr) {
    n in nicks && ref != "" && (nicks[n].name == ref || nicks[n].uid == ref)
  }

  /** find_nick: the nick with that name or UID. Under InvNames there is at most one. */
  ghost function NickOf(nicks: map<NickPtr, Nick>, ref: Name): (r: Option<NickPtr>)
    ensures r.Some? ==> Answers(nicks, ref, r.value)
    ensures r.None? ==> forall n :: !Answers(nicks, ref, n)
  {
    if n :| Answers(nicks, ref, n) then Some(n) else None
  }

  lemma NickOfUnique(nicks: map<NickPtr, Nick>, ref: Name, n: NickPtr)
    requires InvNames(nicks) && Answers(nicks, ref, n)
    ensures NickOf(nicks, ref) == Some(n)
  {
    assert Answers(nicks, ref, NickOf(nicks, ref).value);
  }

  /** find_server: the first server on the list with that name or SID. */
  function ServerOf(servers: map<ServerPtr, Server>, list: seq<ServerPtr>, ref: Name): (r: Option<ServerPtr>)
    ensures r.Some? ==> r.value in servers && r.value in list
  {
    if list == [] then None
    else if ref != "" && list[0] in servers && (servers[list[0]].name == ref || servers[list[0]].sid == ref) then Some(list[0])
    else ServerOf(servers, list[1..], ref)
  }

  /** find_account: the account of the nick, or else the account with the nick's name. */
  function AccountOf(s: State, n: NickPtr): Option<Name>
    requires n in s.nicks
  {
    var nick := s.nicks[n];
    if nick.account.Some? then nick.account else if nick.name in s.users then Some(nick.name) else None
  }

  // ----- Sessions.

  /** user_logout: ends the session of the account, if one is given, and what the nick says about it. */
  function Logout(s: State, n: NickPtr, u: Option<Name>): State
    requires n in s.nicks && (u.Some? ==> u.value in s.users)
  {
    s.(users := if u.Some? then s.users[u.value := s.users[u.value].(authed := false, authedNick := None)] else s.users,
       nicks := s.nicks[n := s.nicks[n].(account := None, svid := "0")])
  }

  /** user_login. */
  function Login(s: State, n: NickPtr, u: Name): State
    requires n in s.nicks && u in s.users
  {
    var nick := s.nicks[n];
    s.(users := s.users[u := s.users[u].(authed := true, authedNick := Some(n))],
       nicks := s.nicks[n := nick.(account := Some(u), svid := u, registered := nick.registered || nick.name == u,
                                   loginattempts := 0, lasttry := 0)],
       guests := if nick.name == u && s.users[u].protect then s.guests - {u} else s.guests)
  }

  /** The nick that holds the session of the account, if any, is killed; then user_login. */
  ghost function GhostLogin(s: State, n: NickPtr, u: Name): State
    requires n in s.nicks && u in s.users && (s.users[u].authedNick != Some(n))
  {
    if s.users[u].authed && s.users[u].authedNick.Some?
    then Login(WithoutNicks(s, {s.users[u].authedNick.value}), n, u)
    else Login(s, n, u)
  }

  /** AddGuest: a timer that is already running stays. */
  function AddGuest(s: State, g: Name, timeout: int, now: int): State {
    if g in s.guests then s else s.(guests := s.guests[g := Guest(timeout, now)])
  }

  // ----- UID.

  datatype Config = Config(maxclones: int, trusts: map<Name, int>, levelOwner: int, maxloginatt: int)

  /** The limit of the trust found for the host, or else the general one. */
  function Limit(cfg: Config, trust: Option<Name>): int {
    if trust.Some? && trust.value in cfg.trusts then cfg.trusts[trust.value] else cfg.maxclones
  }

  /** howmanyclones. */
  function HowManyClones(clones: map<Name, nat>, host: Name): nat {
    if host in clones then clones[host] else 0
  }

  function OneMore(clones: map<Name, nat>, host: Name): map<Name, nat> {
    clones[host := HowManyClones(clones, host) + 1]
  }

  /** new_nick, nick_set_svid and the nick joining its server's list. */
  function Connect(s: State, n: NickPtr, nick: Nick): State
    requires nick.server in s.servers
  {
    var x := nick.server;
    s.(nicks := s.nicks[n := nick], clones := OneMore(s.clones, nick.reshost),
       servers := s.servers[x := s.servers[x].(nicks := s.servers[x].nicks + [n])])
  }

  /** sasl_finish_session. */
  ghost function SaslFinish(s: State, n: NickPtr): State
    requires n in s.nicks && (forall u :: u in s.users ==> s.users[u].authedNick != Some(n))
  {
    var nick := s.nicks[n];
    var found := AccountOf(s, n);
    var u := if found.Some? then found else if nick.svid in s.users then Some(nick.svid) else None;
    if nick.svid == "0" then s
    else if u.None? || u.value !in s.users then Logout(s, n, None)
    else GhostLogin(s, n, u.value)
  }

  /** The end of m_uid: the +r a nick brings along is either honoured or dropped, and a nick on a protected
      registered name gets a guest timer. */
  function Greet(s: State, n: NickPtr, now: int): State
    requires n in s.nicks
  {
    var name, t := s.nicks[n].name, GreetRegistered(s, n);
    if name in t.users && !t.nicks[n].registered && !t.users[name].suspended && t.users[name].protect
    then AddGuest(t, name, t.users[name].timeout, now) else t
  }

  /** The +r that the nick brings. */
  function GreetRegistered(s: State, n: NickPtr): (t: State)
    requires n in s.nicks
    ensures n in t.nicks && t.nicks[n].name == s.nicks[n].name
  {
    var name := s.nicks[n].name;
    if !s.nicks[n].registered || s.nicks[n].account.Some? then s
    else if name in s.users && !s.users[name].authed && !s.users[name].suspended then Login(s, n, name)
    else s.(nicks := s.nicks[n := s.nicks[n].(registered := false)])
  }

  // ----- NICK.

  function Rename(s: State, n: NickPtr, name: Name): State
    requires n in s.nicks
  {
    s.(guests := s.guests - {s.nicks[n].name}, nicks := s.nicks[n := s.nicks[n].(name := name)])
  }

  /** m_nick. `linked` says whether the two names are linked accounts. */
  function NickChanged(s: State, n: NickPtr, name: Name, linked: bool, now: int): State
    requires n in s.nicks
  {
    AccountFollows(Rename(s, n, name), n, s.nicks[n].name, name, linked, now)
  }

  function AccountFollows(t: State, n: NickPtr, was: Name, name: Name, linked: bool, now: int): State
    requires n in t.nicks
  {
    if name == was || name !in t.users then t
    else if was in t.users && t.users[was].authed && linked then Login(Logout(t, n, Some(was)), n, name)
    else if t.users[name].protect then AddGuest(t, name, t.users[name].timeout, now)
    else t
  }

  // ----- JOIN and SJOIN.

  /** The channel, created if need be. */
  function OpenChannel(s: State, w: Name): State {
    if w in s.wchans then s else s.(wchans := s.wchans[w := []])
  }

  /** AddUserToWchan. */
  function AddMember(s: State, w: Name, n: NickPtr, m: MemberPtr): State
    requires n in s.nicks && w in s.wchans
  {
    s.(members := s.members[m := Member(w, n)],
       wchans := s.wchans[w := s.wchans[w] + [m]],
       nicks := s.nicks[n := s.nicks[n].(wchans := s.nicks[n].wchans + [m])])
  }

  function JoinChannel(s: State, n: NickPtr, w: Name, m: MemberPtr): State
    requires n in s.nicks
  {
    AddMember(OpenChannel(s, w), w, n, m)
  }

  predicate OnChannel(members: map<MemberPtr, Member>, n: NickPtr, w: Name) {
    exists m :: m in members && members[m] == Member(w, n)
  }

  // ----- SID.

  function AddServer(s: State, x: ServerPtr, name: Name, sid: Name, hub: Option<ServerPtr>): State
    requires hub.Some? ==> hub.value in s.servers
  {
    var servers := if hub.Some?
      then s.servers[hub.value := s.servers[hub.value].(leafs := s.servers[hub.value].leafs + [x])] else s.servers;
    s.(servers := servers[x := Server(name, sid, hub, [], [])], serverList := s.serverList + [x])
  }

  // ----- Accounts.

  /** AddUser: the first account gets the level of the owner of the services. */
  function NewUser(cfg: Config, s: State, u: Name): State {
    s.(users := s.users[u := User(if s.users == map[] then cfg.levelOwner else 1, false, None, false, false, TIMEOUT_DFLT)])
  }

  function Suspended(s: State, u: Name): State
    requires u in s.users && (s.users[u].authedNick.Some? ==> s.users[u].authedNick.value in s.nicks)
  {
    var t := s.(users := s.users[u := s.users[u].(suspended := true)]);
    if s.users[u].authedNick.Some? then Logout(t, s.users[u].authedNick.value, Some(u)) else t
  }

  /** DeleteAccount. */
  function Dropped(s: State, u: Name): State
    requires u in s.users && (s.users[u].authedNick.Some? ==> s.users[u].authedNick.value in s.nicks)
  {
    var t := if s.users[u].authedNick.Some? then Logout(s, s.users[u].authedNick.value, Some(u)) else s;
    t.(users := t.users - {u}, guests := t.guests - {u})
  }

  /** A wrong password: the attempt is counted, and too many within a minute get the nick killed. */
  ghost function WrongPassword(cfg: Config, s: State, n: NickPtr, now: int): State
    requires n in s.nicks
  {
    var nick := s.nicks[n];
    var tries, since := nick.loginattempts + 1, if nick.lasttry == 0 then now else nick.lasttry;
    var t := Tried(s, n, tries, since);
    if tries >= cfg.maxloginatt && now - since < 60 then WithoutNicks(t, {n})
    else if tries < cfg.maxloginatt && now - since >= 60 then Tried(s, n, 1, now)
    else t
  }

  lemma LastTry(cfg: Config, s: State, n: NickPtr, now: int, t: State)
    requires n in s.nicks && s.nicks[n].loginattempts + 1 >= cfg.maxloginatt
    requires s.nicks[n].lasttry == 0 || now - s.nicks[n].lasttry < 60
    requires t == Tried(s, n, s.nicks[n].loginattempts + 1, if s.nicks[n].lasttry == 0 then now else s.nicks[n].lasttry)
    ensures WrongPassword(cfg, s, n, now).nicks == WithoutNicks(t, {n}).nicks
    ensures WrongPassword(cfg, s, n, now).users == WithoutNicks(t, {n}).users
  {
  }

  function Tried(s: State, n: NickPtr, tries: int, since: int): State
    requires n in s.nicks
  {
    s.(nicks := s.nicks[n := s.nicks[n].(loginattempts := tries, lasttry := since)])
  }

  /** nick_identify: `password` says whether the password is right. */
  ghost function Identified(cfg: Config, s: State, n: NickPtr, password: bool, now: int): State
    requires n in s.nicks && (forall u :: u in s.users && s.users[u].authedNick == Some(n) ==> s.nicks[n].account == Some(u))
  {
    var u := s.nicks[n].name;
    if s.nicks[n].account.Some? || u !in s.users then s
    else if !password then WrongPassword(cfg, s, n, now)
    else if s.users[u].suspended then s
    else GhostLogin(s, n, u)
  }

  /** nick_register. */
  function Registered(cfg: Config, s: State, n: NickPtr, emailreg: bool): State
    requires n in s.nicks
  {
    var u := s.nicks[n].name;
    if AccountOf(s, n).Some? then s
    else if emailreg then NewUser(cfg, s, u)
    else Login(NewUser(cfg, s, u), n, u)
  }

  /** The account that commands of the nick are given for, when it has a session. */
  function Caller(s: State, n: NickPtr): Option<Name>
    requires n in s.nicks
  {
    match AccountOf(s, n)
    case None => None
    case Some(u) => if u in s.users && s.users[u].authed then Some(u) else None
  }

  /** nick_set_protect. */
  function ProtectSet(s: State, n: NickPtr, on: bool): State
    requires n in s.nicks
  {
    match Caller(s, n)
    case None => s
    case Some(u) => s.(users := s.users[u := s.users[u].(protect := on)])
  }

  const TIMEOUT_DFLT := 60

  /** nick_set_timeout. */
  function TimeoutSet(s: State, n: NickPtr, timeout: int): State
    requires n in s.nicks
  {
    match Caller(s, n)
    case None => s
    case Some(u) => s.(users := s.users[u := s.users[u].(timeout := if timeout == 0 then TIMEOUT_DFLT else timeout)])
  }

  /** nick_link takes over the options and the timeout of the master; `passes` says whether its tests of names, links and
      the password let it get there. */
  function OptionsTaken(s: State, n: NickPtr, master: Name, passes: bool): State
    requires n in s.nicks
  {
    match Caller(s, n)
    case None => s
    case Some(u) =>
      if !passes || master !in s.users then s
      else
        var m := s.users[master];
        s.(users := s.users[u := s.users[u].(suspended := m.suspended, protect := m.protect, timeout := m.timeout)])
  }

  /** CheckGuests: the timers that have run out are gone. */
  function Ticked(s: State, now: int): State {
    s.(guests := map g | g in s.guests && now - s.guests[g].nickconn < s.guests[g].timeout :: s.guests[g])
  }

  // ----- Which invariants each step keeps.

  /** Nothing but the sessions differs. */
  ghost predicate SameBones(nicks: map<NickPtr, Nick>, nicks': map<NickPtr, Nick>) {
    && nicks'.Keys == nicks.Keys
    && forall n :: n in nicks ==> nicks'[n] == nicks[n].(
      account := nicks'[n].account, svid := nicks'[n].svid, registered := nicks'[n].registered,
      loginattempts := nicks'[n].loginattempts, lasttry := nicks'[n].lasttry)
  }

  lemma BonesKeepNicks(nicks: map<NickPtr, Nick>, nicks': map<NickPtr, Nick>)
    requires InvNames(nicks) && SameBones(nicks, nicks')
    ensures InvNames(nicks')
  {
  }

  lemma BonesKeepClones(nicks: map<NickPtr, Nick>, nicks': map<NickPtr, Nick>, clones: map<Name, nat>)
    requires InvClones(nicks, clones) && SameBones(nicks, nicks')
    ensures InvClones(nicks', clones)
  {
    assert forall h :: OnHost(nicks', h) == OnHost(nicks, h);
  }

  lemma BonesKeepLists(nicks: map<NickPtr, Nick>, nicks': map<NickPtr, Nick>, members: map<MemberPtr, Member>)
    requires InvNickLists(nicks, members) && SameBones(nicks, nicks')
    ensures InvNickLists(nicks', members)
  {
    assert forall n :: n in nicks ==> nicks'[n].wchans == nicks[n].wchans;
  }

  lemma BonesKeepHomes(nicks: map<NickPtr, Nick>, nicks': map<NickPtr, Nick>, servers: map<ServerPtr, Server>)
    requires InvHomes(nicks, servers) && SameBones(nicks, nicks')
    ensures InvHomes(nicks', servers)
  {
    assert forall n :: n in nicks ==> nicks'[n].server == nicks[n].server;
  }

  /** A step that changes only sessions and timers keeps the invariants if it keeps those of sessions and
      timers. */
  lemma SessionStepKeeps(s: State, t: State)
    requires Inv(s) && t == s.(users := t.users, nicks := t.nicks, guests := t.guests) && SameBones(s.nicks, t.nicks)
    requires InvSessions(t.users, t.nicks) && InvGuests(t.nicks, t.guests)
    ensures Inv(t)
  {
    forall law: Law
      ensures Holds(t, law)
    {
      assert Holds(s, law);
      match law {
        case Names => BonesKeepNicks(s.nicks, t.nicks);
        case NickLists => BonesKeepLists(s.nicks, t.nicks, s.members);
        case Clones => BonesKeepClones(s.nicks, t.nicks, s.clones);
        case Homes => BonesKeepHomes(s.nicks, t.nicks, s.servers);
        case Guests => case Sessions => case ChanLists => case Pairs => case Forest =>
      }
    }
  }

  lemma GuestsStay(nicks: map<NickPtr, Nick>, nicks': map<NickPtr, Nick>, guests: map<Name, Guest>, guests': map<Name, Guest>)
    requires InvGuests(nicks, guests) && SameBones(nicks, nicks')
    requires forall g :: g in guests' ==> g in guests || Named(nicks, nicks.Keys, g)
    ensures InvGuests(nicks', guests')
  {
    forall g | g in guests'
      ensures Named(nicks', nicks'.Keys, g)
    {
      var n :| n in nicks.Keys && n in nicks && nicks[n].name == g;
      assert nicks'[n].name == g;
    }
  }

  lemma LogoutKeeps(s: State, n: NickPtr, u: Option<Name>)
    requires Inv(s) && n in s.nicks && s.nicks[n].account == u
    ensures (u.Some? ==> u.value in s.users) && Inv(Logout(s, n, u))
  {
    assert Holds(s, Sessions) && Holds(s, Guests);
    var t := Logout(s, n, u);
    GuestsStay(s.nicks, t.nicks, s.guests, t.guests);
    SessionStepKeeps(s, t);
  }

  /** A login keeps the invariants exactly when neither side has a session. */
  lemma LoginKeeps(s: State, n: NickPtr, u: Name)
    requires Inv(s) && n in s.nicks && u in s.users && s.nicks[n].account.None?
    ensures Inv(Login(s, n, u)) <==> !s.users[u].authed
  {
    var t := Login(s, n, u);
    assert Holds(s, Sessions) && Holds(s, Guests);
    if s.users[u].authed {
      var m := s.users[u].authedNick.value;
      assert t.nicks[m].account == Some(u) && t.users[u].authedNick == Some(n) && m != n;
      assert !Holds(t, Sessions);
    } else {
      GuestsStay(s.nicks, t.nicks, s.guests, t.guests);
      SessionStepKeeps(s, t);
    }
  }

  lemma GhostLoginKeeps(s: State, n: NickPtr, u: Name)
    requires Inv(s) && n in s.nicks && u in s.users && s.nicks[n].account.None?
    ensures s.users[u].authedNick != Some(n) && Inv(GhostLogin(s, n, u))
  {
    assert Holds(s, Sessions);
    if s.users[u].authed {
      WithoutKeepsInv(s, {s.users[u].authedNick.value});
      LoginKeeps(WithoutNicks(s, {s.users[u].authedNick.value}), n, u);
    } else {
      LoginKeeps(s, n, u);
    }
  }

  lemma AddGuestKeeps(s: State, n: NickPtr, timeout: int, now: int)
    requires Inv(s) && n in s.nicks
    ensures Inv(AddGuest(s, s.nicks[n].name, timeout, now))
  {
    var t := AddGuest(s, s.nicks[n].name, timeout, now);
    assert Holds(s, Sessions) && Holds(s, Guests);
    assert Named(s.nicks, s.nicks.Keys, s.nicks[n].name);
    GuestsStay(s.nicks, t.nicks, s.guests, t.guests);
    SessionStepKeeps(s, t);
  }

  /** No nick answers to the name or the UID. */
  ghost predicate FreeNames(nicks: map<NickPtr, Nick>, name: Name, uid: Name) {
    name != "" && uid != "" && name != uid && forall n :: !Answers(nicks, name, n) && !Answers(nicks, uid, n)
  }

  lemma CountMore(nicks: map<NickPtr, Nick>, clones: map<Name, nat>, n: NickPtr, nick: Nick)
    requires InvClones(nicks, clones) && n !in nicks
    ensures InvClones(nicks[n := nick], OneMore(clones, nick.reshost))
  {
    var more, host := nicks[n := nick], nick.reshost;
    forall h | h != host
      ensures OnHost(more, h) == OnHost(nicks, h)
    {
    }
    OneMoreOnHost(nicks, n, nick);
    CountOneMore(nicks, more, clones, host);
  }

  lemma OneMoreOnHost(nicks: map<NickPtr, Nick>, n: NickPtr, nick: Nick)
    requires n !in nicks
    ensures |OnHost(nicks[n := nick], nick.reshost)| == |OnHost(nicks, nick.reshost)| + 1
  {
    assert OnHost(nicks[n := nick], nick.reshost) == OnHost(nicks, nick.reshost) + {n};
  }

  lemma CountOneMore(nicks: map<NickPtr, Nick>, more: map<NickPtr, Nick>, clones: map<Name, nat>, host: Name)
    requires InvClones(nicks, clones)
    requires |OnHost(more, host)| == |OnHost(nicks, host)| + 1
    requires forall h :: h != host ==> OnHost(more, h) == OnHost(nicks, h)
    requires forall m :: m in more ==> more[m].reshost == host || (m in nicks && nicks[m].reshost == more[m].reshost)
    ensures InvClones(more, OneMore(clones, host))
  {
    if host !in clones {
      assert OnHost(nicks, host) == {};
    }
    assert |OnHost(nicks, host)| == HowManyClones(clones, host);
  }

  lemma HomesMore(nicks: map<NickPtr, Nick>, servers: map<ServerPtr, Server>, n: NickPtr, nick: Nick)
    requires InvHomes(nicks, servers) && n !in nicks && nick.server in servers
    ensures InvHomes(nicks[n := nick], servers[nick.server := servers[nick.server].(nicks := servers[nick.server].nicks + [n])])
  {
  }

  lemma NamesMore(nicks: map<NickPtr, Nick>, n: NickPtr, nick: Nick)
    requires InvNames(nicks) && n !in nicks && FreeNames(nicks, nick.name, nick.uid)
    ensures InvNames(nicks[n := nick])
  {
    assert forall m :: m in nicks ==> !Answers(nicks, nick.name, m) && !Answers(nicks, nick.uid, m);
  }

  lemma ConnectKeeps(s: State, n: NickPtr, nick: Nick)
    requires Inv(s) && n !in s.nicks && nick.server in s.servers && FreeNames(s.nicks, nick.name, nick.uid)
    requires nick.account.None? && nick.wchans == []
    ensures Inv(Connect(s, n, nick))
  {
    var t := Connect(s, n, nick);
    forall law: Law
      ensures Holds(t, law)
    {
      assert Holds(s, law);
      match law {
        case Names => NamesMore(s.nicks, n, nick);
        case Clones => CountMore(s.nicks, s.clones, n, nick);
        case Homes => HomesMore(s.nicks, s.servers, n, nick);
        case Forest => ForestKept(s.servers, t.servers, s.serverList);
        case Guests => GuestsMore(s.nicks, s.guests, n, nick);
        case NickLists => case Sessions => case ChanLists => case Pairs =>
      }
    }
  }

  lemma GuestsMore(nicks: map<NickPtr, Nick>, guests: map<Name, Guest>, n: NickPtr, nick: Nick)
    requires InvGuests(nicks, guests) && n !in nicks
    ensures InvGuests(nicks[n := nick], guests)
  {
    forall g | g in guests
      ensures Named(nicks[n := nick], nicks[n := nick].Keys, g)
    {
      var m :| m in nicks && nicks[m].name == g;
      assert nicks[n := nick][m].name == g;
    }
  }

  lemma SaslKeeps(s: State, n: NickPtr)
    requires Inv(s) && n in s.nicks && s.nicks[n].account.None?
    ensures (forall u :: u in s.users ==> s.users[u].authedNick != Some(n))
    ensures n in SaslFinish(s, n).nicks && Inv(SaslFinish(s, n))
  {
    assert Holds(s, Sessions);
    var found := AccountOf(s, n);
    var u := if found.Some? then found else if s.nicks[n].svid in s.users then Some(s.nicks[n].svid) else None;
    if s.nicks[n].svid != "0" {
      if u.None? {
        LogoutKeeps(s, n, None);
      } else {
        GhostLoginKeeps(s, n, u.value);
      }
    }
  }

  /** The hook logs the nick in to the account its SVID names exactly when no other account has the nick's own name:
      that one comes first. */
  lemma SaslAccount(s: State, n: NickPtr)
    requires Inv(s) && n in s.nicks && s.nicks[n].account.None?
    requires s.nicks[n].svid != "0" && s.nicks[n].svid in s.users
    ensures (forall u :: u in s.users ==> s.users[u].authedNick != Some(n))
    ensures var name, svid, t := s.nicks[n].name, s.nicks[n].svid, SaslFinish(s, n);
      && n in t.nicks
      && (t.nicks[n].account == Some(svid) <==> name !in s.users || name == svid)
      && t.nicks[n].account == Some(if name in s.users then name else svid)
  {
    SaslKeeps(s, n);
    assert Holds(s, Sessions);
  }

  lemma GreetKeeps(s: State, n: NickPtr, now: int)
    requires Inv(s) && n in s.nicks
    ensures Inv(Greet(s, n, now))
  {
    var name, t := s.nicks[n].name, GreetRegistered(s, n);
    GreetRegisteredKeeps(s, n);
    if name in t.users {
      AddGuestKeeps(t, n, t.users[name].timeout, now);
    }
  }

  lemma GreetRegisteredKeeps(s: State, n: NickPtr)
    requires Inv(s) && n in s.nicks
    ensures Inv(GreetRegistered(s, n))
  {
    var name := s.nicks[n].name;
    if name in s.users && s.nicks[n].account.None? {
      LoginKeeps(s, n, name);
    }
    WithoutR(s, n);
  }

  lemma WithoutR(s: State, n: NickPtr)
    requires Inv(s) && n in s.nicks
    ensures Inv(s.(nicks := s.nicks[n := s.nicks[n].(registered := false)]))
  {
    var plain := s.(nicks := s.nicks[n := s.nicks[n].(registered := false)]);
    assert Holds(s, Sessions) && Holds(s, Guests);
    GuestsStay(s.nicks, plain.nicks, s.guests, s.guests);
    SessionStepKeeps(s, plain);
  }

  /** Nobody else answers to the new name. */
  ghost predicate FreeFor(nicks: map<NickPtr, Nick>, n: NickPtr, name: Name) {
    n in nicks && name != "" && name != nicks[n].uid && forall m :: m != n ==> !Answers(nicks, name, m)
  }

  lemma RenamedNames(nicks: map<NickPtr, Nick>, n: NickPtr, name: Name)
    requires InvNames(nicks) && FreeFor(nicks, n, name)
    ensures InvNames(nicks[n := nicks[n].(name := name)])
  {
    assert forall m :: m in nicks && m != n ==> !Answers(nicks, name, m);
  }

  lemma RenamedClones(nicks: map<NickPtr, Nick>, clones: map<Name, nat>, n: NickPtr, name: Name)
    requires InvClones(nicks, clones) && n in nicks
    ensures InvClones(nicks[n := nicks[n].(name := name)], clones)
  {
    assert forall h :: OnHost(nicks[n := nicks[n].(name := name)], h) == OnHost(nicks, h);
  }

  lemma RenamedGuests(nicks: map<NickPtr, Nick>, guests: map<Name, Guest>, n: NickPtr, name: Name)
    requires InvGuests(nicks, guests) && n in nicks
    ensures InvGuests(nicks[n := nicks[n].(name := name)], guests - {nicks[n].name})
  {
    var t := nicks[n := nicks[n].(name := name)];
    forall g | g in guests - {nicks[n].name}
      ensures Named(t, t.Keys, g)
    {
      var m :| m in nicks && nicks[m].name == g;
      assert t[m].name == g;
    }
  }

  lemma RenameKeeps(s: State, n: NickPtr, name: Name)
    requires Inv(s) && FreeFor(s.nicks, n, name)
    ensures Inv(Rename(s, n, name))
  {
    var t := Rename(s, n, name);
    forall law: Law
      ensures Holds(t, law)
    {
      assert Holds(s, law);
      match law {
        case Names => RenamedNames(s.nicks, n, name);
        case Clones => RenamedClones(s.nicks, s.clones, n, name);
        case Guests => RenamedGuests(s.nicks, s.guests, n, name);
        case Sessions => RenamedSessions(s.users, s.nicks, n, name);
        case Homes => RenamedHomes(s.nicks, s.servers, n, name);
        case NickLists => case ChanLists => case Pairs => case Forest =>
      }
    }
  }

  lemma RenamedSessions(users: map<Name, User>, nicks: map<NickPtr, Nick>, n: NickPtr, name: Name)
    requires InvSessions(users, nicks) && n in nicks
    ensures InvSessions(users, nicks[n := nicks[n].(name := name)])
  {
  }

  lemma RenamedHomes(nicks: map<NickPtr, Nick>, servers: map<ServerPtr, Server>, n: NickPtr, name: Name)
    requires InvHomes(nicks, servers) && n in nicks
    ensures InvHomes(nicks[n := nicks[n].(name := name)], servers)
  {
  }

  /** The branch of m_nick that moves the session to a linked account. */
  ghost predicate MovesSession(s: State, n: NickPtr, name: Name, linked: bool)
    requires n in s.nicks
  {
    var was := s.nicks[n].name;
    name != was && name in s.users && was in s.users && s.users[was].authed && linked
  }

  /** A nick change keeps the invariants, except that the branch that moves a session does so exactly when the old
      account's session is the nick's own and the new account has none. */
  lemma NickChangedKeeps(s: State, n: NickPtr, name: Name, linked: bool, now: int)
    requires Inv(s) && FreeFor(s.nicks, n, name)
    ensures Inv(NickChanged(s, n, name, linked, now)) <==>
      (MovesSession(s, n, name, linked) ==> s.nicks[n].account == Some(s.nicks[n].name) && !s.users[name].authed)
  {
    var was := s.nicks[n].name;
    var t := Rename(s, n, name);
    RenameKeeps(s, n, name);
    if !MovesSession(s, n, name, linked) {
      AddGuestKeeps(t, n, if name in s.users then s.users[name].timeout else 0, now);
    } else if s.nicks[n].account == Some(was) {
      LogoutKeeps(t, n, Some(was));
      LoginKeeps(Logout(t, n, Some(was)), n, name);
    } else {
      assert Holds(s, Sessions);
      var m := s.users[was].authedNick.value;
      var r := Login(Logout(t, n, Some(was)), n, name);
      assert m != n && r.nicks[m].account == Some(was) && r.users[was].authedNick.None?;
      assert !Holds(r, Sessions);
    }
  }

  lemma OpenChannelKeeps(s: State, w: Name)
    requires Inv(s)
    ensures Inv(OpenChannel(s, w))
  {
    forall law: Law
      ensures Holds(OpenChannel(s, w), law)
    {
      assert Holds(s, law);
      match law {
        case ChanLists => OpenedChans(s.wchans, s.members, w);
        case Names => case NickLists => case Sessions => case Pairs => case Homes => case Forest =>
        case Clones => case Guests =>
      }
    }
  }

  lemma OpenedChans(wchans: map<Name, seq<MemberPtr>>, members: map<MemberPtr, Member>, w: Name)
    requires InvChanLists(wchans, members)
    ensures InvChanLists(if w in wchans then wchans else wchans[w := []], members)
  {
  }

  lemma JoinedNicks(nicks: map<NickPtr, Nick>, members: map<MemberPtr, Member>, n: NickPtr, w: Name, m: MemberPtr)
    requires InvNickLists(nicks, members) && n in nicks && m !in members
    ensures InvNickLists(nicks[n := nicks[n].(wchans := nicks[n].wchans + [m])], members[m := Member(w, n)])
  {
  }

  lemma JoinedPairs(members: map<MemberPtr, Member>, n: NickPtr, w: Name, m: MemberPtr)
    requires InvPairs(members) && !OnChannel(members, n, w)
    ensures InvPairs(members[m := Member(w, n)])
  {
    assert forall m' :: m' in members ==> members[m'] != Member(w, n);
  }

  lemma JoinedChans(wchans: map<Name, seq<MemberPtr>>, members: map<MemberPtr, Member>, n: NickPtr, w: Name, m: MemberPtr)
    requires InvChanLists(wchans, members) && w in wchans && m !in members
    ensures InvChanLists(wchans[w := wchans[w] + [m]], members[m := Member(w, n)])
  {
  }

  lemma AddMemberKeeps(s: State, w: Name, n: NickPtr, m: MemberPtr)
    requires Inv(s) && n in s.nicks && w in s.wchans && m !in s.members && !OnChannel(s.members, n, w)
    ensures Inv(AddMember(s, w, n, m))
  {
    forall law: Law
      ensures Holds(AddMember(s, w, n, m), law)
    {
      assert Holds(s, law);
      match law {
        case NickLists => JoinedNicks(s.nicks, s.members, n, w, m);
        case ChanLists => JoinedChans(s.wchans, s.members, n, w, m);
        case Homes => RelistedHomes(s.nicks, s.servers, n, s.nicks[n].wchans + [m]);
        case Guests => RelistedGuests(s.nicks, s.guests, n, s.nicks[n].wchans + [m]);
        case Clones => RelistedClones(s.nicks, s.clones, n, s.nicks[n].wchans + [m]);
        case Names => RelistedNames(s.nicks, n, s.nicks[n].wchans + [m]);
        case Sessions => RelistedSessions(s.users, s.nicks, n, s.nicks[n].wchans + [m]);
        case Pairs => JoinedPairs(s.members, n, w, m);
        case Forest =>
      }
    }
  }

  /** A join keeps the invariants exactly when the nick is not on the channel yet. */
  lemma JoinKeeps(s: State, n: NickPtr, w: Name, m: MemberPtr)
    requires Inv(s) && n in s.nicks && m !in s.members
    ensures Inv(JoinChannel(s, n, w, m)) <==> !OnChannel(s.members, n, w)
  {
    if m' :| m' in s.members && s.members[m'] == Member(w, n) {
      var t := JoinChannel(s, n, w, m);
      assert t.members[m'] == t.members[m];
      assert !Holds(t, Pairs);
    } else {
      OpenChannelKeeps(s, w);
      AddMemberKeeps(OpenChannel(s, w), w, n, m);
    }
  }

  lemma {:induction false} IndexAppend<T(!new)>(xs: seq<T>, x: T, y: T)
    requires x in xs
    ensures Index(xs + [y], x) == Index(xs, x)
  {
    if xs[0] != x {
      assert (xs + [y])[1..] == xs[1..] + [y];
      IndexAppend(xs[1..], x, y);
    }
  }

  lemma {:induction false} IndexLast<T(!new)>(xs: seq<T>, y: T)
    requires y !in xs
    ensures Index(xs + [y], y) == |xs|
  {
    if xs != [] {
      assert (xs + [y])[1..] == xs[1..] + [y];
      IndexLast(xs[1..], y);
    }
  }

  lemma AddServerForest(s: State, x: ServerPtr, name: Name, sid: Name, hub: Option<ServerPtr>)
    requires InvForest(s.servers, s.serverList) && x !in s.servers && (hub.Some? ==> hub.value in s.servers)
    ensures var t := AddServer(s, x, name, sid, hub); InvForest(t.servers, t.serverList)
  {
    var t := AddServer(s, x, name, sid, hub);
    AddServerLeafs(s, x, name, sid, hub);
    IndexLast(s.serverList, x);
    forall y | y in t.servers && t.servers[y].hub.Some?
      ensures Index(t.serverList, t.servers[y].hub.value) < Index(t.serverList, y)
    {
      IndexAppend(s.serverList, t.servers[y].hub.value, x);
      if y != x {
        IndexAppend(s.serverList, y, x);
      }
    }
  }

  lemma AddServerLeafs(s: State, x: ServerPtr, name: Name, sid: Name, hub: Option<ServerPtr>)
    requires InvLeafs(s.servers) && x !in s.servers && (hub.Some? ==> hub.value in s.servers)
    ensures InvLeafs(AddServer(s, x, name, sid, hub).servers)
  {
    if hub.Some? {
      LeafAdded(s.servers, x, Server(name, sid, hub, [], []), hub.value);
    }
  }

  lemma LeafAdded(servers: map<ServerPtr, Server>, x: ServerPtr, server: Server, h: ServerPtr)
    requires InvLeafs(servers) && x !in servers && h in servers && server.hub == Some(h) && server.leafs == []
    ensures InvLeafs(servers[h := servers[h].(leafs := servers[h].leafs + [x])][x := server])
  {
  }

  lemma AddServerKeeps(s: State, x: ServerPtr, name: Name, sid: Name, hub: Option<ServerPtr>)
    requires Inv(s) && x !in s.servers && (hub.Some? ==> hub.value in s.servers)
    ensures Inv(AddServer(s, x, name, sid, hub))
  {
    forall law: Law
      ensures Holds(AddServer(s, x, name, sid, hub), law)
    {
      assert Holds(s, law);
      match law {
        case Forest => AddServerForest(s, x, name, sid, hub);
        case Homes =>
        case Names => case NickLists => case Sessions => case ChanLists => case Pairs => case Clones => case Guests =>
      }
    }
  }

  /** Options and timeouts are in no law. */
  lemma OptionsKeep(s: State, u: Name, user: User)
    requires Inv(s) && u in s.users && user.authed == s.users[u].authed && user.authedNick == s.users[u].authedNick
    ensures Inv(s.(users := s.users[u := user]))
  {
    assert Holds(s, Sessions) && Holds(s, Guests);
    SessionStepKeeps(s, s.(users := s.users[u := user]));
  }

  lemma SettingsKeep(s: State, n: NickPtr, on: bool, timeout: int, master: Name, passes: bool)
    requires Inv(s) && n in s.nicks
    ensures Inv(ProtectSet(s, n, on)) && Inv(TimeoutSet(s, n, timeout)) && Inv(OptionsTaken(s, n, master, passes))
  {
    if Caller(s, n).Some? {
      var u := Caller(s, n).value;
      OptionsKeep(s, u, s.users[u].(protect := on));
      OptionsKeep(s, u, s.users[u].(timeout := if timeout == 0 then TIMEOUT_DFLT else timeout));
      if master in s.users {
        var m := s.users[master];
        OptionsKeep(s, u, s.users[u].(suspended := m.suspended, protect := m.protect, timeout := m.timeout));
      }
    }
  }

  lemma SuspendedKeeps(s: State, u: Name)
    requires Inv(s) && u in s.users
    ensures Holds(s, Sessions) && Inv(Suspended(s, u))
  {
    assert Holds(s, Sessions) && Holds(s, Guests);
    var t := s.(users := s.users[u := s.users[u].(suspended := true)]);
    SessionStepKeeps(s, t);
    if s.users[u].authedNick.Some? {
      LogoutKeeps(t, s.users[u].authedNick.value, Some(u));
    }
  }

  lemma DroppedKeeps(s: State, u: Name)
    requires Inv(s) && u in s.users
    ensures Holds(s, Sessions) && Inv(Dropped(s, u))
  {
    assert Holds(s, Sessions);
    if s.users[u].authedNick.Some? {
      LogoutKeeps(s, s.users[u].authedNick.value, Some(u));
      EraseKeeps(Logout(s, s.users[u].authedNick.value, Some(u)), u);
    } else {
      EraseKeeps(s, u);
    }
  }

  lemma EraseKeeps(s: State, u: Name)
    requires Inv(s) && u in s.users && s.users[u].authedNick.None?
    ensures Inv(s.(users := s.users - {u}, guests := s.guests - {u}))
  {
    assert Holds(s, Sessions) && Holds(s, Guests);
    SessionStepKeeps(s, s.(users := s.users - {u}, guests := s.guests - {u}));
  }

  lemma TriedKeeps(s: State, n: NickPtr, tries: int, since: int)
    requires Inv(s) && n in s.nicks
    ensures Inv(Tried(s, n, tries, since))
  {
    var t := Tried(s, n, tries, since);
    assert Holds(s, Sessions) && Holds(s, Guests);
    GuestsStay(s.nicks, t.nicks, s.guests, s.guests);
    SessionStepKeeps(s, t);
  }

  lemma WrongPasswordKeeps(cfg: Config, s: State, n: NickPtr, now: int)
    requires Inv(s) && n in s.nicks
    ensures Inv(WrongPassword(cfg, s, n, now))
  {
    var nick := s.nicks[n];
    TriedKeeps(s, n, 1, now);
    TriedOutKeeps(s, n, nick.loginattempts + 1, if nick.lasttry == 0 then now else nick.lasttry);
  }

  lemma TriedOutKeeps(s: State, n: NickPtr, tries: int, since: int)
    requires Inv(s) && n in s.nicks
    ensures Inv(Tried(s, n, tries, since)) && Inv(WithoutNicks(Tried(s, n, tries, since), {n}))
  {
    TriedKeeps(s, n, tries, since);
    WithoutKeepsInv(Tried(s, n, tries, since), {n});
  }

  lemma IdentifiedKeeps(cfg: Config, s: State, n: NickPtr, password: bool, now: int)
    requires Inv(s) && n in s.nicks
    ensures Holds(s, Sessions) && Inv(Identified(cfg, s, n, password, now))
  {
    assert Holds(s, Sessions);
    WrongPasswordKeeps(cfg, s, n, now);
    if s.nicks[n].account.None? && s.nicks[n].name in s.users {
      GhostLoginKeeps(s, n, s.nicks[n].name);
    }
  }

  lemma RegisteredKeeps(cfg: Config, s: State, n: NickPtr, emailreg: bool)
    requires Inv(s) && n in s.nicks
    ensures Inv(Registered(cfg, s, n, emailreg))
  {
    if AccountOf(s, n).None? {
      assert Holds(s, Sessions) && Holds(s, Guests);
      SessionStepKeeps(s, NewUser(cfg, s, s.nicks[n].name));
      LoginKeeps(NewUser(cfg, s, s.nicks[n].name), n, s.nicks[n].name);
    }
  }

  lemma TickedKeeps(s: State, now: int)
    requires Inv(s)
    ensures Inv(Ticked(s, now))
  {
    assert Holds(s, Sessions) && Holds(s, Guests);
    SessionStepKeeps(s, Ticked(s, now));
  }
}
