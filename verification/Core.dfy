/** The event handlers that change the network registries, as methods on the program's core structure, each
    verified to do exactly what a function on the whole state says. */
module Core {
  import opened Wrappers
  import opened Lists
  import opened Network
  import opened NetSplit
  import opened Events
  import opened NetRuns
  import opened Membership
  import opened Cascades

  class Core {
    var users: map<Name, User>
    var nicks: map<NickPtr, Nick>
    var clones: map<Name, nat>
    var guests: map<Name, Guest>
    var wchans: map<Name, seq<MemberPtr>>
    var members: map<MemberPtr, Member>
    var servers: map<ServerPtr, Server>
    var serverList: seq<ServerPtr>

    /** init_core: empty registries. */
    constructor ()
      ensures S() == State(map[], map[], map[], map[], map[], map[], map[], [])
      ensures Inv(S())
    {
      users, nicks, clones, guests := map[], map[], map[], map[];
      wchans, members, servers, serverList := map[], map[], map[], [];
    }

    ghost function S(): State
      reads this
    {
      State(users, nicks, clones, guests, wchans, members, servers, serverList)
    }

    /** find_nick: walks the registry. */
    method FindNick(ref: Name) returns (r: Option<NickPtr>)
      requires InvNames(nicks)
      ensures r == NickOf(nicks, ref)
    {
      var rest := nicks.Keys;
      while rest != {}
        invariant rest <= nicks.Keys
        invariant forall n :: n in nicks && n !in rest ==> !Answers(nicks, ref, n)
        decreases |rest|
      {
        var n :| n in rest;
        if ref != "" && (nicks[n].name == ref || nicks[n].uid == ref) {
          NickOfUnique(nicks, ref, n);
          return Some(n);
        }
        rest := rest - {n};
      }
      return None;
    }

    /** find_member: walks the member list of a channel. */
    method FindMember(w: Name, n: NickPtr) returns (r: Option<MemberPtr>)
      requires w in wchans && InvChanLists(wchans, members)
      ensures r.Some? ==> r.value in members && members[r.value] == Member(w, n)
      ensures r.None? ==> forall m :: m in members ==> members[m] != Member(w, n)
    {
      for i := 0 to |wchans[w]|
        invariant forall j :: 0 <= j < i ==> members[wchans[w][j]].nick != n
      {
        if members[wchans[w][i]].nick == n {
          return Some(wchans[w][i]);
        }
      }
      return None;
    }

    /** user_logout. */
    method UserLogout(n: NickPtr, u: Option<Name>)
      requires n in nicks && (u.Some? ==> u.value in users)
      modifies this
      ensures S() == Logout(old(S()), n, u)
    {
      if u.Some? {
        users := users[u.value := users[u.value].(authed := false, authedNick := None)];
      }
      nicks := nicks[n := nicks[n].(account := None, svid := "0")];
    }

    /** DeleteGuest. */
    method DeleteGuest(name: Name)
      modifies this
      ensures S() == old(S()).(guests := old(guests) - {name})
    {
      guests := guests - {name};
    }

    /** DeleteMember: unlinks a membership from both lists and frees it. */
    method DeleteMember(m: MemberPtr)
      requires m in members && members[m].nick in nicks && members[m].wchan in wchans
      modifies this
      ensures S() == old(S()).(
        members := old(members) - {m},
        nicks := UnlinkNick(old(nicks), old(members)[m].nick, m),
        wchans := old(wchans)[old(members)[m].wchan := Minus(old(wchans)[old(members)[m].wchan], {m})])
    {
      var n, w := members[m].nick, members[m].wchan;
      nicks := nicks[n := nicks[n].(wchans := Minus(nicks[n].wchans, {m}))];
      wchans := wchans[w := Minus(wchans[w], {m})];
      members := members - {m};
    }

    /** DeleteUserFromWchan: a channel left empty is deleted. */
    method DeleteUserFromWchan(n: NickPtr, w: Name)
      requires n in nicks && w in wchans
      requires InvNickLists(nicks, members) && InvChanLists(wchans, members) && InvPairs(members)
      modifies this
      ensures S() == PartChannel(old(S()), n, w)
    {
      var m := FindMember(w, n);
      if m.None? {
        NoMembership(S(), n, w);
        return;
      }
      OneMembership(S(), n, w, m.value);
      ghost var s, goal := S(), PartChannel(S(), n, w);
      DeleteMember(m.value);
      if wchans[w] == [] {
        wchans := wchans - {w};
        assert wchans == s.wchans - {w};
      }
      assert S() == goal;
    }

    /** DeleteUserFromWchans: LLIST_FOREACH_ENTRY_SAFE over the nick's memberships. `tmp` is read after the
        membership before it was freed. */
    method DeleteUserFromWchans(n: NickPtr)
      requires n in nicks && InvLists(S())
      modifies this
      ensures S() == Parted(old(S()), n, MembersOf(old(members), {n}))
    {
      ghost var s, rest := S(), nicks[n].wchans;
      ghost var all, done: set<MemberPtr> := MembersOf(members, {n}), {};
      NoneParted(s, n);
      var member := First(nicks[n].wchans);
      var tmp := Next(nicks[n].wchans, member);
      while member.Some?
        invariant n in nicks && nicks[n].wchans == rest && member == First(rest)
        invariant member.Some? ==> tmp == Second(rest)
        invariant S() == Parted(s, n, done) && InvLists(S())
        invariant done == all - Elements(rest)
        decreases |rest|
      {
        ghost var next := Parted(S(), n, {rest[0]});
        PartFirst(S(), n);
        PartedTwice(s, n, done, {rest[0]});
        DeleteUserFromWchan(n, members[member.value].wchan);
        assert S() == next && nicks == next.nicks;
        HeadAndTail(rest, all);
        NextIsSecond(rest);
        done := done + {rest[0]};
        rest := rest[1..];
        member, tmp := tmp, Next(nicks[n].wchans, tmp);
      }
      assert rest == [] && done == all;
    }

    /** DeleteWildNick. */
    method DeleteWildNick(n: NickPtr)
      requires n in nicks && nicks[n].server in servers
      requires forall h :: h in clones ==> clones[h] > 0
      modifies this
      ensures S() == old(S()).(
        nicks := old(nicks) - {n},
        clones := OneLess(old(clones), old(nicks)[n].reshost),
        servers := old(servers)[old(nicks)[n].server :=
          old(servers)[old(nicks)[n].server].(nicks := Minus(old(servers)[old(nicks)[n].server].nicks, {n}))])
    {
      var host, x := nicks[n].reshost, nicks[n].server;
      if host in clones {
        clones := clones[host := clones[host] - 1];
        if clones[host] == 0 {
          clones := clones - {host};
        }
      }
      servers := servers[x := servers[x].(nicks := Minus(servers[x].nicks, {n}))];
      nicks := nicks - {n};
    }

    /** The body of userquit once the nick is found. */
    method QuitNick(n: NickPtr)
      requires n in nicks && nicks[n].server in servers && InvLists(S())
      requires forall h :: h in clones ==> clones[h] > 0
      requires nicks[n].account.Some? ==> nicks[n].account.value in users
      modifies this
      ensures S() == QuitSteps(old(S()), n)
    {
      var uptr := nicks[n].account;
      if uptr.Some? {
        UserLogout(n, uptr);
        NickListsSame(old(nicks), nicks, members);
      }
      DeleteGuest(nicks[n].name);
      DeleteUserFromWchans(n);
      DeleteWildNick(n);
    }

    /** userquit. */
    method UserQuit(ref: Name)
      requires Inv(S())
      modifies this
      ensures S() == match NickOf(old(nicks), ref) case None => old(S()) case Some(n) => WithoutNicks(old(S()), {n})
      ensures Inv(S())
    {
      assert Holds(S(), Names);
      var found := FindNick(ref);
      if found.Some? {
        QuitReady(S());
        QuitIsWithout(S(), found.value);
        WithoutKeepsInv(S(), {found.value});
        QuitNick(found.value);
      }
    }

    /** One turn of the first loop of detach_server_recursive. */
    method QuitHead(ghost s: State, x: ServerPtr, ghost done: set<NickPtr>, ghost rest: seq<NickPtr>, n: NickPtr)
      requires Inv(S()) && QuitSoFar(s, x, done, rest, S()) && rest != [] && n == rest[0]
      modifies this
      ensures Inv(S()) && QuitSoFar(s, x, done + {n}, rest[1..], S())
    {
      assert Holds(S(), Names) && Holds(S(), Homes);
      QuitOneMore(s, x, done, rest, S());
      NickOfUnique(nicks, nicks[n].name, n);
      UserQuit(nicks[n].name);
    }

    /** The first loop of detach_server_recursive: every nick of the server quits. */
    method QuitServerNicks(x: ServerPtr)
      requires Inv(S()) && x in servers
      modifies this
      ensures S() == WithoutNicks(old(S()), NicksOn(old(nicks), {x})) && Inv(S())
    {
      ghost var s, rest := S(), servers[x].nicks;
      ghost var done: set<NickPtr> := {};
      NoQuitYet(s, x);
      var cursor := First(servers[x].nicks);
      var tmp := Next(servers[x].nicks, cursor);
      while cursor.Some?
        invariant Inv(S()) && QuitSoFar(s, x, done, rest, S()) && cursor == First(rest)
        invariant cursor.Some? ==> tmp == Second(rest)
        decreases |rest|
      {
        QuitHead(s, x, done, rest, cursor.value);
        NextIsSecond(rest);
        done := done + {rest[0]};
        rest := rest[1..];
        cursor, tmp := tmp, Next(servers[x].nicks, tmp);
      }
      AllQuit(s, x, done, S());
    }

    /** The second loop of detach_server_recursive: every leaf is detached. */
    method DetachLeafs(x: ServerPtr)
      requires Inv(S()) && x in servers
      modifies this
      ensures S() == Detached(old(S()), Elements(old(servers)[x].leafs)) && Inv(S())
      ensures x in servers
      decreases Below(S(), x), 0
    {
      ghost var s, rest := S(), servers[x].leafs;
      ghost var done: set<ServerPtr> := {};
      NoneDetachedYet(s, x);
      var cursor := First(servers[x].leafs);
      var tmp := Next(servers[x].leafs, cursor);
      while cursor.Some?
        invariant Inv(S()) && DetachedSoFar(s, x, done, rest, S()) && cursor == First(rest)
        invariant cursor.Some? ==> tmp == Second(rest)
        decreases |rest|
      {
        DetachNext(s, x, done, rest, S());
        DetachServer(cursor.value);
        NextIsSecond(rest);
        done := done + {rest[0]};
        rest := rest[1..];
        cursor, tmp := tmp, Next(servers[x].leafs, tmp);
      }
      AllDetached(s, x, done, S());
    }

    /** detach_server_recursive. */
    method DetachServer(x: ServerPtr)
      requires Inv(S()) && x in servers
      modifies this
      ensures S() == Detach(old(S()), x) && Inv(S())
      decreases Below(S(), x), 2
    {
      DetachWhole(S(), x);
      DetachKeeps(S(), x);
      QuitServerNicks(x);
      DetachLeafs(x);
      DeleteReady(S(), x);
      DeleteServer(x);
    }

    /** delete_server. */
    method DeleteServer(x: ServerPtr)
      requires x in servers && (servers[x].hub.Some? ==> servers[x].hub.value in servers)
      modifies this
      ensures S() == NetSplit.DeleteServer(old(S()), x)
    {
      var hub := servers[x].hub;
      if hub.Some? {
        servers := servers[hub.value := servers[hub.value].(leafs := Minus(servers[hub.value].leafs, {x}))];
      }
      servers := servers - {x};
      serverList := Minus(serverList, {x});
    }

    /** find_server: walks the server list. */
    method FindServer(ref: Name) returns (r: Option<ServerPtr>)
      requires InvForest(servers, serverList)
      ensures r == ServerOf(servers, serverList, ref)
    {
      for i := 0 to |serverList|
        invariant ServerOf(servers, serverList, ref) == ServerOf(servers, serverList[i..], ref)
      {
        var tmp := serverList[i];
        if ref != "" && (servers[tmp].name == ref || servers[tmp].sid == ref) {
          return Some(tmp);
        }
      }
      return None;
    }

    /** user_login. */
    method UserLogin(n: NickPtr, u: Name)
      requires n in nicks && u in users
      modifies this
      ensures S() == Login(old(S()), n, u)
    {
      users := users[u := users[u].(authed := true, authedNick := Some(n))];
      nicks := nicks[n := nicks[n].(loginattempts := 0, lasttry := 0, account := Some(u))];
      if nicks[n].svid != u {
        nicks := nicks[n := nicks[n].(svid := u)];
      }
      if nicks[n].name == u {
        nicks := nicks[n := nicks[n].(registered := true)];
        if users[u].protect {
          DeleteGuest(nicks[n].name);
        }
      }
    }

    /** killuser of the nick that holds the session of the account, and user_login. */
    method GhostAndLogin(n: NickPtr, u: Name)
      requires Inv(S()) && n in nicks && u in users && users[u].authedNick != Some(n)
      modifies this
      ensures S() == GhostLogin(old(S()), n, u)
    {
      assert Holds(S(), Sessions) && Holds(S(), Names);
      if users[u].authed {
        var m := users[u].authedNick.value;
        NickOfUnique(nicks, nicks[m].name, m);
        UserQuit(nicks[m].name);
      }
      UserLogin(n, u);
    }

    /** new_nick, nick_set_svid and LLIST_INSERT_TAIL on the server's list. */
    method NewNick(n: NickPtr, nick: Nick)
      requires nick.server in servers
      modifies this
      ensures S() == Connect(old(S()), n, nick)
    {
      var host, x := nick.reshost, nick.server;
      nicks := nicks[n := nick];
      if host in clones {
        clones := clones[host := clones[host] + 1];
      } else {
        clones := clones[host := 1];
      }
      servers := servers[x := servers[x].(nicks := servers[x].nicks + [n])];
    }

    /** find_account. */
    function FindAccount(n: NickPtr): (r: Option<Name>)
      requires n in nicks
      reads this
      ensures r == AccountOf(S(), n)
    {
      if nicks[n].account.Some? then nicks[n].account else if nicks[n].name in users then Some(nicks[n].name) else None
    }

    /** sasl_finish_session. */
    method SaslFinishSession(n: NickPtr)
      requires Inv(S()) && n in nicks && (forall u :: u in users ==> users[u].authedNick != Some(n))
      modifies this
      ensures S() == SaslFinish(old(S()), n)
    {
      if nicks[n].svid == "0" {
        return;
      }
      assert Holds(S(), Sessions);
      var uptr := FindAccount(n);
      if uptr.None? && nicks[n].svid in users {
        uptr := Some(nicks[n].svid);
      }
      if uptr.None? {
        UserLogout(n, None);
        return;
      }
      GhostAndLogin(n, uptr.value);
    }

    /** AddGuest. */
    method StartGuest(g: Name, timeout: int, now: int)
      modifies this
      ensures S() == AddGuest(old(S()), g, timeout, now)
    {
      if g !in guests {
        guests := guests[g := Guest(timeout, now)];
      }
    }

    /** The end of m_uid. */
    method GreetNick(n: NickPtr, now: int)
      requires n in nicks
      modifies this
      ensures S() == Greet(old(S()), n, now)
    {
      var uptr := nicks[n].name;
      if nicks[n].registered && nicks[n].account.None? {
        if uptr in users && !users[uptr].authed && !users[uptr].suspended {
          UserLogin(n, uptr);
        } else {
          nicks := nicks[n := nicks[n].(registered := false)];
        }
      }
      if uptr in users && !nicks[n].registered && !users[uptr].suspended {
        if users[uptr].protect {
          StartGuest(nicks[n].name, users[uptr].timeout, now);
        }
      }
    }

    /** m_uid. */
    method MUid(cfg: Config, ev: Event) returns (fault: bool)
      requires ev.Uid? && Inv(S()) && (Named(nicks, nicks.Keys, ev.name) || Allowed(S(), ev))
      modifies this
      ensures fault <==> UidFaults(cfg, old(S()), ev)
      ensures S() == if Named(old(nicks), old(nicks).Keys, ev.name) then old(S()) else Step(cfg, old(S()), ev)
    {
      assert Holds(S(), Forest);
      fault := false;
      var server := FindServer(ev.server);
      if server.None? || HowManyClones(clones, ev.host) >= Limit(cfg, ev.trust) {
        return;
      }
      if Named(nicks, nicks.Keys, ev.name) {
        return true;
      }
      var nick := NetRuns.NewNick(ev, server.value);
      ConnectKeeps(S(), ev.n, nick);
      NewNick(ev.n, nick);
      SaslKeeps(S(), ev.n);
      SaslFinishSession(ev.n);
      GreetNick(ev.n, ev.now);
    }

    /** m_nick. */
    method MNick(cfg: Config, ev: Event)
      requires ev.NickChange? && Inv(S()) && Allowed(S(), ev)
      modifies this
      ensures S() == Step(cfg, old(S()), ev)
    {
      assert Holds(S(), Names) && Holds(S(), Sessions);
      var found := FindNick(ev.sender);
      if found.None? {
        return;
      }
      var n := found.value;
      var oldNick := nicks[n].name;
      DeleteGuest(oldNick);
      nicks := nicks[n := nicks[n].(name := ev.newNick)];
      assert S() == Rename(old(S()), n, ev.newNick);
      FollowAccount(n, oldNick, ev.newNick, ev.linked, ev.now);
    }

    /** The end of m_nick: the session moves to a linked account, or a timer is started on a protected name. */
    method FollowAccount(n: NickPtr, oldNick: Name, newNick: Name, linked: bool, now: int)
      requires n in nicks
      modifies this
      ensures S() == AccountFollows(old(S()), n, oldNick, newNick, linked, now)
    {
      if newNick == oldNick || newNick !in users {
        return;
      }
      if oldNick in users && users[oldNick].authed && linked {
        UserLogout(n, Some(oldNick));
        UserLogin(n, newNick);
      } else if users[newNick].protect {
        StartGuest(newNick, users[newNick].timeout, now);
      }
    }

    /** AddUserToWchan. */
    method AddUserToWchan(n: NickPtr, w: Name, m: MemberPtr)
      requires n in nicks && w in wchans
      modifies this
      ensures S() == AddMember(old(S()), w, n, m)
    {
      members := members[m := Member(w, n)];
      nicks := nicks[n := nicks[n].(wchans := nicks[n].wchans + [m])];
      wchans := wchans[w := wchans[w] + [m]];
    }

    /** m_join, for one channel of the line. */
    method MJoin(cfg: Config, ev: Event)
      requires ev.Join? && Inv(S()) && Allowed(S(), ev)
      modifies this
      ensures S() == Step(cfg, old(S()), ev)
    {
      assert Holds(S(), Names);
      var nptr := FindNick(ev.sender);
      if nptr.None? {
        return;
      }
      if ev.w !in wchans {
        wchans := wchans[ev.w := []];
      }
      AddUserToWchan(nptr.value, ev.w, ev.m);
    }

    /** m_sjoin, before the buffer is walked. */
    method MSjoinOpen(cfg: Config, ev: Event)
      requires ev.SjoinChannel? && Inv(S()) && Allowed(S(), ev)
      modifies this
      ensures S() == Step(cfg, old(S()), ev)
    {
      if ev.w !in wchans {
        wchans := wchans[ev.w := []];
      }
    }

    /** m_sjoin, for one item of the buffer. */
    method MSjoin(cfg: Config, ev: Event)
      requires ev.SjoinNick? && Inv(S()) && Allowed(S(), ev)
      modifies this
      ensures S() == Step(cfg, old(S()), ev)
    {
      assert Holds(S(), Names) && Holds(S(), ChanLists);
      var nptr := FindNick(ev.nick);
      if nptr.None? {
        return;
      }
      var member := FindMember(ev.w, nptr.value);
      if member.None? {
        AddUserToWchan(nptr.value, ev.w, ev.m);
      }
    }

    /** m_part, and KickUser and m_kick once the names are resolved. */
    method MPart(cfg: Config, ev: Event)
      requires ev.Part? && Inv(S()) && Allowed(S(), ev)
      modifies this
      ensures S() == Step(cfg, old(S()), ev)
    {
      assert Holds(S(), Names) && Holds(S(), NickLists) && Holds(S(), ChanLists) && Holds(S(), Pairs);
      var nptr := FindNick(ev.nick);
      if nptr.Some? && ev.w in wchans {
        DeleteUserFromWchan(nptr.value, ev.w);
      }
    }

    /** m_quit and m_kill. */
    method MQuit(cfg: Config, ev: Event)
      requires ev.Quit? && Inv(S()) && Allowed(S(), ev)
      modifies this
      ensures S() == Step(cfg, old(S()), ev)
    {
      UserQuit(ev.nick);
    }

    /** add_server. */
    method NewServer(x: ServerPtr, name: Name, sid: Name, hub: Option<ServerPtr>)
      requires hub.Some? ==> hub.value in servers
      modifies this
      ensures S() == AddServer(old(S()), x, name, sid, hub)
    {
      serverList := serverList + [x];
      if hub.Some? {
        servers := servers[hub.value := servers[hub.value].(leafs := servers[hub.value].leafs + [x])];
      }
      servers := servers[x := Server(name, sid, hub, [], [])];
    }

    /** m_sid. */
    method MSid(cfg: Config, ev: Event)
      requires ev.Sid? && Inv(S()) && Allowed(S(), ev)
      modifies this
      ensures S() == Step(cfg, old(S()), ev)
    {
      assert Holds(S(), Forest);
      var sptr := FindServer(ev.hub);
      if sptr.None? {
        return;
      }
      var other := FindServer(ev.name);
      if other.Some? {
        return;
      }
      other := FindServer(ev.sid);
      if other.None? {
        NewServer(ev.x, ev.name, ev.sid, sptr);
      }
    }

    /** m_server. */
    method MServer(cfg: Config, ev: Event)
      requires ev.Uplink? && Inv(S()) && Allowed(S(), ev)
      modifies this
      ensures S() == Step(cfg, old(S()), ev)
    {
      assert Holds(S(), Forest);
      if ev.sid != "" {
        var known := FindServer(ev.sid);
        if known.None? {
          NewServer(ev.x, ev.name, ev.sid, None);
        }
      }
    }

    /** m_squit. */
    method MSquit(cfg: Config, ev: Event)
      requires ev.Squit? && Inv(S()) && Allowed(S(), ev)
      modifies this
      ensures S() == Step(cfg, old(S()), ev)
    {
      assert Holds(S(), Forest);
      var server := FindServer(ev.server);
      if server.Some? {
        DetachServer(server.value);
      }
    }

    /** nick_identify. */
    method NickIdentify(cfg: Config, ev: Event)
      requires ev.Identify? && Inv(S()) && Allowed(S(), ev)
      modifies this
      ensures S() == Step(cfg, old(S()), ev)
    {
      assert Holds(S(), Sessions) && Holds(S(), Names);
      var n := ev.n;
      var user := nicks[n].name;
      if nicks[n].account.Some? || user !in users {
        return;
      }
      if !ev.password {
        CountAttempt(cfg, n, ev.now);
        return;
      }
      if !users[user].suspended {
        GhostAndLogin(n, user);
      }
    }

    /** The part of nick_identify that follows a wrong password. */
    method CountAttempt(cfg: Config, n: NickPtr, now: int)
      requires Inv(S()) && n in nicks
      modifies this
      ensures S() == WrongPassword(cfg, old(S()), n, now)
    {
      var tries, since := nicks[n].loginattempts + 1, if nicks[n].lasttry == 0 then now else nicks[n].lasttry;
      TriedKeeps(S(), n, tries, since);
      nicks := nicks[n := nicks[n].(loginattempts := tries, lasttry := since)];
      if tries >= cfg.maxloginatt && now - since < 60 {
        assert Holds(S(), Names);
        NickOfUnique(nicks, nicks[n].name, n);
        UserQuit(nicks[n].name);
      } else if tries < cfg.maxloginatt && now - since >= 60 {
        nicks := nicks[n := nicks[n].(loginattempts := 1, lasttry := now)];
      }
    }

    /** nick_register. */
    method NickRegister(cfg: Config, ev: Event)
      requires ev.Register? && Inv(S()) && Allowed(S(), ev)
      modifies this
      ensures S() == Step(cfg, old(S()), ev)
    {
      var n := ev.n;
      if nicks[n].account.Some? || nicks[n].name in users {
        return;
      }
      var user := nicks[n].name;
      var level := if users == map[] then cfg.levelOwner else 1;
      users := users[user := User(level, false, None, false, false, 60)];
      if !ev.emailreg {
        UserLogin(n, user);
      }
    }

    /** oper_suspend, with "on". */
    method OperSuspend(cfg: Config, ev: Event)
      requires ev.Suspend? && Inv(S()) && Allowed(S(), ev)
      modifies this
      ensures S() == Step(cfg, old(S()), ev)
    {
      assert Holds(S(), Sessions);
      var u := ev.u;
      if u in users && users[u].level < ev.rank {
        users := users[u := users[u].(suspended := true)];
        if users[u].authedNick.Some? {
          UserLogout(users[u].authedNick.value, Some(u));
        }
      }
    }

    /** oper_suspend, with "off". */
    method OperUnsuspend(cfg: Config, ev: Event)
      requires ev.Unsuspend? && Inv(S()) && Allowed(S(), ev)
      modifies this
      ensures S() == Step(cfg, old(S()), ev)
    {
      assert Holds(S(), Sessions);
      if ev.u in users && users[ev.u].level < ev.rank {
        users := users[ev.u := users[ev.u].(suspended := false)];
      }
    }

    /** DeleteAccount. */
    method DeleteAccount(cfg: Config, ev: Event)
      requires ev.Drop? && Inv(S()) && Allowed(S(), ev)
      modifies this
      ensures S() == Step(cfg, old(S()), ev)
    {
      assert Holds(S(), Sessions);
      var u := ev.u;
      if u in users {
        if users[u].authedNick.Some? {
          UserLogout(users[u].authedNick.value, Some(u));
        }
        users := users - {u};
        DeleteGuest(u);
      }
    }

    /** oper_forceauth. */
    method OperForceauth(cfg: Config, ev: Event)
      requires ev.Forceauth? && Inv(S()) && Allowed(S(), ev)
      modifies this
      ensures S() == Step(cfg, old(S()), ev)
    {
      assert Holds(S(), Names);
      var nptr2 := FindNick(ev.nick);
      if nptr2.Some? && ev.nick in users && nicks[nptr2.value].account.None? {
        UserLogin(nptr2.value, ev.nick);
      }
    }

    /** nick_set_protect, past the test of do_nick for a session. */
    method NickSetProtect(cfg: Config, ev: Event)
      requires ev.SetProtect? && Inv(S()) && Allowed(S(), ev)
      modifies this
      ensures S() == Step(cfg, old(S()), ev)
    {
      var u := FindCaller(ev.n);
      if u.Some? {
        users := users[u.value := users[u.value].(protect := ev.on)];
      }
    }

    /** nick_set_timeout. */
    method NickSetTimeout(cfg: Config, ev: Event)
      requires ev.SetTimeout? && Inv(S()) && Allowed(S(), ev)
      modifies this
      ensures S() == Step(cfg, old(S()), ev)
    {
      var u := FindCaller(ev.n);
      if u.Some? {
        users := users[u.value := users[u.value].(timeout := ev.timeout)];
        if ev.timeout == 0 {
          users := users[u.value := users[u.value].(timeout := TIMEOUT_DFLT)];
        }
      }
    }

    /** The end of nick_link. */
    method NickLink(cfg: Config, ev: Event)
      requires ev.TakeOptions? && Inv(S()) && Allowed(S(), ev)
      modifies this
      ensures S() == Step(cfg, old(S()), ev)
    {
      var u := FindCaller(ev.n);
      if u.None? || !ev.passes || ev.master !in users {
        return;
      }
      var user := users[ev.master];
      users := users[u.value := users[u.value].(suspended := user.suspended, protect := user.protect)];
      users := users[u.value := users[u.value].(timeout := user.timeout)];
    }

    /** find_account and IsAuthed. */
    method FindCaller(n: NickPtr) returns (r: Option<Name>)
      requires n in nicks
      ensures r == Caller(S(), n)
    {
      var u := if nicks[n].account.Some? then nicks[n].account else Some(nicks[n].name);
      return if u.value in users && users[u.value].authed then u else None;
    }

    /** CheckGuests: walks the timers and deletes those that have run out. */
    method RunGuestTimers(cfg: Config, ev: Event)
      requires ev.CheckGuests? && Inv(S()) && Allowed(S(), ev)
      modifies this
      ensures S() == Step(cfg, old(S()), ev)
    {
      ExpireTimers(ev.now);
    }

    method ExpireTimers(now: int)
      modifies this`guests
      ensures guests == Ticked(old(S()), now).guests
    {
      ghost var was := guests;
      var rest := guests.Keys;
      while rest != {}
        invariant rest <= guests.Keys <= was.Keys
        invariant forall g :: g in guests ==> guests[g] == was[g]
        invariant forall g :: g in was && g !in rest ==> (g in guests <==> now - was[g].nickconn < was[g].timeout)
        decreases |rest|
      {
        var g :| g in rest;
        rest := rest - {g};
        if now - guests[g].nickconn >= guests[g].timeout {
          guests := guests - {g};
        }
      }
    }
  }
}
