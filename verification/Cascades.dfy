/** The two cascades: userquit, which is a sequence of steps, and detach_server_recursive, which is two loops over
    lists that shrink under them. Both are shown to do, step by step, what Without says all at once; and that is
    spelled out field by field. */
module Cascades {
  import opened Wrappers
  import opened Lists
  import opened Network
  import opened NetSplit
  import opened Membership
  import opened Events

  // ----- userquit.

  function OneLess(clones: map<Name, nat>, host: Name): map<Name, nat>
    requires forall h :: h in clones ==> clones[h] > 0
  {
    if host !in clones then clones
    else if clones[host] == 1 then clones - {host}
    else clones[host := clones[host] - 1]
  }

  lemma FewerClones(nicks: map<NickPtr, Nick>, clones: map<Name, nat>, n: NickPtr)
    requires InvClones(nicks, clones) && n in nicks
    ensures OneLess(clones, nicks[n].reshost) == CloneTable(Remaining(nicks, {n}))
  {
    var rest, host := Remaining(nicks, {n}), nicks[n].reshost;
    forall h
      ensures OnHost(rest, h) == OnHost(nicks, h) - {n}
    {
    }
    assert n in OnHost(nicks, host);
    InvClonesLess(nicks, clones, n);
    ClonesUnique(rest, OneLess(clones, host));
  }

  lemma InvClonesLess(nicks: map<NickPtr, Nick>, clones: map<Name, nat>, n: NickPtr)
    requires InvClones(nicks, clones) && n in nicks
    requires forall h :: OnHost(Remaining(nicks, {n}), h) == OnHost(nicks, h) - {n}
    ensures InvClones(Remaining(nicks, {n}), OneLess(clones, nicks[n].reshost))
  {
    var rest, host := Remaining(nicks, {n}), nicks[n].reshost;
    var less := OneLess(clones, host);
    assert n in OnHost(nicks, host);
    forall m | m in rest
      ensures rest[m].reshost in less
    {
      if rest[m].reshost == host {
        assert m in OnHost(nicks, host) - {n};
        assert |OnHost(nicks, host) - {n}| == |OnHost(nicks, host)| - 1;
      }
    }
  }

  /** The steps of userquit, one after the other. */
  function QuitSteps(s: State, n: NickPtr): State
    requires n in s.nicks && s.nicks[n].server in s.servers
    requires (forall h :: h in s.clones ==> s.clones[h] > 0)
    requires s.nicks[n].account.Some? ==> s.nicks[n].account.value in s.users
  {
    var nick, x := s.nicks[n], s.nicks[n].server;
    var s1 := if nick.account.Some? then Logout(s, n, nick.account) else s;
    var s2 := s1.(guests := s1.guests - {nick.name});
    var s3 := Parted(s2, n, MembersOf(s2.members, {n}));
    s3.(nicks := s3.nicks - {n}, clones := OneLess(s.clones, nick.reshost),
        servers := s.servers[x := s.servers[x].(nicks := Minus(s.servers[x].nicks, {n}))])
  }

  /** The steps of userquit take exactly that nick off the network. */
  lemma QuitIsWithout(s: State, n: NickPtr)
    requires InvClones(s.nicks, s.clones) && InvSessions(s.users, s.nicks) && InvHomes(s.nicks, s.servers)
    requires n in s.nicks
    ensures QuitSteps(s, n) == WithoutNicks(s, {n})
  {
    FewerClones(s.nicks, s.clones, n);
    LoggedOutOne(s.users, s.nicks, n);
    ServersOne(s.nicks, s.servers, n);
    GuestsOne(s.nicks, s.guests, n);
    NicksGone(s, n);
  }

  lemma NicksGone(s: State, n: NickPtr)
    requires n in s.nicks && s.nicks[n].server in s.servers
    requires (forall h :: h in s.clones ==> s.clones[h] > 0)
    requires s.nicks[n].account.Some? ==> s.nicks[n].account.value in s.users
    ensures QuitSteps(s, n).nicks == Remaining(s.nicks, {n})
    ensures QuitSteps(s, n).members == s.members - MembersOf(s.members, {n})
  {
  }

  lemma GuestsOne(nicks: map<NickPtr, Nick>, guests: map<Name, Guest>, n: NickPtr)
    requires n in nicks
    ensures GuestsWithout(nicks, guests, {n}) == guests - {nicks[n].name}
  {
    assert forall g :: g in guests ==> (Named(nicks, {n}, g) <==> g == nicks[n].name);
  }

  lemma LoggedOutOne(users: map<Name, User>, nicks: map<NickPtr, Nick>, n: NickPtr)
    requires InvSessions(users, nicks) && n in nicks
    ensures LoggedOut(users, {n}) == match nicks[n].account
      case None => users
      case Some(u) => users[u := users[u].(authed := false, authedNick := None)]
  {
  }

  lemma ServersOne(nicks: map<NickPtr, Nick>, servers: map<ServerPtr, Server>, n: NickPtr)
    requires InvHomes(nicks, servers) && n in nicks
    ensures var x := nicks[n].server;
      ServersWithout(servers, {n}) == servers[x := servers[x].(nicks := Minus(servers[x].nicks, {n}))]
  {
    forall x | x in servers && x != nicks[n].server
      ensures Minus(servers[x].nicks, {n}) == servers[x].nicks
    {
      MinusNone(servers[x].nicks, {n});
    }
  }

  // ----- What a quit and a netsplit change, field by field, and what they leave alone.

  /** The memberships that go are those of the nick; the channels that go are those this leaves empty; the others
      keep their other members in order. */
  ghost predicate LeftAllChannels(s: State, t: State, n: NickPtr) {
    && (forall m :: m in t.members <==> Stays(s, n, m))
    && (forall m :: m in t.members ==> t.members[m] == s.members[m])
    && (forall w :: w in t.wchans <==>
      w in s.wchans && (s.wchans[w] == [] || exists m :: m in s.wchans[w] && Stays(s, n, m)))
    && (forall w, m :: w in t.wchans ==> (m in t.wchans[w] <==> m in s.wchans[w] && Stays(s, n, m)))
    && (forall w, a, b :: w in t.wchans && a in t.wchans[w] && b in t.wchans[w] ==> SameOrder(s.wchans[w], t.wchans[w], a, b))
  }

  /** A membership of another nick. */
  predicate Stays(s: State, n: NickPtr, m: MemberPtr) {
    m in s.members && s.members[m].nick != n
  }

  predicate SameOrder<T(==)>(xs: seq<T>, ys: seq<T>, a: T, b: T) {
    && a in xs && b in xs && a in ys && b in ys
    && (Index(xs, a) < Index(xs, b) ==> Index(ys, a) < Index(ys, b))
  }

  /** The session of the nick ends; every other account is as it was. */
  ghost predicate SessionEnded(s: State, t: State, n: NickPtr)
    requires n in s.nicks
  {
    && t.users.Keys == s.users.Keys
    && forall u :: u in s.users ==>
      t.users[u] == if s.nicks[n].account == Some(u) then s.users[u].(authed := false, authedNick := None) else s.users[u]
  }

  /** The counter of the nick's host is one less, or gone if it was one. */
  ghost predicate CountedOut(s: State, t: State, n: NickPtr)
    requires n in s.nicks
  {
    var host := s.nicks[n].reshost;
    && host in s.clones
    && (forall h :: h != host ==> (h in t.clones <==> h in s.clones))
    && (forall h :: h != host && h in s.clones ==> t.clones[h] == s.clones[h])
    && (host in t.clones <==> s.clones[host] > 1)
    && (host in t.clones ==> t.clones[host] == s.clones[host] - 1)
  }

  lemma ChannelsLeft(s: State, n: NickPtr)
    requires Inv(s) && n in s.nicks
    ensures LeftAllChannels(s, WithoutNicks(s, {n}), n)
  {
    var d := MembersOf(s.members, {n});
    assert Holds(s, ChanLists);
    forall w | w in s.wchans
      ensures forall m :: m in Minus(s.wchans[w], d) <==> m in s.wchans[w] && Stays(s, n, m)
      ensures Minus(s.wchans[w], d) != [] <==> exists m :: m in s.wchans[w] && Stays(s, n, m)
    {
      MinusMember(s.wchans[w], d);
      if Minus(s.wchans[w], d) != [] {
        assert Minus(s.wchans[w], d)[0] in Minus(s.wchans[w], d);
      }
    }
    forall w, a, b | w in s.wchans && a in Minus(s.wchans[w], d) && b in Minus(s.wchans[w], d)
      ensures SameOrder(s.wchans[w], Minus(s.wchans[w], d), a, b)
    {
      if Index(s.wchans[w], a) < Index(s.wchans[w], b) {
        MinusOrder(s.wchans[w], d, a, b);
      }
    }
  }

  lemma CountsLeft(s: State, n: NickPtr)
    requires Inv(s) && n in s.nicks
    ensures CountedOut(s, WithoutNicks(s, {n}), n)
  {
    assert Holds(s, Clones);
    FewerClones(s.nicks, s.clones, n);
  }

  /** The nick leaves the list of its server; every other server is as it was. */
  ghost predicate HomeLeft(s: State, t: State, n: NickPtr)
    requires n in s.nicks
  {
    var x := s.nicks[n].server;
    && x in s.servers
    && t.servers == s.servers[x := s.servers[x].(nicks := Minus(s.servers[x].nicks, {n}))]
    && t.serverList == s.serverList
  }

  /** A quit takes the nick, its memberships on both lists, the channels it leaves empty, its timer, its session,
      its place in the clone count and its place on its server, and changes nothing else. */
  lemma QuitExactly(s: State, n: NickPtr)
    requires Inv(s) && n in s.nicks
    ensures var t := WithoutNicks(s, {n});
      && t.nicks == s.nicks - {n} && t.guests == s.guests - {s.nicks[n].name}
      && LeftAllChannels(s, t, n) && SessionEnded(s, t, n) && CountedOut(s, t, n) && HomeLeft(s, t, n)
  {
    ChannelsLeft(s, n);
    CountsLeft(s, n);
    assert Holds(s, Homes);
    ServersOne(s.nicks, s.servers, n);
    assert Holds(s, Sessions);
    OneSessionEnded(s, n);
    GuestsOne(s.nicks, s.guests, n);
  }

  lemma OneSessionEnded(s: State, n: NickPtr)
    requires InvSessions(s.users, s.nicks) && n in s.nicks
    ensures SessionEnded(s, WithoutNicks(s, {n}), n)
  {
  }

  /** A netsplit takes exactly the servers below the root and exactly the nicks on them. Every server that is left
      keeps its nicks and all its leaves but the root of the split, and every nick that is left is unchanged and on
      the list of exactly one server. */
  lemma SplitExactly(s: State, x: ServerPtr)
    requires Inv(s) && x in s.servers
    ensures var t, d := Detach(s, x), Below(s, x);
      && t.servers == (map y | y in s.servers && y !in d :: s.servers[y].(leafs := Minus(s.servers[y].leafs, {x})))
      && t.nicks == (map n | n in s.nicks && s.nicks[n].server !in d :: s.nicks[n])
    ensures OneHome(Detach(s, x))
  {
    SplitFields(s, x);
    DetachKeeps(s, x);
    HomesOnce(Detach(s, x));
  }

  lemma SplitFields(s: State, x: ServerPtr)
    requires Holds(s, Forest) && Holds(s, Homes) && x in s.servers
    ensures var t, d := Detach(s, x), Below(s, x);
      && t.servers == (map y | y in s.servers && y !in d :: s.servers[y].(leafs := Minus(s.servers[y].leafs, {x})))
      && t.nicks == (map n | n in s.nicks && s.nicks[n].server !in d :: s.nicks[n])
  {
    ServersLeft(s, x, Subtree(s.servers, s.serverList, x));
  }

  lemma ServersLeft(s: State, x: ServerPtr, d: set<ServerPtr>)
    requires InvForest(s.servers, s.serverList) && InvHomes(s.nicks, s.servers) && x in s.servers
    requires d == Subtree(s.servers, s.serverList, x)
    ensures ServersMinus(ServersWithout(s.servers, NicksOn(s.nicks, d)), d) ==
      map y | y in s.servers && y !in d :: s.servers[y].(leafs := Minus(s.servers[y].leafs, {x}))
  {
    forall y | y in s.servers && y !in d
      ensures Minus(s.servers[y].leafs, d) == Minus(s.servers[y].leafs, {x})
      ensures Minus(s.servers[y].nicks, NicksOn(s.nicks, d)) == s.servers[y].nicks
    {
      SurvivingLeafs(s.servers, s.serverList, x, y);
      MinusAgree(s.servers[y].leafs, d, {x});
      MinusNone(s.servers[y].nicks, NicksOn(s.nicks, d));
    }
  }

  lemma HomesOnce(t: State)
    requires Inv(t)
    ensures OneHome(t)
  {
    assert Holds(t, Homes);
  }

  /** Every nick is on the list of the server it names and of no other. */
  ghost predicate OneHome(t: State) {
    && (forall n :: n in t.nicks ==> t.nicks[n].server in t.servers)
    && (forall n, y :: n in t.nicks && y in t.servers ==> (n in t.servers[y].nicks <==> y == t.nicks[n].server))
  }

  lemma SurvivingLeafs(servers: map<ServerPtr, Server>, list: seq<ServerPtr>, x: ServerPtr, y: ServerPtr)
    requires InvForest(servers, list) && x in servers && y in servers && y !in Subtree(servers, list, x)
    ensures forall l :: l in servers[y].leafs ==> (l in Subtree(servers, list, x) <==> l == x)
  {
  }

  // ----- The loops.

  /** What userquit relies on. */
  lemma QuitReady(s: State)
    requires Inv(s)
    ensures InvClones(s.nicks, s.clones) && InvSessions(s.users, s.nicks) && InvHomes(s.nicks, s.servers) && InvLists(s)
  {
    assert Holds(s, Clones) && Holds(s, Sessions) && Holds(s, Homes);
    assert Holds(s, NickLists) && Holds(s, ChanLists) && Holds(s, Pairs);
  }

  /** What delete_server relies on, and what it does. */
  lemma DeleteReady(s: State, x: ServerPtr)
    requires Inv(s) && x in s.servers
    ensures s.servers[x].hub.Some? ==> s.servers[x].hub.value in s.servers
    ensures NetSplit.DeleteServer(s, x) == Without(s, {}, {x})
  {
    assert Holds(s, Clones) && Holds(s, Forest);
    DeleteIsWithout(s, x);
  }

  /** Part way through the first loop of detach_server_recursive: the nicks `done` have quit and `rest` is left. */
  ghost predicate QuitSoFar(s: State, x: ServerPtr, done: set<NickPtr>, rest: seq<NickPtr>, now: State) {
    && now == WithoutNicks(s, done)
    && x in now.servers && now.servers[x].nicks == rest
    && done == NicksOn(s.nicks, {x}) - Elements(rest)
  }

  lemma NoQuitYet(s: State, x: ServerPtr)
    requires Inv(s) && x in s.servers
    ensures QuitSoFar(s, x, {}, s.servers[x].nicks, s)
  {
    assert Holds(s, Clones) && Holds(s, Homes);
    WithoutNobody(s);
  }

  lemma QuitOneMore(s: State, x: ServerPtr, done: set<NickPtr>, rest: seq<NickPtr>, now: State)
    requires InvHomes(now.nicks, now.servers) && QuitSoFar(s, x, done, rest, now) && rest != []
    ensures rest[0] in now.nicks
    ensures QuitSoFar(s, x, done + {rest[0]}, rest[1..], WithoutNicks(now, {rest[0]}))
  {
    QuitFirst(now, x);
    WithoutTwice(s, done, {rest[0]});
    HeadAndTail(rest, NicksOn(s.nicks, {x}));
  }

  /** Part way through the second loop of detach_server_recursive. */
  ghost predicate DetachedSoFar(s: State, x: ServerPtr, done: set<ServerPtr>, rest: seq<ServerPtr>, now: State)
  {
    && Holds(s, Forest) && x in s.servers && now == Detached(s, done)
    && x in now.servers && now.servers[x].leafs == rest == Minus(s.servers[x].leafs, done)
    && done == Elements(s.servers[x].leafs) - Elements(rest)
  }

  lemma NoneDetachedYet(s: State, x: ServerPtr)
    requires Inv(s) && x in s.servers
    ensures DetachedSoFar(s, x, {}, s.servers[x].leafs, s)
  {
    assert Holds(s, Clones) && Holds(s, Forest);
    WithoutNobody(s);
    assert Subtrees(s.servers, s.serverList, {}) == {};
    assert NicksOn(s.nicks, {}) == {};
    MinusNone(s.servers[x].leafs, {});
  }

  lemma AllQuit(s: State, x: ServerPtr, done: set<NickPtr>, now: State)
    requires QuitSoFar(s, x, done, [], now)
    ensures now == WithoutNicks(s, NicksOn(s.nicks, {x}))
  {
    assert done == NicksOn(s.nicks, {x});
  }

  lemma AllDetached(s: State, x: ServerPtr, done: set<ServerPtr>, now: State)
    requires DetachedSoFar(s, x, done, [], now)
    ensures now == Detached(s, Elements(s.servers[x].leafs))
  {
    assert done == Elements(s.servers[x].leafs);
  }

  lemma DetachNext(s: State, x: ServerPtr, done: set<ServerPtr>, rest: seq<ServerPtr>, now: State)
    requires DetachedSoFar(s, x, done, rest, now) && rest != []
    ensures Holds(now, Forest) && rest[0] in now.servers
    ensures Below(now, rest[0]) < Below(s, x)
    ensures DetachedSoFar(s, x, done + {rest[0]}, rest[1..], Detach(now, rest[0]))
  {
    LeafNext(s, x, done, rest);
    DetachOneMore(s, x, done, rest[0]);
    assert rest[0] in Subtree(s.servers, s.serverList, rest[0]);
    DetachedMore(s, x, done, rest);
  }

  lemma DetachedMore(s: State, x: ServerPtr, done: set<ServerPtr>, rest: seq<ServerPtr>)
    requires Holds(s, Forest) && x in s.servers && rest != [] && NoDup(rest)
    requires rest[0] in s.servers[x].leafs && Minus(s.servers[x].leafs, done + {rest[0]}) == rest[1..]
    requires done == Elements(s.servers[x].leafs) - Elements(rest)
    ensures DetachedSoFar(s, x, done + {rest[0]}, rest[1..], Detached(s, done + {rest[0]}))
  {
    HeadAndTail(rest, Elements(s.servers[x].leafs));
    LeafsLeft(s, x, done + {rest[0]});
  }

  /** The next leaf to detach, and what is left of the leaf list afterwards. */
  lemma LeafNext(s: State, x: ServerPtr, done: set<ServerPtr>, rest: seq<ServerPtr>)
    requires InvForest(s.servers, s.serverList) && x in s.servers
    requires rest == Minus(s.servers[x].leafs, done) && rest != []
    ensures rest[0] in s.servers[x].leafs && rest[0] !in done && rest[0] in s.servers
    ensures NoDup(rest) && Minus(s.servers[x].leafs, done + {rest[0]}) == rest[1..]
    ensures Subtree(s.servers, s.serverList, rest[0]) < Subtree(s.servers, s.serverList, x)
  {
    MinusMember(s.servers[x].leafs, done);
    MinusNoDup(s.servers[x].leafs, done);
    assert rest[0] in rest;
    MinusFirst(rest);
    MinusMinus(s.servers[x].leafs, done, {rest[0]});
    SubtreeOfLeafs(s.servers, s.serverList, x);
    HubNotUnderLeaf(s.servers, s.serverList, x, rest[0]);
    assert x in Subtree(s.servers, s.serverList, x) && x !in Subtree(s.servers, s.serverList, rest[0]);
  }

  /** The quit of the first nick on a server's list is the head leaving the list. */
  lemma QuitFirst(s: State, x: ServerPtr)
    requires InvHomes(s.nicks, s.servers) && x in s.servers && s.servers[x].nicks != []
    ensures var n := s.servers[x].nicks[0];
      && n in s.nicks && n in NicksOn(s.nicks, {x}) && NoDup(s.servers[x].nicks)
      && WithoutNicks(s, {n}).servers[x].nicks == s.servers[x].nicks[1..]
  {
    assert s.servers[x].nicks[0] in s.servers[x].nicks;
    MinusFirst(s.servers[x].nicks);
  }

  lemma NickListsSame(nicks: map<NickPtr, Nick>, nicks': map<NickPtr, Nick>, members: map<MemberPtr, Member>)
    requires InvNickLists(nicks, members) && nicks'.Keys == nicks.Keys
    requires forall n :: n in nicks ==> nicks'[n].wchans == nicks[n].wchans
    ensures InvNickLists(nicks', members)
  {
    assert forall n, m :: n in nicks' && m in nicks'[n].wchans ==> m in nicks[n].wchans;
  }
}
