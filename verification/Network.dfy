/** The live network as the registries of `struct core` hold it: nicks, live channels, memberships, clone
    counters, guest timers, login sessions and the server tree.

    Every C struct that is allocated and freed while events arrive is a value in a store keyed by its pointer:
    reading a pointer that is not in the store is ill-formed, so the methods that work on these stores are
    verified never to use freed memory. Names are compared up to case in the program; here they are the folded
    form. The intrusive lists are sequences. */
module Network {
  import opened Wrappers
  import opened Lists

  type Name = string
  type NickPtr = nat
  type MemberPtr = nat
  type ServerPtr = nat

  datatype User = User(level: int, authed: bool, authedNick: Option<NickPtr>, suspended: bool, protect: bool, timeout: int)

  /** `server` is the server whose `nicks` ring the nick's `server_head` is linked on. */
  datatype Nick = Nick(name: Name, uid: Name, reshost: Name, svid: Name, registered: bool, account: Option<Name>,
                       server: ServerPtr, wchans: seq<MemberPtr>, loginattempts: int, lasttry: int)

  datatype Member = Member(wchan: Name, nick: NickPtr)

  /** `hub` is the server whose `leafs` ring the server's `leaf_head` is linked on. */
  datatype Server = Server(name: Name, sid: Name, hub: Option<ServerPtr>, nicks: seq<NickPtr>, leafs: seq<ServerPtr>)

  datatype Guest = Guest(timeout: int, nickconn: int)

  datatype State = State(
    users: map<Name, User>,
    nicks: map<NickPtr, Nick>,
    clones: map<Name, nat>,
    guests: map<Name, Guest>,
    wchans: map<Name, seq<MemberPtr>>,
    members: map<MemberPtr, Member>,
    servers: map<ServerPtr, Server>,
    serverList: seq<ServerPtr>)

  // ----- Invariants.

  /** Nick names and UIDs are all different, and none is empty. */
  ghost predicate InvNames(nicks: map<NickPtr, Nick>) {
    && (forall n :: n in nicks ==> nicks[n].name != "" && nicks[n].uid != "")
    && (forall n, m :: n in nicks && m in nicks && n != m ==>
          nicks[n].name != nicks[m].name && nicks[n].uid != nicks[m].uid)
    && (forall n, m :: n in nicks && m in nicks ==> nicks[n].name != nicks[m].uid)
  }

  /** A membership is on the list of its nick, and on no other nick's list. */
  ghost predicate InvNickLists(nicks: map<NickPtr, Nick>, members: map<MemberPtr, Member>) {
    && (forall n :: n in nicks ==> NoDup(nicks[n].wchans))
    && (forall m :: m in members ==> members[m].nick in nicks && m in nicks[members[m].nick].wchans)
    && (forall n, m :: n in nicks && m in nicks[n].wchans ==> m in members && members[m].nick == n)
  }

  /** A membership is on the list of its channel, and on no other channel's list. */
  ghost predicate InvChanLists(wchans: map<Name, seq<MemberPtr>>, members: map<MemberPtr, Member>) {
    && (forall w :: w in wchans ==> NoDup(wchans[w]))
    && (forall m :: m in members ==> members[m].wchan in wchans && m in wchans[members[m].wchan])
    && (forall w, m :: w in wchans && m in wchans[w] ==> m in members && members[m].wchan == w)
  }

  /** No nick is twice in a channel. */
  ghost predicate InvPairs(members: map<MemberPtr, Member>) {
    forall m, m' :: m in members && m' in members && members[m] == members[m'] ==> m == m'
  }

  function OnHost(nicks: map<NickPtr, Nick>, host: Name): set<NickPtr> {
    set n | n in nicks && nicks[n].reshost == host
  }

  /** Every host counter is the number of online nicks with that host, and there are no zero counters. */
  ghost predicate InvClones(nicks: map<NickPtr, Nick>, clones: map<Name, nat>) {
    && (forall h :: h in clones ==> clones[h] == |OnHost(nicks, h)| > 0)
    && (forall n :: n in nicks ==> nicks[n].reshost in clones)
  }

  /** Guest timers run only for nicks that are online. */
  ghost predicate InvGuests(nicks: map<NickPtr, Nick>, guests: map<Name, Guest>) {
    forall g :: g in guests ==> Named(nicks, nicks.Keys, g)
  }

  /** One of the nicks `among` is called `name`. */
  predicate Named(nicks: map<NickPtr, Nick>, among: set<NickPtr>, name: Name) {
    exists n :: n in among && n in nicks && nicks[n].name == name
  }

  /** user.authed_nick and nick.account are inverse partial bijections, and authed says whether authed_nick is
      set. */
  ghost predicate InvSessions(users: map<Name, User>, nicks: map<NickPtr, Nick>) {
    && (forall u :: u in users ==> (users[u].authed <==> users[u].authedNick.Some?))
    && (forall u :: u in users && users[u].authedNick.Some? ==>
          users[u].authedNick.value in nicks && nicks[users[u].authedNick.value].account == Some(u))
    && (forall n :: n in nicks && nicks[n].account.Some? ==>
          nicks[n].account.value in users && users[nicks[n].account.value].authedNick == Some(n))
  }

  /** Every nick is on the list of exactly one server. */
  ghost predicate InvHomes(nicks: map<NickPtr, Nick>, servers: map<ServerPtr, Server>) {
    && (forall x :: x in servers ==> NoDup(servers[x].nicks))
    && (forall n :: n in nicks ==> nicks[n].server in servers && n in servers[nicks[n].server].nicks)
    && (forall x, n :: x in servers && n in servers[x].nicks ==> n in nicks && nicks[n].server == x)
  }

  /** The leaf lists are the inverse of `hub`. */
  ghost predicate InvLeafs(servers: map<ServerPtr, Server>) {
    LeafsOnce(servers) && HubsKnow(servers) && LeafsKnow(servers)
  }

  ghost predicate LeafsOnce(servers: map<ServerPtr, Server>) {
    forall x :: x in servers ==> NoDup(servers[x].leafs)
  }

  ghost predicate HubsKnow(servers: map<ServerPtr, Server>) {
    forall x :: x in servers && servers[x].hub.Some? ==>
      servers[x].hub.value in servers && x in servers[servers[x].hub.value].leafs
  }

  ghost predicate LeafsKnow(servers: map<ServerPtr, Server>) {
    forall h, x :: h in servers && x in servers[h].leafs ==> x in servers && servers[x].hub == Some(h)
  }

  /** A hub is always older than its leaves, which makes the servers a forest. */
  ghost predicate InvOrder(servers: map<ServerPtr, Server>, list: seq<ServerPtr>)
    requires InvLeafs(servers)
  {
    && NoDup(list) && (forall x :: x in list <==> x in servers)
    && (forall x :: x in servers && servers[x].hub.Some? ==> Index(list, servers[x].hub.value) < Index(list, x))
  }

  ghost predicate InvForest(servers: map<ServerPtr, Server>, list: seq<ServerPtr>) {
    InvLeafs(servers) && InvOrder(servers, list)
  }

  datatype Law = Names | NickLists | ChanLists | Pairs | Clones | Guests | Sessions | Homes | Forest

  ghost predicate Holds(s: State, law: Law) {
    match law
    case Names => InvNames(s.nicks)
    case NickLists => InvNickLists(s.nicks, s.members)
    case ChanLists => InvChanLists(s.wchans, s.members)
    case Pairs => InvPairs(s.members)
    case Clones => InvClones(s.nicks, s.clones)
    case Guests => InvGuests(s.nicks, s.guests)
    case Sessions => InvSessions(s.users, s.nicks)
    case Homes => InvHomes(s.nicks, s.servers)
    case Forest => InvForest(s.servers, s.serverList)
  }

  /** The invariant of the network: every law holds. */
  ghost predicate Inv(s: State) {
    forall law: Law :: Holds(s, law)
  }

  // ----- Taking a set of nicks off the network, all at once.

  function Remaining(nicks: map<NickPtr, Nick>, gone: set<NickPtr>): map<NickPtr, Nick> {
    map n | n in nicks && n !in gone :: nicks[n]
  }

  ghost function CloneTable(nicks: map<NickPtr, Nick>): map<Name, nat> {
    map h | h in (set n | n in nicks :: nicks[n].reshost) :: |OnHost(nicks, h)|
  }

  function GuestsWithout(nicks: map<NickPtr, Nick>, guests: map<Name, Guest>, gone: set<NickPtr>): map<Name, Guest> {
    map g | g in guests && !Named(nicks, gone, g) :: guests[g]
  }

  function LoggedOut(users: map<Name, User>, gone: set<NickPtr>): map<Name, User> {
    map u | u in users ::
      if users[u].authedNick.Some? && users[u].authedNick.value in gone
      then users[u].(authed := false, authedNick := None) else users[u]
  }

  /** The memberships `d` leave the channel lists; a channel that this empties is deleted. */
  function DropMembers(wchans: map<Name, seq<MemberPtr>>, d: set<MemberPtr>): map<Name, seq<MemberPtr>> {
    map w | w in wchans && (wchans[w] == [] || Minus(wchans[w], d) != []) :: Minus(wchans[w], d)
  }

  function MembersOf(members: map<MemberPtr, Member>, gone: set<NickPtr>): set<MemberPtr> {
    set m | m in members && members[m].nick in gone
  }

  function ServersWithout(servers: map<ServerPtr, Server>, gone: set<NickPtr>): map<ServerPtr, Server> {
    map x | x in servers :: servers[x].(nicks := Minus(servers[x].nicks, gone))
  }

  /** What is left when the nicks `gone` have quit. */
  ghost function WithoutNicks(s: State, gone: set<NickPtr>): State {
    State(
      LoggedOut(s.users, gone),
      Remaining(s.nicks, gone),
      CloneTable(Remaining(s.nicks, gone)),
      GuestsWithout(s.nicks, s.guests, gone),
      DropMembers(s.wchans, MembersOf(s.members, gone)),
      s.members - MembersOf(s.members, gone),
      ServersWithout(s.servers, gone),
      s.serverList)
  }

  lemma DropNone(wchans: map<Name, seq<MemberPtr>>)
    ensures DropMembers(wchans, {}) == wchans
  {
    forall w | w in wchans
      ensures Minus(wchans[w], {}) == wchans[w]
    {
      MinusNone(wchans[w], {});
    }
  }

  lemma DropDrop(wchans: map<Name, seq<MemberPtr>>, a: set<MemberPtr>, b: set<MemberPtr>)
    ensures DropMembers(DropMembers(wchans, a), b) == DropMembers(wchans, a + b)
  {
    forall w | w in wchans
      ensures Minus(Minus(wchans[w], a), b) == Minus(wchans[w], a + b)
    {
      MinusMinus(wchans[w], a, b);
    }
  }

  lemma RemainingTwice(nicks: map<NickPtr, Nick>, a: set<NickPtr>, b: set<NickPtr>)
    ensures Remaining(Remaining(nicks, a), b) == Remaining(nicks, a + b)
  {
  }

  lemma LoggedOutTwice(users: map<Name, User>, a: set<NickPtr>, b: set<NickPtr>)
    ensures LoggedOut(LoggedOut(users, a), b) == LoggedOut(users, a + b)
  {
  }

  lemma GuestsTwice(nicks: map<NickPtr, Nick>, guests: map<Name, Guest>, a: set<NickPtr>, b: set<NickPtr>)
    ensures GuestsWithout(Remaining(nicks, a), GuestsWithout(nicks, guests, a), b) == GuestsWithout(nicks, guests, a + b)
  {
    forall g | g in guests
      ensures Named(nicks, a + b, g) <==> Named(nicks, a, g) || Named(Remaining(nicks, a), b, g)
    {
      if n :| n in a + b && n in nicks && nicks[n].name == g {
        assert n in a || n in Remaining(nicks, a);
      }
    }
  }

  lemma MembersTwice(members: map<MemberPtr, Member>, a: set<NickPtr>, b: set<NickPtr>)
    ensures MembersOf(members, a) + MembersOf(members - MembersOf(members, a), b) == MembersOf(members, a + b)
  {
  }

  lemma ServersTwice(servers: map<ServerPtr, Server>, a: set<NickPtr>, b: set<NickPtr>)
    ensures ServersWithout(ServersWithout(servers, a), b) == ServersWithout(servers, a + b)
  {
    forall x | x in servers
      ensures Minus(Minus(servers[x].nicks, a), b) == Minus(servers[x].nicks, a + b)
    {
      MinusMinus(servers[x].nicks, a, b);
    }
  }

  /** Quitting in two batches is quitting in one. */
  lemma WithoutTwice(s: State, a: set<NickPtr>, b: set<NickPtr>)
    ensures WithoutNicks(WithoutNicks(s, a), b) == WithoutNicks(s, a + b)
  {
    RemainingTwice(s.nicks, a, b);
    LoggedOutTwice(s.users, a, b);
    GuestsTwice(s.nicks, s.guests, a, b);
    MembersTwice(s.members, a, b);
    DropDrop(s.wchans, MembersOf(s.members, a), MembersOf(s.members - MembersOf(s.members, a), b));
    ServersTwice(s.servers, a, b);
  }

  lemma CloneTableCounts(nicks: map<NickPtr, Nick>)
    ensures InvClones(nicks, CloneTable(nicks))
  {
    forall n | n in nicks
      ensures |OnHost(nicks, nicks[n].reshost)| > 0
    {
      assert n in OnHost(nicks, nicks[n].reshost);
    }
  }

  /** The counters are determined by the nicks. */
  lemma ClonesUnique(nicks: map<NickPtr, Nick>, clones: map<Name, nat>)
    requires InvClones(nicks, clones)
    ensures clones == CloneTable(nicks)
  {
    forall h | h in clones
      ensures h in CloneTable(nicks)
    {
      var n :| n in OnHost(nicks, h);
    }
  }

  lemma NickListsKept(nicks: map<NickPtr, Nick>, members: map<MemberPtr, Member>, gone: set<NickPtr>)
    requires InvNickLists(nicks, members)
    ensures InvNickLists(Remaining(nicks, gone), members - MembersOf(members, gone))
  {
  }

  lemma ChanListsKept(wchans: map<Name, seq<MemberPtr>>, members: map<MemberPtr, Member>, d: set<MemberPtr>)
    requires InvChanLists(wchans, members)
    ensures InvChanLists(DropMembers(wchans, d), members - d)
  {
    forall w | w in wchans
      ensures NoDup(Minus(wchans[w], d)) && forall m :: m in Minus(wchans[w], d) <==> m in wchans[w] && m !in d
    {
      MinusNoDup(wchans[w], d);
      MinusMember(wchans[w], d);
    }
  }

  lemma HomesKept(nicks: map<NickPtr, Nick>, servers: map<ServerPtr, Server>, gone: set<NickPtr>)
    requires InvHomes(nicks, servers)
    ensures InvHomes(Remaining(nicks, gone), ServersWithout(servers, gone))
  {
    var rest, after := Remaining(nicks, gone), ServersWithout(servers, gone);
    forall x | x in servers
      ensures NoDup(after[x].nicks) && forall n :: n in after[x].nicks ==> n in rest && rest[n].server == x
    {
      MinusNoDup(servers[x].nicks, gone);
      MinusMember(servers[x].nicks, gone);
    }
    forall n | n in rest
      ensures rest[n].server in after && n in after[rest[n].server].nicks
    {
      MinusMember(servers[nicks[n].server].nicks, gone);
    }
  }

  /** The forest does not depend on the nick lists. */
  lemma ForestKept(servers: map<ServerPtr, Server>, servers': map<ServerPtr, Server>, list: seq<ServerPtr>)
    requires InvForest(servers, list) && servers'.Keys == servers.Keys
    requires forall x :: x in servers ==> servers'[x].hub == servers[x].hub && servers'[x].leafs == servers[x].leafs
    ensures InvForest(servers', list)
  {
    HubsKept(servers, servers');
    LeafsKept(servers, servers');
  }

  lemma HubsKept(servers: map<ServerPtr, Server>, servers': map<ServerPtr, Server>)
    requires HubsKnow(servers) && servers'.Keys == servers.Keys
    requires forall x :: x in servers ==> servers'[x].hub == servers[x].hub && servers'[x].leafs == servers[x].leafs
    ensures HubsKnow(servers')
  {
    forall x | x in servers' && servers'[x].hub.Some?
      ensures servers'[x].hub.value in servers' && x in servers'[servers'[x].hub.value].leafs
    {
      assert servers[x].hub.value in servers;
    }
  }

  lemma LeafsKept(servers: map<ServerPtr, Server>, servers': map<ServerPtr, Server>)
    requires LeafsKnow(servers) && servers'.Keys == servers.Keys
    requires forall x :: x in servers ==> servers'[x].hub == servers[x].hub && servers'[x].leafs == servers[x].leafs
    ensures LeafsKnow(servers')
  {
    forall h, x | h in servers' && x in servers'[h].leafs
      ensures x in servers' && servers'[x].hub == Some(h)
    {
      assert x in servers[h].leafs;
    }
  }

  lemma SessionsKept(users: map<Name, User>, nicks: map<NickPtr, Nick>, gone: set<NickPtr>)
    requires InvSessions(users, nicks)
    ensures InvSessions(LoggedOut(users, gone), Remaining(nicks, gone))
  {
  }

  lemma GuestsKept(nicks: map<NickPtr, Nick>, guests: map<Name, Guest>, gone: set<NickPtr>)
    requires InvGuests(nicks, guests)
    ensures InvGuests(Remaining(nicks, gone), GuestsWithout(nicks, guests, gone))
  {
    forall g | g in GuestsWithout(nicks, guests, gone)
      ensures Named(Remaining(nicks, gone), Remaining(nicks, gone).Keys, g)
    {
      var n :| n in nicks && nicks[n].name == g;
      assert n in Remaining(nicks, gone);
    }
  }

  /** Taking any set of nicks off the network keeps every invariant. */
  lemma WithoutKeepsInv(s: State, gone: set<NickPtr>)
    requires Inv(s)
    ensures Inv(WithoutNicks(s, gone))
  {
    forall law: Law
      ensures Holds(WithoutNicks(s, gone), law)
    {
      assert Holds(s, law);
      match law {
        case NickLists => NickListsKept(s.nicks, s.members, gone);
        case ChanLists => ChanListsKept(s.wchans, s.members, MembersOf(s.members, gone));
        case Clones => CloneTableCounts(Remaining(s.nicks, gone));
        case Guests => GuestsKept(s.nicks, s.guests, gone);
        case Sessions => SessionsKept(s.users, s.nicks, gone);
        case Homes => HomesKept(s.nicks, s.servers, gone);
        case Forest => ForestKept(s.servers, ServersWithout(s.servers, gone), s.serverList);
        case Names => case Pairs =>
      }
    }
  }
}
