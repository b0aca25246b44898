/** Channel membership: what PART takes off the two lists a membership is on. */
module Membership {
  import opened Lists
  import opened Network

  /** Taking the memberships `d` of one nick off both lists. */
  function Parted(s: State, n: NickPtr, d: set<MemberPtr>): State
    requires n in s.nicks
  {
    s.(members := s.members - d, wchans := DropMembers(s.wchans, d),
       nicks := s.nicks[n := s.nicks[n].(wchans := Minus(s.nicks[n].wchans, d))])
  }

  ghost predicate InvLists(s: State) {
    InvNickLists(s.nicks, s.members) && InvChanLists(s.wchans, s.members) && InvPairs(s.members)
  }

  lemma PartedKeepsLists(s: State, n: NickPtr, d: set<MemberPtr>)
    requires InvLists(s) && n in s.nicks && forall m :: m in d && m in s.members ==> s.members[m].nick == n
    ensures InvLists(Parted(s, n, d))
  {
    ChanListsKept(s.wchans, s.members, d);
    NickListsParted(s.nicks, s.members, n, d);
  }

  lemma NickListsParted(nicks: map<NickPtr, Nick>, members: map<MemberPtr, Member>, n: NickPtr, d: set<MemberPtr>)
    requires InvNickLists(nicks, members) && n in nicks
    requires forall m :: m in d && m in members ==> members[m].nick == n
    ensures InvNickLists(nicks[n := nicks[n].(wchans := Minus(nicks[n].wchans, d))], members - d)
  {
    MinusNoDup(nicks[n].wchans, d);
    MinusMember(nicks[n].wchans, d);
  }

  lemma PartedTwice(s: State, n: NickPtr, a: set<MemberPtr>, b: set<MemberPtr>)
    requires n in s.nicks
    ensures Parted(Parted(s, n, a), n, b) == Parted(s, n, a + b)
  {
    DropDrop(s.wchans, a, b);
    MinusMinus(s.nicks[n].wchans, a, b);
    assert (s.members - a) - b == s.members - (a + b);
  }

  function UnlinkNick(nicks: map<NickPtr, Nick>, n: NickPtr, m: MemberPtr): map<NickPtr, Nick>
    requires n in nicks
  {
    nicks[n := nicks[n].(wchans := Minus(nicks[n].wchans, {m}))]
  }

  /** The memberships of a nick in a channel. */
  function Memberships(members: map<MemberPtr, Member>, n: NickPtr, w: Name): set<MemberPtr> {
    set m | m in members && members[m] == Member(w, n)
  }

  /** DeleteUserFromWchan, all at once. */
  function PartChannel(s: State, n: NickPtr, w: Name): State
    requires n in s.nicks
  {
    Parted(s, n, Memberships(s.members, n, w))
  }

  lemma NoMembership(s: State, n: NickPtr, w: Name)
    requires n in s.nicks && forall m :: m in s.members ==> s.members[m] != Member(w, n)
    ensures PartChannel(s, n, w) == s
  {
    assert Memberships(s.members, n, w) == {};
    NoneParted(s, n);
  }

  lemma OneMembership(s: State, n: NickPtr, w: Name, m: MemberPtr)
    requires InvChanLists(s.wchans, s.members) && InvPairs(s.members)
    requires n in s.nicks && w in s.wchans && m in s.members && s.members[m] == Member(w, n)
    ensures PartChannel(s, n, w) == s.(
      members := s.members - {m}, nicks := UnlinkNick(s.nicks, n, m),
      wchans := var rest := Minus(s.wchans[w], {m}); if rest == [] then s.wchans - {w} else s.wchans[w := rest])
  {
    assert Memberships(s.members, n, w) == {m};
    DropOne(s.wchans, s.members, m);
  }

  lemma DropOne(wchans: map<Name, seq<MemberPtr>>, members: map<MemberPtr, Member>, m: MemberPtr)
    requires InvChanLists(wchans, members) && m in members
    ensures var w := members[m].wchan; var rest := Minus(wchans[w], {m});
      DropMembers(wchans, {m}) == if rest == [] then wchans - {w} else wchans[w := rest]
  {
    var w := members[m].wchan;
    forall w' | w' in wchans && w' != w
      ensures Minus(wchans[w'], {m}) == wchans[w']
    {
      MinusNone(wchans[w'], {m});
    }
  }

  lemma NoneParted(s: State, n: NickPtr)
    requires n in s.nicks
    ensures Parted(s, n, {}) == s
  {
    MinusNone(s.nicks[n].wchans, {});
    DropNone(s.wchans);
    assert s.nicks[n := s.nicks[n]] == s.nicks;
  }

  /** Parting the channel of a nick's first membership unlinks that membership and no other. */
  lemma PartFirst(s: State, n: NickPtr)
    requires InvLists(s) && n in s.nicks && s.nicks[n].wchans != []
    ensures var list := s.nicks[n].wchans;
      && list[0] in s.members && s.members[list[0]].wchan in s.wchans
      && PartChannel(s, n, s.members[list[0]].wchan) == Parted(s, n, {list[0]})
      && InvLists(Parted(s, n, {list[0]}))
      && Parted(s, n, {list[0]}).nicks[n].wchans == list[1..]
  {
    var list := s.nicks[n].wchans;
    assert Memberships(s.members, n, s.members[list[0]].wchan) == {list[0]};
    PartedKeepsLists(s, n, {list[0]});
    MinusFirst(list);
  }

  lemma RelistedClones(nicks: map<NickPtr, Nick>, clones: map<Name, nat>, n: NickPtr, list: seq<MemberPtr>)
    requires InvClones(nicks, clones) && n in nicks
    ensures InvClones(nicks[n := nicks[n].(wchans := list)], clones)
  {
    assert forall h :: OnHost(nicks[n := nicks[n].(wchans := list)], h) == OnHost(nicks, h);
  }

  lemma RelistedGuests(nicks: map<NickPtr, Nick>, guests: map<Name, Guest>, n: NickPtr, list: seq<MemberPtr>)
    requires InvGuests(nicks, guests) && n in nicks
    ensures InvGuests(nicks[n := nicks[n].(wchans := list)], guests)
  {
    var t := nicks[n := nicks[n].(wchans := list)];
    forall g | g in guests
      ensures Named(t, t.Keys, g)
    {
      var m :| m in nicks && nicks[m].name == g;
      assert t[m].name == g;
    }
  }

  lemma RelistedNames(nicks: map<NickPtr, Nick>, n: NickPtr, list: seq<MemberPtr>)
    requires InvNames(nicks) && n in nicks
    ensures InvNames(nicks[n := nicks[n].(wchans := list)])
  {
  }

  lemma RelistedSessions(users: map<Name, User>, nicks: map<NickPtr, Nick>, n: NickPtr, list: seq<MemberPtr>)
    requires InvSessions(users, nicks) && n in nicks
    ensures InvSessions(users, nicks[n := nicks[n].(wchans := list)])
  {
  }

  lemma RelistedHomes(nicks: map<NickPtr, Nick>, servers: map<ServerPtr, Server>, n: NickPtr, list: seq<MemberPtr>)
    requires InvHomes(nicks, servers) && n in nicks
    ensures InvHomes(nicks[n := nicks[n].(wchans := list)], servers)
  {
  }

  lemma PartedKeeps(s: State, n: NickPtr, d: set<MemberPtr>)
    requires Inv(s) && n in s.nicks && forall m :: m in d && m in s.members ==> s.members[m].nick == n
    ensures Inv(Parted(s, n, d))
  {
    var list := Minus(s.nicks[n].wchans, d);
    forall law: Law
      ensures Holds(Parted(s, n, d), law)
    {
      assert Holds(s, law);
      match law {
        case NickLists => NickListsParted(s.nicks, s.members, n, d);
        case ChanLists => ChanListsKept(s.wchans, s.members, d);
        case Clones => RelistedClones(s.nicks, s.clones, n, list);
        case Guests => RelistedGuests(s.nicks, s.guests, n, list);
        case Homes => RelistedHomes(s.nicks, s.servers, n, list);
        case Names => RelistedNames(s.nicks, n, list);
        case Sessions => RelistedSessions(s.users, s.nicks, n, list);
        case Pairs => case Forest =>
      }
    }
  }

  /** Leaving a channel keeps every invariant. */
  lemma PartKeeps(s: State, n: NickPtr, w: Name)
    requires Inv(s) && n in s.nicks
    ensures Inv(PartChannel(s, n, w))
  {
    PartedKeeps(s, n, Memberships(s.members, n, w));
  }
}
