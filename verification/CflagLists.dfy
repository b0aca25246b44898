/** The access relation as the program stores it: entries that are each linked on the list of their user and on the
    list of their channel. */
module CflagLists {
  import opened Lists
  import opened Access

  type Ptr = nat

  datatype Cflag = Cflag(chan: Name, user: Name, grant: Grant)

  datatype Chan = Chan(info: Info, cflags: seq<Ptr>)

  /** What is in memory, and beside it the relation `acl` it stands for and, for each pair of the relation, the
      entry `at` which it is stored. */
  datatype View = View(users: map<Name, seq<Ptr>>, chans: map<Name, Chan>, cflags: map<Ptr, Cflag>,
                       links: map<Name, Name>, acl: Acl, at: map<(Name, Name), Ptr>)

  function Key(f: Cflag): (Name, Name) {
    (f.chan, f.user)
  }

  /** `Entries`: the stored entries are the pairs of the relation, one each. `Users`, `Chans`: an entry is on the
      list of its user and of no other user, and likewise for channels. `Names`: the rest of the relation. */
  datatype Law = Entries | Users | Chans | Names

  ghost predicate StoredAt(v: View) {
    && v.at.Keys == v.acl.rel.Keys
    && (forall k :: k in v.at ==>
      v.at[k] in v.cflags && Key(v.cflags[v.at[k]]) == k && v.cflags[v.at[k]].grant == v.acl.rel[k])
    && (forall p :: p in v.cflags ==> Key(v.cflags[p]) in v.at && v.at[Key(v.cflags[p])] == p)
  }

  ghost predicate OnUsers(users: map<Name, seq<Ptr>>, cflags: map<Ptr, Cflag>) {
    && (forall u :: u in users ==> NoDup(users[u]))
    && (forall p :: p in cflags ==> cflags[p].user in users && p in users[cflags[p].user])
    && (forall u, p :: u in users && p in users[u] ==> p in cflags && cflags[p].user == u)
  }

  ghost predicate OnChans(chans: map<Name, Chan>, cflags: map<Ptr, Cflag>) {
    && (forall c :: c in chans ==> NoDup(chans[c].cflags))
    && (forall p :: p in cflags ==> cflags[p].chan in chans && p in chans[cflags[p].chan].cflags)
    && (forall c, p :: c in chans && p in chans[c].cflags ==> p in cflags && cflags[p].chan == c)
  }

  ghost predicate SameNames(v: View) {
    && v.users.Keys == v.acl.users && v.chans.Keys == v.acl.chans.Keys && v.links == v.acl.links
    && forall c :: c in v.chans ==> v.chans[c].info == v.acl.chans[c]
  }

  ghost predicate Holds(v: View, law: Law) {
    match law
    case Entries => StoredAt(v)
    case Users => OnUsers(v.users, v.cflags)
    case Chans => OnChans(v.chans, v.cflags)
    case Names => SameNames(v)
  }

  ghost predicate Consistent(v: View) {
    forall law: Law :: Holds(v, law)
  }

  // ----- Adding an entry.

  function Added(v: View, p: Ptr, c: Name, u: Name, g: Grant): View
    requires c in v.chans && u in v.users
  {
    v.(users := v.users[u := v.users[u] + [p]],
       chans := v.chans[c := v.chans[c].(cflags := v.chans[c].cflags + [p])],
       cflags := v.cflags[p := Cflag(c, u, g)],
       acl := v.acl.(rel := v.acl.rel[(c, u) := g]),
       at := v.at[(c, u) := p])
  }

  lemma AddedUsers(users: map<Name, seq<Ptr>>, cflags: map<Ptr, Cflag>, p: Ptr, f: Cflag)
    requires OnUsers(users, cflags) && p !in cflags && f.user in users
    ensures OnUsers(users[f.user := users[f.user] + [p]], cflags[p := f])
  {
  }

  lemma AddedChans(chans: map<Name, Chan>, cflags: map<Ptr, Cflag>, p: Ptr, f: Cflag)
    requires OnChans(chans, cflags) && p !in cflags && f.chan in chans
    ensures OnChans(chans[f.chan := chans[f.chan].(cflags := chans[f.chan].cflags + [p])], cflags[p := f])
  {
  }

  lemma AddedKeeps(v: View, p: Ptr, c: Name, u: Name, g: Grant)
    requires Consistent(v) && c in v.chans && u in v.users && p !in v.cflags && (c, u) !in v.acl.rel
    ensures Consistent(Added(v, p, c, u, g))
  {
    forall law: Law
      ensures Holds(Added(v, p, c, u, g), law)
    {
      assert Holds(v, law);
      match law {
        case Entries =>
        case Users => AddedUsers(v.users, v.cflags, p, Cflag(c, u, g));
        case Chans => AddedChans(v.chans, v.cflags, p, Cflag(c, u, g));
        case Names =>
      }
    }
  }

  // ----- Deleting entries.

  function KeysOf(cflags: map<Ptr, Cflag>, d: set<Ptr>): set<(Name, Name)> {
    set p | p in d && p in cflags :: Key(cflags[p])
  }

  function UsersWithout(users: map<Name, seq<Ptr>>, d: set<Ptr>): map<Name, seq<Ptr>> {
    map u | u in users :: Minus(users[u], d)
  }

  function ChansWithout(chans: map<Name, Chan>, d: set<Ptr>): map<Name, Chan> {
    map c | c in chans :: chans[c].(cflags := Minus(chans[c].cflags, d))
  }

  function Without(v: View, d: set<Ptr>): View {
    v.(users := UsersWithout(v.users, d), chans := ChansWithout(v.chans, d), cflags := v.cflags - d,
       acl := v.acl.(rel := v.acl.rel - KeysOf(v.cflags, d)), at := v.at - KeysOf(v.cflags, d))
  }

  lemma WithoutUsers(users: map<Name, seq<Ptr>>, cflags: map<Ptr, Cflag>, d: set<Ptr>)
    requires OnUsers(users, cflags)
    ensures OnUsers(UsersWithout(users, d), cflags - d)
  {
    forall u | u in users
      ensures NoDup(Minus(users[u], d)) && forall p :: p in Minus(users[u], d) <==> p in users[u] && p !in d
    {
      MinusNoDup(users[u], d);
      MinusMember(users[u], d);
    }
  }

  lemma WithoutChans(chans: map<Name, Chan>, cflags: map<Ptr, Cflag>, d: set<Ptr>)
    requires OnChans(chans, cflags)
    ensures OnChans(ChansWithout(chans, d), cflags - d)
  {
    forall c | c in chans
      ensures NoDup(Minus(chans[c].cflags, d))
      ensures forall p :: p in Minus(chans[c].cflags, d) <==> p in chans[c].cflags && p !in d
    {
      MinusNoDup(chans[c].cflags, d);
      MinusMember(chans[c].cflags, d);
    }
  }

  lemma WithoutKeeps(v: View, d: set<Ptr>)
    requires Consistent(v)
    ensures Consistent(Without(v, d))
  {
    forall law: Law
      ensures Holds(Without(v, d), law)
    {
      assert Holds(v, law);
      match law {
        case Entries =>
        case Users => WithoutUsers(v.users, v.cflags, d);
        case Chans => WithoutChans(v.chans, v.cflags, d);
        case Names =>
      }
    }
  }

  lemma UsersTwice(users: map<Name, seq<Ptr>>, a: set<Ptr>, b: set<Ptr>)
    ensures UsersWithout(UsersWithout(users, a), b) == UsersWithout(users, a + b)
  {
    forall u | u in users
      ensures Minus(Minus(users[u], a), b) == Minus(users[u], a + b)
    {
      MinusMinus(users[u], a, b);
    }
  }

  lemma ChansTwice(chans: map<Name, Chan>, a: set<Ptr>, b: set<Ptr>)
    ensures ChansWithout(ChansWithout(chans, a), b) == ChansWithout(chans, a + b)
  {
    forall c | c in chans
      ensures Minus(Minus(chans[c].cflags, a), b) == Minus(chans[c].cflags, a + b)
    {
      MinusMinus(chans[c].cflags, a, b);
    }
  }

  lemma WithoutTwice(v: View, a: set<Ptr>, b: set<Ptr>)
    ensures Without(Without(v, a), b) == Without(v, a + b)
  {
    UsersTwice(v.users, a, b);
    ChansTwice(v.chans, a, b);
    assert KeysOf(v.cflags, a) + KeysOf(v.cflags - a, b) == KeysOf(v.cflags, a + b);
  }

  lemma WithoutNothing(v: View)
    ensures Without(v, {}) == v
  {
    forall u | u in v.users
      ensures Minus(v.users[u], {}) == v.users[u]
    {
      MinusNone(v.users[u], {});
    }
    forall c | c in v.chans
      ensures Minus(v.chans[c].cflags, {}) == v.chans[c].cflags
    {
      MinusNone(v.chans[c].cflags, {});
    }
    assert KeysOf(v.cflags, {}) == {};
  }

  /** DeleteCflag: the entry leaves its two lists. */
  function Deleted(v: View, p: Ptr): View
    requires p in v.cflags && v.cflags[p].user in v.users && v.cflags[p].chan in v.chans
  {
    var f := v.cflags[p];
    v.(users := v.users[f.user := Minus(v.users[f.user], {p})],
       chans := v.chans[f.chan := v.chans[f.chan].(cflags := Minus(v.chans[f.chan].cflags, {p}))],
       cflags := v.cflags - {p}, acl := v.acl.(rel := v.acl.rel - {Key(f)}), at := v.at - {Key(f)})
  }

  lemma UsersWithoutOne(users: map<Name, seq<Ptr>>, cflags: map<Ptr, Cflag>, p: Ptr)
    requires OnUsers(users, cflags) && p in cflags
    ensures var u := cflags[p].user; UsersWithout(users, {p}) == users[u := Minus(users[u], {p})]
  {
    forall u | u in users && u != cflags[p].user
      ensures Minus(users[u], {p}) == users[u]
    {
      MinusNone(users[u], {p});
    }
  }

  lemma ChansWithoutOne(chans: map<Name, Chan>, cflags: map<Ptr, Cflag>, p: Ptr)
    requires OnChans(chans, cflags) && p in cflags
    ensures var c := cflags[p].chan;
      ChansWithout(chans, {p}) == chans[c := chans[c].(cflags := Minus(chans[c].cflags, {p}))]
  {
    forall c | c in chans && c != cflags[p].chan
      ensures Minus(chans[c].cflags, {p}) == chans[c].cflags
    {
      MinusNone(chans[c].cflags, {p});
    }
  }

  lemma DeletedIsWithout(v: View, p: Ptr)
    requires Consistent(v) && p in v.cflags
    ensures v.cflags[p].user in v.users && v.cflags[p].chan in v.chans
    ensures Deleted(v, p) == Without(v, {p})
  {
    assert Holds(v, Users) && Holds(v, Chans);
    UsersWithoutOne(v.users, v.cflags, p);
    ChansWithoutOne(v.chans, v.cflags, p);
    assert KeysOf(v.cflags, {p}) == {Key(v.cflags[p])};
  }

  /** Deleting everything on a channel's list is taking the channel out of the relation; and likewise for users. */
  lemma ChannelCleared(v: View, c: Name)
    requires Consistent(v) && c in v.chans
    ensures KeysOf(v.cflags, Elements(v.chans[c].cflags)) == set k | k in v.acl.rel && k.0 == c
    ensures Without(v, Elements(v.chans[c].cflags)).chans[c].cflags == []
  {
    assert Holds(v, Entries) && Holds(v, Chans);
    MinusAll(v.chans[c].cflags, Elements(v.chans[c].cflags));
    forall k | k in v.acl.rel && k.0 == c
      ensures k in KeysOf(v.cflags, Elements(v.chans[c].cflags))
    {
      assert v.at[k] in v.chans[c].cflags;
    }
  }

  lemma UserCleared(v: View, u: Name)
    requires Consistent(v) && u in v.users
    ensures KeysOf(v.cflags, Elements(v.users[u])) == set k | k in v.acl.rel && k.1 == u
    ensures Without(v, Elements(v.users[u])).users[u] == []
  {
    assert Holds(v, Entries) && Holds(v, Users);
    MinusAll(v.users[u], Elements(v.users[u]));
    forall k | k in v.acl.rel && k.1 == u
      ensures k in KeysOf(v.cflags, Elements(v.users[u]))
    {
      assert v.at[k] in v.users[u];
    }
  }

  lemma {:induction false} MinusAll<T(!new)>(xs: seq<T>, d: set<T>)
    requires forall x :: x in xs ==> x in d
    ensures Minus(xs, d) == []
  {
    if xs != [] {
      assert xs[0] in xs && forall x :: x in xs[1..] ==> x in xs;
      MinusAll(xs[1..], d);
    }
  }

  // ----- Channels and accounts.

  function WithChan(v: View, c: Name, info: Info): View {
    v.(chans := v.chans[c := Chan(info, if c in v.chans then v.chans[c].cflags else [])],
       acl := v.acl.(chans := v.acl.chans[c := info]))
  }

  lemma WithChanKeeps(v: View, c: Name, info: Info)
    requires Consistent(v)
    ensures Consistent(WithChan(v, c, info))
  {
    forall law: Law
      ensures Holds(WithChan(v, c, info), law)
    {
      assert Holds(v, law);
      match law {
        case Entries => case Users => case Names =>
        case Chans =>
      }
    }
  }

  function WithoutChan(v: View, c: Name): View {
    v.(chans := v.chans - {c}, acl := v.acl.(chans := v.acl.chans - {c}))
  }

  lemma WithoutChanKeeps(v: View, c: Name)
    requires Consistent(v) && c in v.chans && v.chans[c].cflags == []
    ensures Consistent(WithoutChan(v, c))
  {
    forall law: Law
      ensures Holds(WithoutChan(v, c), law)
    {
      assert Holds(v, law);
      match law {
        case Entries => case Users => case Names =>
        case Chans =>
      }
    }
  }

  function WithGrant(v: View, p: Ptr, g: Grant): View
    requires p in v.cflags
  {
    var f := v.cflags[p];
    v.(cflags := v.cflags[p := f.(grant := g)], acl := v.acl.(rel := v.acl.rel[Key(f) := g]))
  }

  /** The lists depend only on where the entries belong. */
  lemma SameEnds(users: map<Name, seq<Ptr>>, chans: map<Name, Chan>, cflags: map<Ptr, Cflag>, cflags': map<Ptr, Cflag>)
    requires OnUsers(users, cflags) && OnChans(chans, cflags) && cflags'.Keys == cflags.Keys
    requires forall p :: p in cflags ==> Key(cflags'[p]) == Key(cflags[p])
    ensures OnUsers(users, cflags') && OnChans(chans, cflags')
  {
    assert forall p :: p in cflags ==> cflags'[p].user == cflags[p].user && cflags'[p].chan == cflags[p].chan;
  }

  lemma WithGrantKeeps(v: View, p: Ptr, g: Grant)
    requires Consistent(v) && p in v.cflags
    ensures Consistent(WithGrant(v, p, g))
  {
    forall law: Law
      ensures Holds(WithGrant(v, p, g), law)
    {
      assert Holds(v, law);
      match law {
        case Entries => GrantedStored(v, p, g);
        case Users => GrantedUsers(v, p, g);
        case Chans => GrantedUsers(v, p, g);
        case Names =>
      }
    }
  }

  lemma GrantedStored(v: View, p: Ptr, g: Grant)
    requires StoredAt(v) && p in v.cflags
    ensures StoredAt(WithGrant(v, p, g))
  {
  }

  lemma GrantedUsers(v: View, p: Ptr, g: Grant)
    requires Consistent(v) && p in v.cflags
    ensures OnUsers(v.users, WithGrant(v, p, g).cflags) && OnChans(v.chans, WithGrant(v, p, g).cflags)
  {
    assert Holds(v, Users) && Holds(v, Chans);
    SameEnds(v.users, v.chans, v.cflags, WithGrant(v, p, g).cflags);
  }

  function WithoutUser(v: View, u: Name, links: map<Name, Name>): View {
    v.(users := v.users - {u}, links := links, acl := v.acl.(users := v.acl.users - {u}, links := links))
  }

  lemma WithoutUserKeeps(v: View, u: Name, links: map<Name, Name>)
    requires Consistent(v) && u in v.users && v.users[u] == []
    ensures Consistent(WithoutUser(v, u, links))
  {
    forall law: Law
      ensures Holds(WithoutUser(v, u, links), law)
    {
      assert Holds(v, law);
      match law {
        case Entries => case Names => case Chans =>
        case Users =>
      }
    }
  }
}
