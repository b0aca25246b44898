/** The server tree: what a netsplit takes away. */
module NetSplit {
  import opened Wrappers
  import opened Lists
  import opened Network

  /** `root` is `x` or a hub above it. */
  ghost predicate Under(servers: map<ServerPtr, Server>, list: seq<ServerPtr>, x: ServerPtr, root: ServerPtr)
    requires InvForest(servers, list) && x in servers
    decreases Index(list, x)
  {
    x == root || (servers[x].hub.Some? && Under(servers, list, servers[x].hub.value, root))
  }

  ghost function Subtree(servers: map<ServerPtr, Server>, list: seq<ServerPtr>, root: ServerPtr): set<ServerPtr>
    requires InvForest(servers, list)
  {
    set x | x in servers && Under(servers, list, x, root)
  }

  ghost function Below(s: State, root: ServerPtr): set<ServerPtr> {
    if Holds(s, Forest) then Subtree(s.servers, s.serverList, root) else {}
  }

  /** A set of servers that contains every server below its members. */
  ghost predicate Closed(servers: map<ServerPtr, Server>, d: set<ServerPtr>) {
    forall x :: x in servers && servers[x].hub.Some? && servers[x].hub.value in d ==> x in d
  }

  function ServersMinus(servers: map<ServerPtr, Server>, d: set<ServerPtr>): map<ServerPtr, Server> {
    map x | x in servers && x !in d :: servers[x].(leafs := Minus(servers[x].leafs, d))
  }

  function NicksOn(nicks: map<NickPtr, Nick>, d: set<ServerPtr>): set<NickPtr> {
    set n | n in nicks && nicks[n].server in d
  }

  /** What is left when the nicks `gone` and the servers `d` have left. */
  ghost function Without(s: State, gone: set<NickPtr>, d: set<ServerPtr>): State {
    var t := WithoutNicks(s, gone);
    t.(servers := ServersMinus(t.servers, d), serverList := Minus(t.serverList, d))
  }

  /** Two departures, one after the other, are one. */
  lemma WithoutWithout(s: State, a: set<NickPtr>, d: set<ServerPtr>, b: set<NickPtr>, e: set<ServerPtr>)
    ensures Without(Without(s, a, d), b, e) == Without(s, a + b, d + e)
  {
    WithoutTwice(s, a, b);
    MinusMinus(s.serverList, d, e);
    var t := WithoutNicks(s, a);
    forall x | x in s.servers
      ensures Minus(Minus(s.servers[x].leafs, d), e) == Minus(s.servers[x].leafs, d + e)
    {
      MinusMinus(s.servers[x].leafs, d, e);
    }
    assert ServersMinus(ServersWithout(ServersMinus(t.servers, d), b), e)
      == ServersMinus(ServersWithout(t.servers, b), d + e);
  }

  lemma ForestMinus(servers: map<ServerPtr, Server>, list: seq<ServerPtr>, d: set<ServerPtr>)
    requires InvForest(servers, list) && Closed(servers, d)
    ensures InvForest(ServersMinus(servers, d), Minus(list, d))
  {
    LeafsMinus(servers, d);
    var rest, left := ServersMinus(servers, d), Minus(list, d);
    MinusNoDup(list, d);
    MinusMember(list, d);
    forall x | x in rest && rest[x].hub.Some?
      ensures Index(left, rest[x].hub.value) < Index(left, x)
    {
      MinusOrder(list, d, servers[x].hub.value, x);
    }
  }

  lemma LeafsMinus(servers: map<ServerPtr, Server>, d: set<ServerPtr>)
    requires InvLeafs(servers) && Closed(servers, d)
    ensures InvLeafs(ServersMinus(servers, d))
  {
    var rest := ServersMinus(servers, d);
    forall x | x in rest
      ensures NoDup(rest[x].leafs) && forall y :: y in rest[x].leafs ==> y in rest && rest[y].hub == Some(x)
    {
      MinusNoDup(servers[x].leafs, d);
      MinusMember(servers[x].leafs, d);
    }
    forall x | x in rest && rest[x].hub.Some?
      ensures rest[x].hub.value in rest && x in rest[rest[x].hub.value].leafs
    {
      MinusMember(servers[servers[x].hub.value].leafs, d);
    }
  }

  lemma HomesMinus(nicks: map<NickPtr, Nick>, servers: map<ServerPtr, Server>, d: set<ServerPtr>)
    requires InvHomes(nicks, servers) && NicksOn(nicks, d) == {}
    ensures InvHomes(nicks, ServersMinus(servers, d))
  {
    forall n | n in nicks
      ensures nicks[n].server !in d
    {
      assert nicks[n].server in d ==> n in NicksOn(nicks, d);
    }
  }

  /** A departure that takes whole subtrees with all their nicks keeps every invariant. */
  lemma WithoutKeeps(s: State, gone: set<NickPtr>, d: set<ServerPtr>)
    requires Inv(s) && Closed(s.servers, d) && NicksOn(s.nicks, d) <= gone
    ensures Inv(Without(s, gone, d))
  {
    WithoutKeepsInv(s, gone);
    var t := WithoutNicks(s, gone);
    assert NicksOn(t.nicks, d) == {};
    forall law: Law
      ensures Holds(Without(s, gone, d), law)
    {
      assert Holds(t, law);
      match law {
        case Homes => HomesMinus(t.nicks, t.servers, d);
        case Forest => ForestMinus(t.servers, t.serverList, d);
        case Names => case NickLists => case ChanLists => case Pairs => case Clones => case Guests => case Sessions =>
      }
    }
  }

  // ----- Subtrees.

  lemma {:induction false} UnderOlder(servers: map<ServerPtr, Server>, list: seq<ServerPtr>, x: ServerPtr, root: ServerPtr)
    requires InvForest(servers, list) && x in servers && Under(servers, list, x, root)
    ensures root in servers && Index(list, root) <= Index(list, x)
    decreases Index(list, x)
  {
    if x != root {
      UnderOlder(servers, list, servers[x].hub.value, root);
    }
  }

  lemma {:induction false} UnderTrans(servers: map<ServerPtr, Server>, list: seq<ServerPtr>, x: ServerPtr, y: ServerPtr,
                                      z: ServerPtr)
    requires InvForest(servers, list) && x in servers && y in servers
    requires Under(servers, list, x, y) && Under(servers, list, y, z)
    ensures Under(servers, list, x, z)
    decreases Index(list, x)
  {
    if x != y {
      UnderTrans(servers, list, servers[x].hub.value, y, z);
    }
  }

  /** Of two servers above the same one, one is above the other. */
  lemma {:induction false} UnderLinear(servers: map<ServerPtr, Server>, list: seq<ServerPtr>, x: ServerPtr, a: ServerPtr,
                                       b: ServerPtr)
    requires InvForest(servers, list) && x in servers && a in servers && b in servers
    requires Under(servers, list, x, a) && Under(servers, list, x, b)
    ensures Under(servers, list, a, b) || Under(servers, list, b, a)
    decreases Index(list, x)
  {
    if x != a && x != b {
      UnderLinear(servers, list, servers[x].hub.value, a, b);
    }
  }

  lemma {:induction false} UnderLeaf(servers: map<ServerPtr, Server>, list: seq<ServerPtr>, x: ServerPtr, root: ServerPtr)
    returns (leaf: ServerPtr)
    requires InvForest(servers, list) && x in servers && root in servers
    requires Under(servers, list, x, root) && x != root
    ensures leaf in servers[root].leafs && leaf in servers && Under(servers, list, x, leaf)
    decreases Index(list, x)
  {
    var h := servers[x].hub.value;
    if h == root {
      leaf := x;
    } else {
      leaf := UnderLeaf(servers, list, h, root);
    }
  }

  lemma SubtreeClosed(servers: map<ServerPtr, Server>, list: seq<ServerPtr>, root: ServerPtr)
    requires InvForest(servers, list)
    ensures Closed(servers, Subtree(servers, list, root))
  {
  }

  ghost function Subtrees(servers: map<ServerPtr, Server>, list: seq<ServerPtr>, roots: set<ServerPtr>): set<ServerPtr>
    requires InvForest(servers, list)
  {
    set x | x in servers && exists r :: r in roots && Under(servers, list, x, r)
  }

  /** A subtree is its root and the subtrees of the leaves of the root. */
  lemma SubtreeOfLeafs(servers: map<ServerPtr, Server>, list: seq<ServerPtr>, root: ServerPtr)
    requires InvForest(servers, list) && root in servers
    ensures Subtree(servers, list, root) ==
      {root} + Subtrees(servers, list, Elements(servers[root].leafs))
  {
    var leafs := Elements(servers[root].leafs);
    forall x | x in Subtree(servers, list, root) && x != root
      ensures x in Subtrees(servers, list, leafs)
    {
      var l := UnderLeaf(servers, list, x, root);
    }
    forall x | x in Subtrees(servers, list, leafs)
      ensures x in Subtree(servers, list, root)
    {
      var l :| l in leafs && Under(servers, list, x, l);
      UnderTrans(servers, list, x, l, root);
    }
  }

  lemma HubNotUnderLeaf(servers: map<ServerPtr, Server>, list: seq<ServerPtr>, root: ServerPtr, a: ServerPtr)
    requires InvForest(servers, list) && root in servers && a in servers[root].leafs
    ensures a in servers && servers[a].hub == Some(root) && !Under(servers, list, root, a)
  {
    if Under(servers, list, root, a) {
      UnderOlder(servers, list, root, a);
    }
  }

  /** The subtrees of two different leaves of a server are disjoint, and the server is in neither. */
  lemma LeafSubtreesDisjoint(servers: map<ServerPtr, Server>, list: seq<ServerPtr>, root: ServerPtr, a: ServerPtr,
                             b: ServerPtr)
    requires InvForest(servers, list) && root in servers && a in servers[root].leafs && b in servers[root].leafs && a != b
    ensures forall x :: x in Subtree(servers, list, a) ==> x !in Subtree(servers, list, b) && x != root
  {
    HubNotUnderLeaf(servers, list, root, a);
    HubNotUnderLeaf(servers, list, root, b);
    forall x | x in Subtree(servers, list, a)
      ensures x !in Subtree(servers, list, b)
    {
      if x in Subtree(servers, list, b) {
        UnderLinear(servers, list, x, a, b);
      }
    }
  }

  /** Removing a closed set leaves the hub chains of the others alone. */
  lemma {:induction false} UnderMinus(servers: map<ServerPtr, Server>, list: seq<ServerPtr>, d: set<ServerPtr>,
                                      x: ServerPtr, root: ServerPtr)
    requires InvForest(servers, list) && Closed(servers, d) && x in servers && x !in d
    requires InvForest(ServersMinus(servers, d), Minus(list, d))
    ensures Under(ServersMinus(servers, d), Minus(list, d), x, root) <==> Under(servers, list, x, root)
    decreases Index(list, x)
  {
    if x != root && servers[x].hub.Some? {
      UnderMinus(servers, list, d, servers[x].hub.value, root);
    }
  }

  /** Being under a server depends on the hubs only. */
  lemma {:induction false} UnderSame(servers: map<ServerPtr, Server>, servers': map<ServerPtr, Server>,
                                     list: seq<ServerPtr>, x: ServerPtr, root: ServerPtr)
    requires InvForest(servers, list) && InvForest(servers', list) && servers'.Keys == servers.Keys && x in servers
    requires forall y :: y in servers ==> servers'[y].hub == servers[y].hub
    ensures Under(servers', list, x, root) <==> Under(servers, list, x, root)
    decreases Index(list, x)
  {
    if x != root && servers[x].hub.Some? {
      UnderSame(servers, servers', list, servers[x].hub.value, root);
    }
  }

  /** A departure leaves the subtrees it does not touch as they were. */
  lemma SubtreeAfter(s: State, gone: set<NickPtr>, d: set<ServerPtr>, root: ServerPtr)
    requires InvForest(s.servers, s.serverList) && Closed(s.servers, d)
    requires Subtree(s.servers, s.serverList, root) !! d
    ensures var t := Without(s, gone, d);
      InvForest(t.servers, t.serverList)
      && Subtree(t.servers, t.serverList, root) == Subtree(s.servers, s.serverList, root)
  {
    var mid := ServersWithout(s.servers, gone);
    ForestKept(s.servers, mid, s.serverList);
    ForestMinus(mid, s.serverList, d);
    forall x | x in s.servers && x !in d
      ensures Under(ServersMinus(mid, d), Minus(s.serverList, d), x, root) <==> Under(s.servers, s.serverList, x, root)
    {
      UnderSame(s.servers, mid, s.serverList, x, root);
      UnderMinus(mid, s.serverList, d, x, root);
    }
  }

  lemma SubtreesClosed(servers: map<ServerPtr, Server>, list: seq<ServerPtr>, roots: set<ServerPtr>)
    requires InvForest(servers, list)
    ensures Closed(servers, Subtrees(servers, list, roots))
  {
    forall x | x in servers && servers[x].hub.Some? && servers[x].hub.value in Subtrees(servers, list, roots)
      ensures x in Subtrees(servers, list, roots)
    {
      var r :| r in roots && Under(servers, list, servers[x].hub.value, r);
      assert Under(servers, list, x, r);
    }
  }

  lemma SubtreesAdd(servers: map<ServerPtr, Server>, list: seq<ServerPtr>, roots: set<ServerPtr>, r: ServerPtr)
    requires InvForest(servers, list)
    ensures Subtrees(servers, list, roots + {r}) == Subtrees(servers, list, roots) + Subtree(servers, list, r)
  {
  }

  /** Nobody leaving changes nothing. */
  lemma WithoutNobody(s: State)
    requires InvClones(s.nicks, s.clones)
    ensures WithoutNicks(s, {}) == s && Without(s, {}, {}) == s
  {
    ClonesUnique(s.nicks, s.clones);
    assert Remaining(s.nicks, {}) == s.nicks;
    assert MembersOf(s.members, {}) == {};
    DropNone(s.wchans);
    ServersNobody(s.servers);
    MinusNone(s.serverList, {});
  }

  lemma ServersNobody(servers: map<ServerPtr, Server>)
    ensures ServersWithout(servers, {}) == servers && ServersMinus(servers, {}) == servers
  {
    forall x | x in servers
      ensures Minus(servers[x].nicks, {}) == servers[x].nicks && Minus(servers[x].leafs, {}) == servers[x].leafs
    {
      MinusNone(servers[x].nicks, {});
      MinusNone(servers[x].leafs, {});
    }
  }

  lemma WithoutNoServer(s: State, gone: set<NickPtr>)
    ensures Without(s, gone, {}) == WithoutNicks(s, gone)
  {
    var t := WithoutNicks(s, gone);
    ServersNobody(t.servers);
    MinusNone(t.serverList, {});
  }

  /** Deleting a server without nicks and leaves is its departure. */
  function DeleteServer(s: State, x: ServerPtr): State
    requires x in s.servers
  {
    var hub := s.servers[x].hub;
    var unlinked := if hub.Some? && hub.value in s.servers
      then s.servers[hub.value := s.servers[hub.value].(leafs := Minus(s.servers[hub.value].leafs, {x}))] else s.servers;
    s.(servers := unlinked - {x}, serverList := Minus(s.serverList, {x}))
  }

  lemma DeleteIsWithout(s: State, x: ServerPtr)
    requires InvClones(s.nicks, s.clones) && InvForest(s.servers, s.serverList)
    requires x in s.servers
    ensures DeleteServer(s, x) == Without(s, {}, {x})
  {
    WithoutNobody(s);
    ServersMinusOne(s.servers, x);
  }

  lemma ServersMinusOne(servers: map<ServerPtr, Server>, x: ServerPtr)
    requires InvLeafs(servers) && x in servers
    ensures var hub := servers[x].hub;
      ServersMinus(servers, {x}) == (if hub.Some?
        then servers[hub.value := servers[hub.value].(leafs := Minus(servers[hub.value].leafs, {x}))] else servers) - {x}
  {
    forall y | y in servers && servers[x].hub != Some(y)
      ensures Minus(servers[y].leafs, {x}) == servers[y].leafs
    {
      MinusNone(servers[y].leafs, {x});
    }
  }

  /** What is left when the subtrees of `roots` have gone, with all their nicks. */
  ghost function Detached(s: State, roots: set<ServerPtr>): State
    requires Holds(s, Forest)
  {
    var d := Subtrees(s.servers, s.serverList, roots);
    Without(s, NicksOn(s.nicks, d), d)
  }

  /** The leaves of `x` that are left when some of them have been detached. */
  lemma LeafsLeft(s: State, x: ServerPtr, done: set<ServerPtr>)
    requires Holds(s, Forest) && x in s.servers && done <= Elements(s.servers[x].leafs)
    ensures x in Detached(s, done).servers
    ensures Detached(s, done).servers[x].leafs == Minus(s.servers[x].leafs, done)
  {
    var d := Subtrees(s.servers, s.serverList, done);
    forall l | l in s.servers[x].leafs
      ensures l in d <==> l in done
    {
      LeafDetached(s.servers, s.serverList, x, done, l);
    }
    MinusAgree(s.servers[x].leafs, d, done);
    if x in d {
      var r :| r in done && Under(s.servers, s.serverList, x, r);
      HubNotUnderLeaf(s.servers, s.serverList, x, r);
    }
  }

  lemma LeafDetached(servers: map<ServerPtr, Server>, list: seq<ServerPtr>, x: ServerPtr, done: set<ServerPtr>, l: ServerPtr)
    requires InvForest(servers, list) && x in servers && done <= Elements(servers[x].leafs)
    requires l in servers[x].leafs
    ensures l in Subtrees(servers, list, done) <==> l in done
  {
    if l in done {
      assert Under(servers, list, l, l);
    } else if l in Subtrees(servers, list, done) {
      var r :| r in done && Under(servers, list, l, r);
      assert l in Subtree(servers, list, l) && l in Subtree(servers, list, r);
      LeafSubtreesDisjoint(servers, list, x, l, r);
    }
  }

  lemma NicksOnSplit(nicks: map<NickPtr, Nick>, d: set<ServerPtr>, e: set<ServerPtr>)
    ensures NicksOn(nicks, d) + NicksOn(Remaining(nicks, NicksOn(nicks, d)), e) == NicksOn(nicks, d + e)
  {
  }

  /** Detaching one more leaf. */
  lemma DetachOneMore(s: State, x: ServerPtr, done: set<ServerPtr>, l: ServerPtr)
    requires Holds(s, Forest) && x in s.servers && done <= Elements(s.servers[x].leafs)
    requires l in s.servers[x].leafs && l !in done
    ensures var t := Detached(s, done);
      && Holds(t, Forest)
      && Subtree(t.servers, t.serverList, l) == Subtree(s.servers, s.serverList, l)
      && Detached(s, done + {l}) == Detach(t, l)
  {
    var d, e := Subtrees(s.servers, s.serverList, done), Subtree(s.servers, s.serverList, l);
    LeafApart(s.servers, s.serverList, x, done, l);
    SubtreesClosed(s.servers, s.serverList, done);
    SubtreeAfter(s, NicksOn(s.nicks, d), d, l);
    SubtreesAdd(s.servers, s.serverList, done, l);
    WithoutMore(s, d, e);
  }

  lemma WithoutMore(s: State, d: set<ServerPtr>, e: set<ServerPtr>)
    ensures var t := Without(s, NicksOn(s.nicks, d), d);
      Without(t, NicksOn(t.nicks, e), e) == Without(s, NicksOn(s.nicks, d + e), d + e)
  {
    var gone := NicksOn(s.nicks, d);
    NicksOnSplit(s.nicks, d, e);
    WithoutWithout(s, gone, d, NicksOn(Remaining(s.nicks, gone), e), e);
  }

  lemma LeafApart(servers: map<ServerPtr, Server>, list: seq<ServerPtr>, x: ServerPtr, done: set<ServerPtr>, l: ServerPtr)
    requires InvForest(servers, list) && x in servers && done <= Elements(servers[x].leafs)
    requires l in servers[x].leafs && l !in done
    ensures Subtree(servers, list, l) !! Subtrees(servers, list, done)
  {
    forall r | r in done
      ensures forall y :: y in Subtree(servers, list, l) ==> y !in Subtree(servers, list, r)
    {
      LeafSubtreesDisjoint(servers, list, x, l, r);
    }
  }

  /** What is left when the subtree of `x` has gone, with all its nicks. */
  ghost function Detach(s: State, x: ServerPtr): State
    requires Holds(s, Forest)
  {
    var d := Subtree(s.servers, s.serverList, x);
    Without(s, NicksOn(s.nicks, d), d)
  }

  lemma DetachKeeps(s: State, x: ServerPtr)
    requires Inv(s)
    ensures Inv(Detach(s, x))
  {
    assert Holds(s, Forest);
    var d := Subtree(s.servers, s.serverList, x);
    SubtreeClosed(s.servers, s.serverList, x);
    WithoutKeeps(s, NicksOn(s.nicks, d), d);
  }

  lemma SubtreeSame(servers: map<ServerPtr, Server>, servers': map<ServerPtr, Server>, list: seq<ServerPtr>)
    requires InvForest(servers, list) && InvForest(servers', list) && servers'.Keys == servers.Keys
    requires forall y :: y in servers ==> servers'[y].hub == servers[y].hub
    ensures forall root :: Subtree(servers', list, root) == Subtree(servers, list, root)
    ensures forall roots :: Subtrees(servers', list, roots) == Subtrees(servers, list, roots)
  {
    forall y, root | y in servers
      ensures Under(servers', list, y, root) <==> Under(servers, list, y, root)
    {
      UnderSame(servers, servers', list, y, root);
    }
  }

  /** Quitting the nicks of a server, detaching its leaves and deleting it takes its whole subtree away. */
  lemma DetachWhole(s: State, x: ServerPtr)
    requires Holds(s, Forest) && x in s.servers
    ensures var t := WithoutNicks(s, NicksOn(s.nicks, {x}));
      && Holds(t, Forest) && Subtree(t.servers, t.serverList, x) == Subtree(s.servers, s.serverList, x)
      && Without(Detached(t, Elements(s.servers[x].leafs)), {}, {x}) == Detach(s, x)
  {
    var own := NicksOn(s.nicks, {x});
    var t := WithoutNicks(s, own);
    ForestKept(s.servers, t.servers, s.serverList);
    SubtreeSame(s.servers, t.servers, s.serverList);
    var leafs := Elements(s.servers[x].leafs);
    SubtreeOfLeafs(s.servers, s.serverList, x);
    WholeInSteps(s, x, Subtrees(s.servers, s.serverList, leafs));
  }

  lemma WholeInSteps(s: State, x: ServerPtr, e: set<ServerPtr>)
    ensures var t := WithoutNicks(s, NicksOn(s.nicks, {x}));
      Without(Without(t, NicksOn(t.nicks, e), e), {}, {x}) == Without(s, NicksOn(s.nicks, {x} + e), {x} + e)
  {
    var own := NicksOn(s.nicks, {x});
    var more := NicksOn(Remaining(s.nicks, own), e);
    NicksOnSplit(s.nicks, {x}, e);
    WithoutNoServer(s, own);
    WithoutWithout(s, own, {}, more, e);
    WithoutWithout(s, own + more, {} + e, {}, {x});
    assert own + more + {} == own + more && {} + e + {x} == {x} + e;
  }
}
