/** Channel access: who holds what on which channel, and the checks that decide by it, going up the chain of master
    links when a user has no entry of its own. */
module Access {
  import opened Wrappers
  import opened Uflags

  type Name = string

  const CHLEV_OWNER := 10000
  const CHLEV_COOWNER := 9999

  /** A Cflag without its two ends. */
  datatype Grant = Grant(level: int, uflags: bv32, automode: int, suspended: bool)

  datatype Info = Info(owner: Name, axxflags: bool, suspended: bool)

  /** The access relation is keyed by channel and user; `links` goes from slave to master. */
  datatype Acl = Acl(users: set<Name>, chans: map<Name, Info>, rel: map<(Name, Name), Grant>, links: map<Name, Name>)

  datatype Levels = Levels(sadmin: int, admin: int, op: int, halfop: int, voice: int, invite: int, nostatus: int,
                           akick: int)

  /** `supermodes`: users whose name a nick with the super administrator mode bears. `superadmins`: those of them that
      are identified. */
  datatype Staff = Staff(superadmins: set<Name>, supermodes: set<Name>)

  // ----- Links.

  /** get_link_master. */
  function Master(a: Acl, u: Name): Option<Name> {
    if u in a.links && a.links[u] in a.users then Some(a.links[u]) else None
  }

  ghost predicate Ranked(links: map<Name, Name>, rank: map<Name, nat>) {
    forall u :: u in links && links[u] in links ==> u in rank && links[u] in rank && rank[links[u]] < rank[u]
  }

  /** Every chain of masters ends. */
  ghost predicate Acyclic(links: map<Name, Name>) {
    exists rank: map<Name, nat> :: Ranked(links, rank)
  }

  /** A bound on the length of the chain of masters. */
  ghost function Height(links: map<Name, Name>, u: Name): nat
    requires Acyclic(links)
  {
    var rank: map<Name, nat> :| Ranked(links, rank);
    if u !in links then 0 else if u in rank then rank[u] + 2 else 1
  }

  lemma MasterDescends(a: Acl, u: Name)
    requires Acyclic(a.links)
    ensures Master(a, u).Some? ==> Height(a.links, Master(a, u).value) < Height(a.links, u)
  {
  }

  /** The user and its masters, the nearest first. */
  function Chain(a: Acl, u: Name): (r: seq<Name>)
    requires Acyclic(a.links)
    ensures |r| > 0 && r[0] == u
    decreases Height(a.links, u)
  {
    MasterDescends(a, u);
    match Master(a, u)
    case None => [u]
    case Some(m) => [u] + Chain(a, m)
  }

  /** find_cflag_recursive: the user on the chain whose entry it returns. */
  function FindCflagRecursive(a: Acl, c: Name, u: Name): Option<Name>
    requires Acyclic(a.links)
    decreases Height(a.links, u)
  {
    MasterDescends(a, u);
    if (c, u) in a.rel then Some(u)
    else match Master(a, u)
      case None => None
      case Some(m) => if m == u then None else FindCflagRecursive(a, c, m)
  }

  /** IsFounder. */
  function IsFounder(a: Acl, w: Staff, c: Name, u: Name): bool
    requires Acyclic(a.links) && c in a.chans
    decreases Height(a.links, u)
  {
    MasterDescends(a, u);
    if (c, u) !in a.rel then
      match Master(a, u)
      case None => false
      case Some(m) => IsFounder(a, w, c, m)
    else
      var g := a.rel[(c, u)];
      if u in w.supermodes then true
      else if a.chans[c].axxflags then Has(g.uflags, OWNER) || Has(g.uflags, COOWNER)
      else g.level == CHLEV_OWNER || g.level == CHLEV_COOWNER
  }

  /** IsTrueOwner. */
  function IsTrueOwner(a: Acl, c: Name, u: Name): bool
    requires Acyclic(a.links) && c in a.chans
    decreases Height(a.links, u)
  {
    MasterDescends(a, u);
    if (c, u) !in a.rel then
      match Master(a, u)
      case None => false
      case Some(m) => IsTrueOwner(a, c, m)
    else if a.chans[c].axxflags then Has(a.rel[(c, u)].uflags, OWNER)
    else a.rel[(c, u)].level == CHLEV_OWNER
  }

  /** GetFlag. */
  function GetFlag(a: Acl, w: Staff, c: Name, u: Name): int
    requires Acyclic(a.links) && c in a.chans
    decreases Height(a.links, u)
  {
    MasterDescends(a, u);
    if u in w.supermodes then CHLEV_OWNER
    else if a.chans[c].suspended then 0
    else if (c, u) !in a.rel then
      match Master(a, u)
      case None => 0
      case Some(m) => GetFlag(a, w, c, m)
    else if a.rel[(c, u)].suspended then 0
    else a.rel[(c, u)].level
  }

  /** What can be asked of a user on a channel: one ChannelCan function each. */
  datatype Privilege = CanProtect | CanOp | CanHalfop | CanVoice | CanInvite | CanSet | CanTopic | CanAcl

  /** The flags one of which is enough. */
  function Flags(p: Privilege): bv32 {
    match p
    case CanProtect => PROTECT
    case CanOp => OP
    case CanHalfop => HALFOP | OP
    case CanVoice => VOICE | HALFOP | OP
    case CanInvite => INVITE
    case CanSet => SET
    case CanTopic => TOPIC
    case CanAcl => ACL
  }

  /** The level that is enough. */
  function Level(lv: Levels, p: Privilege): int {
    match p
    case CanProtect => lv.admin
    case CanOp => lv.op
    case CanHalfop => lv.halfop
    case CanVoice => lv.voice
    case CanInvite => lv.invite
    case CanSet => lv.sadmin
    case CanTopic => lv.op
    case CanAcl => lv.admin
  }

  /** ChannelCanProtect, ChannelCanOp and so on. */
  function ChannelCan(p: Privilege, lv: Levels, a: Acl, w: Staff, c: Name, u: Name): bool
    requires Acyclic(a.links) && c in a.chans
    decreases Height(a.links, u)
  {
    MasterDescends(a, u);
    if u in w.superadmins then true
    else if (c, u) !in a.rel then
      match Master(a, u)
      case None => false
      case Some(m) => ChannelCan(p, lv, a, w, c, m)
    else
      var g := a.rel[(c, u)];
      if g.suspended then false
      else if a.chans[c].axxflags then Has(g.uflags, Flags(p)) || IsFounder(a, w, c, u)
      else g.level >= Level(lv, p)
  }

  /** ChannelCanWriteACL. */
  function ChannelCanWriteAcl(a: Acl, w: Staff, c: Name, source: Name, target: Name): bool
    requires Acyclic(a.links) && c in a.chans
    decreases Height(a.links, source)
  {
    MasterDescends(a, source);
    if source in w.superadmins then true
    else if (c, source) !in a.rel then
      match Master(a, source)
      case None => false
      case Some(m) => ChannelCanWriteAcl(a, w, c, m, target)
    else
      var g1 := a.rel[(c, source)];
      if g1.suspended then false
      else if IsFounder(a, w, c, source) then true
      else if !Has(g1.uflags, ACL) then false
      else if (c, target) !in a.rel then true
      else Outranks(g1.uflags, a.rel[(c, target)].uflags) || source == target
  }

  /** Whether a holder of x with flags `m` may change an entry with flags `n`. */
  predicate Outranks(m: bv32, n: bv32) {
    || Has(m, OWNER)
    || (Has(m, COOWNER) && !Has(n, OWNER))
    || (Has(m, PROTECT) && !Has(n, OWNER | COOWNER | PROTECT))
    || (!Has(m, OWNER | COOWNER | PROTECT) && !Has(n, OWNER | COOWNER | PROTECT))
  }

  // ----- The checks decide by the first user on the chain that has a say.

  /** The first user on the chain that holds an entry on the channel. */
  function FirstHolder(a: Acl, c: Name, chain: seq<Name>): Option<Name> {
    if chain == [] then None else if (c, chain[0]) in a.rel then Some(chain[0]) else FirstHolder(a, c, chain[1..])
  }

  predicate IsFirstHolder(a: Acl, c: Name, chain: seq<Name>, i: nat)
    requires i < |chain|
  {
    (c, chain[i]) in a.rel && forall j :: 0 <= j < i ==> (c, chain[j]) !in a.rel
  }

  lemma {:induction false} FirstHolderIsFirst(a: Acl, c: Name, chain: seq<Name>)
    ensures FirstHolder(a, c, chain).None? <==> forall i :: 0 <= i < |chain| ==> (c, chain[i]) !in a.rel
    ensures FirstHolder(a, c, chain).Some? ==>
      exists i :: 0 <= i < |chain| && IsFirstHolder(a, c, chain, i) && chain[i] == FirstHolder(a, c, chain).value
  {
    if chain != [] && (c, chain[0]) !in a.rel {
      FirstHolderIsFirst(a, c, chain[1..]);
      forall i | 0 <= i < |chain| - 1
        ensures chain[1..][i] == chain[i + 1]
      {
      }
      if FirstHolder(a, c, chain).Some? {
        var i :| 0 <= i < |chain[1..]| && IsFirstHolder(a, c, chain[1..], i)
          && chain[1..][i] == FirstHolder(a, c, chain).value;
        assert forall j :: 0 <= j < i + 1 ==> j == 0 || chain[j] == chain[1..][j - 1];
        assert IsFirstHolder(a, c, chain, i + 1);
      }
    }
  }

  /** The chain down to and including the first holder. */
  function Consulted(a: Acl, c: Name, chain: seq<Name>): seq<Name> {
    if chain == [] then [] else if (c, chain[0]) in a.rel then [chain[0]] else [chain[0]] + Consulted(a, c, chain[1..])
  }

  /** What the entry of the deciding user says. */
  function Says(p: Privilege, lv: Levels, a: Acl, w: Staff, c: Name, u: Name): bool
    requires c in a.chans && (c, u) in a.rel
  {
    var g := a.rel[(c, u)];
    && !g.suspended
    && if a.chans[c].axxflags then Has(g.uflags, Flags(p) | OWNER | COOWNER) || u in w.supermodes
       else g.level >= Level(lv, p)
  }

  lemma {:induction false} FindIsFirstHolder(a: Acl, c: Name, u: Name)
    requires Acyclic(a.links)
    ensures FindCflagRecursive(a, c, u) == FirstHolder(a, c, Chain(a, u))
    decreases Height(a.links, u)
  {
    MasterDescends(a, u);
    if (c, u) !in a.rel && Master(a, u).Some? {
      FindIsFirstHolder(a, c, Master(a, u).value);
      assert Chain(a, u)[1..] == Chain(a, Master(a, u).value);
    }
  }

  /** A super administrator comes before any entry is found. */
  ghost predicate Overruled(a: Acl, w: Staff, c: Name, u: Name)
    requires Acyclic(a.links)
  {
    exists s :: s in Consulted(a, c, Chain(a, u)) && s in w.superadmins
  }

  lemma OverruledStep(a: Acl, w: Staff, c: Name, u: Name)
    requires Acyclic(a.links)
    ensures (c, u) in a.rel || Master(a, u).None? ==> (Overruled(a, w, c, u) <==> u in w.superadmins)
    ensures (c, u) !in a.rel && Master(a, u).Some? ==>
      (Overruled(a, w, c, u) <==> u in w.superadmins || Overruled(a, w, c, Master(a, u).value))
  {
    MasterDescends(a, u);
    var consulted := Consulted(a, c, Chain(a, u));
    assert consulted[0] == u;
    if (c, u) !in a.rel && Master(a, u).Some? {
      var m := Master(a, u).value;
      assert Chain(a, u)[1..] == Chain(a, m);
      assert consulted == [u] + Consulted(a, c, Chain(a, m));
      assert forall s :: s in consulted <==> s == u || s in Consulted(a, c, Chain(a, m));
    } else if (c, u) !in a.rel {
      assert Chain(a, u) == [u] && [u][1..] == [];
      assert Consulted(a, c, [u]) == [u] + Consulted(a, c, []);
    }
  }

  lemma OwnEntrySays(p: Privilege, lv: Levels, a: Acl, w: Staff, c: Name, u: Name)
    requires Acyclic(a.links) && c in a.chans && (c, u) in a.rel && u !in w.superadmins
    ensures ChannelCan(p, lv, a, w, c, u) <==> Says(p, lv, a, w, c, u)
  {
    HasAny(a.rel[(c, u)].uflags, Flags(p));
  }

  /** Every check is decided by the entry find_cflag_recursive returns, unless a super administrator comes first on
      the chain. */
  lemma {:induction false} ChannelCanDecidedBy(p: Privilege, lv: Levels, a: Acl, w: Staff, c: Name, u: Name)
    requires Acyclic(a.links) && c in a.chans
    ensures var found := FindCflagRecursive(a, c, u);
      ChannelCan(p, lv, a, w, c, u) <==>
        Overruled(a, w, c, u) || (found.Some? && (c, found.value) in a.rel && Says(p, lv, a, w, c, found.value))
    decreases Height(a.links, u)
  {
    MasterDescends(a, u);
    OverruledStep(a, w, c, u);
    if (c, u) in a.rel {
      if u !in w.superadmins {
        OwnEntrySays(p, lv, a, w, c, u);
      }
    } else if Master(a, u).Some? {
      ChannelCanDecidedBy(p, lv, a, w, c, Master(a, u).value);
    }
  }

  lemma HasAny(mask: bv32, flags: bv32)
    ensures Has(mask, flags | OWNER | COOWNER) <==> Has(mask, flags) || Has(mask, OWNER) || Has(mask, COOWNER)
  {
    HasEither(mask, flags | OWNER, COOWNER);
    HasEither(mask, flags, OWNER);
  }

  lemma HasEither(mask: bv32, a: bv32, b: bv32)
    ensures Has(mask, a | b) <==> Has(mask, a) || Has(mask, b)
  {
    Distribute(mask, a, b);
    OrIsZero(mask & a, mask & b);
  }

  lemma OrIsZero(x: bv32, y: bv32)
    ensures x | y == 0 <==> x == 0 && y == 0
  {
  }

  /** The entry itself makes its holder a founder. */
  predicate Founds(a: Acl, c: Name, u: Name)
    requires c in a.chans && (c, u) in a.rel
  {
    var g := a.rel[(c, u)];
    if a.chans[c].axxflags then Has(g.uflags, OWNER) || Has(g.uflags, COOWNER)
    else g.level == CHLEV_OWNER || g.level == CHLEV_COOWNER
  }

  /** So is the founder check. */
  lemma {:induction false} FounderDecidedBy(a: Acl, w: Staff, c: Name, u: Name)
    requires Acyclic(a.links) && c in a.chans
    ensures var found := FindCflagRecursive(a, c, u);
      IsFounder(a, w, c, u) <==>
        found.Some? && (c, found.value) in a.rel && (found.value in w.supermodes || Founds(a, c, found.value))
    decreases Height(a.links, u)
  {
    MasterDescends(a, u);
    if (c, u) !in a.rel && Master(a, u).Some? {
      FounderDecidedBy(a, w, c, Master(a, u).value);
    }
  }

  // ----- Op, half op and voice.

  predicate Sees(p: Privilege, q: Privilege) {
    p == q || (p == CanOp && q == CanHalfop) || (p == CanHalfop && q == CanVoice) || (p == CanOp && q == CanVoice)
  }

  lemma {:induction false} Implied(p: Privilege, q: Privilege, lv: Levels, a: Acl, w: Staff, c: Name, u: Name)
    requires Acyclic(a.links) && c in a.chans && Sees(p, q) && Level(lv, p) >= Level(lv, q)
    requires ChannelCan(p, lv, a, w, c, u)
    ensures ChannelCan(q, lv, a, w, c, u)
    decreases Height(a.links, u)
  {
    MasterDescends(a, u);
    if u !in w.superadmins && (c, u) !in a.rel && Master(a, u).Some? {
      Implied(p, q, lv, a, w, c, Master(a, u).value);
    } else if (c, u) in a.rel && Has(a.rel[(c, u)].uflags, Flags(p)) {
      WiderFlags(a.rel[(c, u)].uflags, p, q);
    }
  }

  lemma WiderFlags(mask: bv32, p: Privilege, q: Privilege)
    requires Sees(p, q) && Has(mask, Flags(p))
    ensures Has(mask, Flags(q))
  {
    HasEither(mask, HALFOP, OP);
    HasEither(mask, VOICE | HALFOP, OP);
    HasEither(mask, VOICE, HALFOP);
  }

  /** Whoever may op may half op, and whoever may half op may voice, on every channel and in both modes, exactly when
      the configured levels are in that order. */
  lemma OpHalfopVoice(lv: Levels)
    ensures lv.op >= lv.halfop >= lv.voice <==>
      forall a: Acl, w: Staff, c, u :: Acyclic(a.links) && c in a.chans ==>
        && (ChannelCan(CanOp, lv, a, w, c, u) ==> ChannelCan(CanHalfop, lv, a, w, c, u))
        && (ChannelCan(CanHalfop, lv, a, w, c, u) ==> ChannelCan(CanVoice, lv, a, w, c, u))
  {
    if lv.op >= lv.halfop >= lv.voice {
      forall a: Acl, w: Staff, c, u | Acyclic(a.links) && c in a.chans
        ensures ChannelCan(CanOp, lv, a, w, c, u) ==> ChannelCan(CanHalfop, lv, a, w, c, u)
        ensures ChannelCan(CanHalfop, lv, a, w, c, u) ==> ChannelCan(CanVoice, lv, a, w, c, u)
      {
        if ChannelCan(CanOp, lv, a, w, c, u) {
          Implied(CanOp, CanHalfop, lv, a, w, c, u);
        }
        if ChannelCan(CanHalfop, lv, a, w, c, u) {
          Implied(CanHalfop, CanVoice, lv, a, w, c, u);
        }
      }
    } else {
      var level := if lv.op < lv.halfop then lv.op else lv.halfop;
      var w := Staff({}, {});
      var a := LevelOnly(level);
      LevelOnlyDecides(CanOp, lv, level);
      LevelOnlyDecides(CanHalfop, lv, level);
      LevelOnlyDecides(CanVoice, lv, level);
      assert Acyclic(a.links) && "#c" in a.chans;
      assert lv.op < lv.halfop ==>
        ChannelCan(CanOp, lv, a, w, "#c", "u") && !ChannelCan(CanHalfop, lv, a, w, "#c", "u");
      assert lv.op >= lv.halfop ==>
        ChannelCan(CanHalfop, lv, a, w, "#c", "u") && !ChannelCan(CanVoice, lv, a, w, "#c", "u");
    }
  }

  /** One user with a bare level on a channel in level mode. */
  function LevelOnly(level: int): Acl {
    Acl({"u"}, map["#c" := Info("u", false, false)], map[("#c", "u") := Grant(level, 0, 1, false)], map[])
  }

  lemma LevelOnlyDecides(p: Privilege, lv: Levels, level: int)
    ensures Acyclic(LevelOnly(level).links)
    ensures ChannelCan(p, lv, LevelOnly(level), Staff({}, {}), "#c", "u") <==> level >= Level(lv, p)
  {
    var none: map<Name, nat> := map[];
    assert Ranked(LevelOnly(level).links, none);
  }
}
