/** Runs of commands on channels, from empty registries, after which a command breaks an invariant: each shows that an
    exception stated elsewhere can be met. */
module AccessExamples {
  import opened Wrappers
  import opened Uflags
  import opened Access
  import opened Ownership
  import opened FlagRuns
  import opened AccessRuns

  const LV := Levels(20, 10, 5, 4, 3, 1, -1, -2)
  const NOBODY := Staff({}, {})
  const BOSS := Staff({"s"}, {"s"})
  const EMPTY := Acl({}, map[], map[], map[])

  /** An event while no super administrator is online. */
  function Now(ev: Event): Moment {
    At(LV, NOBODY, ev)
  }

  /** The run is possible from the start and ends in `a`. */
  ghost predicate Reaches(run: seq<Moment>, a: Acl) {
    Sound(EMPTY) && Possible(EMPTY, run) && AccessRuns.After(EMPTY, run) == a
  }

  lemma {:induction false} OneMore(a: Acl, run: seq<Moment>, m: Moment)
    requires Sound(a) && Possible(a, run)
    requires var t := AccessRuns.After(a, run); Sound(t) && Allowed(m.w, t, m.ev) && Safe(m.lv, m.w, t, m.ev)
    ensures Possible(a, run + [m]) && AccessRuns.After(a, run + [m]) == Next(AccessRuns.After(a, run), m)
    decreases |run|
  {
    if run == [] {
      assert run + [m] == [m];
      NextSound(a, [m]);
    } else {
      NextSound(a, run);
      OneMore(Next(a, run[0]), run[1..], m);
      assert (run + [m])[1..] == run[1..] + [m];
    }
  }

  lemma Reached(run: seq<Moment>, a: Acl, ev: Event)
    requires Reaches(run, a) && Allowed(NOBODY, a, ev) && (Acyclic(a.links) ==> Safe(LV, NOBODY, a, ev))
    ensures Sound(a) && Reaches(run + [Now(ev)], Step(LV, NOBODY, a, ev))
  {
    AccessRuns.RunKeeps(EMPTY, run);
    OneMore(EMPTY, run, Now(ev));
  }

  lemma NoLinks()
    ensures Acyclic(map[])
  {
    var none: map<Name, nat> := map[];
    assert Ranked(map[], none);
  }

  lemma Started()
    ensures Reaches([], EMPTY)
  {
    NoLinks();
  }

  // ----- Accounts.

  const PEOPLE: set<Name> := {"o", "b", "c"}
  const REGISTERED := [Now(AddAccount("o")), Now(AddAccount("b")), Now(AddAccount("c"))]

  lemma Registration()
    ensures Reaches(REGISTERED, EMPTY.(users := PEOPLE))
  {
    Started();
    Reached([], EMPTY, AddAccount("o"));
    Reached([] + [Now(AddAccount("o"))], EMPTY.(users := {"o"}), AddAccount("b"));
    assert {"o"} + {"b"} == {"o", "b"};
    Reached([] + [Now(AddAccount("o"))] + [Now(AddAccount("b"))], EMPTY.(users := {"o", "b"}), AddAccount("c"));
    assert {"o", "b"} + {"c"} == PEOPLE;
    assert [] + [Now(AddAccount("o"))] + [Now(AddAccount("b"))] + [Now(AddAccount("c"))] == REGISTERED;
  }

  // ----- A channel of o.

  /** The channel #x belongs to o; `rel` is the rest of its access list. */
  function Owned1(users: set<Name>, axxflags: bool, rel: map<(Name, Name), Grant>): Acl {
    Acl(users, map["#x" := Info("o", axxflags, false)], rel[("#x", "o") := OWNERS], map[])
  }

  const SETUP := REGISTERED + [Now(RegisterChannel("#x", "o"))]

  lemma SetUp()
    ensures Reaches(SETUP, Owned1(PEOPLE, true, map[]))
  {
    Registration();
    Reached(REGISTERED, EMPTY.(users := PEOPLE), RegisterChannel("#x", "o"));
  }

  lemma FounderFlags()
    ensures Has(CHANOWNER, OWNER) && Has(CHANOWNER, ACL)
    ensures Has(OWNER, OWNER) && !Has(OWNER, COOWNER) && !Has(COOWNER, OWNER) && Has(COOWNER, COOWNER)
    ensures Has(COOWNER, COOWNER | AUTOOWNER)
  {
  }

  /** What the owner may do on its channel. */
  lemma OwnerRules(w: Staff, axxflags: bool, rel: map<(Name, Name), Grant>)
    ensures var a := Owned1(PEOPLE, axxflags, rel);
      && Acyclic(a.links) && IsFounder(a, w, "#x", "o") && GetFlag(a, w, "#x", "o") == CHLEV_OWNER
  {
    NoLinks();
    FounderFlags();
  }

  lemma LevelMode(run: seq<Moment>, rel: map<(Name, Name), Grant>)
    requires Reaches(run, Owned1(PEOPLE, true, rel))
    ensures Reaches(run + [Now(SetAxxflags("#x", "o", false))], Owned1(PEOPLE, false, rel))
  {
    OwnerRules(NOBODY, true, rel);
    var a := Owned1(PEOPLE, true, rel);
    Reached(run, a, SetAxxflags("#x", "o", false));
    assert a.chans["#x" := a.chans["#x"].(axxflags := false)] == Owned1(PEOPLE, false, rel).chans;
  }

  /** An owner that deletes itself in level mode leaves its channel without an owner's entry. */
  lemma OwnerDeletesItself()
    ensures var a, ev := Owned1(PEOPLE, false, map[]), DelAccess("#x", "o", true, false, "o");
      && Reaches(SETUP + [Now(SetAxxflags("#x", "o", false))], a)
      && Sound(a) && Allowed(NOBODY, a, ev) && !Safe(LV, NOBODY, a, ev) && !Sound(Step(LV, NOBODY, a, ev))
  {
    SetUp();
    LevelMode(SETUP, map[]);
    var a, ev := Owned1(PEOPLE, false, map[]), DelAccess("#x", "o", true, false, "o");
    AccessRuns.RunKeeps(EMPTY, SETUP + [Now(SetAxxflags("#x", "o", false))]);
    OwnerRules(NOBODY, false, map[]);
    StepKeeps(LV, NOBODY, a, ev);
  }

  lemma BossMay(a: Acl)
    requires a == Owned1(PEOPLE + {"s"}, true, map[])
    ensures Acyclic(a.links) && MayChange(LV, BOSS, a, "#x", "s", "b", true, OWNER)
  {
    NoLinks();
    FounderFlags();
  }

  /** A super administrator can hand out F, after which the channel has two holders of it. */
  lemma BossGivesF()
    ensures var a, ev := Owned1(PEOPLE + {"s"}, true, map[]), ChangeFlags("#x", "s", "b", true, OWNER);
      && Reaches(SETUP + [Now(AddAccount("s"))], a)
      && Sound(a) && Allowed(BOSS, a, ev) && !Safe(LV, BOSS, a, ev) && !Sound(Step(LV, BOSS, a, ev))
  {
    SetUp();
    Reached(SETUP, Owned1(PEOPLE, true, map[]), AddAccount("s"));
    var a, ev := Owned1(PEOPLE + {"s"}, true, map[]), ChangeFlags("#x", "s", "b", true, OWNER);
    AccessRuns.RunKeeps(EMPTY, SETUP + [Now(AddAccount("s"))]);
    BossMay(a);
    FounderFlags();
    StepKeeps(LV, BOSS, a, ev);
  }

  // ----- Two co-owners.

  const HELPER := map[("#x", "b") := Grant(0, COOWNER, 1, false)]

  lemma OwnerMay(a: Acl)
    requires a == Owned1(PEOPLE, true, map[])
    ensures Acyclic(a.links) && MayChange(LV, NOBODY, a, "#x", "o", "b", true, COOWNER)
  {
    OwnerRules(NOBODY, true, map[]);
    FounderFlags();
    OwnerFlags(LV, 0);
  }

  lemma OtherOrder(g: Grant)
    ensures map[("#x", "o") := OWNERS][("#x", "b") := g] == map[("#x", "b") := g][("#x", "o") := OWNERS]
  {
  }

  lemma HelperAdded(a: Acl)
    requires a == Owned1(PEOPLE, true, map[])
    ensures Edited(LV, a, "#x", "b", true, COOWNER) == Owned1(PEOPLE, true, HELPER)
  {
    OtherOrder(Grant(0, COOWNER, 1, false));
    assert COOWNER != 0;
  }

  const HELPED := SETUP + [Now(ChangeFlags("#x", "o", "b", true, COOWNER))]

  lemma HelperNamed()
    ensures Reaches(HELPED, Owned1(PEOPLE, true, HELPER))
  {
    SetUp();
    var a, ev := Owned1(PEOPLE, true, map[]), ChangeFlags("#x", "o", "b", true, COOWNER);
    OwnerMay(a);
    FounderFlags();
    Reached(SETUP, a, ev);
    HelperAdded(a);
  }

  /** With a co-owner by flag, level mode lets a second one in by level. */
  lemma TwoCoowners()
    ensures var a, ev := Owned1(PEOPLE, false, HELPER), AddAccess("#x", "o", false, "c", CHLEV_COOWNER);
      && Reaches(HELPED + [Now(SetAxxflags("#x", "o", false))], a)
      && Sound(a) && OneCoownerEach(a) && Allowed(NOBODY, a, ev) && Safe(LV, NOBODY, a, ev)
      && SecondCoowner(LV, NOBODY, a, ev) && !OneCoownerEach(Step(LV, NOBODY, a, ev))
  {
    HelperNamed();
    LevelMode(HELPED, HELPER);
    var a, ev := Owned1(PEOPLE, false, HELPER), AddAccess("#x", "o", false, "c", CHLEV_COOWNER);
    AccessRuns.RunKeeps(EMPTY, HELPED + [Now(SetAxxflags("#x", "o", false))]);
    OneHelper(a);
    StepCoowners(LV, NOBODY, a, ev);
  }

  lemma OneHelper(a: Acl)
    requires a == Owned1(PEOPLE, false, HELPER)
    ensures Acyclic(a.links) && OneCoownerEach(a)
    ensures SecondCoowner(LV, NOBODY, a, AddAccess("#x", "o", false, "c", CHLEV_COOWNER))
  {
    OwnerRules(NOBODY, false, HELPER);
    FounderFlags();
    OwnerFlags(LV, 0);
    assert IsCoowner(a, "#x", "b");
    forall c
      ensures OneCoowner(a, c)
    {
      assert forall v :: IsCoowner(a, c, v) ==> v == "b";
    }
  }

  // ----- A circle of links.

  const CHAIN := map["o" := "b", "b" := "c"]

  lemma ChainOfThree(links: map<Name, Name>)
    requires links == CHAIN || links == map["o" := "b"]
    ensures Acyclic(links)
  {
    var rank: map<Name, nat> := map["o" := 1, "b" := 0];
    assert Ranked(links, rank);
  }

  lemma ChainReached()
    ensures Reaches(REGISTERED + [Now(Link("o", "b"))] + [Now(Link("b", "c"))], EMPTY.(users := PEOPLE, links := CHAIN))
  {
    Registration();
    var a := EMPTY.(users := PEOPLE);
    NoLinks();
    assert Chain(a, "b") == ["b"];
    Reached(REGISTERED, a, Link("o", "b"));
    var t := a.(links := map["o" := "b"]);
    ChainOfThree(t.links);
    assert Chain(t, "c") == ["c"];
    Reached(REGISTERED + [Now(Link("o", "b"))], t, Link("b", "c"));
    assert t.links["b" := "c"] == CHAIN;
  }

  /** The third link of three closes a circle, on which no check of a user without an entry ends. */
  lemma CircleClosed()
    ensures var a, ev := EMPTY.(users := PEOPLE, links := CHAIN), Link("c", "o");
      && Reaches(REGISTERED + [Now(Link("o", "b"))] + [Now(Link("b", "c"))], a)
      && Sound(a) && Allowed(NOBODY, a, ev) && !Safe(LV, NOBODY, a, ev)
      && (forall c, n: nat :: StillClimbing(Step(LV, NOBODY, a, ev), c, "o", n))
  {
    ChainReached();
    var a, ev := EMPTY.(users := PEOPLE, links := CHAIN), Link("c", "o");
    AccessRuns.RunKeeps(EMPTY, REGISTERED + [Now(Link("o", "b"))] + [Now(Link("b", "c"))]);
    var t := Step(LV, NOBODY, a, ev);
    LastOfThree(a);
    AroundThree(t);
    forall c, n: nat
      ensures StillClimbing(t, c, "o", n)
    {
      CircleNeverEnds(t, c, "o", 3, n);
    }
  }

  lemma LastOfThree(a: Acl)
    requires a.users == PEOPLE && a.links == CHAIN
    ensures Acyclic(a.links) && "c" in Chain(a, "o")
  {
    ChainOfThree(a.links);
    var top, middle := Chain(a, "c"), Chain(a, "b");
    assert top[0] == "c";
    assert middle == ["b"] + top && middle[1] == "c";
    assert Chain(a, "o") == ["o"] + middle && Chain(a, "o")[2] == "c";
  }

  lemma AroundThree(t: Acl)
    requires t.users == PEOPLE && t.links == CHAIN["c" := "o"]
    ensures Up(t, "o", 3) == Some("o")
  {
    assert Up(t, "o", 0) == Some("o");
    assert Up(t, "o", 1) == Some("b");
    assert Up(t, "o", 2) == Some("c");
  }
}
