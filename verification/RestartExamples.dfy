/** Runs of commands from empty registries after which the next program does not start, or starts with something
    else than the last one had. */
module RestartExamples {
  import opened Uflags
  import opened Access
  import opened Ownership
  import opened AccessRuns
  import opened AccessExamples
  import Database
  import opened Restarts

  /** Loading is refused whatever the order of the rows. */
  ghost predicate NeverStarts(d: Database.Db) {
    forall t, now :: Database.SavedAs(d, t) ==> Database.LoadAll(LV, now, t).None?
  }

  lemma Unloadable(d: Database.Db)
    requires !Database.Loadable(d)
    ensures NeverStarts(d)
  {
    forall t, now | Database.SavedAs(d, t)
      ensures Database.LoadAll(LV, now, t).None?
    {
      Database.LoadsReloaded(LV, now, d, t);
    }
  }

  const ACCOUNT := Database.User(1, 0, "", "", "", 0, 60, "", 0)

  // ----- A link made by a nick that has no account.

  const LINKED := [Now(AddAccount("b")), Now(Link("z", "b"))]

  /** The account b, linked while its nick was called z. */
  const LINKEDDB := Database.EMPTY.(users := map["b" := ACCOUNT], links := map["z" := "b"])

  /** A link made under the name of a nick that is no account is saved, and the next program does not start. */
  lemma SlaveUnknown()
    ensures Reaches(LINKED, AclOf(LINKEDDB)) && NeverStarts(LINKEDDB)
  {
    Started();
    Reached([], AccessExamples.EMPTY, AddAccount("b"));
    var a := AccessExamples.EMPTY.(users := {"b"});
    NoLinks();
    assert Chain(a, "b") == ["b"];
    Reached([] + [Now(AddAccount("b"))], a, Link("z", "b"));
    assert [] + [Now(AddAccount("b"))] + [Now(Link("z", "b"))] == LINKED;
    assert LINKEDDB.users.Keys == {"b"};
    assert "z" in LINKEDDB.links;
    Unloadable(LINKEDDB);
  }

  // ----- The flags of an owner.

  const OWNED := Database.Chan("o", "", COPT_AXXFLAGS, "", 0, 1, 1, "")
  const LESS: bv32 := CHANOWNER & !TOPIC

  /** The owner of #x has taken the flag t from itself. */
  const LESSDB := Database.EMPTY.(users := map["o" := ACCOUNT, "b" := ACCOUNT, "c" := ACCOUNT],
    chans := map["#x" := OWNED], access := map[("#x", "o") := Grant(CHLEV_OWNER, LESS, 1, false)])

  lemma LessFlags()
    ensures NewMask(CHANOWNER, false, TOPIC) == LESS && LESS != CHANOWNER && LESS != 0
    ensures Has(COPT_AXXFLAGS, COPT_AXXFLAGS) && !Has(COPT_AXXFLAGS, COPT_SUSPENDED)
    ensures !Has(TOPIC, OWNER) && !Has(TOPIC, COOWNER | AUTOOWNER) && !Has(TOPIC, PROTECT) && !Has(TOPIC, AUTOPROTECT)
    ensures !Has(TOPIC, ACL) && !Has(TOPIC, SET) && TOPIC != 0 && !Has(TOPIC, COOWNER)
  {
  }

  lemma LessMay(a: Acl)
    requires a == Owned1(PEOPLE, true, map[])
    ensures Acyclic(a.links) && MayChange(LV, NOBODY, a, "#x", "o", "o", false, TOPIC)
  {
    OwnerRules(NOBODY, true, map[]);
    FounderFlags();
    LessFlags();
  }

  lemma LessAcl()
    ensures Edited(LV, Owned1(PEOPLE, true, map[]), "#x", "o", false, TOPIC) == AclOf(LESSDB)
  {
    LessFlags();
    assert LESSDB.users.Keys == PEOPLE;
  }

  /** An owner may change its own flags; the next program gives it all of them again. */
  lemma OwnersFlagsUndone()
    ensures Reaches(SETUP + [Now(ChangeFlags("#x", "o", "o", false, TOPIC))], AclOf(LESSDB))
    ensures forall t, now :: Database.SavedAs(LESSDB, t) && now != 0 ==>
      var r := Database.LoadAll(LV, now, t); r.Some? && r.value.access == map[("#x", "o") := OWNERS] != LESSDB.access
  {
    SetUp();
    LessMay(Owned1(PEOPLE, true, map[]));
    LessFlags();
    Reached(SETUP, Owned1(PEOPLE, true, map[]), ChangeFlags("#x", "o", "o", false, TOPIC));
    LessAcl();
    forall t, now | Database.SavedAs(LESSDB, t) && now != 0
      ensures var r := Database.LoadAll(LV, now, t);
        r.Some? && r.value.access == map[("#x", "o") := OWNERS] != LESSDB.access
    {
      Database.LoadsReloaded(LV, now, LESSDB, t);
      OwnerAlone();
    }
  }

  lemma OwnerAlone()
    ensures Database.Loadable(LESSDB)
    ensures Database.EntriesAgain(LV, LESSDB.chans, LESSDB.access) == map[("#x", "o") := OWNERS] != LESSDB.access
  {
    LessFlags();
    assert Database.Below(LESSDB.access) == map[];
    assert ("#x", LESSDB.chans["#x"].owner) in Database.OwnerKeys(LESSDB.chans);
    assert Database.OwnerKeys(LESSDB.chans) == {("#x", "o")};
    assert LESSDB.access[("#x", "o")] != OWNERS;
  }

  // ----- An owner that has deleted itself and is given an entry again.

  const SECOND := map[("#x", "b") := Grant(CHLEV_COOWNER, CHANCOOWNER, 1, false)]
  const SECONDED := SETUP + [Now(SetAxxflags("#x", "o", false))]
    + [Now(AddAccess("#x", "o", false, "b", CHLEV_COOWNER))]

  lemma SecondReached()
    ensures Reaches(SECONDED, Owned1(PEOPLE, false, SECOND))
  {
    SetUp();
    LevelMode(SETUP, map[]);
    var a := Owned1(PEOPLE, false, map[]);
    OwnerRules(NOBODY, false, map[]);
    Reached(SETUP + [Now(SetAxxflags("#x", "o", false))], a, AddAccess("#x", "o", false, "b", CHLEV_COOWNER));
    OtherOrder(Grant(CHLEV_COOWNER, CHANCOOWNER, 1, false));
  }

  /** What is left when the owner has gone; b may go on as co-owner. */
  function Ownerless(axxflags: bool, rel: map<(Name, Name), Grant>): Acl {
    Acl(PEOPLE, map["#x" := Info("o", axxflags, false)], rel[("#x", "b") := SECOND[("#x", "b")]], map[])
  }

  lemma OwnerGoes()
    ensures var a := Owned1(PEOPLE, false, SECOND);
      Acyclic(a.links) && Step(LV, NOBODY, a, DelAccess("#x", "o", true, false, "o")) == Ownerless(false, map[])
  {
    OwnerRules(NOBODY, false, SECOND);
    assert Owned1(PEOPLE, false, SECOND).rel - {("#x", "o")} == Ownerless(false, map[]).rel;
  }

  lemma FlagModeAgain()
    ensures var a := Ownerless(false, map[]);
      Acyclic(a.links) && Step(LV, NOBODY, a, SetAxxflags("#x", "b", true)) == Ownerless(true, map[])
  {
    NoLinks();
    var a := Ownerless(false, map[]);
    assert IsFounder(a, NOBODY, "#x", "b");
    assert a.chans["#x" := a.chans["#x"].(axxflags := true)] == Ownerless(true, map[]).chans;
  }

  lemma CoownerFlags()
    ensures Has(CHANCOOWNER, COOWNER) && Has(CHANCOOWNER, ACL)
  {
  }

  lemma OwnerGiven()
    ensures var a, r := Ownerless(true, map[]), Ownerless(true, map[("#x", "o") := Grant(0, TOPIC, 1, false)]);
      Acyclic(a.links) && Step(LV, NOBODY, a, ChangeFlags("#x", "b", "o", true, TOPIC)) == r
  {
    NoLinks();
    CoownerFlags();
    LessFlags();
    var a := Ownerless(true, map[]);
    assert IsFounder(a, NOBODY, "#x", "b");
    assert MayChange(LV, NOBODY, a, "#x", "b", "o", true, TOPIC);
    assert map[("#x", "b") := SECOND[("#x", "b")]][("#x", "o") := Grant(0, TOPIC, 1, false)]
      == map[("#x", "o") := Grant(0, TOPIC, 1, false)][("#x", "b") := SECOND[("#x", "b")]];
  }

  /** The owner deletes itself in level mode, and the co-owner gives it a flag in flag mode. The row of that entry
      collides with the entry that is made with the channel, and the next program does not start. */
  lemma OwnerComesBack()
    ensures Reaches(SECONDED, Owned1(PEOPLE, false, SECOND))
    ensures var a := Owned1(PEOPLE, false, SECOND);
      && Acyclic(a.links)
      && (var b := Step(LV, NOBODY, a, DelAccess("#x", "o", true, false, "o"));
        && Acyclic(b.links)
        && (var c := Step(LV, NOBODY, b, SetAxxflags("#x", "b", true));
          && Acyclic(c.links)
          && Step(LV, NOBODY, c, ChangeFlags("#x", "b", "o", true, TOPIC)) == AclOf(BACKDB)))
    ensures NeverStarts(BACKDB)
  {
    SecondReached();
    OwnerGoes();
    FlagModeAgain();
    OwnerGiven();
    LessFlags();
    assert BACKDB.users.Keys == PEOPLE;
    assert ("#x", "o") in Database.Below(BACKDB.access);
    Unloadable(BACKDB);
  }

  const BACKDB := LESSDB.(access := map[("#x", "o") := Grant(0, TOPIC, 1, false)][("#x", "b") := SECOND[("#x", "b")]])
}
