/** Saving and loading in the middle of a run of commands: when the next program starts, and with what. */
module Restarts {
  import opened Uflags
  import opened Access
  import opened Ownership
  import opened FlagRuns
  import opened AccessRuns
  import opened Database
  import AccessExamples

  const COPT_SUSPENDED: bv32 := 0x0100
  const COPT_AXXFLAGS: bv32 := 0x4000

  /** The part of the registries that the commands on channels work on. */
  function AclOf(d: Db): Acl {
    Acl(d.users.Keys, map c | c in d.chans :: InfoOf(d.chans[c]), d.access, d.links)
  }

  function InfoOf(c: Chan): Info {
    Info(c.owner, Has(c.options, COPT_AXXFLAGS), Has(c.options, COPT_SUSPENDED))
  }

  lemma OwnedEntry(d: Db, k: (Name, Name))
    requires Owned(AclOf(d)) && k in d.access
    ensures k.0 in d.chans && k.1 in d.users && d.access[k].level <= CHLEV_OWNER
    ensures d.access[k].level == CHLEV_OWNER <==> k.1 == d.chans[k.0].owner
  {
    assert OnlyOwner(AclOf(d), k) && HasOwner(AclOf(d), k.0);
  }

  lemma OwnedChan(d: Db, c: Name)
    requires Owned(AclOf(d)) && c in d.chans
    ensures d.chans[c].owner in d.users && (c, d.chans[c].owner) in d.access
    ensures d.access[(c, d.chans[c].owner)].level == CHLEV_OWNER
  {
    assert HasOwner(AclOf(d), c);
  }

  /** Where every channel has its owner and no bot is missing, loading is refused exactly because of links whose slave is
      no account. */
  lemma OwnedLoads(d: Db)
    requires Owned(AclOf(d)) && BotsKnown(d)
    ensures Loadable(d) <==> SlavesKnown(AclOf(d))
  {
    forall c | c in d.chans
      ensures d.chans[c].owner in d.users
    {
      OwnedChan(d, c);
    }
    forall k | k in Below(d.access)
      ensures EntryKnown(d, k)
    {
      OwnedEntry(d, k);
    }
  }

  /** The entries then come back exactly when those of the owners are as they were made. */
  predicate OwnersUntouched(d: Db) {
    forall c :: c in d.chans && (c, d.chans[c].owner) in d.access ==> d.access[(c, d.chans[c].owner)] == OWNERS
  }

  lemma OwnedFaithful(d: Db)
    requires Owned(AclOf(d)) && NoEmptyEntries(AclOf(d))
    ensures FaithfulEntries(d) <==> OwnersUntouched(d)
  {
    forall c | c in d.chans
      ensures (c, d.chans[c].owner) in d.access
    {
      OwnedChan(d, c);
    }
    forall k | k in d.access
      ensures d.access[k].level >= CHLEV_OWNER ==> k.0 in d.chans && k.1 == d.chans[k.0].owner
    {
      OwnedEntry(d, k);
    }
  }

  /** After every run of safe commands from the start, whoever is online and whatever the configuration at each moment:
      the next program starts exactly when no link was made by a nick that has no account, it has the entries of the
      program before exactly when nobody has changed an owner's entry, and ownership and links are again as they
      should be, so that the run can go on. */
  lemma RestartAfterRun(run: seq<Moment>, d: Db, t: Saves, lv: Levels, now: int)
    requires Sound(AccessExamples.EMPTY) && Possible(AccessExamples.EMPTY, run)
    requires AclOf(d) == AccessRuns.After(AccessExamples.EMPTY, run) && BotsKnown(d) && SavedAs(d, t) && now != 0
    ensures var r := LoadAll(lv, now, t);
      && (r.Some? <==> SlavesKnown(AclOf(d)))
      && (r.Some? ==> (r.value.access == d.access <==> OwnersUntouched(d)))
      && (r.Some? ==> Sound(AclOf(r.value)) && AclOf(r.value).(rel := d.access) == AclOf(d))
  {
    AccessRuns.RunKeeps(AccessExamples.EMPTY, run);
    RunNotEmpty(AccessExamples.EMPTY, run);
    OwnedLoads(d);
    OwnedFaithful(d);
    LoadsReloaded(lv, now, d, t);
    if Loadable(d) {
      SameEntries(lv, d);
      SameAcl(lv, now, d);
      ReloadedOwned(lv, now, d);
    }
  }

  lemma SameAcl(lv: Levels, now: int, d: Db)
    ensures AclOf(Reloaded(lv, now, d)).(rel := d.access) == AclOf(d)
  {
    var a := AclOf(Reloaded(lv, now, d));
    assert a.users == d.users.Keys;
    assert a.chans == AclOf(d).chans;
  }

  lemma ReloadedOwned(lv: Levels, now: int, d: Db)
    requires Owned(AclOf(d)) && Loadable(d)
    ensures Owned(AclOf(Reloaded(lv, now, d)))
  {
    var t := AclOf(Reloaded(lv, now, d));
    SameAcl(lv, now, d);
    forall c | c in t.chans
      ensures HasOwner(t, c)
    {
      OwnerAgain(lv, now, d, c);
    }
    forall k | k in t.rel
      ensures k.0 in t.chans && k.1 in t.users && OnlyOwner(t, k)
    {
      EntryOwnedAgain(lv, now, d, k);
    }
  }

  lemma OwnerAgain(lv: Levels, now: int, d: Db, c: Name)
    requires Owned(AclOf(d)) && Loadable(d) && c in d.chans
    ensures HasOwner(AclOf(Reloaded(lv, now, d)), c)
  {
    OwnerFlags(lv, 0);
    OwnedChan(d, c);
    EntryAgain(lv, d, (c, d.chans[c].owner));
  }

  lemma EntryOwnedAgain(lv: Levels, now: int, d: Db, k: (Name, Name))
    requires Owned(AclOf(d)) && Loadable(d) && k in EntriesAgain(lv, d.chans, d.access)
    ensures var t := AclOf(Reloaded(lv, now, d)); k.0 in t.chans && k.1 in t.users && OnlyOwner(t, k)
  {
    EntryAgain(lv, d, k);
    if k in Below(d.access) {
      OwnedEntry(d, k);
      assert OnlyOwner(AclOf(d), k);
      OwnerFlags(lv, d.access[k].level);
    } else {
      OwnedChan(d, k.0);
    }
  }

  /** A run keeps the slaves of links accounts as long as every link is made under the name of an account. */
  ghost predicate LinkedByAccounts(a: Acl, run: seq<Moment>)
    requires Sound(a) && Possible(a, run)
    decreases |run|
  {
    run == [] || (!LinksNick(a, run[0].ev) && (NextSound(a, run); LinkedByAccounts(Next(a, run[0]), run[1..])))
  }

  lemma {:induction false} RunSlaves(a: Acl, run: seq<Moment>)
    requires Sound(a) && Possible(a, run) && SlavesKnown(a) && LinkedByAccounts(a, run)
    ensures SlavesKnown(AccessRuns.After(a, run))
    decreases |run|
  {
    if run != [] {
      NextSound(a, run);
      StepSlaves(run[0].lv, run[0].w, a, run[0].ev);
      RunSlaves(Next(a, run[0]), run[1..]);
    }
  }
}
