/** Saving the registries and loading them again. Values are taken to survive the trip through SQL. The entries of
    owners are not saved: they are made anew with their channels. */
module Database {
  import opened Wrappers
  import opened Tables
  import opened Uflags
  import opened Access
  import opened Ownership

  datatype User = User(level: int, lastseen: int, vhost: string, md5Pass: string, pwhash: string, options: int,
                       timeout: int, email: string, regtime: int)

  datatype Chan = Chan(owner: Name, entrymsg: string, options: bv32, mlock: string, autolimit: int, lastseen: int,
                       regtime: int, topic: string)

  datatype Bot = Bot(ident: string, host: string)

  type Entries = map<(Name, Name), Grant>

  /** `links` goes from slave to master, `chanbots` from a channel to the bot that is assigned to it. */
  datatype Db = Db(users: map<Name, User>, links: map<Name, Name>, trusts: map<Name, int>, chans: map<Name, Chan>,
                   access: Entries, bots: map<Name, Bot>, chanbots: map<Name, Name>)

  const TIMEOUT_DFLT := 60
  const EMPTY := Db(map[], map[], map[], map[], map[], map[], map[])

  datatype Saves = Saves(users: seq<Row<Name, User>>, links: seq<Row<Name, Name>>, trusts: seq<Row<Name, int>>,
                         chans: seq<Row<Name, Chan>>, cflags: seq<Row<(Name, Name), Grant>>, bots: seq<Row<Name, Bot>>,
                         chanbots: seq<Row<Name, Name>>)

  // ----- What becomes of a row.

  function UserAgain(u: User): User {
    u.(timeout := if u.timeout != 0 then u.timeout else TIMEOUT_DFLT)
  }

  function ChanAgain(now: int, c: Chan): Chan {
    c.(lastseen := if c.lastseen == 0 then now else c.lastseen)
  }

  function GrantAgain(lv: Levels, g: Grant): Grant {
    NewGrant(lv, g.level, g.uflags).(automode := g.automode, suspended := g.suspended)
  }

  /** load_one_user. */
  function UserRow(): (Name, User) -> Outcome<User> {
    (_, u) => Taken(UserAgain(u))
  }

  /** load_one_link. */
  function LinkRow(users: set<Name>): (Name, Name) -> Outcome<Name> {
    (slave, master) => if master in users && slave in users then Taken(master) else Refused
  }

  /** load_one_trust. */
  function TrustRow(): (Name, int) -> Outcome<int> {
    (_, limit) => Taken(limit)
  }

  /** load_one_chan, with CreateChannel; `now` is the time. */
  function ChanRow(now: int, users: set<Name>): (Name, Chan) -> Outcome<Chan> {
    (_, c: Chan) => if c.owner in users then Taken(ChanAgain(now, c)) else Refused
  }

  /** The entries that CreateChannel makes. */
  function OwnersOf(chans: map<Name, Chan>): Entries {
    map k | k in OwnerKeys(chans) :: OWNERS
  }

  function OwnerKeys(chans: map<Name, Chan>): set<(Name, Name)> {
    set c | c in chans :: (c, chans[c].owner)
  }

  /** load_one_cflag. */
  function CflagRow(lv: Levels, users: set<Name>, chans: set<Name>): ((Name, Name), Grant) -> Outcome<Grant> {
    (k: (Name, Name), g: Grant) =>
      if g.level == CHLEV_OWNER then PassedOver
      else if g.level > CHLEV_OWNER || k.0 !in chans || k.1 !in users then Refused
      else Taken(GrantAgain(lv, g))
  }

  /** load_one_botserv_bot. */
  function BotRow(): (Name, Bot) -> Outcome<Bot> {
    (_, b) => Taken(b)
  }

  /** load_one_botserv_chan. */
  function ChanbotRow(bots: set<Name>, chans: set<Name>): (Name, Name) -> Outcome<Name> {
    (c, b) => if b in bots && c in chans then Taken(b) else Refused
  }

  /** load_all_db. */
  function LoadAll(lv: Levels, now: int, t: Saves): Option<Db> {
    match LoadRows(UserRow(), map[], t.users)
    case None => None
    case Some(users) =>
      match LoadRows(LinkRow(users.Keys), map[], t.links)
      case None => None
      case Some(links) =>
        match LoadRows(TrustRow(), map[], t.trusts)
        case None => None
        case Some(trusts) => LoadChannels(lv, now, Db(users, links, trusts, map[], map[], map[], map[]), t)
  }

  /** The second half of load_all_db. */
  function LoadChannels(lv: Levels, now: int, d: Db, t: Saves): Option<Db> {
    match LoadRows(ChanRow(now, d.users.Keys), map[], t.chans)
    case None => None
    case Some(chans) =>
      match LoadRows(CflagRow(lv, d.users.Keys, chans.Keys), OwnersOf(chans), t.cflags)
      case None => None
      case Some(access) => LoadBots(d.(chans := chans, access := access), t)
  }

  function LoadBots(d: Db, t: Saves): Option<Db> {
    match LoadRows(BotRow(), map[], t.bots)
    case None => None
    case Some(bots) =>
      match LoadRows(ChanbotRow(bots.Keys, d.chans.Keys), map[], t.chanbots)
      case None => None
      case Some(chanbots) => Some(d.(bots := bots, chanbots := chanbots))
  }

  // ----- What is saved, and when it can be loaded.

  /** The entries that are saved. */
  function Below(access: Entries): Entries {
    map k | k in access && access[k].level < CHLEV_OWNER :: access[k]
  }

  ghost predicate SavedAs(d: Db, t: Saves) {
    Saved(d.users, t.users) && Saved(d.links, t.links) && Saved(d.trusts, t.trusts) && Saved(d.chans, t.chans)
    && Saved(Below(d.access), t.cflags) && Saved(d.bots, t.bots) && Saved(d.chanbots, t.chanbots)
  }

  /** Both ends of a link are accounts. */
  predicate LinksKnown(d: Db) {
    forall s :: s in d.links ==> d.links[s] in d.users && s in d.users
  }

  predicate OwnersKnown(d: Db) {
    forall c :: c in d.chans ==> d.chans[c].owner in d.users
  }

  /** Both ends of an entry below the level of an owner are registered, and it is not that of the channel's own owner. */
  predicate EntriesKnown(d: Db) {
    forall k :: k in Below(d.access) ==> EntryKnown(d, k)
  }

  predicate EntryKnown(d: Db, k: (Name, Name)) {
    k.0 in d.chans && k.1 in d.users && k.1 != d.chans[k.0].owner
  }

  /** Only bots are assigned, and only to channels. */
  predicate BotsKnown(d: Db) {
    forall c :: c in d.chanbots ==> c in d.chans && d.chanbots[c] in d.bots
  }

  predicate Loadable(d: Db) {
    LinksKnown(d) && OwnersKnown(d) && EntriesKnown(d) && BotsKnown(d)
  }

  /** The registries as they are after being saved and loaded. */
  function Reloaded(lv: Levels, now: int, d: Db): Db {
    d.(users := UsersAgain(d.users), chans := ChansAgain(now, d.chans), access := EntriesAgain(lv, d.chans, d.access))
  }

  function UsersAgain(users: map<Name, User>): map<Name, User> {
    map u | u in users :: UserAgain(users[u])
  }

  function ChansAgain(now: int, chans: map<Name, Chan>): map<Name, Chan> {
    map c | c in chans :: ChanAgain(now, chans[c])
  }

  function BelowAgain(lv: Levels, access: Entries): Entries {
    map k | k in Below(access) :: GrantAgain(lv, access[k])
  }

  function EntriesAgain(lv: Levels, chans: map<Name, Chan>, access: Entries): Entries {
    OwnersOf(chans) + BelowAgain(lv, access)
  }

  lemma UsersLoaded(users: map<Name, User>, rows: seq<Row<Name, User>>)
    requires Saved(users, rows)
    ensures LoadRows(UserRow(), map[], rows) == Some(UsersAgain(users))
  {
    LoadsNew(UserRow(), users, rows, UsersAgain(users));
  }

  lemma LinksLoaded(d: Db, rows: seq<Row<Name, Name>>)
    requires Saved(d.links, rows)
    ensures var t := LoadRows(LinkRow(d.users.Keys), map[], rows);
      && (t.Some? <==> LinksKnown(d))
      && (t.Some? ==> t.value == d.links)
  {
    LoadsNew(LinkRow(d.users.Keys), d.links, rows, d.links);
  }

  lemma TrustsLoaded(trusts: map<Name, int>, rows: seq<Row<Name, int>>)
    requires Saved(trusts, rows)
    ensures LoadRows(TrustRow(), map[], rows) == Some(trusts)
  {
    LoadsNew(TrustRow(), trusts, rows, trusts);
  }

  lemma ChansLoaded(now: int, d: Db, rows: seq<Row<Name, Chan>>)
    requires Saved(d.chans, rows)
    ensures var t := LoadRows(ChanRow(now, d.users.Keys), map[], rows);
      && (t.Some? <==> OwnersKnown(d))
      && (t.Some? ==> t.value == ChansAgain(now, d.chans))
  {
    LoadsNew(ChanRow(now, d.users.Keys), d.chans, rows, ChansAgain(now, d.chans));
  }

  lemma SameOwners(chans: map<Name, Chan>, again: map<Name, Chan>)
    requires again.Keys == chans.Keys && forall c :: c in chans ==> again[c].owner == chans[c].owner
    ensures OwnersOf(again) == OwnersOf(chans)
  {
    assert OwnerKeys(again) == OwnerKeys(chans);
  }

  lemma OwnersOfHas(chans: map<Name, Chan>, k: (Name, Name))
    ensures k in OwnersOf(chans) <==> k.0 in chans && k.1 == chans[k.0].owner
  {
    if k.0 in chans && k.1 == chans[k.0].owner {
      assert (k.0, chans[k.0].owner) in OwnerKeys(chans);
    }
  }

  lemma CflagsLoaded(lv: Levels, d: Db, rows: seq<Row<(Name, Name), Grant>>)
    requires Saved(Below(d.access), rows)
    ensures var t := LoadRows(CflagRow(lv, d.users.Keys, d.chans.Keys), OwnersOf(d.chans), rows);
      && (t.Some? <==> EntriesKnown(d))
      && (t.Some? ==> t.value == EntriesAgain(lv, d.chans, d.access))
  {
    var load, below := CflagRow(lv, d.users.Keys, d.chans.Keys), Below(d.access);
    LoadsAs(load, OwnersOf(d.chans), below, rows, BelowAgain(lv, d.access));
    forall k | k in below
      ensures Fits(load, OwnersOf(d.chans), k, below[k]) <==> EntryKnown(d, k)
    {
      OwnersOfHas(d.chans, k);
    }
  }

  lemma BotsLoaded(d: Db, t: Saves)
    requires Saved(d.bots, t.bots) && Saved(d.chanbots, t.chanbots)
    ensures var r := LoadBots(d.(bots := map[], chanbots := map[]), t);
      && (r.Some? <==> BotsKnown(d))
      && (r.Some? ==> r.value == d)
  {
    LoadsNew(BotRow(), d.bots, t.bots, d.bots);
    LoadsNew(ChanbotRow(d.bots.Keys, d.chans.Keys), d.chanbots, t.chanbots, d.chanbots);
  }

  lemma EntriesLoaded(lv: Levels, now: int, d: Db, t: Saves)
    requires SavedAs(d, t)
    ensures var e := Reloaded(lv, now, d);
      var r := LoadRows(CflagRow(lv, e.users.Keys, e.chans.Keys), OwnersOf(e.chans), t.cflags);
      && (r.Some? <==> EntriesKnown(d))
      && (r.Some? ==> r.value == e.access)
  {
    var e := Reloaded(lv, now, d);
    assert e.users.Keys == d.users.Keys && e.chans.Keys == d.chans.Keys;
    SameOwners(d.chans, e.chans);
    CflagsLoaded(lv, d, t.cflags);
  }

  lemma BotsLoadedAgain(lv: Levels, now: int, d: Db, t: Saves)
    requires SavedAs(d, t)
    ensures var e := Reloaded(lv, now, d);
      var r := LoadBots(e.(bots := map[], chanbots := map[]), t);
      (r.Some? <==> BotsKnown(d)) && (r.Some? ==> r.value == e)
  {
    var e := Reloaded(lv, now, d);
    BotsLoaded(e, t);
    assert e.chans.Keys == d.chans.Keys;
    assert BotsKnown(e) <==> BotsKnown(d);
  }

  lemma ChannelsLoaded(lv: Levels, now: int, d: Db, start: Db, t: Saves)
    requires SavedAs(d, t)
    requires start == Db(UsersAgain(d.users), d.links, d.trusts, map[], map[], map[], map[])
    ensures var r := LoadChannels(lv, now, start, t);
      && (r.Some? <==> OwnersKnown(d) && EntriesKnown(d) && BotsKnown(d))
      && (r.Some? ==> r.value == Reloaded(lv, now, d))
  {
    var e := Reloaded(lv, now, d);
    assert start.users.Keys == d.users.Keys;
    ChansLoaded(now, d, t.chans);
    EntriesLoaded(lv, now, d, t);
    BotsLoadedAgain(lv, now, d, t);
    assert start.(chans := e.chans, access := e.access) == e.(bots := map[], chanbots := map[]);
  }

  /** Whatever the registries and in whatever order the rows come back: what was saved is loaded exactly when it is
      loadable, and then the registries are these. */
  lemma LoadsReloaded(lv: Levels, now: int, d: Db, t: Saves)
    requires SavedAs(d, t)
    ensures LoadAll(lv, now, t).Some? <==> Loadable(d)
    ensures Loadable(d) ==> LoadAll(lv, now, t) == Some(Reloaded(lv, now, d))
  {
    UsersLoaded(d.users, t.users);
    assert UsersAgain(d.users).Keys == d.users.Keys;
    LinksLoaded(d, t.links);
    TrustsLoaded(d.trusts, t.trusts);
    if LoadRows(LinkRow(d.users.Keys), map[], t.links).Some? {
      ChannelsLoaded(lv, now, d, Db(UsersAgain(d.users), d.links, d.trusts, map[], map[], map[], map[]), t);
    }
  }

  /** A row at the level of an owner changes nothing, wherever it stands in the table; one above that, or of a channel or a
      user that is not registered, has the whole table refused. */
  lemma CflagRowExactly(lv: Levels, users: set<Name>, chans: set<Name>, access: Entries, front: seq<Row<(Name, Name), Grant>>,
                        r: Row<(Name, Name), Grant>, back: seq<Row<(Name, Name), Grant>>)
    ensures var load := CflagRow(lv, users, chans);
      && (r.value.level == 10000 ==> LoadRows(load, access, front + [r] + back) == LoadRows(load, access, front + back))
      && (r.value.level > 10000 || (r.value.level < 10000 && (r.key.0 !in chans || r.key.1 !in users)) ==>
        LoadRows(load, access, front + [r] + back).None?)
  {
    OneRow(CflagRow(lv, users, chans), access, front, r, back);
  }

  /** What comes back, item by item. */
  lemma ReloadedExactly(lv: Levels, now: int, d: Db)
    ensures var r := Reloaded(lv, now, d);
      && r == d.(users := r.users, chans := r.chans, access := r.access)
      && r.users.Keys == d.users.Keys && r.chans.Keys == d.chans.Keys
      && (forall u :: u in d.users ==>
        r.users[u] == d.users[u].(timeout := if d.users[u].timeout == 0 then 60 else d.users[u].timeout))
      && (forall c :: c in d.chans ==>
        r.chans[c] == d.chans[c].(lastseen := if d.chans[c].lastseen == 0 then now else d.chans[c].lastseen))
  {
  }

  /** And the entries: those of the owners as they are made, and those below that level as they were. */
  lemma ReloadedEntries(lv: Levels, now: int, d: Db, k: (Name, Name))
    requires EntriesKnown(d)
    ensures var t, owner := Reloaded(lv, now, d).access, k.0 in d.chans && d.chans[k.0].owner == k.1;
      var kept := k in d.access && d.access[k].level < 10000;
      && (k in t <==> owner || kept)
      && (owner ==> t[k] == Grant(10000, CHANOWNER, 1, false))
      && (kept ==> var g := d.access[k]; t[k] == g.(uflags := if g.uflags == 0 then FlagsOfLevel(lv, g.level) else g.uflags))
  {
    OwnersOfHas(d.chans, k);
    if k in Below(d.access) {
      assert EntryKnown(d, k);
    }
  }

  // ----- The round trip.

  /** What a round trip keeps: a timeout of 0 becomes the default one, a channel never seen is seen now, an entry
      without flags is given those of its level, and whatever has been done to the entries of owners is undone. */
  predicate Faithful(d: Db) {
    && (forall u :: u in d.users ==> d.users[u].timeout != 0)
    && (forall c :: c in d.chans ==> d.chans[c].lastseen != 0)
    && FaithfulEntries(d)
  }

  /** Every owner has its entry as it was made, nobody else has one of that level, and all others have flags. */
  predicate FaithfulEntries(d: Db) {
    && (forall c :: c in d.chans ==> (c, d.chans[c].owner) in d.access && d.access[(c, d.chans[c].owner)] == OWNERS)
    && (forall k :: k in d.access && d.access[k].level >= CHLEV_OWNER ==> k.0 in d.chans && k.1 == d.chans[k.0].owner)
    && (forall k :: k in d.access && d.access[k].level < CHLEV_OWNER ==> d.access[k].uflags != 0)
  }

  lemma SameUsers(users: map<Name, User>)
    ensures UsersAgain(users) == users <==> forall u :: u in users ==> users[u].timeout != 0
  {
    if UsersAgain(users) == users {
      assert forall u :: u in users ==> UsersAgain(users)[u] == UserAgain(users[u]);
    }
  }

  lemma SameChans(now: int, chans: map<Name, Chan>)
    requires now != 0
    ensures ChansAgain(now, chans) == chans <==> forall c :: c in chans ==> chans[c].lastseen != 0
  {
    if ChansAgain(now, chans) == chans {
      assert forall c :: c in chans ==> ChansAgain(now, chans)[c] == ChanAgain(now, chans[c]);
    }
  }

  lemma SameGrant(lv: Levels, g: Grant)
    ensures GrantAgain(lv, g) == g <==> g.uflags != 0
  {
    OwnerFlags(lv, g.level);
  }

  /** An entry that comes back is an owner's as it was made, or one that was saved. */
  lemma EntryAgain(lv: Levels, d: Db, k: (Name, Name))
    requires Loadable(d)
    ensures var e := EntriesAgain(lv, d.chans, d.access);
      && (k in e <==> k in Below(d.access) || (k.0 in d.chans && k.1 == d.chans[k.0].owner))
      && (k in e && k !in Below(d.access) ==> e[k] == OWNERS)
      && (k in Below(d.access) ==> e[k].level == d.access[k].level && e[k].uflags != 0)
      && (k in Below(d.access) ==> (e[k] == d.access[k] <==> d.access[k].uflags != 0))
  {
    OwnersOfHas(d.chans, k);
    if k in Below(d.access) {
      OwnerFlags(lv, d.access[k].level);
      SameGrant(lv, d.access[k]);
    }
  }

  lemma SameEntries(lv: Levels, d: Db)
    requires Loadable(d)
    ensures EntriesAgain(lv, d.chans, d.access) == d.access <==> FaithfulEntries(d)
  {
    if EntriesAgain(lv, d.chans, d.access) == d.access {
      EntriesCameBack(lv, d);
    } else if FaithfulEntries(d) {
      EntriesComeBack(lv, d);
    }
  }

  lemma EntriesCameBack(lv: Levels, d: Db)
    requires Loadable(d) && EntriesAgain(lv, d.chans, d.access) == d.access
    ensures FaithfulEntries(d)
  {
    forall c | c in d.chans
      ensures (c, d.chans[c].owner) in d.access && d.access[(c, d.chans[c].owner)] == OWNERS
    {
      EntryAgain(lv, d, (c, d.chans[c].owner));
    }
    forall k | k in d.access
      ensures d.access[k].level >= CHLEV_OWNER ==> k.0 in d.chans && k.1 == d.chans[k.0].owner
      ensures d.access[k].level < CHLEV_OWNER ==> d.access[k].uflags != 0
    {
      EntryAgain(lv, d, k);
    }
  }

  lemma EntriesComeBack(lv: Levels, d: Db)
    requires Loadable(d) && FaithfulEntries(d)
    ensures EntriesAgain(lv, d.chans, d.access) == d.access
  {
    var e := EntriesAgain(lv, d.chans, d.access);
    forall k
      ensures (k in e <==> k in d.access) && (k in d.access ==> e[k] == d.access[k])
    {
      EntryAgain(lv, d, k);
    }
    assert e.Keys == d.access.Keys;
  }

  lemma SameAgain(lv: Levels, now: int, d: Db)
    requires Loadable(d) && now != 0
    ensures Reloaded(lv, now, d) == d <==> Faithful(d)
  {
    SameUsers(d.users);
    SameChans(now, d.chans);
    SameEntries(lv, d);
  }

  /** Saving and loading gives back the registries exactly when they can be loaded and nothing has to be made up. */
  lemma RoundTrip(lv: Levels, now: int, d: Db, t: Saves)
    requires SavedAs(d, t) && now != 0
    ensures LoadAll(lv, now, t) == Some(d) <==> Loadable(d) && Faithful(d)
  {
    LoadsReloaded(lv, now, d, t);
    if Loadable(d) {
      SameAgain(lv, now, d);
    }
  }

  lemma ReloadedLoadable(lv: Levels, now: int, d: Db)
    requires Loadable(d)
    ensures Loadable(Reloaded(lv, now, d))
  {
    var e := Reloaded(lv, now, d);
    forall k | k in Below(e.access)
      ensures EntryKnown(e, k)
    {
      EntryAgain(lv, d, k);
    }
  }

  lemma ReloadedFaithful(lv: Levels, now: int, d: Db)
    requires Loadable(d) && now != 0
    ensures Faithful(Reloaded(lv, now, d))
  {
    var e := Reloaded(lv, now, d);
    forall k | k in e.access
      ensures e.access[k].level < CHLEV_OWNER ==> e.access[k].uflags != 0
      ensures e.access[k].level >= CHLEV_OWNER ==> k.0 in d.chans && k.1 == d.chans[k.0].owner
    {
      EntryAgain(lv, d, k);
    }
    forall c | c in d.chans
      ensures (c, d.chans[c].owner) in e.access && e.access[(c, d.chans[c].owner)] == OWNERS
    {
      EntryAgain(lv, d, (c, d.chans[c].owner));
    }
  }

  /** What has been loaded once is never refused again and comes back as it is from every later save. */
  lemma ReloadedTwice(lv: Levels, now: int, later: int, d: Db, t: Saves)
    requires Loadable(d) && now != 0 && later != 0 && SavedAs(Reloaded(lv, now, d), t)
    ensures LoadAll(lv, later, t) == Some(Reloaded(lv, now, d))
  {
    ReloadedLoadable(lv, now, d);
    ReloadedFaithful(lv, now, d);
    RoundTrip(lv, later, Reloaded(lv, now, d), t);
  }

  // ----- The program.

  class Registries {
    var users: map<Name, User>
    var links: map<Name, Name>
    var trusts: map<Name, int>
    var chans: map<Name, Chan>
    var access: Entries
    var bots: map<Name, Bot>
    var chanbots: map<Name, Name>

    ghost function D(): Db
      reads this
    {
      Db(users, links, trusts, chans, access, bots, chanbots)
    }

    constructor ()
      ensures D() == EMPTY
    {
      users, links, trusts, chans, access, bots, chanbots := map[], map[], map[], map[], map[], map[], map[];
    }

    /** load_all_db: the tables one after the other, each row by row, up to the first error. */
    method LoadAllDb(lv: Levels, now: int, t: Saves) returns (ok: bool)
      requires D() == EMPTY
      modifies this
      ensures ok == LoadAll(lv, now, t).Some? && (ok ==> D() == LoadAll(lv, now, t).value)
    {
      ok, users := LoadTable(UserRow(), users, t.users);
      if !ok {
        return;
      }
      ok, links := LoadTable(LinkRow(users.Keys), links, t.links);
      if !ok {
        return;
      }
      ok, trusts := LoadTable(TrustRow(), trusts, t.trusts);
      if !ok {
        return;
      }
      ok := LoadChannelTables(lv, now, t);
    }

    /** The second half of load_all_db. */
    method LoadChannelTables(lv: Levels, now: int, t: Saves) returns (ok: bool)
      requires chans == map[] && access == map[] && bots == map[] && chanbots == map[]
      modifies this
      ensures var r := LoadChannels(lv, now, old(D()), t); ok == r.Some? && (ok ==> D() == r.value)
    {
      ok := LoadChanDb(now, t.chans);
      if !ok {
        return;
      }
      ok, access := LoadTable(CflagRow(lv, users.Keys, chans.Keys), access, t.cflags);
      if !ok {
        return;
      }
      ok, bots := LoadTable(BotRow(), bots, t.bots);
      if !ok {
        return;
      }
      ok, chanbots := LoadTable(ChanbotRow(bots.Keys, chans.Keys), chanbots, t.chanbots);
    }

    /** load_chan_db: CreateChannel makes the owner's entry with each channel. */
    method LoadChanDb(now: int, rows: seq<Row<Name, Chan>>) returns (ok: bool)
      requires chans == map[] && access == map[]
      modifies this`chans, this`access
      ensures var t := LoadRows(ChanRow(now, users.Keys), map[], rows);
        ok == t.Some? && (ok ==> chans == t.value && access == OwnersOf(t.value))
    {
      ghost var load := ChanRow(now, users.Keys);
      for i := 0 to |rows|
        invariant LoadRows(load, map[], rows[..i]) == Some(chans) && access == OwnersOf(chans)
      {
        assert rows[..i + 1][..i] == rows[..i];
        var name, c := rows[i].key, rows[i].value;
        if name in chans || c.owner !in users {
          Stuck(load, map[], rows, i + 1);
          return false;
        }
        OneMoreOwner(chans, name, ChanAgain(now, c));
        chans := chans[name := ChanAgain(now, c)];
        access := access[(name, c.owner) := OWNERS];
      }
      assert rows[..|rows|] == rows;
      return true;
    }

    /** savechandb, the table of entries: those of owners are passed over. */
    method SaveCflagDb() returns (rows: seq<Row<(Name, Name), Grant>>)
      ensures Saved(Below(access), rows)
    {
      rows := [];
      var left := access.Keys;
      while left != {}
        invariant left <= access.Keys && Distinct(rows)
        invariant forall i :: 0 <= i < |rows| ==>
          rows[i].key in access && rows[i].key !in left && rows[i].value == access[rows[i].key]
          && rows[i].value.level < CHLEV_OWNER
        invariant forall k :: k in access && k !in left && access[k].level < CHLEV_OWNER ==> Row(k, access[k]) in rows
        decreases |left|
      {
        var k :| k in left;
        left := left - {k};
        if access[k].level >= CHLEV_OWNER {
          continue;
        }
        rows := rows + [Row(k, access[k])];
      }
    }

    /** savealldb. */
    method SaveAllDb() returns (t: Saves)
      ensures SavedAs(D(), t)
    {
      var users' := SaveTable(users);
      var chans' := SaveTable(chans);
      var cflags := SaveCflagDb();
      var trusts' := SaveTable(trusts);
      var links' := SaveTable(links);
      var bots' := SaveTable(bots);
      var chanbots' := SaveTable(chanbots);
      return Saves(users', links', trusts', chans', cflags, bots', chanbots');
    }

    /** The program saves, and another one is started on its tables. It exits without having loaded them exactly when
        they are not loadable, and has the same registries exactly when besides nothing had to be made up. */
    method Restart(lv: Levels, now: int) returns (next: Registries, ok: bool)
      requires now != 0
      ensures fresh(next) && (ok <==> Loadable(D())) && (ok ==> next.D() == Reloaded(lv, now, D()))
      ensures ok && next.D() == D() <==> Loadable(D()) && Faithful(D())
    {
      var t := SaveAllDb();
      next := new Registries();
      ok := next.LoadAllDb(lv, now, t);
      LoadsReloaded(lv, now, D(), t);
      RoundTrip(lv, now, D(), t);
    }
  }

  lemma OneMoreOwner(chans: map<Name, Chan>, c: Name, chan: Chan)
    requires c !in chans
    ensures OwnersOf(chans[c := chan]) == OwnersOf(chans)[(c, chan.owner) := OWNERS]
  {
    var more := chans[c := chan];
    assert (c, more[c].owner) in OwnersOf(more);
    forall d | d in chans
      ensures (d, chans[d].owner) in OwnersOf(more)
    {
      assert more[d] == chans[d];
    }
  }
}
