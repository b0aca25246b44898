/** What one status letter of a MODE line does to the members of the channel, and who is entitled to what. */
module Letters {
  import opened Wrappers
  import opened Uflags
  import opened Access
  import opened Mode
  import opened Decisions

  /** q is for owners, a for the protected, o for ops, h for half ops and v for voices. */
  predicate StandsFor(letter: char, s: Status) {
    || (letter == 'q' && s == Owner)
    || (letter == 'a' && s == Protect)
    || (letter == 'o' && s == Op)
    || (letter == 'h' && s == Halfop)
    || (letter == 'v' && s == Voice)
  }

  /** The nick whose level is the one that bars every status. */
  predicate Barred(x: Context, n: Id)
    requires Mode.Sound(x)
  {
    Account(x, n).Some? && Account(x, n).value in x.authed && LevelOf(x, n) == x.lv.nostatus
  }

  /** The next argument names a nick online. */
  predicate Names(x: Context, args: seq<Name>, i: nat, n: Id) {
    i < |args| && args[i] in x.online && x.online[args[i]] == n
  }

  /** One status of one member has changed, or not even that. */
  predicate OnlyOne(before: Members, after: Members, n: Id, s: Status) {
    && after.Keys == before.Keys
    && (forall m :: m in before && m != n ==> after[m] == before[m])
    && (n in before ==> after[n] - {s} == before[n] - {s})
  }

  /** A status letter after a plus sign gives its status to the member its argument names, except one whose level bars
      it and, on a registered channel and but for voice, one who is not entitled to it where STRICTOP is on or who
      wants to be op all alone. */
  lemma LetterGives(x: Context, args: seq<Name>, t: Scan, front: string, letter: char, s: Status, n: Id)
    requires Mode.Sound(x) && !Folded(x, args, t, front).fault && StandsFor(letter, s) && Sign(t.plus, front)
    requires Names(x, args, t.cursor + Arguments(front), n) && n in t.flags
    ensures var before, after := Folded(x, args, t, front), Folded(x, args, t, front + [letter]);
      && !after.fault && OnlyOne(before.flags, after.flags, n, s)
      && (n in after.flags && s in after.flags[n] <==>
        && !Barred(x, n)
        && !(Registered(x) && s != Voice && !Entitled(x, n, s) && (x.strictop || (s == Op && t.flags.Keys == {n}))))
  {
    Last(x, args, t, front, letter);
    SameMembers(x, args, t, front);
    Given(x, Folded(x, args, t, front).flags, s, args[t.cursor + Arguments(front)], n);
  }

  lemma Given(x: Context, flags: Members, s: Status, arg: Name, n: Id)
    requires Mode.Sound(x) && n in flags && arg in x.online && x.online[arg] == n
    ensures var r := Give(x, flags, s, Some(arg));
      && OnlyOne(flags, r, n, s)
      && (s in r[n] <==>
        && !Barred(x, n)
        && !(Registered(x) && s != Voice && !Entitled(x, n, s) && (x.strictop || (s == Op && flags.Keys == {n}))))
  {
    OnlyMember(flags, n);
  }

  /** After a minus sign it takes the status away, with two exceptions on a registered channel: op and protection of the
      bot of the channel stay as they are, and with PROTECTOPS whoever is entitled to be owner, protected or op is or
      stays so, unless it is the sender itself. */
  lemma LetterTakes(x: Context, args: seq<Name>, t: Scan, front: string, letter: char, s: Status, n: Id)
    requires Mode.Sound(x) && !Folded(x, args, t, front).fault && StandsFor(letter, s) && !Sign(t.plus, front)
    requires Names(x, args, t.cursor + Arguments(front), n) && n in t.flags
    ensures var before, after := Folded(x, args, t, front), Folded(x, args, t, front + [letter]);
      var bot := Registered(x) && s in {Protect, Op} && args[t.cursor + Arguments(front)] == x.bot;
      && !after.fault && OnlyOne(before.flags, after.flags, n, s)
      && (bot ==> after.flags == before.flags)
      && (!bot ==> (n in after.flags && s in after.flags[n] <==>
        && Registered(x) && x.protectops && s in {Owner, Protect, Op}
        && Account(x, n) != Some(x.sender) && Entitled(x, n, s)))
  {
    Last(x, args, t, front, letter);
    SameMembers(x, args, t, front);
    assert StatusOf(letter) == Some(s);
    Taken(x, Folded(x, args, t, front).flags, s, args[t.cursor + Arguments(front)], n);
  }

  lemma Taken(x: Context, flags: Members, s: Status, arg: Name, n: Id)
    requires Mode.Sound(x) && n in flags && arg in x.online && x.online[arg] == n
    ensures var r := Remove(x, flags, s, arg);
      var bot := Registered(x) && s in {Protect, Op} && arg == x.bot;
      && OnlyOne(flags, r, n, s)
      && (bot ==> r == flags)
      && (!bot ==> (s in r[n] <==>
        && Registered(x) && x.protectops && s in {Owner, Protect, Op}
        && Account(x, n) != Some(x.sender) && Entitled(x, n, s)))
  {
  }

  lemma Last(x: Context, args: seq<Name>, t: Scan, front: string, letter: char)
    requires Mode.Sound(x)
    ensures Folded(x, args, t, front + [letter]) == Turn(x, args, Folded(x, args, t, front), letter)
    ensures !Folded(x, args, t, front).fault ==>
      var r := Folded(x, args, t, front); r.cursor == t.cursor + Arguments(front) && r.plus == Sign(t.plus, front)
  {
    assert (front + [letter])[..|front|] == front;
    if !Folded(x, args, t, front).fault {
      CursorCounts(x, args, t, front);
    }
  }

  lemma OnlyMember(flags: Members, n: Id)
    requires n in flags
    ensures |flags| == 1 <==> flags.Keys == {n}
  {
    assert |flags| == |flags.Keys|;
    if |flags.Keys| == 1 {
      forall m | m in flags
        ensures m == n
      {
        if m != n {
          assert {m, n} <= flags.Keys;
          Subset({m, n}, flags.Keys);
        }
      }
    }
  }

  lemma {:induction false} Subset<T>(a: set<T>, b: set<T>)
    requires a <= b
    ensures |a| <= |b|
  {
    if a != {} {
      var e :| e in a;
      Subset(a - {e}, b - {e});
    }
  }

  /** Any other letter, and a status letter whose argument names no member, leaves everybody as they are; so does one
      whose argument is missing. */
  lemma LetterIdle(x: Context, args: seq<Name>, t: Scan, front: string, letter: char)
    requires Mode.Sound(x)
    requires forall s, n :: StandsFor(letter, s) && Names(x, args, t.cursor + Arguments(front), n) ==> n !in t.flags
    ensures Folded(x, args, t, front + [letter]).flags == Folded(x, args, t, front).flags
  {
    Last(x, args, t, front, letter);
    SameMembers(x, args, t, front);
    var i := t.cursor + Arguments(front);
    if !Folded(x, args, t, front).fault && StatusOf(letter).Some? && i < |args| && args[i] in x.online {
      assert StandsFor(letter, StatusOf(letter).value) && Names(x, args, i, x.online[args[i]]);
    }
  }

  /** The letters that move on to the next argument, and those that change the sign. */
  lemma LettersCounted(front: string, letter: char, plus: bool)
    ensures Arguments(front + [letter]) == Arguments(front) + if letter in "qaohvbeIfjklL" then 1 else 0
    ensures Sign(plus, front + [letter]) == if letter == '+' then true else if letter == '-' then false else Sign(plus, front)
  {
    assert (front + [letter])[..|front|] == front;
    assert letter in "qaohvbeIfjklL" <==> StatusOf(letter).Some? || letter in "beIfjklL";
  }

  /** A line of one letter, on a channel that is not registered: the status is given or taken. */
  lemma OneLetter(x: Context, who: Name, flags: Members, plus: bool, letter: char, s: Status)
    requires Mode.Sound(x) && !Registered(x) && StandsFor(letter, s)
    requires who in x.online && x.online[who] in flags && !Barred(x, x.online[who])
    ensures var n := x.online[who];
      Line(x, [who], flags, [if plus then '+' else '-', letter]) ==
        Scan(plus, 1, flags[n := if plus then flags[n] + {s} else flags[n] - {s}], false)
  {
    var n, t := x.online[who], Scan(plus, 0, flags, false);
    OneFolded(x, who, t, letter);
    if plus {
      LetterGives(x, [who], t, "", letter, s, n);
    } else {
      LetterTakes(x, [who], t, "", letter, s, n);
    }
    CursorCounts(x, [who], t, "" + [letter]);
    LettersCounted("", letter, plus);
    OnlyThisOne(flags, Folded(x, [who], t, "" + [letter]).flags, n, s, plus);
  }

  lemma OneFolded(x: Context, who: Name, t: Scan, letter: char)
    requires Mode.Sound(x) && t == Scan(t.plus, 0, t.flags, false)
    ensures Folded(x, [who], t, "") == t
    ensures Line(x, [who], t.flags, [if t.plus then '+' else '-', letter]) == Folded(x, [who], t, "" + [letter])
  {
    assert [if t.plus then '+' else '-', letter][1..] == "" + [letter];
  }

  lemma OnlyThisOne(before: Members, after: Members, n: Id, s: Status, plus: bool)
    requires OnlyOne(before, after, n, s) && n in before && (s in after[n] <==> plus)
    ensures after == before[n := if plus then before[n] + {s} else before[n] - {s}]
  {
    assert after[n] - {s} == before[n] - {s};
    assert after[n] == if plus then (after[n] - {s}) + {s} else after[n] - {s};
    assert before[n] + {s} == (before[n] - {s}) + {s};
  }

  // ----- Who is entitled.

  /** The privilege that goes with a status. */
  predicate GoesWith(s: Status, p: Privilege) {
    (s == Protect && p == CanProtect) || (s == Op && p == CanOp) || (s == Halfop && p == CanHalfop)
  }

  /** On a channel in level mode that is not suspended, and without super administrators, whoever is identified is
      entitled to be protected, op or half op exactly when the services say it can be, and to be owner when a founder. */
  lemma EntitledInLevelMode(x: Context, n: Id, s: Status, p: Privilege, u: Name)
    requires Mode.Sound(x) && Registered(x) && !x.acl.chans[x.chan].axxflags && !x.acl.chans[x.chan].suspended
    requires x.staff == Staff({}, {}) && GoesWith(s, p) && Level(x.lv, p) > 0
    requires Account(x, n) == Some(u)
    ensures Entitled(x, n, s) <==> u in x.authed && ChannelCan(p, x.lv, x.acl, x.staff, x.chan, u)
  {
    LevelDecidedBy(x.acl, x.staff, x.chan, u);
    ChannelCanDecidedBy(p, x.lv, x.acl, x.staff, x.chan, u);
    assert Staff(x.staff.supermodes, x.staff.supermodes) == x.staff;
  }

  /** In flag mode the two differ: it is the level of the entry that entitles, which no flag command sets, so that whoever
      has the flag but level 0 can be op and is not entitled to it. */
  lemma EntitledInFlagMode(x: Context, n: Id, s: Status, p: Privilege, u: Name)
    requires Mode.Sound(x) && Registered(x) && x.acl.chans[x.chan].axxflags && !x.acl.chans[x.chan].suspended
    requires x.staff == Staff({}, {}) && GoesWith(s, p) && Level(x.lv, p) > 0
    requires Account(x, n) == Some(u) && (x.chan, u) in x.acl.rel && !x.acl.rel[(x.chan, u)].suspended
    ensures var g := x.acl.rel[(x.chan, u)];
      && (Entitled(x, n, s) <==> u in x.authed && g.level >= Level(x.lv, p))
      && (ChannelCan(p, x.lv, x.acl, x.staff, x.chan, u) <==> Has(g.uflags, Flags(p) | OWNER | COOWNER))
  {
    OwnEntrySays(p, x.lv, x.acl, x.staff, x.chan, u);
  }

  /** So with STRICTOP such a member is refused op, however often it is given. */
  lemma FlagHolderRefused(x: Context, args: seq<Name>, t: Scan, front: string, n: Id, u: Name)
    requires Mode.Sound(x) && Registered(x) && x.acl.chans[x.chan].axxflags && !x.acl.chans[x.chan].suspended
    requires x.staff == Staff({}, {}) && x.lv.op > 0 && x.strictop
    requires Account(x, n) == Some(u) && (x.chan, u) in x.acl.rel && !x.acl.rel[(x.chan, u)].suspended
    requires x.acl.rel[(x.chan, u)].level < x.lv.op && Has(x.acl.rel[(x.chan, u)].uflags, OP)
    requires !Folded(x, args, t, front).fault && Sign(t.plus, front)
    requires Names(x, args, t.cursor + Arguments(front), n) && n in t.flags
    ensures ChannelCan(CanOp, x.lv, x.acl, x.staff, x.chan, u)
    ensures var r := Folded(x, args, t, front + ['o']); n in r.flags && Op !in r.flags[n]
  {
    HasAny(x.acl.rel[(x.chan, u)].uflags, OP);
    EntitledInFlagMode(x, n, Op, CanOp, u);
    LetterGives(x, args, t, front, 'o', Op, n);
    SameMembers(x, args, t, front + ['o']);
  }

  /** Whoever is barred: on a channel that is not registered a level is that of the highest for whoever has the mode of a
      super administrator, and 0 for others. */
  lemma BarredUnregistered(x: Context, n: Id)
    requires Mode.Sound(x) && !Registered(x)
    ensures Barred(x, n) <==>
      && Account(x, n).Some? && Account(x, n).value in x.authed
      && x.lv.nostatus == if Account(x, n).value in x.staff.supermodes then 10000 else 0
  {
  }

  /** Owners are founders that are identified; voice is for whoever is. */
  lemma EntitledOthers(x: Context, n: Id)
    requires Mode.Sound(x)
    ensures Entitled(x, n, Voice) <==> Account(x, n).Some? && Account(x, n).value in x.authed
    ensures Entitled(x, n, Owner) <==>
      && Account(x, n).Some? && Account(x, n).value in x.authed && Registered(x)
      && var found := FindCflagRecursive(x.acl, x.chan, Account(x, n).value);
        found.Some? && (x.chan, found.value) in x.acl.rel
        && (found.value in x.staff.supermodes || Founds(x.acl, x.chan, found.value))
  {
    if Account(x, n).Some? && Registered(x) {
      FounderDecidedBy(x.acl, x.staff, x.chan, Account(x, n).value);
    }
  }
}
