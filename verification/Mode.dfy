/** The MODE line of a channel: m_mode walks over the mode letters with one cursor into the arguments, jumping between
    its two loops at every change of sign. */
module Mode {
  import opened Wrappers
  import opened Access

  type Id = nat

  datatype Status = Owner | Protect | Op | Halfop | Voice

  /** What the line is read against: the access relation, the options of the channel, who is online under which name
      or UID, and the account find_account returns for each nick. */
  datatype Context = Context(lv: Levels, acl: Acl, staff: Staff, chan: Name, strictop: bool, protectops: bool, bot: Name,
                             online: map<Name, Id>, accounts: map<Id, Name>, authed: set<Name>, sender: Name)

  ghost predicate Sound(x: Context) {
    Acyclic(x.acl.links)
  }

  predicate Registered(x: Context) {
    x.chan in x.acl.chans
  }

  function Account(x: Context, n: Id): Option<Name> {
    if n in x.accounts then Some(x.accounts[n]) else None
  }

  /** GetFlag, for a nick that may have no account and a channel that may not be registered. */
  function LevelOf(x: Context, n: Id): int
    requires Sound(x)
  {
    match Account(x, n)
    case None => 0
    case Some(u) =>
      if Registered(x) then GetFlag(x.acl, x.staff, x.chan, u)
      else if u in x.staff.supermodes then CHLEV_OWNER
      else 0
  }

  predicate Authed(x: Context, n: Id) {
    Account(x, n).Some? && Account(x, n).value in x.authed
  }

  /** The account is identified, and is a founder or has the level that goes with the status. */
  predicate Entitled(x: Context, n: Id, s: Status)
    requires Sound(x)
  {
    Authed(x, n) && match s
      case Owner => Registered(x) && IsFounder(x.acl, x.staff, x.chan, Account(x, n).value)
      case Protect => LevelOf(x, n) >= x.lv.admin
      case Op => LevelOf(x, n) >= x.lv.op
      case Halfop => LevelOf(x, n) >= x.lv.halfop
      case Voice => true
  }

  type Members = map<Id, set<Status>>

  function Put(flags: Members, n: Id, s: Status): Members
    requires n in flags
  {
    flags[n := flags[n] + {s}]
  }

  function Take(flags: Members, n: Id, s: Status): Members
    requires n in flags
  {
    flags[n := flags[n] - {s}]
  }

  function StatusOf(letter: char): Option<Status> {
    match letter
    case 'q' => Some(Owner)
    case 'a' => Some(Protect)
    case 'o' => Some(Op)
    case 'h' => Some(Halfop)
    case 'v' => Some(Voice)
    case _ => None
  }

  /** The other letters that take an argument. */
  predicate TakesArgument(letter: char) {
    letter in "beIfjklL"
  }

  /** The services take a status they do not agree with away again. */
  predicate Refused(x: Context, flags: Members, n: Id, s: Status)
    requires Sound(x)
  {
    && Registered(x) && s != Voice && !Entitled(x, n, s)
    && (x.strictop || (s == Op && |flags| == 1))
  }

  /** A status letter after a plus sign. */
  function Give(x: Context, flags: Members, s: Status, arg: Option<Name>): Members
    requires Sound(x)
  {
    if arg.None? || arg.value !in x.online || x.online[arg.value] !in flags then flags
    else
      var n := x.online[arg.value];
      if (LevelOf(x, n) == x.lv.nostatus && Authed(x, n)) || Refused(x, flags, n, s) then Take(flags, n, s)
      else Put(flags, n, s)
  }

  /** A status letter after a minus sign, for a nick that is online. With PROTECTOPS a status somebody else takes from
      one who is entitled to it is given back. */
  function Remove(x: Context, flags: Members, s: Status, arg: Name): Members
    requires Sound(x) && arg in x.online
  {
    var n := x.online[arg];
    if s in {Protect, Op} && Registered(x) && x.bot == arg then flags
    else if n !in flags then flags
    else if s in {Owner, Protect, Op} && Registered(x) && Account(x, n) != Some(x.sender) && Entitled(x, n, s) && x.protectops
    then Put(flags, n, s)
    else Take(flags, n, s)
  }

  /** An element of the array of arguments: a word, the null pointer that ends the list, or memory that was never
      written. */
  datatype Argument = Word(name: Name) | Null | Unwritten

  function ArgumentAt(args: seq<Name>, i: nat): Argument {
    if i < |args| then Word(args[i]) else if i == |args| || i == 1 then Null else Unwritten
  }

  /** `fault`: the line has dereferenced a null pointer or read what was never written. */
  datatype Scan = Scan(plus: bool, cursor: nat, flags: Members, fault: bool)

  function Turn(x: Context, args: seq<Name>, t: Scan, letter: char): Scan
    requires Sound(x)
  {
    var s, arg := StatusOf(letter), ArgumentAt(args, t.cursor);
    if t.fault then t
    else if s.Some? then
      if arg == Unwritten then t.(fault := true)
      else if t.plus then
        t.(cursor := t.cursor + 1, flags := Give(x, t.flags, s.value, if arg.Word? then Some(arg.name) else None))
      else if arg == Null || arg.name !in x.online then t.(fault := true)
      else t.(cursor := t.cursor + 1, flags := Remove(x, t.flags, s.value, arg.name))
    else if TakesArgument(letter) then t.(cursor := t.cursor + 1)
    else if letter == '+' || letter == '-' then t.(plus := letter == '+')
    else t
  }

  /** The line as a left fold over its letters. */
  function Folded(x: Context, args: seq<Name>, t: Scan, letters: string): Scan
    requires Sound(x)
    decreases |letters|
  {
    if letters == "" then t
    else Turn(x, args, Folded(x, args, t, letters[..|letters| - 1]), letters[|letters| - 1])
  }

  function Line(x: Context, args: seq<Name>, flags: Members, modes: string): Scan
    requires Sound(x)
  {
    if modes != "" && (modes[0] == '+' || modes[0] == '-') then
      Folded(x, args, Scan(modes[0] == '+', 0, flags, false), modes[1..])
    else Scan(false, 0, flags, false)
  }

  /** The body of the loop of the plus sign. */
  method PlusLetter(x: Context, args: seq<Name>, letter: char, warg: nat, flags: Members)
    returns (plus: bool, next: nat, r: Members, fault: bool)
    requires Sound(x)
    ensures Scan(plus, next, r, fault) == Turn(x, args, Scan(true, warg, flags, false), letter)
  {
    plus, next, r, fault := true, warg, flags, false;
    var s, arg := StatusOf(letter), ArgumentAt(args, warg);
    if s.Some? {
      if arg == Unwritten {
        fault := true;
        return;
      }
      r := Give(x, r, s.value, if arg.Word? then Some(arg.name) else None);
      next := warg + 1;
    } else if letter == '-' {
      plus := false;
    } else if TakesArgument(letter) {
      next := warg + 1;
    }
  }

  /** The body of the loop of the minus sign. */
  method MinusLetter(x: Context, args: seq<Name>, letter: char, warg: nat, flags: Members)
    returns (plus: bool, next: nat, r: Members, fault: bool)
    requires Sound(x)
    ensures Scan(plus, next, r, fault) == Turn(x, args, Scan(false, warg, flags, false), letter)
  {
    plus, next, r, fault := false, warg, flags, false;
    var s, arg := StatusOf(letter), ArgumentAt(args, warg);
    if s.Some? {
      if arg == Unwritten || arg == Null || arg.name !in x.online {
        fault := true;
        return;
      }
      r := Remove(x, r, s.value, arg.name);
      next := warg + 1;
    } else if letter == '+' {
      plus := true;
    } else if TakesArgument(letter) {
      next := warg + 1;
    }
  }

  /** m_mode: the two loops, left for one another at a change of sign. A fault ends the program. */
  method MMode(x: Context, args: seq<Name>, flags: Members, modes: string) returns (r: Members, fault: bool)
    requires Sound(x)
    ensures var t := Line(x, args, flags, modes); r == t.flags && fault == t.fault
  {
    r, fault := flags, false;
    if modes == "" || !(modes[0] == '+' || modes[0] == '-') {
      return;
    }
    var letters := modes[1..];
    ghost var start := Scan(modes[0] == '+', 0, flags, false);
    var plus, k, warg := modes[0] == '+', 0, 0;
    while k < |letters|
      invariant k <= |letters| && !fault
      invariant Scan(plus, warg, r, fault) == Folded(x, args, start, letters[..k])
    {
      if plus {
        while k < |letters| && plus
          invariant k <= |letters| && !fault
          invariant Scan(plus, warg, r, fault) == Folded(x, args, start, letters[..k])
        {
          FoldedMore(x, args, start, letters, k);
          plus, warg, r, fault := PlusLetter(x, args, letters[k], warg, r);
          k := k + 1;
          if fault {
            FaultStays(x, args, start, letters, k);
            return;
          }
        }
      } else {
        while k < |letters| && !plus
          invariant k <= |letters| && !fault
          invariant Scan(plus, warg, r, fault) == Folded(x, args, start, letters[..k])
        {
          FoldedMore(x, args, start, letters, k);
          plus, warg, r, fault := MinusLetter(x, args, letters[k], warg, r);
          k := k + 1;
          if fault {
            FaultStays(x, args, start, letters, k);
            return;
          }
        }
      }
    }
    assert letters[..k] == letters;
  }

  lemma FoldedMore(x: Context, args: seq<Name>, t: Scan, letters: string, k: nat)
    requires Sound(x) && k < |letters|
    ensures Folded(x, args, t, letters[..k + 1]) == Turn(x, args, Folded(x, args, t, letters[..k]), letters[k])
  {
    assert letters[..k + 1][..k] == letters[..k];
  }

  lemma {:induction false} FaultStays(x: Context, args: seq<Name>, t: Scan, letters: string, k: nat)
    requires Sound(x) && k <= |letters| && Folded(x, args, t, letters[..k]).fault
    ensures Folded(x, args, t, letters) == Folded(x, args, t, letters[..k])
    decreases |letters| - k
  {
    if k < |letters| {
      FoldedMore(x, args, t, letters, k);
      FaultStays(x, args, t, letters, k + 1);
    } else {
      assert letters[..k] == letters;
    }
  }

  // ----- The cursor.

  /** How many of the letters take an argument. */
  function Arguments(letters: string): nat {
    if letters == "" then 0
    else
      var last := letters[|letters| - 1];
      Arguments(letters[..|letters| - 1]) + (if StatusOf(last).Some? || TakesArgument(last) then 1 else 0)
  }

  /** The sign that is in force after the letters. */
  function Sign(plus: bool, letters: string): bool {
    if letters == "" then plus
    else if letters[|letters| - 1] in "+-" then letters[|letters| - 1] == '+'
    else Sign(plus, letters[..|letters| - 1])
  }

  /** In both loops and on every path each letter that takes an argument moves the cursor by one. */
  lemma {:induction false} CursorCounts(x: Context, args: seq<Name>, t: Scan, letters: string)
    requires Sound(x) && !Folded(x, args, t, letters).fault
    ensures var r := Folded(x, args, t, letters);
      r.cursor == t.cursor + Arguments(letters) && r.plus == Sign(t.plus, letters)
  {
    if letters != "" {
      CursorCounts(x, args, t, letters[..|letters| - 1]);
    }
  }

  /** Letter `k` is a status letter whose argument is beyond the null pointer that ends the arguments and beyond the second
      element, which always is one, or one after a minus sign whose argument is missing or names nobody online. */
  predicate Faulty(x: Context, args: seq<Name>, plus: bool, cursor: nat, letters: string, k: nat)
    requires k < |letters|
  {
    var i := cursor + Arguments(letters[..k]);
    StatusOf(letters[k]).Some?
    && ((i > |args| && i > 1) || (!Sign(plus, letters[..k]) && (i >= |args| || args[i] !in x.online)))
  }

  /** A line faults exactly when it has such a letter. */
  lemma {:induction false} FaultsExactly(x: Context, args: seq<Name>, t: Scan, letters: string)
    requires Sound(x) && !t.fault
    ensures Folded(x, args, t, letters).fault <==>
      exists k :: 0 <= k < |letters| && Faulty(x, args, t.plus, t.cursor, letters, k)
  {
    if letters != "" {
      var front, last := letters[..|letters| - 1], |letters| - 1;
      FaultsExactly(x, args, t, front);
      assert forall k :: 0 <= k < last ==> front[..k] == letters[..k];
      assert forall k :: 0 <= k < last ==>
        (Faulty(x, args, t.plus, t.cursor, letters, k) <==> Faulty(x, args, t.plus, t.cursor, front, k));
      if !Folded(x, args, t, front).fault {
        CursorCounts(x, args, t, front);
        assert Folded(x, args, t, letters).fault <==> Faulty(x, args, t.plus, t.cursor, letters, last);
      }
    }
  }

  /** The shortest such lines. Taking op from a name that is not online, as that of the channel's own bot never is,
      ends the program; and so does a minus line without its argument, or a plus line that wants a third one. */
  lemma ShortFaults(x: Context, who: Name, flags: Members)
    requires Sound(x)
    ensures Line(x, [who], flags, "-o").fault <==> who !in x.online
    ensures Line(x, [], flags, "-o").fault && Line(x, [who], flags, "+ovo").fault
  {
    var deop, three := Scan(false, 0, flags, false), Scan(true, 0, flags, false);
    assert "-o"[1..] == "o" && "o"[..0] == "";
    assert "+ovo"[1..] == "ovo" && "ovo"[..2] == "ov" && "ov"[..1] == "o";
    CursorCounts(x, [who], three, "ov");
    assert Arguments("o") == 1 && Arguments("ov") == 2;
    assert Folded(x, [who], deop, "o") == Turn(x, [who], deop, 'o');
  }

  // ----- Who gets what.

  lemma {:induction false} SameMembers(x: Context, args: seq<Name>, t: Scan, letters: string)
    requires Sound(x)
    ensures Folded(x, args, t, letters).flags.Keys == t.flags.Keys
  {
    if letters != "" {
      SameMembers(x, args, t, letters[..|letters| - 1]);
    }
  }

  /** With STRICTOP on, whoever has become owner, protected, op or half op by a line has an identified account that
      is entitled to it. */
  lemma {:induction false} StrictlyEntitled(x: Context, args: seq<Name>, t: Scan, letters: string, n: Id, s: Status)
    requires Sound(x) && Registered(x) && x.strictop && s != Voice
    requires var r := Folded(x, args, t, letters); n in r.flags && s in r.flags[n]
    ensures n in t.flags && (s in t.flags[n] || Entitled(x, n, s))
  {
    if letters != "" {
      var front, letter := letters[..|letters| - 1], letters[|letters| - 1];
      var mid := Folded(x, args, t, front);
      var r := Turn(x, args, mid, letter);
      SameMembers(x, args, mid, [letter]);
      if s in mid.flags[n] {
        StrictlyEntitled(x, args, t, front, n, s);
      } else {
        SameMembers(x, args, t, front);
      }
    }
  }

  /** With PROTECTOPS on, nobody else takes owner, protection or op from one who is entitled to it, unless its level
      is the one that bars every status. */
  lemma {:induction false} Protected(x: Context, args: seq<Name>, t: Scan, letters: string, n: Id, s: Status)
    requires Sound(x) && Registered(x) && x.protectops && s in {Owner, Protect, Op}
    requires Entitled(x, n, s) && Account(x, n) != Some(x.sender) && LevelOf(x, n) != x.lv.nostatus
    requires n in t.flags && s in t.flags[n]
    ensures var r := Folded(x, args, t, letters); n in r.flags && s in r.flags[n]
  {
    if letters != "" {
      Protected(x, args, t, letters[..|letters| - 1], n, s);
    }
  }

  /** A line changes nobody whom none of its arguments names. */
  lemma {:induction false} OthersUnchanged(x: Context, args: seq<Name>, t: Scan, letters: string, n: Id)
    requires Sound(x) && n in t.flags
    requires forall i :: 0 <= i < |args| && args[i] in x.online ==> x.online[args[i]] != n
    ensures var r := Folded(x, args, t, letters); n in r.flags && r.flags[n] == t.flags[n]
  {
    if letters != "" {
      OthersUnchanged(x, args, t, letters[..|letters| - 1], n);
    }
  }
}
