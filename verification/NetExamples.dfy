/** Runs of the network, from a daemon that has just started, after which an event breaks a law or does what one might
    not expect: each shows that an exception stated elsewhere can be met. */
module NetExamples {
  import opened Wrappers
  import opened Network
  import opened Events
  import opened NetRuns
  import opened Suspension

  const CFG := Config(5, map[], 100, 3)

  /** The events under the one configuration. */
  function Under(run: seq<Event>): seq<Moment> {
    seq(|run|, i requires 0 <= i < |run| => At(CFG, run[i]))
  }

  /** The run is possible from the start and ends in `s`. */
  ghost predicate Reaches(run: seq<Event>, s: State) {
    Inv(START) && Possible(START, Under(run)) && After(START, Under(run)) == s
  }

  lemma {:induction false} OneMore(s: State, run: seq<Moment>, ev: Event)
    requires Inv(s) && Possible(s, run) && Inv(After(s, run))
    requires Allowed(After(s, run), ev) && Safe(After(s, run), ev)
    ensures Possible(s, run + [At(CFG, ev)])
    ensures After(s, run + [At(CFG, ev)]) == Step(CFG, After(s, run), ev)
    decreases |run|
  {
    if run == [] {
      assert run + [At(CFG, ev)] == [At(CFG, ev)];
      NextKeeps(s, [At(CFG, ev)]);
    } else {
      NextKeeps(s, run);
      OneMore(Step(run[0].cfg, s, run[0].ev), run[1..], ev);
      assert (run + [At(CFG, ev)])[1..] == run[1..] + [At(CFG, ev)];
    }
  }

  lemma Reached(run: seq<Event>, s: State, ev: Event)
    requires Reaches(run, s) && Allowed(s, ev) && Safe(s, ev)
    ensures Inv(s) && Reaches(run + [ev], Step(CFG, s, ev))
  {
    RunKeeps(START, Under(run));
    OneMore(START, Under(run), ev);
    assert Under(run + [ev]) == Under(run) + [At(CFG, ev)];
  }

  lemma InvReached(run: seq<Event>, s: State)
    requires Reaches(run, s)
    ensures Inv(s)
  {
    RunKeeps(START, Under(run));
  }

  // ----- One nick.

  const UPLINK := Uplink(0, "hub", "001")
  const HUB := START.(servers := map[0 := Server("hub", "001", None, [], [])], serverList := [0])

  /** The only nick is called `name` and has no account. */
  function One(name: Name, users: map<Name, User>): State {
    State(users, map[1 := Nick(name, "U1", "h", "0", false, None, 0, [], 0, 0)], map["h" := 1], map[], map[], map[],
          map[0 := Server("hub", "001", None, [1], [])], [0])
  }

  function Arrives(n: NickPtr, name: Name, uid: Name, svid: Name): Event {
    Uid("001", n, name, uid, "h", svid, false, None, 1)
  }

  lemma HubReached()
    ensures Reaches([UPLINK], HUB)
  {
    StartKeeps();
    Reached([], START, UPLINK);
    assert [] + [UPLINK] == [UPLINK];
  }

  lemma FirstArrives(name: Name)
    requires name != "" && name != "U1"
    ensures Reaches([UPLINK, Arrives(1, name, "U1", "0")], One(name, map[]))
  {
    HubReached();
    var ev := Arrives(1, name, "U1", "0");
    Reached([UPLINK], HUB, ev);
    assert [UPLINK] + [ev] == [UPLINK, ev];
    assert ServerOf(HUB.servers, [0], "001") == Some(0);
    var nick := NetRuns.NewNick(ev, 0);
    ConnectKeeps(HUB, 1, nick);
    assert [] + [1] == [1];
    assert Connect(HUB, 1, nick) == One(name, map[]);
  }

  lemma TheOnlyNick(name: Name, users: map<Name, User>)
    requires name != ""
    ensures NickOf(One(name, users).nicks, name) == Some(1)
  {
    assert Answers(One(name, users).nicks, name, 1);
  }

  /** An account without a session. */
  function Idle(level: int): User {
    User(level, false, None, false, false, 60)
  }

  /** REGISTER with the password sent by mail: the nick is not logged in. */
  lemma Registers(run: seq<Event>, name: Name, users: map<Name, User>)
    requires Reaches(run, One(name, users)) && name !in users
    ensures Reaches(run + [Register(1, true)], One(name, users[name := Idle(if users == map[] then 100 else 1)]))
  {
    Reached(run, One(name, users), Register(1, true));
  }

  lemma Renames(run: seq<Event>, name: Name, users: map<Name, User>, newNick: Name)
    requires Reaches(run, One(name, users)) && name != "" && newNick !in ["", "U1", name] && newNick !in users
    ensures Reaches(run + [NickChange(name, newNick, false, 1)], One(newNick, users))
  {
    TheOnlyNick(name, users);
    Reached(run, One(name, users), NickChange(name, newNick, false, 1));
  }

  /** A nick that has the SVID of the account x is logged in to the account y, because it is called y. */
  lemma SvidNotFollowed()
    ensures var s := One("z", map["y" := Idle(100), "x" := Idle(1)]);
      var ev := Arrives(2, "y", "U2", "x");
      && Reaches([UPLINK, Arrives(1, "y", "U1", "0"), Register(1, true), NickChange("y", "x", false, 1),
                  Register(1, true), NickChange("x", "z", false, 1)], s)
      && Inv(s) && Allowed(s, ev) && Safe(s, ev)
      && 2 in Step(CFG, s, ev).nicks && Step(CFG, s, ev).nicks[2].account == Some("y")
  {
    FirstArrives("y");
    var run := [UPLINK, Arrives(1, "y", "U1", "0")];
    Registers(run, "y", map[]);
    var y := map["y" := Idle(100)];
    assert map[]["y" := Idle(100)] == y;
    Renames(run + [Register(1, true)], "y", y, "x");
    Registers(run + [Register(1, true)] + [NickChange("y", "x", false, 1)], "x", y);
    var both := map["y" := Idle(100), "x" := Idle(1)];
    assert y["x" := Idle(1)] == both;
    var more := run + [Register(1, true)] + [NickChange("y", "x", false, 1)] + [Register(1, true)];
    Renames(more, "x", both, "z");
    assert more + [NickChange("x", "z", false, 1)] ==
      [UPLINK, Arrives(1, "y", "U1", "0"), Register(1, true), NickChange("y", "x", false, 1),
       Register(1, true), NickChange("x", "z", false, 1)];
    InvReached(more + [NickChange("x", "z", false, 1)], One("z", both));
    NamedForX();
  }

  lemma NamedForX()
    requires Inv(One("z", map["y" := Idle(100), "x" := Idle(1)]))
    ensures var s := One("z", map["y" := Idle(100), "x" := Idle(1)]);
      var ev := Arrives(2, "y", "U2", "x");
      Allowed(s, ev) && 2 in Step(CFG, s, ev).nicks && Step(CFG, s, ev).nicks[2].account == Some("y")
  {
    var s := One("z", map["y" := Idle(100), "x" := Idle(1)]);
    assert ServerOf(s.servers, [0], "001") == Some(0);
    IntroducedAccount(CFG, s, Arrives(2, "y", "U2", "x"));
  }

  // ----- Two joins.

  function Joiner(): State {
    One("a", map[]).(nicks := map[1 := Nick("a", "U1", "h", "0", false, None, 0, [7], 0, 0)],
                     wchans := map["#c" := [7]], members := map[7 := Member("#c", 1)])
  }

  /** A nick that joins a channel twice breaks the law that no nick is twice in a channel. */
  lemma JoinsTwice()
    ensures var s, ev := Joiner(), Join("a", "#c", 8);
      && Reaches([UPLINK, Arrives(1, "a", "U1", "0"), Join("a", "#c", 7)], s)
      && Inv(s) && Allowed(s, ev) && !Safe(s, ev) && !Inv(Step(CFG, s, ev))
  {
    JoinerReached();
    InvReached([UPLINK, Arrives(1, "a", "U1", "0"), Join("a", "#c", 7)], Joiner());
    assert Answers(Joiner().nicks, "a", 1);
    assert Joiner().members[7] == Member("#c", 1);
    StepKeeps(CFG, Joiner(), Join("a", "#c", 8));
  }

  lemma JoinerReached()
    ensures Reaches([UPLINK, Arrives(1, "a", "U1", "0"), Join("a", "#c", 7)], Joiner())
  {
    FirstArrives("a");
    TheOnlyNick("a", map[]);
    var run := [UPLINK, Arrives(1, "a", "U1", "0")];
    Reached(run, One("a", map[]), Join("a", "#c", 7));
    assert [] + [7] == [7];
    assert Joined(One("a", map[]), "#c", "a", 7) == Joiner();
    assert run + [Join("a", "#c", 7)] == [UPLINK, Arrives(1, "a", "U1", "0"), Join("a", "#c", 7)];
  }

  /** A second nick with the name of the first ends the program. */
  lemma SameNameTwice()
    ensures var s := One("a", map[]);
      && Reaches([UPLINK, Arrives(1, "a", "U1", "0")], s) && UidFaults(CFG, s, Arrives(2, "a", "U2", "0"))
  {
    FirstArrives("a");
    var s := One("a", map[]);
    assert s.nicks[1].name == "a";
    assert ServerOf(s.servers, [0], "001") == Some(0);
  }

  // ----- A nick on a name whose account is in use by another nick.

  const BUSY := User(100, true, Some(1), false, false, 60)

  /** The first nick, now called `name`, is logged in to the account a. */
  function Holder(name: Name): State {
    One(name, map["a" := BUSY]).(nicks := map[1 := Nick(name, "U1", "h", "a", true, Some("a"), 0, [], 0, 0)])
  }

  /** A second nick, called `name`, is not logged in. */
  function Two(name: Name, users: map<Name, User>): State {
    State(users,
          map[1 := Nick("c", "U1", "h", "a", true, Some("a"), 0, [], 0, 0),
              2 := Nick(name, "U2", "h", "0", false, None, 0, [], 0, 0)],
          map["h" := 2], map[], map[], map[], map[0 := Server("hub", "001", None, [1, 2], [])], [0])
  }

  lemma LogsIn(run: seq<Event>)
    requires Reaches(run, One("a", map[]))
    ensures Reaches(run + [Register(1, false)], Holder("a"))
  {
    Reached(run, One("a", map[]), Register(1, false));
    assert Registered(CFG, One("a", map[]), 1, false) == Holder("a");
  }

  lemma HolderRenames(run: seq<Event>)
    requires Reaches(run, Holder("a"))
    ensures Reaches(run + [NickChange("a", "c", false, 1)], Holder("c"))
  {
    assert Answers(Holder("a").nicks, "a", 1);
    Reached(run, Holder("a"), NickChange("a", "c", false, 1));
    assert NickChanged(Holder("a"), 1, "c", false, 1) == Holder("c");
  }

  lemma HolderReached()
    ensures Reaches([UPLINK, Arrives(1, "a", "U1", "0"), Register(1, false), NickChange("a", "c", false, 1)], Holder("c"))
  {
    FirstArrives("a");
    var run := [UPLINK, Arrives(1, "a", "U1", "0")];
    LogsIn(run);
    HolderRenames(run + [Register(1, false)]);
    assert run + [Register(1, false)] + [NickChange("a", "c", false, 1)] ==
      [UPLINK, Arrives(1, "a", "U1", "0"), Register(1, false), NickChange("a", "c", false, 1)];
  }

  lemma SecondArrives(run: seq<Event>)
    requires Reaches(run, Holder("c"))
    ensures Reaches(run + [Arrives(2, "b", "U2", "0")], Two("b", map["a" := BUSY]))
  {
    var s, ev := Holder("c"), Arrives(2, "b", "U2", "0");
    Reached(run, s, ev);
    assert ServerOf(s.servers, [0], "001") == Some(0);
    SecondConnects(NetRuns.NewNick(ev, 0));
  }

  lemma SecondConnects(nick: Nick)
    requires nick == Nick("b", "U2", "h", "0", false, None, 0, [], 0, 0)
    ensures Connect(Holder("c"), 2, nick) == Two("b", map["a" := BUSY])
  {
    assert [1] + [2] == [1, 2];
  }

  lemma SecondRegisters(run: seq<Event>)
    requires Reaches(run, Two("b", map["a" := BUSY]))
    ensures Reaches(run + [Register(2, true)], Two("b", map["a" := BUSY, "b" := Idle(1)]))
  {
    var s := Two("b", map["a" := BUSY]);
    Reached(run, s, Register(2, true));
    assert "a" in s.users;
    assert s.users["b" := Idle(1)] == map["a" := BUSY, "b" := Idle(1)];
    assert Registered(CFG, s, 2, true) == Two("b", map["a" := BUSY, "b" := Idle(1)]);
  }

  lemma SecondRenames(run: seq<Event>, users: map<Name, User>)
    requires users == map["a" := BUSY, "b" := Idle(1)] && Reaches(run, Two("b", users))
    ensures Reaches(run + [NickChange("b", "a", false, 1)], Two("a", users))
  {
    TheSecond("b", users);
    Reached(run, Two("b", users), NickChange("b", "a", false, 1));
    assert NickChanged(Two("b", users), 2, "a", false, 1) == Two("a", users);
  }

  lemma TheSecond(name: Name, users: map<Name, User>)
    requires name !in ["", "c", "U1"]
    ensures NickOf(Two(name, users).nicks, name) == Some(2)
  {
    assert Answers(Two(name, users).nicks, name, 2);
  }

  /** The linked-account branch of a nick change, and OPER FORCEAUTH, take an account from the nick that is logged in
      to it without telling that nick. */
  lemma TakesTheAccount()
    ensures var s := Two("a", map["a" := BUSY, "b" := Idle(1)]);
      && Reaches([UPLINK, Arrives(1, "a", "U1", "0"), Register(1, false), NickChange("a", "c", false, 1),
                  Arrives(2, "b", "U2", "0"), Register(2, true), NickChange("b", "a", false, 1)], s)
      && Inv(s)
      && (var ev := NickChange("a", "b", true, 1); Allowed(s, ev) && !Safe(s, ev) && !Inv(Step(CFG, s, ev)))
      && (var ev := Forceauth("a"); Allowed(s, ev) && !Safe(s, ev) && !Inv(Step(CFG, s, ev)))
  {
    HolderReached();
    var run := [UPLINK, Arrives(1, "a", "U1", "0"), Register(1, false), NickChange("a", "c", false, 1)];
    SecondArrives(run);
    SecondRegisters(run + [Arrives(2, "b", "U2", "0")]);
    SecondRenames(run + [Arrives(2, "b", "U2", "0")] + [Register(2, true)], map["a" := BUSY, "b" := Idle(1)]);
    var all := run + [Arrives(2, "b", "U2", "0")] + [Register(2, true)] + [NickChange("b", "a", false, 1)];
    assert all == [UPLINK, Arrives(1, "a", "U1", "0"), Register(1, false), NickChange("a", "c", false, 1),
                   Arrives(2, "b", "U2", "0"), Register(2, true), NickChange("b", "a", false, 1)];
    InvReached(all, Two("a", map["a" := BUSY, "b" := Idle(1)]));
    TakesIt(Two("a", map["a" := BUSY, "b" := Idle(1)]));
  }

  lemma TakesIt(s: State)
    requires s == Two("a", map["a" := BUSY, "b" := Idle(1)]) && Inv(s)
    ensures var ev := NickChange("a", "b", true, 1); Allowed(s, ev) && !Safe(s, ev) && !Inv(Step(CFG, s, ev))
    ensures var ev := Forceauth("a"); Allowed(s, ev) && !Safe(s, ev) && !Inv(Step(CFG, s, ev))
  {
    TheSecond("a", s.users);
    StepKeeps(CFG, s, NickChange("a", "b", true, 1));
    StepKeeps(CFG, s, Forceauth("a"));
  }

  // ----- A suspended account that is logged in to, and a guest timer.

  const ASLEEP := Idle(1).(suspended := true)

  const SECOND := [UPLINK, Arrives(1, "a", "U1", "0"), Register(1, false), NickChange("a", "c", false, 1),
                   Arrives(2, "b", "U2", "0"), Register(2, true)]

  lemma SecondReached()
    ensures Reaches(SECOND, Two("b", map["a" := BUSY, "b" := Idle(1)]))
  {
    HolderReached();
    var run := [UPLINK, Arrives(1, "a", "U1", "0"), Register(1, false), NickChange("a", "c", false, 1)];
    SecondArrives(run);
    SecondRegisters(run + [Arrives(2, "b", "U2", "0")]);
    assert run + [Arrives(2, "b", "U2", "0")] + [Register(2, true)] == SECOND;
  }

  /** OPER FORCEAUTH logs a nick in to an account that has just been suspended. */
  lemma SuspendedWoken()
    ensures var s, ev := Two("b", map["a" := BUSY, "b" := ASLEEP]), Forceauth("b");
      && Reaches(SECOND + [Suspend("b", 100)], s)
      && Inv(s) && Allowed(s, ev) && Safe(s, ev)
      && Quiet(s.users) && WakesSuspended(CFG, s, ev) && !Quiet(Step(CFG, s, ev).users)
  {
    SecondReached();
    var s := Two("b", map["a" := BUSY, "b" := Idle(1)]);
    Reached(SECOND, s, Suspend("b", 100));
    var t := Two("b", map["a" := BUSY, "b" := ASLEEP]);
    assert s.users["b" := ASLEEP] == t.users;
    InvReached(SECOND + [Suspend("b", 100)], t);
    TheSecond("b", t.users);
    StepQuiet(CFG, t, Forceauth("b"));
  }

  const GUARDED := BUSY.(protect := true)

  /** The nick that is logged in to the protected account a is called `name`. */
  function Guarded(name: Name): State {
    One(name, map["a" := GUARDED]).(nicks := Holder(name).nicks)
  }

  lemma Protects(run: seq<Event>)
    requires Reaches(run, Holder("a"))
    ensures Reaches(run + [SetProtect(1, true)], Guarded("a"))
  {
    Reached(run, Holder("a"), SetProtect(1, true));
    assert Holder("a").users["a" := GUARDED] == Guarded("a").users;
  }

  lemma LeavesName(run: seq<Event>)
    requires Reaches(run, Guarded("a"))
    ensures Reaches(run + [NickChange("a", "c", false, 1)], Guarded("c"))
  {
    assert Answers(Guarded("a").nicks, "a", 1);
    Reached(run, Guarded("a"), NickChange("a", "c", false, 1));
    assert NickChanged(Guarded("a"), 1, "c", false, 1) == Guarded("c");
  }

  /** The owner of a protected name has left it, and another nick arrives under that name: it gets a timer. */
  lemma TimerStarts()
    ensures var s, ev := Guarded("c"), Arrives(2, "a", "U2", "0");
      && Reaches([UPLINK, Arrives(1, "a", "U1", "0"), Register(1, false), SetProtect(1, true),
                  NickChange("a", "c", false, 1)], s)
      && Inv(s) && Allowed(s, ev) && Step(CFG, s, ev).guests == map["a" := Guest(60, 1)]
  {
    FirstArrives("a");
    var run := [UPLINK, Arrives(1, "a", "U1", "0")];
    LogsIn(run);
    Protects(run + [Register(1, false)]);
    LeavesName(run + [Register(1, false)] + [SetProtect(1, true)]);
    var all := run + [Register(1, false)] + [SetProtect(1, true)] + [NickChange("a", "c", false, 1)];
    assert all == [UPLINK, Arrives(1, "a", "U1", "0"), Register(1, false), SetProtect(1, true),
                   NickChange("a", "c", false, 1)];
    InvReached(all, Guarded("c"));
    TimerFor(Guarded("c"));
  }

  lemma TimerFor(s: State)
    requires s == Guarded("c") && Inv(s)
    ensures Allowed(s, Arrives(2, "a", "U2", "0"))
    ensures Step(CFG, s, Arrives(2, "a", "U2", "0")).guests == map["a" := Guest(60, 1)]
  {
    assert ServerOf(s.servers, [0], "001") == Some(0);
  }
}
