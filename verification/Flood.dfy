/** The limiter on private messages to the services: how many a sender that is no operator can get through. */
module Flood {

  /** maxmsgnb, maxmsgtime and ignoretime of the configuration. */
  datatype Config = Config(maxNb: int, maxTime: int, ignoreTime: int)

  datatype Counters = Counters(msgtime: int, msgnb: int, ignored: bool, ignoretime: int)

  const NEW := Counters(0, 0, false, 0)

  /** The counters after a private message at the time `now`. */
  function Next(cfg: Config, s: Counters, now: int): Counters {
    if s.ignored then
      if now - s.ignoretime > cfg.ignoreTime then s.(ignored := false, ignoretime := 0) else s
    else if s.msgtime == 0 || s.msgnb == 0 then s.(msgtime := now, msgnb := 1)
    else if now - s.msgtime <= cfg.maxTime && s.msgnb >= cfg.maxNb then s.(ignored := true, ignoretime := now)
    else if now - s.msgtime > cfg.maxTime && s.msgnb <= cfg.maxNb then s.(msgtime := now, msgnb := 1)
    else s.(msgnb := s.msgnb + 1)
  }

  /** Whether the message goes on to the command. */
  predicate Accepts(cfg: Config, s: Counters, now: int) {
    !Next(cfg, s, now).ignored
  }

  class Sender {
    var msgtime: int
    var msgnb: int
    var ignored: bool
    var ignoretime: int

    ghost function S(): Counters
      reads this
    {
      Counters(msgtime, msgnb, ignored, ignoretime)
    }

    /** new_nick. */
    constructor ()
      ensures S() == NEW
    {
      msgtime, msgnb, ignored, ignoretime := 0, 0, false, 0;
    }

    /** The part of m_privmsg that counts. */
    method PrivMsg(cfg: Config, now: int) returns (accepted: bool)
      modifies this
      ensures S() == Next(cfg, old(S()), now) && accepted == Accepts(cfg, old(S()), now)
    {
      if ignored {
        if now - ignoretime > cfg.ignoreTime {
          ignored := false;
          ignoretime := 0;
        } else {
          return false;
        }
      } else if msgtime == 0 || msgnb == 0 {
        msgtime := now;
        msgnb := 1;
      } else if now - msgtime <= cfg.maxTime && msgnb >= cfg.maxNb {
        ignored := true;
        ignoretime := now;
        return false;
      } else if now - msgtime > cfg.maxTime && msgnb <= cfg.maxNb {
        msgtime := now;
        msgnb := 1;
      } else {
        msgnb := msgnb + 1;
      }
      return true;
    }
  }

  // ----- Traces.

  /** A clock that is positive and never goes back. */
  ghost predicate Clock(times: seq<int>) {
    (forall i :: 0 <= i < |times| ==> times[i] > 0) && forall i, j :: 0 <= i <= j < |times| ==> times[i] <= times[j]
  }

  function After(cfg: Config, times: seq<int>): Counters {
    if times == [] then NEW else Next(cfg, After(cfg, times[..|times| - 1]), times[|times| - 1])
  }

  /** The times at which a message was accepted. */
  function Accepted(cfg: Config, times: seq<int>): seq<int> {
    if times == [] then []
    else
      var front, now := times[..|times| - 1], times[|times| - 1];
      Accepted(cfg, front) + if Accepts(cfg, After(cfg, front), now) then [now] else []
  }

  /** The bound: a window that is being filled and the tail of the one before it, or a window and the message that
      ended a period of being ignored. */
  function Bound(n: int): int {
    if n + 1 > 2 * n - 1 then n + 1 else 2 * n - 1
  }

  /** Among any `b + 1` consecutive accepted messages the last is more than `t` later than the first. */
  ghost predicate Spaced(h: seq<int>, b: int, t: int) {
    forall i, j :: 0 <= i < |h| && 0 <= j < |h| && j == i + b ==> h[i] + t < h[j]
  }

  /** The window that began at `h[a]` came after a window of at most `n`, or right after a period of being ignored. */
  ghost predicate Began(h: seq<int>, a: int, n: int, t: int)
    requires 0 <= a < |h|
  {
    (a >= n >= 0 ==> h[a - n] + t < h[a]) || (a >= 2 ==> h[a - 2] + t < h[a - 1])
  }

  ghost predicate Counting(cfg: Config, s: Counters, h: seq<int>) {
    && 1 <= s.msgnb <= cfg.maxNb && s.msgnb <= |h| && s.msgtime == h[|h| - s.msgnb]
    && Began(h, |h| - s.msgnb, cfg.maxNb, cfg.maxTime)
  }

  ghost predicate Released(cfg: Config, s: Counters, h: seq<int>) {
    && s.msgnb == cfg.maxNb && |h| > 0 && s.msgtime > 0 && s.msgtime + cfg.maxTime < h[|h| - 1]
    && (|h| >= 2 ==> h[|h| - 2] + cfg.maxTime < h[|h| - 1])
  }

  /** What the counters know about the messages accepted so far; `last` is the time of the last message. */
  ghost predicate Inv(cfg: Config, s: Counters, h: seq<int>, last: int) {
    && Clock(h) && (forall i :: 0 <= i < |h| ==> h[i] <= last) && Spaced(h, Bound(cfg.maxNb), cfg.maxTime)
    && if s.ignored then
         s.msgnb == cfg.maxNb && 0 < s.msgtime <= s.ignoretime <= last && forall i :: 0 <= i < |h| ==> h[i] <= s.ignoretime
       else if s == NEW then h == []
       else Counting(cfg, s, h) || Released(cfg, s, h)
  }

  ghost predicate Sane(cfg: Config) {
    cfg.maxNb >= 1 && cfg.ignoreTime >= cfg.maxTime >= 0
  }

  lemma SpacedMore(h: seq<int>, now: int, b: int, t: int)
    requires Spaced(h, b, t) && b > 0
    requires |h| >= b ==> h[|h| - b] + t < now
    ensures Spaced(h + [now], b, t)
  {
  }

  lemma ClockMore(h: seq<int>, now: int)
    requires Clock(h) && now > 0 && forall i :: 0 <= i < |h| ==> h[i] <= now
    ensures Clock(h + [now])
  {
  }

  lemma BeganStill(h: seq<int>, now: int, a: int, n: int, t: int)
    requires 0 <= a < |h| && Began(h, a, n, t)
    ensures Began(h + [now], a, n, t)
  {
  }

  lemma Rejected(cfg: Config, s: Counters, h: seq<int>, last: int, now: int)
    requires Sane(cfg) && Inv(cfg, s, h, last) && 0 <= last <= now && now > 0 && !Accepts(cfg, s, now)
    ensures Inv(cfg, Next(cfg, s, now), h, now)
  {
  }

  /** The message that ends a period of being ignored. */
  lemma Pardoned(cfg: Config, s: Counters, h: seq<int>, last: int, now: int)
    requires Sane(cfg) && Inv(cfg, s, h, last) && 0 <= last <= now && now > 0 && s.ignored && Accepts(cfg, s, now)
    ensures Inv(cfg, Next(cfg, s, now), h + [now], now)
  {
    ClockMore(h, now);
    SpacedMore(h, now, Bound(cfg.maxNb), cfg.maxTime);
    assert Released(cfg, Next(cfg, s, now), h + [now]);
  }

  /** A window is begun. */
  lemma Opened(cfg: Config, s: Counters, h: seq<int>, last: int, now: int)
    requires Sane(cfg) && Inv(cfg, s, h, last) && 0 <= last <= now && now > 0 && !s.ignored
    requires Next(cfg, s, now) == s.(msgtime := now, msgnb := 1)
    requires |h| >= Bound(cfg.maxNb) ==> h[|h| - Bound(cfg.maxNb)] + cfg.maxTime < now
    requires Began(h + [now], |h|, cfg.maxNb, cfg.maxTime)
    ensures Inv(cfg, Next(cfg, s, now), h + [now], now)
  {
    ClockMore(h, now);
    SpacedMore(h, now, Bound(cfg.maxNb), cfg.maxTime);
    assert Counting(cfg, Next(cfg, s, now), h + [now]);
  }

  /** A window is continued. */
  lemma Continued(cfg: Config, s: Counters, h: seq<int>, last: int, now: int)
    requires Sane(cfg) && Inv(cfg, s, h, last) && 0 <= last <= now && now > 0 && !s.ignored && s != NEW
    requires Counting(cfg, s, h) && Next(cfg, s, now) == s.(msgnb := s.msgnb + 1) && s.msgnb < cfg.maxNb
    ensures Inv(cfg, Next(cfg, s, now), h + [now], now)
  {
    var b, t, n, k := Bound(cfg.maxNb), cfg.maxTime, cfg.maxNb, |h|;
    var a := k - s.msgnb;
    ClockMore(h, now);
    BeganStill(h, now, a, n, t);
    if k >= b {
      assert a >= n && h[a - n] + t < h[a] ==> h[k - b] <= h[a - n];
      assert a >= 2 && h[a - 2] + t < h[a - 1] ==> h[k - b] <= h[a - 2] && h[a - 1] <= h[a];
    }
    SpacedMore(h, now, b, t);
    assert Counting(cfg, Next(cfg, s, now), h + [now]);
  }

  lemma StepKeeps(cfg: Config, s: Counters, h: seq<int>, last: int, now: int)
    requires Sane(cfg) && Inv(cfg, s, h, last) && 0 <= last <= now && now > 0
    ensures Inv(cfg, Next(cfg, s, now), h + (if Accepts(cfg, s, now) then [now] else []), now)
  {
    var b, t, n, k := Bound(cfg.maxNb), cfg.maxTime, cfg.maxNb, |h|;
    if !Accepts(cfg, s, now) {
      Rejected(cfg, s, h, last, now);
      assert h + [] == h;
    } else if s.ignored {
      Pardoned(cfg, s, h, last, now);
    } else if s == NEW {
      Opened(cfg, s, h, last, now);
    } else if Counting(cfg, s, h) {
      if now - s.msgtime > t {
        var a := k - s.msgnb;
        assert k >= b ==> h[k - b] <= h[a];
        assert k >= n ==> h[k - n] <= h[a];
        Opened(cfg, s, h, last, now);
      } else {
        Continued(cfg, s, h, last, now);
      }
    } else {
      assert k >= b ==> h[k - b] <= h[k - 2];
      Opened(cfg, s, h, last, now);
    }
  }

  lemma {:induction false} RunKeeps(cfg: Config, times: seq<int>)
    requires Sane(cfg) && Clock(times)
    ensures Inv(cfg, After(cfg, times), Accepted(cfg, times), if times == [] then 0 else times[|times| - 1])
  {
    if times != [] {
      var front := times[..|times| - 1];
      RunKeeps(cfg, front);
      StepKeeps(cfg, After(cfg, front), Accepted(cfg, front), if front == [] then 0 else front[|front| - 1],
                times[|times| - 1]);
    }
  }

  /** How many of the times lie in the closed interval. */
  function Count(h: seq<int>, from: int, to: int): nat {
    if h == [] then 0
    else
      var last := h[|h| - 1];
      Count(h[..|h| - 1], from, to) + (if from <= last <= to then 1 else 0)
  }

  lemma {:induction false} CountBetween(h: seq<int>, from: int, to: int, first: nat, b: nat)
    requires forall i :: 0 <= i < |h| && from <= h[i] <= to ==> first <= i < first + b
    ensures Count(h, from, to) <= b
    ensures |h| >= first ==> Count(h, from, to) <= |h| - first
    ensures |h| < first ==> Count(h, from, to) == 0
  {
    if h != [] {
      CountBetween(h[..|h| - 1], from, to, first, b);
    }
  }

  lemma SpacedCount(h: seq<int>, b: int, t: int, from: int)
    requires Clock(h) && Spaced(h, b, t) && b > 0
    ensures Count(h, from, from + t) <= b
  {
    var first := 0;
    while first < |h| && h[first] < from
      invariant first <= |h|
      invariant forall i :: 0 <= i < first ==> h[i] < from
    {
      first := first + 1;
    }
    assert first + b < |h| ==> h[first] + t < h[first + b];
    CountBetween(h, from, from + t, first, b);
  }

  lemma AcceptedSpaced(cfg: Config, times: seq<int>)
    requires Sane(cfg) && Clock(times)
    ensures Clock(Accepted(cfg, times)) && Spaced(Accepted(cfg, times), Bound(cfg.maxNb), cfg.maxTime)
  {
    RunKeeps(cfg, times);
  }

  /** On every trace no closed interval as long as maxmsgtime holds more than max(n + 1, 2n - 1) accepted private
      messages, where n is maxmsgnb; in particular no more than 2n. */
  lemma FloodBound(cfg: Config, times: seq<int>, from: int)
    requires Sane(cfg) && Clock(times)
    ensures Count(Accepted(cfg, times), from, from + cfg.maxTime) <= Bound(cfg.maxNb) <= 2 * cfg.maxNb
  {
    AcceptedSpaced(cfg, times);
    SpacedCount(Accepted(cfg, times), Bound(cfg.maxNb), cfg.maxTime, from);
  }

  // ----- The bound is reached.

  function Repeat(now: int, n: nat): seq<int> {
    if n == 0 then [] else Repeat(now, n - 1) + [now]
  }

  /** A message that is counted in the current window. */
  lemma Counted(cfg: Config, times: seq<int>, now: int)
    requires var s := After(cfg, times);
      && !s.ignored && s.msgtime > 0 && s.msgnb > 0 && now - s.msgtime <= cfg.maxTime && s.msgnb < cfg.maxNb
    ensures After(cfg, times + [now]) == After(cfg, times).(msgnb := After(cfg, times).msgnb + 1)
    ensures Accepted(cfg, times + [now]) == Accepted(cfg, times) + [now]
  {
    assert (times + [now])[..|times|] == times;
  }

  /** A sender whose window is open at `now` for `n` more messages. */
  ghost predicate Open(cfg: Config, times: seq<int>, now: int, n: nat) {
    var s := After(cfg, times);
    && !s.ignored && s.msgtime > 0 && s.msgnb > 0
    && now - s.msgtime <= cfg.maxTime && s.msgnb + n <= cfg.maxNb
  }

  lemma {:induction false} FillsWindow(cfg: Config, before: seq<int>, now: int, n: nat, t: seq<int>)
    requires Open(cfg, before, now, n) && t == before + Repeat(now, n)
    ensures Accepted(cfg, t) == Accepted(cfg, before) + Repeat(now, n)
    ensures After(cfg, t) == After(cfg, before).(msgnb := After(cfg, before).msgnb + n)
    decreases n
  {
    if n == 0 {
      assert t == before && Accepted(cfg, before) + [] == Accepted(cfg, before);
    } else {
      Counted(cfg, before, now);
      RepeatAfter(before, now, n);
      FillsWindow(cfg, before + [now], now, n - 1, t);
      RepeatAfter(Accepted(cfg, before), now, n);
    }
  }

  lemma RepeatAfter(before: seq<int>, now: int, n: nat)
    requires n > 0
    ensures before + Repeat(now, n) == before + [now] + Repeat(now, n - 1)
  {
    RepeatFront(now, n);
  }

  lemma {:induction false} CountRepeat(before: seq<int>, now: int, n: nat, from: int, to: int)
    requires from <= now <= to
    ensures Count(before + Repeat(now, n), from, to) == Count(before, from, to) + n
  {
    var t := before + Repeat(now, n);
    if n == 0 {
      assert t == before;
    } else {
      CountRepeat(before, now, n - 1, from, to);
      assert t[..|t| - 1] == before + Repeat(now, n - 1);
    }
  }

  /** A sender that fills one window at its very end and the next at its very beginning. */
  function Burst(cfg: Config): seq<int>
    requires cfg.maxNb >= 2
  {
    LateWindow(cfg) + Repeat(2 + cfg.maxTime, cfg.maxNb)
  }

  function LateWindow(cfg: Config): seq<int>
    requires cfg.maxNb >= 2
  {
    [1] + Repeat(1 + cfg.maxTime, cfg.maxNb - 1)
  }

  lemma LateWindowAccepted(cfg: Config)
    requires cfg.maxNb >= 2 && cfg.maxTime >= 1
    ensures Accepted(cfg, LateWindow(cfg)) == LateWindow(cfg)
    ensures After(cfg, LateWindow(cfg)) == Counters(1, cfg.maxNb, false, 0)
  {
    assert [1][..0] == [];
    assert After(cfg, [1]) == Counters(1, 1, false, 0) && Accepted(cfg, [1]) == [1];
    FillsWindow(cfg, [1], 1 + cfg.maxTime, cfg.maxNb - 1, LateWindow(cfg));
  }

  lemma NextWindow(cfg: Config)
    requires cfg.maxNb >= 2 && cfg.maxTime >= 1
    ensures var second := LateWindow(cfg) + [2 + cfg.maxTime];
      Accepted(cfg, second) == second && After(cfg, second) == Counters(2 + cfg.maxTime, 1, false, 0)
  {
    LateWindowAccepted(cfg);
    var second := LateWindow(cfg) + [2 + cfg.maxTime];
    assert second[..|second| - 1] == LateWindow(cfg);
  }

  lemma BurstAccepted(cfg: Config)
    requires cfg.maxNb >= 2 && cfg.maxTime >= 1
    ensures Accepted(cfg, Burst(cfg)) == Burst(cfg)
  {
    var now := 2 + cfg.maxTime;
    NextWindow(cfg);
    RepeatAfter(LateWindow(cfg), now, cfg.maxNb);
    FillsWindow(cfg, LateWindow(cfg) + [now], now, cfg.maxNb - 1, Burst(cfg));
  }

  /** The bound cannot be improved. */
  lemma BoundReached(cfg: Config)
    requires cfg.maxNb >= 2 && cfg.maxTime >= 1
    ensures Accepted(cfg, Burst(cfg)) == Burst(cfg)
    ensures Count(Burst(cfg), 1 + cfg.maxTime, 1 + cfg.maxTime + cfg.maxTime) == Bound(cfg.maxNb)
  {
    var n, t := cfg.maxNb, cfg.maxTime;
    BurstAccepted(cfg);
    assert [1][..0] == [];
    assert Count([1], 1 + t, 1 + t + t) == 0;
    CountRepeat([1], 1 + t, n - 1, 1 + t, 1 + t + t);
    CountRepeat(LateWindow(cfg), 2 + t, n, 1 + t, 1 + t + t);
  }

  lemma {:induction false} RepeatFront(now: int, n: nat)
    requires n > 0
    ensures Repeat(now, n) == [now] + Repeat(now, n - 1)
  {
    if n > 1 {
      RepeatFront(now, n - 1);
    }
  }

  lemma OneMore(cfg: Config, times: seq<int>, now: int)
    ensures After(cfg, times + [now]) == Next(cfg, After(cfg, times), now)
    ensures Accepted(cfg, times + [now]) ==
      Accepted(cfg, times) + if Accepts(cfg, After(cfg, times), now) then [now] else []
  {
    assert (times + [now])[..|times|] == times;
  }

  // ----- The bound holds exactly when the ignore time is long enough.

  ghost predicate InBound(cfg: Config, times: seq<int>, from: int) {
    Count(Accepted(cfg, times), from, from + cfg.maxTime) <= Bound(cfg.maxNb)
  }

  /** A sender that fills a window, is ignored, and is pardoned a message time later. */
  function EarlyPardon(cfg: Config): seq<int>
    requires cfg.maxNb >= 2
  {
    [1] + Repeat(2, cfg.maxNb - 1) + [2] + [2 + cfg.maxTime] + [2 + cfg.maxTime] + Repeat(2 + cfg.maxTime, cfg.maxNb - 1)
  }

  lemma IgnoredEarly(cfg: Config)
    requires cfg.maxNb >= 2 && 0 <= cfg.ignoreTime < cfg.maxTime
    ensures var t := [1] + Repeat(2, cfg.maxNb - 1) + [2];
      After(cfg, t) == Counters(1, cfg.maxNb, true, 2) && Accepted(cfg, t) == [1] + Repeat(2, cfg.maxNb - 1)
  {
    OneMore(cfg, [], 1);
    assert [] + [1] == [1];
    var full := [1] + Repeat(2, cfg.maxNb - 1);
    FillsWindow(cfg, [1], 2, cfg.maxNb - 1, full);
    OneMore(cfg, full, 2);
    assert Accepted(cfg, full) + [] == Accepted(cfg, full);
  }

  lemma PardonedEarly(cfg: Config)
    requires cfg.maxNb >= 2 && 0 <= cfg.ignoreTime < cfg.maxTime
    ensures var t := [1] + Repeat(2, cfg.maxNb - 1) + [2] + [2 + cfg.maxTime] + [2 + cfg.maxTime];
      && After(cfg, t) == Counters(2 + cfg.maxTime, 1, false, 0)
      && Accepted(cfg, t) == [1] + Repeat(2, cfg.maxNb - 1) + [2 + cfg.maxTime] + [2 + cfg.maxTime]
  {
    var late, t := 2 + cfg.maxTime, [1] + Repeat(2, cfg.maxNb - 1) + [2];
    IgnoredEarly(cfg);
    OneMore(cfg, t, late);
    OneMore(cfg, t + [late], late);
  }

  /** The times at which it gets messages through. */
  function Through(cfg: Config): seq<int>
    requires cfg.maxNb >= 2
  {
    [1] + Repeat(2, cfg.maxNb - 1) + [2 + cfg.maxTime] + [2 + cfg.maxTime] + Repeat(2 + cfg.maxTime, cfg.maxNb - 1)
  }

  lemma ThroughAccepted(cfg: Config)
    requires cfg.maxNb >= 2 && 0 <= cfg.ignoreTime < cfg.maxTime
    ensures Accepted(cfg, EarlyPardon(cfg)) == Through(cfg)
  {
    var late := 2 + cfg.maxTime;
    PardonedEarly(cfg);
    var t := [1] + Repeat(2, cfg.maxNb - 1) + [2] + [late] + [late];
    assert EarlyPardon(cfg) == t + Repeat(late, cfg.maxNb - 1);
    assert Open(cfg, t, late, cfg.maxNb - 1);
    FillsWindow(cfg, t, late, cfg.maxNb - 1, EarlyPardon(cfg));
  }

  lemma ThroughCount(cfg: Config)
    requires cfg.maxNb >= 2 && cfg.maxTime >= 0
    ensures Count(Through(cfg), 2, 2 + cfg.maxTime) == 2 * cfg.maxNb
  {
    var n, late := cfg.maxNb, 2 + cfg.maxTime;
    CountFirst(2, late);
    CountRepeat([1], 2, n - 1, 2, late);
    CountSnoc([1] + Repeat(2, n - 1), late, 2, late);
    CountSnoc([1] + Repeat(2, n - 1) + [late], late, 2, late);
    CountRepeat([1] + Repeat(2, n - 1) + [late] + [late], late, n - 1, 2, late);
  }

  lemma CountFirst(from: int, to: int)
    requires from > 1
    ensures Count([1], from, to) == 0
  {
    assert [1][..0] == [];
  }

  lemma CountSnoc(h: seq<int>, now: int, from: int, to: int)
    requires from <= now <= to
    ensures Count(h + [now], from, to) == Count(h, from, to) + 1
  {
    assert (h + [now])[..|h|] == h;
  }

  lemma {:induction false} ClockRepeat(h: seq<int>, now: int, n: nat)
    requires Clock(h) && now > 0 && forall i :: 0 <= i < |h| ==> h[i] <= now
    ensures Clock(h + Repeat(now, n)) && forall i :: 0 <= i < |h + Repeat(now, n)| ==> (h + Repeat(now, n))[i] <= now
  {
    if n == 0 {
      assert h + [] == h;
    } else {
      ClockRepeat(h, now, n - 1);
      ClockMore(h + Repeat(now, n - 1), now);
      assert h + Repeat(now, n) == h + Repeat(now, n - 1) + [now];
    }
  }

  lemma EarlyPardonClock(cfg: Config)
    requires cfg.maxNb >= 2 && cfg.maxTime >= 0
    ensures Clock(EarlyPardon(cfg))
  {
    var n, late := cfg.maxNb, 2 + cfg.maxTime;
    ClockRepeat([1], 2, n - 1);
    var t := [1] + Repeat(2, n - 1);
    ClockMore(t, 2);
    ClockMore(t + [2], late);
    ClockMore(t + [2] + [late], late);
    ClockRepeat(t + [2] + [late] + [late], late, n - 1);
  }

  /** With windows of one message: a pardon, the window it opens, and the next pardon a message time later. */
  function Singles(late: int, last: int): seq<int> {
    [1] + [1] + [late] + [late] + [late] + [last]
  }

  lemma SinglesStart(cfg: Config)
    requires cfg.maxNb == 1 && 0 <= cfg.ignoreTime < cfg.maxTime
    ensures After(cfg, [1] + [1]) == Counters(1, 1, true, 1) && Accepted(cfg, [1] + [1]) == [1]
  {
    OneMore(cfg, [], 1);
    assert [] + [1] == [1];
    OneMore(cfg, [1], 1);
    assert Accepted(cfg, [1]) + [] == [1];
  }

  lemma SinglesHalf(cfg: Config)
    requires cfg.maxNb == 1 && 0 <= cfg.ignoreTime < cfg.maxTime
    ensures var late := 2 + cfg.maxTime; var t := [1] + [1] + [late];
      After(cfg, t) == Counters(1, 1, false, 0) && Accepted(cfg, t) == [1] + [late]
  {
    SinglesStart(cfg);
    OneMore(cfg, [1] + [1], 2 + cfg.maxTime);
  }

  lemma SinglesAccepted(cfg: Config)
    requires cfg.maxNb == 1 && 0 <= cfg.ignoreTime < cfg.maxTime
    ensures var late := 2 + cfg.maxTime; var last := late + cfg.maxTime;
      Accepted(cfg, Singles(late, last)) == [1] + [late] + [late] + [last]
  {
    var late := 2 + cfg.maxTime;
    var last := late + cfg.maxTime;
    SinglesHalf(cfg);
    var t := [1] + [1] + [late];
    OneMore(cfg, t, late);
    OneMore(cfg, t + [late], late);
    OneMore(cfg, t + [late] + [late], last);
  }

  lemma SinglesCount(late: int, last: int)
    requires 1 < late <= last
    ensures Count([1] + [late] + [late] + [last], late, last) == 3
  {
    CountFirst(late, last);
    CountSnoc([1], late, late, last);
    CountSnoc([1] + [late], late, late, last);
    CountSnoc([1] + [late] + [late], last, late, last);
  }

  lemma SinglesClock(late: int, last: int)
    requires 1 < late <= last
    ensures Clock(Singles(late, last))
  {
    ClockMore([1], 1);
    ClockMore([1] + [1], late);
    ClockMore([1] + [1] + [late], late);
    ClockMore([1] + [1] + [late] + [late], late);
    ClockMore([1] + [1] + [late] + [late] + [late], last);
  }

  lemma ShortForMany(cfg: Config)
    requires cfg.maxNb >= 2 && 0 <= cfg.ignoreTime < cfg.maxTime
    ensures Clock(EarlyPardon(cfg)) && !InBound(cfg, EarlyPardon(cfg), 2)
  {
    EarlyPardonClock(cfg);
    ThroughAccepted(cfg);
    ThroughCount(cfg);
  }

  lemma ShortForOne(cfg: Config)
    requires cfg.maxNb == 1 && 0 <= cfg.ignoreTime < cfg.maxTime
    ensures var late := 2 + cfg.maxTime; var times := Singles(late, late + cfg.maxTime);
      Clock(times) && !InBound(cfg, times, late)
  {
    var late := 2 + cfg.maxTime;
    SinglesClock(late, late + cfg.maxTime);
    SinglesAccepted(cfg);
    SinglesCount(late, late + cfg.maxTime);
  }

  lemma ShortIgnoreTime(cfg: Config) returns (times: seq<int>, from: int)
    requires cfg.maxNb >= 1 && 0 <= cfg.ignoreTime < cfg.maxTime
    ensures Clock(times) && !InBound(cfg, times, from)
  {
    if cfg.maxNb >= 2 {
      times, from := EarlyPardon(cfg), 2;
      ShortForMany(cfg);
    } else {
      var late := 2 + cfg.maxTime;
      times, from := Singles(late, late + cfg.maxTime), late;
      ShortForOne(cfg);
    }
  }

  /** The bound holds on every trace and for every interval exactly when the ignore time is at least the message
      time. */
  lemma BoundExactly(cfg: Config)
    requires cfg.maxNb >= 1 && cfg.maxTime >= 0 && cfg.ignoreTime >= 0
    ensures (forall times: seq<int>, from: int :: Clock(times) ==> InBound(cfg, times, from)) <==>
      cfg.ignoreTime >= cfg.maxTime
  {
    if cfg.ignoreTime >= cfg.maxTime {
      forall times: seq<int>, from: int | Clock(times)
        ensures InBound(cfg, times, from)
      {
        FloodBound(cfg, times, from);
      }
    } else {
      var times, from := ShortIgnoreTime(cfg);
    }
  }

  // ----- Who is ignored, and for how long.

  /** The counters of one who has got everything through. */
  ghost predicate Welcome(cfg: Config, s: Counters, times: seq<int>) {
    && !s.ignored && (times == [] ==> s == NEW)
    && (times != [] ==> 1 <= s.msgnb <= cfg.maxNb && s.msgnb <= |times| && s.msgtime == times[|times| - s.msgnb])
  }

  lemma WelcomeStill(cfg: Config, s: Counters, times: seq<int>, now: int)
    requires cfg.maxNb >= 1 && Clock(times) && Welcome(cfg, s, times)
    requires |times| >= cfg.maxNb ==> times[|times| - cfg.maxNb] + cfg.maxTime < now
    ensures Accepts(cfg, s, now) && Welcome(cfg, Next(cfg, s, now), times + [now])
  {
  }

  lemma SpacedFront(front: seq<int>, now: int, times: seq<int>, b: int, t: int)
    requires times == front + [now] && Clock(times) && Spaced(times, b, t) && b > 0
    ensures Clock(front) && Spaced(front, b, t) && (|front| >= b ==> front[|front| - b] + t < now)
  {
    assert forall i :: 0 <= i < |front| ==> front[i] == times[i];
    if |front| >= b {
      assert times[|front| - b] + t < times[|front|];
    }
  }

  /** Whoever sends at most maxmsgnb messages in every interval as long as maxmsgtime gets all of them through. */
  lemma {:induction false} NeverIgnored(cfg: Config, times: seq<int>)
    requires cfg.maxNb >= 1 && Clock(times) && Spaced(times, cfg.maxNb, cfg.maxTime)
    ensures Accepted(cfg, times) == times && Welcome(cfg, After(cfg, times), times)
  {
    if times != [] {
      var front, now := times[..|times| - 1], times[|times| - 1];
      SpacedFront(front, now, times, cfg.maxNb, cfg.maxTime);
      NeverIgnored(cfg, front);
      WelcomeStill(cfg, After(cfg, front), front, now);
      OneMore(cfg, front, now);
    }
  }

  /** Whoever sends one more than maxmsgnb messages within maxmsgtime of the first gets all but the last through, and is
      ignored from then on. */
  lemma OneTooMany(cfg: Config, times: seq<int>)
    requires cfg.maxNb >= 1 && Clock(times) && |times| == cfg.maxNb + 1 && times[cfg.maxNb] - times[0] <= cfg.maxTime
    ensures Accepted(cfg, times) == times[..cfg.maxNb]
    ensures var s := After(cfg, times); s.ignored && s.ignoretime == times[cfg.maxNb]
  {
    var front, now := times[..cfg.maxNb], times[cfg.maxNb];
    FirstWindow(cfg, front);
    OneMore(cfg, front, now);
    assert front + [now] == times;
  }

  lemma {:induction false} FirstWindow(cfg: Config, times: seq<int>)
    requires Clock(times) && 1 <= |times| <= cfg.maxNb && times[|times| - 1] - times[0] <= cfg.maxTime
    ensures Accepted(cfg, times) == times && After(cfg, times) == Counters(times[0], |times|, false, 0)
  {
    var front := times[..|times| - 1];
    if front == [] {
      assert After(cfg, front) == NEW;
    } else {
      FirstWindow(cfg, front);
    }
  }

  /** Nothing gets through until the ignore time is over, and then the next message does. */
  lemma {:induction false} IgnoredUntil(cfg: Config, times: seq<int>, more: seq<int>, now: int)
    requires After(cfg, times).ignored
    requires forall i :: 0 <= i < |more| ==> more[i] <= After(cfg, times).ignoretime + cfg.ignoreTime
    ensures After(cfg, times + more) == After(cfg, times)
    ensures Accepted(cfg, times + more + [now]) ==
      Accepted(cfg, times) + if now > After(cfg, times).ignoretime + cfg.ignoreTime then [now] else []
  {
    SilentWhile(cfg, times, more);
    OneMore(cfg, times + more, now);
  }

  lemma {:induction false} SilentWhile(cfg: Config, times: seq<int>, more: seq<int>)
    requires After(cfg, times).ignored
    requires forall i :: 0 <= i < |more| ==> more[i] <= After(cfg, times).ignoretime + cfg.ignoreTime
    ensures After(cfg, times + more) == After(cfg, times) && Accepted(cfg, times + more) == Accepted(cfg, times)
  {
    if more == [] {
      assert times + more == times;
    } else {
      var front := more[..|more| - 1];
      SilentWhile(cfg, times, front);
      OneMore(cfg, times + front, more[|more| - 1]);
      assert times + front + [more[|more| - 1]] == times + more;
    }
  }
}
