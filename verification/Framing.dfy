/** The receiving side of the connection: a sliding buffer that chunks of the stream are read into and lines are taken
    out of, as section 2.3.1 of RFC 1459 delimits them. */
module Framing {
  import opened Wrappers

  const CHUNKSIZE := 65536

  predicate Ends(c: char) {
    c == '\n' || c == '\r'
  }

  /** Text without a delimiter, and delimiters without text. */
  ghost predicate Open(s: string) {
    forall i :: 0 <= i < |s| ==> !Ends(s[i])
  }

  ghost predicate Gap(s: string) {
    forall i :: 0 <= i < |s| ==> Ends(s[i])
  }

  // ----- The stream cut at CR and LF.

  /** The lines that are complete, without the empty ones, and what is left over. */
  datatype Cut = Cut(lines: seq<string>, rest: string)

  function Feed(t: Cut, c: char): Cut {
    if !Ends(c) then Cut(t.lines, t.rest + [c])
    else if t.rest == "" then t
    else Cut(t.lines + [t.rest], "")
  }

  function CutFrom(t: Cut, s: string): Cut {
    if s == "" then t else Feed(CutFrom(t, s[..|s| - 1]), s[|s| - 1])
  }

  lemma {:induction false} CutJoin(t: Cut, a: string, b: string)
    ensures CutFrom(t, a + b) == CutFrom(CutFrom(t, a), b)
  {
    if b == "" {
      assert a + b == a;
    } else {
      assert (a + b)[..|a + b| - 1] == a + b[..|b| - 1];
      CutJoin(t, a, b[..|b| - 1]);
    }
  }

  lemma {:induction false} CutWord(t: Cut, s: string)
    requires Open(s)
    ensures CutFrom(t, s) == Cut(t.lines, t.rest + s)
  {
    if s != "" {
      assert s == s[..|s| - 1] + [s[|s| - 1]];
      CutWord(t, s[..|s| - 1]);
    }
  }

  lemma CutOne(t: Cut, c: char)
    ensures CutFrom(t, [c]) == Feed(t, c)
  {
    assert [c][..0] == "";
  }

  /** Delimiters close the line that is open, if there is one. */
  lemma {:induction false} CutGap(t: Cut, gap: string)
    requires Gap(gap)
    ensures CutFrom(t, gap) == if gap == "" || t.rest == "" then t else Cut(t.lines + [t.rest], "")
  {
    if gap != "" {
      assert gap == gap[..|gap| - 1] + [gap[|gap| - 1]];
      CutGap(t, gap[..|gap| - 1]);
    }
  }

  /** The lines with a gap before the first and after each of them. */
  function Woven(gaps: seq<string>, lines: seq<string>): string
    requires |gaps| == |lines| + 1
  {
    var n := |lines|;
    if n == 0 then gaps[0] else Woven(gaps[..n], lines[..n - 1]) + lines[n - 1] + gaps[n]
  }

  /** Gaps consist of delimiters, lines and the rest contain none, no line is empty, and after every line there is at
      least one delimiter. */
  ghost predicate Apart(gaps: seq<string>, lines: seq<string>, rest: string) {
    && |gaps| == |lines| + 1 && Open(rest)
    && (forall k :: 0 <= k < |gaps| ==> Gap(gaps[k]) && (k > 0 ==> gaps[k] != ""))
    && (forall k :: 0 <= k < |lines| ==> lines[k] != "" && Open(lines[k]))
  }

  lemma CutLineGap(lines: seq<string>, line: string, gap: string)
    requires line != "" && Open(line) && gap != "" && Gap(gap)
    ensures CutFrom(Cut(lines, ""), line + gap) == Cut(lines + [line], "")
  {
    CutJoin(Cut(lines, ""), line, gap);
    CutWord(Cut(lines, ""), line);
    assert "" + line == line;
    CutGap(Cut(lines, line), gap);
  }

  lemma ApartFront(gaps: seq<string>, lines: seq<string>)
    requires Apart(gaps, lines, "") && lines != []
    ensures var n := |lines|;
      && Apart(gaps[..n], lines[..n - 1], "")
      && lines[n - 1] != "" && Open(lines[n - 1]) && gaps[n] != "" && Gap(gaps[n])
  {
  }

  lemma {:induction false} CutWoven(gaps: seq<string>, lines: seq<string>)
    requires Apart(gaps, lines, "")
    ensures CutFrom(Cut([], ""), Woven(gaps, lines)) == Cut(lines, "")
  {
    var n := |lines|;
    if n == 0 {
      CutGap(Cut([], ""), gaps[0]);
    } else {
      ApartFront(gaps, lines);
      CutWoven(gaps[..n], lines[..n - 1]);
      CutPast(Woven(gaps[..n], lines[..n - 1]), lines[..n - 1], lines[n - 1], gaps[n]);
      assert lines[..n - 1] + [lines[n - 1]] == lines;
    }
  }

  lemma CutPast(front: string, lines: seq<string>, line: string, gap: string)
    requires CutFrom(Cut([], ""), front) == Cut(lines, "") && line != "" && Open(line) && gap != "" && Gap(gap)
    ensures CutFrom(Cut([], ""), front + line + gap) == Cut(lines + [line], "")
  {
    CutLineGap(lines, line, gap);
    CutJoin(Cut([], ""), front, line + gap);
    assert front + line + gap == front + (line + gap);
  }

  lemma WovenOn(gaps: seq<string>, lines: seq<string>, c: char)
    requires |gaps| == |lines| + 1
    ensures var n := |lines|; Woven(gaps[n := gaps[n] + [c]], lines) == Woven(gaps, lines) + [c]
  {
    var n := |lines|;
    assert gaps[n := gaps[n] + [c]][..n] == gaps[..n];
  }

  lemma WovenMore(gaps: seq<string>, lines: seq<string>, line: string, gap: string)
    requires |gaps| == |lines| + 1
    ensures Woven(gaps + [gap], lines + [line]) == Woven(gaps, lines) + line + gap
  {
    assert (gaps + [gap])[..|gaps|] == gaps && (lines + [line])[..|lines|] == lines;
  }

  lemma WovenFed(t: Cut, gaps: seq<string>, c: char) returns (more: seq<string>)
    requires Apart(gaps, t.lines, t.rest)
    ensures var r := Feed(t, c);
      Apart(more, r.lines, r.rest) && Woven(more, r.lines) + r.rest == Woven(gaps, t.lines) + t.rest + [c]
  {
    more := gaps;
    if Ends(c) && t.rest == "" {
      WovenOn(gaps, t.lines, c);
      more := gaps[|t.lines| := gaps[|t.lines|] + [c]];
    } else if Ends(c) {
      WovenMore(gaps, t.lines, t.rest, [c]);
      more := gaps + [[c]];
    }
  }

  lemma {:induction false} CutWeaves(s: string) returns (gaps: seq<string>)
    ensures var t := CutFrom(Cut([], ""), s); Apart(gaps, t.lines, t.rest) && s == Woven(gaps, t.lines) + t.rest
  {
    if s == "" {
      return [""];
    }
    var front, c := s[..|s| - 1], s[|s| - 1];
    gaps := CutWeaves(front);
    gaps := WovenFed(CutFrom(Cut([], ""), front), gaps, c);
    assert s == front + [c];
  }

  /** The cut of a stream is its only reading as lines that are not empty, set apart by delimiters, with a rest. */
  lemma CutIsSplit(s: string, lines: seq<string>, rest: string)
    ensures CutFrom(Cut([], ""), s) == Cut(lines, rest) <==>
      exists gaps :: Apart(gaps, lines, rest) && s == Woven(gaps, lines) + rest
  {
    if CutFrom(Cut([], ""), s) == Cut(lines, rest) {
      var gaps := CutWeaves(s);
    }
    if gaps :| Apart(gaps, lines, rest) && s == Woven(gaps, lines) + rest {
      CutWoven(gaps, lines);
      CutJoin(Cut([], ""), Woven(gaps, lines), rest);
      CutWord(Cut(lines, ""), rest);
      assert "" + rest == rest;
    }
  }

  /** CR and LF each end a line, and no other character does. */
  lemma DelimitersExactly(a: string, c: char, b: string)
    requires a != "" && forall d :: d in a + b ==> d != '\r' && d != '\n'
    ensures CutFrom(Cut([], ""), a + [c] + b) == if c == '\r' || c == '\n' then Cut([a], b) else Cut([], a + [c] + b)
  {
    assert forall i :: 0 <= i < |a| ==> a[i] in a + b;
    assert forall i :: 0 <= i < |b| ==> b[i] in a + b;
    CutAround(a, c, b);
  }

  lemma CutAround(a: string, c: char, b: string)
    requires a != "" && Open(a) && Open(b)
    ensures CutFrom(Cut([], ""), a + [c] + b) == if Ends(c) then Cut([a], b) else Cut([], a + [c] + b)
  {
    if Ends(c) {
      CutPast("", [], a, [c]);
      assert "" + a + [c] == a + [c] && [] + [a] == [a];
      CutJoin(Cut([], ""), a + [c], b);
      CutWord(Cut([a], ""), b);
      assert "" + b == b;
    } else {
      var s := a + [c] + b;
      CutWord(Cut([], ""), s);
      assert "" + s == s;
    }
  }

  // ----- The buffer.

  ghost predicate NulFree(s: string) {
    forall i :: 0 <= i < |s| ==> s[i] != '\0'
  }

  /** A NUL-terminated text in a buffer. */
  ghost predicate Holds(b: seq<char>, at: nat, s: string) {
    at + |s| < |b| && b[at + |s|] == '\0' && NulFree(s) && forall j :: 0 <= j < |s| ==> b[at + j] == s[j]
  }

  lemma HoldsTail(b: seq<char>, at: nat, s: string)
    requires Holds(b, at, s)
    ensures at < |b| && (s == "" <==> b[at] == '\0')
    ensures s != "" ==> b[at] == s[0] && Holds(b, at + 1, s[1..])
  {
    if s != "" {
      assert b[at + 0] == s[0];
      forall j | 0 <= j < |s| - 1
        ensures b[at + 1 + j] == s[1..][j]
      {
        assert b[at + (j + 1)] == s[j + 1];
      }
    }
  }

  /** A copy under way: the first `dest` characters of `s` are at the start of the buffer, the `rest` of it is still
      where it was. */
  ghost predicate Copied(was: seq<char>, now: seq<char>, at: nat, dest: nat, s: string, rest: string) {
    && dest <= at <= |now| == |was| && dest + |rest| == |s| && s == now[..dest] + rest
    && Holds(was, at, rest) && now[at..] == was[at..]
  }

  lemma CopyOne(was: seq<char>, now: seq<char>, at: nat, dest: nat, s: string, rest: string)
    requires Copied(was, now, at, dest, s, rest) && at < |now| && now[at] != '\0'
    ensures rest != "" && at + 1 < |now| && Copied(was, now[dest := now[at]], at + 1, dest + 1, s, rest[1..])
  {
    HoldsTail(was, at, rest);
    assert now[at] == now[at..][0];
    assert now[dest := now[at]][..dest + 1] == now[..dest] + [rest[0]];
    assert now[dest := now[at]][at + 1..] == now[at..][1..] && was[at + 1..] == was[at..][1..];
  }

  lemma CopyEnds(was: seq<char>, now: seq<char>, at: nat, dest: nat, s: string, rest: string)
    requires Copied(was, now, at, dest, s, rest) && at < |now| && now[at] == '\0'
    ensures rest == "" && now[..dest] == s
  {
    HoldsTail(was, at, rest);
    assert now[at] == now[at..][0];
  }

  class Input {
    const chunkbuf: array<char>
    var nextline: nat
    ghost var pending: string

    /** The text from `nextline` to the next NUL is what has been read and not yet taken out. */
    ghost predicate Valid()
      reads this, chunkbuf
    {
      chunkbuf.Length == CHUNKSIZE && |pending| <= CHUNKSIZE - 10 && Holds(chunkbuf[..], nextline, pending)
    }

    constructor ()
      ensures Valid() && pending == "" && fresh(chunkbuf)
    {
      chunkbuf := new char[CHUNKSIZE](i => '\0');
      nextline := 0;
      pending := "";
    }

    /** strlen and the copying loop of read_chunk: what is pending is moved to the start of the buffer. */
    method MoveToFront() returns (oldbytes: nat)
      requires Valid()
      modifies this`nextline, chunkbuf
      ensures oldbytes == |pending| && chunkbuf[..oldbytes] == pending
      ensures oldbytes <= nextline < CHUNKSIZE && chunkbuf[nextline] == '\0'
    {
      var dest := 0;
      ghost var was, rest := chunkbuf[..], pending;
      HoldsTail(was, nextline, rest);
      while chunkbuf[nextline] != '\0'
        invariant nextline < CHUNKSIZE && Copied(was, chunkbuf[..], nextline, dest, pending, rest)
        decreases |rest|
      {
        CopyOne(was, chunkbuf[..], nextline, dest, pending, rest);
        chunkbuf[dest] := chunkbuf[nextline];
        rest := rest[1..];
        dest := dest + 1;
        nextline := nextline + 1;
      }
      CopyEnds(was, chunkbuf[..], nextline, dest, pending, rest);
      return dest;
    }

    /** read_chunk, when `stream` is what the other side has yet to deliver and `size` characters of it have arrived:
        the kernel gives out at most as much as was asked for. Nothing means that the connection is closed or has
        failed; then what was pending is lost. */
    method ReadChunk(stream: string, size: nat) returns (ok: bool, data: string)
      requires Valid() && NulFree(stream)
      modifies this, chunkbuf
      ensures Valid() && ok == (data != "")
      ensures data == Arriving(stream, old(|pending|), size)
      ensures pending == if ok then old(pending) + data else ""
    {
      var oldbytes := MoveToFront();
      data := Arriving(stream, oldbytes, size);
      if |data| <= 0 {
        pending := "";
        return false, data;
      }
      for k := 0 to |data|
        invariant pending == old(pending) && forall j :: 0 <= j < oldbytes ==> chunkbuf[j] == pending[j]
        invariant forall j :: 0 <= j < k ==> chunkbuf[oldbytes + j] == data[j]
      {
        chunkbuf[oldbytes + k] := data[k];
      }
      chunkbuf[oldbytes + |data|] := '\0';
      nextline := 0;
      Joined(chunkbuf[..], pending, data);
      pending := pending + data;
      return true, data;
    }

    /** The loop of read_line: the text before the first delimiter, or all of it, is stepped over. */
    method SkipText() returns (ghost text: string)
      requires Valid()
      modifies this`nextline, this`pending
      ensures Valid() && old(pending) == text + pending && (pending == "" || Ends(pending[0]))
      ensures Open(text) && old(nextline) <= nextline <= CHUNKSIZE && chunkbuf[old(nextline)..nextline] == text
    {
      ghost var currentline := nextline;
      text := "";
      while chunkbuf[nextline] != '\n' && chunkbuf[nextline] != '\r' && chunkbuf[nextline] != '\0'
        invariant Valid() && old(pending) == text + pending && Open(text)
        invariant currentline <= nextline && chunkbuf[currentline..nextline] == text
        decreases |pending|
      {
        HoldsTail(chunkbuf[..], nextline, pending);
        text, pending := text + [pending[0]], pending[1..];
        nextline := nextline + 1;
      }
      HoldsTail(chunkbuf[..], nextline, pending);
    }

    /** A delimiter is overwritten and stepped over. */
    method SkipDelimiter()
      requires Valid() && pending != ""
      modifies this, chunkbuf
      ensures Valid() && pending == old(pending)[1..]
    {
      HoldsTail(chunkbuf[..], nextline, pending);
      chunkbuf[nextline] := '\0';
      nextline, pending := nextline + 1, pending[1..];
    }

    /** read_line: the text up to the next CR or LF, and the one or two delimiters that follow are stepped over. None
        when there is no complete line. */
    method ReadLine() returns (line: Option<string>)
      requires Valid()
      modifies this, chunkbuf
      ensures Valid()
      ensures line.None? ==> pending == old(pending) && Open(pending)
      ensures line.Some? ==> Taken(old(pending), line.value, pending)
    {
      ghost var was := pending;
      var currentline := nextline;
      ghost var text := SkipText();
      ghost var after := pending;
      HoldsTail(chunkbuf[..], nextline, after);
      if chunkbuf[nextline] == '\0' {
        assert was == text;
        nextline, pending := currentline, was;
        return None;
      }
      line := Some(chunkbuf[currentline..nextline]);
      SkipDelimiter();
      HoldsTail(chunkbuf[..], nextline, pending);
      if chunkbuf[nextline] == '\n' || chunkbuf[nextline] == '\r' {
        SkipDelimiter();
        assert pending == after[2..];
      }
      TakenFrom(text, after, pending);
    }

    /** The loop around read_line: lines are taken out until no complete line is pending. Those that are not empty are
        added to `before`. */
    method TakeLines(before: seq<string>, ghost start: seq<Step>) returns (lines: seq<string>, ghost steps: seq<Step>)
      requires Valid() && Run(start, before, pending)
      modifies this, chunkbuf
      ensures Valid() && Run(steps, lines, pending) && Stream(steps) == Stream(start) && Open(pending)
    {
      lines, steps := before, start;
      while true
        invariant Valid() && Run(steps, lines, pending) && Stream(steps) == Stream(start)
        decreases |pending|
      {
        ghost var was := pending;
        var line := ReadLine();
        if line.None? {
          return;
        }
        RunLine(steps, lines, was, line.value, pending);
        lines, steps := More(lines, line.value), steps + [Line];
      }
    }

    /** A read, and then the complete lines are taken out. */
    method ReadAndTake(stream: string, size: nat, before: seq<string>, ghost start: seq<Step>)
      returns (ok: bool, data: string, lines: seq<string>, ghost steps: seq<Step>)
      requires Valid() && NulFree(stream) && Run(start, before, pending)
      modifies this, chunkbuf
      ensures Valid() && ok == (data != "") && data == Arriving(stream, old(|pending|), size)
      ensures if ok then Run(steps, lines, pending) && Stream(steps) == Stream(start) + data && Open(pending)
        else lines == before && steps == start && pending == ""
    {
      ghost var was := pending;
      ok, data := ReadChunk(stream, size);
      if ok {
        RunChunk(start, before, was, data);
        lines, steps := TakeLines(before, start + [Chunk(data)]);
      } else {
        lines, steps := before, start;
      }
    }

    /** The program on a stream, of which `sizes[k]` more characters have arrived at the k-th read, until nothing can be
        read. It has taken the lines of what has been read, without the empty ones, and it goes on exactly while
        characters arrive and the open line leaves room in the buffer. */
    method Serve(stream: string, sizes: seq<nat>) returns (ok: bool, count: nat, got: nat, lines: seq<string>)
      requires Valid() && pending == "" && NulFree(stream)
      modifies this, chunkbuf
      ensures Valid() && Scheduled(stream, sizes, count, got)
      ensures if ok then count == |sizes| else count < |sizes| && !Gives(stream, got, sizes[count])
      ensures var t := CutFrom(Cut([], ""), stream[..got]); lines == t.lines && pending == if ok then t.rest else ""
    {
      ok, count, got, lines := true, 0, 0, [];
      ghost var steps: seq<Step> := [];
      assert sizes[..0] == [] && Served(steps, lines, pending, stream[..got]);
      while count < |sizes|
        invariant Valid() && ok && Scheduled(stream, sizes, count, got) && Served(steps, lines, pending, stream[..got])
      {
        ghost var was := pending;
        ServedCut(steps, lines, was, stream[..got]);
        var data;
        ok, data, lines, steps := ReadAndTake(stream[got..], sizes[count], lines, steps);
        OneMoreRead(stream, sizes, count, got, was, data);
        if !ok {
          return;
        }
        Further(stream, got, data);
        count, got := count + 1, got + |data|;
      }
      ServedCut(steps, lines, pending, stream[..got]);
    }
  }

  /** What a read gives out of `stream` when `size` characters of it have arrived and `oldbytes` are pending. */
  function Arriving(stream: string, oldbytes: nat, size: nat): (data: string)
    requires oldbytes <= CHUNKSIZE - 10
    ensures data <= stream
  {
    stream[..Least(|stream|, Least(size, CHUNKSIZE - oldbytes - 10))]
  }

  /** The line that is open after a part of the stream. */
  function OpenLine(read: string): string {
    CutFrom(Cut([], ""), read).rest
  }

  /** Something arrives, and there is room for some of it. */
  predicate Gives(stream: string, got: nat, size: nat)
    requires got <= |stream|
  {
    size > 0 && got < |stream| && |OpenLine(stream[..got])| < CHUNKSIZE - 10
  }

  /** How much of the stream has been read after these reads. */
  function Arrived(stream: string, sizes: seq<nat>): (got: nat)
    ensures got <= |stream|
    decreases |sizes|
  {
    if sizes == [] then 0
    else
      var before := Arrived(stream, sizes[..|sizes| - 1]);
      if Gives(stream, before, sizes[|sizes| - 1]) then
        before + Least(|stream| - before, Least(sizes[|sizes| - 1], CHUNKSIZE - |OpenLine(stream[..before])| - 10))
      else before
  }

  /** Every one of the first `count` reads has given something, and this is how much. */
  ghost predicate Scheduled(stream: string, sizes: seq<nat>, count: nat, got: nat) {
    && count <= |sizes| && got == Arrived(stream, sizes[..count])
    && forall k :: 0 <= k < count ==> Gives(stream, Arrived(stream, sizes[..k]), sizes[k])
  }

  lemma OneMoreRead(stream: string, sizes: seq<nat>, count: nat, got: nat, pending: string, data: string)
    requires Scheduled(stream, sizes, count, got) && count < |sizes| && pending == OpenLine(stream[..got])
    requires |pending| <= CHUNKSIZE - 10 && data == Arriving(stream[got..], |pending|, sizes[count])
    ensures data != "" <==> Gives(stream, got, sizes[count])
    ensures data != "" ==> Scheduled(stream, sizes, count + 1, got + |data|)
  {
    var more := sizes[..count + 1];
    assert more[..|more| - 1] == sizes[..count] && more[|more| - 1] == sizes[count];
  }

  ghost predicate Served(steps: seq<Step>, lines: seq<string>, pending: string, read: string) {
    Run(steps, lines, pending) && Open(pending) && Stream(steps) == read
  }

  lemma ServedCut(steps: seq<Step>, lines: seq<string>, pending: string, read: string)
    requires Served(steps, lines, pending, read)
    ensures CutFrom(Cut([], ""), read) == Cut(lines, pending)
  {
    AllLinesTaken(steps, lines, pending);
  }

  function Least(a: int, b: int): int {
    if a < b then a else b
  }

  lemma Further(stream: string, got: nat, data: string)
    requires got <= |stream| && data <= stream[got..]
    ensures got + |data| <= |stream| && stream[..got + |data|] == stream[..got] + data
  {
  }

  lemma RunChunk(steps: seq<Step>, lines: seq<string>, before: string, data: string)
    requires Run(steps, lines, before) && data != ""
    ensures var more := steps + [Chunk(data)]; Run(more, lines, before + data) && Stream(more) == Stream(steps) + data
  {
    assert (steps + [Chunk(data)])[..|steps|] == steps;
  }

  lemma RunLine(steps: seq<Step>, lines: seq<string>, was: string, line: string, now: string)
    requires Run(steps, lines, was) && Taken(was, line, now)
    ensures Run(steps + [Line], More(lines, line), now) && Stream(steps + [Line]) == Stream(steps)
  {
    assert (steps + [Line])[..|steps|] == steps;
  }

  lemma TakenFrom(text: string, after: string, now: string)
    requires Open(text) && after != "" && Ends(after[0])
    requires now == after[1..] || (|after| > 1 && Ends(after[1]) && now == after[2..])
    ensures Taken(text + after, text, now)
  {
  }

  lemma Joined(b: seq<char>, s: string, t: string)
    requires |s| + |t| < |b| && b[|s| + |t|] == '\0' && NulFree(s) && NulFree(t)
    requires forall j :: 0 <= j < |s| ==> b[j] == s[j]
    requires forall j :: 0 <= j < |t| ==> b[|s| + j] == t[j]
    ensures Holds(b, 0, s + t)
  {
    forall j | 0 <= j < |s + t|
      ensures b[0 + j] == (s + t)[j] && (s + t)[j] != '\0'
    {
      if |s| <= j {
        assert b[|s| + (j - |s|)] == t[j - |s|];
      }
    }
  }

  /** A line is the text before the first delimiter; it and one or two delimiters are gone. */
  ghost predicate Taken(was: string, line: string, now: string) {
    && |line| < |was| && line == was[..|line|] && Open(line) && Ends(was[|line|])
    && (now == was[|line| + 1..] || (|line| + 1 < |was| && Ends(was[|line| + 1]) && now == was[|line| + 2..]))
  }

  // ----- Chunk independence.

  /** The lines that are not empty. */
  function More(lines: seq<string>, line: string): seq<string> {
    if line == "" then lines else lines + [line]
  }

  lemma CutLine(lines: seq<string>, line: string, c: char)
    requires (forall d :: d in line ==> !Ends(d)) && Ends(c)
    ensures CutFrom(Cut(lines, ""), line + [c]) == Cut(More(lines, line), "")
  {
    CutWord(Cut(lines, ""), line);
    CutJoin(Cut(lines, ""), line, [c]);
    CutOne(Cut(lines, line), c);
    assert "" + line == line;
  }

  /** A delimiter after a line is an empty line. */
  lemma CutSecond(lines: seq<string>, after: string)
    requires after != "" && Ends(after[0])
    ensures CutFrom(Cut(lines, ""), after) == CutFrom(Cut(lines, ""), after[1..])
  {
    CutOne(Cut(lines, ""), after[0]);
    CutJoin(Cut(lines, ""), [after[0]], after[1..]);
    assert after == [after[0]] + after[1..];
  }

  /** Taking a line out is cutting it off the text. */
  lemma TakenIsCut(was: string, line: string, now: string, lines: seq<string>)
    requires Taken(was, line, now)
    ensures CutFrom(Cut(lines, ""), was) == CutFrom(Cut(More(lines, line), ""), now)
  {
    var n, after := |line|, was[|line| + 1..];
    CutLine(lines, line, was[n]);
    CutJoin(Cut(lines, ""), line + [was[n]], after);
    assert was == line + [was[n]] + after;
    if now != after {
      CutSecond(More(lines, line), after);
      assert after[1..] == was[n + 2..];
    }
  }

  datatype Step = Chunk(data: string) | Line

  /** What a run of reads and of takings of lines comes to: the lines taken that were not empty, and what is pending. A
      step is one of those that ReadChunk and ReadLine allow. */
  ghost predicate Run(steps: seq<Step>, lines: seq<string>, pending: string)
    decreases |steps|
  {
    if steps == [] then lines == [] && pending == ""
    else
      match steps[|steps| - 1]
      case Chunk(data) =>
        exists before :: Run(steps[..|steps| - 1], lines, before) && data != "" && pending == before + data
      case Line =>
        || (Run(steps[..|steps| - 1], lines, pending) && Open(pending))
        || (exists before, was, line :: Run(steps[..|steps| - 1], before, was)
              && Taken(was, line, pending) && lines == More(before, line))
  }

  /** All the data that has been read. */
  function Stream(steps: seq<Step>): string {
    if steps == [] then ""
    else Stream(steps[..|steps| - 1]) + match steps[|steps| - 1] case Chunk(data) => data case Line => ""
  }

  /** However the stream is sliced into chunks and whenever lines are taken out, the lines taken and what is pending,
      cut up, are the stream cut up. */
  lemma {:induction false} ChunkIndependence(steps: seq<Step>, lines: seq<string>, pending: string)
    requires Run(steps, lines, pending)
    ensures CutFrom(Cut(lines, ""), pending) == CutFrom(Cut([], ""), Stream(steps))
    decreases |steps|
  {
    if steps != [] {
      var front := steps[..|steps| - 1];
      match steps[|steps| - 1] {
        case Chunk(data) =>
          var before :| Run(front, lines, before) && data != "" && pending == before + data;
          ChunkIndependence(front, lines, before);
          CutJoin(Cut(lines, ""), before, data);
          CutJoin(Cut([], ""), Stream(front), data);
        case Line =>
          assert Stream(steps) == Stream(front);
          if Run(front, lines, pending) {
            ChunkIndependence(front, lines, pending);
          } else {
            var before, was, line :| Run(front, before, was) && Taken(was, line, pending) && lines == More(before, line);
            ChunkIndependence(front, before, was);
            TakenIsCut(was, line, pending, before);
          }
      }
    }
  }

  /** Once no complete line is pending, the lines taken are all the lines of the stream and what is pending is what is
      left over of it; so two runs over the same stream have taken the same lines. */
  lemma AllLinesTaken(steps: seq<Step>, lines: seq<string>, pending: string)
    requires Run(steps, lines, pending) && Open(pending)
    ensures Cut(lines, pending) == CutFrom(Cut([], ""), Stream(steps))
  {
    ChunkIndependence(steps, lines, pending);
    CutWord(Cut(lines, ""), pending);
    assert "" + pending == pending;
  }
}
