/** The sending side of the connection: lines are queued in a buffer that the kernel empties at its own pace. */
module SendQueue {

  const SENDQSIZE := 65536

  /** The line that is sent for a message: vsnprintf and snprintf cut it to what their buffers hold. */
  function Wire(msg: string): (r: string)
    ensures |r| <= 1023
  {
    var buf := if |msg| > 1022 then msg[..1022] else msg;
    if |buf| + 2 > 1023 then (buf + "\r\n")[..1023] else buf + "\r\n"
  }

  /** A message ends in both delimiters exactly when it has at most 1021 characters; with 1022 or more the last
      delimiter is lost. */
  lemma WireWhole(msg: string)
    ensures Wire(msg) == msg + "\r\n" <==> |msg| <= 1021
    ensures |msg| >= 1022 ==> Wire(msg) == msg[..1022] + "\r"
  {
    if |msg| >= 1022 {
      assert (msg[..1022] + "\r\n")[..1023] == msg[..1022] + "\r";
    }
  }

  class SendQ {
    const outbuf: array<char>
    var writebytes: nat

    ghost predicate Valid()
      reads this, outbuf
    {
      outbuf.Length == SENDQSIZE && writebytes < SENDQSIZE
    }

    ghost function Queued(): string
      requires Valid()
      reads this, outbuf
    {
      outbuf[..writebytes]
    }

    constructor ()
      ensures Valid() && Queued() == "" && fresh(outbuf)
    {
      outbuf := new char[SENDQSIZE](i => '\0');
      writebytes := 0;
    }

    /** The part of send_raw that queues: a line that does not fit is rejected. strncpy fills up with NULs. */
    method SendRaw(msg: string) returns (accepted: bool)
      requires Valid()
      modifies this, outbuf
      ensures Valid() && accepted == Fits(old(Queued()), msg)
      ensures Queued() == Enqueued(old(Queued()), msg)
    {
      var tmp := Wire(msg);
      var len := |tmp|;
      if len + writebytes >= SENDQSIZE {
        return false;
      }
      var n := SENDQSIZE - writebytes - 1;
      for i := 0 to n
        invariant writebytes == old(writebytes) && outbuf[..writebytes] == old(outbuf[..writebytes])
        invariant forall j :: 0 <= j < i && j < len ==> outbuf[writebytes + j] == tmp[j]
      {
        outbuf[writebytes + i] := if i < len then tmp[i] else '\0';
      }
      assert outbuf[writebytes..writebytes + len] == tmp;
      assert outbuf[..writebytes + len] == outbuf[..writebytes] + outbuf[writebytes..writebytes + len];
      writebytes := writebytes + len;
      return true;
    }

    /** flush_sendq, when the kernel takes the first `bytes` of what is queued, or fails when it is negative. */
    method FlushSendq(bytes: int) returns (ret: int, sent: string)
      requires Valid() && bytes <= writebytes
      modifies this, outbuf
      ensures Valid() && (ret == 0 || ret == -1) && (ret == -1 <==> old(writebytes) > 0 && bytes < 0)
      ensures sent == (if bytes < 0 then "" else old(Queued())[..bytes])
      ensures old(Queued()) == sent + Queued()
    {
      sent := "";
      if writebytes == 0 {
        return 0, "";
      }
      var len := writebytes;
      if bytes < 0 {
        return -1, "";
      }
      ghost var was := outbuf[..writebytes];
      sent := outbuf[..bytes];
      for i := 0 to len - bytes
        invariant writebytes == len
        invariant forall j :: 0 <= j < i ==> outbuf[j] == was[bytes + j]
        invariant forall j :: i + bytes <= j < len ==> outbuf[j] == was[j]
        invariant bytes == 0 ==> outbuf[..len] == was
      {
        outbuf[i] := outbuf[bytes + i];
      }
      assert outbuf[..len - bytes] == was[bytes..];
      outbuf[len - bytes] := '\0';
      writebytes := len - bytes;
      assert outbuf[..len - bytes] == was[bytes..];
      return 0, sent;
    }

    /** Messages and sends in any order: what the kernel was given, what is still queued and the lines accepted are the
        history of these steps. */
    method Perform(steps: seq<Step>) returns (sent: string, accepted: seq<string>)
      requires Valid() && Queued() == ""
      modifies this, outbuf
      ensures Valid() && History(sent, Queued(), accepted) == Run(steps)
      ensures sent + Queued() == Concat(accepted)
    {
      sent, accepted := "", [];
      for k := 0 to |steps|
        invariant Valid() && History(sent, Queued(), accepted) == Run(steps[..k])
      {
        ghost var was := Queued();
        assert steps[..k + 1][..k] == steps[..k];
        match steps[k] {
          case Enqueue(msg) =>
            var ok := SendRaw(msg);
            if ok {
              accepted := accepted + [Wire(msg)];
            }
          case Flush(bytes) =>
            if bytes <= writebytes {
              var ret, out := FlushSendq(bytes);
              sent := sent + out;
              assert bytes >= 0 ==> Queued() == was[bytes..];
            }
        }
      }
      assert steps[..|steps|] == steps;
      FirstInFirstOut(steps);
    }
  }

  // ----- The queue over time.

  predicate Fits(queued: string, msg: string) {
    |Wire(msg)| + |queued| < SENDQSIZE
  }

  function Enqueued(queued: string, msg: string): string {
    if Fits(queued, msg) then queued + Wire(msg) else queued
  }

  datatype Step = Enqueue(msg: string) | Flush(bytes: int)

  /** What has been sent, what is queued, and the lines accepted. */
  datatype History = History(sent: string, queued: string, accepted: seq<string>)

  function Next(h: History, s: Step): History {
    match s
    case Enqueue(msg) =>
      if Fits(h.queued, msg) then History(h.sent, h.queued + Wire(msg), h.accepted + [Wire(msg)]) else h
    case Flush(bytes) =>
      if 0 <= bytes <= |h.queued| then History(h.sent + h.queued[..bytes], h.queued[bytes..], h.accepted) else h
  }

  function Run(steps: seq<Step>): History {
    if steps == [] then History("", "", []) else Next(Run(steps[..|steps| - 1]), steps[|steps| - 1])
  }

  function Concat(lines: seq<string>): string {
    if lines == [] then "" else Concat(lines[..|lines| - 1]) + lines[|lines| - 1]
  }

  ghost predicate InOrder(h: History) {
    h.sent + h.queued == Concat(h.accepted) && |h.queued| < SENDQSIZE
  }

  lemma ConcatMore(lines: seq<string>, line: string)
    ensures Concat(lines + [line]) == Concat(lines) + line
  {
    assert (lines + [line])[..|lines|] == lines;
  }

  lemma StepKeepsOrder(h: History, s: Step)
    requires InOrder(h)
    ensures InOrder(Next(h, s))
  {
    match s {
      case Enqueue(msg) =>
        ConcatMore(h.accepted, Wire(msg));
        assert h.sent + (h.queued + Wire(msg)) == h.sent + h.queued + Wire(msg);
      case Flush(bytes) =>
        if 0 <= bytes <= |h.queued| {
          assert h.sent + h.queued[..bytes] + h.queued[bytes..] == h.sent + h.queued;
        }
    }
  }

  /** For every interleaving of messages and partial sends, what has been sent followed by what is queued is the
      accepted lines one after the other, and the queue stays below the size of its buffer. */
  lemma {:induction false} FirstInFirstOut(steps: seq<Step>)
    ensures var h := Run(steps); h.sent + h.queued == Concat(h.accepted) && |h.queued| < SENDQSIZE
  {
    if steps != [] {
      FirstInFirstOut(steps[..|steps| - 1]);
      StepKeepsOrder(Run(steps[..|steps| - 1]), steps[|steps| - 1]);
    }
  }

  /** Enough sends of at least one byte each empty the queue: everything accepted is then sent. */
  lemma {:induction false} Drains(steps: seq<Step>, sends: seq<Step>)
    requires |sends| == |Run(steps).queued|
    requires forall i :: 0 <= i < |sends| ==> sends[i] == Flush(1)
    ensures Run(steps + sends).sent == Concat(Run(steps).accepted) && Run(steps + sends).queued == ""
    decreases |sends|
  {
    FirstInFirstOut(steps);
    if sends == [] {
      assert steps + sends == steps;
    } else {
      var more := steps + [sends[0]];
      assert more[..|more| - 1] == steps;
      Drains(more, sends[1..]);
      assert more + sends[1..] == steps + sends;
    }
  }

  // ----- What is accepted.

  /** A message is accepted exactly when the queue stays below the size of its buffer with it, and the kernel takes from
      the front. */
  lemma AcceptedExactly(steps: seq<Step>, msg: string, bytes: nat)
    ensures var h, t := Run(steps), Run(steps + [Enqueue(msg)]);
      var wire := if |msg| <= 1021 then msg + "\r\n" else msg[..if |msg| > 1022 then 1022 else |msg|] + "\r";
      t == if |h.queued| + |wire| < 65536 then History(h.sent, h.queued + wire, h.accepted + [wire]) else h
    ensures var h, t := Run(steps), Run(steps + [Flush(bytes)]);
      bytes <= |h.queued| ==> t.accepted == h.accepted && t.sent + t.queued == h.sent + h.queued && |t.sent| == |h.sent| + bytes
  {
    WireWhole(msg);
    StepMore(steps, Enqueue(msg));
    StepMore(steps, Flush(bytes));
    var h := Run(steps);
    if bytes <= |h.queued| {
      assert h.queued[..bytes] + h.queued[bytes..] == h.queued;
    }
  }

  lemma StepMore(steps: seq<Step>, s: Step)
    ensures Run(steps + [s]) == Next(Run(steps), s)
  {
    assert (steps + [s])[..|steps|] == steps;
  }
}
