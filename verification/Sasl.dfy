/** The PLAIN mechanism: a Base64 payload of at most 400 bytes, split at its first two NULs, as in section 2 of
    RFC 4616. */
module Sasl {
  import opened Wrappers
  import opened Base64

  type Bytes = seq<byte>

  /** memchr for a NUL. */
  function FirstNul(d: Bytes, from: nat): (r: Option<nat>)
    requires from <= |d|
    ensures r.Some? ==> from <= r.value < |d| && d[r.value] == 0 && forall j :: from <= j < r.value ==> d[j] != 0
    ensures r.None? ==> forall j :: from <= j < |d| ==> d[j] != 0
    decreases |d| - from
  {
    if from == |d| then None else if d[from] == 0 then Some(from) else FirstNul(d, from + 1)
  }

  datatype Credentials = Credentials(authcid: Bytes, password: Bytes)

  /** What the payload says, if it has at least two NULs: what is between the first two, and what is between the second
      and the next or the end. */
  function Split(d: Bytes): Option<Credentials> {
    match FirstNul(d, 0)
    case None => None
    case Some(i) =>
      match FirstNul(d, i + 1)
      case None => None
      case Some(j) =>
        var end := FirstNul(d, j + 1);
        Some(Credentials(d[i + 1..j], d[j + 1..if end.Some? then end.value else |d|]))
  }

  /** sasl_start_session, up to the lookup of the account: the buffer of 401 bytes is cleared, and b64_decode is told
      that it has 400. */
  function Plain(payload: string): Option<Credentials> {
    if Result(payload, 400) < 0 then None
    else
      match Decode(Strip(payload))
      case None => None
      case Some(d) => Split(d)
  }

  /** The length of the C string at a place of the buffer. */
  method CString(buffer: array<byte>, from: nat) returns (s: Bytes)
    requires from < buffer.Length && buffer[buffer.Length - 1] == 0
    ensures from + |s| < buffer.Length && s == buffer[from..from + |s|] && buffer[from + |s|] == 0
    ensures forall b :: b in s ==> b != 0
  {
    var i := from;
    while buffer[i] != 0
      invariant from <= i < buffer.Length
      invariant forall j :: from <= j < i ==> buffer[j] != 0
      decreases buffer.Length - i
    {
      i := i + 1;
    }
    s := buffer[from..i];
  }

  method Memchr(buffer: array<byte>, from: nat, to: nat) returns (r: Option<nat>)
    requires from <= to <= buffer.Length
    ensures r == FirstNul(buffer[..to], from)
  {
    for i := from to to
      invariant FirstNul(buffer[..to], from) == FirstNul(buffer[..to], i)
    {
      if buffer[i] == 0 {
        return Some(i);
      }
    }
    return None;
  }

  /** The payload is in the buffer, which is clear from there on. */
  method SplitBuffer(decoded: array<byte>, ret: nat) returns (r: Option<Credentials>)
    requires ret < decoded.Length && forall j :: ret <= j < decoded.Length ==> decoded[j] == 0
    ensures r == Split(decoded[..ret])
  {
    var first := Memchr(decoded, 0, ret);
    if first.None? {
      return None;
    }
    var second := Memchr(decoded, first.value + 1, ret);
    if second.None? {
      return None;
    }
    r := Strings(decoded, ret, first.value, second.value);
  }

  method Strings(decoded: array<byte>, ret: nat, first: nat, second: nat) returns (r: Option<Credentials>)
    requires ret < decoded.Length && forall j :: ret <= j < decoded.Length ==> decoded[j] == 0
    requires FirstNul(decoded[..ret], 0) == Some(first) && first < ret
    requires FirstNul(decoded[..ret], first + 1) == Some(second) && second < ret
    ensures r == Split(decoded[..ret])
  {
    ghost var buffer := decoded[..];
    assert buffer[..ret] == decoded[..ret];
    var authcid := StringAt(decoded, ret, first + 1);
    var password := StringAt(decoded, ret, second + 1);
    SplitIs(buffer, ret, first, second, Stop(buffer, ret, second + 1));
    r := Some(Credentials(authcid, password));
  }

  /** Where the C string at a place of the payload ends. */
  function Stop(buffer: Bytes, ret: nat, from: nat): (r: nat)
    requires from <= ret <= |buffer|
    ensures from <= r <= ret
  {
    var end := FirstNul(buffer[..ret], from);
    if end.Some? then end.value else ret
  }

  method StringAt(decoded: array<byte>, ret: nat, from: nat) returns (s: Bytes)
    requires from <= ret < decoded.Length && forall j :: ret <= j < decoded.Length ==> decoded[j] == 0
    ensures s == decoded[..][from..Stop(decoded[..], ret, from)]
  {
    s := CString(decoded, from);
    StringEnds(decoded[..], ret, from, s);
    assert decoded[from..from + |s|] == decoded[..][from..from + |s|];
  }

  /** sasl_start_session, up to the lookup of the account. */
  method StartSession(payload: string) returns (r: Option<Credentials>)
    requires forall c :: c in payload ==> c != '\0'
    ensures r == Plain(payload)
  {
    var decoded := new byte[401](i => 0);
    var ret := B64Decode(payload, decoded, 400);
    if ret < 0 {
      return None;
    }
    r := SplitBuffer(decoded, ret);
  }

  lemma SplitIs(buffer: Bytes, ret: nat, i: nat, j: nat, stop: nat)
    requires ret < |buffer| && FirstNul(buffer[..ret], 0) == Some(i) && i < ret && FirstNul(buffer[..ret], i + 1) == Some(j)
    requires j < ret && stop == Stop(buffer, ret, j + 1)
    ensures Split(buffer[..ret]) == Some(Credentials(buffer[i + 1..j], buffer[j + 1..stop]))
  {
    var d := buffer[..ret];
    assert Split(d) == Some(Credentials(d[i + 1..j], d[j + 1..stop]));
    SliceOf(buffer, ret, i + 1, j);
    SliceOf(buffer, ret, j + 1, stop);
  }

  lemma SliceOf(b: Bytes, n: nat, i: nat, j: nat)
    requires i <= j <= n <= |b|
    ensures b[..n][i..j] == b[i..j]
  {
  }

  /** A C string in the cleared buffer ends at the next NUL of the payload or at its end. */
  lemma StringEnds(buffer: Bytes, ret: nat, from: nat, s: Bytes)
    requires from <= ret < |buffer| && forall k :: ret <= k < |buffer| ==> buffer[k] == 0
    requires from + |s| < |buffer| && s == buffer[from..from + |s|] && buffer[from + |s|] == 0
    requires forall b :: b in s ==> b != 0
    ensures from + |s| == Stop(buffer, ret, from)
  {
    var stop := Stop(buffer, ret, from);
    assert buffer[stop] == 0;
    assert forall k :: 0 <= k < |s| ==> s[k] in s;
    assert forall k :: from <= k < from + |s| ==> buffer[k] == s[k - from];
    assert forall k :: from <= k < stop ==> buffer[..ret][k] != 0;
  }

  // ----- What the split recovers.

  ghost predicate NulFree(b: Bytes) {
    forall i :: 0 <= i < |b| ==> b[i] != 0
  }

  function Message(authzid: Bytes, authcid: Bytes, password: Bytes): Bytes {
    authzid + [0] + authcid + [0] + password
  }

  lemma {:induction false} FirstNulAt(d: Bytes, from: nat, i: nat)
    requires from <= i < |d| && d[i] == 0 && forall j :: from <= j < i ==> d[j] != 0
    ensures FirstNul(d, from) == Some(i)
    decreases i - from
  {
    if from < i {
      FirstNulAt(d, from + 1, i);
    }
  }

  /** Authentication identity and password are recovered from every message, whatever the authorization identity. */
  lemma SplitMessage(authzid: Bytes, authcid: Bytes, password: Bytes)
    requires NulFree(authzid) && NulFree(authcid) && NulFree(password)
    ensures Split(Message(authzid, authcid, password)) == Some(Credentials(authcid, password))
  {
    var d := Message(authzid, authcid, password);
    var i, j := |authzid|, |authzid| + 1 + |authcid|;
    FirstNulAt(d, 0, i);
    FirstNulAt(d, i + 1, j);
    assert forall k :: j < k < |d| ==> d[k] == password[k - j - 1];
    assert FirstNul(d, j + 1).None?;
    assert d[i + 1..j] == authcid && d[j + 1..] == password && d[j + 1..|d|] == d[j + 1..];
  }

  /** Whatever follows a NUL after the password is not part of it. */
  lemma SplitTrailing(authzid: Bytes, authcid: Bytes, password: Bytes, rest: Bytes)
    requires NulFree(authzid) && NulFree(authcid) && NulFree(password)
    ensures Split(Message(authzid, authcid, password) + [0] + rest) == Some(Credentials(authcid, password))
  {
    var d := Message(authzid, authcid, password) + [0] + rest;
    var i, j := |authzid|, |authzid| + 1 + |authcid|;
    FirstNulAt(d, 0, i);
    FirstNulAt(d, i + 1, j);
    FirstNulAt(d, j + 1, j + 1 + |password|);
    assert d[i + 1..j] == authcid && d[j + 1..j + 1 + |password|] == password;
  }

  /** So they are from its Base64, with white space anywhere in it, as long as the message has at most 399 bytes. */
  lemma PlainMessage(payload: string, authzid: Bytes, authcid: Bytes, password: Bytes)
    requires NulFree(authzid) && NulFree(authcid) && NulFree(password)
    requires |Message(authzid, authcid, password)| <= 399
    requires Strip(payload) == Encode(Message(authzid, authcid, password))
    ensures Plain(payload) == Some(Credentials(authcid, password))
  {
    DecodeEncode(Message(authzid, authcid, password));
    SplitMessage(authzid, authcid, password);
  }

  lemma SplitsExactly(d: Bytes)
    ensures Split(d).Some? <==> exists i, j :: TwoNuls(d, i, j)
  {
    if Split(d).Some? {
      var i := FirstNul(d, 0).value;
      assert TwoNuls(d, i, FirstNul(d, i + 1).value);
    }
    if i, j :| TwoNuls(d, i, j) {
      assert FirstNul(d, 0).Some? && FirstNul(d, 0).value <= i;
      assert FirstNul(d, FirstNul(d, 0).value + 1).Some?;
    }
  }

  /** A payload is accepted exactly when it is the Base64 of bytes that fit and that have at least two NULs. */
  lemma PlainExactly(payload: string)
    ensures Plain(payload).Some? <==>
      exists d, i, j :: Strip(payload) == Encode(d) && Need(|d|) <= 400 && TwoNuls(d, i, j)
  {
    AcceptsExactly(payload, 400);
    if Plain(payload).Some? {
      var d := Decode(Strip(payload)).value;
      DecodesExactly(Strip(payload), d);
      SplitsExactly(d);
      var i, j :| TwoNuls(d, i, j);
      assert Strip(payload) == Encode(d) && Need(|d|) <= 400 && TwoNuls(d, i, j);
    }
    if d, i, j :| Strip(payload) == Encode(d) && Need(|d|) <= 400 && TwoNuls(d, i, j) {
      DecodesExactly(Strip(payload), d);
      SplitsExactly(d);
    }
  }

  predicate TwoNuls(d: Bytes, i: int, j: int) {
    0 <= i < j < |d| && d[i] == 0 && d[j] == 0
  }
}
