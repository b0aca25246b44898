/** b64_decode: a decoder with four states that packs bits into a buffer of limited size, against the encoding of
    section 4 of RFC 4648. */
module Base64 {
  import opened Wrappers
  import opened Hashing

  type byte = bv8

  /** The letter of a six-bit value: A to Z, a to z, 0 to 9, plus and slash. */
  function Letter(v: bv8): char
    requires v < 64
  {
    var i := v as int;
    if i < 26 then 'A' + i as char
    else if i < 52 then 'a' + (i - 26) as char
    else if i < 62 then '0' + (i - 52) as char
    else if i == 62 then '+' else '/'
  }

  const DIGITS := "0123456789"

  /** The 64 letters in their order. */
  lemma LetterExactly(v: bv8)
    requires v < 64
    ensures Letter(v) == (CAPITALS + SMALL + DIGITS + "+/")[v as int]
  {
    var i := v as int;
    if i < 26 {
      AlphabetAt(i);
    } else if i < 52 {
      AlphabetAt(i - 26);
    } else if i < 62 {
      assert DIGITS[i - 52] == '0' + (i - 52) as char;
    }
  }

  lemma LetterInjective(v: bv8, w: bv8)
    requires v < 64 && w < 64 && Letter(v) == Letter(w)
    ensures v == w
  {
    assert v as int == w as int;
    assert (v as int) as bv8 == v && (w as int) as bv8 == w;
  }

  lemma LetterPlain(v: bv8)
    requires v < 64
    ensures !IsSpace(Letter(v)) && Letter(v) != '=' && Letter(v) != '\0'
  {
  }

  /** strchr in the alphabet. */
  function Find(c: char, from: bv8): (r: Option<bv8>)
    requires from <= 64
    ensures r.Some? ==> r.value < 64 && Letter(r.value) == c
    decreases 64 - from as int
  {
    if from == 64 then None
    else if Letter(from) == c then Some(from)
    else
      NextValue(from);
      Find(c, from + 1)
  }

  lemma NextValue(v: bv8)
    requires v < 64
    ensures (v + 1) as int == v as int + 1 && v + 1 <= 64
  {
  }

  lemma {:induction false} FindsLetter(v: bv8, from: bv8)
    requires v < 64 && from <= v
    ensures Find(Letter(v), from) == Some(v)
    decreases 64 - from as int
  {
    if Letter(from) == Letter(v) {
      LetterInjective(from, v);
    } else {
      assert from != v;
      NextValue(from);
      assert from + 1 <= v;
      FindsLetter(v, from + 1);
    }
  }

  predicate IsSpace(c: char) {
    c == ' ' || '\t' <= c <= '\r'
  }

  // ----- The encoding.

  function Encode(d: seq<byte>): string {
    if |d| == 0 then ""
    else if |d| == 1 then [Letter(d[0] >> 2), Letter((d[0] & 0x03) << 4), '=', '=']
    else if |d| == 2 then
      [Letter(d[0] >> 2), Letter(((d[0] & 0x03) << 4) | (d[1] >> 4)), Letter((d[1] & 0x0f) << 2), '=']
    else
      [Letter(d[0] >> 2), Letter(((d[0] & 0x03) << 4) | (d[1] >> 4)), Letter(((d[1] & 0x0f) << 2) | (d[2] >> 6)),
       Letter(d[2] & 0x3f)] + Encode(d[3..])
  }

  /** What the string stands for, if it is an encoding. */
  function Decode(s: string): Option<seq<byte>> {
    if s == "" then Some([])
    else if |s| < 4 then None
    else
      var a, b, c, d := Find(s[0], 0), Find(s[1], 0), Find(s[2], 0), Find(s[3], 0);
      if a.None? || b.None? then None
      else if c.Some? && d.Some? then
        (match Decode(s[4..])
         case None => None
         case Some(rest) => Some(Three(a.value, b.value, c.value, d.value) + rest))
      else if |s| > 4 || s[3] != '=' then None
      else if c.Some? then
        (if c.value & 0x03 == 0 then Some([First(a.value, b.value), Second(b.value, c.value)]) else None)
      else if s[2] == '=' && b.value & 0x0f == 0 then Some([First(a.value, b.value)])
      else None
  }

  function First(a: bv8, b: bv8): byte {
    (a << 2) | (b >> 4)
  }

  function Second(b: bv8, c: bv8): byte {
    ((b & 0x0f) << 4) | (c >> 2)
  }

  function Third(c: bv8, d: bv8): byte {
    ((c & 0x03) << 6) | d
  }

  function Three(a: bv8, b: bv8, c: bv8, d: bv8): seq<byte> {
    [First(a, b), Second(b, c), Third(c, d)]
  }

  lemma PackUnpack(a: bv8, b: bv8, c: bv8, d: bv8)
    requires a < 64 && b < 64 && c < 64 && d < 64
    ensures var x, y, z := First(a, b), Second(b, c), Third(c, d);
      && x >> 2 == a && ((x & 0x03) << 4) | (y >> 4) == b && ((y & 0x0f) << 2) | (z >> 6) == c && z & 0x3f == d
      && (b & 0x0f == 0 ==> (x & 0x03) << 4 == b)
      && (c & 0x03 == 0 ==> (y & 0x0f) << 2 == c)
  {
  }

  lemma UnpackPack(x: byte, y: byte, z: byte)
    ensures var a, b, c, d := x >> 2, ((x & 0x03) << 4) | (y >> 4), ((y & 0x0f) << 2) | (z >> 6), z & 0x3f;
      && a < 64 && b < 64 && c < 64 && d < 64
      && First(a, b) == x && Second(b, c) == y && Third(c, d) == z
      && First(a, (x & 0x03) << 4) == x && (x & 0x03) << 4 < 64 && ((x & 0x03) << 4) & 0x0f == 0
      && Second(b, (y & 0x0f) << 2) == y && (y & 0x0f) << 2 < 64 && ((y & 0x0f) << 2) & 0x03 == 0
  {
  }

  lemma NoPadLetter()
    ensures Find('=', 0).None?
  {
    if Find('=', 0).Some? {
      LetterPlain(Find('=', 0).value);
    }
  }

  lemma DecodeOne(x: byte)
    ensures Decode(Encode([x])) == Some([x])
  {
    NoPadLetter();
    UnpackPack(x, 0, 0);
    FindsLetter(x >> 2, 0);
    FindsLetter((x & 0x03) << 4, 0);
  }

  lemma DecodeTwo(x: byte, y: byte)
    ensures Decode(Encode([x, y])) == Some([x, y])
  {
    NoPadLetter();
    UnpackPack(x, y, 0);
    PaddedThree(x >> 2, ((x & 0x03) << 4) | (y >> 4), (y & 0x0f) << 2);
  }

  lemma PaddedThree(a: bv8, b: bv8, c: bv8)
    requires a < 64 && b < 64 && c < 64 && c & 0x03 == 0
    ensures Decode([Letter(a), Letter(b), Letter(c), '=']) == Some([First(a, b), Second(b, c)])
  {
    NoPadLetter();
    FindsLetter(a, 0);
    FindsLetter(b, 0);
    FindsLetter(c, 0);
  }

  /** A group of four letters in front. */
  function Four(x: byte, y: byte, z: byte): string {
    [Letter(x >> 2), Letter(((x & 0x03) << 4) | (y >> 4)), Letter(((y & 0x0f) << 2) | (z >> 6)), Letter(z & 0x3f)]
  }

  lemma DecodeThree(x: byte, y: byte, z: byte, rest: string)
    requires Decode(rest).Some?
    ensures Decode(Four(x, y, z) + rest) == Some([x, y, z] + Decode(rest).value)
  {
    UnpackPack(x, y, z);
    FindsLetter(x >> 2, 0);
    FindsLetter(((x & 0x03) << 4) | (y >> 4), 0);
    FindsLetter(((y & 0x0f) << 2) | (z >> 6), 0);
    FindsLetter(z & 0x3f, 0);
    assert (Four(x, y, z) + rest)[4..] == rest;
  }

  lemma DecodeMore(x: byte, y: byte, z: byte, rest: seq<byte>)
    requires Decode(Encode(rest)) == Some(rest)
    ensures Decode(Encode([x, y, z] + rest)) == Some([x, y, z] + rest)
  {
    EncodeThree(x, y, z, rest);
    DecodeThree(x, y, z, Encode(rest));
  }

  /** Decoding undoes encoding. */
  lemma {:induction false} DecodeEncode(d: seq<byte>)
    ensures Decode(Encode(d)) == Some(d)
  {
    if |d| > 2 {
      DecodeEncode(d[3..]);
      DecodeMore(d[0], d[1], d[2], d[3..]);
      assert d == [d[0], d[1], d[2]] + d[3..];
    } else {
      DecodeShort(d);
    }
  }

  // ----- The bits of an encoding.

  /** The six bits of a letter; the pad has none. */
  function Sextet(c: char): bv24 {
    var v := Find(c, 0);
    if v.Some? then v.value as bv24 else 0
  }

  /** A byte, or eight zero bits after the last. */
  function Octet(d: seq<byte>, i: nat): bv24 {
    if i < |d| then d[i] as bv24 else 0
  }

  predicate SameBits(p: bv24, q: bv24, r: bv24, s: bv24, x: bv24, y: bv24, z: bv24) {
    (p << 18) | (q << 12) | (r << 6) | s == (x << 16) | (y << 8) | z
  }

  /** Four letters and the one to three bytes they stand for: the same 24 bits, zero bits standing in for the bytes that
      are missing and a pad for each of these. */
  ghost predicate Group(e: string, d: seq<byte>) {
    && |e| == 4 && 1 <= |d| <= 3
    && SameBits(Sextet(e[0]), Sextet(e[1]), Sextet(e[2]), Sextet(e[3]), Octet(d, 0), Octet(d, 1), Octet(d, 2))
    && e[0] != '=' && e[1] != '=' && (e[2] == '=' <==> |d| == 1) && (e[3] == '=' <==> |d| <= 2)
  }

  lemma SextetOfLetter(v: bv8)
    requires v < 64
    ensures Sextet(Letter(v)) == v as bv24 && Letter(v) != '='
  {
    FindsLetter(v, 0);
    LetterPlain(v);
  }

  lemma SextetOfPad()
    ensures Sextet('=') == 0
  {
    NoPadLetter();
  }

  /** Six-bit values and bytes with the same bits. */
  ghost predicate Agree(p: bv8, q: bv8, r: bv8, s: bv8, x: byte, y: byte, z: byte) {
    p < 64 && q < 64 && r < 64 && s < 64
    && SameBits(p as bv24, q as bv24, r as bv24, s as bv24, x as bv24, y as bv24, z as bv24)
  }

  lemma AgreeThree(x: byte, y: byte, z: byte)
    ensures Agree(x >> 2, ((x & 0x03) << 4) | (y >> 4), ((y & 0x0f) << 2) | (z >> 6), z & 0x3f, x, y, z)
  {
  }

  lemma AgreeTwo(x: byte, y: byte)
    ensures Agree(x >> 2, ((x & 0x03) << 4) | (y >> 4), (y & 0x0f) << 2, 0, x, y, 0)
  {
  }

  lemma AgreeOne(x: byte)
    ensures Agree(x >> 2, (x & 0x03) << 4, 0, 0, x, 0, 0)
  {
  }

  lemma LettersForThree(e: string, d: seq<byte>, p: bv8, q: bv8, r: bv8, s: bv8)
    requires |d| == 3 && Agree(p, q, r, s, d[0], d[1], d[2]) && e == [Letter(p), Letter(q), Letter(r), Letter(s)]
    ensures Group(e, d)
  {
    SextetOfLetter(p);
    SextetOfLetter(q);
    SextetOfLetter(r);
    SextetOfLetter(s);
  }

  lemma LettersForTwo(e: string, d: seq<byte>, p: bv8, q: bv8, r: bv8)
    requires |d| == 2 && Agree(p, q, r, 0, d[0], d[1], 0) && e == [Letter(p), Letter(q), Letter(r), '=']
    ensures Group(e, d)
  {
    SextetOfLetter(p);
    SextetOfLetter(q);
    SextetOfLetter(r);
    SextetOfPad();
  }

  lemma LettersForOne(e: string, d: seq<byte>, p: bv8, q: bv8)
    requires |d| == 1 && Agree(p, q, 0, 0, d[0], 0, 0) && e == [Letter(p), Letter(q), '=', '=']
    ensures Group(e, d)
  {
    SextetOfLetter(p);
    SextetOfLetter(q);
    SextetOfPad();
  }

  /** Section 4 of RFC 4648: what one, two or three bytes are encoded as. */
  lemma EncodedBits(d: seq<byte>)
    requires 1 <= |d| <= 3
    ensures Group(Encode(d), d)
  {
    if |d| == 1 {
      AgreeOne(d[0]);
      LettersForOne(Encode(d), d, d[0] >> 2, (d[0] & 0x03) << 4);
    } else if |d| == 2 {
      AgreeTwo(d[0], d[1]);
      LettersForTwo(Encode(d), d, d[0] >> 2, ((d[0] & 0x03) << 4) | (d[1] >> 4), (d[1] & 0x0f) << 2);
    } else {
      AgreeThree(d[0], d[1], d[2]);
      EncodeOnlyThree(d);
      LettersForThree(Encode(d), d, d[0] >> 2, ((d[0] & 0x03) << 4) | (d[1] >> 4),
                      ((d[1] & 0x0f) << 2) | (d[2] >> 6), d[2] & 0x3f);
    }
  }

  lemma EncodeOnlyThree(d: seq<byte>)
    requires |d| == 3
    ensures Encode(d) == Four(d[0], d[1], d[2])
  {
    assert d[3..] == [];
  }

  /** And more than that is encoded group by group: after whole groups the encoding begins anew. */
  lemma {:induction false} EncodedApart(a: seq<byte>, b: seq<byte>)
    requires |a| % 3 == 0
    ensures Encode(a + b) == Encode(a) + Encode(b)
    decreases |a|
  {
    if |a| == 0 {
      assert a + b == b;
    } else {
      EncodedApart(a[3..], b);
      FirstThree(a);
      FirstThree(a + b);
      TailOf(a, b);
      Regroup(Four(a[0], a[1], a[2]), Encode(a[3..]), Encode(b));
    }
  }

  lemma FirstThree(d: seq<byte>)
    requires |d| >= 3
    ensures Encode(d) == Four(d[0], d[1], d[2]) + Encode(d[3..])
  {
  }

  lemma TailOf(a: seq<byte>, b: seq<byte>)
    requires |a| >= 3
    ensures (a + b)[3..] == a[3..] + b && (a + b)[0] == a[0] && (a + b)[1] == a[1] && (a + b)[2] == a[2]
  {
  }

  lemma DecodeShort(d: seq<byte>)
    requires |d| <= 2
    ensures Decode(Encode(d)) == Some(d)
  {
    if |d| == 1 {
      DecodeOne(d[0]);
      assert d == [d[0]];
    } else if |d| == 2 {
      DecodeTwo(d[0], d[1]);
      assert d == [d[0], d[1]];
    }
  }

  lemma OneByte(a: bv8, b: bv8)
    requires a < 64 && b < 64 && b & 0x0f == 0
    ensures Encode([First(a, b)]) == [Letter(a), Letter(b), '=', '=']
  {
    PackUnpack(a, b, 0, 0);
  }

  lemma TwoBytes(a: bv8, b: bv8, c: bv8)
    requires a < 64 && b < 64 && c < 64 && c & 0x03 == 0
    ensures Encode([First(a, b), Second(b, c)]) == [Letter(a), Letter(b), Letter(c), '=']
  {
    PackUnpack(a, b, c, 0);
  }

  lemma EncodePadded(s: string)
    requires |s| == 4 && Decode(s).Some? && (Find(s[2], 0).None? || Find(s[3], 0).None?)
    ensures Encode(Decode(s).value) == s
  {
    var a, b, c := Find(s[0], 0).value, Find(s[1], 0).value, Find(s[2], 0);
    if c.Some? {
      TwoBytes(a, b, c.value);
    } else {
      OneByte(a, b);
    }
  }

  lemma EncodeThree(x: byte, y: byte, z: byte, rest: seq<byte>)
    ensures Encode([x, y, z] + rest) == Four(x, y, z) + Encode(rest)
  {
    assert ([x, y, z] + rest)[3..] == rest;
  }

  lemma FourLetters(a: bv8, b: bv8, c: bv8, d: bv8)
    requires a < 64 && b < 64 && c < 64 && d < 64
    ensures Four(First(a, b), Second(b, c), Third(c, d)) == [Letter(a), Letter(b), Letter(c), Letter(d)]
  {
    PackUnpack(a, b, c, d);
  }

  lemma GroupValues(s: string)
    requires |s| >= 4 && Decode(s).Some? && Find(s[2], 0).Some? && Find(s[3], 0).Some?
    ensures Find(s[0], 0).Some? && Find(s[1], 0).Some? && Decode(s[4..]).Some?
    ensures Decode(s).value ==
      Three(Find(s[0], 0).value, Find(s[1], 0).value, Find(s[2], 0).value, Find(s[3], 0).value) + Decode(s[4..]).value
  {
  }

  lemma EncodeLetters(a: bv8, b: bv8, c: bv8, d: bv8, rest: seq<byte>)
    requires a < 64 && b < 64 && c < 64 && d < 64
    ensures Encode(Three(a, b, c, d) + rest) == [Letter(a), Letter(b), Letter(c), Letter(d)] + Encode(rest)
  {
    FourLetters(a, b, c, d);
    EncodeThree(First(a, b), Second(b, c), Third(c, d), rest);
  }

  lemma EncodeGroup(s: string)
    requires |s| >= 4 && Decode(s).Some? && Find(s[2], 0).Some? && Find(s[3], 0).Some?
    ensures Decode(s[4..]).Some? && Encode(Decode(s).value) == [s[0], s[1], s[2], s[3]] + Encode(Decode(s[4..]).value)
  {
    GroupValues(s);
    EncodeLetters(Find(s[0], 0).value, Find(s[1], 0).value, Find(s[2], 0).value, Find(s[3], 0).value,
                  Decode(s[4..]).value);
  }

  lemma Regrouped(s: string)
    requires |s| >= 4
    ensures s == [s[0], s[1], s[2], s[3]] + s[4..]
  {
  }

  lemma PaddedLast(s: string)
    requires Decode(s).Some? && s != ""
    ensures |s| >= 4 && (|s| > 4 ==> Find(s[2], 0).Some? && Find(s[3], 0).Some?)
  {
  }

  /** Only encodings are decoded: pad bits that are not zero, missing or misplaced padding, and anything after the
      padding are refused. */
  lemma {:induction false} EncodeDecode(s: string)
    requires Decode(s).Some?
    ensures Encode(Decode(s).value) == s
  {
    if s != "" {
      PaddedLast(s);
      if Find(s[2], 0).Some? && Find(s[3], 0).Some? {
        EncodeGroup(s);
        EncodeDecode(s[4..]);
        Regrouped(s);
      } else {
        EncodePadded(s);
      }
    }
  }

  /** `s` is decoded to `d` exactly when it is the encoding of `d`. */
  lemma DecodesExactly(s: string, d: seq<byte>)
    ensures Decode(s) == Some(d) <==> s == Encode(d)
  {
    DecodeEncode(d);
    if Decode(s) == Some(d) {
      EncodeDecode(s);
    }
  }

  // ----- The four states.

  /** What has been read: the state, the bytes that are complete, and the one that is being put together. */
  datatype Packer = Packer(state: int, bytes: seq<byte>, part: byte)

  /** The byte that the value `p` completes. */
  function Completed(state: int, part: byte, p: bv8): byte {
    match state
    case 1 => part | (p >> 4)
    case 2 => part | (p >> 2)
    case _ => part | p
  }

  /** The bits of `p` that belong to the next byte. */
  function Kept(state: int, p: bv8): byte {
    match state
    case 0 => p << 2
    case 1 => (p & 0x0f) << 4
    case 2 => (p & 0x03) << 6
    case _ => 0
  }

  function Pack(k: Packer, p: bv8): Packer {
    Packer(if k.state == 3 then 0 else k.state + 1,
           if k.state == 0 then k.bytes else k.bytes + [Completed(k.state, k.part, p)],
           Kept(k.state, p))
  }

  function Packed(v: seq<bv8>): Packer {
    if v == [] then Packer(0, [], 0) else Pack(Packed(v[..|v| - 1]), v[|v| - 1])
  }

  /** How many bytes `n` letters complete. */
  function Size(n: nat): nat {
    3 * (n / 4) + if n % 4 < 2 then 0 else n % 4 - 1
  }

  lemma PackSize(k: Packer, p: bv8)
    requires 0 <= k.state < 4
    ensures Pack(k, p).state == (k.state + 1) % 4 && (k.state == 3 ==> Pack(k, p).part == 0)
    ensures |Pack(k, p).bytes| == |k.bytes| + if k.state == 0 then 0 else 1
  {
  }

  lemma SizeNext(n: nat)
    ensures Size(n + 1) == Size(n) + (if n % 4 == 0 then 0 else 1) && (n + 1) % 4 == (n % 4 + 1) % 4
  {
  }

  lemma {:induction false} PackedSize(v: seq<bv8>)
    ensures Packed(v).state == |v| % 4 && (|v| % 4 == 0 ==> Packed(v).part == 0)
    ensures |Packed(v).bytes| == Size(|v|)
  {
    if v != [] {
      PackedSize(v[..|v| - 1]);
      PackSize(Packed(v[..|v| - 1]), v[|v| - 1]);
      SizeNext(|v| - 1);
    }
  }

  lemma AppendAssoc<T>(a: seq<T>, b: seq<T>, x: T)
    ensures a + b + [x] == a + (b + [x])
  {
  }

  lemma PackAfter(before: seq<byte>, k: Packer, p: bv8)
    ensures Pack(k.(bytes := before + k.bytes), p) == Pack(k, p).(bytes := before + Pack(k, p).bytes)
  {
    AppendAssoc(before, k.bytes, Completed(k.state, k.part, p));
  }

  lemma {:induction false} PackedJoin(a: seq<bv8>, b: seq<bv8>)
    requires Packed(a).state == 0
    ensures Packed(a + b) == Packed(b).(bytes := Packed(a).bytes + Packed(b).bytes)
    decreases |b|
  {
    PackedSize(a);
    if b == [] {
      assert a + b == a && Packed(a).bytes + [] == Packed(a).bytes;
    } else {
      var front := b[..|b| - 1];
      assert (a + b)[..|a + b| - 1] == a + front;
      PackedJoin(a, front);
      PackAfter(Packed(a).bytes, Packed(front), b[|b| - 1]);
    }
  }

  lemma PackedSnoc(v: seq<bv8>, p: bv8)
    ensures Packed(v + [p]) == Pack(Packed(v), p)
  {
    assert (v + [p])[..|v|] == v;
  }

  lemma PackedTwo(a: bv8, b: bv8)
    ensures Packed([a, b]) == Packer(2, [First(a, b)], (b & 0x0f) << 4)
  {
    PackedSnoc([], a);
    PackedSnoc([a], b);
    assert [] + [a] == [a] && [a] + [b] == [a, b];
  }

  lemma PackedThree(a: bv8, b: bv8, c: bv8)
    ensures Packed([a, b, c]) == Packer(3, [First(a, b), Second(b, c)], (c & 0x03) << 6)
  {
    PackedTwo(a, b);
    PackedSnoc([a, b], c);
    assert [a, b] + [c] == [a, b, c];
  }

  lemma PackedFour(a: bv8, b: bv8, c: bv8, d: bv8)
    ensures Packed([a, b, c, d]) == Packer(0, Three(a, b, c, d), 0)
  {
    PackedThree(a, b, c);
    PackedSnoc([a, b, c], d);
    assert [a, b, c] + [d] == [a, b, c, d];
  }

  ghost predicate Values(v: seq<bv8>) {
    forall i :: 0 <= i < |v| ==> v[i] < 64
  }

  function Letters(v: seq<bv8>): string
    requires Values(v)
  {
    if v == [] then "" else Letters(v[..|v| - 1]) + [Letter(v[|v| - 1])]
  }

  lemma {:induction false} LettersAt(v: seq<bv8>)
    requires Values(v)
    ensures |Letters(v)| == |v| && forall i :: 0 <= i < |v| ==> Letters(v)[i] == Letter(v[i])
  {
    if v != [] {
      LettersAt(v[..|v| - 1]);
    }
  }

  /** What b64_decode makes of letters and what comes after them, without white space. */
  function Outcome(v: seq<bv8>, tail: string): Option<seq<byte>> {
    var k := Packed(v);
    if (k.state == 0 && tail == "") || (k.part == 0 && ((k.state == 3 && tail == "=") || (k.state == 2 && tail == "==")))
    then Some(k.bytes)
    else None
  }

  lemma PartZero(b: bv8)
    ensures (b & 0x0f) << 4 == 0 <==> b & 0x0f == 0
    ensures (b & 0x03) << 6 == 0 <==> b & 0x03 == 0
  {
  }

  lemma OutcomeTwo(a: bv8, b: bv8, tail: string)
    requires a < 64 && b < 64 && (tail != "" ==> Find(tail[0], 0).None?)
    ensures Decode([Letter(a), Letter(b)] + tail) == Outcome([a, b], tail)
  {
    NoPadLetter();
    PackedTwo(a, b);
    PartZero(b);
    FindsLetter(a, 0);
    FindsLetter(b, 0);
    var s := [Letter(a), Letter(b)] + tail;
    assert |tail| >= 2 ==> s[2] == tail[0] && s[3] == tail[1];
    assert |tail| == 2 && tail[0] == '=' && tail[1] == '=' <==> tail == "==";
  }

  lemma OutcomeThree(a: bv8, b: bv8, c: bv8, tail: string)
    requires a < 64 && b < 64 && c < 64 && (tail != "" ==> Find(tail[0], 0).None?)
    ensures Decode([Letter(a), Letter(b), Letter(c)] + tail) == Outcome([a, b, c], tail)
  {
    NoPadLetter();
    PackedThree(a, b, c);
    PartZero(c);
    FindsLetter(a, 0);
    FindsLetter(b, 0);
    FindsLetter(c, 0);
    var s := [Letter(a), Letter(b), Letter(c)] + tail;
    assert |tail| >= 1 ==> s[3] == tail[0];
    assert |tail| == 1 && tail[0] == '=' <==> tail == "=";
  }

  lemma OutcomeOne(a: bv8, tail: string)
    requires a < 64 && (tail != "" ==> Find(tail[0], 0).None?)
    ensures Decode([Letter(a)] + tail) == Outcome([a], tail)
  {
    PackedSize([a]);
    var s := [Letter(a)] + tail;
    assert |tail| >= 3 ==> s[1] == tail[0];
  }

  lemma OutcomeNone(tail: string)
    requires tail != "" ==> Find(tail[0], 0).None?
    ensures Decode(tail) == Outcome([], tail)
  {
  }

  lemma LettersOf(v: seq<bv8>)
    requires Values(v)
    ensures |v| == 0 ==> v == [] && Letters(v) == ""
    ensures |v| == 1 ==> v == [v[0]] && Letters(v) == [Letter(v[0])]
    ensures |v| == 2 ==> v == [v[0], v[1]] && Letters(v) == [Letter(v[0]), Letter(v[1])]
    ensures |v| == 3 ==> v == [v[0], v[1], v[2]] && Letters(v) == [Letter(v[0]), Letter(v[1]), Letter(v[2])]
  {
    LettersAt(v);
    Listed(v);
    Listed(Letters(v));
  }

  lemma Listed<T>(s: seq<T>)
    ensures |s| == 0 ==> s == []
    ensures |s| == 1 ==> s == [s[0]]
    ensures |s| == 2 ==> s == [s[0], s[1]]
    ensures |s| == 3 ==> s == [s[0], s[1], s[2]]
  {
  }

  lemma ShortOutcome(v: seq<bv8>, tail: string)
    requires Values(v) && |v| < 4 && (tail != "" ==> Find(tail[0], 0).None?)
    ensures Decode(Letters(v) + tail) == Outcome(v, tail)
  {
    LettersOf(v);
    if |v| == 0 {
      OutcomeNone(tail);
      assert "" + tail == tail;
    } else if |v| == 1 {
      OutcomeOne(v[0], tail);
    } else if |v| == 2 {
      OutcomeTwo(v[0], v[1], tail);
    } else {
      OutcomeThree(v[0], v[1], v[2], tail);
    }
  }

  /** Adding a group of three bytes in front. */
  function InFront(three: seq<byte>, rest: Option<seq<byte>>): Option<seq<byte>> {
    match rest
    case None => None
    case Some(bytes) => Some(three + bytes)
  }

  lemma DecodeGroup(v: seq<bv8>, rest: string)
    requires Values(v) && |v| == 4
    ensures Decode(Letters(v) + rest) == InFront(Three(v[0], v[1], v[2], v[3]), Decode(rest))
  {
    LettersAt(v);
    var s := Letters(v) + rest;
    assert s[4..] == rest;
    FindsLetter(v[0], 0);
    FindsLetter(v[1], 0);
    FindsLetter(v[2], 0);
    FindsLetter(v[3], 0);
  }

  lemma OutcomeGroup(v: seq<bv8>, rest: seq<bv8>, tail: string)
    requires |v| == 4
    ensures Outcome(v + rest, tail) == InFront(Three(v[0], v[1], v[2], v[3]), Outcome(rest, tail))
  {
    PackedFour(v[0], v[1], v[2], v[3]);
    assert v == [v[0], v[1], v[2], v[3]];
    PackedJoin(v, rest);
  }

  lemma {:induction false} LettersJoin(a: seq<bv8>, b: seq<bv8>)
    requires Values(a) && Values(b)
    ensures Values(a + b) && Letters(a + b) == Letters(a) + Letters(b)
  {
    if b == [] {
      assert a + b == a;
    } else {
      assert (a + b)[..|a + b| - 1] == a + b[..|b| - 1];
      LettersJoin(a, b[..|b| - 1]);
    }
  }

  lemma GroupInFront(group: seq<bv8>, rest: seq<bv8>, tail: string)
    requires Values(group) && Values(rest) && |group| == 4 && Decode(Letters(rest) + tail) == Outcome(rest, tail)
    ensures Values(group + rest) && Decode(Letters(group + rest) + tail) == Outcome(group + rest, tail)
  {
    LettersJoin(group, rest);
    Regroup(Letters(group), Letters(rest), tail);
    DecodeGroup(group, Letters(rest) + tail);
    OutcomeGroup(group, rest, tail);
  }

  lemma Regroup(a: string, b: string, c: string)
    ensures a + b + c == a + (b + c)
  {
  }

  /** The state machine decides like the definition by groups of four. */
  lemma {:induction false} DecodeOutcome(v: seq<bv8>, tail: string)
    requires Values(v) && (tail != "" ==> Find(tail[0], 0).None?)
    ensures Decode(Letters(v) + tail) == Outcome(v, tail)
  {
    if |v| < 4 {
      ShortOutcome(v, tail);
    } else {
      DecodeOutcome(v[4..], tail);
      GroupInFront(v[..4], v[4..], tail);
      assert v == v[..4] + v[4..];
    }
  }

  // ----- The program.

  /** `s` without white space. */
  function Strip(s: string): string {
    if s == "" then "" else Strip(s[..|s| - 1]) + if IsSpace(s[|s| - 1]) then "" else [s[|s| - 1]]
  }

  lemma {:induction false} StripJoin(a: string, b: string)
    ensures Strip(a + b) == Strip(a) + Strip(b)
  {
    if b == "" {
      assert a + b == a;
    } else {
      assert (a + b)[..|a + b| - 1] == a + b[..|b| - 1];
      StripJoin(a, b[..|b| - 1]);
    }
  }

  /** The size of buffer that is needed for `n` bytes. */
  function Need(n: nat): nat {
    if n % 3 == 0 then n else n + 1
  }

  /** The buffer holds the completed bytes and, between two of them, the one that is being put together. */
  ghost predicate Stored(k: Packer, tarindex: nat, buffer: seq<byte>, targsize: nat) {
    && 0 <= k.state < 4 && tarindex == |k.bytes| <= targsize <= |buffer| && buffer[..tarindex] == k.bytes
    && (k.state != 0 ==> tarindex < targsize && buffer[tarindex] == k.part)
  }

  /** The state after `n` letters has to be able to write one byte further than it has completed. */
  function Ahead(n: nat): nat {
    Size(n) + if n % 4 == 1 || n % 4 == 2 then 1 else 0
  }

  lemma MoreNeeded(n: nat, m: nat)
    requires n < m && m % 4 != 1
    ensures Need(Size(m)) > Ahead(n)
  {
    var q, r := m / 4, m % 4;
    assert m == 4 * q + r && Size(m) == 3 * q + if r == 0 then 0 else r - 1;
    assert (3 * q) % 3 == 0 && (3 * q + 1) % 3 == 1 && (3 * q + 2) % 3 == 2;
    assert n / 4 < q || (n / 4 == q && n % 4 < r);
  }

  /** An encoding that has more letters than `v` does not fit a buffer that `v` has filled. */
  lemma TooSmall(v: seq<bv8>, more: seq<bv8>, tail: string)
    requires |more| > 0
    ensures Outcome(v + more, tail).Some? ==> Need(|Outcome(v + more, tail).value|) > Ahead(|v|)
  {
    PackedSize(v + more);
    if |v + more| % 4 != 1 {
      MoreNeeded(|v|, |v + more|);
    }
  }

  /** Letters at the start of a string. */
  lemma {:induction false} LeadingLetters(s: string) returns (v: seq<bv8>, tail: string)
    ensures Values(v) && s == Letters(v) + tail && (tail != "" ==> Find(tail[0], 0).None?)
  {
    v, tail := [], s;
    while tail != "" && Find(tail[0], 0).Some?
      invariant Values(v) && s == Letters(v) + tail
      decreases |tail|
    {
      LetterOver(v, tail);
      v, tail := v + [Find(tail[0], 0).value], tail[1..];
    }
  }

  lemma LetterOver(v: seq<bv8>, tail: string)
    requires Values(v) && tail != "" && Find(tail[0], 0).Some?
    ensures var w := v + [Find(tail[0], 0).value]; Values(w) && Letters(v) + tail == Letters(w) + tail[1..]
  {
    var p := Find(tail[0], 0).value;
    LettersJoin(v, [p]);
    assert Letters([p]) == [tail[0]];
    Regroup(Letters(v), [tail[0]], tail[1..]);
    assert tail == [tail[0]] + tail[1..];
  }

  /** What is to be returned: the number of bytes of an encoding that fits the buffer, or -1. */
  function Result(src: string, targsize: nat): int {
    match Decode(Strip(src))
    case None => -1
    case Some(d) => if Need(|d|) <= targsize then |d| else -1
  }

  /** Space, tab, line feed, vertical tab, form feed and carriage return are ignored wherever they stand, and no other
      character is when it is put before an encoding that fits. */
  lemma SpacesExactly(a: string, c: char, b: string, targsize: nat)
    ensures c in " \t\n\U{000B}\U{000C}\r" ==> Result(a + [c] + b, targsize) == Result(a + b, targsize)
    ensures c !in " \t\n\U{000B}\U{000C}\r" && Result(b, targsize) >= 0 ==> Result([c] + b, targsize) == -1
  {
    SpaceOrNot(c);
    StripOne(c);
    if IsSpace(c) {
      StripJoin(a + [c], b);
      StripJoin(a, [c]);
      StripJoin(a, b);
      assert Strip(a) + "" == Strip(a);
    } else if Result(b, targsize) >= 0 {
      StripJoin([c], b);
      NotInFours(c, Strip(b));
    }
  }

  lemma SpaceOrNot(c: char)
    ensures IsSpace(c) <==> c in " \t\n\U{000B}\U{000C}\r"
  {
  }

  lemma NotInFours(c: char, s: string)
    requires Decode(s).Some?
    ensures Decode([c] + s).None?
  {
    DecodedLength(s);
    if Decode([c] + s).Some? {
      DecodedLength([c] + s);
    }
  }

  lemma {:induction false} DecodedLength(s: string)
    requires Decode(s).Some?
    ensures |s| % 4 == 0
  {
    if |s| > 4 {
      DecodedLength(s[4..]);
    }
  }

  lemma MoreLetters(src: string, i: nat, v: seq<bv8>) returns (more: seq<bv8>, tail: string)
    requires i < |src| && !IsSpace(src[i]) && Find(src[i], 0).Some? && Values(v) && Strip(src[..i]) == Letters(v)
    ensures |more| > 0 && Values(v + more) && (tail != "" ==> Find(tail[0], 0).None?)
    ensures Strip(src) == Letters(v + more) + tail
  {
    var p := Find(src[i], 0).value;
    var rest: seq<bv8>;
    rest, tail := LeadingLetters(Strip(src[i + 1..]));
    StripAround(src, i);
    ThreeParts(v, p, rest);
    more := [p] + rest;
    assert Letters(v) + [Letter(p)] + (Letters(rest) + tail) == Letters(v) + [Letter(p)] + Letters(rest) + tail;
  }

  lemma StopsEarly(src: string, i: nat, v: seq<bv8>, targsize: nat)
    requires i < |src| && !IsSpace(src[i]) && Find(src[i], 0).Some? && Values(v) && Strip(src[..i]) == Letters(v)
    requires targsize <= Ahead(|v|)
    ensures Result(src, targsize) == -1
  {
    var more, tail := MoreLetters(src, i, v);
    DecodeOutcome(v + more, tail);
    TooSmall(v, more, tail);
  }

  lemma ThreeParts(v: seq<bv8>, p: bv8, more: seq<bv8>)
    requires Values(v) && p < 64 && Values(more)
    ensures Values(v + ([p] + more)) && Letters(v + ([p] + more)) == Letters(v) + [Letter(p)] + Letters(more)
  {
    LettersJoin([p], more);
    assert Letters([p]) == [Letter(p)];
    LettersJoin(v, [p] + more);
  }

  lemma StripOne(c: char)
    ensures Strip([c]) == if IsSpace(c) then "" else [c]
  {
    assert [c][..0] == "";
  }

  lemma StripNext(src: string, i: nat)
    requires i < |src|
    ensures Strip(src[..i + 1]) == Strip(src[..i]) + if IsSpace(src[i]) then "" else [src[i]]
  {
    assert src[..i + 1][..i] == src[..i];
  }

  lemma StripFrom(src: string, i: nat)
    requires i < |src|
    ensures Strip(src[i..]) == (if IsSpace(src[i]) then "" else [src[i]]) + Strip(src[i + 1..])
  {
    assert src[i..] == [src[i]] + src[i + 1..];
    StripJoin([src[i]], src[i + 1..]);
    StripOne(src[i]);
  }

  lemma StripAround(src: string, i: nat)
    requires i < |src|
    ensures Strip(src) == Strip(src[..i]) + (if IsSpace(src[i]) then "" else [src[i]]) + Strip(src[i + 1..])
  {
    assert src == src[..i] + src[i..];
    StripJoin(src[..i], src[i..]);
    StripFrom(src, i);
  }

  /** What follows the letters decides. */
  lemma Decided(src: string, i: nat, v: seq<bv8>, tail: string)
    requires i <= |src| && Values(v) && Strip(src[..i]) == Letters(v) && tail == Strip(src[i..])
    requires tail != "" ==> Find(tail[0], 0).None?
    ensures Decode(Strip(src)) == Outcome(v, tail)
  {
    StripJoin(src[..i], src[i..]);
    assert src == src[..i] + src[i..];
    DecodeOutcome(v, tail);
  }

  lemma StoredFirst(k: Packer, p: bv8, t: nat, b: seq<byte>, targsize: nat)
    requires Stored(k, t, b, targsize) && k.state == 0 && t < targsize
    ensures Stored(Pack(k, p), t, b[t := p << 2], targsize)
  {
  }

  lemma StoredMiddle(k: Packer, p: bv8, t: nat, b: seq<byte>, targsize: nat, done: byte, kept: byte)
    requires Stored(k, t, b, targsize) && (k.state == 1 || k.state == 2) && t + 1 < targsize
    requires done == Completed(k.state, k.part, p) && kept == Kept(k.state, p)
    ensures Stored(Pack(k, p), t + 1, b[t := done][t + 1 := kept], targsize)
  {
    assert Pack(k, p) == Packer(k.state + 1, k.bytes + [done], kept);
    NextByte(k.bytes, t, b, done, kept);
  }

  lemma NextByte(bytes: seq<byte>, t: nat, b: seq<byte>, done: byte, kept: byte)
    requires t + 1 < |b| && b[..t] == bytes
    ensures b[t := done][t + 1 := kept][..t + 1] == bytes + [done]
  {
  }

  lemma StoredLast(k: Packer, p: bv8, t: nat, b: seq<byte>, targsize: nat)
    requires Stored(k, t, b, targsize) && k.state == 3
    ensures Stored(Pack(k, p), t + 1, b[t := k.part | p], targsize)
  {
  }

  /** What has not been reached yet is as it was. */
  ghost predicate Fresh(state: int, tarindex: nat, buffer: seq<byte>, was: seq<byte>) {
    |buffer| == |was| && forall j :: tarindex <= j < |buffer| ==> buffer[j] == was[j] || (j == tarindex && state != 0)
  }

  lemma FreshTwice(state: int, tarindex: nat, state': int, tarindex': nat, now: seq<byte>, before: seq<byte>, was: seq<byte>)
    requires Fresh(state, tarindex, before, was) && Fresh(state', tarindex', now, before)
    requires tarindex' == tarindex + if state == 0 then 0 else 1
    ensures Fresh(state', tarindex', now, was)
  {
  }

  lemma FreshBeyond(k: Packer, tarindex: nat, buffer: seq<byte>, was: seq<byte>, targsize: nat)
    requires Stored(k, tarindex, buffer, targsize) && Fresh(k.state, tarindex, buffer, was)
    ensures forall j :: targsize <= j < |buffer| ==> buffer[j] == was[j]
  {
  }

  ghost predicate Written(k: Packer, tarindex: nat, buffer: seq<byte>, was: seq<byte>, targsize: nat) {
    Stored(k, tarindex, buffer, targsize) && Fresh(k.state, tarindex, buffer, was)
  }

  /** A byte is completed and the next one is begun. */
  method StoreBoth(ghost k: Packer, ghost p: bv8, tarindex: nat, target: array<byte>, targsize: nat, done: byte,
                   kept: byte)
    requires Stored(k, tarindex, target[..], targsize) && (k.state == 1 || k.state == 2) && tarindex + 1 < targsize
    requires done == Completed(k.state, k.part, p) && kept == Kept(k.state, p)
    modifies target
    ensures Written(Pack(k, p), tarindex + 1, target[..], old(target[..]), targsize)
  {
    StoredMiddle(k, p, tarindex, target[..], targsize, done, kept);
    target[tarindex] := done;
    target[tarindex + 1] := kept;
    assert target[..] == old(target[..])[tarindex := done][tarindex + 1 := kept];
  }

  /** The first letter of four begins a byte, the last one completes one. */
  method StoreOne(ghost k: Packer, ghost p: bv8, tarindex: nat, target: array<byte>, targsize: nat, b: byte)
    requires Stored(k, tarindex, target[..], targsize) && tarindex < targsize
    requires (k.state == 0 && b == p << 2) || (k.state == 3 && b == k.part | p)
    modifies target
    ensures Written(Pack(k, p), if k.state == 0 then tarindex else tarindex + 1, target[..], old(target[..]), targsize)
  {
    if k.state == 0 {
      StoredFirst(k, p, tarindex, target[..], targsize);
    } else {
      StoredLast(k, p, tarindex, target[..], targsize);
    }
    target[tarindex] := b;
    assert target[..] == old(target[..])[tarindex := b];
  }

  /** The switch of b64_decode. */
  method Store(ghost k: Packer, p: bv8, state: int, tarindex: nat, target: array<byte>, targsize: nat)
    returns (ok: bool, state': int, tarindex': nat)
    requires Stored(k, tarindex, target[..], targsize) && state == k.state
    modifies target
    ensures ok <==> targsize > tarindex + if state == 1 || state == 2 then 1 else 0
    ensures ok ==> state' == Pack(k, p).state && Written(Pack(k, p), tarindex', target[..], old(target[..]), targsize)
    ensures !ok ==> target[..] == old(target[..])
    ensures ok ==> tarindex' == tarindex + (if state == 0 then 0 else 1)
  {
    ok, state', tarindex' := true, state, tarindex;
    if state == 0 {
      if tarindex >= targsize {
        return false, state, tarindex;
      }
      StoreOne(k, p, tarindex, target, targsize, p << 2);
      state' := 1;
    } else if state == 1 {
      if tarindex + 1 >= targsize {
        return false, state, tarindex;
      }
      StoreBoth(k, p, tarindex, target, targsize, target[tarindex] | (p >> 4), (p & 0x0f) << 4);
      tarindex' := tarindex + 1;
      state' := 2;
    } else if state == 2 {
      if tarindex + 1 >= targsize {
        return false, state, tarindex;
      }
      StoreBoth(k, p, tarindex, target, targsize, target[tarindex] | (p >> 2), (p & 0x03) << 6);
      tarindex' := tarindex + 1;
      state' := 3;
    } else {
      if tarindex >= targsize {
        return false, state, tarindex;
      }
      StoreOne(k, p, tarindex, target, targsize, target[tarindex] | p);
      tarindex' := tarindex + 1;
      state' := 0;
    }
  }

  /** Steps over white space. */
  method SkipSpaces(src: string, from: nat) returns (i: nat)
    requires from <= |src|
    ensures from <= i <= |src| && Strip(src[from..]) == Strip(src[i..]) && (i < |src| ==> !IsSpace(src[i]))
  {
    i := from;
    while i < |src| && IsSpace(src[i])
      invariant from <= i <= |src| && Strip(src[from..]) == Strip(src[i..])
    {
      StripFrom(src, i);
      i := i + 1;
    }
  }

  /** b64_decode from the first pad character on. */
  method Padding(src: string, from: nat, ghost k: Packer, state: int, part: byte) returns (ok: bool)
    requires from < |src| && src[from] == '=' && state == k.state && 0 <= state < 4
    requires state >= 2 ==> part == k.part
    ensures var tail := Strip(src[from..]);
      ok <==> (state == 2 && tail == "==" && part == 0) || (state == 3 && tail == "=" && part == 0)
  {
    StripFrom(src, from);
    var i := SkipSpaces(src, from + 1);
    if state < 2 {
      return false;
    }
    if i < |src| {
      StripFrom(src, i);
    }
    ghost var rest := Strip(src[i..]);
    assert Strip(src[from..]) == "=" + rest;
    assert i < |src| ==> rest != "" && rest[0] == src[i];
    if state == 2 {
      if i >= |src| || src[i] != '=' {
        assert i < |src| ==> ("=" + rest)[1] == src[i];
        return false;
      }
      i := SkipSpaces(src, i + 1);
      if i < |src| {
        StripFrom(src, i);
      }
    }
    ok := i == |src| && part == 0;
  }

  /** The loop of b64_decode after the letters `v`, which are those before the `i`-th character. */
  ghost predicate Reached(src: string, i: nat, v: seq<bv8>, state: int, tarindex: nat, buffer: seq<byte>, was: seq<byte>,
                          targsize: nat) {
    && i <= |src| && Values(v) && Strip(src[..i]) == Letters(v)
    && Stored(Packed(v), tarindex, buffer, targsize) && state == Packed(v).state
    && Fresh(state, tarindex, buffer, was)
  }

  /** A character that is neither white space, a letter nor the pad. */
  lemma NoLetter(src: string, i: nat, v: seq<bv8>)
    requires i < |src| && Values(v) && Strip(src[..i]) == Letters(v)
    requires !IsSpace(src[i]) && src[i] != '=' && Find(src[i], 0).None?
    ensures Decode(Strip(src)).None?
  {
    StripHead(src, i);
    Decided(src, i, v, Strip(src[i..]));
    BadTail(v, Strip(src[i..]));
  }

  lemma StripHead(src: string, i: nat)
    requires i < |src| && !IsSpace(src[i])
    ensures Strip(src[i..]) != "" && Strip(src[i..])[0] == src[i]
  {
    StripFrom(src, i);
  }

  lemma BadTail(v: seq<bv8>, tail: string)
    requires tail != "" && tail[0] != '='
    ensures Outcome(v, tail).None?
  {
  }

  /** A letter in the loop of b64_decode. */
  method TakeLetter(src: string, i: nat, pos: bv8, ghost v: seq<bv8>, state: int, tarindex: nat, target: array<byte>,
                    targsize: nat, ghost was: seq<byte>) returns (ok: bool, state': int, tarindex': nat)
    requires i < |src| && !IsSpace(src[i]) && Find(src[i], 0) == Some(pos)
    requires Reached(src, i, v, state, tarindex, target[..], was, targsize)
    modifies target
    ensures ok ==> Reached(src, i + 1, v + [pos], state', tarindex', target[..], was, targsize)
    ensures !ok ==> target[..] == old(target[..]) && Result(src, targsize) == -1
  {
    AnotherLetter(src, i, v, targsize);
    ghost var before := target[..];
    ok, state', tarindex' := Store(Packed(v), pos, state, tarindex, target, targsize);
    if ok {
      FreshTwice(state, tarindex, state', tarindex', target[..], before, was);
    }
  }

  /** b64_decode. Nothing is written at or beyond `targsize`. */
  method B64Decode(src: string, target: array<byte>, targsize: nat) returns (r: int)
    requires targsize <= target.Length && forall c :: c in src ==> c != '\0'
    modifies target
    ensures r == Result(src, targsize)
    ensures r >= 0 ==> r <= targsize && Decode(Strip(src)) == Some(target[..r])
    ensures forall j :: targsize <= j < target.Length ==> target[j] == old(target[j])
    ensures r >= 0 ==> forall j :: r <= j < target.Length ==> target[j] == old(target[j]) || (j == r && target[j] == 0)
  {
    var state: int, tarindex: nat, i: nat := 0, 0, 0;
    ghost var v: seq<bv8>, was := [], target[..];
    while i < |src| && src[i] != '='
      invariant Reached(src, i, v, state, tarindex, target[..], was, targsize)
    {
      FreshBeyond(Packed(v), tarindex, target[..], was, targsize);
      StripNext(src, i);
      if IsSpace(src[i]) {
        i := i + 1;
        continue;
      }
      var pos := Find(src[i], 0);
      if pos.None? {
        NoLetter(src, i, v);
        return -1;
      }
      var ok;
      ok, state, tarindex := TakeLetter(src, i, pos.value, v, state, tarindex, target, targsize, was);
      if !ok {
        return -1;
      }
      v := v + [pos.value];
      i := i + 1;
    }
    FreshBeyond(Packed(v), tarindex, target[..], was, targsize);
    var ok := Finish(src, i, v, state, tarindex, target, targsize);
    return if ok then tarindex else -1;
  }

  /** The end of b64_decode. */
  method Finish(src: string, i: nat, ghost v: seq<bv8>, state: int, tarindex: nat, target: array<byte>, targsize: nat)
    returns (ok: bool)
    requires i <= |src| && Values(v) && Strip(src[..i]) == Letters(v) && (i < |src| ==> src[i] == '=')
    requires Stored(Packed(v), tarindex, target[..], targsize) && state == Packed(v).state
    ensures ok <==> Decode(Strip(src)).Some?
    ensures ok ==> Decode(Strip(src)) == Some(Packed(v).bytes) && Need(tarindex) <= targsize
    ensures ok && state != 0 ==> target[tarindex] == 0
  {
    PackedSize(v);
    NoPadLetter();
    if i < |src| {
      StripFrom(src, i);
      Decided(src, i, v, Strip(src[i..]));
      var part := 0;
      if state >= 2 {
        part := target[tarindex];
      }
      ok := Padding(src, i, Packed(v), state, part);
    } else {
      assert src[..i] == src && src[i..] == "";
      Decided(src, i, v, "");
      ok := state == 0;
    }
    FitsExactly(v, state, tarindex, targsize);
  }

  /** A finished encoding needs no more of the buffer than was in use. */
  lemma FitsExactly(v: seq<bv8>, state: int, tarindex: nat, targsize: nat)
    requires state == Packed(v).state && tarindex == |Packed(v).bytes| <= targsize && (state != 0 ==> tarindex < targsize)
    ensures Need(tarindex) <= targsize
  {
    if state == 0 {
      PackedSize(v);
      WholeGroups(|v|);
    }
  }

  lemma WholeGroups(n: nat)
    requires n % 4 == 0
    ensures Size(n) % 3 == 0
  {
    var q := n / 4;
    assert Size(n) == 3 * q;
  }

  lemma AnotherLetter(src: string, i: nat, v: seq<bv8>, targsize: nat)
    requires i < |src| && !IsSpace(src[i]) && Find(src[i], 0).Some? && Values(v) && Strip(src[..i]) == Letters(v)
    ensures var p := Find(src[i], 0).value;
      && Values(v + [p]) && Strip(src[..i + 1]) == Letters(v + [p]) && Packed(v + [p]) == Pack(Packed(v), p)
    ensures |Packed(v).bytes| == Size(|v|) && Packed(v).state == |v| % 4
    ensures targsize <= Ahead(|v|) ==> Result(src, targsize) == -1
  {
    StripNext(src, i);
    PackedSize(v);
    PackedSnoc(v, Find(src[i], 0).value);
    if targsize <= Ahead(|v|) {
      StopsEarly(src, i, v, targsize);
    }
    var p := Find(src[i], 0).value;
    LettersJoin(v, [p]);
    assert Letters([p]) == [Letter(p)];
  }

  /** The accept set: with a buffer of `targsize` bytes a source is accepted exactly when it is, but for white space,
      the encoding of some bytes for which there is room; and then their number is returned. */
  lemma AcceptsExactly(src: string, targsize: nat)
    ensures Result(src, targsize) >= 0 <==> exists d :: Strip(src) == Encode(d) && Need(|d|) <= targsize
    ensures forall d :: Strip(src) == Encode(d) && Need(|d|) <= targsize ==> Result(src, targsize) == |d|
  {
    if Decode(Strip(src)).Some? {
      EncodeDecode(Strip(src));
    }
    forall d | Strip(src) == Encode(d)
      ensures Decode(Strip(src)) == Some(d)
    {
      DecodeEncode(d);
    }
  }
}
