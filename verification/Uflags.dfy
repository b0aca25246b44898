/** The channel access flags: bit masks, their letters and the masks that stand for levels. */
module Uflags {

  const OP: bv32 := 0x00001
  const VOICE: bv32 := 0x00002
  const AUTOOP: bv32 := 0x00004
  const AUTOVOICE: bv32 := 0x00008
  const ACL: bv32 := 0x00010
  const INVITE: bv32 := 0x00020
  const TOPIC: bv32 := 0x00040
  const OWNER: bv32 := 0x00080
  const COOWNER: bv32 := 0x00100
  const HALFOP: bv32 := 0x00200
  const SET: bv32 := 0x00400
  const AUTOHALFOP: bv32 := 0x00800
  const PROTECT: bv32 := 0x01000
  const AUTOPROTECT: bv32 := 0x02000
  const NOOP: bv32 := 0x04000
  const AUTOKICK: bv32 := 0x08000
  const AUTOKICKBAN: bv32 := 0x10000
  const AUTOOWNER: bv32 := 0x20000

  const CHANOWNER: bv32 := OP | VOICE | ACL | INVITE | TOPIC | OWNER | HALFOP | SET | PROTECT | AUTOOWNER | AUTOOP
  const CHANCOOWNER: bv32 := OP | VOICE | ACL | INVITE | TOPIC | COOWNER | HALFOP | SET | PROTECT | AUTOOWNER | AUTOOP
  const CHANSADMIN: bv32 := OP | VOICE | ACL | INVITE | TOPIC | HALFOP | SET | PROTECT | AUTOPROTECT | AUTOOP
  const CHANADMIN: bv32 := OP | VOICE | ACL | INVITE | TOPIC | HALFOP | PROTECT | AUTOPROTECT | AUTOOP
  const CHANOP: bv32 := OP | VOICE | AUTOOP | INVITE | TOPIC | HALFOP
  const CHANHALFOP: bv32 := VOICE | INVITE | TOPIC | HALFOP | AUTOHALFOP
  const CHANVOICE: bv32 := VOICE | AUTOVOICE | INVITE

  const ALL: bv32 := 0x3FFFF

  predicate Has(mask: bv32, flag: bv32) {
    mask & flag != 0
  }

  /** The flag a letter stands for; 0 for a letter that stands for none. */
  function Flag(letter: char): bv32 {
    match letter
    case 'o' => OP
    case 'v' => VOICE
    case 'O' => AUTOOP
    case 'V' => AUTOVOICE
    case 'x' => ACL
    case 'i' => INVITE
    case 't' => TOPIC
    case 'F' => OWNER
    case 'f' => COOWNER
    case 'h' => HALFOP
    case 's' => SET
    case 'H' => AUTOHALFOP
    case 'p' => PROTECT
    case 'P' => AUTOPROTECT
    case 'N' => NOOP
    case 'k' => AUTOKICK
    case 'b' => AUTOKICKBAN
    case 'w' => AUTOOWNER
    case _ => 0
  }

  /** Every letter stands for one bit, in this order, and no other character for any. */
  lemma FlagBits(letter: char)
    ensures forall i :: 0 <= i < 18 ==> Flag("ovOVxitFfhsHpPNkbw"[i]) == 1 << i
    ensures Flag(letter) == 0 <==> letter !in "ovOVxitFfhsHpPNkbw"
  {
  }

  /** The letters in the order in which masks are printed. */
  const LETTERS := "oOvVxitFfhsHpPNkbw"

  /** What parse_uflags computes. */
  function Parsed(letters: string): bv32 {
    if letters == "" then 0 else Parsed(letters[..|letters| - 1]) | Flag(letters[|letters| - 1])
  }

  /** parse_uflags. */
  method ParseUflags(flags: string) returns (uflags: bv32)
    ensures uflags == Parsed(flags)
  {
    uflags := 0;
    for i := 0 to |flags|
      invariant uflags == Parsed(flags[..i])
    {
      assert flags[..i + 1][..i] == flags[..i];
      uflags := uflags | Flag(flags[i]);
    }
    assert flags[..|flags|] == flags;
  }

  /** The letters among `from` whose flag is in the mask. */
  function Selected(mask: bv32, from: string): string {
    if from == "" then "" else Selected(mask, from[..|from| - 1]) + Picked(mask, from[|from| - 1])
  }

  function Picked(mask: bv32, letter: char): string {
    if Has(mask, Flag(letter)) then [letter] else ""
  }

  /** One test after the other. */
  method Select(uflags: bv32, letters: string) returns (str: string)
    ensures str == Selected(uflags, letters)
  {
    str := "";
    for i := 0 to |letters|
      invariant str == Selected(uflags, letters[..i])
    {
      SelectedSnoc(uflags, letters[..i], letters[i]);
      assert letters[..i] + [letters[i]] == letters[..i + 1];
      if Has(uflags, Flag(letters[i])) {
        str := str + [letters[i]];
      }
    }
    assert letters[..|letters|] == letters;
  }

  /** get_uflags_string. */
  method GetUflagsString(uflags: bv32) returns (str: string)
    ensures str == "+" + Selected(uflags, LETTERS)
  {
    str := Select(uflags, LETTERS);
    str := "+" + str;
  }

  /** Parsing two strings one after the other is parsing them separately and joining the masks. */
  lemma {:induction false} ParsedJoin(a: string, b: string)
    ensures Parsed(a + b) == Parsed(a) | Parsed(b)
  {
    if b == "" {
      assert a + b == a;
    } else {
      var front := b[..|b| - 1];
      assert (a + b)[..|a + b| - 1] == a + front;
      ParsedJoin(a, front);
    }
  }

  /** A letter counts once, wherever it stands. */
  lemma ParsedHas(letters: string, flag: bv32)
    requires exists i :: 0 <= i < 18 && flag == Flag(LETTERS[i])
    ensures Has(Parsed(letters), flag) <==> exists k :: 0 <= k < |letters| && Flag(letters[k]) == flag
  {
    SingleBits('+', flag);
    if Has(Parsed(letters), flag) {
      var k := HadBy(letters, flag);
    } else {
      forall k | 0 <= k < |letters|
        ensures Flag(letters[k]) != flag
      {
        NotHadBy(letters, flag, k);
      }
    }
  }

  lemma {:induction false} HadBy(letters: string, flag: bv32) returns (k: nat)
    requires Has(Parsed(letters), flag) && exists i :: 0 <= i < 18 && flag == Flag(LETTERS[i])
    ensures k < |letters| && Flag(letters[k]) == flag
  {
    k := |letters| - 1;
    BitOfJoin(Parsed(letters[..k]), Flag(letters[k]), flag);
    SingleBits(letters[k], flag);
    if Has(Parsed(letters[..k]), flag) {
      k := HadBy(letters[..k], flag);
    }
  }

  lemma {:induction false} NotHadBy(letters: string, flag: bv32, k: nat)
    requires !Has(Parsed(letters), flag) && flag != 0 && k < |letters|
    ensures Flag(letters[k]) != flag
  {
    var last := |letters| - 1;
    BitOfJoin(Parsed(letters[..last]), Flag(letters[last]), flag);
    if k < last {
      NotHadBy(letters[..last], flag, k);
    } else {
      OwnBits(flag);
    }
  }

  lemma OwnBits(flag: bv32)
    ensures Has(flag, flag) <==> flag != 0
  {
  }

  lemma BitOfJoin(a: bv32, b: bv32, flag: bv32)
    ensures Has(a | b, flag) <==> Has(a, flag) || Has(b, flag)
  {
    assert (a | b) & flag == (a & flag) | (b & flag);
  }

  lemma SingleBits(letter: char, flag: bv32)
    requires exists i :: 0 <= i < 18 && flag == Flag(LETTERS[i])
    ensures flag != 0 && (Has(Flag(letter), flag) <==> Flag(letter) == flag)
  {
  }

  /** What is printed is parsed back, up to bits that stand for nothing. */
  lemma StringThenParse(mask: bv32)
    ensures Parsed("+" + Selected(mask, LETTERS)) == mask & ALL
  {
    ParsedJoin("+", Selected(mask, LETTERS));
    SelectedParsed(mask, LETTERS);
    ParsedOne('+');
    AllLetters();
  }

  lemma {:induction false} SelectedParsed(mask: bv32, from: string)
    ensures Parsed(Selected(mask, from)) == mask & Parsed(from)
  {
    if from != "" {
      var front, last := from[..|from| - 1], from[|from| - 1];
      SelectedParsed(mask, front);
      SelectedMore(mask, front, last);
      assert from == front + [last];
    }
  }

  lemma SelectedMore(mask: bv32, front: string, last: char)
    requires Parsed(Selected(mask, front)) == mask & Parsed(front)
    ensures Parsed(Selected(mask, front + [last])) == mask & Parsed(front + [last])
  {
    PickedParsed(mask, last);
    SelectedStep(mask, Selected(mask, front), front, Picked(mask, last), [last]);
    SelectedSnoc(mask, front, last);
  }

  lemma SelectedSnoc(mask: bv32, front: string, last: char)
    ensures Selected(mask, front + [last]) == Selected(mask, front) + Picked(mask, last)
  {
    assert (front + [last])[..|front|] == front;
  }

  lemma SelectedStep(mask: bv32, a: string, b: string, c: string, d: string)
    requires Parsed(a) == mask & Parsed(b) && Parsed(c) == mask & Parsed(d)
    ensures Parsed(a + c) == mask & Parsed(b + d)
  {
    ParsedJoin(a, c);
    ParsedJoin(b, d);
    Distribute(mask, Parsed(b), Parsed(d));
  }

  lemma PickedParsed(mask: bv32, letter: char)
    ensures Parsed(Picked(mask, letter)) == mask & Parsed([letter])
  {
    OneBit(mask, letter);
    ParsedOne(letter);
  }

  lemma Distribute(mask: bv32, a: bv32, b: bv32)
    ensures mask & (a | b) == (mask & a) | (mask & b)
  {
  }

  lemma OneBit(mask: bv32, letter: char)
    ensures mask & Flag(letter) == if Has(mask, Flag(letter)) then Flag(letter) else 0
  {
    match letter {
      case 'o' =>
      case 'O' =>
      case 'v' =>
      case 'V' =>
      case 'x' =>
      case 'i' =>
      case 't' =>
      case 'F' =>
      case 'f' =>
      case 'h' =>
      case 's' =>
      case 'H' =>
      case 'p' =>
      case 'P' =>
      case 'N' =>
      case 'k' =>
      case 'b' =>
      case 'w' =>
      case _ =>
    }
  }

  lemma AllLetters()
    ensures Parsed(LETTERS) == ALL
  {
    ParsedJoin("oOvVxi", "tFfhsHpPNkbw");
    ParsedJoin("tFfhsH", "pPNkbw");
    assert LETTERS == "oOvVxi" + "tFfhsHpPNkbw" && "tFfhsHpPNkbw" == "tFfhsH" + "pPNkbw";
    FirstLetters();
    MiddleLetters();
    LastLetters();
  }

  lemma FirstLetters()
    ensures Parsed("oOvVxi") == 0x0003F
  {
    ParsedSix('o', 'O', 'v', 'V', 'x', 'i');
    assert "oOvVxi" == ['o', 'O', 'v', 'V', 'x', 'i'];
  }

  lemma MiddleLetters()
    ensures Parsed("tFfhsH") == 0x00FC0
  {
    ParsedSix('t', 'F', 'f', 'h', 's', 'H');
    assert "tFfhsH" == ['t', 'F', 'f', 'h', 's', 'H'];
  }

  lemma LastLetters()
    ensures Parsed("pPNkbw") == 0x3F000
  {
    ParsedSix('p', 'P', 'N', 'k', 'b', 'w');
    assert "pPNkbw" == ['p', 'P', 'N', 'k', 'b', 'w'];
  }

  lemma ParsedSix(a: char, b: char, c: char, d: char, e: char, f: char)
    ensures Parsed([a, b, c, d, e, f]) == Flag(a) | Flag(b) | Flag(c) | Flag(d) | Flag(e) | Flag(f)
  {
    ParsedJoin([a, b, c, d, e], [f]);
    ParsedJoin([a, b, c, d], [e]);
    ParsedJoin([a, b, c], [d]);
    ParsedJoin([a, b], [c]);
    ParsedJoin([a], [b]);
    ParsedOne(a); ParsedOne(b); ParsedOne(c); ParsedOne(d); ParsedOne(e); ParsedOne(f);
    assert [a] + [b] == [a, b] && [a, b] + [c] == [a, b, c] && [a, b, c] + [d] == [a, b, c, d];
    assert [a, b, c, d] + [e] == [a, b, c, d, e] && [a, b, c, d, e] + [f] == [a, b, c, d, e, f];
  }

  lemma ParsedOne(a: char)
    ensures Parsed([a]) == Flag(a)
  {
    assert Parsed([a]) == Parsed("") | Flag(a);
  }

  /** What the masks of the levels are made of. */
  lemma MasksByLetters()
    ensures CHANVOICE == Flag('v') | Flag('V') | Flag('i')
    ensures CHANHALFOP == Flag('v') | Flag('i') | Flag('t') | Flag('h') | Flag('H')
    ensures CHANOP == Flag('o') | Flag('v') | Flag('i') | Flag('t') | Flag('h') | Flag('O')
    ensures CHANADMIN == CHANOP | Flag('x') | Flag('p') | Flag('P') && CHANSADMIN == CHANADMIN | Flag('s')
    ensures CHANOWNER == CHANOP | Flag('x') | Flag('p') | Flag('s') | Flag('w') | Flag('F')
    ensures CHANCOOWNER == CHANOP | Flag('x') | Flag('p') | Flag('s') | Flag('w') | Flag('f')
  {
  }

  /** The other way round: printing what was parsed lists the letters used, once each, in the fixed order. */
  lemma {:induction false} ParseThenString(letters: string, from: string)
    requires forall c :: c in from ==> c in LETTERS
    ensures forall c :: c in Selected(Parsed(letters), from) <==> c in from && c in letters
    ensures |Selected(Parsed(letters), from)| <= |from|
  {
    if from != "" {
      var front, last := from[..|from| - 1], from[|from| - 1];
      ParseThenString(letters, front);
      assert last in from && from == front + [last];
      LetterParsed(letters, last);
    }
  }

  lemma LetterParsed(letters: string, c: char)
    requires c in LETTERS
    ensures Has(Parsed(letters), Flag(c)) <==> c in letters
  {
    ParsedHas(letters, Flag(c));
    forall k | 0 <= k < |letters|
      ensures Flag(letters[k]) == Flag(c) <==> letters[k] == c
    {
      LetterOfFlag(letters[k], c);
    }
  }

  /** The letter of a flag. */
  function Letter(flag: bv32): char {
    if flag == OP then 'o'
    else if flag == AUTOOP then 'O'
    else if flag == VOICE then 'v'
    else if flag == AUTOVOICE then 'V'
    else if flag == ACL then 'x'
    else if flag == INVITE then 'i'
    else if flag == TOPIC then 't'
    else if flag == OWNER then 'F'
    else if flag == COOWNER then 'f'
    else if flag == HALFOP then 'h'
    else if flag == SET then 's'
    else if flag == AUTOHALFOP then 'H'
    else if flag == PROTECT then 'p'
    else if flag == AUTOPROTECT then 'P'
    else if flag == NOOP then 'N'
    else if flag == AUTOKICK then 'k'
    else if flag == AUTOKICKBAN then 'b'
    else if flag == AUTOOWNER then 'w'
    else '?'
  }

  lemma LetterOfFlag(a: char, c: char)
    requires c in LETTERS
    ensures Flag(a) == Flag(c) <==> a == c
  {
    if Flag(a) == Flag(c) {
      FlagOfLetter(c);
      if Flag(a) != 0 {
        NonzeroFlag(a);
        FlagOfLetter(a);
      }
    }
  }

  lemma NonzeroFlag(c: char)
    requires Flag(c) != 0
    ensures c in LETTERS
  {
    match c {
      case 'o' => assert LETTERS[0] == 'o';
      case 'O' => assert LETTERS[1] == 'O';
      case 'v' => assert LETTERS[2] == 'v';
      case 'V' => assert LETTERS[3] == 'V';
      case 'x' => assert LETTERS[4] == 'x';
      case 'i' => assert LETTERS[5] == 'i';
      case 't' => assert LETTERS[6] == 't';
      case 'F' => assert LETTERS[7] == 'F';
      case 'f' => assert LETTERS[8] == 'f';
      case 'h' => assert LETTERS[9] == 'h';
      case 's' => assert LETTERS[10] == 's';
      case 'H' => assert LETTERS[11] == 'H';
      case 'p' => assert LETTERS[12] == 'p';
      case 'P' => assert LETTERS[13] == 'P';
      case 'N' => assert LETTERS[14] == 'N';
      case 'k' => assert LETTERS[15] == 'k';
      case 'b' => assert LETTERS[16] == 'b';
      case 'w' => assert LETTERS[17] == 'w';
      case _ =>
    }
  }

  lemma FlagOfLetter(c: char)
    requires c in LETTERS
    ensures Letter(Flag(c)) == c && Flag(c) != 0
  {
    match c {
      case 'o' =>
      case 'O' =>
      case 'v' =>
      case 'V' =>
      case 'x' =>
      case 'i' =>
      case 't' =>
      case 'F' =>
      case 'f' =>
      case 'h' =>
      case 's' =>
      case 'H' =>
      case 'p' =>
      case 'P' =>
      case 'N' =>
      case 'k' =>
      case 'b' =>
      case 'w' =>
      case _ =>
    }
  }
}
