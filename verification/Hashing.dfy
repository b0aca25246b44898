/** Keys of the registries: C strings that are hashed and compared without regard to ASCII case
    (src/core.c, src/hashmap.h). */
module Hashing {

  /** tolower in the C locale. */
  function LowerChar(c: char): char {
    if 'A' <= c <= 'Z' then c - 'A' + 'a' else c
  }

  function Lower(s: string): (r: string)
    ensures |r| == |s|
    ensures forall i :: 0 <= i < |s| ==> r[i] == LowerChar(s[i])
  {
    seq(|s|, i requires 0 <= i < |s| => LowerChar(s[i]))
  }

  const CAPITALS := "ABCDEFGHIJKLMNOPQRSTUVWXYZ"
  const SMALL := "abcdefghijklmnopqrstuvwxyz"

  /** Equal, or the capital and the small form of one letter. */
  ghost predicate SameLetter(c: char, d: char) {
    c == d || exists i :: 0 <= i < 26 && {c, d} == {CAPITALS[i], SMALL[i]}
  }

  lemma AlphabetAt(i: nat)
    requires i < 26
    ensures CAPITALS[i] == 'A' + i as char
    ensures SMALL[i] == 'a' + i as char
  {
  }

  lemma SmallForm(c: char)
    ensures forall i :: 0 <= i < 26 ==> LowerChar(CAPITALS[i]) == LowerChar(SMALL[i]) == SMALL[i] && LowerChar(c) != CAPITALS[i]
    ensures LowerChar(c) == c || exists i :: 0 <= i < 26 && c == CAPITALS[i] && LowerChar(c) == SMALL[i]
  {
    forall i | 0 <= i < 26
      ensures LowerChar(CAPITALS[i]) == LowerChar(SMALL[i]) == SMALL[i] && LowerChar(c) != CAPITALS[i]
    {
      AlphabetAt(i);
    }
    if 'A' <= c <= 'Z' {
      var i := c as int - 'A' as int;
      AlphabetAt(i);
      assert c == CAPITALS[i] && LowerChar(c) == SMALL[i];
    }
  }

  /** Two keys are one exactly when they are letter by letter the same or differ in case; the folded form has no
      capitals. */
  lemma FoldsAlike(s: string, t: string)
    ensures Lower(s) == Lower(t) <==> |s| == |t| && forall i :: 0 <= i < |s| ==> SameLetter(s[i], t[i])
    ensures forall i :: 0 <= i < |s| ==> Lower(s)[i] !in CAPITALS
  {
    forall i | 0 <= i < |s|
      ensures Lower(s)[i] !in CAPITALS
      ensures i < |t| ==> (Lower(s)[i] == Lower(t)[i] <==> SameLetter(s[i], t[i]))
    {
      SmallForm(s[i]);
      if i < |t| {
        SmallForm(t[i]);
        FoldsAlikeAt(s[i], t[i]);
      }
    }
  }

  lemma FoldsAlikeAt(c: char, d: char)
    ensures LowerChar(c) == LowerChar(d) <==> SameLetter(c, d)
  {
    SmallForm(c);
    SmallForm(d);
    if SameLetter(c, d) && c != d {
      var i :| 0 <= i < 26 && {c, d} == {CAPITALS[i], SMALL[i]};
      assert c in {CAPITALS[i], SMALL[i]} && d in {CAPITALS[i], SMALL[i]};
    }
  }

  /** djb2 on 32-bit unsigned arithmetic, starting from 5381. */
  function HashStr(s: string): (h: nat)
    ensures h < 0x1_0000_0000
  {
    if s == [] then 5381
    else (HashStr(s[..|s| - 1]) * 33 + s[|s| - 1] as int) % 0x1_0000_0000
  }

  lemma ShiftAddStep(h: nat, c: nat)
    ensures ((h * 32 % 0x1_0000_0000 + h) % 0x1_0000_0000 + c) % 0x1_0000_0000 == (h * 33 + c) % 0x1_0000_0000
  {
  }

  /** hash_str: `(hash << 5) + hash` on an unsigned int is a multiplication by 33 modulo 2^32. */
  method ComputeHashStr(str: string) returns (hash: nat)
    ensures hash == HashStr(str)
  {
    hash := 5381;
    for i := 0 to |str|
      invariant hash == HashStr(str[..i])
    {
      assert str[..i + 1][..i] == str[..i];
      ShiftAddStep(hash, str[i] as int);
      var shifted := hash * 32 % 0x1_0000_0000;
      hash := ((shifted + hash) % 0x1_0000_0000 + str[i] as int) % 0x1_0000_0000;
    }
    assert str[..|str|] == str;
  }

  function Power33(n: nat): nat {
    if n == 0 then 1 else 33 * Power33(n - 1)
  }

  /** The characters as the digits of a number to the base 33. */
  function Digits(s: string): nat {
    if s == "" then 0 else s[0] as nat * Power33(|s| - 1) + Digits(s[1..])
  }

  /** The hash is a polynomial in 33 modulo 2^32. */
  lemma {:induction false} HashIsPolynomial(s: string)
    ensures HashStr(s) == (5381 * Power33(|s|) + Digits(s)) % 0x1_0000_0000
    decreases |s|
  {
    if s != "" {
      var front, last := s[..|s| - 1], s[|s| - 1] as nat;
      HashIsPolynomial(front);
      DigitsMore(s);
      HornerStep(5381 * Power33(|front|) + Digits(front), last);
    }
  }

  lemma {:induction false} DigitsMore(s: string)
    requires s != ""
    ensures Digits(s) == 33 * Digits(s[..|s| - 1]) + s[|s| - 1] as nat
    decreases |s|
  {
    if |s| > 1 {
      var front := s[..|s| - 1];
      DigitsMore(s[1..]);
      assert s[1..][..|s| - 2] == front[1..];
      Shifted(s[0] as nat, |s| - 1);
    } else {
      assert s[1..] == "" && s[..0] == "";
    }
  }

  lemma Shifted(c: nat, n: nat)
    requires n > 0
    ensures c * Power33(n) == 33 * (c * Power33(n - 1))
  {
  }

  lemma HornerStep(h: nat, c: nat)
    ensures (h % 0x1_0000_0000 * 33 + c) % 0x1_0000_0000 == (33 * h + c) % 0x1_0000_0000
  {
  }

  function HashStrNocase(s: string): nat { HashStr(Lower(s)) }

  /** hash_str_nocase: lower-cases into a fixed 1024-byte buffer first. Longer keys abort the program. */
  method ComputeHashStrNocase(key: string, buf: array<char>) returns (hash: nat)
    requires buf.Length == 1024 && |key| < buf.Length
    modifies buf
    ensures hash == HashStrNocase(key)
    ensures buf[..|key| + 1] == Lower(key) + ['\0']
  {
    for i := 0 to |key|
      invariant forall j :: 0 <= j < i ==> buf[j] == LowerChar(key[j])
    {
      buf[i] := LowerChar(key[i]);
    }
    buf[|key|] := '\0';
    assert buf[..|key|] == Lower(key);
    hash := ComputeHashStr(buf[..|key|]);
  }

  /** What a hash table needs to know about its key type. `fold` stands for the compare callback: two keys
      compare equal when they fold to the same string. */
  datatype Descriptor = Descriptor(hash: string -> nat, fold: string -> string)
  {
    /** Keys that compare equal must hash equal. */
    ghost predicate Lawful() {
      forall k1, k2 :: fold(k1) == fold(k2) ==> hash(k1) == hash(k2)
    }
  }

  /** The descriptor init_core gives to all eleven registries. */
  const NOCASE := Descriptor(HashStrNocase, Lower)

  /** The case-sensitive one of the test suite. */
  const CASE_SENSITIVE := Descriptor(HashStr, (s: string) => s)

  lemma RegistriesLawful()
    ensures NOCASE.Lawful() && CASE_SENSITIVE.Lawful()
  {
  }

  /** Hashing case-sensitively while comparing without case would lose keys. */
  lemma MixedDescriptorUnlawful()
    ensures !Descriptor(HashStr, Lower).Lawful()
  {
    assert Lower("a") == Lower("A");
    assert "a"[..0] == [] && "A"[..0] == [];
    assert HashStr("a") == 177670 && HashStr("A") == 177638;
  }

  /** Bitwise "and" of two naturals. */
  function And(a: nat, b: nat): (r: nat)
    ensures r <= a && r <= b
  {
    if a == 0 || b == 0 then 0
    else 2 * And(a / 2, b / 2) + (if a % 2 == 1 && b % 2 == 1 then 1 else 0)
  }

  function Pow2(k: nat): (p: nat)
    ensures p > 0
  {
    if k == 0 then 1 else 2 * Pow2(k - 1)
  }

  /** Masking with a power of two less one is reduction modulo that power. */
  lemma {:induction false} MaskIsModulo(h: nat, k: nat)
    ensures And(h, Pow2(k) - 1) == h % Pow2(k)
  {
    if k > 0 {
      MaskIsModulo(h / 2, k - 1);
      var p, x := Pow2(k - 1), h / 2 % Pow2(k - 1);
      AndOdd(h, 2 * p - 1, p - 1, x);
      DoubledModulo(h, p, x);
      assert Pow2(k) == 2 * p;
    }
  }

  lemma AndOdd(h: nat, n: nat, m: nat, x: nat)
    requires n == 2 * m + 1 && And(h / 2, m) == x
    ensures And(h, n) == 2 * x + h % 2
  {
    assert n / 2 == m && n % 2 == 1;
  }

  lemma DoubledModulo(h: nat, p: nat, x: nat)
    requires p > 0 && h / 2 % p == x
    ensures h % (2 * p) == 2 * x + h % 2
  {
    var q := h / 2 / p;
    assert h == q * (2 * p) + (2 * x + h % 2);
    ModuloUnique(h, 2 * p, q, 2 * x + h % 2);
  }

  lemma ModuloUnique(h: nat, m: nat, q: nat, r: nat)
    requires m > 0 && h == q * m + r && r < m
    ensures h % m == r
  {
    var q', r' := h / m, h % m;
    assert h == q' * m + r';
    if q < q' {
      MulMono(q + 1, q', m);
    } else if q' < q {
      MulMono(q' + 1, q, m);
    }
  }

  lemma MulMono(a: nat, b: nat, m: nat)
    requires a <= b
    ensures a * m <= b * m
  {
    assert b * m - a * m == (b - a) * m;
  }
}
