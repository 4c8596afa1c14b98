/** Base58 text of byte strings, with checksum, and the addresses written in it. */
module Base58 {

  import opened Options
  import opened ByteStrings
  import Compact
  import Ledger

  type Digit = x: int | 0 <= x < 58

  type Digits = seq<Digit>

  // ------------------------------------------------------------------ numbers in base 58

  /** The digits of a number, highest first; none for zero. */
  function To58(n: nat): (d: Digits)
    ensures n == 0 <==> d == []
    ensures n != 0 ==> d[0] != 0
  {
    if n == 0 then [] else
      var h := To58(n / 58);
      h + [n % 58]
  }

  function From58(d: Digits): nat {
    if d == [] then 0 else From58(d[..|d|-1]) * 58 + d[|d|-1]
  }

  lemma {:induction false} To58RoundTrip(n: nat)
    ensures From58(To58(n)) == n
  {
    if n != 0 {
      To58RoundTrip(n / 58);
      assert To58(n)[..|To58(n)|-1] == To58(n / 58);
    }
  }

  lemma {:induction false} From58Positive(d: Digits)
    requires d != [] && d[0] != 0
    ensures From58(d) > 0
  {
    if |d| > 1 {
      From58Positive(d[..|d|-1]);
    }
  }

  lemma {:induction false} From58RoundTrip(d: Digits)
    requires d != [] ==> d[0] != 0
    ensures To58(From58(d)) == d
  {
    if d != [] {
      var h := d[..|d|-1];
      From58RoundTrip(h);
      if h != [] {
        From58Positive(h);
      }
      assert d == h + [d[|d|-1]];
      assert From58(d) / 58 == From58(h) && From58(d) % 58 == d[|d|-1];
    }
  }

  // ------------------------------------------------------------------ leading zeros

  function LeadingZeros(s: seq<int>): (k: nat)
    ensures k <= |s|
  {
    if s == [] || s[0] != 0 then 0 else 1 + LeadingZeros(s[1..])
  }

  function Zeros(k: nat): (z: Bytes)
    ensures |z| == k && forall i :: 0 <= i < k ==> z[i] == 0
  {
    seq(k, _ => 0)
  }

  function ZeroDigits(k: nat): (z: Digits)
    ensures |z| == k && forall i :: 0 <= i < k ==> z[i] == 0
  {
    seq(k, _ => 0)
  }

  lemma {:induction false} LeadingZerosFacts(s: seq<int>)
    ensures forall i :: 0 <= i < LeadingZeros(s) ==> s[i] == 0
    ensures LeadingZeros(s) < |s| ==> s[LeadingZeros(s)] != 0
  {
    if s != [] && s[0] == 0 {
      LeadingZerosFacts(s[1..]);
    }
  }

  lemma {:induction false} LeadingZerosOf(z: seq<int>, m: seq<int>)
    requires (forall i :: 0 <= i < |z| ==> z[i] == 0) && (m != [] ==> m[0] != 0)
    ensures LeadingZeros(z + m) == |z|
  {
    if z != [] {
      assert (z + m)[1..] == z[1..] + m;
      LeadingZerosOf(z[1..], m);
    } else {
      assert z + m == m;
    }
  }

  lemma {:induction false} ValueOfPadded(k: nat, m: Bytes)
    ensures FromBe(Zeros(k) + m) == FromBe(m)
  {
    FromBeZero(Zeros(k));
    FromBeJoin(Zeros(k), m);
  }

  lemma {:induction false} ValueOfPaddedDigits(z: Digits, m: Digits)
    requires forall i :: 0 <= i < |z| ==> z[i] == 0
    ensures From58(z + m) == From58(m)
  {
    if m != [] {
      assert (z + m)[..|z + m| - 1] == z + m[..|m|-1];
      ValueOfPaddedDigits(z, m[..|m|-1]);
    } else if z != [] {
      assert z + m == z && (z[..|z|-1] + m) == z[..|z|-1];
      ValueOfPaddedDigits(z[..|z|-1], m);
    }
  }

  // ------------------------------------------------------------------ the code

  /** A byte string as digits: every leading zero byte is a zero digit, the rest is one number. */
  function Encoded(b: Bytes): Digits {
    ZeroDigits(LeadingZeros(b)) + To58(FromBe(b))
  }

  function Decoded(d: Digits): Bytes {
    Zeros(LeadingZeros(d)) + Be(From58(d))
  }

  lemma BytesAreZerosAndNumber(b: Bytes)
    ensures b == Zeros(LeadingZeros(b)) + Be(FromBe(b))
  {
    var k := LeadingZeros(b);
    LeadingZerosFacts(b);
    var m := b[k..];
    assert b == Zeros(k) + m;
    ValueOfPadded(k, m);
    FromBeRoundTrip(m);
  }

  lemma DigitsAreZerosAndNumber(d: Digits)
    ensures d == ZeroDigits(LeadingZeros(d)) + To58(From58(d))
  {
    var k := LeadingZeros(d);
    LeadingZerosFacts(d);
    var m := d[k..];
    assert d == ZeroDigits(k) + m;
    ValueOfPaddedDigits(ZeroDigits(k), m);
    From58RoundTrip(m);
  }

  lemma DecodeEncode(b: Bytes)
    ensures Decoded(Encoded(b)) == b
  {
    hide To58, From58, Be, FromBe, LeadingZeros;
    var k, n := LeadingZeros(b), FromBe(b);
    LeadingZerosOf(ZeroDigits(k), To58(n));
    ValueOfPaddedDigits(ZeroDigits(k), To58(n));
    To58RoundTrip(n);
    BytesAreZerosAndNumber(b);
  }

  lemma EncodeDecode(d: Digits)
    ensures Encoded(Decoded(d)) == d
  {
    hide To58, From58, Be, FromBe, LeadingZeros;
    var k, n := LeadingZeros(d), From58(d);
    LeadingZerosOf(Zeros(k), Be(n));
    ValueOfPadded(k, Be(n));
    BeRoundTrip(n);
    DigitsAreZerosAndNumber(d);
  }

  // ------------------------------------------------------------------ text

  // the characters: no 0, I, O and l
  const NUMERALS := "123456789"
  const UPPER_TO_H := "ABCDEFGH"
  const UPPER_TO_N := "JKLMN"
  const UPPER_TO_Z := "PQRSTUVWXYZ"
  const LOWER_TO_K := "abcdefghijk"
  const LOWER_TO_Z := "mnopqrstuvwxyz"

  function Letters(): string {
    NUMERALS + UPPER_TO_H + UPPER_TO_N + UPPER_TO_Z + LOWER_TO_K + LOWER_TO_Z
  }

  /** The place of each of them among all characters. */
  function CodeOf(d: Digit): int {
    if d < 9 then '1' as int + d
    else if d < 17 then 'A' as int + (d - 9)
    else if d < 22 then 'J' as int + (d - 17)
    else if d < 33 then 'P' as int + (d - 22)
    else if d < 44 then 'a' as int + (d - 33)
    else 'm' as int + (d - 44)
  }

  lemma LettersAre(d: Digit)
    ensures |Letters()| == 58 && Letters()[d] as int == CodeOf(d)
  {
    if d < 9 {
      assert Letters()[d] == NUMERALS[d];
    } else if d < 17 {
      assert Letters()[d] == UPPER_TO_H[d - 9];
    } else if d < 22 {
      assert Letters()[d] == UPPER_TO_N[d - 17];
    } else if d < 33 {
      assert Letters()[d] == UPPER_TO_Z[d - 22];
    } else if d < 44 {
      assert Letters()[d] == LOWER_TO_K[d - 33];
    } else {
      assert Letters()[d] == LOWER_TO_Z[d - 44];
    }
  }

  /** What isspace accepts: blank, tab, line feed, vertical tab, form feed and carriage return. */
  lemma SpacesAre(c: char)
    ensures IsSpace(c) <==> c in [' ', '\t', '\n', 11 as char, 12 as char, '\r']
  {
  }

  predicate IsSpace(c: char) {
    c == ' ' || 9 <= c as int <= 13
  }

  lemma LettersFacts()
    ensures |Letters()| == 58
    ensures forall i, j :: 0 <= i < j < 58 ==> Letters()[i] != Letters()[j]
    ensures forall i :: 0 <= i < 58 ==> !IsSpace(Letters()[i]) && Letters()[i] != '<'
  {
    LettersAre(0);
    hide Letters;
    forall i | 0 <= i < 58
      ensures !IsSpace(Letters()[i]) && Letters()[i] != '<'
    {
      LettersAre(i);
    }
    forall i, j | 0 <= i < j < 58
      ensures Letters()[i] != Letters()[j]
    {
      LettersAre(i);
      LettersAre(j);
    }
  }

  /** pszBase58. */
  function Alphabet(): (a: string)
    ensures |a| == 58
  {
    LettersAre(0);
    Letters()
  }

  lemma AlphabetFacts()
    ensures forall i, j :: 0 <= i < j < 58 ==> Alphabet()[i] != Alphabet()[j]
    ensures forall i :: 0 <= i < 58 ==> !IsSpace(Alphabet()[i]) && Alphabet()[i] != '<'
  {
    LettersFacts();
    hide Letters;
  }

  /** strchr: the first place of a character, or the end. */
  function Find(s: string, c: char): (i: nat)
    ensures i <= |s| && (i < |s| ==> s[i] == c)
    ensures forall j :: 0 <= j < i ==> s[j] != c
  {
    if s == "" || s[0] == c then 0 else 1 + Find(s[1..], c)
  }

  predicate InAlphabet(c: char) {
    Find(Alphabet(), c) < 58
  }

  function DigitOf(c: char): (d: Digit)
    requires InAlphabet(c)
  {
    Find(Alphabet(), c)
  }

  function Text(d: Digits): (s: string)
    ensures |s| == |d| && forall i :: 0 <= i < |d| ==> s[i] == Alphabet()[d[i]]
  {
    if d == [] then [] else Text(d[..|d|-1]) + [Alphabet()[d[|d|-1]]]
  }

  function DigitsOf(s: string): (d: Digits)
    requires forall i :: 0 <= i < |s| ==> InAlphabet(s[i])
    ensures |d| == |s| && forall i :: 0 <= i < |s| ==> d[i] == DigitOf(s[i])
  {
    if s == "" then [] else DigitsOf(s[..|s|-1]) + [DigitOf(s[|s|-1])]
  }

  predicate AllDigits(s: string) {
    forall i :: 0 <= i < |s| ==> InAlphabet(s[i])
  }

  lemma TextRoundTrip(d: Digits)
    ensures AllDigits(Text(d)) && DigitsOf(Text(d)) == d
  {
    hide Alphabet, Text, DigitsOf, Find;
    AlphabetFacts();
    forall i | 0 <= i < |d|
      ensures InAlphabet(Text(d)[i]) && DigitOf(Text(d)[i]) == d[i]
    {
      var f := Find(Alphabet(), Alphabet()[d[i]]);
      assert f <= d[i];
    }
  }

  lemma DigitsRoundTrip(s: string)
    requires AllDigits(s)
    ensures Text(DigitsOf(s)) == s
  {
    hide Alphabet, Text, DigitsOf, Find;
  }

  // ------------------------------------------------------------------ encoding

  function Base58Of(b: Bytes): string {
    Text(Encoded(b))
  }

  /** A digit counts 58 times more for every digit behind it. */
  function Power58(k: nat): nat {
    if k == 0 then 1 else 58 * Power58(k - 1)
  }

  lemma {:induction false} DigitCounts(x: Digit, d: Digits)
    ensures From58([x] + d) == x * Power58(|d|) + From58(d)
  {
    if d == [] {
      assert [x] + d == [x] && [x][..0] == [];
      assert From58([x]) == From58([x][..0]) * 58 + x == x;
    } else {
      var k := |d| - 1;
      DigitCounts(x, d[..k]);
      assert ([x] + d)[..k+1] == [x] + d[..k];
      assert (x * Power58(k) + From58(d[..k])) * 58 == x * Power58(k + 1) + From58(d[..k]) * 58;
    }
  }

  /** Digits of the same value, as many of them zero in front as there are zero bytes, are what the bytes are
      written as. */
  lemma WrittenAs(b: Bytes, d: Digits)
    requires FromBe(b) == From58(d) && LeadingZeros(b) == LeadingZeros(d)
    ensures Base58Of(b) == Text(d)
  {
    DigitsAreZerosAndNumber(d);
    hide Text, FromBe, From58;
  }

  /** Some texts, from the list of examples that comes with the code. */
  lemma KnownTexts()
    ensures Base58Of([]) == ""
    ensures Base58Of([0x61]) == "2g"
    ensures Base58Of([0x62, 0x62, 0x62]) == "a3gV"
    ensures Base58Of([0x57, 0x2e, 0x47, 0x94]) == "3EFU7m"
    ensures Base58Of([0, 0, 0, 0, 0, 0, 0, 0, 0, 0]) == "1111111111"
  {
    hide Base58Of, Text;
    WrittenAs([], []);
    OneByteText();
    ThreeByteText();
    FourByteText();
    TenZeros();
    TheirLetters();
  }

  lemma OneByteText()
    ensures Base58Of([0x61]) == Text([1, 39])
  {
    hide Base58Of, Text;
    BytePush([], 0x61);
    DigitPush([], 1);
    DigitPush([1], 39);
    assert [] + [0x61] == [0x61] && [] + [1] == [1] && [1] + [39] == [1, 39];
    WrittenAs([0x61], [1, 39]);
  }

  lemma ThreeByteText()
    ensures Base58Of([0x62, 0x62, 0x62]) == Text([33, 2, 39, 28])
  {
    hide Base58Of, Text;
    ThreeBytes(0x62, 0x62, 0x62);
    FourDigits(33, 2, 39, 28);
    WrittenAs([0x62, 0x62, 0x62], [33, 2, 39, 28]);
  }

  lemma FourByteText()
    ensures Base58Of([0x57, 0x2e, 0x47, 0x94]) == Text([2, 13, 14, 27, 6, 44])
  {
    hide Base58Of, Text, From58, FromBe;
    var b: Bytes := [0x57, 0x2e, 0x47];
    var d: Digits := [2, 13, 14, 27];
    ThreeBytes(0x57, 0x2e, 0x47);
    BytePush(b, 0x94);
    FourDigits(2, 13, 14, 27);
    DigitPush(d, 6);
    DigitPush(d + [6], 44);
    assert b + [0x94] == [0x57, 0x2e, 0x47, 0x94] && d + [6] + [44] == [2, 13, 14, 27, 6, 44];
    WrittenAs([0x57, 0x2e, 0x47, 0x94], [2, 13, 14, 27, 6, 44]);
  }

  lemma BytePush(b: Bytes, x: Byte)
    ensures FromBe(b + [x]) == FromBe(b) * 256 + x
  {
    assert (b + [x])[..|b|] == b;
  }

  lemma DigitPush(d: Digits, x: Digit)
    ensures From58(d + [x]) == From58(d) * 58 + x
  {
    assert (d + [x])[..|d|] == d;
  }

  lemma ThreeBytes(x: Byte, y: Byte, z: Byte)
    ensures FromBe([x, y, z]) == (x * 256 + y) * 256 + z
  {
    BytePush([], x);
    BytePush([x], y);
    BytePush([x, y], z);
    assert [] + [x] == [x] && [x] + [y] == [x, y] && [x, y] + [z] == [x, y, z];
  }

  lemma FourDigits(x: Digit, y: Digit, z: Digit, w: Digit)
    ensures From58([x, y, z, w]) == ((x * 58 + y) * 58 + z) * 58 + w
  {
    DigitPush([], x);
    DigitPush([x], y);
    DigitPush([x, y], z);
    DigitPush([x, y, z], w);
    assert [] + [x] == [x] && [x] + [y] == [x, y] && [x, y] + [z] == [x, y, z] && [x, y, z] + [w] == [x, y, z, w];
  }

  lemma TenZeros()
    ensures Base58Of([0, 0, 0, 0, 0, 0, 0, 0, 0, 0]) == Text(ZeroDigits(10))
  {
    var b: Bytes := [0, 0, 0, 0, 0, 0, 0, 0, 0, 0];
    LeadingZerosOf(b, []);
    FromBeZero(b);
    assert b + [] == b;
    assert Encoded(b) == ZeroDigits(10);
  }

  lemma TheirLetters()
    ensures Text([1, 39]) == "2g" && Text([33, 2, 39, 28]) == "a3gV" && Text([2, 13, 14, 27, 6, 44]) == "3EFU7m"
    ensures Text(ZeroDigits(10)) == "1111111111" && Text([]) == ""
  {
    LettersAre(0);
    LettersAre(1);
    LettersAre(2);
    LettersAre(6);
    LettersAre(13);
    LettersAre(14);
    LettersAre(27);
    LettersAre(28);
    LettersAre(33);
    LettersAre(39);
    LettersAre(44);
    hide Letters, Text;
  }

  function ReverseText(s: string): (r: string)
    ensures |r| == |s|
  {
    if s == "" then "" else [s[|s|-1]] + ReverseText(s[..|s|-1])
  }

  lemma TextJoins(a: Digits, b: Digits)
    ensures Text(a + b) == Text(a) + Text(b)
  {
    hide Alphabet, Text;
  }

  lemma ReverseNext(s: string, c: char)
    ensures ReverseText(s + [c]) == [c] + ReverseText(s)
  {
    assert (s + [c])[..|s|] == s;
  }

  lemma OneDigit(d: Digit)
    ensures Text([d]) == [Alphabet()[d]]
  {
    hide Alphabet, Text;
  }

  lemma To58Next(n: nat)
    requires n > 0
    ensures To58(n) == To58(n / 58) + [n % 58]
  {
  }

  /** EncodeBase58: the digits come out lowest first, and the text is turned round at the end. */
  method EncodeBase58(b: Bytes) returns (s: string)
    ensures s == Base58Of(b)
  {
    hide Alphabet, Text, FromBe, To58, ReverseText, Compact.SetVch, Reverse;
    var bn := Compact.SetVch(Reverse(b) + [0]);
    SignByte(b);
    ghost var n := bn;
    s := "";
    Nothing();
    while bn > 0
      invariant bn >= 0
      invariant Text(To58(n)) == Text(To58(bn)) + ReverseText(s)
    {
      DigitOut(bn, s);
      s := s + [Alphabet()[bn % 58]];
      bn := bn / 58;
    }
    s := EncodeZeros(b, s, n);
  }

  /** The leading zero bytes go in front, and the text is turned round. */
  method EncodeZeros(b: Bytes, digits: string, ghost n: nat) returns (s: string)
    requires ReverseText(digits) == Text(To58(n))
    ensures s == Text(ZeroDigits(LeadingZeros(b)) + To58(n))
  {
    hide Alphabet, Text, To58, ReverseText, ZeroDigits, LeadingZeros;
    s := digits;
    var p := 0;
    assert ZeroDigits(0) == [] && b[0..] == b;
    Nothing();
    while p < |b| && b[p] == 0
      invariant 0 <= p <= |b| && LeadingZeros(b) == p + LeadingZeros(b[p..])
      invariant ReverseText(s) == Text(ZeroDigits(p)) + Text(To58(n))
    {
      OneZeroMore(b, p);
      ZeroOut(p);
      ReverseNext(s, Alphabet()[0]);
      s := s + [Alphabet()[0]];
      p := p + 1;
    }
    NoZeroMore(b, p);
    TextJoins(ZeroDigits(p), To58(n));
    s := ReverseText(s);
  }

  lemma OneZeroMore(b: seq<int>, p: nat)
    requires p < |b| && b[p] == 0
    ensures LeadingZeros(b[p..]) == 1 + LeadingZeros(b[p+1..])
  {
    assert b[p..][1..] == b[p+1..];
  }

  lemma NoZeroMore(b: seq<int>, p: nat)
    requires p <= |b| && (p < |b| ==> b[p] != 0)
    ensures LeadingZeros(b[p..]) == 0
  {
  }

  lemma Nothing()
    ensures To58(0) == [] && Text([]) == "" && ReverseText("") == ""
    ensures forall s: string :: s + "" == s && "" + s == s
  {
  }

  lemma SignByte(b: Bytes)
    ensures Compact.SetVch(Reverse(b) + [0]) == FromBe(b)
  {
    hide FromBe, Reverse;
    ReversePush(Reverse(b), 0);
    ReverseTwice(b);
    ZeroInFront(b);
  }

  lemma DigitOut(bn: nat, s: string)
    requires bn > 0
    ensures Text(To58(bn)) + ReverseText(s) == Text(To58(bn / 58)) + ReverseText(s + [Alphabet()[bn % 58]])
  {
    hide Alphabet, Text, To58, ReverseText;
    To58Next(bn);
    TextJoins(To58(bn / 58), [bn % 58]);
    OneDigit(bn % 58);
    ReverseNext(s, Alphabet()[bn % 58]);
  }

  lemma ZeroOut(p: nat)
    ensures Text(ZeroDigits(p + 1)) == [Alphabet()[0]] + Text(ZeroDigits(p))
  {
    hide Alphabet, Text;
    var z: Digits := [0];
    assert ZeroDigits(p + 1) == z + ZeroDigits(p);
    TextJoins(z, ZeroDigits(p));
    OneDigit(0);
  }

  // ------------------------------------------------------------------ decoding

  function SkipSpaces(s: string, i: nat): (r: nat)
    requires i <= |s|
    ensures i <= r <= |s|
    decreases |s| - i
  {
    if i < |s| && IsSpace(s[i]) then SkipSpaces(s, i + 1) else i
  }

  function SkipDigits(s: string, i: nat): (r: nat)
    requires i <= |s|
    ensures i <= r <= |s| && AllDigits(s[i..r])
    decreases |s| - i
  {
    if i < |s| && InAlphabet(s[i]) then
      var r := SkipDigits(s, i + 1);
      assert s[i..r] == [s[i]] + s[i+1..r];
      r
    else i
  }

  /** Digits, with any white space before and behind them and nothing else. */
  function BytesOf(s: string): Option<Bytes> {
    var i := SkipSpaces(s, 0);
    var j := SkipDigits(s, i);
    if SkipSpaces(s, j) == |s| then Some(Decoded(DigitsOf(s[i..j]))) else None
  }

  lemma {:induction false} NoSpaces(s: string)
    requires AllDigits(s)
    ensures SkipSpaces(s, 0) == 0
  {
    if s != "" {
      assert InAlphabet(s[0]);
      AlphabetFacts();
      assert Alphabet()[Find(Alphabet(), s[0])] == s[0];
    }
  }

  lemma {:induction false} AllAreDigits(s: string, i: nat)
    requires AllDigits(s) && i <= |s|
    ensures SkipDigits(s, i) == |s|
    decreases |s| - i
  {
    if i < |s| {
      AllAreDigits(s, i + 1);
    }
  }

  /** Decoding undoes encoding on all byte strings. */
  lemma Base58RoundTrip(b: Bytes)
    ensures BytesOf(Base58Of(b)) == Some(b)
  {
    var s := Base58Of(b);
    hide Encoded, Decoded, Text, DigitsOf, InAlphabet, Alphabet;
    TextRoundTrip(Encoded(b));
    NoSpaces(s);
    AllAreDigits(s, 0);
    assert s[0..|s|] == s;
    DecodeEncode(b);
  }

  /** Encoding undoes decoding on all strings over the alphabet. */
  lemma TextIsRestored(s: string)
    requires AllDigits(s)
    ensures BytesOf(s).Some? && Base58Of(BytesOf(s).value) == s
  {
    hide Encoded, Decoded, Text, DigitsOf, InAlphabet, Alphabet;
    NoSpaces(s);
    AllAreDigits(s, 0);
    assert s[0..|s|] == s;
    EncodeDecode(DigitsOf(s));
    DigitsRoundTrip(s);
  }

  /** Little-endian bytes without their sign byte. */
  function TrimSign(v: Bytes): Bytes {
    if |v| >= 2 && v[|v|-1] == 0 && v[|v|-2] >= 128 then v[..|v|-1] else v
  }

  lemma SignIsTrimmed(n: nat)
    ensures Reverse(TrimSign(Compact.GetVch(n))) == Be(n)
  {
    hide Be;
  }

  /** DecodeBase58. */
  method DecodeBase58(s: string) returns (r: Option<Bytes>)
    ensures r == BytesOf(s)
  {
    hide InAlphabet, Alphabet, Be, From58, LeadingZeros, Zeros, Reverse, Compact.GetVch;
    var start := 0;
    while start < |s| && IsSpace(s[start])
      invariant 0 <= start <= |s| && SkipSpaces(s, 0) == SkipSpaces(s, start)
    {
      start := start + 1;
    }
    ghost var i, j := start, SkipDigits(s, start);
    var bn := 0;
    var p := start;
    assert s[i..i] == "" && From58(DigitsOf("")) == 0 by { EmptyValue(); }
    while p < |s| && InAlphabet(s[p])
      invariant i <= p <= j && SkipDigits(s, p) == j && AllDigits(s[i..p])
      invariant bn == From58(DigitsOf(s[i..p]))
    {
      ValueNext(s, i, p);
      bn := bn * 58 + DigitOf(s[p]);
      p := p + 1;
    }
    var q := p;
    while q < |s| && IsSpace(s[q])
      invariant j <= q <= |s| && SkipSpaces(s, j) == SkipSpaces(s, q)
    {
      q := q + 1;
    }
    if q < |s| {
      return None;
    }
    var v := TrimSign(Compact.GetVch(bn));
    SignIsTrimmed(bn);
    var zeros := CountOnes(s, start, p);
    return Some(Zeros(zeros) + Reverse(v));
  }

  lemma EmptyValue()
    ensures AllDigits("") && From58(DigitsOf("")) == 0
  {
  }

  lemma ValueNext(s: string, i: nat, p: nat)
    requires i <= p < |s| && AllDigits(s[i..p]) && InAlphabet(s[p])
    ensures AllDigits(s[i..p+1]) && From58(DigitsOf(s[i..p+1])) == From58(DigitsOf(s[i..p])) * 58 + DigitOf(s[p])
  {
    hide InAlphabet, DigitOf;
    assert s[i..p+1] == s[i..p] + [s[p]];
    assert s[i..p+1][..p-i] == s[i..p];
    var d, e := DigitsOf(s[i..p]), DigitsOf(s[i..p+1]);
    assert e[..|e|-1] == d;
  }

  /** The leading ones are digits zero; past the last digit there is none. */
  method CountOnes(s: string, start: nat, end: nat) returns (zeros: nat)
    requires start <= end <= |s| && AllDigits(s[start..end]) && (end < |s| ==> !InAlphabet(s[end]))
    ensures zeros == LeadingZeros(DigitsOf(s[start..end]))
  {
    hide Alphabet, LeadingZeros, DigitsOf;
    zeros := 0;
    ghost var d := DigitsOf(s[start..end]);
    OnesAre();
    assert d[0..] == d;
    while start + zeros < |s| && s[start + zeros] == Alphabet()[0]
      invariant start + zeros <= end && LeadingZeros(d) == zeros + LeadingZeros(d[zeros..])
    {
      assert s[start..end][zeros] == s[start + zeros];
      OneZeroMore(d, zeros);
      zeros := zeros + 1;
    }
    if start + zeros < end {
      assert s[start..end][zeros] == s[start + zeros];
    }
    NoZeroMore(d, zeros);
  }

  /** The one character that stands for the digit zero. */
  lemma OnesAre()
    ensures forall c :: InAlphabet(c) ==> (DigitOf(c) == 0 <==> c == Alphabet()[0])
    ensures InAlphabet(Alphabet()[0])
  {
    hide Alphabet;
  }

  // ------------------------------------------------------------------ with checksum

  /** The first four bytes of the double hash. */
  type Check = Bytes -> Bytes

  function FourBytes(check: Check, b: Bytes): (c: Bytes)
    ensures |c| == 4
  {
    var h := check(b);
    if |h| >= 4 then h[..4] else h + Zeros(4 - |h|)
  }

  function CheckTextOf(check: Check, b: Bytes): string {
    Base58Of(b + FourBytes(check, b))
  }

  method EncodeBase58Check(check: Check, b: Bytes) returns (s: string)
    ensures s == CheckTextOf(check, b)
  {
    s := EncodeBase58(b + FourBytes(check, b));
  }

  function CheckBytesOf(check: Check, s: string): Option<Bytes> {
    match BytesOf(s)
    case None => None
    case Some(v) =>
      if |v| < 4 || FourBytes(check, v[..|v|-4]) != v[|v|-4..] then None else Some(v[..|v|-4])
  }

  method DecodeBase58Check(check: Check, s: string) returns (r: Option<Bytes>)
    ensures r == CheckBytesOf(check, s)
  {
    r := DecodeBase58(s);
    if r.None? {
      return;
    }
    var v := r.value;
    if |v| < 4 {
      return None;
    }
    if FourBytes(check, v[..|v|-4]) != v[|v|-4..] {
      return None;
    }
    return Some(v[..|v|-4]);
  }

  lemma CheckRoundTrip(check: Check, b: Bytes)
    ensures CheckBytesOf(check, CheckTextOf(check, b)) == Some(b)
  {
    hide BytesOf, Base58Of, FourBytes;
    var v := b + FourBytes(check, b);
    Base58RoundTrip(v);
    assert v[..|v|-4] == b && v[|v|-4..] == FourBytes(check, b);
  }

  /** A text over the alphabet that passes the check is the text of what it gives. */
  lemma CheckTextIsRestored(check: Check, s: string)
    requires AllDigits(s) && CheckBytesOf(check, s).Some?
    ensures CheckTextOf(check, CheckBytesOf(check, s).value) == s
  {
    hide BytesOf, Base58Of, FourBytes;
    TextIsRestored(s);
    var v := BytesOf(s).value;
    assert v[..|v|-4] + v[|v|-4..] == v;
  }

  // ------------------------------------------------------------------ addresses

  const PUBKEY_ADDRESS := 19
  const SCRIPT_ADDRESS := 1
  const PUBKEY_ADDRESS_TEST := 6
  const SCRIPT_ADDRESS_TEST := 4
  const N_COLOR_BYTES := 1
  const NOT_VALID := "<not valid>"

  predicate KnownVersion(v: Byte) {
    v == PUBKEY_ADDRESS || v == SCRIPT_ADDRESS || v == PUBKEY_ADDRESS_TEST || v == SCRIPT_ADDRESS_TEST
  }

  /** The byte of each color for each address version, as COLOR_ID gives it. */
  type ColorIds = (Byte, nat) -> Byte

  /** What the start-up check asserts: no byte twice within a version. */
  predicate Unique(ids: ColorIds) {
    forall v: Byte, c, d :: KnownVersion(v) && 0 <= c < d < Ledger.N_COLORS ==> ids(v, c) != ids(v, d)
  }

  /** MAPS_COLOR_ID: the color of a byte, or N_COLORS if there is none. */
  function ColorFrom(ids: ColorIds, v: Byte, b: Byte, c: nat): (r: nat)
    requires c <= Ledger.N_COLORS
    ensures c <= r <= Ledger.N_COLORS && (r < Ledger.N_COLORS ==> ids(v, r) == b)
            && forall d :: c <= d < r ==> ids(v, d) != b
    decreases Ledger.N_COLORS - c
  {
    if c == Ledger.N_COLORS || ids(v, c) == b then c else ColorFrom(ids, v, b, c + 1)
  }

  predicate ValidAddress(version: Byte, color: int, data: Bytes, testnet: bool) {
    && 1 <= color <= Ledger.N_COLORS && KnownVersion(version) && |data| == 20
    && testnet == (version == PUBKEY_ADDRESS_TEST || version == SCRIPT_ADDRESS_TEST)
  }

  class Address {
    var version: Byte
    var data: Bytes
    var color: int

    constructor (v: Byte, d: Bytes, c: int)
      ensures version == v && data == d && color == c
    {
      version, data, color := v, d, c;
    }

    /** IsValid, which lets the color N_COLORS through. */
    predicate IsValid(testnet: bool)
      reads this
    {
      ValidAddress(version, color, data, testnet)
    }

    method ToString(ids: ColorIds, check: Check) returns (s: string)
      ensures s == AddressText(ids, check, version, color, data)
    {
      if !Ledger.CheckColor(color) || !KnownVersion(version) {
        return NOT_VALID;
      }
      s := EncodeBase58Check(check, [version] + [ids(version, color)] + data);
    }

    method SetString(ids: ColorIds, check: Check, s: string) returns (ok: bool)
      modifies this
      ensures ok <==> ReadAddress(ids, check, s).Some?
      ensures ok ==> (version, color, data) == ReadAddress(ids, check, s).value
      ensures !ok ==> version == 0 && data == [] && color == old(color)
    {
      var r := DecodeBase58Check(check, s);
      if r.None? || r.value == [] || |r.value| < 21 + N_COLOR_BYTES {
        data, version := [], 0;
        return false;
      }
      var v := r.value;
      version := v[0];
      if !KnownVersion(version) {
        data, version := [], 0;
        return false;
      }
      var c := ColorFrom(ids, version, v[1], 0);
      if c == Ledger.N_COLORS {
        data, version := [], 0;
        return false;
      }
      color := c;
      data := v[1 + N_COLOR_BYTES..1 + N_COLOR_BYTES + 20];
      return true;
    }
  }

  function AddressText(ids: ColorIds, check: Check, version: Byte, color: int, data: Bytes): string {
    if Ledger.CheckColor(color) && KnownVersion(version)
    then CheckTextOf(check, [version] + [ids(version, color)] + data)
    else NOT_VALID
  }

  function ReadAddress(ids: ColorIds, check: Check, s: string): Option<(Byte, int, Bytes)> {
    match CheckBytesOf(check, s)
    case None => None
    case Some(v) =>
      if |v| < 21 + N_COLOR_BYTES || !KnownVersion(v[0]) then None
      else
        var c := ColorFrom(ids, v[0], v[1], 0);
        if c == Ledger.N_COLORS then None else Some((v[0], c, v[1 + N_COLOR_BYTES..1 + N_COLOR_BYTES + 20]))
  }

  /** A text is an address exactly when its bytes are one of the four versions, the byte of a color and at least a
      hash; what is read are that version, the lowest such color and the hash. */
  lemma AddressReads(ids: ColorIds, check: Check, s: string)
    ensures ReadAddress(ids, check, s).Some?
            <==> && CheckBytesOf(check, s).Some?
                 && var v := CheckBytesOf(check, s).value;
                 && |v| >= 22 && v[0] in [19, 1, 6, 4]
                 && exists c :: 0 <= c < Ledger.N_COLORS && ids(v[0], c) == v[1]
    ensures ReadAddress(ids, check, s).Some? ==>
              && var v := CheckBytesOf(check, s).value;
              && var (version, color, data) := ReadAddress(ids, check, s).value;
              && version == v[0] && data == v[2..22]
              && 0 <= color < Ledger.N_COLORS && ids(version, color) == v[1]
              && forall c :: 0 <= c < color ==> ids(version, c) != v[1]
  {
    hide CheckBytesOf;
    if CheckBytesOf(check, s).Some? {
      var v := CheckBytesOf(check, s).value;
      if |v| >= 22 {
        var c := ColorFrom(ids, v[0], v[1], 0);
        assert KnownVersion(v[0]) <==> v[0] in [19, 1, 6, 4];
      }
    }
  }

  /** Only addresses of a known version and a real color have a text. */
  lemma OthersHaveNoText(ids: ColorIds, check: Check, version: Byte, color: int, data: Bytes)
    requires version !in [19, 1, 6, 4] || color < 1 || color > 57
    ensures AddressText(ids, check, version, color, data) == "<not valid>"
    ensures ReadAddress(ids, check, "<not valid>") == None
  {
    NotValidIsNoText(check);
    hide CheckBytesOf;
  }

  /** IsValid: a version of the network, a hash, and a color, with the number of colors counting as one. */
  lemma ValidIs(a: Address, testnet: bool)
    ensures a.IsValid(testnet)
            <==> 1 <= a.color <= 58 && |a.data| == 20 && a.version in (if testnet then [6, 4] else [19, 1])
  {
  }

  /** Reading the text of an address with 20 bytes of data and a known version gives it back exactly when
      its color is one of the colors; with the color N_COLORS, which IsValid accepts, nothing is read. */
  lemma AddressRoundTrip(ids: ColorIds, check: Check, version: Byte, color: int, data: Bytes)
    requires Unique(ids) && KnownVersion(version) && |data| == 20
    ensures ReadAddress(ids, check, AddressText(ids, check, version, color, data))
            == if Ledger.CheckColor(color) then Some((version, color, data)) else None
  {
    hide CheckBytesOf, CheckTextOf;
    if Ledger.CheckColor(color) {
      var v := [version] + [ids(version, color)] + data;
      CheckRoundTrip(check, v);
      ColorIsFound(ids, version, color);
      assert v[2..22] == data;
    } else {
      NotValidIsNoText(check);
    }
  }

  /** A text that reads as an address is the text of that address exactly when nothing is around or behind it:
      no white space, and no bytes after the hash, which the reader skips. */
  lemma AddressTextIsRestored(ids: ColorIds, check: Check, s: string)
    requires ReadAddress(ids, check, s).Some?
    ensures CheckBytesOf(check, s).Some?
    ensures var (version, color, data) := ReadAddress(ids, check, s).value;
      AddressText(ids, check, version, color, data) == s
      <==> AllDigits(s) && |CheckBytesOf(check, s).value| == 22 && Ledger.CheckColor(color)
  {
    hide CheckBytesOf, CheckTextOf, AllDigits;
    var (version, color, data) := ReadAddress(ids, check, s).value;
    var v := CheckBytesOf(check, s).value;
    if Ledger.CheckColor(color) {
      var w := [version] + [ids(version, color)] + data;
      CheckRoundTrip(check, w);
      CheckTextIsDigits(check, w);
      if |v| == 22 {
        assert v == w;
        if AllDigits(s) { CheckTextIsRestored(check, s); }
      }
    } else {
      NotValidIsNoText(check);
    }
  }

  lemma CheckTextIsDigits(check: Check, b: Bytes)
    ensures AllDigits(CheckTextOf(check, b))
  {
    TextRoundTrip(Encoded(b + FourBytes(check, b)));
  }

  /** Of the addresses IsValid accepts, exactly those with one of the colors are restored. */
  lemma ValidAddressRoundTrip(ids: ColorIds, check: Check, a: Address, testnet: bool)
    requires Unique(ids) && a.IsValid(testnet)
    ensures ReadAddress(ids, check, AddressText(ids, check, a.version, a.color, a.data))
            == Some((a.version, a.color, a.data))
            <==> Ledger.CheckColor(a.color)
    ensures a.color == Ledger.N_COLORS ==>
              ReadAddress(ids, check, AddressText(ids, check, a.version, a.color, a.data)) == None
  {
    AddressRoundTrip(ids, check, a.version, a.color, a.data);
  }

  /** A valid address that does not come back. */
  lemma ValidAddressIsLost(ids: ColorIds, check: Check)
    ensures ValidAddress(PUBKEY_ADDRESS, Ledger.N_COLORS, Zeros(20), false)
    ensures ReadAddress(ids, check, AddressText(ids, check, PUBKEY_ADDRESS, Ledger.N_COLORS, Zeros(20))) == None
  {
    hide CheckBytesOf, CheckTextOf;
    NotValidIsNoText(check);
  }

  lemma ColorIsFound(ids: ColorIds, version: Byte, color: nat)
    requires Unique(ids) && KnownVersion(version) && color < Ledger.N_COLORS
    ensures ColorFrom(ids, version, ids(version, color), 0) == color
  {
    var c := ColorFrom(ids, version, ids(version, color), 0);
    assert c <= color;
  }

  lemma NotValidIsNoText(check: Check)
    ensures CheckBytesOf(check, NOT_VALID) == None
  {
    AlphabetFacts();
    hide Alphabet;
    assert NOT_VALID[0] == '<';
    assert !InAlphabet('<');
    assert SkipSpaces(NOT_VALID, 0) == 0 && SkipDigits(NOT_VALID, 0) == 0;
  }
}
