/** Big numbers in the MPI byte format, and the compact form of targets. */
module Compact {

  import opened Arithmetic
  import opened ByteStrings

  // ------------------------------------------------------------------ the MPI format

  function Abs(x: int): nat { if x < 0 then -x else x }

  /** The sign goes into the top bit, or into a byte of its own when that is taken. */
  function Signed(b: Bytes, negative: bool): Bytes
    requires b != []
  {
    if b[0] >= 128 then [if negative then 128 else 0] + b
    else if negative then [b[0] as int + 128] + b[1..]
    else b
  }

  /** The bytes of BN_bn2mpi after the length: highest byte first, the top bit for the sign. */
  function Mpi(x: int): Bytes {
    var b := Be(Abs(x));
    if b == [] then [] else Signed(b, x < 0)
  }

  /** BN_mpi2bn on the bytes after the length. */
  function FromMpi(b: Bytes): int {
    if b == [] then 0
    else if b[0] >= 128 then 0 - FromBe([b[0] as int - 128] + b[1..])
    else FromBe(b)
  }

  /** No shorter form spells the same number. */
  predicate Minimal(b: Bytes) {
    b != [] && b[0] % 128 == 0 ==> |b| > 1 && b[1] >= 128
  }

  const WORD64 := 0x1_0000_0000_0000_0000

  /** setint64: shifting the bytes out from the top gives the MPI form of every 64-bit number. */
  method SetInt64(sn: int) returns (p: Bytes)
    requires -WORD64 / 2 <= sn < WORD64 / 2
    ensures p == Mpi(sn) && FromMpi(p) == sn
  {
    MpiRoundTrip(sn);
    var negative := sn < 0;
    var n: nat := if negative then -(sn + 1) + 1 else sn;
    ghost var all: nat, done: nat := n, 0;
    var leading := true;
    p := [];
    hide Be, FromMpi, Scaled, Signed;
    PowerZero(all);
    for i := 0 to 8
      invariant n < WORD64 && Scaled(all, i) == done * WORD64 + n
      invariant leading == (done == 0)
      invariant p == if done == 0 then [] else Signed(Be(done), negative)
    {
      var c: Byte := n / 0x100_0000_0000_0000 % 256;
      NextPower(all, i);
      TopByteOut(n, c);
      n := n * 256 % WORD64;
      BeNext(done, c);
      if done > 0 { SignedNext(Be(done), c, negative); }
      done := 256 * done + c;
      if leading {
        if c == 0 {
          continue;
        }
        SignedOne(c, negative);
        var d := c;
        if c >= 128 {
          p := p + [if negative then 128 else 0];
        } else if negative {
          d := c as int + 128;
        }
        leading := false;
        p := p + [d];
      } else {
        p := p + [c];
      }
    }
    EightBytes(all, done, n);
  }

  lemma SignedOne(c: Byte, negative: bool)
    ensures Be(0) == []
    ensures Signed([c], negative) == if c >= 128 then [if negative then 128 else 0, c]
                                     else [if negative then c as int + 128 else c]
  {
  }

  lemma PowerZero(a: nat)
    ensures Scaled(a, 0) == a
  {
  }

  lemma TopByteOut(n: nat, c: Byte)
    requires n < WORD64 && c == n / 0x100_0000_0000_0000 % 256
    ensures n * 256 == c as int * WORD64 + n * 256 % WORD64
  {
    assert n == c as int * 0x100_0000_0000_0000 + n % 0x100_0000_0000_0000;
  }

  lemma SignedNext(b: Bytes, c: Byte, negative: bool)
    requires b != []
    ensures Signed(b + [c], negative) == Signed(b, negative) + [c]
  {
    assert (b + [c])[1..] == b[1..] + [c];
  }

  function Scaled(a: nat, i: nat): nat {
    a * Power256(i)
  }

  lemma NextPower(a: nat, i: nat)
    ensures Scaled(a, i + 1) == 256 * Scaled(a, i)
  {
    var p := Power256(i);
    assert Power256(i + 1) == 256 * p;
    assert a * (256 * p) == 256 * (a * p);
  }

  lemma BeNext(n: nat, c: Byte)
    ensures 256 * n + c > 0 ==> Be(256 * n + c) == Be(n) + [c]
  {
    assert (256 * n + c) / 256 == n;
  }

  lemma EightBytes(all: nat, done: nat, n: nat)
    requires n < WORD64 && Scaled(all, 8) == done * WORD64 + n
    ensures all == done
  {
    assert Power256(8) == WORD64;
  }

  lemma MpiRoundTrip(x: int)
    ensures FromMpi(Mpi(x)) == x && Minimal(Mpi(x))
  {
    var b := Be(Abs(x));
    BeRoundTrip(Abs(x));
    hide Be;
    if b != [] {
      if b[0] >= 128 {
        FromBeJoin([0], b);
      } else if x < 0 {
        assert [b[0]] + b[1..] == b;
      }
    }
  }

  /** A byte string is what the number it spells is written as exactly when it is minimal. */
  lemma FromMpiRoundTrip(b: Bytes)
    ensures Mpi(FromMpi(b)) == b <==> Minimal(b)
  {
    if Minimal(b) {
      MinimalRoundTrip(b);
    } else {
      MpiRoundTrip(FromMpi(b));
    }
  }

  // setvch and getvch: the same bytes, lowest first

  function SetVch(v: Bytes): int { FromMpi(Reverse(v)) }

  function GetVch(x: int): Bytes { Reverse(Mpi(x)) }

  lemma VchRoundTrip(x: int)
    ensures SetVch(GetVch(x)) == x
  {
    hide Mpi, FromMpi, Reverse;
    ReverseTwice(Mpi(x));
    MpiRoundTrip(x);
  }

  /** The bytes come back from getvch exactly when, read from the top, they are minimal. */
  lemma FromVchRoundTrip(v: Bytes)
    ensures GetVch(SetVch(v)) == v <==> Minimal(Reverse(v))
  {
    hide Mpi, FromMpi, Reverse, Minimal;
    FromMpiRoundTrip(Reverse(v));
    ReverseTwice(v);
    ReverseTwice(Mpi(FromMpi(Reverse(v))));
  }

  lemma MinimalRoundTrip(b: Bytes)
    requires Minimal(b)
    ensures Mpi(FromMpi(b)) == b
  {
    if b != [] {
      var r := b[1..];
      assert b == [b[0]] + r;
      if b[0] % 128 != 0 {
        TopByte(b[0], r);
      } else {
        TopSign(b[0], r);
      }
    }
  }

  lemma TopByte(top: Byte, r: Bytes)
    requires top % 128 != 0
    ensures Mpi(FromMpi([top] + r)) == [top] + r
  {
    var m := [top % 128] + r;
    assert ([top] + r)[1..] == r && m[1..] == r;
    FromBeRoundTrip(m);
    FromBePositive(m);
    hide Be, FromBe;
    assert Abs(FromMpi([top] + r)) == FromBe(m);
  }

  lemma TopSign(top: Byte, r: Bytes)
    requires top % 128 == 0 && r != [] && r[0] >= 128
    ensures Mpi(FromMpi([top] + r)) == [top] + r
  {
    var m := [0] + r;
    assert ([top] + r)[1..] == r;
    assert FromBe([0]) == 0;
    hide Be, FromBe;
    FromBeJoin([0], r);
    FromBeRoundTrip(r);
    FromBePositive(r);
    assert Abs(FromMpi([top] + r)) == FromBe(r);
  }

  // ------------------------------------------------------------------ the compact form

  function ByteAt(b: Bytes, i: nat): Byte {
    if i < |b| then b[i] else 0
  }

  /** A code: a length and three bytes. */
  function Code(n: Byte, b0: Byte, b1: Byte, b2: Byte): (c: nat)
    ensures c < WORD
  {
    Push(Push(Push(n, b0), b1), b2)
  }

  function Push(n: nat, b: Byte): nat { n * 256 + b }

  function Length(c: nat): Byte requires c < WORD { c / 256 / 256 / 256 }
  function First(c: nat): Byte { c / 256 / 256 % 256 }
  function Second(c: nat): Byte { c / 256 % 256 }
  function Third(c: nat): Byte { c % 256 }

  lemma Pushed(n: nat, b: Byte)
    ensures Push(n, b) / 256 == n && Push(n, b) % 256 == b
  {
  }

  lemma CodeParts(n: Byte, b0: Byte, b1: Byte, b2: Byte)
    ensures var c := Code(n, b0, b1, b2); Length(c) == n && First(c) == b0 && Second(c) == b1 && Third(c) == b2
  {
    Pushed(n, b0);
    Pushed(Push(n, b0), b1);
    Pushed(Push(Push(n, b0), b1), b2);
    hide Push;
  }

  lemma PartsCode(c: nat)
    requires c < WORD
    ensures Code(Length(c), First(c), Second(c), Third(c)) == c
  {
    assert Push(c / 256, c % 256) == c;
    assert Push(c / 256 / 256, c / 256 % 256) == c / 256;
    assert Push(c / 256 / 256 / 256, c / 256 / 256 % 256) == c / 256 / 256;
    hide Push;
  }

  /** The length, modulo 256, and the first three bytes. */
  function GetCompact(x: int): (c: nat)
    ensures c < WORD
  {
    var v := Mpi(x);
    Code(|v| % 256, ByteAt(v, 0), ByteAt(v, 1), ByteAt(v, 2))
  }

  /** The bytes that SetCompact reads a number from. */
  function Payload(c: nat): (b: Bytes)
    requires c < WORD
    ensures |b| == Length(c)
  {
    Spread(Length(c), First(c), Second(c), Third(c))
  }

  /** n bytes, the given three in front and zeros behind. */
  function Spread(n: nat, b0: Byte, b1: Byte, b2: Byte): (b: Bytes)
    ensures |b| == n
  {
    if n == 0 then [] else if n == 1 then [b0] else if n == 2 then [b0, b1]
    else [b0, b1, b2] + seq(n - 3, _ => 0)
  }

  function SetCompact(c: nat): int
    requires c < WORD
  {
    FromMpi(Payload(c))
  }

  /** The number a code of at least three bytes spells: the lower 23 bits, shifted up by the bytes that are not
      written, and negative if bit 23 is set. */
  lemma CodeValue(c: nat)
    requires c < WORD && c / 0x100_0000 >= 3
    ensures var m := c % 0x80_0000;
      SetCompact(c)
      == (if c / 0x80_0000 % 2 == 0 then 1 else -1) * m * Power256(c / 0x100_0000 - 3)
  {
    var b0, b1, b2 := First(c), Second(c), Third(c);
    var z: Bytes := seq(Length(c) - 3, _ => 0);
    CodeDigits(c);
    MpiValue(b0, b1, b2, z);
    assert Payload(c) == [b0, b1, b2] + z;
    hide First, Second, Third, FromMpi;
  }

  lemma MpiValue(b0: Byte, b1: Byte, b2: Byte, z: Bytes)
    requires forall i :: 0 <= i < |z| ==> z[i] == 0
    ensures FromMpi([b0, b1, b2] + z)
            == (if b0 < 128 then 1 else -1) * (b0 % 128 * 0x1_0000 + b1 * 256 + b2) * Power256(|z|)
  {
    hide FromBe, Power256;
    var top: Byte := b0 % 128;
    SpreadValue(top, b1, b2, z);
    BothSigns(top * 0x1_0000 + b1 * 256 + b2, Power256(|z|));
    if b0 >= 128 {
      MpiNegative(b0, b1, b2, z);
    } else {
      assert top == b0;
    }
  }

  lemma BothSigns(m: nat, p: nat)
    ensures 1 * m * p == m * p && -1 * m * p == -(m * p)
  {
  }

  lemma MpiNegative(b0: Byte, b1: Byte, b2: Byte, z: Bytes)
    requires b0 >= 128
    ensures FromMpi([b0, b1, b2] + z) == 0 - FromBe([b0 % 128, b1, b2] + z)
  {
    hide FromBe;
    assert [b0 as int - 128] + ([b0, b1, b2] + z)[1..] == [b0 % 128, b1, b2] + z;
  }

  lemma CodeDigits(c: nat)
    requires c < WORD
    ensures Length(c) == c / 0x100_0000
    ensures (First(c) >= 128 <==> c / 0x80_0000 % 2 == 1)
    ensures c % 0x80_0000 == (First(c) % 128) * 0x1_0000 + Second(c) * 256 + Third(c)
  {
  }

  lemma SpreadValue(b0: Byte, b1: Byte, b2: Byte, z: Bytes)
    requires forall i :: 0 <= i < |z| ==> z[i] == 0
    ensures FromBe([b0, b1, b2] + z) == (b0 * 0x1_0000 + b1 * 256 + b2) * Power256(|z|)
  {
    FromBeJoin([b0, b1, b2], z);
    FromBeZero(z);
    assert [b0, b1, b2][..2] == [b0, b1] && [b0, b1][..1] == [b0] && [b0][..0] == [];
    assert FromBe([b0]) == FromBe([b0][..0]) * 256 + b0 == b0;
    assert FromBe([b0, b1]) == b0 * 256 + b1;
    assert FromBe([b0, b1, b2]) == (b0 * 256 + b1) * 256 + b2;
  }

  /** What the compact form keeps: all bytes after the third become zero. */
  lemma CompactKeeps(x: int)
    requires |Mpi(x)| <= 255
    ensures var v := Mpi(x); Payload(GetCompact(x)) == Spread(|v|, ByteAt(v, 0), ByteAt(v, 1), ByteAt(v, 2))
  {
    hide Mpi, Code, Length, First, Second, Third, Spread, ByteAt;
    var v := Mpi(x);
    CodeParts(|v|, ByteAt(v, 0), ByteAt(v, 1), ByteAt(v, 2));
  }

  // ------------------------------------------------------------------ size and loss

  /** The number of bytes says within a factor of 256 how large a number is. */
  lemma MpiBounds(x: nat)
    requires x > 0
    ensures var n := |Mpi(x)|;
      n >= 1 && Mpi(x)[0] < 128 && x < 128 * Power256(n - 1) && (n >= 2 ==> x >= 128 * Power256(n - 2))
  {
    var v := Mpi(x);
    var n := |v|;
    MpiRoundTrip(x);
    hide Mpi, Be, FromBe;
    Split(v, 1);
    OneByte(v[0]);
    Grows(v[0], 127, Power256(n - 1));
    assert Power256(n - 1) > 0 by { PowerPositive(n - 1); }
    if n >= 2 {
      if v[0] > 0 {
        Grows(1, v[0], Power256(n - 1));
      } else {
        Split(v[1..], 1);
        OneByte(v[1]);
        assert v[1..][..1] == [v[1]];
        Grows(128, v[1], Power256(n - 2));
      }
    }
  }

  lemma {:induction false} PowerPositive(k: nat)
    ensures Power256(k) > 0
  {
    if k > 0 { PowerPositive(k - 1); }
  }

  lemma OneByte(b: Byte)
    ensures FromBe([b]) == b
  {
  }

  /** A number cut behind its first k bytes. */
  lemma Split(v: Bytes, k: nat)
    requires k <= |v|
    ensures FromBe(v) == FromBe(v[..k]) * Power256(|v| - k) + FromBe(v[k..])
    ensures FromBe(v[k..]) < Power256(|v| - k)
    ensures k == 1 ==> v[..k] == [v[0]]
  {
    hide FromBe, Power256;
    assert v == v[..k] + v[k..];
    FromBeJoin(v[..k], v[k..]);
    FromBeBound(v[k..]);
  }

  /** One unit of the last of the three bytes that are kept. */
  function Unit(x: nat): nat {
    if |Mpi(x)| <= 3 then 1 else Power256(|Mpi(x)| - 3)
  }

  function Decoded(x: nat): int
    requires |Mpi(x)| <= 255
  {
    SetCompact(GetCompact(x))
  }

  lemma ShortIsKept(x: nat)
    requires |Mpi(x)| <= 3
    ensures Decoded(x) == x
  {
    CompactKeeps(x);
    MpiRoundTrip(x);
    var v := Mpi(x);
    assert Spread(|v|, ByteAt(v, 0), ByteAt(v, 1), ByteAt(v, 2)) == v;
  }

  /** The compact form cuts a number down to a multiple of the unit. */
  lemma Truncates(x: nat)
    requires x > 0 && |Mpi(x)| <= 255
    ensures Unit(x) > 0 && Decoded(x) == x / Unit(x) * Unit(x)
    ensures |Mpi(x)| > 3 ==> x / Unit(x) >= 32768
  {
    hide Decoded, Mpi;
    if |Mpi(x)| <= 3 {
      ShortIsKept(x);
    } else {
      LongIsCut(x);
    }
  }

  lemma LongIsCut(x: nat)
    requires x > 0 && 3 < |Mpi(x)| <= 255
    ensures Unit(x) > 0 && Decoded(x) == x / Unit(x) * Unit(x) && x / Unit(x) >= 32768
  {
    var v := Mpi(x);
    var p := Power256(|v| - 3);
    PowerPositive(|v| - 3);
    MpiBounds(x);
    CompactKeeps(x);
    MpiRoundTrip(x);
    hide Mpi, Be, Power256;
    CutBytes(v);
    var m, low := FromBe(v[..3]), FromBe(v[3..]);
    hide FromBe, Spread;
    QuotientIs(x, m, p, low);
    EnoughUnits(v, m);
  }

  lemma CutBytes(v: Bytes)
    requires |v| > 3 && v[0] < 128
    ensures FromBe(v) == FromBe(v[..3]) * Power256(|v| - 3) + FromBe(v[3..])
    ensures FromBe(v[3..]) < Power256(|v| - 3)
    ensures FromMpi(Spread(|v|, v[0], v[1], v[2])) == FromBe(v[..3]) * Power256(|v| - 3)
  {
    var w := Spread(|v|, v[0], v[1], v[2]);
    assert w[..3] == v[..3];
    Split(v, 3);
    Split(w, 3);
    FromBeZero(w[3..]);
  }

  lemma EnoughUnits(v: Bytes, m: nat)
    requires |v| > 3 && Minimal(v) && v[0] < 128 && m == FromBe(v[..3])
    ensures m >= 32768
  {
    assert v[..3][..2] == v[..2] && v[..2][..1] == v[..1] && v[..1][..0] == [];
    assert FromBe(v[..1]) == v[0];
    assert FromBe(v[..2]) == FromBe(v[..1]) * 256 + v[1];
    assert FromBe(v[..3]) == FromBe(v[..2]) * 256 + v[2];
  }

  /** Decoding never gives more than was encoded, and loses less than one part in 32768. */
  lemma LossIsSmall(x: nat)
    requires x > 0 && |Mpi(x)| <= 255
    ensures 0 < Decoded(x) <= x && (x - Decoded(x)) * 32768 < x
  {
    Truncates(x);
    hide Decoded;
    if |Mpi(x)| <= 3 {
      ShortIsKept(x);
    } else {
      hide Mpi, Unit;
      SmallLoss(x, Unit(x));
    }
  }

  lemma SmallLoss(x: nat, p: nat)
    requires p > 0 && x / p >= 32768
    ensures 0 < x / p * p <= x && (x - x / p * p) * 32768 < x
  {
    var m := x / p;
    assert x == m * p + x % p;
    Grows(32768, m, p);
  }

  /** Length grows with the number. */
  lemma LengthGrows(x: nat, y: nat)
    requires x <= y
    ensures |Mpi(x)| <= |Mpi(y)|
  {
    if x > 0 && |Mpi(x)| > |Mpi(y)| {
      MpiBounds(x);
      MpiBounds(y);
      PowerGrows(|Mpi(y)| - 1, |Mpi(x)| - 2);
    }
  }

  lemma {:induction false} PowerGrows(j: nat, k: nat)
    requires j <= k
    ensures Power256(j) <= Power256(k)
  {
    if j < k {
      PowerGrows(j, k - 1);
    }
  }

  lemma MpiOfZero()
    ensures Mpi(0) == []
  {
  }

  /** Encoding keeps the order of numbers. */
  lemma CompactIsMonotone(x: nat, y: nat)
    requires x <= y && |Mpi(y)| <= 255
    ensures |Mpi(x)| <= 255 && Decoded(x) <= Decoded(y)
  {
    hide Decoded, Mpi;
    LengthGrows(x, y);
    if x == 0 {
      MpiOfZero();
      ShortIsKept(0);
      if y > 0 { LossIsSmall(y); }
    } else if |Mpi(x)| == |Mpi(y)| {
      Truncates(x);
      Truncates(y);
      SameUnit(x, y, Unit(x));
    } else if |Mpi(y)| <= 3 {
      ShortIsKept(x);
      ShortIsKept(y);
    } else {
      LossIsSmall(x);
      ShorterIsBelow(x, y);
    }
  }

  lemma SameUnit(x: nat, y: nat, p: nat)
    requires p > 0 && x <= y
    ensures x / p * p <= y / p * p
  {
    if y / p < x / p {
      Grows(y / p + 1, x / p, p);
    }
    Grows(x / p, y / p, p);
  }

  lemma ShorterIsBelow(x: nat, y: nat)
    requires 0 < x && |Mpi(x)| < |Mpi(y)| && 3 < |Mpi(y)| <= 255 && y > 0
    ensures x <= Decoded(y)
  {
    var n := |Mpi(y)|;
    MpiBounds(x);
    PowerGrows(|Mpi(x)| - 1, n - 2);
    Truncates(y);
    assert Power256(n - 2) == 256 * Power256(n - 3);
    Grows(32768, y / Unit(y), Unit(y));
  }

  /** A negative number keeps its sign bit: its code never decodes to a positive one. */
  lemma NegativeStaysBelowZero(x: int)
    requires x < 0
    ensures SetCompact(GetCompact(x)) <= 0
  {
    var v := Mpi(x);
    MpiRoundTrip(x);
    assert v != [] && v[0] >= 128;
    hide Mpi, Code, Length, First, Second, Third, FromBe;
    CodeParts(|v| % 256, ByteAt(v, 0), ByteAt(v, 1), ByteAt(v, 2));
    var b := Payload(GetCompact(x));
    assert b != [] ==> b[0] == v[0];
  }

  // ------------------------------------------------------------------ canonical codes

  /** A code whose bytes are minimal, and that has nothing outside its length. */
  predicate Canonical(c: nat)
    requires c < WORD
  {
    && Minimal(Payload(c))
    && (Length(c) < 1 ==> First(c) == 0) && (Length(c) < 2 ==> Second(c) == 0) && (Length(c) < 3 ==> Third(c) == 0)
  }

  /** Exactly the canonical codes come back unchanged. */
  lemma CanonicalRoundTrip(c: nat)
    requires c < WORD
    ensures GetCompact(SetCompact(c)) == c <==> Canonical(c)
  {
    hide Mpi, FromMpi, Code, Length, First, Second, Third;
    var b, v := Payload(c), Mpi(SetCompact(c));
    FromMpiRoundTrip(b);
    MpiRoundTrip(SetCompact(c));
    PartsCode(c);
    CodeParts(|v| % 256, ByteAt(v, 0), ByteAt(v, 1), ByteAt(v, 2));
    if Minimal(b) {
      assert v == b;
    } else if |b| == 1 {
      ZeroByte(b);
    }
  }

  lemma ZeroByte(b: Bytes)
    requires |b| == 1 && b[0] % 128 == 0
    ensures FromMpi(b) == 0 && Mpi(0) == []
  {
    OneByte(0);
    var z: Bytes := [0];
    assert b == [b[0]] && z + b[1..] == z;
  }
}
