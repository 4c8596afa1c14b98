/** Bytes and the numbers they spell. */
module ByteStrings {
  import opened Arithmetic

  type Byte = x: int | 0 <= x < 256

  type Bytes = seq<Byte>

  const WORD := 0x1_0000_0000

  function Concat(chunks: seq<Bytes>): Bytes {
    if chunks == [] then [] else Concat(chunks[..|chunks|-1]) + chunks[|chunks|-1]
  }

  /** k bytes, the lowest first. */
  function Le(n: nat, k: nat): (r: Bytes)
    ensures |r| == k
  {
    if k == 0 then [] else [n % 256] + Le(n / 256, k - 1)
  }

  function FromLe(b: Bytes): nat {
    if b == [] then 0 else b[0] as int + 256 * FromLe(b[1..])
  }

  function Power256(k: nat): nat {
    if k == 0 then 1 else 256 * Power256(k - 1)
  }

  lemma {:induction false} LeRoundTrip(n: nat, k: nat)
    requires n < Power256(k)
    ensures FromLe(Le(n, k)) == n
  {
    if k > 0 {
      LeRoundTrip(n / 256, k - 1);
    }
  }

  /** Dividing twice is dividing once. */
  lemma DivideTwice(n: nat, k: nat)
    ensures Power256(k) > 0 && Power256(k + 1) > 0 && n / 256 / Power256(k) == n / Power256(k + 1)
  {
    PowerPositive(k);
    PowerPositive(k + 1);
    ByteAndRest(n, Power256(k));
  }

  lemma ByteAndRest(n: nat, p: nat)
    requires p > 0
    ensures n / 256 / p == n / (256 * p)
  {
    var m, x := n / 256, n % 256;
    var q, r := m / p, m % p;
    assert m == q * p + r && n == 256 * m + x;
    assert 256 * (q * p) == q * (256 * p);
    assert n == q * (256 * p) + (256 * r + x);
    QuotientIs(n, q, 256 * p, 256 * r + x);
  }

  lemma {:induction false} PowerPositive(k: nat)
    ensures Power256(k) > 0
  {
    if k > 0 {
      PowerPositive(k - 1);
    }
  }

  /** Byte i counts 256 to the power i. */
  lemma {:induction false} LeByte(n: nat, k: nat, i: nat)
    requires i < k
    ensures Power256(i) > 0 && Le(n, k)[i] == n / Power256(i) % 256
    decreases i
  {
    PowerPositive(i);
    if i > 0 {
      LeByte(n / 256, k - 1, i - 1);
      DivideTwice(n, i - 1);
      assert Le(n, k)[i] == Le(n / 256, k - 1)[i - 1];
    } else {
      assert Power256(0) == 1;
    }
  }

  /** Highest byte first, byte i counts from behind. */
  lemma {:induction false} BeFixedByte(n: nat, k: nat, i: nat)
    requires i < k
    ensures Power256(i) > 0 && BeFixed(n, k)[k - 1 - i] == n / Power256(i) % 256
    decreases i
  {
    PowerPositive(i);
    if i > 0 {
      BeFixedByte(n / 256, k - 1, i - 1);
      DivideTwice(n, i - 1);
      assert BeFixed(n, k)[k - 1 - i] == BeFixed(n / 256, k - 1)[k - 1 - i];
    } else {
      assert Power256(0) == 1;
    }
  }

  // ------------------------------------------------------------------ highest byte first

  /** As few bytes as the number needs; none for zero. */
  function Be(n: nat): (r: Bytes)
    ensures n == 0 <==> r == []
    ensures n != 0 ==> r[0] != 0
  {
    if n == 0 then [] else
      var h := Be(n / 256);
      h + [n % 256]
  }

  /** k bytes, filled up with zeros in front. */
  function BeFixed(n: nat, k: nat): (r: Bytes)
    ensures |r| == k
  {
    if k == 0 then [] else BeFixed(n / 256, k - 1) + [n % 256]
  }

  function FromBe(b: Bytes): nat {
    if b == [] then 0 else FromBe(b[..|b|-1]) * 256 + b[|b|-1]
  }

  lemma {:induction false} BeRoundTrip(n: nat)
    ensures FromBe(Be(n)) == n
  {
    if n != 0 {
      BeRoundTrip(n / 256);
      assert Be(n)[..|Be(n)|-1] == Be(n / 256);
    }
  }

  /** Only the form without a leading zero comes back. */
  lemma {:induction false} FromBeRoundTrip(b: Bytes)
    requires b != [] ==> b[0] != 0
    ensures Be(FromBe(b)) == b
  {
    if b != [] {
      var h := b[..|b|-1];
      FromBeRoundTrip(h);
      if h == [] {
        assert b == [b[0]];
      } else {
        assert h[0] == b[0];
        FromBePositive(h);
      }
      assert b == h + [b[|b|-1]];
      assert FromBe(b) / 256 == FromBe(h) && FromBe(b) % 256 == b[|b|-1];
    }
  }

  lemma {:induction false} FromBePositive(b: Bytes)
    requires b != [] && b[0] != 0
    ensures FromBe(b) > 0
  {
    if |b| > 1 {
      FromBePositive(b[..|b|-1]);
    }
  }

  lemma {:induction false} FromBeZero(b: Bytes)
    requires forall i :: 0 <= i < |b| ==> b[i] == 0
    ensures FromBe(b) == 0
  {
    if b != [] {
      FromBeZero(b[..|b|-1]);
    }
  }

  lemma {:induction false} ZeroInFront(b: Bytes)
    ensures FromBe([0] + b) == FromBe(b)
  {
    if b != [] {
      assert ([0] + b)[..|b|] == [0] + b[..|b|-1];
      ZeroInFront(b[..|b|-1]);
    }
  }

  lemma {:induction false} FromBeBound(b: Bytes)
    ensures FromBe(b) < Power256(|b|)
  {
    if b != [] {
      FromBeBound(b[..|b|-1]);
    }
  }

  /** The bytes in front count 256 times more for every byte behind them. */
  lemma {:induction false} FromBeJoin(a: Bytes, b: Bytes)
    ensures FromBe(a + b) == FromBe(a) * Power256(|b|) + FromBe(b)
  {
    if b == [] {
      assert a + b == a;
    } else {
      var k := |b| - 1;
      FromBeJoin(a, b[..k]);
      assert (a + b)[..|a| + k] == a + b[..k];
      assert (a + b)[|a| + k] == b[k];
      JoinStep(FromBe(a), Power256(k), FromBe(b[..k]), b[k]);
    }
  }

  lemma JoinStep(a: nat, p: nat, c: nat, d: nat)
    ensures (a * p + c) * 256 + d == a * (256 * p) + (c * 256 + d)
  {
  }

  // ------------------------------------------------------------------ turning round

  function Reverse(b: Bytes): (r: Bytes)
    ensures |r| == |b| && forall i :: 0 <= i < |b| ==> r[i] == b[|b| - 1 - i]
  {
    if b == [] then [] else [b[|b|-1]] + Reverse(b[..|b|-1])
  }

  lemma ReverseTwice(b: Bytes)
    ensures Reverse(Reverse(b)) == b
  {
  }

  lemma ReversePush(b: Bytes, x: Byte)
    ensures Reverse(b + [x]) == [x] + Reverse(b)
  {
    assert (b + [x])[..|b|] == b;
  }
}
