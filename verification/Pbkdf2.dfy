/** HMAC-SHA256 and PBKDF2 over an unknown SHA-256.

    A digest context is the bytes it has absorbed; copying it copies them. */
module Pbkdf2 {

  import opened Arithmetic
  import opened ByteStrings

  const BLOCK_SIZE := 64
  const DIGEST_SIZE := 32
  const IPAD := 0x36
  const OPAD := 0x5c

  type Sha = Bytes -> Bytes

  ghost predicate IsSha(sha: Sha) {
    forall b :: |sha(b)| == DIGEST_SIZE
  }

  // ------------------------------------------------------------------ exclusive or

  function Xor(a: nat, b: nat): nat {
    if a == 0 && b == 0 then 0 else 2 * Xor(a / 2, b / 2) + (a + b) % 2
  }

  lemma {:induction false} XorZero(a: nat)
    ensures Xor(a, 0) == a
  {
    if a != 0 {
      XorZero(a / 2);
    }
  }

  lemma {:induction false} XorBelow(a: nat, b: nat, k: nat)
    requires a < Power2(k) && b < Power2(k)
    ensures Xor(a, b) < Power2(k)
  {
    if k > 0 {
      XorBelow(a / 2, b / 2, k - 1);
    }
  }

  function Bit(n: nat, i: nat): nat {
    n / Power2(i) % 2
  }

  lemma HalfBit(n: nat, i: nat)
    ensures Bit(n, i + 1) == Bit(n / 2, i)
  {
    var p := Power2(i);
    var m, q := n / 2, n / 2 / p;
    assert m == q * p + m % p && Power2(i + 1) == 2 * p;
    Grows(m % p + 1, p, 2);
    assert n == q * (2 * p) + (2 * (m % p) + n % 2);
    QuotientIs(n, q, 2 * p, 2 * (m % p) + n % 2);
  }

  /** A bit of the exclusive or is set exactly when it is set in one of the two numbers only. */
  lemma {:induction false} XorBit(a: nat, b: nat, i: nat)
    ensures Bit(Xor(a, b), i) == 1 <==> Bit(a, i) != Bit(b, i)
    decreases i
  {
    if i == 0 {
      assert Power2(0) == 1;
    } else {
      XorBit(a / 2, b / 2, i - 1);
      HalfBit(a, i - 1);
      HalfBit(b, i - 1);
      HalfBit(Xor(a, b), i - 1);
      assert Xor(a, b) / 2 == Xor(a / 2, b / 2);
    }
  }

  function XorByte(a: Byte, b: Byte): Byte {
    assert Power2(8) == 256;
    XorBelow(a, b, 8);
    Xor(a, b)
  }

  function XorBytes(a: Bytes, b: Bytes): (r: Bytes)
    requires |a| == |b|
    ensures |r| == |a| && forall i :: 0 <= i < |a| ==> r[i] == XorByte(a[i], b[i])
  {
    if a == [] then [] else
      var k := |a| - 1;
      XorBytes(a[..k], b[..k]) + [XorByte(a[k], b[k])]
  }

  // ------------------------------------------------------------------ HMAC, section 2 of RFC 2104

  function Repeated(b: Byte, n: nat): (r: Bytes)
    ensures |r| == n && forall i :: 0 <= i < n ==> r[i] == b
  {
    seq(n, _ => b)
  }

  /** The key, hashed if it is longer than a block, then filled up with zeros to a block. */
  function BlockKey(sha: Sha, key: Bytes): (k: Bytes)
    requires IsSha(sha)
    ensures |k| == BLOCK_SIZE
  {
    var short := if |key| > BLOCK_SIZE then sha(key) else key;
    short + Repeated(0, BLOCK_SIZE - |short|)
  }

  function Padded(sha: Sha, key: Bytes, pad: Byte): Bytes
    requires IsSha(sha)
  {
    XorBytes(BlockKey(sha, key), Repeated(pad, BLOCK_SIZE))
  }

  function Hmac(sha: Sha, key: Bytes, text: Bytes): (d: Bytes)
    requires IsSha(sha)
    ensures |d| == DIGEST_SIZE
  {
    sha(Padded(sha, key, OPAD) + sha(Padded(sha, key, IPAD) + text))
  }

  // ------------------------------------------------------------------ PBKDF2, section 5.2 of RFC 2898

  /** The block number is written highest byte first. */
  lemma BlockNumber(i: nat)
    requires i < WORD
    ensures BeFixed(i, 4) == [i / 0x100_0000, i / 0x1_0000 % 256, i / 256 % 256, i % 256]
  {
    assert Power256(0) == 1 && Power256(1) == 256 && Power256(2) == 0x1_0000 && Power256(3) == 0x100_0000;
    BeFixedByte(i, 4, 0);
    BeFixedByte(i, 4, 1);
    BeFixedByte(i, 4, 2);
    BeFixedByte(i, 4, 3);
  }

  /** U_j of block i. */
  function U(sha: Sha, password: Bytes, salt: Bytes, i: nat, j: nat): (u: Bytes)
    requires IsSha(sha) && i < WORD && j >= 1
    ensures |u| == DIGEST_SIZE
  {
    if j == 1 then Hmac(sha, password, salt + BeFixed(i, 4)) else Hmac(sha, password, U(sha, password, salt, i, j - 1))
  }

  /** U_1 xor ... xor U_c of block i. */
  function F(sha: Sha, password: Bytes, salt: Bytes, c: nat, i: nat): (t: Bytes)
    requires IsSha(sha) && i < WORD && c >= 1
    ensures |t| == DIGEST_SIZE
  {
    if c == 1 then U(sha, password, salt, i, 1)
    else XorBytes(F(sha, password, salt, c - 1, i), U(sha, password, salt, i, c))
  }

  /** The first n blocks. */
  function Blocks(sha: Sha, password: Bytes, salt: Bytes, c: nat, n: nat): (r: Bytes)
    requires IsSha(sha) && n < WORD && c >= 1
    ensures |r| == n * DIGEST_SIZE
  {
    if n == 0 then [] else Blocks(sha, password, salt, c, n - 1) + F(sha, password, salt, c, n)
  }

  /** The derived key: the blocks, cut to the wanted length. */
  function DerivedKey(sha: Sha, password: Bytes, salt: Bytes, c: nat, length: nat): Bytes
    requires IsSha(sha) && length <= DIGEST_SIZE * (WORD - 1) && c >= 1
  {
    Blocks(sha, password, salt, c, (length + DIGEST_SIZE - 1) / DIGEST_SIZE)[..length]
  }

  // ------------------------------------------------------------------ the code

  method HmacPad(key: Bytes, pad: Byte) returns (r: Bytes)
    requires |key| <= BLOCK_SIZE
    ensures r == XorBytes(key + Repeated(0, BLOCK_SIZE - |key|), Repeated(pad, BLOCK_SIZE))
  {
    hide XorBytes;
    var a := new Byte[BLOCK_SIZE](_ => pad);
    for i := 0 to |key|
      invariant forall k :: 0 <= k < i ==> a[k] == XorByte(key[k], pad)
      invariant forall k :: i <= k < BLOCK_SIZE ==> a[k] == pad
    {
      a[i] := XorByte(key[i], pad);
    }
    XorZeroByte(pad);
    hide XorByte;
    return a[..];
  }

  lemma XorZeroByte(b: Byte)
    ensures XorByte(0, b) == b
  {
    XorZero(b);
    XorSwaps(b, 0);
  }

  lemma {:induction false} XorSwaps(a: nat, b: nat)
    ensures Xor(a, b) == Xor(b, a)
  {
    if a != 0 || b != 0 {
      XorSwaps(a / 2, b / 2);
    }
  }

  class HmacContext {
    var inner: Bytes
    var outer: Bytes

    constructor ()
    {
      inner, outer := [], [];
    }

    method Init(sha: Sha, key: Bytes)
      requires IsSha(sha)
      modifies this
      ensures inner == Padded(sha, key, IPAD) && outer == Padded(sha, key, OPAD)
    {
      var short := key;
      if |key| > BLOCK_SIZE {
        short := sha(key);
      }
      inner := HmacPad(short, IPAD);
      outer := HmacPad(short, OPAD);
    }

    method Update(data: Bytes)
      modifies this`inner
      ensures inner == old(inner) + data
    {
      inner := inner + data;
    }

    /** EVP_MD_CTX_copy_ex of both contexts. */
    method CopyFrom(that: HmacContext)
      modifies this
      ensures inner == old(that.inner) && outer == old(that.outer)
    {
      inner, outer := that.inner, that.outer;
    }

    method Final(sha: Sha) returns (digest: Bytes)
      requires IsSha(sha)
      ensures digest == sha(outer + sha(inner)) && |digest| == DIGEST_SIZE
    {
      digest := sha(outer + sha(inner));
    }
  }

  /** What the three calls compute is HMAC, into however many updates the text is split. */
  method HmacOf(sha: Sha, key: Bytes, parts: seq<Bytes>) returns (digest: Bytes)
    requires IsSha(sha)
    ensures digest == Hmac(sha, key, Concat(parts))
  {
    hide Padded;
    var ctx := new HmacContext();
    ctx.Init(sha, key);
    for i := 0 to |parts|
      invariant ctx.inner == Padded(sha, key, IPAD) + Concat(parts[..i])
      invariant ctx.outer == Padded(sha, key, OPAD)
    {
      assert parts[..i+1][..i] == parts[..i];
      ctx.Update(parts[i]);
    }
    assert parts[..|parts|] == parts;
    digest := ctx.Final(sha);
  }

  method XorInto(t: array<Byte>, u: Bytes)
    requires t.Length == |u|
    modifies t
    ensures t[..] == XorBytes(old(t[..]), u)
  {
    hide XorByte, XorBytes;
    for k := 0 to t.Length
      invariant forall j :: 0 <= j < k ==> t[j] == XorByte(old(t[j]), u[j])
      invariant forall j :: k <= j < t.Length ==> t[j] == old(t[j])
    {
      t[k] := XorByte(t[k], u[k]);
    }
  }

  method CopyInto(b: array<Byte>, at: nat, t: array<Byte>, n: nat)
    requires at + n <= b.Length && n <= t.Length && b != t
    modifies b
    ensures b[..at] == old(b[..at]) && b[at..at + n] == t[..n] && b[at + n..] == old(b[at + n..])
  {
    for k := 0 to n
      invariant forall j :: 0 <= j < at ==> b[j] == old(b[j])
      invariant forall j :: at <= j < at + k ==> b[j] == t[j - at]
      invariant forall j :: at + k <= j < b.Length ==> b[j] == old(b[j])
    {
      b[at + k] := t[k];
    }
  }

  /** One block: the state after password and salt is copied, not computed again. */
  method Block(sha: Sha, password: Bytes, ghost salt: Bytes, ready: HmacContext, c: nat, i: nat, t: array<Byte>)
    requires IsSha(sha) && 1 <= i < WORD && t.Length == DIGEST_SIZE
    requires ready.inner == Padded(sha, password, IPAD) + salt && ready.outer == Padded(sha, password, OPAD)
    modifies t
    ensures t[..] == F(sha, password, salt, if c == 0 then 1 else c, i)
  {
    hide Padded, XorBytes, BeFixed, F, U, IsSha;
    var ctx := new HmacContext();
    ctx.CopyFrom(ready);
    assert ctx.inner + BeFixed(i, 4) == Padded(sha, password, IPAD) + (salt + BeFixed(i, 4));
    ctx.Update(BeFixed(i, 4));
    var u := ctx.Final(sha);
    FirstU(sha, password, salt, i);
    forall k | 0 <= k < DIGEST_SIZE { t[k] := u[k]; }
    assert t[..] == u;
    var j := 2;
    while j <= c
      invariant 2 <= j && (c < 2 ==> j == 2) && (c >= 2 ==> j <= c + 1)
      invariant u == U(sha, password, salt, i, j - 1)
      invariant t[..] == F(sha, password, salt, j - 1, i)
    {
      ctx.Init(sha, password);
      ctx.Update(u);
      u := ctx.Final(sha);
      NextU(sha, password, salt, i, j);
      XorInto(t, u);
      j := j + 1;
    }
  }

  lemma FirstU(sha: Sha, password: Bytes, salt: Bytes, i: nat)
    requires IsSha(sha) && i < WORD
    ensures U(sha, password, salt, i, 1)
            == sha(Padded(sha, password, OPAD) + sha(Padded(sha, password, IPAD) + (salt + BeFixed(i, 4))))
    ensures F(sha, password, salt, 1, i) == U(sha, password, salt, i, 1)
  {
  }

  lemma NextU(sha: Sha, password: Bytes, salt: Bytes, i: nat, j: nat)
    requires IsSha(sha) && i < WORD && j >= 2
    ensures var u := U(sha, password, salt, i, j - 1);
      U(sha, password, salt, i, j) == sha(Padded(sha, password, OPAD) + sha(Padded(sha, password, IPAD) + u))
    ensures F(sha, password, salt, j, i) == XorBytes(F(sha, password, salt, j - 1, i), U(sha, password, salt, i, j))
  {
  }

  lemma BlocksNext(sha: Sha, password: Bytes, salt: Bytes, c: nat, i: nat, n: nat)
    requires IsSha(sha) && i + 1 < WORD && c >= 1 && n <= DIGEST_SIZE
    ensures Blocks(sha, password, salt, c, i + 1)[..i * DIGEST_SIZE + n]
            == Blocks(sha, password, salt, c, i) + F(sha, password, salt, c, i + 1)[..n]
  {
    hide F;
  }

  /** PBKDF2_SHA256. */
  method Derive(sha: Sha, password: Bytes, salt: Bytes, c: nat, buf: array<Byte>)
    requires IsSha(sha) && buf.Length <= DIGEST_SIZE * (WORD - 1)
    modifies buf
    ensures buf[..] == DerivedKey(sha, password, salt, if c == 0 then 1 else c, buf.Length)
  {
    hide Padded, F, Blocks, IsSha;
    ghost var d := if c == 0 then 1 else c;
    var ready := new HmacContext();
    ready.Init(sha, password);
    ready.Update(salt);
    var t := new Byte[DIGEST_SIZE](_ => 0);
    assert Blocks(sha, password, salt, d, 0)[..0] == [];
    var i := 0;
    while i * DIGEST_SIZE < buf.Length
      invariant 0 <= i < WORD && i <= (buf.Length + DIGEST_SIZE - 1) / DIGEST_SIZE
      invariant ready.inner == Padded(sha, password, IPAD) + salt && ready.outer == Padded(sha, password, OPAD)
      invariant var n := if i * DIGEST_SIZE < buf.Length then i * DIGEST_SIZE else buf.Length;
                buf[..n] == Blocks(sha, password, salt, d, i)[..n]
    {
      Block(sha, password, salt, ready, c, i + 1, t);
      var length := buf.Length - i * DIGEST_SIZE;
      if length > DIGEST_SIZE {
        length := DIGEST_SIZE;
      }
      ghost var done := Blocks(sha, password, salt, d, i);
      assert buf[..i * DIGEST_SIZE] == done;
      CopyInto(buf, i * DIGEST_SIZE, t, length);
      assert buf[..i * DIGEST_SIZE + length] == done + t[..length];
      BlocksNext(sha, password, salt, d, i, length);
      assert t[..] == F(sha, password, salt, d, i + 1);
      assert t[..length] == F(sha, password, salt, d, i + 1)[..length];
      i := i + 1;
    }
    assert buf[..buf.Length] == buf[..];
  }
}
