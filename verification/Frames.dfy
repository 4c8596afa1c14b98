/** Message frames on a connection: the reader, the writer, and what any split of the stream delivers. */
module Frames {

  import opened ByteStrings

  const MAGIC: Bytes := [0xf9, 0xcf, 0xcb, 0xdf]
  const MESSAGE_START_SIZE := 4
  const COMMAND_SIZE := 12
  const MESSAGE_SIZE_OFFSET := 16
  const CHECKSUM_OFFSET := 20
  const HEADER_SIZE := 24
  const MAX_SIZE := 0x0200_0000

  /** A message as it is handed on: its command and its data. */
  datatype Message = Message(command: Bytes, data: Bytes)

  /** The first four bytes of the double hash of the data, as a number. */
  type Sum = Bytes -> nat

  function Checksum(sum: Sum, data: Bytes): nat {
    sum(data) % WORD
  }

  // ------------------------------------------------------------------ the search for the start

  predicate StartAt(b: Bytes, i: nat) {
    i + 4 <= |b| && b[i] == MAGIC[0] && b[i+1] == MAGIC[1] && b[i+2] == MAGIC[2] && b[i+3] == MAGIC[3]
  }

  /** The first start at or after i, or the end. */
  function Find(b: Bytes, i: nat): (r: nat)
    requires i <= |b|
    ensures i <= r <= |b|
    ensures r < |b| ==> StartAt(b, r)
    ensures forall j :: i <= j < r ==> !StartAt(b, j)
    decreases |b| - i
  {
    if i == |b| then i else if StartAt(b, i) then i else Find(b, i + 1)
  }

  // ------------------------------------------------------------------ the header

  /** Printable bytes, then nothing but zeros. */
  predicate ValidCommand(c: Bytes) {
    exists n :: 0 <= n <= |c| && Printable(c[..n]) && Zeros(c[n..])
  }

  predicate Printable(c: Bytes) {
    forall i :: 0 <= i < |c| ==> 0x20 <= c[i] <= 0x7e
  }

  predicate Zeros(c: Bytes) {
    forall i :: 0 <= i < |c| ==> c[i] == 0
  }

  method IsValidCommand(c: Bytes) returns (ok: bool)
    ensures ok <==> ValidCommand(c)
  {
    var p := 0;
    while p < |c|
      invariant 0 <= p <= |c|
      invariant Printable(c[..p])
    {
      if c[p] == 0 {
        ghost var n := p;
        while p < |c|
          invariant n <= p <= |c|
          invariant forall i :: n <= i < p ==> c[i] == 0
        {
          if c[p] != 0 {
            NotValidAt(c, n, p);
            return false;
          }
          p := p + 1;
        }
        assert Zeros(c[n..]);
        return true;
      } else if c[p] < 0x20 || c[p] > 0x7e {
        NotValid(c, p);
        return false;
      }
      p := p + 1;
    }
    assert Printable(c[..|c|]) && Zeros(c[|c|..]);
    return true;
  }

  lemma NotValid(c: Bytes, p: nat)
    requires p < |c| && c[p] != 0 && !(0x20 <= c[p] <= 0x7e)
    ensures !ValidCommand(c)
  {
    forall n | 0 <= n <= |c| ensures !(Printable(c[..n]) && Zeros(c[n..])) {
      if p < n { assert c[..n][p] == c[p]; } else { assert c[n..][p - n] == c[p]; }
    }
  }

  lemma NotValidAt(c: Bytes, z: nat, p: nat)
    requires z < p < |c| && c[z] == 0 && c[p] != 0
    ensures !ValidCommand(c)
  {
    forall n | 0 <= n <= |c| ensures !(Printable(c[..n]) && Zeros(c[n..])) {
      if z < n { assert c[..n][z] == c[z]; } else { assert c[n..][p - n] == c[p]; }
    }
  }

  /** GetCommand: the bytes before the first zero. */
  function CommandText(c: Bytes): Bytes {
    if c == [] || c[0] == 0 then [] else [c[0]] + CommandText(c[1..])
  }

  function Pad(c: Bytes): (r: Bytes)
    requires |c| <= COMMAND_SIZE
    ensures |r| == COMMAND_SIZE
  {
    c + seq(COMMAND_SIZE - |c|, _ => 0)
  }

  lemma {:induction false} TextOfPrintable(c: Bytes, z: Bytes)
    requires Printable(c) && Zeros(z)
    ensures CommandText(c + z) == c
  {
    if c != [] {
      assert (c + z)[1..] == c[1..] + z;
      TextOfPrintable(c[1..], z);
    }
  }

  lemma PadIsValid(c: Bytes)
    requires |c| <= COMMAND_SIZE && Printable(c)
    ensures ValidCommand(Pad(c)) && CommandText(Pad(c)) == c
  {
    assert Pad(c)[..|c|] == c && Zeros(Pad(c)[|c|..]);
    TextOfPrintable(c, seq(COMMAND_SIZE - |c|, _ => 0));
  }

  // ------------------------------------------------------------------ one pass of the reader

  /** What one pass over the buffer does. */
  datatype Pass = Wait(rest: Bytes) | Skip(rest: Bytes) | Deliver(msg: Message, rest: Bytes)

  predicate ValidHeader(h: Bytes)
    requires |h| >= HEADER_SIZE
  {
    StartAt(h, 0) && ValidCommand(h[MESSAGE_START_SIZE..MESSAGE_SIZE_OFFSET]) && SizeOf(h) <= MAX_SIZE
  }

  function SizeOf(h: Bytes): nat
    requires |h| >= HEADER_SIZE
  {
    FromLe(h[MESSAGE_SIZE_OFFSET..CHECKSUM_OFFSET])
  }

  function SumOf(h: Bytes): nat
    requires |h| >= HEADER_SIZE
  {
    FromLe(h[CHECKSUM_OFFSET..HEADER_SIZE])
  }

  function LastBytes(b: Bytes): Bytes {
    if |b| > HEADER_SIZE then b[|b| - HEADER_SIZE..] else b
  }

  /** The frame that begins at the front of the buffer. */
  function AtFront(sum: Sum, b: Bytes): Pass
    requires |b| >= HEADER_SIZE
  {
    var body := b[HEADER_SIZE..];
    if !ValidHeader(b) then Skip(body)
    else if SizeOf(b) > |body| then Wait(b)
    else if Checksum(sum, body[..SizeOf(b)]) != SumOf(b) then Skip(body)
    else Deliver(Message(CommandText(b[MESSAGE_START_SIZE..MESSAGE_SIZE_OFFSET]), body[..SizeOf(b)]), body[SizeOf(b)..])
  }

  function Step(sum: Sum, b: Bytes): (p: Pass)
    ensures !p.Wait? ==> |p.rest| < |b|
    ensures |p.rest| <= |b|
  {
    var start := Find(b, 0);
    if |b| - start < HEADER_SIZE then Wait(LastBytes(b)) else AtFront(sum, b[start..])
  }

  datatype Progress = Progress(msgs: seq<Message>, rest: Bytes)

  /** All passes until the reader waits. */
  function Read(sum: Sum, b: Bytes): (r: Progress)
    ensures |r.rest| <= |b|
    decreases |b|
  {
    match Step(sum, b)
    case Wait(rest) => Progress([], rest)
    case Skip(rest) => Read(sum, rest)
    case Deliver(m, rest) => var r := Read(sum, rest); Progress([m] + r.msgs, r.rest)
  }

  // ------------------------------------------------------------------ what is delivered stands in the stream

  /** The bytes are the printable command and zeros. */
  predicate Spells(c: Bytes, command: Bytes) {
    && |command| <= |c| && c[..|command|] == command
    && (forall i :: 0 <= i < |command| ==> 0x20 <= command[i] <= 0x7e)
    && (forall i :: |command| <= i < |c| ==> c[i] == 0)
  }

  /** A whole frame at p, in terms of its bytes: the start, a command, the size of the data and the sum of the data,
      both lowest byte first, and the data. */
  ghost predicate FrameAt(sum: Sum, b: Bytes, p: nat, m: Message) {
    && p + 24 + |m.data| <= |b|
    && b[p..p+4] == [0xf9, 0xcf, 0xcb, 0xdf]
    && Spells(b[p+4..p+16], m.command)
    && |m.data| <= 0x0200_0000 && FromLe(b[p+16..p+20]) == |m.data|
    && FromLe(b[p+20..p+24]) == sum(m.data) % 0x1_0000_0000
    && b[p+24..p+24+|m.data|] == m.data
  }

  /** The messages stand in the stream one behind the other. */
  ghost predicate Standing(sum: Sum, b: Bytes, msgs: seq<Message>, at: seq<nat>) {
    && |at| == |msgs| && (forall i :: 0 <= i < |msgs| ==> FrameAt(sum, b, at[i], msgs[i]))
    && forall i :: 0 <= i < |msgs| - 1 ==> at[i] + 24 + |msgs[i].data| <= at[i+1]
  }

  lemma CommandIs(c: Bytes)
    requires ValidCommand(c)
    ensures Spells(c, CommandText(c))
  {
    var n :| 0 <= n <= |c| && Printable(c[..n]) && Zeros(c[n..]);
    assert forall i :: 0 <= i < n ==> c[..n][i] == c[i];
    ZerosFrom(c, n);
    TextLength(c, n);
  }

  lemma DeliveredAtFront(sum: Sum, b: Bytes, m: Message, rest: Bytes)
    requires |b| >= HEADER_SIZE && AtFront(sum, b) == Deliver(m, rest)
    ensures FrameAt(sum, b, 0, m) && rest == b[24 + |m.data|..]
  {
    hide FromLe, CommandText, ValidCommand, Spells;
    CommandIs(b[4..16]);
    assert b[0..4] == [0xf9, 0xcf, 0xcb, 0xdf];
    assert b[24..][..|m.data|] == b[24..24+|m.data|];
  }

  lemma FrameMoves(sum: Sum, b: Bytes, d: nat, p: nat, m: Message)
    requires d <= |b| && FrameAt(sum, b[d..], p, m)
    ensures FrameAt(sum, b, d + p, m)
  {
    hide FromLe, Spells;
    var c, q := b[d..], d + p;
    assert c[p..p+4] == b[q..q+4] && c[p+4..p+16] == b[q+4..q+16];
    assert c[p+16..p+20] == b[q+16..q+20] && c[p+20..p+24] == b[q+20..q+24];
    assert c[p+24..p+24+|m.data|] == b[q+24..q+24+|m.data|];
  }

  function Shifted(at: seq<nat>, d: nat): (r: seq<nat>)
    ensures |r| == |at| && forall i :: 0 <= i < |at| ==> r[i] == d + at[i]
  {
    seq(|at|, i requires 0 <= i < |at| => d + at[i])
  }

  lemma StandingMoves(sum: Sum, b: Bytes, d: nat, msgs: seq<Message>, at: seq<nat>)
    requires d <= |b| && Standing(sum, b[d..], msgs, at)
    ensures Standing(sum, b, msgs, Shifted(at, d))
  {
    hide FrameAt;
    forall i | 0 <= i < |msgs| ensures FrameAt(sum, b, d + at[i], msgs[i]) {
      FrameMoves(sum, b, d, at[i], msgs[i]);
    }
  }

  lemma OneInFront(sum: Sum, b: Bytes, p: nat, m: Message, msgs: seq<Message>, at: seq<nat>)
    requires FrameAt(sum, b, p, m) && Standing(sum, b, msgs, at) && (at != [] ==> p + 24 + |m.data| <= at[0])
    ensures Standing(sum, b, [m] + msgs, [p] + at)
  {
    hide FrameAt;
  }

  /** Whatever the reader delivers stands in the buffer as a frame, with the right sum, in that order. */
  lemma {:induction false} DeliveredStands(sum: Sum, b: Bytes) returns (at: seq<nat>)
    ensures Standing(sum, b, Read(sum, b).msgs, at)
    decreases |b|
  {
    hide FrameAt, AtFront, Standing;
    var start := Find(b, 0);
    if |b| - start < HEADER_SIZE {
      at := [];
      NoneStand(sum, b);
      return;
    }
    match AtFront(sum, b[start..])
    case Wait(rest) =>
      at := [];
      NoneStand(sum, b);
    case Skip(rest) =>
      SkippedIs(sum, b[start..], rest);
      assert b[start..][24..] == b[start + 24..];
      var more := DeliveredStands(sum, rest);
      StandingMoves(sum, b, start + 24, Read(sum, rest).msgs, more);
      at := Shifted(more, start + 24);
    case Deliver(m, rest) =>
      DeliveredAtFront(sum, b[start..], m, rest);
      var d := start + 24 + |m.data|;
      LongEnough(sum, b[start..], m);
      assert b[start..][24 + |m.data|..] == b[d..];
      var more := DeliveredStands(sum, rest);
      StandingMoves(sum, b, d, Read(sum, rest).msgs, more);
      FrameMoves(sum, b, start, 0, m);
      at := [start] + Shifted(more, d);
      OneInFront(sum, b, start, m, Read(sum, rest).msgs, Shifted(more, d));
  }

  lemma NoneStand(sum: Sum, b: Bytes)
    ensures Standing(sum, b, [], [])
  {
  }

  lemma AllStand(sum: Sum, b: Bytes)
    ensures exists at :: Standing(sum, b, Read(sum, b).msgs, at)
  {
    var at := DeliveredStands(sum, b);
  }

  lemma LongEnough(sum: Sum, b: Bytes, m: Message)
    requires FrameAt(sum, b, 0, m)
    ensures 24 + |m.data| <= |b|
  {
  }

  lemma SkippedIs(sum: Sum, b: Bytes, rest: Bytes)
    requires |b| >= HEADER_SIZE && AtFront(sum, b) == Skip(rest)
    ensures rest == b[24..]
  {
    hide FromLe, CommandText, ValidCommand;
  }

  /** The whole frame at the front of the buffer is delivered exactly when its header is valid and its sum is right;
      otherwise the reader goes on behind the header. */
  lemma FrontFrame(sum: Sum, b: Bytes, data: Bytes)
    requires |b| >= 24 + |data| && b[0..4] == [0xf9, 0xcf, 0xcb, 0xdf]
    requires FromLe(b[16..20]) == |data| <= 0x0200_0000 && b[24..24+|data|] == data
    ensures var r := Read(sum, b);
      if ValidCommand(b[4..16]) && FromLe(b[20..24]) == sum(data) % 0x1_0000_0000
      then r == Progress([Message(CommandText(b[4..16]), data)] + Read(sum, b[24+|data|..]).msgs,
                         Read(sum, b[24+|data|..]).rest)
      else r == Read(sum, b[24..])
  {
    hide FromLe, CommandText, ValidCommand;
    assert forall i :: 0 <= i < 4 ==> b[i] == b[0..4][i];
    assert StartAt(b, 0) && Find(b, 0) == 0 && b[0..] == b;
    var body := b[HEADER_SIZE..];
    assert body[..|data|] == data && body[|data|..] == b[24+|data|..];
  }

  // ------------------------------------------------------------------ more bytes arrive

  /** The first start keeps its place: when bytes are added behind, and when bytes before it are dropped. */
  lemma FindStays(b: Bytes, q: Bytes)
    requires Find(b, 0) < |b|
    ensures Find(b + q, 0) == Find(b, 0)
  {
    var f := Find(b, 0);
    assert StartAt(b + q, f);
    forall j | 0 <= j < f
      ensures !StartAt(b + q, j)
    {
      assert StartAt(b + q, j) ==> StartAt(b, j);
    }
  }

  lemma FindAfterDrop(b: Bytes, d: nat)
    requires d <= Find(b, 0)
    ensures Find(b[d..], 0) == Find(b, 0) - d
  {
    var f := Find(b, 0);
    assert forall j :: 0 <= j < |b| - d ==> (StartAt(b[d..], j) <==> StartAt(b, d + j));
    assert f < |b| ==> StartAt(b[d..], f - d);
  }

  lemma StepAt(sum: Sum, b: Bytes, d: nat)
    requires d <= Find(b, 0) && |b| - Find(b, 0) >= HEADER_SIZE
    ensures Step(sum, b[d..]) == Step(sum, b)
  {
    FindAfterDrop(b, d);
    assert b[d..][Find(b, 0) - d..] == b[Find(b, 0)..];
  }

  lemma ReadOfStep(sum: Sum, b: Bytes, c: Bytes)
    requires Step(sum, b) == Step(sum, c)
    ensures Read(sum, b) == Read(sum, c)
  {
  }

  /** A pass that does not wait does the same when more bytes have come. */
  lemma StepMore(sum: Sum, b: Bytes, q: Bytes)
    requires !Step(sum, b).Wait?
    ensures Step(sum, b + q) == match Step(sum, b)
                                case Skip(rest) => Skip(rest + q)
                                case Deliver(m, rest) => Deliver(m, rest + q)
  {
    FindStays(b, q);
    var start := Find(b, 0);
    var c := b[start..];
    assert (b + q)[start..] == c + q;
    FrontMore(sum, c, q);
  }

  lemma FrontMore(sum: Sum, c: Bytes, q: Bytes)
    requires |c| >= HEADER_SIZE && !AtFront(sum, c).Wait?
    ensures AtFront(sum, c + q) == match AtFront(sum, c)
                                   case Skip(rest) => Skip(rest + q)
                                   case Deliver(m, rest) => Deliver(m, rest + q)
  {
    var body := c[HEADER_SIZE..];
    assert (c + q)[HEADER_SIZE..] == body + q;
    HeaderMore(c, q);
    if SizeOf(c) <= |body| {
      assert (body + q)[..SizeOf(c)] == body[..SizeOf(c)];
      assert (body + q)[SizeOf(c)..] == body[SizeOf(c)..] + q;
    }
  }

  lemma HeaderMore(c: Bytes, q: Bytes)
    requires |c| >= HEADER_SIZE
    ensures ValidHeader(c + q) == ValidHeader(c) && SizeOf(c + q) == SizeOf(c) && SumOf(c + q) == SumOf(c)
    ensures (c + q)[MESSAGE_START_SIZE..MESSAGE_SIZE_OFFSET] == c[MESSAGE_START_SIZE..MESSAGE_SIZE_OFFSET]
  {
    assert (c + q)[MESSAGE_SIZE_OFFSET..CHECKSUM_OFFSET] == c[MESSAGE_SIZE_OFFSET..CHECKSUM_OFFSET];
    assert (c + q)[CHECKSUM_OFFSET..HEADER_SIZE] == c[CHECKSUM_OFFSET..HEADER_SIZE];
    assert (c + q)[MESSAGE_START_SIZE..MESSAGE_SIZE_OFFSET] == c[MESSAGE_START_SIZE..MESSAGE_SIZE_OFFSET];
  }

  /** What a waiting reader has dropped does not matter to what comes. */
  lemma WaitMore(sum: Sum, b: Bytes, q: Bytes)
    requires Step(sum, b).Wait?
    ensures Read(sum, b + q) == Read(sum, Step(sum, b).rest + q)
  {
    hide Read, ValidCommand, CommandText, FromLe, StartAt;
    var start, rest := Find(b, 0), Step(sum, b).rest;
    if |b| - start >= HEADER_SIZE {
      FindStays(b, q);
      StepAt(sum, b + q, start);
      assert (b + q)[start..] == rest + q;
      ReadOfStep(sum, b + q, rest + q);
    } else {
      var d := |b| - |rest|;
      assert (b + q)[d..] == rest + q;
      NoStartBefore(b, q, d);
      DropsTheSame(sum, b + q, d);
      ReadOfStep(sum, b + q, rest + q);
    }
  }

  lemma NoStartBefore(b: Bytes, q: Bytes, d: nat)
    requires |b| - Find(b, 0) < HEADER_SIZE && d == (if |b| > HEADER_SIZE then |b| - HEADER_SIZE else 0)
    ensures d <= Find(b + q, 0)
  {
    forall j | 0 <= j < d
      ensures !StartAt(b + q, j)
    {
      assert !StartAt(b, j);
    }
  }

  lemma DropsTheSame(sum: Sum, b: Bytes, d: nat)
    requires d <= Find(b, 0) && (d == 0 || d + HEADER_SIZE <= |b|)
    ensures Step(sum, b[d..]) == Step(sum, b)
  {
    if |b| - Find(b, 0) >= HEADER_SIZE {
      StepAt(sum, b, d);
    } else {
      FindAfterDrop(b, d);
      assert LastBytes(b[d..]) == LastBytes(b);
    }
  }

  /** Reading in two parts is reading at once. */
  lemma {:induction false} ReadMore(sum: Sum, b: Bytes, q: Bytes)
    ensures var r := Read(sum, b);
            var s := Read(sum, r.rest + q);
            Read(sum, b + q) == Progress(r.msgs + s.msgs, s.rest)
    decreases |b|
  {
    hide Step;
    match Step(sum, b)
    case Wait(rest) =>
      WaitMore(sum, b, q);
    case Skip(rest) =>
      StepMore(sum, b, q);
      ReadMore(sum, rest, q);
    case Deliver(m, rest) =>
      StepMore(sum, b, q);
      ReadMore(sum, rest, q);
      var r := Read(sum, rest);
      var s := Read(sum, r.rest + q);
      assert [m] + (r.msgs + s.msgs) == [m] + r.msgs + s.msgs;
  }

  /** A connection: what has been delivered and what is left in the buffer after each chunk. */
  function Feed(sum: Sum, chunks: seq<Bytes>): Progress {
    if chunks == [] then Progress([], [])
    else
      var r := Feed(sum, chunks[..|chunks|-1]);
      var s := Read(sum, r.rest + chunks[|chunks|-1]);
      Progress(r.msgs + s.msgs, s.rest)
  }

  /** The messages and the buffer depend on the bytes received, not on how they were split. */
  lemma {:induction false} ChunksDoNotMatter(sum: Sum, chunks: seq<Bytes>)
    ensures Feed(sum, chunks) == Read(sum, Concat(chunks))
  {
    if chunks != [] {
      var k := |chunks| - 1;
      ChunksDoNotMatter(sum, chunks[..k]);
      ReadMore(sum, Concat(chunks[..k]), chunks[k]);
    }
  }

  // ------------------------------------------------------------------ written frames

  function Header(command: Bytes, size: nat, check: nat): (h: Bytes)
    requires |command| <= COMMAND_SIZE
    ensures |h| == HEADER_SIZE
  {
    MAGIC + Pad(command) + Le(size, 4) + Le(check, 4)
  }

  function Frame(sum: Sum, m: Message): Bytes
    requires |m.command| <= COMMAND_SIZE
  {
    Header(m.command, |m.data|, Checksum(sum, m.data)) + m.data
  }

  predicate Writable(m: Message) {
    |m.command| <= COMMAND_SIZE && Printable(m.command) && |m.data| <= MAX_SIZE
  }

  lemma FourParts(a: Bytes, b: Bytes, c: Bytes, d: Bytes)
    requires |a| == 4 && |b| == 12 && |c| == 4 && |d| == 4
    ensures var h := a + b + c + d; h[..4] == a && h[4..16] == b && h[16..20] == c && h[20..24] == d
  {
    assert (a + b + c + d)[20..24] == (a + b + c + d)[20..];
  }

  lemma HeaderReads(command: Bytes, size: nat, check: nat)
    requires |command| <= COMMAND_SIZE && Printable(command) && size <= MAX_SIZE && check < WORD
    ensures var h := Header(command, size, check);
      && ValidHeader(h) && SizeOf(h) == size && SumOf(h) == check
      && CommandText(h[MESSAGE_START_SIZE..MESSAGE_SIZE_OFFSET]) == command
  {
    assert Power256(4) == WORD;
    hide Pad, Le, FromLe, Power256, CommandText, ValidCommand;
    var h := Header(command, size, check);
    FourParts(MAGIC, Pad(command), Le(size, 4), Le(check, 4));
    PadIsValid(command);
    LeRoundTrip(size, 4);
    LeRoundTrip(check, 4);
  }

  lemma FrameReads(sum: Sum, m: Message, q: Bytes)
    requires Writable(m)
    ensures Step(sum, Frame(sum, m) + q) == Deliver(m, q)
  {
    var h := Header(m.command, |m.data|, Checksum(sum, m.data));
    hide Header, CommandText, ValidCommand, FromLe;
    HeaderReads(m.command, |m.data|, Checksum(sum, m.data));
    var b := h + (m.data + q);
    assert Frame(sum, m) + q == b;
    HeaderMore(h, m.data + q);
    assert StartAt(b, 0) && Find(b, 0) == 0 && b[0..] == b;
    assert b[HEADER_SIZE..] == m.data + q;
    assert (m.data + q)[..|m.data|] == m.data && (m.data + q)[|m.data|..] == q;
  }

  function Stream(sum: Sum, ms: seq<Message>): Bytes
    requires forall i :: 0 <= i < |ms| ==> Writable(ms[i])
  {
    if ms == [] then [] else assert Writable(ms[0]); Frame(sum, ms[0]) + Stream(sum, ms[1..])
  }

  lemma ReadEmpty(sum: Sum)
    ensures Read(sum, []) == Progress([], [])
  {
  }

  lemma ReadDeliver(sum: Sum, b: Bytes, m: Message, rest: Bytes)
    requires Step(sum, b) == Deliver(m, rest)
    ensures Read(sum, b) == Progress([m] + Read(sum, rest).msgs, Read(sum, rest).rest)
  {
    hide Step;
  }

  /** What was written is what is read, in order and with nothing left over. */
  lemma {:induction false} WrittenIsRead(sum: Sum, ms: seq<Message>)
    requires forall i :: 0 <= i < |ms| ==> Writable(ms[i])
    ensures Read(sum, Stream(sum, ms)) == Progress(ms, [])
  {
    hide Step, Read, Frame;
    if ms == [] {
      ReadEmpty(sum);
    } else {
      var rest := Stream(sum, ms[1..]);
      FrameReads(sum, ms[0], rest);
      WrittenIsRead(sum, ms[1..]);
      ReadDeliver(sum, Stream(sum, ms), ms[0], rest);
      assert [ms[0]] + ms[1..] == ms;
    }
  }

  /** In whatever pieces a written stream arrives, its messages are delivered. */
  lemma WrittenIsDelivered(sum: Sum, ms: seq<Message>, chunks: seq<Bytes>)
    requires forall i :: 0 <= i < |ms| ==> Writable(ms[i])
    requires Concat(chunks) == Stream(sum, ms)
    ensures Feed(sum, chunks) == Progress(ms, [])
  {
    ChunksDoNotMatter(sum, chunks);
    WrittenIsRead(sum, ms);
  }

  // ------------------------------------------------------------------ the connection

  method GetCommand(c: Bytes) returns (r: Bytes)
    requires |c| == COMMAND_SIZE && ValidCommand(c)
    ensures r == CommandText(c)
  {
    if c[COMMAND_SIZE - 1] == 0 {
      var len := 0;
      while c[len] != 0
        invariant 0 <= len < COMMAND_SIZE
        invariant forall i :: 0 <= i < len ==> c[i] != 0
        decreases COMMAND_SIZE - len
      {
        len := len + 1;
      }
      TextLength(c, len);
      return c[..len];
    }
    NoZeros(c);
    TextLength(c, |c|);
    return c;
  }

  lemma {:induction false} TextLength(c: Bytes, n: nat)
    requires n <= |c| && (forall i :: 0 <= i < n ==> c[i] != 0) && (n < |c| ==> c[n] == 0)
    ensures CommandText(c) == c[..n]
  {
    if n > 0 {
      TextLength(c[1..], n - 1);
    }
  }

  lemma NoZeros(c: Bytes)
    requires ValidCommand(c) && c != [] && c[|c|-1] != 0
    ensures forall i :: 0 <= i < |c| ==> c[i] != 0
  {
    var n :| 0 <= n <= |c| && Printable(c[..n]) && Zeros(c[n..]);
    assert forall i :: 0 <= i < n ==> c[..n][i] == c[i];
    ZerosFrom(c, n);
  }

  lemma ZerosFrom(c: Bytes, n: nat)
    requires n <= |c| && Zeros(c[n..])
    ensures forall i :: n <= i < |c| ==> c[i] == 0
  {
    assert forall i :: n <= i < |c| ==> c[i] == c[n..][i - n];
  }

  class Connection {
    var recv: Bytes
    var send: Bytes
    var headerStart: int
    var messageStart: int

    constructor ()
      ensures recv == [] && send == [] && headerStart == -1 && messageStart == -1
    {
      recv, send, headerStart, messageStart := [], [], -1, -1;
    }

    /** ProcessMessages, with room in the send buffer; every pass but the last shrinks the buffer. */
    method ProcessMessages(sum: Sum) returns (msgs: seq<Message>)
      modifies this`recv
      ensures Progress(msgs, recv) == Read(sum, old(recv))
      ensures exists at :: Standing(sum, old(recv), msgs, at)
    {
      hide ValidCommand, CommandText, FromLe, StartAt, Checksum, Standing;
      msgs := [];
      AllStand(sum, recv);
      if recv == [] {
        return;
      }
      while true
        invariant var r := Read(sum, recv); Progress(msgs + r.msgs, r.rest) == Read(sum, old(recv))
        decreases |recv|
      {
        ghost var before := recv;
        var start := Find(recv, 0);
        if |recv| - start < HEADER_SIZE {
          recv := LastBytes(recv);
          break;
        }
        recv := recv[start..];
        ghost var front := recv;
        var header := recv[..HEADER_SIZE];
        FrontHeader(recv);
        recv := recv[HEADER_SIZE..];
        var valid := IsValidCommand(header[MESSAGE_START_SIZE..MESSAGE_SIZE_OFFSET]);
        if !valid || !StartAt(header, 0) || SizeOf(header) > MAX_SIZE {
          assert Step(sum, before) == Skip(recv);
          continue;
        }
        var command := GetCommand(header[MESSAGE_START_SIZE..MESSAGE_SIZE_OFFSET]);
        var size := SizeOf(header);
        if size > |recv| {
          recv := header + recv;
          assert recv == front;
          break;
        }
        if Checksum(sum, recv[..size]) != SumOf(header) {
          assert Step(sum, before) == Skip(recv);
          continue;
        }
        var m := Message(command, recv[..size]);
        recv := recv[size..];
        assert Step(sum, before) == Deliver(m, recv);
        msgs := msgs + [m];
      }
    }

    method Receive(bytes: Bytes)
      modifies this`recv
      ensures recv == old(recv) + bytes
    {
      recv := recv + bytes;
    }

    /** A message has been begun: its header is there, with neither size nor checksum. */
    ghost predicate Writing(command: Bytes)
      reads this
    {
      && |command| <= COMMAND_SIZE && 0 <= headerStart && messageStart == headerStart + HEADER_SIZE <= |send|
      && send[headerStart..messageStart] == Header(command, 0, 0)
    }

    method AbortMessage()
      requires headerStart <= |send|
      modifies this`send, this`headerStart, this`messageStart
      ensures send == if old(headerStart) < 0 then old(send) else old(send)[..old(headerStart)]
      ensures old(headerStart) >= 0 ==> headerStart == -1 && messageStart == -1
      ensures old(headerStart) < 0 ==> headerStart == old(headerStart) && messageStart == old(messageStart)
    {
      if headerStart < 0 {
        return;
      }
      send := send[..headerStart];
      headerStart, messageStart := -1, -1;
    }

    method BeginMessage(command: Bytes)
      requires -1 <= headerStart <= |send|
      modifies this`send, this`headerStart, this`messageStart
      ensures var kept := if |command| < COMMAND_SIZE then command else command[..COMMAND_SIZE];
        && Writing(kept) && messageStart == |send|
        && send[..headerStart] == (if old(headerStart) < 0 then old(send) else old(send)[..old(headerStart)])
    {
      if headerStart != -1 {
        AbortMessage();
      }
      headerStart := |send|;
      var kept := if |command| < COMMAND_SIZE then command else command[..COMMAND_SIZE];
      send := send + Header(kept, 0, 0);
      messageStart := |send|;
      assert send[headerStart..messageStart] == Header(kept, 0, 0);
    }

    method Append(data: Bytes)
      requires 0 <= messageStart <= |send|
      modifies this`send
      ensures send == old(send) + data
    {
      send := send + data;
    }

    /** EndMessage patches the size and the checksum into the header; what is in the buffer is a frame. */
    method EndMessage(sum: Sum, drop: bool, ghost command: Bytes)
      requires headerStart >= 0 ==> Writing(command) && |send| - messageStart < WORD
      modifies this`send, this`headerStart, this`messageStart
      ensures old(headerStart) < 0 ==> send == old(send)
      ensures old(headerStart) >= 0 ==> headerStart == -1 && messageStart == -1
      ensures old(headerStart) >= 0 && drop ==> send == old(send)[..old(headerStart)]
      ensures old(headerStart) >= 0 && !drop ==>
        send == old(send)[..old(headerStart)] + Frame(sum, Message(command, old(send)[old(messageStart)..]))
      ensures old(headerStart) >= 0 && !drop ==>
        && var p, data := old(headerStart), old(send)[old(messageStart)..];
        && |send| == |old(send)| == p + 24 + |data| && send[p+24..] == data
        && send[p..p+4] == [0xf9, 0xcf, 0xcb, 0xdf] && send[p+4..p+4+|command|] == command
        && (forall i :: p + 4 + |command| <= i < p + 16 ==> send[i] == 0)
        && send[p+16..p+20] == Le(|data|, 4) && send[p+20..p+24] == Le(sum(data) % 0x1_0000_0000, 4)
    {
      hide Header, Le;
      if drop {
        AbortMessage();
        return;
      }
      if headerStart < 0 {
        return;
      }
      var size := |send| - messageStart;
      var check := Checksum(sum, send[messageStart..]);
      ghost var front, data := send[..headerStart], send[messageStart..];
      ghost var h := Header(command, 0, 0);
      assert send == front + h + data;
      send := Patch(send, headerStart + MESSAGE_SIZE_OFFSET, Le(size, 4));
      send := Patch(send, headerStart + CHECKSUM_OFFSET, Le(check, 4));
      PatchedHeader(front, command, data, size, check);
      FrameBytes(front, command, data, size, check);
      headerStart, messageStart := -1, -1;
    }

    /** PushMessage: one whole frame, after whatever was complete. */
    method PushMessage(sum: Sum, command: Bytes, data: Bytes, drop: bool)
      requires -1 <= headerStart <= |send| && |data| < WORD
      modifies this`send, this`headerStart, this`messageStart
      ensures headerStart == -1
      ensures var done := if old(headerStart) < 0 then old(send) else old(send)[..old(headerStart)];
        var kept := if |command| < COMMAND_SIZE then command else command[..COMMAND_SIZE];
        send == if drop then done else done + Frame(sum, Message(kept, data))
    {
      hide Header, Frame;
      BeginMessage(command);
      ghost var front := send[..headerStart];
      Append(data);
      assert send[..headerStart] == front && send[messageStart..] == data;
      ghost var kept := if |command| < COMMAND_SIZE then command else command[..COMMAND_SIZE];
      assert send[headerStart..messageStart] == Header(kept, 0, 0);
      EndMessage(sum, drop, kept);
    }
  }

  lemma {:induction false} StreamMore(sum: Sum, ms: seq<Message>, m: Message)
    requires (forall i :: 0 <= i < |ms| ==> Writable(ms[i])) && Writable(m)
    ensures Stream(sum, ms + [m]) == Stream(sum, ms) + Frame(sum, m)
  {
    hide Frame;
    if ms == [] {
      assert Stream(sum, [m][1..]) == [];
    } else {
      assert (ms + [m])[0] == ms[0] && (ms + [m])[1..] == ms[1..] + [m];
      StreamMore(sum, ms[1..], m);
    }
  }

  /** Messages pushed on one side are delivered on the other, in whatever pieces the bytes travel. */
  method Exchange(sum: Sum, ms: seq<Message>) returns (delivered: seq<Message>)
    requires forall i :: 0 <= i < |ms| ==> Writable(ms[i])
    ensures delivered == ms
  {
    hide Frame, Read;
    var here := new Connection();
    var there := new Connection();
    for i := 0 to |ms|
      invariant here.headerStart == -1 && here.send == Stream(sum, ms[..i])
      invariant there.recv == []
    {
      assert Writable(ms[i]);
      assert |ms[i].command| == COMMAND_SIZE ==> ms[i].command[..COMMAND_SIZE] == ms[i].command;
      here.PushMessage(sum, ms[i].command, ms[i].data, false);
      assert ms[..i+1] == ms[..i] + [ms[i]];
      StreamMore(sum, ms[..i], ms[i]);
    }
    assert ms[..|ms|] == ms;
    var bytes, n := here.send, 0;
    delivered := [];
    ReadEmpty(sum);
    while n < |bytes|
      invariant 0 <= n <= |bytes| && Progress(delivered, there.recv) == Read(sum, bytes[..n])
    {
      assert n < n + 1 <= |bytes|;
      var k :| n < k <= |bytes|;
      assert bytes[..n] + bytes[n..k] == bytes[..k];
      ReadMore(sum, bytes[..n], bytes[n..k]);
      there.Receive(bytes[n..k]);
      var msgs := there.ProcessMessages(sum);
      delivered, n := delivered + msgs, k;
    }
    assert bytes[..n] == bytes;
    WrittenIsRead(sum, ms);
  }

  /** memcpy into a buffer. */
  function Patch(b: Bytes, at: nat, with: Bytes): Bytes
    requires at + |with| <= |b|
  {
    b[..at] + with + b[at + |with|..]
  }

  lemma PatchedHeader(front: Bytes, command: Bytes, data: Bytes, size: nat, check: nat)
    requires |command| <= COMMAND_SIZE && size < WORD && check < WORD
    ensures var b := front + Header(command, 0, 0) + data;
            Patch(Patch(b, |front| + MESSAGE_SIZE_OFFSET, Le(size, 4)), |front| + CHECKSUM_OFFSET, Le(check, 4))
            == front + Header(command, size, check) + data
  {
    hide Le, Pad, Patch;
    var p, z := front + MAGIC + Pad(command), Le(0, 4);
    assert front + Header(command, 0, 0) + data == p + z + (z + data);
    PatchMiddle(p, z, z + data, Le(size, 4));
    assert p + Le(size, 4) + (z + data) == p + Le(size, 4) + z + data;
    PatchMiddle(p + Le(size, 4), z, data, Le(check, 4));
  }

  /** Where the parts of a frame stand behind what is in front of it. */
  lemma FrameBytes(front: Bytes, command: Bytes, data: Bytes, size: nat, check: nat)
    requires |command| <= COMMAND_SIZE
    ensures var b, p := front + Header(command, size, check) + data, |front|;
      && |b| == p + 24 + |data| && b[p+24..] == data && b[p..p+4] == MAGIC && b[p+4..p+4+|command|] == command
      && (forall i :: p + 4 + |command| <= i < p + 16 ==> b[i] == 0)
      && b[p+16..p+20] == Le(size, 4) && b[p+20..p+24] == Le(check, 4)
  {
    hide Le;
    var h := Header(command, size, check);
    FourParts(MAGIC, Pad(command), Le(size, 4), Le(check, 4));
    var b, p := front + h + data, |front|;
    assert forall i :: 0 <= i < 24 ==> b[p+i] == h[i];
    assert b[p..p+4] == h[..4] && b[p+16..p+20] == h[16..20] && b[p+20..p+24] == h[20..24];
    assert h[4..16][..|command|] == command && b[p+4..p+4+|command|] == h[4..16][..|command|];
    assert forall i :: |command| <= i < 12 ==> h[4..16][i] == 0 && h[4 + i] == h[4..16][i];
    forall i | p + 4 + |command| <= i < p + 16 ensures b[i] == 0 {
      assert b[i] == h[i - p] == h[4..16][i - p - 4];
    }
  }

  lemma PatchMiddle(a: Bytes, b: Bytes, c: Bytes, with: Bytes)
    requires |b| == |with|
    ensures Patch(a + b + c, |a|, with) == a + with + c
  {
    assert (a + b + c)[..|a|] == a && (a + b + c)[|a| + |with|..] == c;
  }

  lemma FrontHeader(b: Bytes)
    requires |b| >= HEADER_SIZE
    ensures var h := b[..HEADER_SIZE];
      && b == h + b[HEADER_SIZE..] && ValidHeader(h) == ValidHeader(b) && SizeOf(h) == SizeOf(b) && SumOf(h) == SumOf(b)
      && h[MESSAGE_START_SIZE..MESSAGE_SIZE_OFFSET] == b[MESSAGE_START_SIZE..MESSAGE_SIZE_OFFSET]
  {
    assert b == b[..HEADER_SIZE] + b[HEADER_SIZE..];
    HeaderMore(b[..HEADER_SIZE], b[HEADER_SIZE..]);
  }
}
