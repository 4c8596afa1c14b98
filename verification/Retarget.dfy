/** The difficulty retarget over the last blocks of one proof type. */
module Retarget {

  import opened Arithmetic
  import opened ByteStrings
  import opened Compact

  const BLOCKSPAN := 24
  const DAY := 86400

  datatype Node = Node(time: nat, bits: nat, stake: bool)

  predicate Chain(c: seq<Node>) {
    c != [] && forall i :: 0 <= i < |c| ==> c[i].bits < WORD
  }

  // ------------------------------------------------------------------ the window

  /** A block after genesis of the wanted proof type. */
  predicate OfType(c: seq<Node>, j: int, stake: bool) {
    0 < j < |c| && c[j].stake == stake
  }

  /** GetLastBlockIndex: back to a block of the type, or to genesis. */
  method GetLast(c: seq<Node>, k: nat, stake: bool) returns (r: nat)
    requires k < |c|
    ensures r <= k && (r > 0 ==> OfType(c, r, stake))
    ensures forall j :: r < j <= k ==> !OfType(c, j, stake)
  {
    r := k;
    while r > 0 && c[r].stake != stake
      invariant r <= k
      invariant forall j :: r < j <= k ==> !OfType(c, j, stake)
    {
      r := r - 1;
    }
  }

  /** How many blocks of the type there are up to k. */
  function TypeCount(c: seq<Node>, k: nat, stake: bool): nat
    requires k < |c|
  {
    if k == 0 then 0 else TypeCount(c, k - 1, stake) + if c[k].stake == stake then 1 else 0
  }

  lemma {:induction false} SameCount(c: seq<Node>, r: nat, k: nat, stake: bool)
    requires r <= k < |c| && forall j :: r < j <= k ==> !OfType(c, j, stake)
    ensures TypeCount(c, r, stake) == TypeCount(c, k, stake)
  {
    if r < k {
      assert !OfType(c, k, stake);
      SameCount(c, r, k - 1, stake);
    }
  }

  /** The most recent blocks of the type, newest first: every other one is older than all of them. */
  ghost predicate Recent(c: seq<Node>, stake: bool, w: seq<nat>) {
    && (forall i :: 0 <= i < |w| ==> OfType(c, w[i], stake))
    && (forall i, j :: 0 <= i < j < |w| ==> w[i] > w[j])
    && (forall j :: OfType(c, j, stake) && j !in w ==> forall i :: 0 <= i < |w| ==> j < w[i])
  }

  /** The window is full exactly when there are enough blocks of the type after genesis. */
  method Window(c: seq<Node>, start: nat, stake: bool) returns (full: bool, w: seq<nat>)
    requires start < |c| && (start > 0 ==> OfType(c, start, stake))
    requires forall j :: start < j < |c| ==> !OfType(c, j, stake)
    ensures full <==> TypeCount(c, |c| - 1, stake) >= BLOCKSPAN
    ensures full ==> |w| == BLOCKSPAN && Recent(c, stake, w)
  {
    SameCount(c, start, |c| - 1, stake);
    w := [];
    var k := start;
    while |w| < BLOCKSPAN
      invariant |w| <= BLOCKSPAN && 0 <= k < |c| && (k > 0 ==> OfType(c, k, stake))
      invariant forall i :: 0 <= i < |w| ==> OfType(c, w[i], stake) && k < w[i]
      invariant forall i, j :: 0 <= i < j < |w| ==> w[i] > w[j]
      invariant forall j :: OfType(c, j, stake) && j !in w ==> j <= k
      invariant TypeCount(c, |c| - 1, stake) == |w| + TypeCount(c, k, stake)
    {
      if k == 0 {
        return false, w;
      }
      var w' := w + [k];
      var r := GetLast(c, k - 1, stake);
      SameCount(c, r, k - 1, stake);
      forall j | OfType(c, j, stake) && j !in w'
        ensures j <= r
      {
        assert j !in w && j != k by { assert w'[|w|] == k; assert w' == w + [k]; }
      }
      w, k := w', r;
    }
    return true, w;
  }

  // ------------------------------------------------------------------ the average

  /** Division of big numbers truncates. */
  function TruncDiv(a: int, b: int): int
    requires b > 0
  {
    if a >= 0 then a / b else -(-a / b)
  }

  lemma TruncBetween(a: int, b: int, lo: int, hi: int)
    requires b > 0 && lo * b <= a <= hi * b
    ensures lo <= TruncDiv(a, b) <= hi
  {
    if a >= 0 {
      DivBetween(a, b, if lo < 0 then 0 else lo, hi);
    } else {
      DivBetween(-a, b, if hi > 0 then 0 else -hi, -lo);
    }
  }

  /** The running average the loop computes: its first value counts twice. */
  function Average(ts: seq<int>): int
    requires ts != []
  {
    var n := |ts|;
    if n == 1 then ts[0] else Blend(Average(ts[..n-1]), n, ts[n-1])
  }

  function Blend(a: int, n: nat, t: int): int {
    TruncDiv(a * n + t, n + 1)
  }

  lemma {:induction false} AverageBetween(ts: seq<int>, lo: int, hi: int)
    requires ts != [] && forall i :: 0 <= i < |ts| ==> lo <= ts[i] <= hi
    ensures lo <= Average(ts) <= hi
  {
    var n := |ts|;
    if n > 1 {
      AverageBetween(ts[..n-1], lo, hi);
      var a, t := Average(ts[..n-1]), ts[n-1];
      hide TruncDiv;
      MeanBetween(a, t, n, lo, hi);
      TruncBetween(a * n + t, n + 1, lo, hi);
    }
  }

  lemma MeanBetween(a: int, t: int, n: nat, lo: int, hi: int)
    requires lo <= a <= hi && lo <= t <= hi
    ensures lo * (n + 1) <= a * n + t <= hi * (n + 1)
  {
    Grows(lo, a, n);
    Grows(a, hi, n);
    assert lo * (n + 1) == lo * n + lo && hi * (n + 1) == hi * n + hi;
  }

  // how far the average is from a mean

  function SumOf(ts: seq<int>): int {
    if ts == [] then 0 else SumOf(ts[..|ts|-1]) + ts[|ts|-1]
  }

  function Triangle(n: nat): nat {
    if n == 0 then 0 else Triangle(n - 1) + n
  }

  /** Truncation loses less than one unit of the divisor, towards zero. */
  lemma TruncLoses(a: int, b: int)
    requires b > 0
    ensures a >= 0 ==> 0 <= a - TruncDiv(a, b) * b < b
    ensures a < 0 ==> 0 <= TruncDiv(a, b) * b - a < b
  {
  }

  /** Over targets that are not negative the running average, taken once more than there are targets, is their
      sum with the newest one counted twice, but for what the truncations lose. */
  lemma {:induction false} AverageIsMean(ts: seq<int>)
    requires ts != [] && forall i :: 0 <= i < |ts| ==> ts[i] >= 0
    ensures ts[0] + SumOf(ts) - Triangle(|ts|) <= Average(ts) * (|ts| + 1) <= ts[0] + SumOf(ts)
    ensures Average(ts) >= 0
  {
    var n := |ts|;
    if n == 1 {
      assert ts[..0] == [];
      assert SumOf(ts) == SumOf(ts[..0]) + ts[0] == ts[0];
      assert Triangle(1) == Triangle(0) + 1;
    } else {
      var a, t := Average(ts[..n-1]), ts[n-1];
      AverageIsMean(ts[..n-1]);
      assert SumOf(ts) == SumOf(ts[..n-1]) + t && Triangle(n) == Triangle(n - 1) + n;
      assert a * n >= 0;
      assert Average(ts) == Blend(a, n, t);
      hide Average, SumOf, Triangle;
      BlendLoses(a, n, t);
    }
  }

  lemma BlendLoses(a: nat, n: nat, t: nat)
    ensures a * n + t - n <= Blend(a, n, t) * (n + 1) <= a * n + t && Blend(a, n, t) >= 0
  {
    assert a * n >= 0;
    ShareLoses(a * n + t, n + 1);
  }

  lemma ShareLoses(x: nat, b: nat)
    requires b > 0
    ensures x - b < TruncDiv(x, b) * b <= x && TruncDiv(x, b) >= 0
  {
  }

  lemma AverageNext(c: seq<Node>, w: seq<nat>, i: nat)
    requires i < |w| && forall i :: 0 <= i < |w| ==> w[i] < |c| && c[w[i]].bits < WORD
    ensures Average(Targets(c, w[..i+1])) == if i == 0 then SetCompact(c[w[0]].bits)
              else Blend(Average(Targets(c, w[..i])), i + 1, SetCompact(c[w[i]].bits))
  {
    hide SetCompact, Average, Blend, Targets;
    var ts := Targets(c, w[..i]);
    TargetsNext(c, w, i);
    AverageOfMore(ts, SetCompact(c[w[i]].bits));
  }

  lemma TargetsNext(c: seq<Node>, w: seq<nat>, i: nat)
    requires i < |w| && forall i :: 0 <= i < |w| ==> w[i] < |c| && c[w[i]].bits < WORD
    ensures Targets(c, w[..i+1]) == Targets(c, w[..i]) + [SetCompact(c[w[i]].bits)]
  {
    hide SetCompact;
    assert w[..i+1][..i] == w[..i];
  }

  lemma AverageOfMore(ts: seq<int>, t: int)
    ensures Average(ts + [t]) == if ts == [] then t else Blend(Average(ts), |ts| + 1, t)
  {
    hide Blend;
    assert (ts + [t])[..|ts|] == ts;
  }

  function Targets(c: seq<Node>, w: seq<nat>): (ts: seq<int>)
    requires forall i :: 0 <= i < |w| ==> w[i] < |c| && c[w[i]].bits < WORD
    ensures |ts| == |w| && forall i :: 0 <= i < |w| ==> ts[i] == SetCompact(c[w[i]].bits)
  {
    if w == [] then [] else Targets(c, w[..|w|-1]) + [SetCompact(c[w[|w|-1]].bits)]
  }

  // ------------------------------------------------------------------ the time span

  /** What the loop adds up: nothing is added after a block with time zero. */
  function Span(c: seq<Node>, w: seq<nat>): int
    requires forall i :: 0 <= i < |w| ==> w[i] < |c|
  {
    if |w| <= 1 then 0
    else Span(c, w[..|w|-1]) + if c[w[|w|-2]].time > 0 then c[w[|w|-2]].time - c[w[|w|-1]].time else 0
  }

  lemma {:induction false} SpanTelescopes(c: seq<Node>, w: seq<nat>)
    requires w != [] && forall i :: 0 <= i < |w| ==> w[i] < |c| && c[w[i]].time > 0
    ensures Span(c, w) == c[w[0]].time - c[w[|w|-1]].time
  {
    if |w| > 1 {
      SpanTelescopes(c, w[..|w|-1]);
    }
  }

  lemma NoSpan(c: seq<Node>, w: seq<nat>)
    requires forall i :: 0 <= i < |w| ==> w[i] < |c|
    ensures Span(c, w[..0]) == 0
  {
  }

  lemma SpanNext(c: seq<Node>, w: seq<nat>, i: nat)
    requires i < |w| && forall i :: 0 <= i < |w| ==> w[i] < |c|
    ensures Span(c, w[..i+1])
            == Span(c, w[..i]) + if i > 0 && c[w[i-1]].time > 0 then c[w[i-1]].time - c[w[i]].time else 0
  {
    assert w[..i+1][..i] == w[..i];
  }

  method Accumulate(c: seq<Node>, w: seq<nat>) returns (average: int, span: int)
    requires w != [] && forall i :: 0 <= i < |w| ==> w[i] < |c| && c[w[i]].bits < WORD
    ensures average == Average(Targets(c, w)) && span == Span(c, w)
  {
    hide SetCompact, Blend, Average, Targets, Span;
    average, span := 0, 0;
    var last := 0;
    assert Span(c, w[..0]) == 0 by { NoSpan(c, w); }
    for i := 0 to |w|
      invariant i > 0 ==> average == Average(Targets(c, w[..i]))
      invariant span == Span(c, w[..i])
      invariant last == if i == 0 then 0 else c[w[i-1]].time
    {
      var b := c[w[i]];
      var count := i + 1;
      AverageNext(c, w, i);
      SpanNext(c, w, i);
      if count == 1 {
        average := SetCompact(b.bits);
      } else {
        average := Blend(average, count, SetCompact(b.bits));
      }
      if last > 0 {
        span := span + (last - b.time);
      }
      last := b.time;
    }
    assert w[..|w|] == w;
  }

  // ------------------------------------------------------------------ the new target

  /** The span, kept between a third and three times the wanted one. */
  function Clamped(span: int, wanted: nat): int {
    if span < wanted / 3 then wanted / 3 else if span > wanted * 3 then wanted * 3 else span
  }

  /** The decay of a KawPow target: virtual blocks, growing with the square of the days without one. */
  function Decay(last: nat, prev: nat, interval: nat): nat
    requires interval > 0
  {
    if last > prev then (last - prev) / interval * ((last - prev) / interval) * (last - prev) else 0
  }

  function NewTarget(average: int, span: int, wanted: nat): int
    requires wanted > 0
  {
    TruncDiv(average * span, wanted)
  }

  /** Without decay the target moves by no more than a factor of three. */
  lemma TargetMovesByThree(average: nat, span: int, spacing: nat, lo: nat, hi: nat)
    requires spacing > 0 && lo <= average <= hi
    ensures var wanted := BLOCKSPAN * spacing;
      lo / 3 <= NewTarget(average, Clamped(span, wanted), wanted) <= 3 * hi
  {
    var wanted := BLOCKSPAN * spacing;
    var s := Clamped(span, wanted);
    var e := 8 * spacing;
    assert wanted == 3 * e && wanted / 3 == e && e <= s <= 9 * e;
    hide Clamped;
    Upper(average, s, e, hi);
    Lower(average, s, e, lo);
    TruncBetween(average * s, 3 * e, lo / 3, 3 * hi);
  }

  /** What the span makes of a target: a third, three times, or its share of the wanted span. */
  lemma TargetBySpan(average: nat, span: int, spacing: nat)
    requires spacing > 0
    ensures var wanted := BLOCKSPAN * spacing;
      NewTarget(average, Clamped(span, wanted), wanted)
      == if 3 * span <= wanted then average / 3 else if span >= 3 * wanted then 3 * average else average * span / wanted
  {
    var wanted := BLOCKSPAN * spacing;
    if 3 * span <= wanted {
      assert Clamped(span, wanted) == 8 * spacing;
      ShareOf(average, 8 * spacing, 3);
    } else if span >= 3 * wanted {
      assert Clamped(span, wanted) == 3 * wanted;
      ShareOf(3 * average, wanted, 1);
      assert average * (3 * wanted) == 3 * average * wanted;
    } else {
      assert Clamped(span, wanted) == span;
      assert average * span >= 0;
    }
  }

  lemma ShareOf(a: nat, e: nat, k: nat)
    requires e > 0 && k > 0
    ensures e * k > 0 && a * e / (e * k) == a / k
  {
    var q, m := a / k, a % k;
    assert a * e == q * (e * k) + m * e;
    assert 0 <= m * e < e * k by { Grows(m + 1, k, e); assert (m + 1) * e == m * e + e; }
    QuotientIs(a * e, q, e * k, m * e);
  }

  /** Blocks that come too fast never raise the target, and blocks that come too slowly never lower it. */
  lemma TargetFollowsSpan(average: nat, span: int, spacing: nat)
    requires spacing > 0
    ensures var wanted := BLOCKSPAN * spacing;
      && (span <= wanted ==> NewTarget(average, Clamped(span, wanted), wanted) <= average)
      && (span >= wanted ==> NewTarget(average, Clamped(span, wanted), wanted) >= average)
  {
    var wanted := BLOCKSPAN * spacing;
    TargetBySpan(average, span, spacing);
    ShareOf(average, wanted, 1);
    if span <= wanted {
      TargetGrowsWithSpan(average, span, wanted, spacing);
    } else {
      TargetGrowsWithSpan(average, wanted, span, spacing);
    }
    TargetBySpan(average, wanted, spacing);
  }

  lemma TargetGrowsWithSpan(average: nat, span: int, longer: int, spacing: nat)
    requires spacing > 0 && span <= longer
    ensures var wanted := BLOCKSPAN * spacing;
      NewTarget(average, Clamped(span, wanted), wanted) <= NewTarget(average, Clamped(longer, wanted), wanted)
  {
    var wanted := BLOCKSPAN * spacing;
    var s, t := Clamped(span, wanted), Clamped(longer, wanted);
    assert 0 <= s <= t;
    Grows(s, t, average);
    QuotientGrows(average * s, average * t, wanted);
  }

  lemma QuotientGrows(a: nat, b: nat, d: nat)
    requires d > 0 && a <= b
    ensures a / d <= b / d
  {
    var q := a / d;
    assert d * q <= a;
    AtMostQuotient(b, d, q);
  }

  lemma Upper(a: nat, s: nat, e: nat, hi: nat)
    requires a <= hi && s <= 9 * e
    ensures a * s <= 3 * hi * (3 * e)
  {
    Grows(a, hi, s);
    Grows(s, 9 * e, hi);
    assert 9 * e * hi == 3 * hi * (3 * e);
  }

  lemma Lower(a: nat, s: nat, e: nat, lo: nat)
    requires lo <= a && e <= s
    ensures lo / 3 * (3 * e) <= a * s
  {
    var t := lo / 3;
    assert 3 * t <= lo;
    Grows(3 * t, a, e);
    Grows(e, s, a);
    assert t * (3 * e) == 3 * t * e;
  }

  /** What a retarget depends on besides the chain. */
  datatype Rules = Rules(limit: int, spacing: nat, firstKawpow: bool, kawpow: bool, testnet: bool)

  predicate Sane(r: Rules) {
    r.limit >= 0 && |Mpi(r.limit)| <= 255 && r.spacing > 0
  }

  /** The target before it is limited, for a full window. */
  function Unlimited(c: seq<Node>, stake: bool, r: Rules, w: seq<nat>): int
    requires |w| == BLOCKSPAN && (forall i :: 0 <= i < |w| ==> w[i] < |c| && c[w[i]].bits < WORD) && c != []
    requires r.spacing > 0
  {
    var wanted := BLOCKSPAN * r.spacing;
    var interval := if r.testnet then r.spacing * BLOCKSPAN else DAY;
    var decay := if !stake && r.kawpow then Decay(c[|c|-1].time, c[w[0]].time, interval) else 0;
    NewTarget(Average(Targets(c, w)), Clamped(Span(c, w), wanted) + decay, wanted)
  }

  /** The code the next block must carry: the limit, or the limited target of a full window. */
  ghost predicate Required(c: seq<Node>, stake: bool, r: Rules, w: seq<nat>, bits: nat)
    requires Chain(c) && r.spacing > 0
  {
    if (stake || !r.firstKawpow) && TypeCount(c, |c| - 1, stake) >= BLOCKSPAN
    then && |w| == BLOCKSPAN && Recent(c, stake, w) && (forall i :: 0 <= i < |w| ==> OfType(c, w[i], stake))
         && bits == GetCompact(if Unlimited(c, stake, r, w) > r.limit then r.limit else Unlimited(c, stake, r, w))
    else bits == GetCompact(r.limit)
  }

  /** BreakoutGravityWave. */
  method GravityWave(c: seq<Node>, stake: bool, r: Rules) returns (bits: nat)
    requires Chain(c) && r.spacing > 0
    ensures exists w :: Required(c, stake, r, w, bits)
  {
    hide GetCompact, SetCompact, Average, Span, NewTarget, Clamped;
    if !stake && r.firstKawpow {
      assert Required(c, stake, r, [], GetCompact(r.limit));
      return GetCompact(r.limit);
    }
    var prev := GetLast(c, |c| - 1, stake);
    var full, v := Window(c, prev, stake);
    if !full {
      assert Required(c, stake, r, [], GetCompact(r.limit));
      return GetCompact(r.limit);
    }
    NewestFirst(c, stake, v, prev);
    var average, span := Accumulate(c, v);
    var wanted := BLOCKSPAN * r.spacing;
    var actual := Clamped(span, wanted);
    if !stake && r.kawpow {
      var delta := if c[|c|-1].time > c[prev].time then c[|c|-1].time - c[prev].time else 0;
      if delta > 0 {
        var interval := if r.testnet then r.spacing * BLOCKSPAN else DAY;
        var days := delta / interval;
        var k := days * days;
        actual := actual + k * delta;
      }
    }
    var next := NewTarget(average, actual, wanted);
    if next > r.limit {
      next := r.limit;
    }
    assert Required(c, stake, r, v, GetCompact(next));
    return GetCompact(next);
  }

  lemma NewestFirst(c: seq<Node>, stake: bool, w: seq<nat>, prev: nat)
    requires |w| == BLOCKSPAN && Recent(c, stake, w) && prev < |c| && (prev > 0 ==> OfType(c, prev, stake))
    requires forall j :: prev < j < |c| ==> !OfType(c, j, stake)
    ensures w[0] == prev
  {
    assert OfType(c, w[0], stake);
  }

  /** Without decay, the unlimited target lies between a third of the smallest and three times the
      largest target in the window. */
  lemma UnlimitedMovesByThree(c: seq<Node>, stake: bool, r: Rules, w: seq<nat>, lo: nat, hi: nat)
    requires c != [] && r.spacing > 0 && (stake || !r.kawpow)
    requires |w| == BLOCKSPAN && forall i :: 0 <= i < |w| ==> w[i] < |c| && c[w[i]].bits < WORD
    requires forall i :: 0 <= i < |w| ==> lo <= SetCompact(c[w[i]].bits) <= hi
    ensures lo / 3 <= Unlimited(c, stake, r, w) <= 3 * hi
  {
    hide SetCompact, NewTarget, Clamped, Span;
    AverageBetween(Targets(c, w), lo, hi);
    hide Average;
    TargetMovesByThree(Average(Targets(c, w)), Span(c, w), r.spacing, lo, hi);
  }

  /** Without decay the required code of a full window is that of the average divided by three when the blocks came
      three times too fast, of three times the average when they came three times too slowly, and otherwise of the
      average times the span over the wanted span; but of the limit when that is lower. */
  lemma RequiredBySpan(c: seq<Node>, stake: bool, r: Rules, w: seq<nat>, bits: nat)
    requires Chain(c) && r.spacing > 0 && Required(c, stake, r, w, bits)
    requires stake || (!r.firstKawpow && !r.kawpow)
    requires TypeCount(c, |c| - 1, stake) >= BLOCKSPAN
    ensures |w| == BLOCKSPAN && Recent(c, stake, w) && forall i :: 0 <= i < |w| ==> w[i] < |c|
    ensures (forall i :: 0 <= i < |w| ==> SetCompact(c[w[i]].bits) >= 0) ==>
              && var average, span, wanted := Average(Targets(c, w)), Span(c, w), BLOCKSPAN * r.spacing;
              && average >= 0
              && var next := if 3 * span <= wanted then average / 3
                             else if span >= 3 * wanted then 3 * average
                             else average * span / wanted;
                 bits == GetCompact(if next > r.limit then r.limit else next)
  {
    hide SetCompact, GetCompact, Average, Span, NewTarget, Clamped, Recent;
    assert forall i :: 0 <= i < |w| ==> OfType(c, w[i], stake);
    if forall i :: 0 <= i < |w| ==> SetCompact(c[w[i]].bits) >= 0 {
      AverageIsMean(Targets(c, w));
      TargetBySpan(Average(Targets(c, w)), Span(c, w), r.spacing);
    }
  }

  /** The decay of n whole days and a rest is the time without a block, times n squared. */
  lemma DecayByDays(last: nat, prev: nat, interval: nat, n: nat)
    requires interval > 0 && last > prev && n * interval <= last - prev < (n + 1) * interval
    ensures Decay(last, prev, interval) == n * n * (last - prev)
  {
    QuotientIs(last - prev, n, interval, last - prev - n * interval);
  }

  lemma NoDecay(last: nat, prev: nat, interval: nat)
    requires interval > 0 && last < prev + interval
    ensures Decay(last, prev, interval) == 0
  {
  }

  /** KawPow: the decay is added to the span after it has been clamped, so that it only ever raises the target. */
  lemma DecayRaises(c: seq<Node>, stake: bool, r: Rules, w: seq<nat>)
    requires |w| == BLOCKSPAN && (forall i :: 0 <= i < |w| ==> w[i] < |c| && c[w[i]].bits < WORD) && c != []
    requires r.spacing > 0 && forall i :: 0 <= i < |w| ==> SetCompact(c[w[i]].bits) >= 0
    ensures Unlimited(c, stake, r.(kawpow := false), w) <= Unlimited(c, stake, r, w)
    ensures stake ==> Unlimited(c, stake, r.(kawpow := false), w) == Unlimited(c, stake, r, w)
  {
    hide SetCompact, Average, Span, Decay;
    AverageIsMean(Targets(c, w));
    var average, wanted := Average(Targets(c, w)), BLOCKSPAN * r.spacing;
    var s := Clamped(Span(c, w), wanted);
    var interval := if r.testnet then r.spacing * BLOCKSPAN else DAY;
    var decay := if !stake && r.kawpow then Decay(c[|c|-1].time, c[w[0]].time, interval) else 0;
    assert 0 <= s <= s + decay;
    Grows(s, s + decay, average);
    QuotientGrows(average * s, average * (s + decay), wanted);
  }

  lemma LimitedDecodes(r: Rules, next: int)
    requires Sane(r)
    ensures SetCompact(GetCompact(if next > r.limit then r.limit else next)) <= r.limit
  {
    var x := if next > r.limit then r.limit else next;
    if x < 0 {
      NegativeStaysBelowZero(x);
    } else if x == 0 {
      ShortIsKept(0);
    } else {
      LengthGrows(x, r.limit);
      LossIsSmall(x);
    }
  }

  /** No required code decodes to more than the limit, whatever the codes of the window spell. */
  lemma RequiredIsWithinLimit(c: seq<Node>, stake: bool, r: Rules, w: seq<nat>, bits: nat)
    requires Chain(c) && Sane(r) && Required(c, stake, r, w, bits)
    ensures bits < WORD && SetCompact(bits) <= r.limit
  {
    hide Mpi, Recent, Unlimited, SetCompact, GetCompact, TypeCount;
    LimitedDecodes(r, r.limit);
    if (stake || !r.firstKawpow) && TypeCount(c, |c| - 1, stake) >= BLOCKSPAN {
      LimitedDecodes(r, Unlimited(c, stake, r, w));
    }
  }
}
