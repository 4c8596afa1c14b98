/** The stake modifier: which blocks contribute its bits. */
module StakeModifier {

  import opened Arithmetic

  const MODIFIER_INTERVAL_RATIO := 3
  const ROUNDS := 64

  /** The fields of a block index entry that the selection reads. */
  datatype Node = Node(hash: nat, time: nat, modifier: nat, generated: bool, stake: bool, entropy: nat, proof: nat)

  type Index = map<nat, Node>

  /** The hash of a proof with a modifier, and the modifier interval in force at a time. */
  datatype Rules = Rules(mix: (nat, nat) -> nat, interval: nat -> nat)

  /** A chain from the genesis block to a tip, every block of it in mapBlockIndex. */
  predicate WellFormed(chain: seq<Node>, index: Index) {
    && (forall i :: 0 <= i < |chain| ==> chain[i].hash in index && index[chain[i].hash] == chain[i])
    && (forall i, j :: 0 <= i < j < |chain| ==> chain[i].hash != chain[j].hash)
    && (forall i :: 0 <= i < |chain| ==> chain[i].entropy <= 1)
    && (chain != [] ==> chain[0].generated)
  }

  // ------------------------------------------------------------------ bits

  function Bit(m: nat, i: nat): nat {
    if i == 0 then m % 2 else Bit(m / 2, i - 1)
  }

  function Or(a: nat, b: nat): nat {
    if a == 0 && b == 0 then 0
    else 2 * Or(a / 2, b / 2) + if a % 2 == 1 || b % 2 == 1 then 1 else 0
  }

  function Shl(b: nat, r: nat): nat {
    if r == 0 then b else 2 * Shl(b, r - 1)
  }

  lemma {:induction false} BitOr(a: nat, b: nat, i: nat)
    ensures Bit(Or(a, b), i) == if Bit(a, i) == 1 || Bit(b, i) == 1 then 1 else 0
    ensures Bit(a, i) <= 1
    decreases i
  {
    if i > 0 {
      BitOr(a / 2, b / 2, i - 1);
    }
  }

  lemma {:induction false} BitShl(b: nat, r: nat, i: nat)
    requires b <= 1
    ensures Bit(Shl(b, r), i) == if i == r then b else 0
    decreases i
  {
    if r == 0 {
      if i > 0 {
        BitZero(i - 1);
      }
    } else if i > 0 {
      BitShl(b, r - 1, i - 1);
    }
  }

  lemma {:induction false} BitZero(i: nat)
    ensures Bit(0, i) == 0
  {
    if i > 0 {
      BitZero(i - 1);
    }
  }

  /** What the lowest k bits spell. */
  function Spelled(m: nat, k: nat): nat {
    if k == 0 then 0 else Spelled(m, k - 1) + Bit(m, k - 1) * Power2(k - 1)
  }

  lemma {:induction false} SpelledHalf(m: nat, k: nat)
    ensures Spelled(m, k + 1) == m % 2 + 2 * Spelled(m / 2, k)
  {
    if k == 0 {
      assert Spelled(m, 1) == Spelled(m, 0) + Bit(m, 0) * Power2(0);
    } else {
      SpelledHalf(m, k - 1);
      assert Bit(m, k) == Bit(m / 2, k - 1) && Power2(k) == 2 * Power2(k - 1);
    }
  }

  /** The bits are the binary digits of the number. */
  lemma {:induction false} BitsSpell(m: nat, k: nat)
    requires m < Power2(k)
    ensures Spelled(m, k) == m
    decreases k
  {
    if k > 0 {
      BitsSpell(m / 2, k - 1);
      SpelledHalf(m, k - 1);
    }
  }

  // ------------------------------------------------------------------ the selection interval

  function Quotient(n: nat, d: nat): nat
    requires d > 0
  {
    n / d
  }

  /** GetStakeModifierSelectionIntervalSection. */
  function Section(interval: nat, s: nat): nat
    requires s < ROUNDS
  {
    Quotient(interval * 63, 63 + (63 - s) * (MODIFIER_INTERVAL_RATIO - 1))
  }

  /** Section s is the part 63 of 63 + 2 (63 - s) of the interval, rounded down. */
  lemma SectionShare(interval: nat, s: nat)
    requires s < ROUNDS
    ensures Section(interval, s) * (189 - 2 * s) <= 63 * interval < (Section(interval, s) + 1) * (189 - 2 * s)
  {
    var d := 63 + (63 - s) * 2;
    var q := Quotient(interval * 63, d);
    assert interval * 63 == q * d + interval * 63 % d;
    assert (q + 1) * d == q * d + d;
  }

  /** The sections grow, from a third of the interval to the whole of it. */
  lemma SectionRatio(interval: nat, s: nat, t: nat)
    requires s <= t < ROUNDS
    ensures interval / MODIFIER_INTERVAL_RATIO == Section(interval, 0) <= Section(interval, s)
            <= Section(interval, t) <= Section(interval, 63) == interval
  {
    assert interval * 63 / 189 == interval / 3;
    QuotientFalls(interval * 63, 63 + (63 - s) * 2, 189);
    QuotientFalls(interval * 63, 63 + (63 - t) * 2, 63 + (63 - s) * 2);
    QuotientFalls(interval * 63, 63, 63 + (63 - t) * 2);
  }

  function Sections(interval: nat, n: nat): nat
    requires n <= ROUNDS
  {
    if n == 0 then 0 else Sections(interval, n - 1) + Section(interval, n - 1)
  }

  method SelectionInterval(interval: nat) returns (sum: nat)
    ensures sum == Sections(interval, ROUNDS)
  {
    sum := 0;
    for s := 0 to ROUNDS
      invariant sum == Sections(interval, s)
    {
      sum := sum + Section(interval, s);
    }
  }

  // ------------------------------------------------------------------ the last modifier

  predicate LastGenerated(chain: seq<Node>, k: nat) {
    k < |chain| && chain[k].generated && forall j :: k < j < |chain| ==> !chain[j].generated
  }

  method GetLast(chain: seq<Node>) returns (ok: bool, modifier: nat, time: nat, ghost at: nat)
    ensures ok <==> exists k :: 0 <= k < |chain| && chain[k].generated
    ensures ok ==> LastGenerated(chain, at) && modifier == chain[at].modifier && time == chain[at].time
  {
    if chain == [] {
      return false, 0, 0, 0;
    }
    var k := |chain| - 1;
    while k > 0 && !chain[k].generated
      invariant 0 <= k < |chain|
      invariant forall j :: k < j < |chain| ==> !chain[j].generated
    {
      k := k - 1;
    }
    if !chain[k].generated {
      return false, 0, 0, 0;
    }
    return true, chain[k].modifier, chain[k].time, k;
  }

  // ------------------------------------------------------------------ sorting the candidates

  datatype Cand = Cand(time: nat, hash: nat)

  predicate Leq(a: Cand, b: Cand) {
    a.time < b.time || (a.time == b.time && a.hash <= b.hash)
  }

  predicate Sorted(s: seq<Cand>) {
    forall i, j :: 0 <= i < j < |s| ==> Leq(s[i], s[j])
  }

  function Insert(s: seq<Cand>, c: Cand): (r: seq<Cand>)
    ensures |r| == |s| + 1
    ensures forall x :: x in r <==> x in s || x == c
  {
    if s == [] || Leq(s[|s|-1], c) then s + [c]
    else
      assert forall x :: x in s <==> x in s[..|s|-1] || x == s[|s|-1] by { assert s == s[..|s|-1] + [s[|s|-1]]; }
      Insert(s[..|s|-1], c) + [s[|s|-1]]
  }

  lemma {:induction false} InsertSorted(s: seq<Cand>, c: Cand)
    requires Sorted(s)
    ensures Sorted(Insert(s, c))
  {
    if s != [] && !Leq(s[|s|-1], c) {
      var rest, last := s[..|s|-1], s[|s|-1];
      InsertSorted(rest, c);
      forall i | 0 <= i < |rest| + 1
        ensures Leq(Insert(rest, c)[i], last)
      {
        assert Insert(rest, c)[i] in Insert(rest, c);
        assert Insert(rest, c)[i] in rest || Insert(rest, c)[i] == c;
      }
    }
  }

  /** The candidates in the order of (time, hash). */
  function Sort(s: seq<Cand>): (r: seq<Cand>)
    ensures |r| == |s| && Sorted(r)
    ensures forall x :: x in r <==> x in s
  {
    if s == [] then [] else
      assert forall x :: x in s <==> x in s[..|s|-1] || x == s[|s|-1] by { assert s == s[..|s|-1] + [s[|s|-1]]; }
      InsertSorted(Sort(s[..|s|-1]), s[|s|-1]);
      Insert(Sort(s[..|s|-1]), s[|s|-1])
  }

  // ------------------------------------------------------------------ selecting one block

  /** The hash a candidate is judged by; a proof-of-stake block is favoured. */
  function SelectionHash(n: Node, rules: Rules, modifier: nat): nat {
    var h := rules.mix(n.proof, modifier);
    if n.stake then h / 0x1_0000_0000 else h
  }

  predicate Known(cands: seq<Cand>, index: Index) {
    forall i :: 0 <= i < |cands| ==>
      cands[i].hash in index && index[cands[i].hash].hash == cands[i].hash && index[cands[i].hash].time == cands[i].time
  }

  predicate Open(c: Cand, chosen: set<nat>) {
    c.hash !in chosen
  }

  predicate InTime(c: Cand, chosen: set<nat>, stop: int) {
    Open(c, chosen) && c.time <= stop
  }

  function HashOf(c: Cand, index: Index, rules: Rules, modifier: nat): nat
    requires c.hash in index
  {
    SelectionHash(index[c.hash], rules, modifier)
  }

  /** What a round picks: among the open candidates not after the stop time the first with the lowest
      hash, or else the first open candidate. */
  ghost predicate IsPick(cands: seq<Cand>, index: Index, rules: Rules, modifier: nat, chosen: set<nat>, stop: int,
                         k: nat)
    requires Known(cands, index)
  {
    && k < |cands| && Open(cands[k], chosen)
    && if exists j :: 0 <= j < |cands| && InTime(cands[j], chosen, stop)
       then && InTime(cands[k], chosen, stop)
            && (forall j :: 0 <= j < |cands| && InTime(cands[j], chosen, stop) ==>
                 HashOf(cands[k], index, rules, modifier) <= HashOf(cands[j], index, rules, modifier))
            && (forall j :: 0 <= j < k && InTime(cands[j], chosen, stop) ==>
                 HashOf(cands[k], index, rules, modifier) < HashOf(cands[j], index, rules, modifier))
       else forall j :: 0 <= j < k ==> !Open(cands[j], chosen)
  }

  lemma PickIsUnique(cands: seq<Cand>, index: Index, rules: Rules, modifier: nat, chosen: set<nat>, stop: int, k: nat,
                     l: nat)
    requires Known(cands, index)
    requires IsPick(cands, index, rules, modifier, chosen, stop, k)
             && IsPick(cands, index, rules, modifier, chosen, stop, l)
    ensures k == l
  {
  }

  const STAKE_ADVANTAGE := 0x1_0000_0000

  /** What the mixed hashes of two blocks say about which is picked: those of two blocks of one kind are compared
      as they are, a stake block's counting in units of 2 to the power 32, and against a work block a stake block's
      counts 2 to the power 32 times less. */
  predicate NotBehind(m: nat, stake: bool, other: nat, otherStake: bool) {
    if stake && otherStake then m / STAKE_ADVANTAGE <= other / STAKE_ADVANTAGE
    else if stake then m < (other + 1) * STAKE_ADVANTAGE
    else if otherStake then m * STAKE_ADVANTAGE <= other
    else m <= other
  }

  lemma HashOrder(n: Node, o: Node, rules: Rules, modifier: nat)
    ensures SelectionHash(n, rules, modifier) <= SelectionHash(o, rules, modifier)
            <==> NotBehind(rules.mix(n.proof, modifier), n.stake, rules.mix(o.proof, modifier), o.stake)
  {
  }

  /** The pick among the blocks in time, in terms of their mixed hashes and kinds; of blocks that are level the
      first one is picked. */
  lemma PickByMix(cands: seq<Cand>, index: Index, rules: Rules, modifier: nat, chosen: set<nat>, stop: int, k: nat)
    requires Known(cands, index) && k < |cands| && cands[k].hash !in chosen && cands[k].time <= stop
    ensures IsPick(cands, index, rules, modifier, chosen, stop, k)
            <==> forall j :: 0 <= j < |cands| && cands[j].hash !in chosen && cands[j].time <= stop ==>
                   var n, o := index[cands[k].hash], index[cands[j].hash];
                   && NotBehind(rules.mix(n.proof, modifier), n.stake, rules.mix(o.proof, modifier), o.stake)
                   && (j < k ==>
                         !NotBehind(rules.mix(o.proof, modifier), o.stake, rules.mix(n.proof, modifier), n.stake))
  {
    hide SelectionHash, NotBehind;
    assert InTime(cands[k], chosen, stop);
    forall j | 0 <= j < |cands|
      ensures var n, o := index[cands[k].hash], index[cands[j].hash];
        && (HashOf(cands[k], index, rules, modifier) <= HashOf(cands[j], index, rules, modifier)
            <==> NotBehind(rules.mix(n.proof, modifier), n.stake, rules.mix(o.proof, modifier), o.stake))
        && (HashOf(cands[j], index, rules, modifier) <= HashOf(cands[k], index, rules, modifier)
            <==> NotBehind(rules.mix(o.proof, modifier), o.stake, rules.mix(n.proof, modifier), n.stake))
    {
      HashOrder(index[cands[k].hash], index[cands[j].hash], rules, modifier);
      HashOrder(index[cands[j].hash], index[cands[k].hash], rules, modifier);
    }
  }

  /** A work block in time is picked only if its mixed hash is 2 to the power 32 times below that of every open
      stake block in time. */
  lemma WorkBehindStake(cands: seq<Cand>, index: Index, rules: Rules, modifier: nat, chosen: set<nat>, stop: int,
                        k: nat, j: nat)
    requires Known(cands, index) && IsPick(cands, index, rules, modifier, chosen, stop, k)
    requires j < |cands| && cands[j].hash !in chosen && cands[j].time <= stop
    requires k < |cands| && !index[cands[k].hash].stake && index[cands[j].hash].stake
    ensures cands[k].time <= stop
    ensures rules.mix(index[cands[k].hash].proof, modifier) * 0x1_0000_0000
            <= rules.mix(index[cands[j].hash].proof, modifier)
  {
    assert InTime(cands[j], chosen, stop);
    PickByMix(cands, index, rules, modifier, chosen, stop, k);
  }

  /** SelectBlockFromCandidates: it finds a block as long as one is open. */
  method SelectBlock(cands: seq<Cand>, index: Index, rules: Rules, modifier: nat, chosen: set<nat>, stop: int)
    returns (ok: bool, pick: nat)
    requires Sorted(cands)
    ensures Known(cands, index) ==> (ok <==> exists j :: 0 <= j < |cands| && Open(cands[j], chosen))
    ensures Known(cands, index) && ok ==> IsPick(cands, index, rules, modifier, chosen, stop, pick)
  {
    hide SelectionHash;
    ghost var known := Known(cands, index);
    ok, pick := false, 0;
    var best := 0;
    var i := 0;
    while i < |cands|
      invariant 0 <= i <= |cands|
      invariant known && !ok ==> forall j :: 0 <= j < i ==> !Open(cands[j], chosen)
      invariant known && ok ==>
                  pick < i && Open(cands[pick], chosen) && best == HashOf(cands[pick], index, rules, modifier)
      invariant known && ok && cands[pick].time > stop ==>
                  forall j :: 0 <= j < i && j != pick ==> !Open(cands[j], chosen)
      invariant known && ok && cands[pick].time <= stop ==> forall j :: 0 <= j < i && Open(cands[j], chosen) ==>
        && cands[j].time <= stop && best <= HashOf(cands[j], index, rules, modifier)
        && (j < pick ==> best < HashOf(cands[j], index, rules, modifier))
    {
      if cands[i].hash !in index {
        return false, 0;
      }
      var node := index[cands[i].hash];
      if ok && node.time > stop {
        assert known ==> forall j :: i <= j < |cands| ==> cands[j].time > stop;
        return;
      }
      if node.hash !in chosen {
        var h := SelectionHash(node, rules, modifier);
        if ok && h < best {
          best, pick := h, i;
        } else if !ok {
          ok, best, pick := true, h, i;
        }
      }
      i := i + 1;
    }
  }

  // ------------------------------------------------------------------ the candidates

  function CandsFrom(chain: seq<Node>, lo: nat): (r: seq<Cand>)
    requires lo <= |chain|
    ensures |r| == |chain| - lo && forall i :: 0 <= i < |r| ==> r[i] == Cand(chain[lo + i].time, chain[lo + i].hash)
    decreases |chain| - lo
  {
    if lo == |chain| then [] else [Cand(chain[lo].time, chain[lo].hash)] + CandsFrom(chain, lo + 1)
  }

  /** The blocks at the end of the chain that are not before the start of the interval. */
  predicate FirstCandidate(chain: seq<Node>, start: int, lo: nat) {
    && lo <= |chain| && (forall j :: lo <= j < |chain| ==> chain[j].time >= start)
    && (lo > 0 ==> chain[lo-1].time < start)
  }

  function Reverse(s: seq<Cand>): seq<Cand> {
    if s == [] then [] else [s[|s|-1]] + Reverse(s[..|s|-1])
  }

  method Collect(chain: seq<Node>, start: int) returns (v: seq<Cand>, lo: nat)
    ensures FirstCandidate(chain, start, lo) && v == Sort(CandsFrom(chain, lo))
    ensures forall i, j :: 0 <= i < j < |v| ==>
              v[i].time < v[j].time || (v[i].time == v[j].time && v[i].hash <= v[j].hash)
  {
    v := [];
    var k := |chain|;
    while k > 0 && chain[k-1].time >= start
      invariant 0 <= k <= |chain|
      invariant forall j :: k <= j < |chain| ==> chain[j].time >= start
      invariant Reverse(v) == CandsFrom(chain, k)
    {
      var c := Cand(chain[k-1].time, chain[k-1].hash);
      assert (v + [c])[..|v|] == v;
      v := v + [c];
      k := k - 1;
    }
    lo := k;
    v := Sort(Reverse(v));
  }

  function HashSet(s: seq<Cand>): set<nat> {
    set i | 0 <= i < |s| :: s[i].hash
  }

  lemma SameHashSet(s: seq<Cand>, r: seq<Cand>)
    requires forall x :: x in s <==> x in r
    ensures HashSet(s) == HashSet(r)
  {
    forall h | h in HashSet(s) ensures h in HashSet(r) {
      var i :| 0 <= i < |s| && s[i].hash == h;
      assert s[i] in r;
    }
    forall h | h in HashSet(r) ensures h in HashSet(s) {
      var i :| 0 <= i < |r| && r[i].hash == h;
      assert r[i] in s;
    }
  }

  lemma {:induction false} HashSetSize(s: seq<Cand>)
    requires forall i, j :: 0 <= i < j < |s| ==> s[i].hash != s[j].hash
    ensures |HashSet(s)| == |s|
  {
    if s != [] {
      var k := |s| - 1;
      HashSetSize(s[..k]);
      assert HashSet(s) == HashSet(s[..k]) + {s[k].hash};
      assert s[k].hash !in HashSet(s[..k]);
    }
  }

  /** What the rounds rely on. */
  lemma CandidateFacts(chain: seq<Node>, index: Index, lo: nat)
    requires WellFormed(chain, index) && lo <= |chain|
    ensures var v := Sort(CandsFrom(chain, lo));
      Known(v, index) && |HashSet(v)| == |v| == |chain| - lo
        && forall i :: 0 <= i < |v| ==> index[v[i].hash].entropy <= 1
  {
    var w := CandsFrom(chain, lo);
    var v := Sort(w);
    hide CandsFrom, Sort;
    HashSetSize(w);
    SameHashSet(v, w);
    forall i | 0 <= i < |v|
      ensures v[i].hash in index && index[v[i].hash].hash == v[i].hash && index[v[i].hash].time == v[i].time
              && index[v[i].hash].entropy <= 1
    {
      assert v[i] in w;
      var j :| 0 <= j < |w| && w[j] == v[i];
      assert chain[lo + j].hash in index;
    }
  }

  lemma SomeOpen(v: seq<Cand>, chosen: set<nat>)
    requires |HashSet(v)| == |v| && |chosen| < |v|
    ensures exists j :: 0 <= j < |v| && Open(v[j], chosen)
  {
    if forall j :: 0 <= j < |v| ==> !Open(v[j], chosen) {
      assert HashSet(v) <= chosen;
      SubsetSize(HashSet(v), chosen);
    }
  }

  lemma SubsetSize(s: set<nat>, t: set<nat>)
    requires s <= t
    ensures |s| <= |t|
  {
    assert t == s + (t - s);
  }

  // ------------------------------------------------------------------ all rounds

  function Chosen(v: seq<Cand>, picks: seq<nat>): set<nat>
    requires forall i :: 0 <= i < |picks| ==> picks[i] < |v|
  {
    if picks == [] then {} else Chosen(v, picks[..|picks|-1]) + {v[picks[|picks|-1]].hash}
  }

  lemma {:induction false} ChosenHas(v: seq<Cand>, picks: seq<nat>, i: nat)
    requires forall i :: 0 <= i < |picks| ==> picks[i] < |v|
    requires i < |picks|
    ensures v[picks[i]].hash in Chosen(v, picks)
  {
    if i < |picks| - 1 {
      ChosenHas(v, picks[..|picks|-1], i);
    }
  }

  /** Every round has picked as it should, given what the rounds before it picked. */
  ghost predicate RoundsPick(v: seq<Cand>, index: Index, rules: Rules, modifier: nat, start: int, interval: nat,
                             picks: seq<nat>)
    requires Known(v, index)
  {
    && |picks| <= ROUNDS && (forall i :: 0 <= i < |picks| ==> picks[i] < |v|)
    && (forall r :: 0 <= r < |picks| ==>
          IsPick(v, index, rules, modifier, Chosen(v, picks[..r]), start + Sections(interval, r + 1), picks[r]))
  }

  lemma PicksAreDistinct(v: seq<Cand>, index: Index, rules: Rules, modifier: nat, start: int, interval: nat,
                         picks: seq<nat>)
    requires Known(v, index) && RoundsPick(v, index, rules, modifier, start, interval, picks)
    ensures forall i, j :: 0 <= i < j < |picks| ==> v[picks[i]].hash != v[picks[j]].hash
  {
    hide IsPick, Sections, Chosen;
    forall i, j | 0 <= i < j < |picks|
      ensures v[picks[i]].hash != v[picks[j]].hash
    {
      ChosenHas(v, picks[..j], i);
      PickIsOpen(v, index, rules, modifier, Chosen(v, picks[..j]), start + Sections(interval, j + 1), picks[j]);
    }
  }

  /** Bit r of the modifier is the entropy bit of the block picked in round r. */
  ghost predicate BitsAre(m: nat, v: seq<Cand>, index: Index, picks: seq<nat>)
    requires Known(v, index) && forall i :: 0 <= i < |picks| ==> picks[i] < |v|
  {
    forall i :: 0 <= i ==> Bit(m, i) == if i < |picks| then index[v[picks[i]].hash].entropy else 0
  }

  lemma BitsNext(m: nat, v: seq<Cand>, index: Index, picks: seq<nat>, k: nat)
    requires Known(v, index) && (forall i :: 0 <= i < |picks| ==> picks[i] < |v|) && k < |v|
    requires BitsAre(m, v, index, picks) && index[v[k].hash].entropy <= 1
    ensures BitsAre(Or(m, Shl(index[v[k].hash].entropy, |picks|)), v, index, picks + [k])
  {
    hide Bit, Or, Shl;
    var b := index[v[k].hash].entropy;
    forall i | 0 <= i
      ensures Bit(Or(m, Shl(b, |picks|)), i) == if i < |picks| + 1 then index[v[(picks + [k])[i]].hash].entropy else 0
    {
      BitOr(m, Shl(b, |picks|), i);
      BitShl(b, |picks|, i);
    }
  }

  method SelectRounds(v: seq<Cand>, index: Index, rules: Rules, modifier: nat, start: int, interval: nat)
    returns (ok: bool, m: nat, ghost picks: seq<nat>)
    requires Sorted(v) && Known(v, index) && |HashSet(v)| == |v|
    requires forall i :: 0 <= i < |v| ==> index[v[i].hash].entropy <= 1
    ensures ok && |picks| == (if |v| < ROUNDS then |v| else ROUNDS)
    ensures RoundsPick(v, index, rules, modifier, start, interval, picks) && BitsAre(m, v, index, picks)
  {
    hide IsPick, HashSet, Bit, Or, Shl, Section, Known, RoundsPick, BitsAre;
    m, picks := 0, [];
    var chosen: set<nat> := {};
    var stop := start;
    var n := if |v| < ROUNDS then |v| else ROUNDS;
    NothingPicked(v, index, rules, modifier, start, interval);
    for r := 0 to n
      invariant |picks| == r && (forall i :: 0 <= i < |picks| ==> picks[i] < |v|)
      invariant stop == start + Sections(interval, r)
      invariant chosen == Chosen(v, picks) && |chosen| == r
      invariant RoundsPick(v, index, rules, modifier, start, interval, picks) && BitsAre(m, v, index, picks)
    {
      stop := stop + Section(interval, r);
      SomeOpen(v, chosen);
      var k;
      ok, k := SelectBlock(v, index, rules, modifier, chosen, stop);
      if !ok {
        return;
      }
      PickIsOpen(v, index, rules, modifier, chosen, stop, k);
      BitsNext(m, v, index, picks, k);
      var node := index[v[k].hash];
      m := Or(m, Shl(node.entropy, r));
      chosen := chosen + {node.hash};
      RoundsNext(v, index, rules, modifier, start, interval, picks, k);
      picks := picks + [k];
    }
    ok := true;
  }

  lemma NothingPicked(v: seq<Cand>, index: Index, rules: Rules, modifier: nat, start: int, interval: nat)
    requires Known(v, index)
    ensures RoundsPick(v, index, rules, modifier, start, interval, []) && BitsAre(0, v, index, [])
  {
    hide Bit;
    forall i | 0 <= i ensures Bit(0, i) == 0 { BitZero(i); }
  }

  lemma PickIsOpen(v: seq<Cand>, index: Index, rules: Rules, modifier: nat, chosen: set<nat>, stop: int, k: nat)
    requires Known(v, index) && IsPick(v, index, rules, modifier, chosen, stop, k)
    ensures k < |v| && v[k].hash !in chosen && v[k].hash in index && index[v[k].hash].hash == v[k].hash
  {
  }

  lemma ChosenNext(v: seq<Cand>, picks: seq<nat>, k: nat)
    requires (forall i :: 0 <= i < |picks| ==> picks[i] < |v|) && k < |v|
    ensures Chosen(v, picks + [k]) == Chosen(v, picks) + {v[k].hash}
  {
    assert (picks + [k])[..|picks|] == picks;
  }

  lemma RoundsNext(v: seq<Cand>, index: Index, rules: Rules, modifier: nat, start: int, interval: nat,
                   picks: seq<nat>, k: nat)
    requires Known(v, index) && RoundsPick(v, index, rules, modifier, start, interval, picks) && |picks| < ROUNDS
             && k < |v|
    requires IsPick(v, index, rules, modifier, Chosen(v, picks), start + Sections(interval, |picks| + 1), k)
    ensures RoundsPick(v, index, rules, modifier, start, interval, picks + [k])
    ensures Chosen(v, picks + [k]) == Chosen(v, picks) + {v[k].hash}
  {
    hide IsPick, Sections, Chosen;
    ChosenNext(v, picks, k);
    var picks' := picks + [k];
    assert picks'[..|picks|] == picks;
    forall r | 0 <= r < |picks'|
      ensures IsPick(v, index, rules, modifier, Chosen(v, picks'[..r]), start + Sections(interval, r + 1), picks'[r])
    {
      assert r < |picks| ==> picks'[..r] == picks[..r];
    }
  }

  // ------------------------------------------------------------------ the next modifier

  /** ComputeNextStakeModifier: on a well-formed chain it never fails.  A modifier is generated when the
      tip is in a later interval than the last one generated; the last section ends at the tip's interval. */
  method ComputeNext(chain: seq<Node>, index: Index, rules: Rules)
    returns (ok: bool, modifier: nat, generated: bool, ghost last: nat, ghost lo: nat, ghost picks: seq<nat>)
    requires WellFormed(chain, index)
    requires chain != [] ==> rules.interval(chain[|chain|-1].time) > 0
    ensures ok
    ensures chain == [] ==> modifier == 0 && generated
    ensures chain != [] ==>
      && var tip := chain[|chain|-1];
      && var interval := rules.interval(tip.time);
      && LastGenerated(chain, last)
      && (generated <==> chain[last].time / interval < tip.time / interval)
      && (!generated ==> modifier == chain[last].modifier)
      && (generated ==>
            && var boundary := tip.time / interval * interval;
            && var start := boundary - Sections(interval, ROUNDS);
            && FirstCandidate(chain, start, lo)
            && var v := Sort(CandsFrom(chain, lo));
            && Known(v, index) && |picks| == (if |v| < ROUNDS then |v| else ROUNDS)
            && RoundsPick(v, index, rules, chain[last].modifier, start, interval, picks)
            && BitsAre(modifier, v, index, picks)
            && (|picks| == ROUNDS ==> start + Sections(interval, |picks|) == boundary))
  {
    hide RoundsPick, BitsAre, Section, Sections, CandsFrom, Sort, Known, HashSet;
    ok, modifier, generated, last, lo, picks := true, 0, false, 0, 0, [];
    if chain == [] {
      generated := true;
      return;
    }
    var tip := chain[|chain|-1];
    var interval := rules.interval(tip.time);
    var time;
    ok, modifier, time, last := GetLast(chain);
    if !ok {
      return;
    }
    if time / interval >= tip.time / interval {
      return;
    }
    var span := SelectionInterval(interval);
    var start := tip.time / interval * interval - span;
    var v, first := Collect(chain, start);
    lo := first;
    CandidateFacts(chain, index, lo);
    var m;
    ok, m, picks := SelectRounds(v, index, rules, modifier, start, interval);
    modifier, generated := m, true;
  }
}
