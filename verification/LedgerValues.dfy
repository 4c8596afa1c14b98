/** Money supply and total mint, per color, as ConnectBlock keeps them. */
module LedgerValues {
  import opened Options
  import opened Ledger

  const SIS := 57
  const FORK001 := 1
  const FORK004 := 4
  const FORK005 := 5
  const BURN_PROTOCOL_START_TIME := 1468004400

  datatype Amount = Amount(color: int, value: int)

  /** The fields of CBlockIndex the value accounting reads and writes. */
  datatype BlockIndex = BlockIndex(time: int, height: nat, supply: seq<int>, mint: seq<int>)
  {
    predicate Valid() { |supply| == N_COLORS && |mint| == N_COLORS }
  }

  /** Consensus tables, and the checks on signatures, maturity, sizes, times, ranges and
      minimum fees, which may refuse a block or a transaction for reasons of their own. */
  datatype Rules = Rules(
    fork: int -> int,
    scavengable: int -> bool,
    mintColor: int -> int,
    powReward: BlockIndex -> Amount,
    posReward: (BlockIndex, int) -> int,
    blockOk: (BlockIndex, Block) -> bool,
    txOk: (BlockIndex, Block, nat, Index) -> bool)

  // ------------------------------------------------------------------ tallies

  function OutSum(vout: seq<TxOut>, c: int): int {
    if vout == [] then 0
    else OutSum(vout[..|vout|-1], c) + (if vout[|vout|-1].color == c then vout[|vout|-1].value else 0)
  }

  function InValue(v: Index, o: OutPoint, c: int): int {
    if Found(v, o) && v[o.hash].vout[o.n].color == c then v[o.hash].vout[o.n].value else 0
  }

  function InSum(v: Index, ins: seq<OutPoint>, c: int): int {
    if ins == [] then 0 else InSum(v, ins[..|ins|-1], c) + InValue(v, ins[|ins|-1], c)
  }

  /** Value that transaction j of the block takes in. */
  function TxIn(db: Index, b: Block, j: nat, c: int): int
    requires j < |b.vtx|
  {
    if b.vtx[j].IsCoinBase() || ApplyTxs(db, b, j).None? then 0
    else InSum(ApplyTxs(db, b, j).value, b.vtx[j].vin, c)
  }

  function BlockIn(db: Index, b: Block, i: nat, c: int): int
    requires i <= |b.vtx|
  {
    if i == 0 then 0 else BlockIn(db, b, i - 1, c) + TxIn(db, b, i - 1, c)
  }

  function BlockOut(b: Block, i: nat, c: int): int
    requires i <= |b.vtx|
  {
    if i == 0 then 0 else BlockOut(b, i - 1, c) + OutSum(b.vtx[i-1].vout, c)
  }

  /** In minus out over the transactions that are not the coinbase. */
  function NetFees(db: Index, b: Block, i: nat, c: int): int
    requires i <= |b.vtx|
  {
    if i == 0 then 0
    else NetFees(db, b, i - 1, c)
         + (if b.vtx[i-1].IsCoinBase() then 0 else TxIn(db, b, i - 1, c) - OutSum(b.vtx[i-1].vout, c))
  }

  function BurnSum(vout: seq<TxOut>, c: int): int {
    if vout == [] then 0
    else BurnSum(vout[..|vout|-1], c)
         + (if vout[|vout|-1].color == c && vout[|vout|-1].kind == NullData then vout[|vout|-1].value else 0)
  }

  function BlockBurn(b: Block, i: nat, c: int): int
    requires i <= |b.vtx|
  {
    if i == 0 then 0 else BlockBurn(b, i - 1, c) + BurnSum(b.vtx[i-1].vout, c)
  }

  function Burned(prevTime: int, b: Block, c: int): int {
    if prevTime >= BURN_PROTOCOL_START_TIME then BlockBurn(b, |b.vtx|, c) else 0
  }

  // ------------------------------------------------------------------ mint and supply after a block

  predicate IsReset(rules: Rules, prev: BlockIndex, b: Block) {
    rules.fork(prev.time) == FORK004 && rules.fork(b.time) == FORK005
  }

  /** The total mint a block starts from: the reset makes it the supply, for SIS. */
  function MintBefore(rules: Rules, prev: BlockIndex, b: Block, c: int): int
    requires prev.Valid() && CheckColor(c)
  {
    if c == SIS && IsReset(rules, prev, b) then prev.supply[c] else prev.mint[c]
  }

  function Scavenged(rules: Rules, prev: BlockIndex, b: Block, c: int): int
    requires prev.Valid() && CheckColor(c)
  {
    if rules.scavengable(c) && !b.IsProofOfStake() then MintBefore(rules, prev, b, c) - prev.supply[c] else 0
  }

  /** What the coinbase may pay out in color c besides the reward. */
  function Fees(rules: Rules, prev: BlockIndex, db: Index, b: Block, c: int): int
    requires prev.Valid() && CheckColor(c)
  {
    (if rules.scavengable(c) then NetFees(db, b, |b.vtx|, c) else 0) + Scavenged(rules, prev, b, c)
  }

  function Reward(rules: Rules, prev: BlockIndex, b: Block): Amount {
    if b.IsProofOfStake()
    then var stake := if b.vtx[1].vout == [] then 0 else b.vtx[1].vout[0].color;
         Amount(rules.mintColor(stake), rules.posReward(prev, stake))
    else rules.powReward(prev)
  }

  function NewMint(rules: Rules, prev: BlockIndex, b: Block, c: int): int
    requires prev.Valid() && CheckColor(c)
  {
    var r := Reward(rules, prev, b);
    (if c != r.color then MintBefore(rules, prev, b, c)
     else if b.IsProofOfStake() then prev.mint[c] + r.value
     else MintBefore(rules, prev, b, c) + r.value)
    - Burned(prev.time, b, c)
  }

  function NewSupply(prev: BlockIndex, db: Index, b: Block, c: int): int
    requires prev.Valid() && CheckColor(c)
  {
    prev.supply[c] + BlockOut(b, |b.vtx|, c) - BlockIn(db, b, |b.vtx|, c) - Burned(prev.time, b, c)
  }

  function NextIndex(rules: Rules, prev: BlockIndex, db: Index, b: Block): (next: BlockIndex)
    requires prev.Valid()
    ensures next.Valid() && next.time == b.time && next.height == prev.height + 1
    ensures next.supply[0] == 0 && next.mint[0] == prev.mint[0]
    ensures forall c :: CheckColor(c) ==> next.supply[c] == NewSupply(prev, db, b, c)
                                          && next.mint[c] == NewMint(rules, prev, b, c)
  {
    BlockIndex(
      b.time, prev.height + 1,
      seq(N_COLORS, c requires 0 <= c < N_COLORS => if c == 0 then 0 else NewSupply(prev, db, b, c)),
      seq(N_COLORS, c requires 0 <= c < N_COLORS => if c == 0 then prev.mint[0] else NewMint(rules, prev, b, c)))
  }

  // ------------------------------------------------------------------ when a block connects

  /** Transaction j takes in at least what it puts out, in every color. */
  predicate TxPays(db: Index, b: Block, j: nat)
    requires j < |b.vtx|
  {
    b.vtx[j].IsCoinBase() || forall c :: 1 <= c < N_COLORS ==> TxIn(db, b, j, c) >= OutSum(b.vtx[j].vout, c)
  }

  predicate ColorsOk(tx: Tx) {
    forall k :: 0 <= k < |tx.vout| ==> CheckColor(tx.vout[k].color)
  }

  predicate PowOk(rules: Rules, prev: BlockIndex, db: Index, b: Block)
    requires prev.Valid()
  {
    var r := rules.powReward(prev);
    && CheckColor(r.color)
    && |b.vtx| > 0 && |b.vtx[0].vout| > 0
    && b.vtx[0].vout[0].color == r.color
    && b.vtx[0].vout[0].value <= r.value + Fees(rules, prev, db, b, r.color)
    && forall c :: 1 <= c < N_COLORS && OutSum(b.vtx[0].vout[1..], c) != 0 ==>
         c != r.color && OutSum(b.vtx[0].vout[1..], c) <= Fees(rules, prev, db, b, c)
  }

  predicate PosOk(rules: Rules, prev: BlockIndex, b: Block)
    requires b.IsProofOfStake()
  {
    && |b.vtx[0].vout| == 1
    && |b.vtx[1].vout| > 0
    && CheckColor(b.vtx[1].vout[0].color)
    && b.vtx[0].vout[0].color == rules.mintColor(b.vtx[1].vout[0].color)
    && b.vtx[0].vout[0].value <= rules.posReward(prev, b.vtx[1].vout[0].color)
  }

  predicate Solvable(out: TxOut) {
    out.kind == NullData || out.kind == Standard
  }

  predicate TxScriptsOk(rules: Rules, tx: Tx) {
    rules.fork(tx.time) >= FORK001 || forall k :: 0 <= k < |tx.vout| ==> Solvable(tx.vout[k])
  }

  predicate ScriptsOk(rules: Rules, prev: BlockIndex, b: Block) {
    prev.time >= BURN_PROTOCOL_START_TIME ==>
      forall j :: 0 <= j < |b.vtx| ==> TxScriptsOk(rules, b.vtx[j])
  }

  predicate TxAccepted(rules: Rules, prev: BlockIndex, db: Index, b: Block, j: nat)
    requires j < |b.vtx|
  {
    && ApplyTxs(db, b, j).Some?
    && rules.txOk(prev, b, j, ApplyTxs(db, b, j).value)
    && ColorsOk(b.vtx[j])
    && TxPays(db, b, j)
  }

  predicate ConnectOk(rules: Rules, prev: BlockIndex, db: Index, b: Block)
    requires prev.Valid()
  {
    && rules.blockOk(prev, b)
    && ApplyBlock(db, b).Some?
    && (forall j :: 0 <= j < |b.vtx| ==> TxAccepted(rules, prev, db, b, j))
    && (if b.IsProofOfStake() then PosOk(rules, prev, b) else PowOk(rules, prev, db, b))
    && ScriptsOk(rules, prev, b)
  }

  // ------------------------------------------------------------------ unspent value of an index

  function Min(a: nat, b: nat): nat { if a < b then a else b }

  function LiveUpTo(e: TxIndex, c: int, k: nat): int
    requires k <= |e.vout| && k <= |e.vSpent|
  {
    if k == 0 then 0
    else LiveUpTo(e, c, k - 1)
         + (if e.vSpent[k-1] == NoPos && e.vout[k-1].color == c then e.vout[k-1].value else 0)
  }

  /** Unspent value of color c in one entry. */
  function Live(e: TxIndex, c: int): int {
    LiveUpTo(e, c, Min(|e.vout|, |e.vSpent|))
  }

  /** Unspent value of color c in the whole index. */
  ghost function Total(v: Index, c: int): int {
    if v == map[] then 0 else var h :| h in v; Live(v[h], c) + Total(v - {h}, c)
  }

  lemma {:induction false} TotalRemove(v: Index, h: Hash, c: int)
    requires h in v
    ensures Total(v, c) == Live(v[h], c) + Total(v - {h}, c)
    decreases |v|
  {
    var k :| k in v && Total(v, c) == Live(v[k], c) + Total(v - {k}, c);
    if k != h {
      TotalRemove(v - {k}, h, c);
      TotalRemove(v - {h}, k, c);
      assert v - {k} - {h} == v - {h} - {k};
    }
  }

  lemma TotalUpdate(v: Index, h: Hash, e: TxIndex, c: int)
    ensures Total(v[h := e], c) == Total(v, c) + Live(e, c) - (if h in v then Live(v[h], c) else 0)
  {
    TotalRemove(v[h := e], h, c);
    assert v[h := e] - {h} == v - {h};
    if h in v {
      TotalRemove(v, h, c);
    } else {
      assert v - {h} == v;
    }
  }

  lemma {:induction false} LiveMark(e: TxIndex, n: nat, spender: DiskPos, c: int, k: nat)
    requires n < |e.vout| && Unspent(e, n) && spender != NoPos
    requires k <= |e.vout| && k <= |e.vSpent|
    ensures LiveUpTo(e.(vSpent := e.vSpent[n := spender]), c, k)
            == LiveUpTo(e, c, k) - (if n < k && e.vout[n].color == c then e.vout[n].value else 0)
  {
    if k > 0 {
      LiveMark(e, n, spender, c, k - 1);
    }
  }

  lemma {:induction false} LiveFullySpent(e: TxIndex, c: int, k: nat)
    requires FullySpent(e) && k <= |e.vout| && k <= |e.vSpent|
    ensures LiveUpTo(e, c, k) == 0
  {
    if k > 0 {
      LiveFullySpent(e, c, k - 1);
    }
  }

  lemma {:induction false} LiveFresh(tx: Tx, pos: DiskPos, c: int, k: nat)
    requires k <= |tx.vout|
    ensures LiveUpTo(Fresh(tx, pos), c, k) == OutSum(tx.vout[..k], c)
  {
    if k > 0 {
      LiveFresh(tx, pos, c, k - 1);
      assert tx.vout[..k][..k-1] == tx.vout[..k-1];
    }
  }

  lemma {:induction false} SpendTotal(v: Index, ins: seq<OutPoint>, spender: DiskPos, c: int)
    requires SpendInputs(v, ins, spender).Some? && spender != NoPos
    ensures Total(SpendInputs(v, ins, spender).value, c) == Total(v, c) - InSum(v, ins, c)
  {
    if ins != [] {
      var k := |ins| - 1;
      var o := ins[k];
      SpendTotal(v, ins[..k], spender, c);
      SpendInputsMarks(v, ins[..k], spender);
      var w := SpendInputs(v, ins[..k], spender).value;
      var e := w[o.hash];
      TotalUpdate(w, o.hash, e.(vSpent := e.vSpent[o.n := spender]), c);
      LiveMark(e, o.n, spender, c, Min(|e.vout|, |e.vSpent|));
    }
  }

  /** One transaction moves the unspent value by what it puts out less what it takes in,
      also when it overwrites an entirely spent txid. */
  lemma TxTotal(db: Index, b: Block, j: nat, c: int)
    requires CheckBlock(b) && ApplyTxs(db, b, |b.vtx|).Some? && j < |b.vtx|
    ensures ApplyTxs(db, b, j).Some? && ApplyTxs(db, b, j + 1).Some?
    ensures Total(ApplyTxs(db, b, j + 1).value, c)
            == Total(ApplyTxs(db, b, j).value, c) + OutSum(b.vtx[j].vout, c) - TxIn(db, b, j, c)
  {
    ApplyTxsPrefix(db, b, j, |b.vtx|);
    ApplyTxsPrefix(db, b, j + 1, |b.vtx|);
    var tx, pos, v := b.vtx[j], TxPos(b, j), ApplyTxs(db, b, j).value;
    LaterUntouched(db, b, j, tx.hash);
    var w := if tx.IsCoinBase() then v else SpendInputs(v, tx.vin, pos).value;
    if !tx.IsCoinBase() {
      SpendTotal(v, tx.vin, pos, c);
      SpendInputsMarks(v, tx.vin, pos);
    }
    TotalUpdate(w, tx.hash, Fresh(tx, pos), c);
    LiveFresh(tx, pos, c, |tx.vout|);
    assert tx.vout[..|tx.vout|] == tx.vout;
    if tx.hash in v {
      SpentStaysSpent(v, w, tx, pos);
      LiveFullySpent(w[tx.hash], c, Min(|w[tx.hash].vout|, |w[tx.hash].vSpent|));
    }
  }

  lemma SpentStaysSpent(v: Index, w: Index, tx: Tx, pos: DiskPos)
    requires tx.hash in v && FullySpent(v[tx.hash]) && pos != NoPos
    requires w == v || Marked(v, w, tx.vin, pos)
    ensures tx.hash in w && FullySpent(w[tx.hash])
  {
  }

  lemma {:induction false} TxsTotal(db: Index, b: Block, i: nat, c: int)
    requires CheckBlock(b) && ApplyTxs(db, b, |b.vtx|).Some? && i <= |b.vtx|
    ensures ApplyTxs(db, b, i).Some?
    ensures Total(ApplyTxs(db, b, i).value, c) == Total(db, c) + BlockOut(b, i, c) - BlockIn(db, b, i, c)
  {
    if i > 0 {
      TxsTotal(db, b, i - 1, c);
      TxTotal(db, b, i - 1, c);
    }
  }

  lemma {:induction false} TotalCovers(lo: Index, hi: Index, c: int)
    requires Covers(lo, hi)
    ensures Total(lo, c) == Total(hi, c)
    decreases |hi|
  {
    if hi == map[] {
      assert lo == map[];
    } else {
      var h :| h in hi;
      TotalRemove(hi, h, c);
      TotalCovers(lo - {h}, hi - {h}, c);
      if h in lo {
        TotalRemove(lo, h, c);
      } else {
        assert lo - {h} == lo;
        LiveFullySpent(hi[h], c, Min(|hi[h].vout|, |hi[h].vSpent|));
      }
    }
  }

  // ------------------------------------------------------------------ supply never passes mint

  lemma {:induction false} BlockSplits(db: Index, b: Block, i: nat, c: int)
    requires CheckBlock(b) && 1 <= i <= |b.vtx|
    ensures BlockOut(b, i, c) - BlockIn(db, b, i, c) == OutSum(b.vtx[0].vout, c) - NetFees(db, b, i, c)
  {
    if i > 1 {
      BlockSplits(db, b, i - 1, c);
    } else {
      assert BlockOut(b, 1, c) == BlockOut(b, 0, c) + OutSum(b.vtx[0].vout, c);
      assert BlockIn(db, b, 1, c) == BlockIn(db, b, 0, c) + TxIn(db, b, 0, c);
      assert NetFees(db, b, 1, c) == NetFees(db, b, 0, c) == 0;
    }
  }

  lemma {:induction false} NetFeesNotNegative(rules: Rules, prev: BlockIndex, db: Index, b: Block, i: nat, c: int)
    requires prev.Valid() && ConnectOk(rules, prev, db, b) && CheckColor(c) && i <= |b.vtx|
    ensures NetFees(db, b, i, c) >= 0
  {
    if i > 0 {
      NetFeesNotNegative(rules, prev, db, b, i - 1, c);
      assert TxAccepted(rules, prev, db, b, i - 1);
    }
  }

  lemma {:induction false} OutSumFirst(vout: seq<TxOut>, c: int)
    requires |vout| > 0
    ensures OutSum(vout, c) == (if vout[0].color == c then vout[0].value else 0) + OutSum(vout[1..], c)
  {
    if |vout| > 1 {
      OutSumFirst(vout[..|vout|-1], c);
      assert vout[..|vout|-1][1..] == vout[1..][..|vout|-2];
    } else {
      assert vout[..0] == [] && vout[1..] == [];
      assert OutSum(vout, c) == OutSum(vout[..0], c) + (if vout[0].color == c then vout[0].value else 0);
    }
  }

  /** The coinbase pays out no more than reward and fees, in every color. */
  lemma CoinbaseOut(rules: Rules, prev: BlockIndex, db: Index, b: Block, c: int)
    requires prev.Valid() && ConnectOk(rules, prev, db, b) && CheckColor(c)
    requires MintBefore(rules, prev, b, c) >= prev.supply[c] || b.IsProofOfStake()
    ensures var r := Reward(rules, prev, b);
            OutSum(b.vtx[0].vout, c) <= (if c == r.color then r.value else 0)
                                        + (if b.IsProofOfStake() then 0 else Fees(rules, prev, db, b, c))
  {
    OutSumFirst(b.vtx[0].vout, c);
    NetFeesNotNegative(rules, prev, db, b, |b.vtx|, c);
    if b.IsProofOfStake() {
      assert b.vtx[0].vout[1..] == [];
    }
  }

  /** ConnectBlock keeps the supply of every color at or below its total mint. */
  lemma SupplyWithinMint(rules: Rules, prev: BlockIndex, db: Index, b: Block, c: int)
    requires prev.Valid() && ConnectOk(rules, prev, db, b) && CheckColor(c)
    requires prev.supply[c] <= prev.mint[c]
    ensures NewSupply(prev, db, b, c) <= NewMint(rules, prev, b, c)
    ensures Scavenged(rules, prev, b, c) >= 0
  {
    BlockSplits(db, b, |b.vtx|, c);
    NetFeesNotNegative(rules, prev, db, b, |b.vtx|, c);
    CoinbaseOut(rules, prev, db, b, c);
  }

  /** A PoW block that takes the reset puts SIS right, whatever its total mint was. */
  lemma ResetRestoresSis(rules: Rules, prev: BlockIndex, db: Index, b: Block)
    requires prev.Valid() && ConnectOk(rules, prev, db, b)
    requires IsReset(rules, prev, b) && !b.IsProofOfStake()
    ensures NewSupply(prev, db, b, SIS) <= NewMint(rules, prev, b, SIS)
  {
    BlockSplits(db, b, |b.vtx|, SIS);
    NetFeesNotNegative(rules, prev, db, b, |b.vtx|, SIS);
    CoinbaseOut(rules, prev, db, b, SIS);
  }

  /** A PoS block puts SIS right too, unless its own reward is in SIS: then the old total
      mint is read again and the reset is undone, so that a shortfall stays unless the
      unclaimed reward and the fees happen to cover it. */
  lemma ResetByStake(rules: Rules, prev: BlockIndex, db: Index, b: Block)
    requires prev.Valid() && ConnectOk(rules, prev, db, b)
    requires IsReset(rules, prev, b) && b.IsProofOfStake()
    ensures var r := Reward(rules, prev, b);
            NewSupply(prev, db, b, SIS) <= NewMint(rules, prev, b, SIS) <==>
            (r.color == SIS ==>
              prev.supply[SIS] - prev.mint[SIS]
              <= r.value - b.vtx[0].vout[0].value + NetFees(db, b, |b.vtx|, SIS))
  {
    BlockSplits(db, b, |b.vtx|, SIS);
    NetFeesNotNegative(rules, prev, db, b, |b.vtx|, SIS);
    OutSumFirst(b.vtx[0].vout, SIS);
    assert b.vtx[0].vout[1..] == [];
  }

  // ------------------------------------------------------------------ every run

  /** The index, the blocks connected above genesis, and the block index entries from
      genesis to the tip. */
  datatype State = State(index: Index, chain: seq<Block>, tips: seq<BlockIndex>)

  predicate Genesis(g: BlockIndex) {
    g.Valid() && g.height == 0 && forall c :: 0 <= c < N_COLORS ==> g.supply[c] == 0 && g.mint[c] == 0
  }

  predicate Shape(s: State) {
    |s.tips| == |s.chain| + 1 && forall k :: 0 <= k < |s.tips| ==> s.tips[k].Valid()
  }

  function Advance(rules: Rules, s: State, step: Step): (r: Option<State>)
    requires Shape(s)
    ensures r.Some? ==> Shape(r.value)
  {
    match step
    case Connect(b) =>
      var prev := s.tips[|s.chain|];
      if ConnectOk(rules, prev, s.index, b)
      then Some(State(ApplyBlock(s.index, b).value, s.chain + [b], s.tips + [NextIndex(rules, prev, s.index, b)]))
      else None
    case Disconnect =>
      if s.chain == [] || UndoBlock(s.index, s.chain[|s.chain|-1]).None? then None
      else Some(State(UndoBlock(s.index, s.chain[|s.chain|-1]).value, s.chain[..|s.chain|-1], s.tips[..|s.chain|]))
  }

  function RunValues(rules: Rules, g: BlockIndex, steps: seq<Step>): (r: Option<State>)
    requires g.Valid()
    ensures r.Some? ==> Shape(r.value)
  {
    if steps == [] then Some(State(map[], [], [g]))
    else
      match RunValues(rules, g, steps[..|steps|-1])
      case None => None
      case Some(s) => Advance(rules, s, steps[|steps|-1])
  }

  /** All value burned by the blocks of the chain. */
  function TotalBurned(g: BlockIndex, chain: seq<Block>, c: int): int {
    if chain == [] then 0
    else
      var k := |chain| - 1;
      TotalBurned(g, chain[..k], c) + Burned(if k == 0 then g.time else chain[k-1].time, chain[k], c)
  }

  /** The vectors of the last block of a chain agree with replaying the chain. */
  ghost predicate Balanced(g: BlockIndex, chain: seq<Block>, tip: BlockIndex) {
    && tip.Valid()
    && tip.time == (if chain == [] then g.time else chain[|chain|-1].time)
    && Replay(chain).Some?
    && forall c :: CheckColor(c) ==>
         && tip.supply[c] <= tip.mint[c]
         && Total(Replay(chain).value, c) == tip.supply[c] + TotalBurned(g, chain, c)
  }

  /** What every reachable state satisfies, for every color and at every height. */
  ghost predicate Sound(g: BlockIndex, s: State) {
    && Shape(s)
    && Replay(s.chain).Some? && Covers(s.index, Replay(s.chain).value)
    && forall k :: 0 <= k <= |s.chain| ==> Balanced(g, s.chain[..k], s.tips[k])
  }

  lemma ConnectBalances(rules: Rules, g: BlockIndex, chain: seq<Block>, tip: BlockIndex, index: Index, b: Block)
    requires Balanced(g, chain, tip) && Covers(index, Replay(chain).value)
    requires ConnectOk(rules, tip, index, b)
    ensures Balanced(g, chain + [b], NextIndex(rules, tip, index, b))
  {
    var n := |chain|;
    assert (chain + [b])[..n] == chain;
    StepKeepsReplay(Node(index, chain), Connect(b));
    var after := ApplyBlock(index, b).value;
    forall c | CheckColor(c)
      ensures NewSupply(tip, index, b, c) <= NewMint(rules, tip, b, c)
      ensures Total(Replay(chain + [b]).value, c) == NewSupply(tip, index, b, c) + TotalBurned(g, chain + [b], c)
    {
      SupplyWithinMint(rules, tip, index, b, c);
      TxsTotal(index, b, |b.vtx|, c);
      TotalCovers(index, Replay(chain).value, c);
      TotalCovers(after, Replay(chain + [b]).value, c);
    }
  }

  lemma AdvanceKeepsSound(rules: Rules, g: BlockIndex, s: State, step: Step)
    requires Sound(g, s) && Advance(rules, s, step).Some?
    ensures Sound(g, Advance(rules, s, step).value)
  {
    var t := Advance(rules, s, step).value;
    var n := |s.chain|;
    StepKeepsReplay(Node(s.index, s.chain), step);
    assert s.chain[..n] == s.chain;
    forall k | 0 <= k <= |t.chain|
      ensures Balanced(g, t.chain[..k], t.tips[k])
    {
      if k <= n {
        assert t.chain[..k] == s.chain[..k];
      } else {
        assert t.chain[..k] == s.chain + [step.block];
        ConnectBalances(rules, g, s.chain, s.tips[n], s.index, step.block);
      }
    }
  }

  lemma GenesisIsSound(g: BlockIndex)
    requires Genesis(g)
    ensures Sound(g, State(map[], [], [g]))
  {
    var s := State(map[], [], [g]);
    assert s.chain[..0] == [];
    assert forall c :: Total(map[], c) == 0;
  }

  lemma {:induction false} RunIsSound(rules: Rules, g: BlockIndex, steps: seq<Step>)
    requires Genesis(g) && RunValues(rules, g, steps).Some?
    ensures Sound(g, RunValues(rules, g, steps).value)
  {
    if steps == [] {
      GenesisIsSound(g);
    } else {
      RunIsSound(rules, g, steps[..|steps|-1]);
      AdvanceKeepsSound(rules, g, RunValues(rules, g, steps[..|steps|-1]).value, steps[|steps|-1]);
    }
  }

  /** After every run of connects and disconnects, in every color: the unspent outputs in
      the index are worth the money supply of the tip plus everything burned, and the money
      supply has not passed the total mint. */
  lemma MoneyIsConserved(rules: Rules, g: BlockIndex, steps: seq<Step>, c: int)
    requires Genesis(g) && RunValues(rules, g, steps).Some? && CheckColor(c)
    ensures var s := RunValues(rules, g, steps).value;
            var tip := s.tips[|s.chain|];
            && Total(s.index, c) == tip.supply[c] + TotalBurned(g, s.chain, c)
            && tip.supply[c] <= tip.mint[c]
  {
    RunIsSound(rules, g, steps);
    var s := RunValues(rules, g, steps).value;
    assert s.chain[..|s.chain|] == s.chain;
    assert Balanced(g, s.chain[..|s.chain|], s.tips[|s.chain|]);
    TotalCovers(s.index, Replay(s.chain).value, c);
  }
}
