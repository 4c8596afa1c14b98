/** Inputs at which the code does not do what it is meant to do.  When it does is said, for all
    inputs, by the lemmas and methods each example names. */
module Counterexamples {
  import opened Options
  import opened Ledger
  import opened LedgerValues
  import opened BlockTree
  import opened ChainSwitch
  import TxIds
  import Mempool
  import PoolChain
  import AddrMan
  import AddrTables
  import AddrFile

  function Coinbase(h: Hash, color: int, value: int): Tx {
    Tx(h, 0, [NullOut], [TxOut(color, value, Standard)], 0)
  }

  function CoinbaseBlock(h: Hash, value: int): Block {
    Block(0, 0, 0, 1, [Coinbase(h, 1, value)])
  }

  /** A color whose stake earns SIS. */
  const CARD := 5

  /** A proof-of-stake block: the coinbase with the reward, and a coinstake that spends output 0 of transaction 1. */
  function StakeBlock(): Block {
    Block(0, 0, 0, 1, [Coinbase(2, SIS, 3),
                       Tx(3, 0, [Out(1, 0)], [TxOut(CARD, 0, EmptyScript), TxOut(CARD, 1, Standard)], 0)])
  }

  function StakeIndex(): Index {
    map[1 := TxIndex(At(0, 0, 0), [TxOut(CARD, 1, Standard)], [NoPos])]
  }

  /** Stake earns 3 SIS and work nothing; time 0 is before the fifth fork and later times are after it. */
  function PlainRules(): Rules {
    Rules((t: int) => if t == 0 then FORK004 else FORK005, (c: int) => false, (c: int) => SIS,
          (i: BlockIndex) => Amount(1, 0), (i: BlockIndex, c: int) => 3,
          (i: BlockIndex, b: Block) => true, (i: BlockIndex, b: Block, j: nat, v: Index) => true)
  }

  function ZeroEntry(): BlockIndex {
    BlockIndex(0, 0, seq(N_COLORS, _ => 0), seq(N_COLORS, _ => 0))
  }

  // ------------------------------------------------------------------ DisconnectBlock is not an inverse

  /** Ledger.DisconnectUndoesConnect: connecting and disconnecting a block whose coinbase repeats a fully
      spent txid loses that entry.  TxIds.NoTxidRepeats says that no chain AcceptBlock lets through has one. */
  lemma DisconnectLosesEntry()
    ensures var db := map[7 := TxIndex(At(0, 0, 0), [TxOut(1, 0, Standard)], [At(0, 1, 0)])];
      && ApplyBlock(db, CoinbaseBlock(7, 0)).Some?
      && UndoBlock(ApplyBlock(db, CoinbaseBlock(7, 0)).value, CoinbaseBlock(7, 0)) != Some(db)
  {
    var db := map[7 := TxIndex(At(0, 0, 0), [TxOut(1, 0, Standard)], [At(0, 1, 0)])];
    var b := CoinbaseBlock(7, 0);
    assert b.vtx[0].hash in TxHashes(b);
    DisconnectUndoesConnect(db, b);
  }

  /** A coinbase 8, and a transaction 3 that spends coinbase 7. */
  function SpenderBlock(): Block {
    Block(0, 0, 0, 1, [Coinbase(8, 1, 0), Pass(3, Out(7, 0), 0)])
  }

  /** Coinbase 7, its spender, coinbase 7 once more, and back. */
  function StuckRun(): seq<Step> {
    [Connect(CoinbaseBlock(7, 0)), Connect(SpenderBlock()), Connect(CoinbaseBlock(7, 0)), Disconnect]
  }

  /** TxIds.RunCanBeUndone: why the heights matter.  After this run, with two coinbases of the same txid, the block
      that spent the first one cannot be disconnected any more. */
  lemma SpenderIsStuck()
    ensures var s := Run(StuckRun());
      s.Some? && s.value.chain == [CoinbaseBlock(7, 0), SpenderBlock()]
        && UndoBlock(s.value.index, SpenderBlock()).None?
  {
    hide ApplyTxs, UndoTxs, CheckBlock;
    var steps := StuckRun();
    StuckIndex();
    var first: Index := map[7 := Fresh(Coinbase(7, 1, 0), At(0, 0, 0))];
    var second := ApplyBlock(first, SpenderBlock()).value;
    var third := ApplyBlock(second, CoinbaseBlock(7, 0)).value;
    assert steps[..0] == [] && Run(steps[..0]) == Some(Node(map[], []));
    assert [] + [CoinbaseBlock(7, 0)] == [CoinbaseBlock(7, 0)];
    assert [CoinbaseBlock(7, 0)] + [SpenderBlock()] == [CoinbaseBlock(7, 0), SpenderBlock()];
    assert [CoinbaseBlock(7, 0), SpenderBlock()] + [CoinbaseBlock(7, 0)]
        == [CoinbaseBlock(7, 0), SpenderBlock(), CoinbaseBlock(7, 0)];
    OneStep(steps, 0, Node(first, [CoinbaseBlock(7, 0)]));
    OneStep(steps, 1, Node(second, [CoinbaseBlock(7, 0), SpenderBlock()]));
    OneStep(steps, 2, Node(third, [CoinbaseBlock(7, 0), SpenderBlock(), CoinbaseBlock(7, 0)]));
    DisconnectUndoesConnect(second, CoinbaseBlock(7, 0));
    assert TxHashes(CoinbaseBlock(7, 0)) == {7} by { assert CoinbaseBlock(7, 0).vtx[0].hash == 7; }
    OneStep(steps, 3, Node(second - {7}, [CoinbaseBlock(7, 0), SpenderBlock()]));
    assert steps[..4] == steps;
    MissingParent(second - {7});
  }

  lemma OneStep(steps: seq<Step>, k: nat, s: Node)
    requires k < |steps| && Run(steps[..k]).Some? && Next(Run(steps[..k]).value, steps[k]) == Some(s)
    ensures Run(steps[..k+1]) == Some(s)
  {
    assert steps[..k+1][..k] == steps[..k];
  }

  /** The three blocks connect one after the other. */
  lemma StuckIndex()
    ensures var first: Index := map[7 := Fresh(Coinbase(7, 1, 0), At(0, 0, 0))];
      && ApplyBlock(map[], CoinbaseBlock(7, 0)) == Some(first)
      && ApplyBlock(first, SpenderBlock()).Some?
      && ApplyBlock(ApplyBlock(first, SpenderBlock()).value, CoinbaseBlock(7, 0)).Some?
  {
    var first: Index := map[7 := Fresh(Coinbase(7, 1, 0), At(0, 0, 0))];
    var b, c := SpenderBlock(), CoinbaseBlock(7, 0);
    assert ApplyTxs(map[], c, 0) == Some(map[]);
    assert ApplyTxs(first, b, 0) == Some(first);
    var v := first[8 := Fresh(b.vtx[0], TxPos(b, 0))];
    assert ApplyTxs(first, b, 1) == Some(v);
    assert b.vtx[1].vin[..0] == [];
    assert SpendInputs(v, b.vtx[1].vin[..0], TxPos(b, 1)) == Some(v);
    assert SpendInputs(v, b.vtx[1].vin, TxPos(b, 1)) == Some(Mark(v, Out(7, 0), TxPos(b, 1)));
    var w := ApplyBlock(first, b).value;
    assert ApplyTxs(w, c, 0) == Some(w);
    assert FullySpent(w[7]);
  }

  lemma MissingParent(v: Index)
    requires 7 !in v
    ensures UndoBlock(v, SpenderBlock()).None?
  {
    var b := SpenderBlock();
    assert b.vtx[1].vin[..0] == [];
    assert UnspendInputs(v, b.vtx[1].vin).None?;
    assert UndoTxs(v, b, 2).None?;
  }

  // ------------------------------------------------------------------ the mint reset under proof of stake

  /** LedgerValues.ResetByStake: a supply of 5 over a mint of 0 stays above it. */
  lemma ResetIsUndone()
    ensures var prev := ZeroEntry().(supply := ZeroEntry().supply[SIS := 5]);
      && ConnectOk(PlainRules(), prev, StakeIndex(), StakeBlock()) && IsReset(PlainRules(), prev, StakeBlock())
      && StakeBlock().IsProofOfStake()
      && NewSupply(prev, StakeIndex(), StakeBlock(), SIS) > NewMint(PlainRules(), prev, StakeBlock(), SIS)
  {
    var prev := ZeroEntry().(supply := ZeroEntry().supply[SIS := 5]);
    var b, db, rules := StakeBlock(), StakeIndex(), PlainRules();
    StakeConnects();
    StakeSums();
    assert forall j :: 0 <= j < 2 ==> TxAccepted(rules, prev, db, b, j);
    ResetByStake(rules, prev, db, b);
  }

  lemma StakeConnects()
    ensures CheckBlock(StakeBlock()) && StakeBlock().IsProofOfStake()
    ensures ApplyTxs(StakeIndex(), StakeBlock(), 0) == Some(StakeIndex())
    ensures ApplyTxs(StakeIndex(), StakeBlock(), 1)
            == Some(StakeIndex()[2 := Fresh(StakeBlock().vtx[0], TxPos(StakeBlock(), 0))])
    ensures ApplyTxs(StakeIndex(), StakeBlock(), 2).Some?
  {
    var b, db := StakeBlock(), StakeIndex();
    assert ApplyTxs(db, b, 0) == Some(db);
    var v := db[2 := Fresh(b.vtx[0], TxPos(b, 0))];
    assert ApplyTxs(db, b, 1) == Some(v);
    assert b.vtx[1].vin[..0] == [];
    assert SpendInputs(v, b.vtx[1].vin[..0], TxPos(b, 1)) == Some(v);
    assert SpendInputs(v, b.vtx[1].vin, TxPos(b, 1)).Some?;
  }

  /** The coinstake puts out what it takes in. */
  lemma StakeSums()
    ensures var b := StakeBlock(); forall c :: TxIn(StakeIndex(), b, 1, c) == OutSum(b.vtx[1].vout, c)
    ensures forall c :: NetFees(StakeIndex(), StakeBlock(), 2, c) == 0
  {
    var b, db := StakeBlock(), StakeIndex();
    StakeConnects();
    var v := ApplyTxs(db, b, 1).value;
    assert b.vtx[1].vin[..0] == [] && v[1] == db[1];
    assert b.vtx[1].vout[..1] == [b.vtx[1].vout[0]] && b.vtx[1].vout[..1][..0] == [];
    forall c
      ensures TxIn(db, b, 1, c) == OutSum(b.vtx[1].vout, c) && NetFees(db, b, 2, c) == 0
    {
      assert NetFees(db, b, 0, c) == 0 && NetFees(db, b, 1, c) == 0;
      assert InSum(v, b.vtx[1].vin[..0], c) == 0;
      assert OutSum(b.vtx[1].vout[..1], c) == 0;
    }
  }

  // ------------------------------------------------------------------ the best block is not reached

  /** Genesis 0, a block 1 on it that connects, and a block 2 on that whose coinbase takes more than the reward. */
  function ForkTree(): Tree {
    map[0 := Entry(None, 0, 0, CoinbaseBlock(8, 0)),
        1 := Entry(Some(0), 1, 1, CoinbaseBlock(9, 0)),
        2 := Entry(Some(1), 2, 2, CoinbaseBlock(10, 1))]
  }

  /** ChainSwitch.ChainState.SetBestChain: from genesis to block 2 the first part of the switch, to block 1,
      succeeds and the whole does not, so that the node ends on block 1 with block 2 recorded as best. */
  lemma PostponedBlockFails()
    ensures var t, s := ForkTree(), Store(map[], map[0 := ZeroEntry()]);
      && WellFormed(t) && Linked(t, map[], map[0 := 0], 0) && Good(t, s, 0) && CheckBlock(t[2].block)
      && t[2].trust > t[0].trust && IsFork(t, 0, 0, 2) && FirstToBeat(t, 2, t[0].trust) == 1 && Anc(t, 0, 1)
      && Switch(PlainRules(), t, s, Down(t, 0, 0), Up(t, 1, 0)).Some?
      && Switch(PlainRules(), t, s, Down(t, 0, 0), Up(t, 2, 0)).None?
  {
    var t := ForkTree();
    ForkTreeShape();
    GenesisIsGood();
    SecondPartFails();
    hide Good, Switch;
    ForkPaths();
  }

  lemma SecondPartFails()
    ensures var t, s := ForkTree(), Store(map[], map[0 := ZeroEntry()]);
      Switch(PlainRules(), t, s, [], [1]).Some? && Switch(PlainRules(), t, s, [], [1, 2]).None?
  {
    var t, s, rules := ForkTree(), Store(map[], map[0 := ZeroEntry()]), PlainRules();
    FirstConnects();
    hide ConnectId, ForkTree;
    assert s.(index := s.index) == s;
    FoldOne(Connector(rules, t), s, 1);
    assert [1, 2][..1] == [1];
    FoldNext(Connector(rules, t), s, [1, 2], 1, ConnectId(rules, t, s, 1).value);
  }

  lemma GenesisIsGood()
    ensures Good(ForkTree(), Store(map[], map[0 := ZeroEntry()]), 0)
  {
    var t, s := ForkTree(), Store(map[], map[0 := ZeroEntry()]);
    GenesisIsSound(ZeroEntry());
    assert t[0].prev.None?;
    assert StateOf(t, s, 0) == State(map[], [], [ZeroEntry()]);
  }

  lemma ForkPaths()
    ensures var t := ForkTree();
      && WellFormed(t) && Anc(t, 0, 0) && Anc(t, 0, 1) && Anc(t, 0, 2)
      && Down(t, 0, 0) == [] && Up(t, 1, 0) == [1] && Up(t, 2, 0) == [1, 2]
  {
    ForkTreeShape();
    var t := ForkTree();
    assert Up(t, 0, 0) == [];
  }

  lemma ForkTreeShape()
    ensures var t := ForkTree();
      && WellFormed(t)
      && Anc(t, 0, 0) && Anc(t, 0, 1) && Anc(t, 1, 2) && Anc(t, 0, 2) && IsFork(t, 0, 0, 2)
  {
    var t := ForkTree();
    assert t[0].prev.None? && t[1].prev == Some(0) && t[2].prev == Some(1);
    assert Anc(t, 0, 1) && Anc(t, 1, 2);
  }

  lemma FirstConnects()
    ensures var t, s := ForkTree(), Store(map[], map[0 := ZeroEntry()]);
      && ConnectId(PlainRules(), t, s, 1).Some?
      && ConnectId(PlainRules(), t, ConnectId(PlainRules(), t, s, 1).value, 2).None?
  {
    var b, prev, rules := CoinbaseBlock(9, 0), ZeroEntry(), PlainRules();
    ConnectsAlone(map[], b);
    assert NetFees(map[], b, 0, 1) == 0;
    assert TxAccepted(rules, prev, map[], b, 0);
    assert ConnectOk(rules, prev, map[], b);
    TooMuchTaken(NextIndex(rules, prev, map[], b), ApplyBlock(map[], b).value);
  }

  lemma ConnectsAlone(v: Index, b: Block)
    requires CheckBlock(b) && |b.vtx| == 1 && Overwritable(v, b.vtx[0].hash) && |b.vtx[0].vout| == 1
    ensures ApplyTxs(v, b, 0) == Some(v) && ApplyTxs(v, b, 1).Some? && b.vtx[0].vout[1..] == []
  {
  }

  lemma TooMuchTaken(prev: BlockIndex, v: Index)
    requires prev.Valid()
    ensures !ConnectOk(PlainRules(), prev, v, CoinbaseBlock(10, 1))
  {
    var b := CoinbaseBlock(10, 1);
    assert !b.IsProofOfStake();
    if ApplyBlock(v, b).Some? {
      assert NetFees(v, b, 0, 1) == 0 && NetFees(v, b, 1, 1) == 0;
      assert !PowOk(PlainRules(), prev, v, b);
    }
  }

  // ------------------------------------------------------------------ a pool that does not connect

  function Pass(h: Hash, o: OutPoint, value: int): Tx {
    Tx(h, 0, [o], [TxOut(1, value, Standard)], 0)
  }

  const COIN := 100_000_000

  /** The least fee of a transaction of this color. */
  const FEE := 1_500_000

  function FirstIndex(): Index {
    map[1 := TxIndex(At(0, 0, 0), [TxOut(1, 3 * COIN, Standard)], [NoPos])]
  }

  function PassBlock(): Block {
    Block(0, 0, 0, 1, [Coinbase(2, 1, 0), Pass(3, Out(1, 0), 2 * COIN)])
  }

  /** PoolChain.ConnectTip: transaction 5 of the pool spends what transaction 3 of the block spends, and is
      still in the pool after the block. */
  lemma ConflictIsLeft()
    ensures var txs: Mempool.Pool := map[5 := Pass(5, Out(1, 0), COIN)];
      && PoolChain.PoolConnects(FirstIndex(), txs) && Mempool.FeeOf(Mempool.View(FirstIndex(), txs), txs[5], 1) >= FEE
      && ApplyBlock(FirstIndex(), PassBlock()).Some? && Mempool.Known(txs, PassBlock().vtx)
      && TxIn(FirstIndex(), PassBlock(), 1, 1) - OutSum(PassBlock().vtx[1].vout, 1) >= FEE
      && !PoolChain.PoolConnects(ApplyBlock(FirstIndex(), PassBlock()).value, txs - TxIds.Hashes(PassBlock().vtx))
  {
    var txs: Mempool.Pool := map[5 := Pass(5, Out(1, 0), COIN)];
    var b := PassBlock();
    PassConnects(FirstIndex(), txs, 5, Out(1, 0), 3 * COIN);
    PassBlockConnects();
    assert txs - TxIds.Hashes(b.vtx) == txs;
    assert txs[5].vin[0] == b.vtx[1].vin[0];
    PoolChain.ConnectsOnBlock(FirstIndex(), b, txs, txs);
  }

  /** PoolChain.DisconnectTip: transaction 3 is not standard and does not come back when its block is
      disconnected; transaction 5 of the pool spends its output. */
  lemma ParentIsLost()
    ensures var txs: Mempool.Pool := map[5 := Pass(5, Out(3, 0), COIN)];
      && ApplyBlock(FirstIndex(), PassBlock()).Some?
      && PoolChain.PoolConnects(ApplyBlock(FirstIndex(), PassBlock()).value, txs)
      && Mempool.FeeOf(Mempool.View(ApplyBlock(FirstIndex(), PassBlock()).value, txs), txs[5], 1) >= FEE
      && TxIn(FirstIndex(), PassBlock(), 1, 1) - OutSum(PassBlock().vtx[1].vout, 1) >= FEE
      && UndoBlock(ApplyBlock(FirstIndex(), PassBlock()).value, PassBlock()) == Some(FirstIndex())
      && Mempool.Resurrected(txs, PassBlock().vtx, _ => false) == txs
      && !PoolChain.PoolConnects(FirstIndex(), txs)
  {
    var txs: Mempool.Pool := map[5 := Pass(5, Out(3, 0), COIN)];
    var b, db := PassBlock(), FirstIndex();
    PassBlockConnects();
    PassConnects(ApplyBlock(db, b).value, txs, 5, Out(3, 0), 2 * COIN);
    DisconnectUndoesConnect(db, b);
    NoneReturn(txs, b.vtx);
    assert !PoolChain.TxConnects(db, txs, 5) by {
      assert txs[5].vin[0] == Out(3, 0);
    }
  }

  lemma {:induction false} NoneReturn(txs: Mempool.Pool, vtx: seq<Tx>)
    ensures Mempool.Resurrected(txs, vtx, _ => false) == txs
  {
    if vtx != [] {
      NoneReturn(txs, vtx[..|vtx|-1]);
    }
  }

  lemma PassBlockConnects()
    ensures ApplyBlock(FirstIndex(), PassBlock()).Some?
    ensures ApplyBlock(FirstIndex(), PassBlock()).value.Keys == {1, 2, 3}
    ensures Spendable(ApplyBlock(FirstIndex(), PassBlock()).value, Out(3, 0))
    ensures ApplyBlock(FirstIndex(), PassBlock()).value[3].vout == [TxOut(1, 2 * COIN, Standard)]
    ensures TxIn(FirstIndex(), PassBlock(), 1, 1) - OutSum(PassBlock().vtx[1].vout, 1) >= FEE
  {
    var b, db := PassBlock(), FirstIndex();
    assert ApplyTxs(db, b, 0) == Some(db);
    var v := db[2 := Fresh(b.vtx[0], TxPos(b, 0))];
    assert ApplyTxs(db, b, 1) == Some(v);
    assert b.vtx[1].vin[..0] == [] && b.vtx[1].vout[..0] == [];
    assert SpendInputs(v, b.vtx[1].vin[..0], TxPos(b, 1)) == Some(v);
    assert SpendInputs(v, b.vtx[1].vin, TxPos(b, 1)) == Some(Mark(v, Out(1, 0), TxPos(b, 1)));
    assert InSum(v, b.vtx[1].vin[..0], 1) == 0 && OutSum(b.vtx[1].vout[..0], 1) == 0;
  }

  lemma PassConnects(db: Index, txs: Mempool.Pool, h: Hash, o: OutPoint, value: int)
    requires txs == map[h := Pass(h, o, COIN)] && h !in db && Spendable(db, o)
             && db[o.hash].vout == [TxOut(1, value, Standard)]
    requires value >= 2 * COIN
    ensures PoolChain.PoolConnects(db, txs) && Mempool.FeeOf(Mempool.View(db, txs), txs[h], 1) >= FEE
  {
    var tx, v := Pass(h, o, COIN), Mempool.View(db, txs);
    assert tx.vin[..0] == [] && tx.vout[..0] == [];
    forall c
      ensures InSum(v, tx.vin, c) == (if c == 1 then value else 0) && OutSum(tx.vout, c) == if c == 1 then COIN else 0
    {
      assert InSum(v, tx.vin[..0], c) == 0 && OutSum(tx.vout[..0], c) == 0;
    }
  }

  // ------------------------------------------------------------------ the wrong entry is evicted

  /** AddrMan.AddrMan.SelectTried: of two entries the one whose last success is longer ago is drawn from the
      second place; what is at that place after the swap is the other one. */
  lemma EvictionMissesTheOldest(i: AddrTables.Info)
    ensures var info := map[1 := i.(lastSuccess := 10), 2 := i.(lastSuccess := 5)];
      && AddrMan.Drawable(2, [1, 0]) && AddrMan.AfterDraws([1, 2], [1, 0]) == [2, 1]
      && AddrMan.LeastRecent(info, [2, 1], 2, 0) && [2, 1][0 + [1, 0][0]] == 1
  {
    var draws: seq<nat> := [1, 0];
    assert draws[..1] == [1] && draws[..1][..0] == [];
    assert AddrMan.AfterDraws([1, 2], draws[..1]) == [2, 1];
  }

  // ------------------------------------------------------------------ a bucket count that has changed

  const CROWD := 65

  function CrowdKey(): AddrTables.Key {
    AddrTables.Key((a: nat, p: nat) => 0, (a: nat, s: nat) => 0, (a: nat) => true)
  }

  function Member(n: nat): AddrTables.Info {
    AddrTables.Info(n, 0, {}, 0, 0, 0, 0, 0, 1, false, n)
  }

  function CrowdOrder(): (r: seq<nat>)
    ensures |r| == CROWD && forall n :: 0 <= n < CROWD ==> r[n] == n
  {
    seq(CROWD, n requires n >= 0 => n)
  }

  /** 65 new entries, written by a build with two new buckets, that all have their home in bucket 0. */
  function CrowdTables(): AddrTables.Tables {
    var order := CrowdOrder();
    AddrTables.Tables(map n | n in order :: Member(n), map n | n in order :: n, order,
                      seq(AddrTables.TRIED_BUCKET_COUNT, _ => []),
                      [set n | n in order[..33], set n | n in order[33..]], 0, CROWD, CROWD)
  }

  /** AddrFile.Read and AddrFile.RebuiltIsValid: such a file can be written, and what is read from it is not
      valid, with 65 entries in a bucket for 64. */
  lemma RebuiltBucketIsTooFull(u: AddrTables.Tables)
    ensures var t, order := CrowdTables(), CrowdOrder();
      && AddrFile.Savable(CrowdKey(), t) && AddrFile.Ordering(t, order) && AddrFile.Indexed(order[..t.nNew], t.news)
      && |t.news| != AddrTables.NEW_BUCKET_COUNT && |t.news[0]| == 33 && |t.news[1]| == 32
      && (AddrFile.Rebuilt(CrowdKey(), t, u, order)
          ==> !AddrTables.Inv(CrowdKey(), u, AddrTables.NONE, AddrTables.NONE))
  {
    CrowdIsSavable();
    CrowdIsTogether();
    hide CrowdTables, CrowdOrder, CrowdKey, AddrFile.Savable, AddrFile.Ordering, AddrFile.Rebuilt, AddrTables.Inv;
    var t, order := CrowdTables(), CrowdOrder();
    if AddrFile.Rebuilt(CrowdKey(), t, u, order) {
      AddrFile.RebuiltIsValid(CrowdKey(), t, u, order);
    }
  }

  lemma CrowdIsSavable()
    ensures var t, order := CrowdTables(), CrowdOrder();
      && AddrFile.Savable(CrowdKey(), t) && AddrFile.Ordering(t, order) && AddrFile.Indexed(order[..t.nNew], t.news)
  {
    var t, order := CrowdTables(), CrowdOrder();
    assert order[..t.nNew] == order;
    assert AddrTables.TriedOk(CrowdKey(), t.info, t.tried);
  }

  lemma CrowdIsTogether()
    ensures var t := CrowdTables();
      |t.news| == 2 && |t.news[0]| == 33 && |t.news[1]| == 32 && |AddrFile.Residents(CrowdKey(), t.info, 0)| == CROWD
  {
    var t, order := CrowdTables(), CrowdOrder();
    forall n: nat | n < CROWD
      ensures n in order && (n in t.news[0] <==> n < 33) && (n in t.news[1] <==> n >= 33)
    {
      assert order[n] == n;
      assert if n < 33 then order[..33][n] == n else order[33..][n - 33] == n;
    }
    AddrFile.RangeSize(0, CROWD, AddrFile.Residents(CrowdKey(), t.info, 0));
    AddrFile.RangeSize(0, 33, t.news[0]);
    AddrFile.RangeSize(33, CROWD, t.news[1]);
  }
}
