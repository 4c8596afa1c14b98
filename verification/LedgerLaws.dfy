/** What the money of a color comes from and where it goes, in terms of outputs, rewards and totals. */
module LedgerLaws {
  import opened Options
  import opened Ledger
  import opened LedgerValues

  // ------------------------------------------------------------------ sums of outputs

  /** What an output is worth in a color. */
  lemma OneOutput(out: TxOut, c: int)
    ensures OutSum([out], c) == if out.color == c then out.value else 0
  {
    assert [out][..0] == [];
    assert OutSum([out], c) == OutSum([out][..0], c) + if out.color == c then out.value else 0;
  }

  lemma {:induction false} OutputsJoin(a: seq<TxOut>, b: seq<TxOut>, c: int)
    ensures OutSum(a + b, c) == OutSum(a, c) + OutSum(b, c)
  {
    if b == [] {
      assert a + b == a;
    } else {
      var k := |b| - 1;
      OutputsJoin(a, b[..k], c);
      assert (a + b)[..|a| + k] == a + b[..k];
    }
  }

  // ------------------------------------------------------------------ what is burned

  /** An output that carries data and nothing else. */
  predicate HasData(tx: Tx) {
    exists k :: 0 <= k < |tx.vout| && tx.vout[k].kind == NullData
  }

  lemma {:induction false} NoDataNoBurn(vout: seq<TxOut>, c: int)
    requires forall k :: 0 <= k < |vout| ==> vout[k].kind != NullData
    ensures BurnSum(vout, c) == 0
  {
    if vout != [] {
      NoDataNoBurn(vout[..|vout|-1], c);
    }
  }

  lemma {:induction false} BlockNoBurn(b: Block, i: nat, c: int)
    requires i <= |b.vtx| && forall j :: 0 <= j < |b.vtx| ==> !HasData(b.vtx[j])
    ensures BlockBurn(b, i, c) == 0
  {
    if i > 0 {
      BlockNoBurn(b, i - 1, c);
      NoDataNoBurn(b.vtx[i-1].vout, c);
    }
  }

  /** A block without data-carrying outputs changes the supply by its outputs less its inputs. */
  lemma BlockWithoutData(prev: BlockIndex, db: Index, b: Block, c: int)
    requires prev.Valid() && CheckColor(c) && forall j :: 0 <= j < |b.vtx| ==> !HasData(b.vtx[j])
    ensures NewSupply(prev, db, b, c) == prev.supply[c] + BlockOut(b, |b.vtx|, c) - BlockIn(db, b, |b.vtx|, c)
  {
    BlockNoBurn(b, |b.vtx|, c);
  }

  /** The block with one more output at the end of transaction j. */
  function WithOutput(b: Block, j: nat, out: TxOut): Block
    requires j < |b.vtx|
  {
    b.(vtx := b.vtx[j := b.vtx[j].(vout := b.vtx[j].vout + [out])])
  }

  lemma {:induction false} TalliesWithOutput(b: Block, j: nat, out: TxOut, i: nat, c: int)
    requires j < |b.vtx| && i <= |b.vtx|
    ensures var more := WithOutput(b, j, out);
      && BlockOut(more, i, c) == BlockOut(b, i, c) + (if j < i && out.color == c then out.value else 0)
      && BlockBurn(more, i, c)
         == BlockBurn(b, i, c) + (if j < i && out.color == c && out.kind == NullData then out.value else 0)
  {
    if i > 0 {
      TalliesWithOutput(b, j, out, i - 1, c);
      if i - 1 == j {
        assert (b.vtx[j].vout + [out])[..|b.vtx[j].vout|] == b.vtx[j].vout;
      }
    }
  }

  /** One more output of a color raises its supply by its value, unless it carries data after the burn start:
      then its value is taken from supply and mint.  No other output lowers anything. */
  lemma OneMoreOutput(rules: Rules, prev: BlockIndex, db: Index, b: Block, j: nat, out: TxOut, c: int)
    requires prev.Valid() && CheckColor(c) && j < |b.vtx|
    requires WithOutput(b, j, out).IsProofOfStake() == b.IsProofOfStake()
    requires Reward(rules, prev, WithOutput(b, j, out)) == Reward(rules, prev, b)
    ensures var more := WithOutput(b, j, out);
      var value := if out.color == c then out.value else 0;
      var burned := if prev.time >= BURN_PROTOCOL_START_TIME && out.kind == NullData then value else 0;
      && NewMint(rules, prev, more, c) == NewMint(rules, prev, b, c) - burned
      && NewSupply(prev, db, more, c) + BlockIn(db, more, |b.vtx|, c)
         == NewSupply(prev, db, b, c) + BlockIn(db, b, |b.vtx|, c) + value - burned
  {
    TalliesWithOutput(b, j, out, |b.vtx|, c);
  }

  lemma {:induction false} ChainWithoutData(g: BlockIndex, chain: seq<Block>, c: int)
    requires forall k, j :: 0 <= k < |chain| && 0 <= j < |chain[k].vtx| ==> !HasData(chain[k].vtx[j])
    ensures TotalBurned(g, chain, c) == 0
  {
    if chain != [] {
      var k := |chain| - 1;
      ChainWithoutData(g, chain[..k], c);
      BlockNoBurn(chain[k], |chain[k].vtx|, c);
    }
  }

  /** On a chain without data-carrying outputs the unspent outputs are worth the supply. */
  lemma MoneyWithoutData(rules: Rules, g: BlockIndex, steps: seq<Step>, c: int)
    requires Genesis(g) && RunValues(rules, g, steps).Some? && CheckColor(c)
    requires var chain := RunValues(rules, g, steps).value.chain;
      forall k, j :: 0 <= k < |chain| && 0 <= j < |chain[k].vtx| ==> !HasData(chain[k].vtx[j])
    ensures var s := RunValues(rules, g, steps).value; Total(s.index, c) == s.tips[|s.chain|].supply[c]
  {
    MoneyIsConserved(rules, g, steps, c);
    ChainWithoutData(g, RunValues(rules, g, steps).value.chain, c);
  }

  // ------------------------------------------------------------------ what is minted

  /** What a block may mint of a color, in terms of the reward tables. */
  function Minted(rules: Rules, prev: BlockIndex, b: Block, c: int): int {
    if b.IsProofOfStake() then
      var stake := if b.vtx[1].vout == [] then 0 else b.vtx[1].vout[0].color;
      if rules.mintColor(stake) == c then rules.posReward(prev, stake) else 0
    else if rules.powReward(prev).color == c then rules.powReward(prev).value else 0
  }

  function TotalMinted(rules: Rules, tips: seq<BlockIndex>, chain: seq<Block>, c: int): int
    requires |tips| == |chain| + 1
  {
    if chain == [] then 0 else
      var k := |chain| - 1;
      TotalMinted(rules, tips[..k+1], chain[..k], c) + Minted(rules, tips[k], chain[k], c)
  }

  /** The SIS reset does not happen on the chain, or the color is another one. */
  ghost predicate Plain(rules: Rules, tips: seq<BlockIndex>, chain: seq<Block>, c: int)
    requires |tips| == |chain| + 1
  {
    c != SIS || forall k :: 0 <= k < |chain| ==>
      !(rules.fork(tips[k].time) == FORK004 && rules.fork(chain[k].time) == FORK005)
  }

  /** The mint of the last entry is all that was minted less all that was burned. */
  ghost predicate MintIs(rules: Rules, g: BlockIndex, tips: seq<BlockIndex>, chain: seq<Block>, c: int) {
    && |tips| == |chain| + 1 && tips[|chain|].Valid() && CheckColor(c)
    && tips[|chain|].time == (if chain == [] then g.time else chain[|chain|-1].time)
    && (Plain(rules, tips, chain, c) ==>
          tips[|chain|].mint[c] == TotalMinted(rules, tips, chain, c) - TotalBurned(g, chain, c))
  }

  ghost predicate MintAdds(rules: Rules, g: BlockIndex, s: State, c: int) {
    Shape(s) && forall k :: 0 <= k <= |s.chain| ==> MintIs(rules, g, s.tips[..k+1], s.chain[..k], c)
  }

  lemma MintNext(rules: Rules, g: BlockIndex, tips: seq<BlockIndex>, chain: seq<Block>, db: Index, b: Block, c: int)
    requires MintIs(rules, g, tips, chain, c)
    ensures MintIs(rules, g, tips + [NextIndex(rules, tips[|chain|], db, b)], chain + [b], c)
  {
    var prev := tips[|chain|];
    var more, bs := tips + [NextIndex(rules, prev, db, b)], chain + [b];
    assert bs[..|chain|] == chain && more[..|tips|] == tips;
    if Plain(rules, more, bs, c) {
      forall k | 0 <= k < |chain| && c == SIS
        ensures !(rules.fork(tips[k].time) == FORK004 && rules.fork(chain[k].time) == FORK005)
      {
        assert more[k] == tips[k] && bs[k] == chain[k];
      }
      assert more[|chain|] == prev && bs[|chain|] == b;
      assert more[|bs|].mint[c] == NewMint(rules, prev, b, c);
    }
  }

  lemma AdvanceKeepsMint(rules: Rules, g: BlockIndex, s: State, step: Step, c: int)
    requires MintAdds(rules, g, s, c) && Advance(rules, s, step).Some?
    ensures MintAdds(rules, g, Advance(rules, s, step).value, c)
  {
    hide MintIs;
    var t, n := Advance(rules, s, step).value, |s.chain|;
    forall k | 0 <= k <= |t.chain|
      ensures MintIs(rules, g, t.tips[..k+1], t.chain[..k], c)
    {
      if k <= n {
        assert t.chain[..k] == s.chain[..k] && t.tips[..k+1] == s.tips[..k+1];
      } else {
        assert s.tips[..n+1] == s.tips && s.chain[..n] == s.chain;
        MintNext(rules, g, s.tips, s.chain, s.index, step.block, c);
        assert t.chain[..k] == s.chain + [step.block];
        assert t.tips[..k+1] == s.tips + [NextIndex(rules, s.tips[n], s.index, step.block)];
      }
    }
  }

  lemma {:induction false} RunKeepsMint(rules: Rules, g: BlockIndex, steps: seq<Step>, c: int)
    requires Genesis(g) && RunValues(rules, g, steps).Some? && CheckColor(c)
    ensures MintAdds(rules, g, RunValues(rules, g, steps).value, c)
  {
    if steps == [] {
      assert [g][..1] == [g];
    } else {
      RunKeepsMint(rules, g, steps[..|steps|-1], c);
      AdvanceKeepsMint(rules, g, RunValues(rules, g, steps[..|steps|-1]).value, steps[|steps|-1], c);
    }
  }

  /** After every run, where the SIS mint is not reset: the mint of a color is all rewards in it less all that
      was burned, and its unspent outputs are never worth more than all rewards. */
  lemma MintIsRewards(rules: Rules, g: BlockIndex, steps: seq<Step>, c: int)
    requires Genesis(g) && RunValues(rules, g, steps).Some? && CheckColor(c)
    requires var s := RunValues(rules, g, steps).value; Plain(rules, s.tips, s.chain, c)
    ensures var s := RunValues(rules, g, steps).value;
      && s.tips[|s.chain|].mint[c] == TotalMinted(rules, s.tips, s.chain, c) - TotalBurned(g, s.chain, c)
      && Total(s.index, c) <= TotalMinted(rules, s.tips, s.chain, c)
  {
    RunKeepsMint(rules, g, steps, c);
    MoneyIsConserved(rules, g, steps, c);
    var s := RunValues(rules, g, steps).value;
    assert s.chain[..|s.chain|] == s.chain && s.tips[..|s.chain|+1] == s.tips;
  }

  // ------------------------------------------------------------------ what a miner may take

  /** A coinbase with one output in the color of the reward may take all that keeps the supply, burns not
      counted, within mint and reward if the color is scavengable, and otherwise the reward. */
  lemma CoinbaseLimit(rules: Rules, prev: BlockIndex, db: Index, b: Block)
    requires prev.Valid() && CheckBlock(b) && !b.IsProofOfStake() && |b.vtx[0].vout| == 1
    requires b.vtx[0].vout[0].color == rules.powReward(prev).color && CheckColor(rules.powReward(prev).color)
    ensures var r, value := rules.powReward(prev), b.vtx[0].vout[0].value;
      var c := r.color;
      var before := if c == SIS && rules.fork(prev.time) == FORK004 && rules.fork(b.time) == FORK005
                    then prev.supply[c] else prev.mint[c];
      PowOk(rules, prev, db, b)
      <==> if rules.scavengable(c)
           then prev.supply[c] + BlockOut(b, |b.vtx|, c) - BlockIn(db, b, |b.vtx|, c) <= before + r.value
           else value <= r.value
  {
    var c := rules.powReward(prev).color;
    BlockSplits(db, b, |b.vtx|, c);
    OutSumFirst(b.vtx[0].vout, c);
    assert b.vtx[0].vout[1..] == [];
  }

  /** Before the first fork a script that nobody can solve keeps its block out once burns are counted, and no
      other script does. */
  lemma UnsolvableScripts(rules: Rules, prev: BlockIndex, b: Block)
    ensures ScriptsOk(rules, prev, b)
            <==> (prev.time < BURN_PROTOCOL_START_TIME
                  || forall j, k :: 0 <= j < |b.vtx| && 0 <= k < |b.vtx[j].vout| && rules.fork(b.vtx[j].time) < FORK001
                       ==> b.vtx[j].vout[k].kind != Nonstandard && b.vtx[j].vout[k].kind != EmptyScript)
  {
    if ScriptsOk(rules, prev, b) && prev.time >= BURN_PROTOCOL_START_TIME {
      forall j, k | 0 <= j < |b.vtx| && 0 <= k < |b.vtx[j].vout| && rules.fork(b.vtx[j].time) < FORK001
        ensures b.vtx[j].vout[k].kind != Nonstandard && b.vtx[j].vout[k].kind != EmptyScript
      {
        assert TxScriptsOk(rules, b.vtx[j]) && Solvable(b.vtx[j].vout[k]);
      }
    }
  }

  // ------------------------------------------------------------------ what a block looks like, and its outputs

  /** A block that connects has its coinbase in front and no other, with proof of stake its coinstake behind that and
      no other, and every transaction has inputs and outputs. */
  lemma ConnectedShape(db: Index, b: Block)
    requires ApplyBlock(db, b).Some?
    ensures |b.vtx| > 0 && forall i :: 0 <= i < |b.vtx| ==>
              && b.vtx[i].vin != [] && b.vtx[i].vout != []
              && (b.vtx[i].IsCoinBase() <==> i == 0)
              && (b.IsProofOfStake() ==> (b.vtx[i].IsCoinStake() <==> i == 1))
              && (i > 0 ==> forall k :: 0 <= k < |b.vtx[i].vin| ==> b.vtx[i].vin[k].Out?)
    ensures b.IsProofOfStake() ==>
              && |b.vtx| > 1 && |b.vtx[1].vout| > 1
              && b.vtx[1].vout[0].value == 0 && b.vtx[1].vout[0].kind == EmptyScript
  {
    assert forall i :: 0 <= i < |b.vtx| ==> CheckTransaction(b.vtx[i]);
  }

  /** No output in the index is worth less than nothing. */
  ghost predicate NoDebt(v: Index) {
    forall h :: h in v ==> forall n :: 0 <= n < |v[h].vout| ==> v[h].vout[n].value >= 0
  }

  lemma {:induction false} BlockKeepsNoDebt(db: Index, b: Block, i: nat)
    requires NoDebt(db) && CheckBlock(b) && i <= |b.vtx| && ApplyTxs(db, b, i).Some?
    ensures NoDebt(ApplyTxs(db, b, i).value)
  {
    if i > 0 {
      BlockKeepsNoDebt(db, b, i - 1);
      TxKeepsNoDebt(db, ApplyTxs(db, b, i - 1).value, b.vtx[i-1], TxPos(b, i - 1));
    }
  }

  lemma TxKeepsNoDebt(db: Index, v: Index, tx: Tx, pos: DiskPos)
    requires NoDebt(v) && CheckTransaction(tx) && ApplyTx(db, v, tx, pos).Some? && pos != NoPos
    ensures NoDebt(ApplyTx(db, v, tx, pos).value)
  {
    if !tx.IsCoinBase() {
      SpendInputsMarks(v, tx.vin, pos);
    }
  }

  lemma {:induction false} UndoKeepsNoDebt(v: Index, b: Block, i: nat)
    requires NoDebt(v) && i <= |b.vtx| && UndoTxs(v, b, i).Some?
    ensures NoDebt(UndoTxs(v, b, i).value)
    decreases i
  {
    if i > 0 {
      var tx := b.vtx[i-1];
      if !tx.IsCoinBase() {
        UnspendInputsMarks(v, tx.vin);
      }
      UndoKeepsNoDebt(UndoTx(v, tx).value, b, i - 1);
    }
  }

  /** After every run no output in the index is worth less than nothing. */
  lemma {:induction false} RunHasNoDebt(steps: seq<Step>)
    requires Run(steps).Some?
    ensures NoDebt(Run(steps).value.index)
  {
    if steps != [] {
      var s, step := Run(steps[..|steps|-1]).value, steps[|steps|-1];
      RunHasNoDebt(steps[..|steps|-1]);
      hide NoDebt;
      if step.Connect? {
        BlockKeepsNoDebt(s.index, step.block, |step.block.vtx|);
      } else {
        UndoKeepsNoDebt(s.index, s.chain[|s.chain|-1], |s.chain[|s.chain|-1].vtx|);
      }
    }
  }
}
