/** The memory pool over the chain: all that its transactions spend is unspent in the index or made by
    another of them.  When a step of the chain keeps that is said exactly. */
module PoolChain {
  import opened Options
  import opened Ledger
  import opened LedgerValues
  import opened TxIds
  import opened Mempool

  // ------------------------------------------------------------------ what a block does to the unspent outputs

  predicate Creates(b: Block, k: nat, o: OutPoint)
    requires k <= |b.vtx|
  {
    o.Out? && exists j :: 0 <= j < k && b.vtx[j].hash == o.hash && o.n < |b.vtx[j].vout|
  }

  predicate Consumes(b: Block, k: nat, o: OutPoint)
    requires k <= |b.vtx|
  {
    o.Out? && exists j :: 0 <= j < k && o in b.vtx[j].vin
  }

  ghost predicate Connected(db: Index, b: Block) {
    CheckBlock(b) && ApplyTxs(db, b, |b.vtx|).Some?
  }

  /** What a transaction spends is there before it. */
  lemma SpendsSpendable(db: Index, b: Block, j: nat, o: OutPoint)
    requires Connected(db, b) && j < |b.vtx| && o.Out? && o in b.vtx[j].vin
    ensures ApplyTxs(db, b, j).Some? && Spendable(ApplyTxs(db, b, j).value, o) && !b.vtx[j].IsCoinBase()
  {
    ApplyTxsPrefix(db, b, j, |b.vtx|);
    ApplyTxsPrefix(db, b, j + 1, |b.vtx|);
    SpendInputsMarks(ApplyTxs(db, b, j).value, b.vtx[j].vin, TxPos(b, j));
  }

  /** Nothing up to a transaction spends what the transaction makes. */
  lemma NotConsumedYet(db: Index, b: Block, k: nat, o: OutPoint)
    requires Connected(db, b) && k < |b.vtx| && o.Out? && o.hash == b.vtx[k].hash
    ensures !Consumes(b, k + 1, o)
  {
    forall j | 0 <= j < k + 1 && o in b.vtx[j].vin
      ensures false
    {
      assert o.hash in HashesFrom(b, j);
      SpendsSpendable(db, b, j, o);
      LaterUntouched(db, b, j, o.hash);
    }
  }

  /** The unspent outputs after a block are those before it and those it makes, less those it spends. */
  lemma {:induction false} BlockOutputs(db: Index, b: Block, k: nat, o: OutPoint)
    requires Connected(db, b) && k <= |b.vtx|
    ensures ApplyTxs(db, b, k).Some?
    ensures Spendable(ApplyTxs(db, b, k).value, o) <==> (Spendable(db, o) || Creates(b, k, o)) && !Consumes(b, k, o)
  {
    ApplyTxsPrefix(db, b, k, |b.vtx|);
    if k > 0 {
      BlockOutputs(db, b, k - 1, o);
      if o.Out? && o.hash == b.vtx[k-1].hash {
        OwnOutput(db, b, k - 1, o);
      } else {
        OtherOutput(db, b, k - 1, o);
      }
    }
  }

  lemma OwnOutput(db: Index, b: Block, k: nat, o: OutPoint)
    requires Connected(db, b) && k < |b.vtx| && o.Out? && o.hash == b.vtx[k].hash
    ensures ApplyTxs(db, b, k + 1).Some? && !Spendable(db, o) && !Consumes(b, k + 1, o)
    ensures Spendable(ApplyTxs(db, b, k + 1).value, o) <==> o.n < |b.vtx[k].vout|
    ensures Creates(b, k + 1, o) <==> o.n < |b.vtx[k].vout|
  {
    hide CheckTransaction, Consumes;
    NotConsumedYet(db, b, k, o);
    assert o.hash in HashesFrom(b, k);
    LaterUntouched(db, b, k, o.hash);
    ApplyTxsPrefix(db, b, k + 1, |b.vtx|);
    assert ApplyTxs(db, b, k + 1).value[o.hash] == Fresh(b.vtx[k], TxPos(b, k));
    assert forall j :: 0 <= j < k ==> b.vtx[j].hash != o.hash;
    hide ApplyTxs, CheckBlock;
  }

  lemma OtherOutput(db: Index, b: Block, k: nat, o: OutPoint)
    requires Connected(db, b) && k < |b.vtx| && (o.Out? ==> o.hash != b.vtx[k].hash)
    ensures ApplyTxs(db, b, k).Some? && ApplyTxs(db, b, k + 1).Some?
    ensures Spendable(ApplyTxs(db, b, k + 1).value, o)
            <==> Spendable(ApplyTxs(db, b, k).value, o) && o !in b.vtx[k].vin
    ensures Creates(b, k + 1, o) <==> Creates(b, k, o)
    ensures Consumes(b, k + 1, o) <==> Consumes(b, k, o) || (o.Out? && o in b.vtx[k].vin)
  {
    ApplyTxsPrefix(db, b, k, |b.vtx|);
    ApplyTxsPrefix(db, b, k + 1, |b.vtx|);
    if o.Out? {
      AfterTx(db, ApplyTxs(db, b, k).value, b.vtx[k], TxPos(b, k), o.hash);
    }
    hide ApplyTx, CheckBlock;
  }

  /** The entries after k transactions, and the outputs they have. */
  ghost predicate EntryOf(db: Index, b: Block, k: nat, v: Index, h: Hash)
    requires k <= |b.vtx|
  {
    && (h in v <==> h in db || exists j :: 0 <= j < k && b.vtx[j].hash == h)
    && (forall j :: 0 <= j < k && b.vtx[j].hash == h ==> v[h].vout == b.vtx[j].vout)
    && (h in db && (forall j :: 0 <= j < k ==> b.vtx[j].hash != h) ==> v[h].vout == db[h].vout)
  }

  lemma {:induction false} BlockEntry(db: Index, b: Block, k: nat, h: Hash)
    requires Connected(db, b) && k <= |b.vtx|
    ensures ApplyTxs(db, b, k).Some? && EntryOf(db, b, k, ApplyTxs(db, b, k).value, h)
  {
    ApplyTxsPrefix(db, b, k, |b.vtx|);
    if k > 0 {
      BlockEntry(db, b, k - 1, h);
      EntryNext(db, b, k - 1, ApplyTxs(db, b, k - 1).value, h);
    }
  }

  lemma EntryNext(db: Index, b: Block, k: nat, v: Index, h: Hash)
    requires CheckBlock(b) && k < |b.vtx| && EntryOf(db, b, k, v, h) && ApplyTx(db, v, b.vtx[k], TxPos(b, k)).Some?
    ensures EntryOf(db, b, k + 1, ApplyTx(db, v, b.vtx[k], TxPos(b, k)).value, h)
  {
    var w := ApplyTx(db, v, b.vtx[k], TxPos(b, k)).value;
    if h == b.vtx[k].hash {
      assert w[h] == Fresh(b.vtx[k], TxPos(b, k));
      hide ApplyTx;
    } else {
      AfterTx(db, v, b.vtx[k], TxPos(b, k), h);
      hide ApplyTx, CheckBlock;
    }
  }

  /** Where the block's transaction j is on disk. */
  function Place(b: Block, j: nat): DiskPos
    requires j < |b.vtx|
  {
    At(b.file, b.blockPos, b.firstTxPos + SizeSum(b.vtx[..j]))
  }

  lemma OwnEntry(db: Index, v: Index, tx: Tx, pos: DiskPos)
    requires ApplyTx(db, v, tx, pos).Some?
    ensures tx.hash in ApplyTx(db, v, tx, pos).value && ApplyTx(db, v, tx, pos).value[tx.hash].pos == pos
  {
  }

  /** The entry of a transaction says where it is. */
  lemma {:induction false} EntryPlace(db: Index, b: Block, k: nat, j: nat)
    requires Connected(db, b) && j < k <= |b.vtx|
    ensures ApplyTxs(db, b, k).Some? && b.vtx[j].hash in ApplyTxs(db, b, k).value
    ensures ApplyTxs(db, b, k).value[b.vtx[j].hash].pos == Place(b, j)
  {
    hide ApplyTx, CheckTransaction;
    ApplyTxsPrefix(db, b, k, |b.vtx|);
    ApplyTxsPrefix(db, b, k - 1, |b.vtx|);
    if k == j + 1 {
      PositionIs(b, j);
      OwnEntry(db, ApplyTxs(db, b, j).value, b.vtx[j], TxPos(b, j));
    } else {
      EntryPlace(db, b, k - 1, j);
      assert b.vtx[j].hash != b.vtx[k-1].hash;
      hide CheckBlock;
      AfterTx(db, ApplyTxs(db, b, k - 1).value, b.vtx[k-1], TxPos(b, k - 1), b.vtx[j].hash);
    }
  }

  /** Every output a block spends names the place of its spender. */
  lemma {:induction false} SpenderPlace(db: Index, b: Block, k: nat, j: nat, o: OutPoint)
    requires Connected(db, b) && j < k <= |b.vtx| && o.Out? && o in b.vtx[j].vin
    ensures ApplyTxs(db, b, k).Some?
    ensures var v := ApplyTxs(db, b, k).value;
      o.hash in v && o.n < |v[o.hash].vSpent| && v[o.hash].vSpent[o.n] == Place(b, j)
  {
    hide CheckBlock, ApplyTx;
    SpendsSpendable(db, b, j, o);
    ApplyTxsPrefix(db, b, k, |b.vtx|);
    ApplyTxsPrefix(db, b, k - 1, |b.vtx|);
    NotOfLater(db, b, j, k - 1, o);
    AfterTx(db, ApplyTxs(db, b, k - 1).value, b.vtx[k-1], TxPos(b, k - 1), o.hash);
    if k == j + 1 {
      PositionIs(b, j);
    } else {
      SpenderPlace(db, b, k - 1, j, o);
      if o in b.vtx[k-1].vin {
        SpendsSpendable(db, b, k - 1, o);
      }
    }
  }

  lemma NotOfLater(db: Index, b: Block, j: nat, k: nat, o: OutPoint)
    requires Connected(db, b) && j <= k < |b.vtx| && o.Out? && o in b.vtx[j].vin
    ensures o.hash != b.vtx[k].hash
  {
    if o.hash == b.vtx[k].hash {
      NotConsumedYet(db, b, k, o);
    }
  }

  // ------------------------------------------------------------------ an output with its value

  ghost predicate Holds(v: Index, o: OutPoint, out: TxOut) {
    Spendable(v, o) && v[o.hash].vout[o.n] == out
  }

  lemma HoldsOn(db: Index, b: Block, o: OutPoint, out: TxOut)
    requires Connected(db, b) && Holds(db, o, out) && !Consumes(b, |b.vtx|, o)
    ensures Holds(ApplyTxs(db, b, |b.vtx|).value, o, out)
  {
    BlockOutputs(db, b, |b.vtx|, o);
    BlockEntry(db, b, |b.vtx|, o.hash);
    ApplyTxsOverwrites(db, b);
    forall j | 0 <= j < |b.vtx| ensures b.vtx[j].hash != o.hash {
      assert b.vtx[j].hash in TxHashes(b);
    }
  }

  lemma HoldsNew(db: Index, b: Block, j: nat, o: OutPoint)
    requires Connected(db, b) && j < |b.vtx| && o.Out? && o.hash == b.vtx[j].hash && o.n < |b.vtx[j].vout|
    requires !Consumes(b, |b.vtx|, o)
    ensures Holds(ApplyTxs(db, b, |b.vtx|).value, o, b.vtx[j].vout[o.n])
  {
    BlockOutputs(db, b, |b.vtx|, o);
    BlockEntry(db, b, |b.vtx|, o.hash);
  }

  /** The same outputs are worth the same. */
  lemma {:induction false} SameInSum(v: Index, w: Index, ins: seq<OutPoint>, c: int)
    requires forall i :: 0 <= i < |ins| ==> Spendable(v, ins[i]) && Holds(w, ins[i], v[ins[i].hash].vout[ins[i].n])
    ensures InSum(v, ins, c) == InSum(w, ins, c)
  {
    if ins != [] {
      SameInSum(v, w, ins[..|ins|-1], c);
    }
  }

  /** w offers the transaction all that v does. */
  ghost predicate OffersTo(v: Index, w: Index, tx: Tx) {
    forall i :: 0 <= i < |tx.vin| ==>
      Spendable(v, tx.vin[i]) && Holds(w, tx.vin[i], v[tx.vin[i].hash].vout[tx.vin[i].n])
  }

  lemma OffersSame(v: Index, w: Index, tx: Tx)
    requires OffersTo(v, w, tx)
    ensures Funded(w, tx) && (Pays(v, tx) <==> Pays(w, tx))
  {
    forall c ensures InSum(v, tx.vin, c) == InSum(w, tx.vin, c) {
      SameInSum(v, w, tx.vin, c);
    }
  }

  // ------------------------------------------------------------------ a pool that connects

  ghost predicate TxConnects(db: Index, txs: Pool, h: Hash)
    requires h in txs
  {
    && h !in db && txs[h].hash == h && Loose(txs[h])
    && Funded(View(db, txs), txs[h]) && Pays(View(db, txs), txs[h])
  }

  /** All transactions connect to transactions in the chain or in the pool. */
  ghost predicate PoolConnects(db: Index, txs: Pool) {
    forall h :: h in txs ==> TxConnects(db, txs, h)
  }

  lemma ViewAt(db: Index, txs: Pool, o: OutPoint)
    ensures Spendable(View(db, txs), o) <==>
      o.Out? && if o.hash in db then Spendable(db, o) else o.hash in txs && o.n < |txs[o.hash].vout|
    ensures Spendable(View(db, txs), o) ==>
      View(db, txs)[o.hash].vout[o.n] == if o.hash in db then db[o.hash].vout[o.n] else txs[o.hash].vout[o.n]
  {
  }

  /** Accept with its check of inputs keeps the pool connected. */
  lemma AcceptConnects(db: Index, txs: Pool, tx: Tx)
    requires PoolConnects(db, txs) && Acceptable(txs, tx)
    requires tx.hash !in db && Funded(View(db, txs), tx) && Pays(View(db, txs), tx)
    ensures PoolConnects(db, txs[tx.hash := tx])
  {
    hide Pays, Loose, NoClash;
    var more := txs[tx.hash := tx];
    forall h | h in more
      ensures TxConnects(db, more, h)
    {
      assert h != tx.hash ==> TxConnects(db, txs, h);
      MoreOffers(db, txs, more, more[h]);
    }
  }

  lemma MoreOffers(db: Index, txs: Pool, more: Pool, tx: Tx)
    requires Part(txs, more) && Funded(View(db, txs), tx)
    ensures Funded(View(db, more), tx) && (Pays(View(db, txs), tx) <==> Pays(View(db, more), tx))
  {
    hide Pays;
    forall i | 0 <= i < |tx.vin|
      ensures Holds(View(db, more), tx.vin[i], View(db, txs)[tx.vin[i].hash].vout[tx.vin[i].n])
    {
      ViewAt(db, txs, tx.vin[i]);
      ViewAt(db, more, tx.vin[i]);
    }
    OffersSame(View(db, txs), View(db, more), tx);
  }

  // ------------------------------------------------------------------ blocks are connected

  /** The index after the blocks. */
  function Applied(db: Index, bs: seq<Block>): Option<Index> {
    if bs == [] then Some(db) else
      match Applied(db, bs[..|bs|-1])
      case None => None
      case Some(v) => ApplyBlock(v, bs[|bs|-1])
  }

  /** An input that a pool transaction has left to it is worth the same after the blocks. */
  ghost predicate Stays(db: Index, txs: Pool, vtx: seq<Tx>, v: Index, o: OutPoint) {
    Spendable(View(db, txs), o) ==>
      var out := View(db, txs)[o.hash].vout[o.n];
      if o.hash in db || o.hash in Hashes(vtx) then Holds(v, o, out) else o.hash !in v
  }

  lemma {:induction false} InputStays(db: Index, bs: seq<Block>, txs: Pool, o: OutPoint)
    requires Applied(db, bs).Some? && Known(txs, AllTxs(bs))
    requires forall j :: 0 <= j < |AllTxs(bs)| ==> o !in AllTxs(bs)[j].vin
    ensures Stays(db, txs, AllTxs(bs), Applied(db, bs).value, o)
  {
    ViewAt(db, txs, o);
    hide CheckBlock, ApplyTxs, Stays, View, Hashes;
    if bs == [] {
      StaysAtFirst(db, txs, o);
    } else {
      var less, b := bs[..|bs|-1], bs[|bs|-1];
      var before, vtx := AllTxs(less), AllTxs(bs);
      assert forall j :: 0 <= j < |before| ==> vtx[j] == before[j];
      assert forall j :: 0 <= j < |b.vtx| ==> vtx[|before| + j] == b.vtx[j];
      InputStays(db, less, txs, o);
      assert !Consumes(b, |b.vtx|, o);
      StaysOver(db, txs, before, Applied(db, less).value, b, o);
    }
  }

  lemma StaysAtFirst(db: Index, txs: Pool, o: OutPoint)
    ensures Stays(db, txs, [], db, o)
  {
    ViewAt(db, txs, o);
  }

  lemma StaysOver(db: Index, txs: Pool, before: seq<Tx>, v: Index, b: Block, o: OutPoint)
    requires Connected(v, b) && !Consumes(b, |b.vtx|, o) && Known(txs, b.vtx)
    requires Stays(db, txs, before, v, o)
    ensures Stays(db, txs, before + b.vtx, ApplyTxs(v, b, |b.vtx|).value, o)
  {
    HashesJoin(before, b.vtx);
    ViewAt(db, txs, o);
    if !Spendable(View(db, txs), o) {
      return;
    }
    var out := View(db, txs)[o.hash].vout[o.n];
    if o.hash in db || o.hash in Hashes(before) {
      HoldsOn(v, b, o, out);
    } else if o.hash in Hashes(b.vtx) {
      var j :| 0 <= j < |b.vtx| && b.vtx[j].hash == o.hash;
      HoldsNew(v, b, j, o);
    } else {
      BlockEntry(v, b, |b.vtx|, o.hash);
    }
  }

  lemma {:induction false} AppliedEntry(db: Index, bs: seq<Block>, h: Hash)
    requires Applied(db, bs).Some?
    ensures h in Applied(db, bs).value <==> h in db || h in Hashes(AllTxs(bs))
  {
    if bs != [] {
      var less, b := bs[..|bs|-1], bs[|bs|-1];
      AppliedEntry(db, less, h);
      HashesJoin(AllTxs(less), b.vtx);
      BlockEntry(Applied(db, less).value, b, |b.vtx|, h);
    }
  }

  lemma StaysInView(db: Index, txs: Pool, rest: Pool, gone: seq<Tx>, v: Index, tx: Tx, i: nat)
    requires Left(txs, rest, Hashes(gone)) && i < |tx.vin| && tx.hash in rest && rest[tx.hash] == tx
    requires forall h :: h in txs ==> txs[h].hash == h
    requires Spendable(View(db, txs), tx.vin[i]) && Stays(db, txs, gone, v, tx.vin[i])
    ensures Holds(View(v, rest), tx.vin[i], View(db, txs)[tx.vin[i].hash].vout[tx.vin[i].n])
  {
    var o := tx.vin[i];
    ViewAt(db, txs, o);
    ViewAt(v, rest, o);
    if o.hash !in db && o.hash !in Hashes(gone) {
      assert SpendsOutputOf(tx, txs[o.hash]);
    }
  }

  /** Reorganize: blocks are connected, then their transactions leave the pool, with all conflicts.
      The pool connects to the new chain. */
  lemma ConnectsOnBlocks(db: Index, bs: seq<Block>, txs: Pool, rest: Pool)
    requires PoolConnects(db, txs) && Applied(db, bs).Some? && Known(txs, AllTxs(bs))
    requires Left(txs, rest, Hashes(AllTxs(bs)))
    requires forall j :: 0 <= j < |AllTxs(bs)| ==> NoClash(rest, AllTxs(bs)[j])
    ensures PoolConnects(Applied(db, bs).value, rest)
  {
    var v, vtx := Applied(db, bs).value, AllTxs(bs);
    forall h | h in rest
      ensures TxConnects(v, rest, h)
    {
      assert TxConnects(db, txs, h);
      AppliedEntry(db, bs, h);
      ConnectsStill(db, bs, txs, rest, h);
    }
  }

  lemma ConnectsStill(db: Index, bs: seq<Block>, txs: Pool, rest: Pool, h: Hash)
    requires PoolConnects(db, txs) && Applied(db, bs).Some? && Known(txs, AllTxs(bs)) && h in rest
    requires Left(txs, rest, Hashes(AllTxs(bs)))
    requires forall j :: 0 <= j < |AllTxs(bs)| ==> NoClash(rest, AllTxs(bs)[j])
    ensures Funded(View(Applied(db, bs).value, rest), rest[h]) && Pays(View(Applied(db, bs).value, rest), rest[h])
  {
    hide Pays, Applied, AllTxs, Loose;
    var v, vtx, tx := Applied(db, bs).value, AllTxs(bs), rest[h];
    assert TxConnects(db, txs, h);
    assert forall x :: x in txs ==> TxConnects(db, txs, x);
    forall i | 0 <= i < |tx.vin|
      ensures Holds(View(v, rest), tx.vin[i], View(db, txs)[tx.vin[i].hash].vout[tx.vin[i].n])
    {
      var o := tx.vin[i];
      forall j | 0 <= j < |vtx| ensures o !in vtx[j].vin {
        assert !SharesInput(tx, vtx[j]);
      }
      InputStays(db, bs, txs, o);
      StaysInView(db, txs, rest, vtx, v, tx, i);
    }
    OffersSame(View(db, txs), View(v, rest), tx);
  }

  /** SetBestChainInner takes only the block's own transactions out of the pool.  The pool then connects
      exactly when it had no transaction in conflict with the block. */
  lemma ConnectsOnBlock(db: Index, b: Block, txs: Pool, rest: Pool)
    requires PoolConnects(db, txs) && ApplyBlock(db, b).Some? && Known(txs, b.vtx)
    requires Left(txs, rest, Hashes(b.vtx))
    ensures PoolConnects(ApplyBlock(db, b).value, rest) <==> forall j :: 0 <= j < |b.vtx| ==> NoClash(rest, b.vtx[j])
  {
    hide PoolConnects, ApplyTxs, CheckBlock;
    OneBlock(db, b);
    if forall j :: 0 <= j < |b.vtx| ==> NoClash(rest, b.vtx[j]) {
      ConnectsOnBlocks(db, [b], txs, rest);
    }
    if PoolConnects(ApplyBlock(db, b).value, rest) {
      forall j | 0 <= j < |b.vtx|
        ensures NoClash(rest, b.vtx[j])
      {
        ConnectedHasNoClash(db, b, rest, j);
      }
    }
  }

  lemma OneBlock(db: Index, b: Block)
    ensures Applied(db, [b]) == ApplyBlock(db, b) && AllTxs([b]) == b.vtx
  {
    assert [b][..0] == [] && Applied(db, [b][..0]) == Some(db) && AllTxs([b][..0]) == [];
  }

  lemma ConnectedHasNoClash(db: Index, b: Block, rest: Pool, j: nat)
    requires ApplyBlock(db, b).Some? && PoolConnects(ApplyBlock(db, b).value, rest) && j < |b.vtx|
    ensures NoClash(rest, b.vtx[j])
  {
    hide ApplyTxs, CheckBlock, Pays, Loose;
    forall h | h in rest
      ensures !SharesInput(rest[h], b.vtx[j])
    {
      assert TxConnects(ApplyBlock(db, b).value, rest, h);
      forall i | 0 <= i < |rest[h].vin| ensures rest[h].vin[i] !in b.vtx[j].vin {
        NoLongerThere(db, b, rest, j, rest[h].vin[i]);
      }
    }
  }

  lemma NoLongerThere(db: Index, b: Block, rest: Pool, j: nat, o: OutPoint)
    requires Connected(db, b) && j < |b.vtx| && Spendable(View(ApplyTxs(db, b, |b.vtx|).value, rest), o)
    ensures o !in b.vtx[j].vin
  {
    var v := ApplyTxs(db, b, |b.vtx|).value;
    ViewAt(v, rest, o);
    if o in b.vtx[j].vin {
      SpendsSpendable(db, b, j, o);
      BlockEntry(db, b, j, o.hash);
      BlockEntry(db, b, |b.vtx|, o.hash);
      BlockOutputs(db, b, |b.vtx|, o);
    }
  }

  // ------------------------------------------------------------------ a block is disconnected

  /** Where an unspent output comes from. */
  lemma Origin(prev: Index, b: Block, k: nat, o: OutPoint)
    requires Connected(prev, b) && k <= |b.vtx|
    ensures ApplyTxs(prev, b, k).Some?
    ensures var v := ApplyTxs(prev, b, k).value;
      Spendable(v, o) ==>
        || Holds(prev, o, v[o.hash].vout[o.n])
        || exists j ::
             0 <= j < k && o.hash == b.vtx[j].hash && o.n < |b.vtx[j].vout| && b.vtx[j].vout[o.n] == v[o.hash].vout[o.n]
  {
    BlockOutputs(prev, b, k, o);
    if Spendable(ApplyTxs(prev, b, k).value, o) {
      BlockEntry(prev, b, k, o.hash);
      if Spendable(prev, o) {
        NotOwn(prev, b, o);
      }
    }
  }

  /** A block has no transaction with the txid of an unspent output. */
  lemma NotOwn(prev: Index, b: Block, o: OutPoint)
    requires Connected(prev, b) && Spendable(prev, o)
    ensures o.hash !in TxHashes(b) && forall j :: 0 <= j < |b.vtx| ==> b.vtx[j].hash != o.hash
  {
    ApplyTxsOverwrites(prev, b);
    assert forall j :: 0 <= j < |b.vtx| ==> b.vtx[j].hash in TxHashes(b);
  }

  /** `less` is the index after the block, which may lack spent entries, with the block disconnected. */
  ghost predicate TakenOff(prev: Index, b: Block, db: Index, less: Index) {
    && ApplyBlock(prev, b).Some? && Covers(db, ApplyBlock(prev, b).value) && UndoBlock(db, b) == Some(less)
    && forall j :: 0 <= j < |b.vtx| ==> TxPays(prev, b, j)
  }

  lemma {:induction false} UndoneKeys(db: Index, b: Block, i: nat)
    requires i <= |b.vtx| && UndoTxs(db, b, i).Some?
    ensures forall h :: h in UndoTxs(db, b, i).value ==> h in db && forall j :: 0 <= j < i ==> b.vtx[j].hash != h
    decreases i
  {
    if i > 0 {
      var tx := b.vtx[i-1];
      if !tx.IsCoinBase() {
        UnspendInputsMarks(db, tx.vin);
      }
      UndoneKeys(UndoTx(db, tx).value, b, i - 1);
    }
  }

  lemma TakenOffKeys(prev: Index, b: Block, db: Index, less: Index)
    requires TakenOff(prev, b, db, less)
    ensures forall h :: h in less ==> h in db && forall j :: 0 <= j < |b.vtx| ==> b.vtx[j].hash != h
  {
    UndoneKeys(db, b, |b.vtx|);
  }

  lemma TakenOffHolds(prev: Index, b: Block, db: Index, less: Index, o: OutPoint, out: TxOut)
    requires TakenOff(prev, b, db, less) && Holds(prev, o, out)
    ensures Holds(less, o, out)
  {
    var full := ApplyBlock(prev, b).value;
    DisconnectUndoesConnect(prev, b);
    UndoTxsCovers(db, full, b, |b.vtx|);
    NotOwn(prev, b, o);
    CoversSameUnspent(less, prev - TxHashes(b), o);
  }

  /** A transaction of the block that is in the pool again. */
  ghost predicate Returned(b: Block, tx: Tx) {
    Loose(tx) && exists j :: 0 <= j < |b.vtx| && b.vtx[j] == tx
  }

  /** The pool with some of the block's transactions. */
  ghost predicate WithReturned(b: Block, txs: Pool, all: Pool) {
    && Part(txs, all) && Known(all, b.vtx)
    && forall h :: h in all && h !in txs ==> all[h].hash == h && Returned(b, all[h])
  }

  /** No transaction spends an output of one that has not come back. */
  ghost predicate NoneOrphaned(b: Block, all: Pool) {
    forall h, j :: h in all && 0 <= j < |b.vtx| && b.vtx[j].hash !in all ==> !SpendsOutputOf(all[h], b.vtx[j])
  }

  /** What the block's own order offered, or the index after it, the pool and the index before it offer. */
  lemma OfferReturns(prev: Index, b: Block, db: Index, less: Index, txs: Pool, all: Pool, k: nat, tx: Tx, o: OutPoint)
    requires TakenOff(prev, b, db, less) && WithReturned(b, txs, all) && NoneOrphaned(b, all)
    requires k <= |b.vtx| && tx.hash in all && all[tx.hash] == tx && o in tx.vin
    ensures ApplyTxs(prev, b, k).Some?
    ensures var v := ApplyTxs(prev, b, k).value;
      Spendable(v, o) ==> Holds(View(less, all), o, v[o.hash].vout[o.n])
  {
    Origin(prev, b, k, o);
    var v := ApplyTxs(prev, b, k).value;
    if Spendable(v, o) {
      var out := v[o.hash].vout[o.n];
      hide ApplyTxs;
      ViewAt(less, all, o);
      if Holds(prev, o, out) {
        TakenOffHolds(prev, b, db, less, o, out);
      } else {
        var j :| 0 <= j < k && o.hash == b.vtx[j].hash && o.n < |b.vtx[j].vout| && b.vtx[j].vout[o.n] == out;
        TakenOffKeys(prev, b, db, less);
        assert SpendsOutputOf(tx, b.vtx[j]);
      }
    }
  }

  lemma OldReconnects(prev: Index, b: Block, db: Index, less: Index, txs: Pool, all: Pool, h: Hash)
    requires TakenOff(prev, b, db, less) && WithReturned(b, txs, all) && NoneOrphaned(b, all)
    requires h in txs && TxConnects(db, txs, h)
    ensures TxConnects(less, all, h)
  {
    hide Pays, Loose;
    var full, tx := ApplyBlock(prev, b).value, txs[h];
    TakenOffKeys(prev, b, db, less);
    forall i | 0 <= i < |tx.vin|
      ensures Holds(View(less, all), tx.vin[i], View(db, txs)[tx.vin[i].hash].vout[tx.vin[i].n])
    {
      var o := tx.vin[i];
      ViewAt(db, txs, o);
      ViewAt(less, all, o);
      if o.hash in db {
        CoversSameUnspent(db, full, o);
        OfferReturns(prev, b, db, less, txs, all, |b.vtx|, tx, o);
      }
    }
    OffersSame(View(db, txs), View(less, all), tx);
  }

  /** A transaction of a connected block had its inputs and paid. */
  lemma HadInputs(prev: Index, b: Block, j: nat)
    requires Connected(prev, b) && j < |b.vtx| && Loose(b.vtx[j]) && TxPays(prev, b, j)
    ensures ApplyTxs(prev, b, j).Some?
    ensures var v := ApplyTxs(prev, b, j).value; Funded(v, b.vtx[j]) && Pays(v, b.vtx[j])
  {
    ApplyTxsPrefix(prev, b, j, |b.vtx|);
    hide ApplyTxs, CheckBlock;
    forall i | 0 <= i < |b.vtx[j].vin| ensures Spendable(ApplyTxs(prev, b, j).value, b.vtx[j].vin[i]) {
      SpendsSpendable(prev, b, j, b.vtx[j].vin[i]);
    }
  }

  lemma NewConnects(prev: Index, b: Block, db: Index, less: Index, txs: Pool, all: Pool, h: Hash)
    requires TakenOff(prev, b, db, less) && WithReturned(b, txs, all) && NoneOrphaned(b, all)
    requires h in all && h !in txs
    ensures TxConnects(less, all, h)
  {
    hide Pays, Loose, ApplyTxs, CheckBlock, TxPays, Covers, UndoTxs, NoneOrphaned, Known, View;
    var tx := all[h];
    assert Returned(b, tx);
    var j :| 0 <= j < |b.vtx| && b.vtx[j] == tx;
    TakenOffKeys(prev, b, db, less);
    HadInputs(prev, b, j);
    var v := ApplyTxs(prev, b, j).value;
    forall i | 0 <= i < |tx.vin|
      ensures Holds(View(less, all), tx.vin[i], v[tx.vin[i].hash].vout[tx.vin[i].n])
    {
      OfferReturns(prev, b, db, less, txs, all, j, tx, tx.vin[i]);
    }
    OffersSame(v, View(less, all), tx);
  }

  /** Disconnecting a block puts some of its transactions back into the pool.  The pool then connects exactly
      when none of it spends an output of a transaction that was not put back, such as the coinbase. */
  lemma ConnectsAfterDisconnect(prev: Index, b: Block, db: Index, less: Index, txs: Pool, all: Pool)
    requires TakenOff(prev, b, db, less) && PoolConnects(db, txs) && WithReturned(b, txs, all)
    ensures PoolConnects(less, all) <==> NoneOrphaned(b, all)
  {
    hide TxConnects, TakenOff, WithReturned;
    if NoneOrphaned(b, all) {
      forall h | h in all ensures TxConnects(less, all, h) {
        if h in txs {
          OldReconnects(prev, b, db, less, txs, all, h);
        } else {
          NewConnects(prev, b, db, less, txs, all, h);
        }
      }
    }
    if PoolConnects(less, all) {
      forall h, j | h in all && 0 <= j < |b.vtx| && b.vtx[j].hash !in all
        ensures !SpendsOutputOf(all[h], b.vtx[j])
      {
        TakenOffKeys(prev, b, db, less);
        SpendsWhatIsThere(less, all, h, b.vtx[j]);
      }
    }
  }

  lemma SpendsWhatIsThere(less: Index, all: Pool, h: Hash, parent: Tx)
    requires h in all && TxConnects(less, all, h) && parent.hash !in less && parent.hash !in all
    ensures !SpendsOutputOf(all[h], parent)
  {
    forall i | 0 <= i < |all[h].vin| ensures all[h].vin[i].Out? ==> all[h].vin[i].hash != parent.hash {
      ViewAt(less, all, all[h].vin[i]);
    }
  }

  // ------------------------------------------------------------------ what comes back

  /** Only transactions of the block come back. */
  lemma {:induction false} ResurrectedParts(b: Block, txs: Pool, k: nat, standard: Tx -> bool)
    requires CheckBlock(b) && Known(txs, b.vtx) && k <= |b.vtx|
    ensures WithReturned(b, txs, Resurrected(txs, b.vtx[..k], standard))
  {
    if k > 0 {
      ResurrectedParts(b, txs, k - 1, standard);
      assert b.vtx[..k][..k-1] == b.vtx[..k-1];
    }
  }

  /** No transaction of a connected block spends what a transaction of the pool, or another of the block, spends. */
  lemma BlockHasNoClash(prev: Index, b: Block, txs: Pool, j: nat)
    requires ApplyBlock(prev, b).Some? && PoolConnects(ApplyBlock(prev, b).value, txs) && j < |b.vtx|
    ensures NoClash(txs, b.vtx[j])
    ensures forall k :: 0 <= k < j && Loose(b.vtx[j]) ==> !SharesInput(b.vtx[k], b.vtx[j])
  {
    ConnectedHasNoClash(prev, b, txs, j);
    forall k | 0 <= k < j && Loose(b.vtx[j])
      ensures !SharesInput(b.vtx[k], b.vtx[j])
    {
      forall i, n | 0 <= i < |b.vtx[k].vin| && 0 <= n < |b.vtx[j].vin|
        ensures b.vtx[k].vin[i] != b.vtx[j].vin[n]
      {
        var o := b.vtx[j].vin[n];
        SpendsSpendable(prev, b, j, o);
        BlockOutputs(prev, b, j, o);
      }
    }
  }

  /** A transaction that is put back: neither coinbase nor coinstake, and standard. */
  predicate Back(tx: Tx, standard: Tx -> bool) {
    Loose(tx) && standard(tx)
  }

  /** None of the transactions is in the pool, or in conflict with it or with one before. */
  ghost predicate NoneRefused(txs: Pool, vtx: seq<Tx>) {
    forall j :: 0 <= j < |vtx| ==> vtx[j].hash !in txs && NoClash(txs, vtx[j]) && NewAmong(vtx, j)
  }

  ghost predicate NewAmong(vtx: seq<Tx>, j: nat)
    requires j < |vtx|
  {
    forall k :: 0 <= k < j ==> vtx[k].hash != vtx[j].hash && (Loose(vtx[j]) ==> !SharesInput(vtx[k], vtx[j]))
  }

  lemma BlockNotRefused(prev: Index, b: Block, txs: Pool)
    requires ApplyBlock(prev, b).Some? && PoolConnects(ApplyBlock(prev, b).value, txs)
    ensures NoneRefused(txs, b.vtx)
  {
    hide ApplyTxs, SharesInput, Loose, CheckTransaction;
    forall j | 0 <= j < |b.vtx|
      ensures b.vtx[j].hash !in txs && NoClash(txs, b.vtx[j]) && NewAmong(b.vtx, j)
    {
      BlockEntry(prev, b, |b.vtx|, b.vtx[j].hash);
      BlockHasNoClash(prev, b, txs, j);
    }
  }

  ghost predicate ReturnedTo(txs: Pool, vtx: seq<Tx>, all: Pool, standard: Tx -> bool) {
    && Part(txs, all)
    && (forall h :: h in all && h !in txs ==>
          exists j :: 0 <= j < |vtx| && vtx[j] == all[h] && vtx[j].hash == h && Back(vtx[j], standard))
    && (forall j :: 0 <= j < |vtx| && Back(vtx[j], standard) ==> vtx[j].hash in all && all[vtx[j].hash] == vtx[j])
  }

  /** All transactions that are neither coinbase nor coinstake come back if they are standard. */
  lemma {:induction false} AllReturn(txs: Pool, vtx: seq<Tx>, standard: Tx -> bool)
    requires NoneRefused(txs, vtx)
    ensures ReturnedTo(txs, vtx, Resurrected(txs, vtx, standard), standard)
  {
    if vtx == [] {
      NoneReturned(txs, standard);
    } else {
      var k := |vtx| - 1;
      FewerRefused(txs, vtx, k);
      AllReturn(txs, vtx[..k], standard);
      var before := Resurrected(txs, vtx[..k], standard);
      hide ReturnedTo, NoneRefused;
      if Back(vtx[k], standard) {
        NextAcceptable(txs, vtx, before, standard);
      }
      NextReturns(txs, vtx, before, standard);
    }
  }

  lemma FewerRefused(txs: Pool, vtx: seq<Tx>, k: nat)
    requires NoneRefused(txs, vtx) && k <= |vtx|
    ensures NoneRefused(txs, vtx[..k])
  {
    hide NoClash, Loose, SharesInput;
    forall j | 0 <= j < k ensures NewAmong(vtx[..k], j) {
      assert NewAmong(vtx, j);
    }
  }

  lemma NoneReturned(txs: Pool, standard: Tx -> bool)
    ensures ReturnedTo(txs, [], txs, standard)
  {
  }

  lemma NextReturns(txs: Pool, vtx: seq<Tx>, before: Pool, standard: Tx -> bool)
    requires vtx != [] && NoneRefused(txs, vtx) && ReturnedTo(txs, vtx[..|vtx|-1], before, standard)
    requires Back(vtx[|vtx|-1], standard) ==> Acceptable(before, vtx[|vtx|-1])
    ensures var tx := vtx[|vtx|-1];
      ReturnedTo(txs, vtx, if Acceptable(before, tx) && standard(tx) then before[tx.hash := tx] else before, standard)
  {
    var k := |vtx| - 1;
    assert NewAmong(vtx, k);
    hide NoneRefused, NoClash;
    assert Acceptable(before, vtx[k]) ==> Loose(vtx[k]) && vtx[k].hash !in before;
    hide Acceptable, Loose, SharesInput;
    forall h | h in before && h !in txs
      ensures exists j :: 0 <= j < |vtx| && vtx[j] == before[h] && vtx[j].hash == h && Back(vtx[j], standard)
    {
      var j :| 0 <= j < k && vtx[..k][j] == before[h] && vtx[..k][j].hash == h && Back(vtx[..k][j], standard);
      assert vtx[j] == before[h];
    }
    forall j | 0 <= j < k && Back(vtx[j], standard) ensures vtx[j].hash in before && before[vtx[j].hash] == vtx[j] {
      assert vtx[..k][j] == vtx[j];
    }
  }

  lemma NextAcceptable(txs: Pool, vtx: seq<Tx>, before: Pool, standard: Tx -> bool)
    requires vtx != [] && NoneRefused(txs, vtx) && ReturnedTo(txs, vtx[..|vtx|-1], before, standard)
    requires Loose(vtx[|vtx|-1])
    ensures Acceptable(before, vtx[|vtx|-1])
  {
    hide Loose, SharesInput;
    var k := |vtx| - 1;
    assert NewAmong(vtx, k);
    forall h | h in before ensures h != vtx[k].hash && !SharesInput(before[h], vtx[k]) {
      if h !in txs {
        var j :| 0 <= j < k && vtx[..k][j] == before[h] && vtx[..k][j].hash == h && Back(vtx[..k][j], standard);
        assert vtx[..k][j] == vtx[j];
      }
    }
  }

  /** Nothing in the pool, and nothing that comes back, spends an output of what does not come back. */
  ghost predicate NothingLost(txs: Pool, vtx: seq<Tx>, standard: Tx -> bool) {
    forall j :: 0 <= j < |vtx| && !Back(vtx[j], standard) ==>
      && (forall h :: h in txs ==> !SpendsOutputOf(txs[h], vtx[j]))
      && (forall k :: 0 <= k < |vtx| && Back(vtx[k], standard) ==> !SpendsOutputOf(vtx[k], vtx[j]))
  }

  /** The condition on the pool with what has come back, said of the pool before. */
  lemma OrphansBefore(b: Block, txs: Pool, standard: Tx -> bool)
    requires NoneRefused(txs, b.vtx)
    ensures NoneOrphaned(b, Resurrected(txs, b.vtx, standard)) <==> NothingLost(txs, b.vtx, standard)
  {
    AllReturn(txs, b.vtx, standard);
    var all := Resurrected(txs, b.vtx, standard);
    hide Resurrected, SpendsOutputOf, Loose, NoClash, SharesInput;
    forall j | 0 <= j < |b.vtx|
      ensures b.vtx[j].hash in all <==> Back(b.vtx[j], standard)
    {
      assert forall k :: 0 <= k < |b.vtx| ==> NewAmong(b.vtx, k);
    }
    hide NoneRefused;
    if NoneOrphaned(b, all) {
      forall j | 0 <= j < |b.vtx| && !Back(b.vtx[j], standard)
        ensures forall h :: h in txs ==> !SpendsOutputOf(txs[h], b.vtx[j])
        ensures forall k :: 0 <= k < |b.vtx| && Back(b.vtx[k], standard) ==> !SpendsOutputOf(b.vtx[k], b.vtx[j])
      {
      }
    }
  }

  // ------------------------------------------------------------------ the pool when the chain moves

  /** SetBestChainInner: a block on the tip.  The pool connects to the new tip exactly when it had no
      transaction, outside the block, in conflict with one of the block. */
  method ConnectTip(pool: TxPool, ghost db: Index, b: Block)
    requires pool.Valid() && PoolConnects(db, pool.txs) && ApplyBlock(db, b).Some? && Known(pool.txs, b.vtx)
    modifies pool
    ensures pool.Valid() && pool.txs == old(pool.txs) - Hashes(b.vtx)
    ensures PoolConnects(ApplyBlock(db, b).value, pool.txs)
            <==> forall j :: 0 <= j < |b.vtx| ==> NoClash(old(pool.txs) - Hashes(b.vtx), b.vtx[j])
  {
    hide PoolConnects, ApplyTxs, CheckBlock, NoClash, Hashes, Indexed, Ranked;
    pool.DeleteIncluded(b.vtx, false);
    ConnectsOnBlock(db, b, old(pool.txs), pool.txs);
    assert pool.txs == old(pool.txs) - Hashes(b.vtx);
  }

  /** Reorganize, the new branch: the pool connects to the new tip. */
  method ConnectBranch(pool: TxPool, ghost db: Index, ghost bs: seq<Block>, included: seq<Tx>)
    requires pool.Valid() && PoolConnects(db, pool.txs) && Applied(db, bs).Some?
    requires included == AllTxs(bs) && Known(pool.txs, included)
    modifies pool
    ensures pool.Valid() && PoolConnects(Applied(db, bs).value, pool.txs)
    ensures forall h :: h in old(pool.txs) && h !in pool.txs ==>
              h in Hashes(included) || exists j :: 0 <= j < |included| && InConflict(old(pool.txs), included[j], h)
  {
    hide PoolConnects, Applied, AllTxs, NoClash, Hashes, Indexed, Ranked, InConflict;
    pool.DeleteIncluded(included, true);
    ConnectsOnBlocks(db, bs, old(pool.txs), pool.txs);
  }

  /** Reorganize, one block of the old branch: its standard transactions come back.  The pool connects to the
      block before exactly when nothing that was in it, or came back, spends an output of the block's coinbase
      or coinstake or of a transaction that is not standard. */
  method DisconnectTip(pool: TxPool, ghost prev: Index, b: Block, ghost db: Index, less: Index, standard: Tx -> bool)
    requires TakenOff(prev, b, db, less) && pool.Valid() && PoolConnects(db, pool.txs) && Known(pool.txs, b.vtx)
    requires forall j, i :: 0 <= j < |b.vtx| && 0 <= i < |b.vtx[j].vin| && b.vtx[j].vin[i].Out?
               ==> pool.rank(b.vtx[j].vin[i].hash) < pool.rank(b.vtx[j].hash)
    modifies pool
    ensures pool.Valid() && pool.txs == Resurrected(old(pool.txs), b.vtx, standard)
    ensures PoolConnects(less, pool.txs) <==> NoneOrphaned(b, pool.txs)
    ensures db == ApplyBlock(prev, b).value ==>
              (PoolConnects(less, pool.txs) <==> NothingLost(old(pool.txs), b.vtx, standard))
  {
    hide PoolConnects, ApplyTxs, NoneOrphaned, Covers, Resurrected, Indexed, Ranked, WithReturned, NothingLost,
         NoneRefused;
    pool.Resurrect(less, b.vtx, standard);
    ResurrectedParts(b, old(pool.txs), |b.vtx|, standard);
    assert b.vtx[..|b.vtx|] == b.vtx;
    ConnectsAfterDisconnect(prev, b, db, less, old(pool.txs), pool.txs);
    if db == ApplyBlock(prev, b).value {
      BlockNotRefused(prev, b, old(pool.txs));
      OrphansBefore(b, old(pool.txs), standard);
    }
  }

  // ------------------------------------------------------------------ the pool can be mined

  lemma {:induction false} SpendAll(v: Index, ins: seq<OutPoint>, pos: DiskPos)
    requires forall i :: 0 <= i < |ins| ==> Spendable(v, ins[i])
    requires forall i, j :: 0 <= i < j < |ins| ==> ins[i] != ins[j]
    requires pos != NoPos
    ensures SpendInputs(v, ins, pos).Some?
  {
    if ins != [] {
      var k := |ins| - 1;
      SpendAll(v, ins[..k], pos);
      SpendInputsMarks(v, ins[..k], pos);
      assert ins[k] !in ins[..k];
    }
  }

  /** A block of a coinbase and transactions of the pool, parents before children. */
  ghost predicate Template(db: Index, txs: Pool, b: Block) {
    && |b.vtx| > 0 && b.vtx[0].IsCoinBase() && CheckTransaction(b.vtx[0]) && Overwritable(db, b.vtx[0].hash)
    && (forall j :: 1 <= j < |b.vtx| ==> b.vtx[j].hash in txs && txs[b.vtx[j].hash] == b.vtx[j])
    && (forall i, j :: 0 <= i < j < |b.vtx| ==> b.vtx[i].hash != b.vtx[j].hash)
    && (forall j :: 1 <= j < |b.vtx| ==> ParentsFirst(db, b, j))
  }

  ghost predicate ParentsFirst(db: Index, b: Block, j: nat)
    requires j < |b.vtx|
  {
    forall i :: 0 <= i < |b.vtx[j].vin| && b.vtx[j].vin[i].Out? ==>
      b.vtx[j].vin[i].hash in db || exists k :: 1 <= k < j && b.vtx[k].hash == b.vtx[j].vin[i].hash
  }

  function Cut(b: Block, k: nat): Block
    requires k <= |b.vtx|
  {
    b.(vtx := b.vtx[..k])
  }

  lemma {:induction false} CutOffset(b: Block, k: nat, i: nat)
    requires i <= k <= |b.vtx|
    ensures TxOffset(Cut(b, k), i) == TxOffset(b, i)
  {
    if i > 0 {
      CutOffset(b, k, i - 1);
    }
  }

  lemma {:induction false} CutApplies(db: Index, b: Block, k: nat, i: nat)
    requires i <= k <= |b.vtx|
    ensures ApplyTxs(db, Cut(b, k), i) == ApplyTxs(db, b, i)
  {
    if i > 0 {
      CutApplies(db, b, k, i - 1);
      CutOffset(b, k, i - 1);
      assert TxPos(Cut(b, k), i - 1) == TxPos(b, i - 1);
    }
  }

  lemma TemplateParts(db: Index, txs: Pool, b: Block, j: nat)
    requires Template(db, txs, b) && PoolConnects(db, txs) && 1 <= j < |b.vtx|
    ensures b.vtx[j].hash in txs && txs[b.vtx[j].hash] == b.vtx[j] && TxConnects(db, txs, b.vtx[j].hash)
    ensures ParentsFirst(db, b, j)
  {
    hide TxConnects, ParentsFirst;
  }

  lemma CutChecks(db: Index, txs: Pool, b: Block, k: nat)
    requires Template(db, txs, b) && PoolConnects(db, txs) && 0 < k <= |b.vtx|
    ensures CheckBlock(Cut(b, k))
  {
    hide ParentsFirst, PoolConnects, CheckTransaction;
    forall j | 1 <= j < |b.vtx| ensures Loose(b.vtx[j]) {
      hide Template;
      TemplateParts(db, txs, b, j);
    }
    assert b.vtx[0].IsCoinBase() && CheckTransaction(b.vtx[0]);
    assert forall i, j :: 0 <= i < j < |b.vtx| ==> b.vtx[i].hash != b.vtx[j].hash;
    hide Template;
  }

  /** Nothing in front of a transaction of the block spends what it spends. */
  lemma NotTakenYet(db: Index, txs: Pool, next: Spends, b: Block, k: nat, j: nat, o: OutPoint)
    requires Template(db, txs, b) && PoolConnects(db, txs) && Indexed(txs, next)
    requires j < k < |b.vtx| && o.Out? && o in b.vtx[k].vin
    ensures o !in b.vtx[j].vin
  {
    hide ParentsFirst, PoolConnects, TxConnects;
    assert j == 0 ==> b.vtx[j].IsCoinBase();
    if j > 0 {
      TemplateParts(db, txs, b, j);
      TemplateParts(db, txs, b, k);
      assert b.vtx[j].hash != b.vtx[k].hash;
      hide Template;
      assert InputsIndexed(b.vtx[j], next) && InputsIndexed(b.vtx[k], next);
    }
  }

  /** The next transaction finds each of its inputs in the index as the block has changed it so far. */
  lemma InputIsThere(db: Index, txs: Pool, next: Spends, b: Block, k: nat, i: nat)
    requires Template(db, txs, b) && PoolConnects(db, txs) && Indexed(txs, next)
    requires 0 < k < |b.vtx| && ApplyTxs(db, b, k).Some? && i < |b.vtx[k].vin|
    ensures var o := b.vtx[k].vin[i];
      && Spendable(View(db, txs), o)
      && Holds(ApplyTxs(db, b, k).value, o, View(db, txs)[o.hash].vout[o.n])
  {
    hide Template, PoolConnects, Indexed, Loose, Pays, CheckBlock, ApplyTxs;
    var o, c := b.vtx[k].vin[i], Cut(b, k);
    TemplateParts(db, txs, b, k);
    assert Spendable(View(db, txs), o);
    ViewAt(db, txs, o);
    CutChecks(db, txs, b, k);
    CutApplies(db, b, k, k);
    forall j | 0 <= j < k ensures o !in c.vtx[j].vin {
      NotTakenYet(db, txs, next, b, k, j, o);
    }
    assert !Consumes(c, k, o);
    if o.hash in db {
      HoldsOn(db, c, o, db[o.hash].vout[o.n]);
    } else {
      var m :| 1 <= m < k && b.vtx[m].hash == o.hash;
      TemplateParts(db, txs, b, m);
      assert c.vtx[m] == b.vtx[m];
      HoldsNew(db, c, m, o);
    }
  }

  lemma NextIsMined(db: Index, txs: Pool, next: Spends, b: Block, k: nat)
    requires Template(db, txs, b) && PoolConnects(db, txs) && Indexed(txs, next)
    requires 0 < k < |b.vtx| && ApplyTxs(db, b, k).Some?
    ensures ApplyTxs(db, b, k + 1).Some? && TxPays(db, b, k)
  {
    hide Template, PoolConnects, Indexed;
    var v, tx := ApplyTxs(db, b, k).value, b.vtx[k];
    TemplateParts(db, txs, b, k);
    forall i | 0 <= i < |tx.vin|
      ensures Spendable(View(db, txs), tx.vin[i])
      ensures Holds(v, tx.vin[i], View(db, txs)[tx.vin[i].hash].vout[tx.vin[i].n])
    {
      InputIsThere(db, txs, next, b, k, i);
    }
    OffersSame(View(db, txs), v, tx);
    SpendAll(v, tx.vin, TxPos(b, k));
  }

  lemma CoinbaseIsMined(db: Index, txs: Pool, b: Block)
    requires Template(db, txs, b)
    ensures ApplyTxs(db, b, 0).Some? && ApplyTxs(db, b, 1).Some? && TxPays(db, b, 0)
  {
    assert b.vtx[0].IsCoinBase() && Overwritable(db, b.vtx[0].hash);
    hide Template, Overwritable;
    assert ApplyTxs(db, b, 0) == Some(db);
  }

  lemma {:induction false} PrefixIsMined(db: Index, txs: Pool, next: Spends, b: Block, k: nat)
    requires Template(db, txs, b) && PoolConnects(db, txs) && Indexed(txs, next) && 0 < k <= |b.vtx|
    ensures ApplyTxs(db, b, k).Some? && forall j :: 0 <= j < k ==> TxPays(db, b, j)
  {
    hide Template, PoolConnects, Indexed, ApplyTxs, TxPays;
    if k == 1 {
      CoinbaseIsMined(db, txs, b);
    } else {
      PrefixIsMined(db, txs, next, b, k - 1);
      NextIsMined(db, txs, next, b, k - 1);
    }
  }

  /** Whatever transactions a miner takes from the pool, parents first, the block connects: every input is
      there and every color is covered. */
  lemma PoolIsMinable(db: Index, txs: Pool, next: Spends, b: Block)
    requires Template(db, txs, b) && PoolConnects(db, txs) && Indexed(txs, next)
    ensures ApplyBlock(db, b).Some? && forall j :: 0 <= j < |b.vtx| ==> TxPays(db, b, j)
  {
    PrefixIsMined(db, txs, next, b, |b.vtx|);
    CutChecks(db, txs, b, |b.vtx|);
    assert Cut(b, |b.vtx|) == b;
  }

  // ------------------------------------------------------------------ how a block is put together

  /** A coinbase alone. */
  lemma FirstTemplate(db: Index, txs: Pool, b: Block)
    requires |b.vtx| == 1 && b.vtx[0].IsCoinBase() && CheckTransaction(b.vtx[0]) && Overwritable(db, b.vtx[0].hash)
    ensures Template(db, txs, b)
  {
  }

  function OneMore(b: Block, tx: Tx): Block {
    b.(vtx := b.vtx + [tx])
  }

  /** One more transaction of the pool, whose parents are in the chain or in the block. */
  lemma TemplateGrows(db: Index, txs: Pool, b: Block, tx: Tx)
    requires Template(db, txs, b) && tx.hash in txs && txs[tx.hash] == tx
    requires forall j :: 0 <= j < |b.vtx| ==> b.vtx[j].hash != tx.hash
    requires forall i :: 0 <= i < |tx.vin| && tx.vin[i].Out? ==>
               tx.vin[i].hash in db || exists k :: 1 <= k < |b.vtx| && b.vtx[k].hash == tx.vin[i].hash
    ensures Template(db, txs, OneMore(b, tx))
  {
    var more := OneMore(b, tx);
    hide CheckTransaction, Overwritable;
    assert forall j :: 0 <= j < |b.vtx| ==> more.vtx[j] == b.vtx[j];
    forall j | 1 <= j < |more.vtx| ensures ParentsFirst(db, more, j) {
      assert j < |b.vtx| ==> ParentsFirst(db, b, j);
    }
  }

  lemma LowestRank(s: set<Hash>, rank: Hash -> nat) returns (h: Hash)
    requires s != {}
    ensures h in s && forall g :: g in s ==> rank(h) <= rank(g)
  {
    h :| h in s;
    if s - {h} != {} {
      var g := LowestRank(s - {h}, rank);
      if rank(g) < rank(h) {
        h := g;
      }
    }
  }

  /** The transactions of the pool that are not in the block yet. */
  function Rest(txs: Pool, b: Block): set<Hash> {
    txs.Keys - Hashes(b.vtx)
  }

  lemma InputOfPool(db: Index, txs: Pool, tx: Tx, i: nat)
    requires Funded(View(db, txs), tx) && i < |tx.vin|
    ensures tx.vin[i].Out? && (tx.vin[i].hash in db || tx.vin[i].hash in txs)
  {
    ViewAt(db, txs, tx.vin[i]);
  }

  lemma NothingLeft(txs: Pool, b: Block)
    ensures Rest(txs, b) == {} ==> txs.Keys <= Hashes(b.vtx)
  {
    forall h | h in txs ensures h in Rest(txs, b) || h in Hashes(b.vtx) {
    }
  }

  lemma ParentsAreIn(db: Index, txs: Pool, rank: Hash -> nat, b: Block, h: Hash, i: nat)
    requires PoolConnects(db, txs) && Ranked(txs, rank) && |b.vtx| > 0 && b.vtx[0].hash !in txs
    requires h in Rest(txs, b) && (forall g :: g in Rest(txs, b) ==> rank(h) <= rank(g))
    requires i < |txs[h].vin| && txs[h].vin[i].Out?
    ensures txs[h].vin[i].hash in db || exists k :: 1 <= k < |b.vtx| && b.vtx[k].hash == txs[h].vin[i].hash
  {
    hide Loose, Pays, Funded, View;
    var o := txs[h].vin[i];
    assert TxConnects(db, txs, h) && RanksAfter(txs[h], rank);
    InputOfPool(db, txs, txs[h], i);
    hide PoolConnects, Ranked, TxConnects;
    if o.hash !in db {
      assert o.hash !in Rest(txs, b);
      var k :| 0 <= k < |b.vtx| && b.vtx[k].hash == o.hash;
    }
  }

  lemma {:induction false} FillTemplate(db: Index, txs: Pool, rank: Hash -> nat, b: Block) returns (full: Block)
    requires PoolConnects(db, txs) && Ranked(txs, rank) && Template(db, txs, b) && b.vtx[0].hash !in txs
    ensures Template(db, txs, full) && full == b.(vtx := full.vtx) && full.vtx[0] == b.vtx[0]
    ensures txs.Keys <= Hashes(full.vtx)
    decreases |Rest(txs, b)|
  {
    hide PoolConnects, Template, Ranked;
    full := b;
    HasCoinbase(db, txs, b);
    NothingLeft(txs, b);
    if Rest(txs, b) != {} {
      var h := LowestRank(Rest(txs, b), rank);
      OwnHash(db, txs, h);
      forall i | 0 <= i < |txs[h].vin| && txs[h].vin[i].Out?
        ensures txs[h].vin[i].hash in db || exists k :: 1 <= k < |b.vtx| && b.vtx[k].hash == txs[h].vin[i].hash
      {
        ParentsAreIn(db, txs, rank, b, h, i);
      }
      assert forall j :: 0 <= j < |b.vtx| ==> b.vtx[j].hash in Hashes(b.vtx);
      TemplateGrows(db, txs, b, txs[h]);
      HashesJoin(b.vtx, [txs[h]]);
      HashesOne(txs[h]);
      assert Rest(txs, OneMore(b, txs[h])) == Rest(txs, b) - {h};
      full := FillTemplate(db, txs, rank, OneMore(b, txs[h]));
    }
  }

  lemma OwnHash(db: Index, txs: Pool, h: Hash)
    requires PoolConnects(db, txs) && h in txs
    ensures txs[h].hash == h
  {
    assert TxConnects(db, txs, h);
  }

  lemma HasCoinbase(db: Index, txs: Pool, b: Block)
    requires Template(db, txs, b)
    ensures |b.vtx| > 0
  {
  }

  /** All of the pool can be mined in one block: some order of its transactions makes a block that connects. */
  lemma WholePoolIsMinable(db: Index, txs: Pool, next: Spends, rank: Hash -> nat, first: Block) returns (b: Block)
    requires PoolConnects(db, txs) && Indexed(txs, next) && Ranked(txs, rank)
    requires |first.vtx| == 1 && first.vtx[0].IsCoinBase() && CheckTransaction(first.vtx[0])
    requires Overwritable(db, first.vtx[0].hash) && first.vtx[0].hash !in txs
    ensures b == first.(vtx := b.vtx) && |b.vtx| > 0 && b.vtx[0] == first.vtx[0]
    ensures forall h :: h in txs ==> exists j :: 1 <= j < |b.vtx| && b.vtx[j] == txs[h]
    ensures ApplyBlock(db, b).Some? && forall j :: 0 <= j < |b.vtx| ==> TxPays(db, b, j)
  {
    FirstTemplate(db, txs, first);
    b := FillTemplate(db, txs, rank, first);
    PoolIsMinable(db, txs, next, b);
    forall h | h in txs ensures exists j :: 1 <= j < |b.vtx| && b.vtx[j] == txs[h] {
      var j :| 0 <= j < |b.vtx| && b.vtx[j].hash == h;
      assert j > 0;
    }
  }
}
