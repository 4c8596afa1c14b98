/** The memory pool over a whole Reorganize, from the old tip to the new one: the transactions of all
    disconnected blocks come back, then those of all connected ones leave with their conflicts. */
module PoolSwitch {
  import opened Options
  import opened Ledger
  import opened LedgerValues
  import opened TxIds
  import opened Mempool
  import opened PoolChain

  // ------------------------------------------------------------------ a branch on top of a chain

  lemma {:induction false} ReplayJoin(base: seq<Block>, bs: seq<Block>)
    requires Replay(base + bs).Some?
    ensures Replay(base).Some? && Applied(Replay(base).value, bs) == Replay(base + bs)
  {
    if bs == [] {
      assert base + bs == base;
    } else {
      var all := base + bs;
      assert all[..|all|-1] == base + bs[..|bs|-1];
      ReplayJoin(base, bs[..|bs|-1]);
    }
  }

  lemma {:induction false} AllTxsJoin(a: seq<Block>, b: seq<Block>)
    ensures AllTxs(a + b) == AllTxs(a) + AllTxs(b)
  {
    if b == [] {
      assert a + b == a;
    } else {
      var all := a + b;
      assert all[..|all|-1] == a + b[..|b|-1];
      AllTxsJoin(a, b[..|b|-1]);
    }
  }

  /** The chains `base` and `base` with a branch, in a node whose txids name transactions. */
  ghost predicate Branch(names: Naming, base: seq<Block>, bs: seq<Block>, u: Index, v: Index) {
    LawfulChain(names, base + bs) && Replay(base + bs) == Some(v) && Replay(base) == Some(u)
  }

  /** What is known of the indexes and transactions of a branch. */
  lemma BranchFacts(names: Naming, base: seq<Block>, bs: seq<Block>, u: Index, v: Index)
    requires Branch(names, base, bs, u, v)
    ensures Applied(u, bs) == Some(v) && Named(names, AllTxs(bs))
    ensures u.Keys == Hashes(AllTxs(base)) && v.Keys == u.Keys + Hashes(AllTxs(bs)) && u.Keys !! Hashes(AllTxs(bs))
    ensures AllSpent(v, AllTxs(bs)) && Once(AllTxs(bs))
  {
    ReplayJoin(base, bs);
    AllTxsJoin(base, bs);
    ReplayTidy(names, base + bs);
    NamedAll(names, base + bs);
    assert LawfulChain(names, base) by {
      assert forall k :: 0 <= k < |base| ==> (base + bs)[k] == base[k];
    }
    ReplayTidy(names, base);
    hide LawfulChain, Replay, AllTxs, Applied;
    HashesJoin(AllTxs(base), AllTxs(bs));
    OnceSplits(AllTxs(base), AllTxs(bs));
    TailOf(names, v, AllTxs(base), AllTxs(bs));
  }

  lemma TailOf(names: Naming, v: Index, s: seq<Tx>, t: seq<Tx>)
    requires Named(names, s + t) && AllSpent(v, s + t) && Once(s + t)
    ensures Named(names, t) && AllSpent(v, t) && Once(t)
  {
    assert forall j :: 0 <= j < |t| ==> (s + t)[|s| + j] == t[j];
  }

  // ------------------------------------------------------------------ where outputs come from

  /** An unspent output of a branch is one from below or one a transaction of the branch made. */
  lemma {:induction false} BranchOrigin(u: Index, bs: seq<Block>, o: OutPoint)
    requires Applied(u, bs).Some?
    ensures var v := Applied(u, bs).value; Spendable(v, o) ==> MadeOrHeld(u, AllTxs(bs), o, v[o.hash].vout[o.n])
  {
    if bs != [] {
      var less, b := bs[..|bs|-1], bs[|bs|-1];
      var v, w := Applied(u, less).value, Applied(u, bs).value;
      if Spendable(w, o) {
        BlockOrigin(u, less, b, |b.vtx|, o);
      }
    }
  }

  ghost predicate MadeOrHeld(u: Index, vtx: seq<Tx>, o: OutPoint, out: TxOut) {
    Holds(u, o, out) || exists j :: 0 <= j < |vtx| && MadeBy(vtx[j], o, out)
  }

  predicate MadeBy(tx: Tx, o: OutPoint, out: TxOut) {
    o.Out? && o.hash == tx.hash && o.n < |tx.vout| && tx.vout[o.n] == out
  }

  /** The same inside a block on top of a branch. */
  lemma {:induction false} BlockOrigin(u: Index, less: seq<Block>, b: Block, k: nat, o: OutPoint)
    requires Applied(u, less).Some? && Connected(Applied(u, less).value, b) && k <= |b.vtx|
    ensures ApplyTxs(Applied(u, less).value, b, k).Some?
    ensures var v := ApplyTxs(Applied(u, less).value, b, k).value;
      Spendable(v, o) ==> MadeOrHeld(u, AllTxs(less) + b.vtx, o, v[o.hash].vout[o.n])
    decreases |less|, 0
  {
    var before := Applied(u, less).value;
    Origin(before, b, k, o);
    var v := ApplyTxs(before, b, k).value;
    if Spendable(v, o) {
      var out := v[o.hash].vout[o.n];
      hide ApplyTxs, CheckBlock;
      if Holds(before, o, out) {
        if less == [] {
          assert Holds(u, o, out);
        } else {
          var n := |less| - 1;
          BlockOrigin(u, less[..n], less[n], |less[n].vtx|, o);
          MadeInFront(u, AllTxs(less), b.vtx, o, out);
        }
      } else {
        MadeBehind(b, k, AllTxs(less), u, o, out);
      }
    }
  }

  lemma MadeInFront(u: Index, s: seq<Tx>, t: seq<Tx>, o: OutPoint, out: TxOut)
    requires MadeOrHeld(u, s, o, out)
    ensures MadeOrHeld(u, s + t, o, out)
  {
    hide Holds, MadeBy;
    if !Holds(u, o, out) {
      var j :| 0 <= j < |s| && MadeBy(s[j], o, out);
      assert (s + t)[j] == s[j];
    }
  }

  lemma MadeBehind(b: Block, k: nat, s: seq<Tx>, u: Index, o: OutPoint, out: TxOut)
    requires k <= |b.vtx| && exists j :: 0 <= j < k && MadeBy(b.vtx[j], o, out)
    ensures MadeOrHeld(u, s + b.vtx, o, out)
  {
    hide Holds, MadeBy;
    var j :| 0 <= j < k && MadeBy(b.vtx[j], o, out);
    assert (s + b.vtx)[|s| + j] == b.vtx[j];
  }

  // ------------------------------------------------------------------ the pool with all of the old branch

  /** The pool as it would be with every transaction of the old branch back, coinbases included. */
  ghost function Everything(names: Naming, txs: Pool, vtx: seq<Tx>): Pool {
    map h | h in txs.Keys + Hashes(vtx) :: names.tx(h)
  }

  ghost predicate NamedPool(names: Naming, txs: Pool) {
    forall h :: h in txs ==> txs[h].hash == h && names.tx(h) == txs[h]
  }

  lemma KnownByName(names: Naming, txs: Pool, vtx: seq<Tx>)
    requires NamedPool(names, txs) && Named(names, vtx)
    ensures Known(txs, vtx)
  {
  }

  lemma EverythingNamed(names: Naming, txs: Pool, vtx: seq<Tx>)
    requires NamedPool(names, txs) && Named(names, vtx)
    ensures NamedPool(names, Everything(names, txs, vtx))
  {
  }

  /** What was held below the branch, or made in it, is there for everything. */
  lemma EverythingHolds(names: Naming, base: seq<Block>, bs: seq<Block>, u: Index, v: Index, txs: Pool, o: OutPoint,
                        out: TxOut)
    requires Branch(names, base, bs, u, v) && MadeOrHeld(u, AllTxs(bs), o, out)
    ensures Holds(View(u, Everything(names, txs, AllTxs(bs))), o, out)
  {
    BranchFacts(names, base, bs, u, v);
    hide Branch, AllTxs, Applied;
    var vtx := AllTxs(bs);
    ViewAt(u, Everything(names, txs, vtx), o);
    if !Holds(u, o, out) {
      var j :| 0 <= j < |vtx| && MadeBy(vtx[j], o, out);
      assert vtx[j].hash in Hashes(vtx);
    }
  }

  /** The index offers a pool transaction nothing that everything does not. */
  lemma OldIsOffered(names: Naming, base: seq<Block>, bs: seq<Block>, u: Index, v: Index, txs: Pool, h: Hash)
    requires Branch(names, base, bs, u, v) && NamedPool(names, txs) && h in txs && TxConnects(v, txs, h)
    ensures var all := View(u, Everything(names, txs, AllTxs(bs))); Funded(all, txs[h]) && Pays(all, txs[h])
  {
    BranchFacts(names, base, bs, u, v);
    var vtx, tx := AllTxs(bs), txs[h];
    var every := Everything(names, txs, vtx);
    hide Branch, AllTxs, Pays, Loose;
    forall i | 0 <= i < |tx.vin|
      ensures Holds(View(u, every), tx.vin[i], View(v, txs)[tx.vin[i].hash].vout[tx.vin[i].n])
    {
      var o := tx.vin[i];
      ViewAt(v, txs, o);
      if o.hash in v {
        BranchOrigin(u, bs, o);
        EverythingHolds(names, base, bs, u, v, txs, o, v[o.hash].vout[o.n]);
      } else {
        ViewAt(u, every, o);
      }
    }
    OffersSame(View(v, txs), View(u, every), tx);
  }

  /** Every transaction of the branch paid for its outputs when its block was connected. */
  ghost predicate BranchPays(u: Index, bs: seq<Block>) {
    forall k, j :: 0 <= k < |bs| && Applied(u, bs[..k]).Some? && 0 <= j < |bs[k].vtx| ==>
      TxPays(Applied(u, bs[..k]).value, bs[k], j)
  }

  lemma {:induction false} FindTx(bs: seq<Block>, i: nat)
    requires i < |AllTxs(bs)|
    ensures exists k, j :: 0 <= k < |bs| && 0 <= j < |bs[k].vtx| && bs[k].vtx[j] == AllTxs(bs)[i]
  {
    var n := |bs| - 1;
    var less := AllTxs(bs[..n]);
    if i < |less| {
      FindTx(bs[..n], i);
      var k, j :| 0 <= k < n && 0 <= j < |bs[..n][k].vtx| && bs[..n][k].vtx[j] == less[i];
      assert bs[k].vtx[j] == AllTxs(bs)[i];
    } else {
      assert bs[n].vtx[i - |less|] == AllTxs(bs)[i];
    }
  }

  lemma {:induction false} AppliedPrefix(u: Index, bs: seq<Block>, k: nat)
    requires Applied(u, bs).Some? && k <= |bs|
    ensures Applied(u, bs[..k]).Some? && (k < |bs| ==> Connected(Applied(u, bs[..k]).value, bs[k]))
  {
    if k == |bs| {
      assert bs[..k] == bs;
    } else if k < |bs| - 1 {
      AppliedPrefix(u, bs[..|bs|-1], k);
      assert bs[..|bs|-1][..k] == bs[..k];
    }
  }

  lemma {:induction false} PrefixTxs(bs: seq<Block>, k: nat)
    requires k < |bs|
    ensures AllTxs(bs[..k]) + bs[k].vtx <= AllTxs(bs)
  {
    if k < |bs| - 1 {
      PrefixTxs(bs[..|bs|-1], k);
      assert bs[..|bs|-1][..k] == bs[..k];
    }
  }

  lemma MadeInPrefix(u: Index, s: seq<Tx>, t: seq<Tx>, o: OutPoint, out: TxOut)
    requires s <= t && MadeOrHeld(u, s, o, out)
    ensures MadeOrHeld(u, t, o, out)
  {
    MadeInFront(u, s, t[|s|..], o, out);
    assert s + t[|s|..] == t;
  }

  /** A transaction of the old branch is offered what it had in its block. */
  lemma NewIsOffered(names: Naming, base: seq<Block>, bs: seq<Block>, u: Index, v: Index, txs: Pool, k: nat, j: nat)
    requires Branch(names, base, bs, u, v) && BranchPays(u, bs) && k < |bs| && j < |bs[k].vtx| && Loose(bs[k].vtx[j])
    ensures var all := View(u, Everything(names, txs, AllTxs(bs))); Funded(all, bs[k].vtx[j]) && Pays(all, bs[k].vtx[j])
  {
    BranchFacts(names, base, bs, u, v);
    AppliedPrefix(u, bs, k);
    var prev, b := Applied(u, bs[..k]).value, bs[k];
    var tx, every := b.vtx[j], Everything(names, txs, AllTxs(bs));
    assert TxPays(prev, b, j);
    HadInputs(prev, b, j);
    PrefixTxs(bs, k);
    var w := ApplyTxs(prev, b, j).value;
    hide Branch, AllTxs, Applied, Pays, Loose, ApplyTxs, TxPays, CheckBlock, BranchPays;
    forall i | 0 <= i < |tx.vin|
      ensures Holds(View(u, every), tx.vin[i], w[tx.vin[i].hash].vout[tx.vin[i].n])
    {
      var o := tx.vin[i];
      BlockOrigin(u, bs[..k], b, j, o);
      MadeInPrefix(u, AllTxs(bs[..k]) + b.vtx, AllTxs(bs), o, w[o.hash].vout[o.n]);
      EverythingHolds(names, base, bs, u, v, txs, o, w[o.hash].vout[o.n]);
    }
    OffersSame(w, View(u, every), tx);
  }

  // ------------------------------------------------------------------ what comes back

  /** Nothing of the old branch is refused when it comes back. */
  lemma BranchNotRefused(names: Naming, base: seq<Block>, bs: seq<Block>, u: Index, v: Index, txs: Pool)
    requires Branch(names, base, bs, u, v) && PoolConnects(v, txs)
    ensures NoneRefused(txs, AllTxs(bs))
  {
    BranchFacts(names, base, bs, u, v);
    var vtx := AllTxs(bs);
    hide Branch, AllTxs, Applied;
    forall j | 0 <= j < |vtx|
      ensures vtx[j].hash !in txs && NoClash(txs, vtx[j]) && NewAmong(vtx, j)
    {
      assert vtx[j].hash in Hashes(vtx);
      PoolApart(v, txs, vtx[j].hash);
      OnceIsNew(vtx, j);
      forall h | h in txs ensures !SharesInput(txs[h], vtx[j]) {
        SpentIsNotShared(v, vtx, txs, j, h);
      }
    }
  }

  lemma OnceIsNew(vtx: seq<Tx>, j: nat)
    requires Once(vtx) && j < |vtx|
    ensures NewAmong(vtx, j)
  {
    forall k | 0 <= k < j && Loose(vtx[j])
      ensures !SharesInput(vtx[k], vtx[j])
    {
      assert forall n :: 0 <= n < |vtx[j].vin| && vtx[j].vin[n] in vtx[k].vin ==> vtx[j].vin[n].NullOut?;
    }
  }

  lemma PoolApart(v: Index, txs: Pool, h: Hash)
    requires PoolConnects(v, txs) && h in v
    ensures h !in txs
  {
    forall x | x in txs ensures x !in v {
      assert TxConnects(v, txs, x);
    }
  }

  lemma SpentIsNotShared(v: Index, vtx: seq<Tx>, txs: Pool, j: nat, h: Hash)
    requires AllSpent(v, vtx) && j < |vtx| && PoolConnects(v, txs) && h in txs
    ensures !SharesInput(txs[h], vtx[j])
  {
    assert TxConnects(v, txs, h);
    hide Loose, Pays, PoolConnects, AllSpent, View, Spendable;
    assert Funded(View(v, txs), txs[h]);
    hide TxConnects;
    forall i | 0 <= i < |txs[h].vin|
      ensures txs[h].vin[i] !in vtx[j].vin
    {
      NotSpent(v, vtx, txs, j, txs[h].vin[i]);
    }
  }

  lemma NotSpent(v: Index, vtx: seq<Tx>, txs: Pool, j: nat, o: OutPoint)
    requires AllSpent(v, vtx) && j < |vtx| && Spendable(View(v, txs), o)
    ensures o !in vtx[j].vin
  {
    ViewAt(v, txs, o);
    hide View;
  }

  // ------------------------------------------------------------------ the pool on the new tip

  /** What a Reorganize is given: the old branch `off` and the new one `on`, both on top of `base`, with the indexes at
      their fork, at the old tip and at the new one, and a pool that connects to the old tip. */
  ghost predicate Switching(names: Naming, base: seq<Block>, off: seq<Block>, on: seq<Block>,
                            u: Index, v: Index, w: Index, txs: Pool) {
    && Branch(names, base, off, u, v) && Branch(names, base, on, u, w) && BranchPays(u, off)
    && PoolConnects(v, txs) && NamedPool(names, txs)
  }

  /** The pool after the old branch has come back. */
  lemma BackFacts(names: Naming, base: seq<Block>, off: seq<Block>, on: seq<Block>,
                  u: Index, v: Index, w: Index, txs: Pool, standard: Tx -> bool)
    requires Switching(names, base, off, on, u, v, w, txs)
    ensures var back, vtx := Resurrected(txs, AllTxs(off), standard), AllTxs(off);
      && ReturnedTo(txs, vtx, back, standard) && NamedPool(names, back) && Known(back, AllTxs(on))
      && (forall h :: h in back ==> h !in u && Loose(back[h]))
      && (forall j :: 0 <= j < |vtx| ==> (vtx[j].hash in back <==> Back(vtx[j], standard)))
  {
    BranchFacts(names, base, off, u, v);
    BranchFacts(names, base, on, u, w);
    BranchNotRefused(names, base, off, u, v, txs);
    var vtx := AllTxs(off);
    hide Branch, AllTxs, Applied, BranchPays;
    AllReturn(txs, vtx, standard);
    hide Resurrected;
    BackNamed(names, u, v, txs, vtx, Resurrected(txs, vtx, standard), standard);
    KnownByName(names, Resurrected(txs, vtx, standard), AllTxs(on));
  }

  lemma BackNamed(names: Naming, u: Index, v: Index, txs: Pool, vtx: seq<Tx>, back: Pool, standard: Tx -> bool)
    requires ReturnedTo(txs, vtx, back, standard) && NoneRefused(txs, vtx) && Named(names, vtx) && NamedPool(names, txs)
    requires PoolConnects(v, txs) && u.Keys <= v.Keys && u.Keys !! Hashes(vtx)
    ensures NamedPool(names, back)
    ensures forall h :: h in back ==> h !in u && Loose(back[h])
    ensures forall j :: 0 <= j < |vtx| ==> (vtx[j].hash in back <==> Back(vtx[j], standard))
  {
    forall h | h in back
      ensures back[h].hash == h && names.tx(h) == back[h] && h !in u && Loose(back[h])
    {
      if h in txs {
        assert TxConnects(v, txs, h);
      } else {
        var j :| 0 <= j < |vtx| && vtx[j] == back[h] && vtx[j].hash == h && Back(vtx[j], standard);
        assert h in Hashes(vtx);
      }
    }
    hide Loose, NoClash;
    assert forall j :: 0 <= j < |vtx| ==> vtx[j].hash !in txs;
  }

  /** No pool transaction spends an output of a transaction of the old branch that neither comes back nor is in
      the new branch. */
  ghost predicate NoneLost(rest: Pool, off: seq<Tx>, on: seq<Tx>, standard: Tx -> bool) {
    forall h, j :: h in rest && 0 <= j < |off| && !Back(off[j], standard) && off[j].hash !in Hashes(on) ==>
      !SpendsOutputOf(rest[h], off[j])
  }

  /** An input that is left to a transaction of the new pool. */
  lemma InputOnNewTip(names: Naming, base: seq<Block>, off: seq<Block>, on: seq<Block>, u: Index, v: Index, w: Index,
                      txs: Pool, back: Pool, rest: Pool, standard: Tx -> bool, tx: Tx, o: OutPoint)
    requires Switching(names, base, off, on, u, v, w, txs) && back == Resurrected(txs, AllTxs(off), standard)
    requires Left(back, rest, Hashes(AllTxs(on))) && NoneLost(rest, AllTxs(off), AllTxs(on), standard)
    requires tx.hash in rest && rest[tx.hash] == tx && o in tx.vin
    requires forall j :: 0 <= j < |AllTxs(on)| ==> NoClash(rest, AllTxs(on)[j])
    requires Spendable(View(u, Everything(names, txs, AllTxs(off))), o)
    ensures Holds(View(w, rest), o, View(u, Everything(names, txs, AllTxs(off)))[o.hash].vout[o.n])
  {
    hide AllTxs, Applied, Resurrected, Loose, NoneLost, Left, ReturnedTo, Branch, NoClash, Everything, View, Stays,
         Known, Named, PoolConnects, AllSpent, Once;
    BackFacts(names, base, off, on, u, v, w, txs, standard);
    BranchFacts(names, base, off, u, v);
    BranchFacts(names, base, on, u, w);
    var every, gone := Everything(names, txs, AllTxs(off)), AllTxs(on);
    EverythingNamed(names, txs, AllTxs(off));
    KnownByName(names, every, gone);
    hide NamedPool;
    forall j | 0 <= j < |gone| ensures o !in gone[j].vin {
      NoClashAt(rest, tx, gone[j], o);
    }
    InputStays(u, on, every, o);
    StillOffered(names, AllTxs(off), gone, u, w, txs, back, rest, standard, tx, o);
  }

  lemma NoClashAt(rest: Pool, tx: Tx, other: Tx, o: OutPoint)
    requires NoClash(rest, other) && tx.hash in rest && rest[tx.hash] == tx && o in tx.vin
    ensures o !in other.vin
  {
    assert !SharesInput(tx, other);
  }

  lemma StillOffered(names: Naming, off: seq<Tx>, gone: seq<Tx>, u: Index, w: Index, txs: Pool, back: Pool, rest: Pool,
                     standard: Tx -> bool, tx: Tx, o: OutPoint)
    requires ReturnedTo(txs, off, back, standard) && NamedPool(names, txs) && Named(names, off)
             && NamedPool(names, back)
    requires Left(back, rest, Hashes(gone)) && NoneLost(rest, off, gone, standard)
    requires tx.hash in rest && rest[tx.hash] == tx && o in tx.vin && w.Keys == u.Keys + Hashes(gone)
    requires Stays(u, Everything(names, txs, off), gone, w, o) && Spendable(View(u, Everything(names, txs, off)), o)
    ensures Holds(View(w, rest), o, View(u, Everything(names, txs, off))[o.hash].vout[o.n])
  {
    hide ReturnedTo, Named, NamedPool, Left, NoneLost, Loose, Everything, View;
    var every := Everything(names, txs, off);
    ViewAt(u, every, o);
    ViewAt(w, rest, o);
    if o.hash !in w {
      NotLost(names, off, gone, txs, back, rest, standard, tx, o);
    }
  }

  /** What is neither in the index nor in the new branch is in the pool still, unless it is lost. */
  lemma NotLost(names: Naming, off: seq<Tx>, gone: seq<Tx>, txs: Pool, back: Pool, rest: Pool, standard: Tx -> bool,
                tx: Tx, o: OutPoint)
    requires ReturnedTo(txs, off, back, standard) && NamedPool(names, txs) && Named(names, off)
             && NamedPool(names, back)
    requires Left(back, rest, Hashes(gone)) && NoneLost(rest, off, gone, standard)
    requires tx.hash in rest && rest[tx.hash] == tx && o in tx.vin && o.Out?
    requires o.hash in Everything(names, txs, off) && o.n < |Everything(names, txs, off)[o.hash].vout|
    requires o.hash !in Hashes(gone)
    ensures o.hash in rest && rest[o.hash] == Everything(names, txs, off)[o.hash]
  {
    hide Loose;
    var parent := names.tx(o.hash);
    forall j | 0 <= j < |off| && off[j].hash == o.hash ensures o.hash in back {
      assert off[j] == parent && SpendsOutputOf(tx, parent);
    }
    assert o.hash in back;
    hide NoneLost, ReturnedTo;
    assert back[o.hash] == parent;
    assert SpendsOutputOf(tx, back[o.hash]);
  }

  /** The pool connects to the new tip exactly when nothing left in it lost its parent. */
  lemma SwitchConnects(names: Naming, base: seq<Block>, off: seq<Block>, on: seq<Block>, u: Index, v: Index,
                       w: Index, txs: Pool, back: Pool, rest: Pool, standard: Tx -> bool)
    requires Switching(names, base, off, on, u, v, w, txs) && back == Resurrected(txs, AllTxs(off), standard)
    requires Left(back, rest, Hashes(AllTxs(on)))
    requires forall j :: 0 <= j < |AllTxs(on)| ==> NoClash(rest, AllTxs(on)[j])
    ensures PoolConnects(w, rest) <==> NoneLost(rest, AllTxs(off), AllTxs(on), standard)
  {
    BackFacts(names, base, off, on, u, v, w, txs, standard);
    BranchFacts(names, base, off, u, v);
    BranchFacts(names, base, on, u, w);
    hide AllTxs, Applied, Resurrected, TxConnects, NoneLost, NoClash, Loose, Hashes;
    if NoneLost(rest, AllTxs(off), AllTxs(on), standard) {
      forall h | h in rest ensures TxConnects(w, rest, h) {
        ConnectsToNewTip(names, base, off, on, u, v, w, txs, back, rest, standard, h);
      }
    }
    if PoolConnects(w, rest) {
      LostIsNotSpent(w, rest, AllTxs(off), AllTxs(on), back, u, standard);
    }
  }

  lemma LostIsNotSpent(w: Index, rest: Pool, off: seq<Tx>, gone: seq<Tx>, back: Pool, u: Index, standard: Tx -> bool)
    requires PoolConnects(w, rest) && Left(back, rest, Hashes(gone)) && w.Keys == u.Keys + Hashes(gone)
             && u.Keys !! Hashes(off)
    requires forall j :: 0 <= j < |off| ==> (off[j].hash in back <==> Back(off[j], standard))
    ensures NoneLost(rest, off, gone, standard)
  {
    hide TxConnects, Loose, SpendsOutputOf;
    forall h, j | h in rest && 0 <= j < |off| && !Back(off[j], standard) && off[j].hash !in Hashes(gone)
      ensures !SpendsOutputOf(rest[h], off[j])
    {
      assert off[j].hash in Hashes(off);
      SpendsWhatIsThere(w, rest, h, off[j]);
    }
  }

  lemma ConnectsToNewTip(names: Naming, base: seq<Block>, off: seq<Block>, on: seq<Block>, u: Index, v: Index,
                         w: Index, txs: Pool, back: Pool, rest: Pool, standard: Tx -> bool, h: Hash)
    requires Switching(names, base, off, on, u, v, w, txs) && back == Resurrected(txs, AllTxs(off), standard)
    requires Left(back, rest, Hashes(AllTxs(on))) && NoneLost(rest, AllTxs(off), AllTxs(on), standard) && h in rest
    requires forall j :: 0 <= j < |AllTxs(on)| ==> NoClash(rest, AllTxs(on)[j])
    ensures TxConnects(w, rest, h)
  {
    hide AllTxs, Applied, Resurrected, NoneLost, NoClash, Loose, Pays, Everything, View, Branch, ReturnedTo, Known,
         Named, PoolConnects, AllSpent, Once, Holds;
    BackFacts(names, base, off, on, u, v, w, txs, standard);
    BranchFacts(names, base, on, u, w);
    IsOffered(names, base, off, on, u, v, w, txs, back, standard, h);
    var all, tx := View(u, Everything(names, txs, AllTxs(off))), rest[h];
    forall i | 0 <= i < |tx.vin|
      ensures Holds(View(w, rest), tx.vin[i], all[tx.vin[i].hash].vout[tx.vin[i].n])
    {
      InputOnNewTip(names, base, off, on, u, v, w, txs, back, rest, standard, tx, tx.vin[i]);
    }
    OffersSame(all, View(w, rest), tx);
  }

  lemma IsOffered(names: Naming, base: seq<Block>, off: seq<Block>, on: seq<Block>, u: Index, v: Index, w: Index,
                  txs: Pool, back: Pool, standard: Tx -> bool, h: Hash)
    requires Switching(names, base, off, on, u, v, w, txs) && back == Resurrected(txs, AllTxs(off), standard)
             && h in back
    ensures var all := View(u, Everything(names, txs, AllTxs(off))); Funded(all, back[h]) && Pays(all, back[h])
  {
    BackFacts(names, base, off, on, u, v, w, txs, standard);
    hide Resurrected, TxConnects, Loose, Pays, AllTxs, BranchPays, Branch;
    if h in txs {
      OldIsOffered(names, base, off, u, v, txs, h);
    } else {
      var i :| 0 <= i < |AllTxs(off)| && AllTxs(off)[i] == back[h] && AllTxs(off)[i].hash == h;
      FindTx(off, i);
      var k, j :| 0 <= k < |off| && 0 <= j < |off[k].vtx| && off[k].vtx[j] == AllTxs(off)[i];
      NewIsOffered(names, base, off, u, v, txs, k, j);
    }
  }

  // ------------------------------------------------------------------ what leaves with the new branch

  /** A transaction stays unless it is in the new branch or descends from a conflict with it. */
  ghost predicate Survives(back: Pool, gone: seq<Tx>, h: Hash) {
    h in back && h !in Hashes(gone) && forall j :: 0 <= j < |gone| ==> !InConflict(back, gone[j], h)
  }

  /** A transaction in conflict with the new branch is not itself in it. */
  lemma ConflictOutside(names: Naming, w: Index, back: Pool, gone: seq<Tx>, c: Hash, j: nat)
    requires NamedPool(names, back) && Named(names, gone) && Once(gone) && j < |gone|
    requires c in back && c != gone[j].hash && Loose(back[c]) && SharesInput(back[c], gone[j])
    ensures c !in Hashes(gone)
  {
    var i, n :| 0 <= i < |back[c].vin| && 0 <= n < |gone[j].vin| && back[c].vin[i] == gone[j].vin[n];
    var o := back[c].vin[i];
    assert o in back[c].vin && o in gone[j].vin && o.Out?;
    hide Loose, SharesInput;
    forall k | 0 <= k < |gone| ensures gone[k].hash != c {
      OnceApart(gone, k, j, o);
    }
  }

  lemma OnceApart(vtx: seq<Tx>, k: nat, j: nat, o: OutPoint)
    requires Once(vtx) && k < |vtx| && j < |vtx| && o.Out? && o in vtx[j].vin
    ensures k != j ==> o !in vtx[k].vin
  {
    if k < j {
      OnceBefore(vtx, k, j, o);
    } else if j < k {
      OnceBefore(vtx, j, k, o);
    }
  }

  lemma OnceBefore(vtx: seq<Tx>, i: nat, j: nat, o: OutPoint)
    requires Once(vtx) && i < j < |vtx| && !o.NullOut?
    ensures !(o in vtx[i].vin && o in vtx[j].vin)
  {
  }

  lemma OnlyFromIndex(w: Index, vtx: seq<Tx>, k: nat, o: OutPoint)
    requires AllSpent(w, vtx) && k < |vtx| && o.Out? && o.hash !in w
    ensures o !in vtx[k].vin
  {
  }

  /** A child of a pool transaction that is neither in the index nor in the new branch is not in it either. */
  lemma ChildOutside(names: Naming, u: Index, w: Index, back: Pool, gone: seq<Tx>, a: Hash, c: Hash)
    requires NamedPool(names, back) && Named(names, gone) && AllSpent(w, gone) && w.Keys == u.Keys + Hashes(gone)
    requires a in back && c in back && a !in u && a !in Hashes(gone) && SpendsOutputOf(back[c], back[a])
    ensures c !in Hashes(gone)
  {
    var i :| 0 <= i < |back[c].vin| && back[c].vin[i].Out? && back[c].vin[i].hash == back[a].hash;
    var o := back[c].vin[i];
    assert o in back[c].vin && o.hash !in w;
    forall k | 0 <= k < |gone| ensures gone[k].hash != c {
      OnlyFromIndex(w, gone, k, o);
    }
  }

  lemma {:induction false} LineIsGone(names: Naming, u: Index, w: Index, back: Pool, rest: Pool, gone: seq<Tx>,
                                      p: seq<Hash>)
    requires NamedPool(names, back) && Named(names, gone) && AllSpent(w, gone) && w.Keys == u.Keys + Hashes(gone)
    requires Left(back, rest, Hashes(gone)) && (forall h :: h in back ==> h !in u)
    requires |p| > 0 && IsLine(back, p) && p[0] !in rest && p[0] !in Hashes(gone)
    ensures p[|p|-1] !in rest && p[|p|-1] !in Hashes(gone)
  {
    if |p| > 1 {
      var q := p[..|p|-1];
      assert IsLine(back, q);
      LineIsGone(names, u, w, back, rest, gone, q);
      assert SpendsOutputOf(back[p[|p|-1]], back[p[|p|-2]]);
      ChildOutside(names, u, w, back, gone, p[|p|-2], p[|p|-1]);
    }
  }

  lemma ConflictIsGone(names: Naming, u: Index, w: Index, back: Pool, rest: Pool, gone: seq<Tx>, j: nat, h: Hash)
    requires NamedPool(names, back) && Named(names, gone) && AllSpent(w, gone) && w.Keys == u.Keys + Hashes(gone)
             && Once(gone)
    requires Left(back, rest, Hashes(gone)) && forall x :: x in back ==> x !in u && Loose(back[x])
    requires j < |gone| && NoClash(rest, gone[j]) && InConflict(back, gone[j], h)
    ensures h !in rest
  {
    hide Loose, AllSpent, Named, NamedPool, Once, SharesInput, SpendsOutputOf;
    var c :| c in back && c != gone[j].hash && SharesInput(back[c], gone[j]) && Descends(back, c, h);
    ConflictOutside(names, w, back, gone, c, j);
    var p :| |p| > 0 && IsLine(back, p) && p[0] == c && p[|p|-1] == h;
    LineIsGone(names, u, w, back, rest, gone, p);
  }

  /** No survivor spends an output of a transaction of the old branch that neither comes back nor is in the new
      branch. */
  ghost predicate NoneOrphanedBy(back: Pool, off: seq<Tx>, gone: seq<Tx>, standard: Tx -> bool) {
    forall h, j ::
      Survives(back, gone, h) && 0 <= j < |off| && !Back(off[j], standard) && off[j].hash !in Hashes(gone) ==>
        !SpendsOutputOf(back[h], off[j])
  }

  lemma SurvivorsAreLeft(back: Pool, rest: Pool, off: seq<Tx>, gone: seq<Tx>, standard: Tx -> bool)
    requires Part(rest, back) && forall h :: h in rest <==> Survives(back, gone, h)
    ensures NoneLost(rest, off, gone, standard) <==> NoneOrphanedBy(back, off, gone, standard)
  {
    hide SpendsOutputOf, Back, Hashes, InConflict;
    if NoneLost(rest, off, gone, standard) {
      forall h, j | Survives(back, gone, h) && 0 <= j < |off| && !Back(off[j], standard)
        && off[j].hash !in Hashes(gone)
        ensures !SpendsOutputOf(back[h], off[j])
      {
        assert h in rest && rest[h] == back[h];
      }
    }
  }

  /** Reorganize, as far as the pool is concerned.  What is left is what came back or was there, less the new
      branch and the descendants of conflicts with it; and it connects to the new tip exactly when none of that
      spends an output of a transaction of the old branch that did not come back and is not in the new one. */
  method Reorganize(pool: TxPool, ghost names: Naming, ghost base: seq<Block>, ghost off: seq<Block>,
                    ghost on: seq<Block>, ghost u: Index, ghost v: Index, w: Index,
                    resurrect: seq<Tx>, delete: seq<Tx>, standard: Tx -> bool)
    requires pool.Valid() && Switching(names, base, off, on, u, v, w, pool.txs)
    requires resurrect == AllTxs(off) && delete == AllTxs(on)
    requires forall j, i :: 0 <= j < |resurrect| && 0 <= i < |resurrect[j].vin| && resurrect[j].vin[i].Out?
               ==> pool.rank(resurrect[j].vin[i].hash) < pool.rank(resurrect[j].hash)
    modifies pool
    ensures pool.Valid()
    ensures var back := Resurrected(old(pool.txs), resurrect, standard);
      && ReturnedTo(old(pool.txs), resurrect, back, standard) && Part(pool.txs, back)
      && (forall h :: h in pool.txs <==> Survives(back, delete, h))
      && (PoolConnects(w, pool.txs) <==> NoneOrphanedBy(back, resurrect, delete, standard))
  {
    ghost var txs := pool.txs;
    BackFacts(names, base, off, on, u, v, w, txs, standard);
    BranchFacts(names, base, on, u, w);
    hide Switching, AllTxs, Applied, Resurrected, Loose, ReturnedTo, Hashes, InConflict, SpendsOutputOf, PoolConnects,
         Indexed, Ranked, NoClash, Once, AllSpent, Named, NamedPool, Branch, Known, Back, NoneRefused, NoneLost;
    pool.Resurrect(w, resurrect, standard);
    ghost var back := pool.txs;
    pool.DeleteIncluded(delete, true);
    ghost var rest := pool.txs;
    SwitchConnects(names, base, off, on, u, v, w, txs, back, rest, standard);
    forall h | h in back
      ensures h in rest <==> Survives(back, delete, h)
    {
      forall j | 0 <= j < |delete| && InConflict(back, delete[j], h) ensures h !in rest {
        ConflictIsGone(names, u, w, back, rest, delete, j, h);
      }
    }
    SurvivorsAreLeft(back, rest, resurrect, delete, standard);
  }
}
