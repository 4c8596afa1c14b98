/** Txids: the height in front of every coinbase keeps two transactions of one chain from having the
    same one.  So nothing is ever overwritten in the index, and every block can be disconnected again. */
module TxIds {
  import opened Options
  import opened ByteStrings
  import Compact
  import opened Ledger

  // ------------------------------------------------------------------ a script that starts with a height

  /** Heights are 32-bit numbers with a sign. */
  const HEIGHT_LIMIT := 0x8000_0000

  const OP_1 := 0x51

  /** CScript() << n: an opcode for 1 to 16, or else the bytes of the number behind their count. */
  function HeightScript(n: nat): Bytes
    requires n < HEIGHT_LIMIT
  {
    if 1 <= n <= 16 then [n + OP_1 - 1] else
      assert |Compact.GetVch(n)| <= 5 by { FewBytes(n); }
      [|Compact.GetVch(n)|] + Compact.GetVch(n)
  }

  lemma FewBytes(n: nat)
    requires n < HEIGHT_LIMIT
    ensures |Compact.GetVch(n)| <= 5
  {
    BeFits(n, 4);
    hide Be;
    assert Power256(4) == 0x1_0000_0000;
  }

  lemma {:induction false} BeFits(n: nat, k: nat)
    requires n < Power256(k)
    ensures |Be(n)| <= k
  {
    if n != 0 {
      BeFits(n / 256, k - 1);
    }
  }

  /** What heights look like: one byte up to 16, and otherwise a count and the bytes of the number, the lowest first,
      with one more byte when the top bit of the last one is taken. */
  lemma HeightBytes(n: nat)
    requires n < HEIGHT_LIMIT
    ensures HeightScript(n)
            == if n == 0 then [0] else if n <= 16 then [0x50 + n]
               else if n < 0x80 then [1, n]
               else if n < 0x8000 then [2, n % 256, n / 256]
               else if n < 0x80_0000 then [3, n % 256, n / 256 % 256, n / 0x1_0000]
               else [4, n % 256, n / 256 % 256, n / 0x1_0000 % 256, n / 0x100_0000]
  {
    hide Be, Reverse;
    BeOf(n);
    MpiOf(n);
    ReverseOf(Compact.Mpi(n));
    hide Compact.Mpi;
  }

  lemma MpiOf(n: nat)
    ensures Compact.Mpi(n) == if n == 0 then [] else if Be(n)[0] >= 128 then [0] + Be(n) else Be(n)
  {
    hide Be;
  }

  lemma BeOf(n: nat)
    requires n < HEIGHT_LIMIT
    ensures Be(n) == if n == 0 then [] else if n < 256 then [n] else if n < 0x1_0000 then [n / 256, n % 256]
                     else if n < 0x100_0000 then [n / 0x1_0000, n / 256 % 256, n % 256]
                     else [n / 0x100_0000, n / 0x1_0000 % 256, n / 256 % 256, n % 256]
  {
    hide Be;
    BeOne(n / 0x100_0000);
    BeOne(n / 0x1_0000);
    BeOne(n / 256);
    BeOne(n);
    BeMore(n / 0x1_0000);
    BeMore(n / 256);
    BeMore(n);
    assert n / 256 / 256 == n / 0x1_0000 && n / 0x1_0000 / 256 == n / 0x100_0000;
  }

  lemma BeOne(n: nat)
    ensures n == 0 ==> Be(n) == []
    ensures 0 < n < 256 ==> Be(n) == [n]
  {
    if 0 < n < 256 {
      assert Be(n / 256) == [];
    }
  }

  lemma BeMore(n: nat)
    ensures n != 0 ==> Be(n) == Be(n / 256) + [n % 256]
  {
  }

  lemma ReverseOf(b: Bytes)
    ensures |b| == 0 ==> Reverse(b) == []
    ensures |b| == 1 ==> Reverse(b) == [b[0]]
    ensures |b| == 2 ==> Reverse(b) == [b[1], b[0]]
    ensures |b| == 3 ==> Reverse(b) == [b[2], b[1], b[0]]
    ensures |b| == 4 ==> Reverse(b) == [b[3], b[2], b[1], b[0]]
  {
    hide Reverse;
    if 1 <= |b| <= 4 {
      var x, y, z, w := b[0], if |b| > 1 then b[1] else 0, if |b| > 2 then b[2] else 0, if |b| > 3 then b[3] else 0;
      ReverseFour(x, y, z, w);
      assert b == if |b| == 1 then [x] else if |b| == 2 then [x, y] else if |b| == 3 then [x, y, z] else [x, y, z, w];
    }
  }

  lemma ReverseFour(x: Byte, y: Byte, z: Byte, w: Byte)
    ensures Reverse([x]) == [x] && Reverse([x, y]) == [y, x]
    ensures Reverse([x, y, z]) == [z, y, x] && Reverse([x, y, z, w]) == [w, z, y, x]
  {
    hide Reverse;
    ReversePush([x], y);
    ReversePush([x, y], z);
    ReversePush([x, y, z], w);
    assert [x] + [y] == [x, y] && [x, y] + [z] == [x, y, z] && [x, y, z] + [w] == [x, y, z, w];
  }

  /** No script starts with two heights. */
  lemma HeightIsUnique(m: nat, n: nat, script: Bytes)
    requires m < HEIGHT_LIMIT && n < HEIGHT_LIMIT
    requires HeightScript(m) <= script && HeightScript(n) <= script
    ensures m == n
  {
    HeightParts(m, script);
    HeightParts(n, script);
    Compact.VchRoundTrip(m);
    Compact.VchRoundTrip(n);
    hide HeightScript, Compact.GetVch, Compact.SetVch;
  }

  /** How a script that starts with a height starts. */
  lemma HeightParts(n: nat, script: Bytes)
    requires n < HEIGHT_LIMIT && HeightScript(n) <= script
    ensures var v := Compact.GetVch(n);
      && |v| <= 5 && |script| > 0
      && if 1 <= n <= 16 then script[0] == n + OP_1 - 1
         else script[0] == |v| && |v| < |script| && script[1..1 + |v|] == v
  {
    FewBytes(n);
    hide Compact.GetVch;
    var h := HeightScript(n);
    assert script[0] == h[0];
    assert script[..|h|][1..] == h[1..];
    if !(1 <= n <= 16) {
      assert script[1..|h|] == h[1..] == Compact.GetVch(n);
    }
  }

  // ------------------------------------------------------------------ what a txid says

  /** A txid is the hash of the transaction: it names one transaction, with one script in its first input. */
  datatype Naming = Naming(tx: Hash -> Tx, script: Hash -> Bytes)

  predicate Named(names: Naming, vtx: seq<Tx>) {
    forall j :: 0 <= j < |vtx| ==> names.tx(vtx[j].hash) == vtx[j]
  }

  /** The rule of AcceptBlock for a block at height n. */
  predicate HeightRule(names: Naming, b: Block, n: nat) {
    |b.vtx| > 0 && n < HEIGHT_LIMIT && HeightScript(n) <= names.script(b.vtx[0].hash)
  }

  predicate Lawful(names: Naming, b: Block, n: nat) {
    Named(names, b.vtx) && HeightRule(names, b, n)
  }

  predicate LawfulChain(names: Naming, chain: seq<Block>) {
    forall k :: 0 <= k < |chain| ==> Lawful(names, chain[k], k + 1)
  }

  function Hashes(vtx: seq<Tx>): set<Hash> {
    set j | 0 <= j < |vtx| :: vtx[j].hash
  }

  function AllTxs(bs: seq<Block>): seq<Tx> {
    if bs == [] then [] else AllTxs(bs[..|bs|-1]) + bs[|bs|-1].vtx
  }

  lemma HashesJoin(s: seq<Tx>, t: seq<Tx>)
    ensures Hashes(s + t) == Hashes(s) + Hashes(t)
  {
    forall h | h in Hashes(s) ensures h in Hashes(s + t) {
      var j :| 0 <= j < |s| && s[j].hash == h;
      assert (s + t)[j] == s[j];
    }
    forall h | h in Hashes(t) ensures h in Hashes(s + t) {
      var j :| 0 <= j < |t| && t[j].hash == h;
      assert (s + t)[|s| + j] == t[j];
    }
  }

  lemma HashesOne(tx: Tx)
    ensures Hashes([tx]) == {tx.hash}
  {
    assert [tx][0] == tx;
  }

  lemma {:induction false} NamedAll(names: Naming, chain: seq<Block>)
    requires LawfulChain(names, chain)
    ensures Named(names, AllTxs(chain))
  {
    if chain != [] {
      NamedAll(names, chain[..|chain|-1]);
      assert Lawful(names, chain[|chain|-1], |chain|);
    }
  }

  // ------------------------------------------------------------------ an index in which nothing was overwritten

  /** No two of the transactions have a txid or an input in common. */
  ghost predicate Once(vtx: seq<Tx>) {
    && (forall i, j :: 0 <= i < j < |vtx| ==> vtx[i].hash != vtx[j].hash)
    && (forall i, j, o :: 0 <= i < j < |vtx| && o in vtx[i].vin && o in vtx[j].vin ==> o.NullOut?)
  }

  ghost predicate AllSpent(v: Index, vtx: seq<Tx>) {
    forall j, o :: 0 <= j < |vtx| && o in vtx[j].vin && o.Out? ==> o.hash in v && !Spendable(v, o)
  }

  /** The index has these transactions, and all they spend is spent. */
  ghost predicate Tidy(v: Index, vtx: seq<Tx>) {
    v.Keys == Hashes(vtx) && AllSpent(v, vtx) && Once(vtx)
  }

  /** One transaction: what is not its own is spent or stays. */
  lemma AfterTx(db: Index, v: Index, tx: Tx, pos: DiskPos, h: Hash)
    requires ApplyTx(db, v, tx, pos).Some? && pos != NoPos && h != tx.hash
    ensures var w := ApplyTx(db, v, tx, pos).value;
      && (h in w <==> h in v)
      && (h in v ==>
            && w[h].pos == v[h].pos && w[h].vout == v[h].vout && |w[h].vSpent| == |v[h].vSpent|
            && forall n :: 0 <= n < |v[h].vSpent| ==>
                 w[h].vSpent[n] == if Out(h, n) in tx.vin then pos else v[h].vSpent[n])
  {
    if tx.IsCoinBase() {
      assert forall n :: Out(h, n) !in tx.vin;
    } else {
      SpendInputsMarks(v, tx.vin, pos);
    }
  }

  /** What a transaction spends is there before it. */
  lemma InputsFound(db: Index, v: Index, tx: Tx, pos: DiskPos, o: OutPoint)
    requires ApplyTx(db, v, tx, pos).Some? && pos != NoPos && o in tx.vin && o.Out?
    ensures Spendable(v, o)
  {
    SpendInputsMarks(v, tx.vin, pos);
  }

  /** A transaction that spends something was not in the chain: what it spends would be spent. */
  lemma NotBefore(names: Naming, db: Index, v: Index, vtx: seq<Tx>, tx: Tx, pos: DiskPos)
    requires Tidy(v, vtx) && Named(names, vtx) && Named(names, [tx])
    requires CheckTransaction(tx) && !tx.IsCoinBase() && ApplyTx(db, v, tx, pos).Some? && pos != NoPos
    ensures tx.hash !in Hashes(vtx)
  {
    assert [tx][0] == tx;
    if tx.hash in Hashes(vtx) {
      var j :| 0 <= j < |vtx| && vtx[j].hash == tx.hash;
      assert tx.vin[0] in vtx[j].vin;
      InputsFound(db, v, tx, pos, tx.vin[0]);
    }
  }

  lemma HeightsDiffer(names: Naming, a: Block, m: nat, b: Block, n: nat)
    requires HeightRule(names, a, m) && HeightRule(names, b, n) && m != n
    ensures a.vtx[0].hash != b.vtx[0].hash
  {
    hide HeightScript;
    if a.vtx[0].hash == b.vtx[0].hash {
      HeightIsUnique(m, n, names.script(b.vtx[0].hash));
    }
  }

  lemma NotInBlock(names: Naming, a: Block, m: nat, b: Block, n: nat, j: nat)
    requires Lawful(names, a, m) && Lawful(names, b, n) && m != n && CheckBlock(a) && CheckBlock(b) && j < |a.vtx|
    ensures a.vtx[j].hash != b.vtx[0].hash
  {
    HeightsDiffer(names, a, m, b, n);
    hide HeightRule;
    assert names.tx(a.vtx[j].hash) == a.vtx[j] && names.tx(b.vtx[0].hash) == b.vtx[0];
  }

  /** A coinbase was not in the chain: it would start with another height. */
  lemma {:induction false} CoinbaseNotBefore(names: Naming, chain: seq<Block>, b: Block, n: nat)
    requires LawfulChain(names, chain) && Lawful(names, b, n) && n > |chain| && CheckBlock(b)
    requires forall k :: 0 <= k < |chain| ==> CheckBlock(chain[k])
    ensures b.vtx[0].hash !in Hashes(AllTxs(chain))
  {
    hide CheckBlock, HeightRule;
    if chain != [] {
      var k := |chain| - 1;
      CoinbaseNotBefore(names, chain[..k], b, n);
      assert Lawful(names, chain[k], k + 1);
      NotAmong(names, chain[k], k + 1, b, n);
      HashesJoin(AllTxs(chain[..k]), chain[k].vtx);
    }
  }

  lemma NotAmong(names: Naming, a: Block, m: nat, b: Block, n: nat)
    requires Lawful(names, a, m) && Lawful(names, b, n) && m != n && CheckBlock(a) && CheckBlock(b)
    ensures b.vtx[0].hash !in Hashes(a.vtx)
  {
    hide Named, CheckBlock;
    forall j | 0 <= j < |a.vtx| ensures a.vtx[j].hash != b.vtx[0].hash {
      NotInBlock(names, a, m, b, n, j);
    }
  }

  lemma TidyNext(db: Index, v: Index, vtx: seq<Tx>, tx: Tx, pos: DiskPos)
    requires Tidy(v, vtx) && ApplyTx(db, v, tx, pos).Some? && pos != NoPos && tx.hash !in Hashes(vtx)
    ensures Tidy(ApplyTx(db, v, tx, pos).value, vtx + [tx])
  {
    var w, more := ApplyTx(db, v, tx, pos).value, vtx + [tx];
    HashesJoin(vtx, [tx]);
    HashesOne(tx);
    SpentNext(db, v, vtx, tx, pos);
    OnceNext(db, v, vtx, tx, pos);
    assert tx.hash in w;
    forall h | h != tx.hash ensures h in w <==> h in v {
      AfterTx(db, v, tx, pos, h);
    }
  }

  lemma SpentNext(db: Index, v: Index, vtx: seq<Tx>, tx: Tx, pos: DiskPos)
    requires Tidy(v, vtx) && ApplyTx(db, v, tx, pos).Some? && pos != NoPos && tx.hash !in Hashes(vtx)
    ensures AllSpent(ApplyTx(db, v, tx, pos).value, vtx + [tx])
  {
    var w, more := ApplyTx(db, v, tx, pos).value, vtx + [tx];
    hide ApplyTx;
    forall j, o | 0 <= j < |more| && o in more[j].vin && o.Out?
      ensures o.hash in w && !Spendable(w, o)
    {
      if j < |vtx| {
        assert more[j] == vtx[j];
      } else {
        InputsFound(db, v, tx, pos, o);
      }
      AfterTx(db, v, tx, pos, o.hash);
    }
  }

  lemma OnceNext(db: Index, v: Index, vtx: seq<Tx>, tx: Tx, pos: DiskPos)
    requires Tidy(v, vtx) && ApplyTx(db, v, tx, pos).Some? && pos != NoPos && tx.hash !in Hashes(vtx)
    ensures Once(vtx + [tx])
  {
    var more := vtx + [tx];
    hide ApplyTx;
    assert forall j :: 0 <= j < |vtx| ==> vtx[j].hash in Hashes(vtx);
    forall i, j, o | 0 <= i < j < |more| && o in more[i].vin && o in more[j].vin
      ensures o.NullOut?
    {
      assert more[i] == vtx[i];
      if o.Out? && j == |vtx| {
        InputsFound(db, v, tx, pos, o);
      }
    }
  }

  lemma {:induction false} BlockTidy(names: Naming, chain: seq<Block>, v: Index, b: Block, i: nat)
    requires LawfulChain(names, chain) && Lawful(names, b, |chain| + 1) && CheckBlock(b)
    requires forall k :: 0 <= k < |chain| ==> CheckBlock(chain[k])
    requires Tidy(v, AllTxs(chain)) && i <= |b.vtx| && ApplyTxs(v, b, i).Some?
    ensures Tidy(ApplyTxs(v, b, i).value, AllTxs(chain) + b.vtx[..i])
  {
    hide Tidy, Lawful, LawfulChain, AllTxs;
    if i == 0 {
      assert AllTxs(chain) + b.vtx[..0] == AllTxs(chain);
    } else {
      var k := i - 1;
      var before, done, tx, pos := ApplyTxs(v, b, k).value, AllTxs(chain) + b.vtx[..k], b.vtx[k], TxPos(b, k);
      BlockTidy(names, chain, v, b, k);
      if k == 0 {
        CoinbaseNotBefore(names, chain, b, |chain| + 1);
        assert done == AllTxs(chain);
      } else {
        NamedSoFar(names, chain, b, k);
        NotBefore(names, v, before, done, tx, pos);
      }
      TidyNext(v, before, done, tx, pos);
      assert b.vtx[..i] == b.vtx[..k] + [tx];
      assert done + [tx] == AllTxs(chain) + b.vtx[..i];
    }
  }

  lemma NamedSoFar(names: Naming, chain: seq<Block>, b: Block, k: nat)
    requires LawfulChain(names, chain) && Lawful(names, b, |chain| + 1) && k < |b.vtx|
    ensures Named(names, AllTxs(chain) + b.vtx[..k]) && Named(names, [b.vtx[k]])
  {
    hide HeightRule, LawfulChain, AllTxs;
    NamedAll(names, chain);
    NamedJoin(names, AllTxs(chain), b.vtx[..k]);
  }

  lemma NamedJoin(names: Naming, s: seq<Tx>, t: seq<Tx>)
    requires Named(names, s) && Named(names, t)
    ensures Named(names, s + t)
  {
  }

  // ------------------------------------------------------------------ every chain and every run

  lemma {:induction false} ReplayChecks(chain: seq<Block>)
    requires Replay(chain).Some?
    ensures forall k :: 0 <= k < |chain| ==> CheckBlock(chain[k])
  {
    if chain != [] {
      ReplayChecks(chain[..|chain|-1]);
    }
  }

  lemma TidyAtFirst()
    ensures Tidy(map[], [])
  {
  }

  lemma {:induction false} ReplayTidy(names: Naming, chain: seq<Block>)
    requires LawfulChain(names, chain) && Replay(chain).Some?
    ensures Tidy(Replay(chain).value, AllTxs(chain))
  {
    hide Tidy, Lawful;
    if chain == [] {
      TidyAtFirst();
    } else {
      var less, b := chain[..|chain|-1], chain[|chain|-1];
      assert Lawful(names, b, |less| + 1);
      ReplayTidy(names, less);
      ReplayChecks(less);
      BlockTidy(names, less, Replay(less).value, b, |b.vtx|);
      assert b.vtx[..|b.vtx|] == b.vtx;
    }
  }

  lemma {:induction false} AllHashes(chain: seq<Block>)
    ensures Hashes(AllTxs(chain)) == ChainHashes(chain)
  {
    if chain != [] {
      AllHashes(chain[..|chain|-1]);
      HashesJoin(AllTxs(chain[..|chain|-1]), chain[|chain|-1].vtx);
      assert Hashes(chain[|chain|-1].vtx) == TxHashes(chain[|chain|-1]);
    }
  }

  lemma {:induction false} ReplayPrefix(chain: seq<Block>, k: nat)
    requires k <= |chain| && Replay(chain).Some?
    ensures Replay(chain[..k]).Some?
  {
    if k == |chain| {
      assert chain[..k] == chain;
    } else {
      ReplayPrefix(chain[..|chain|-1], k);
      assert chain[..|chain|-1][..k] == chain[..k];
    }
  }

  /** No txid comes twice in a chain whose coinbases start with their heights. */
  lemma NoTxidRepeats(names: Naming, chain: seq<Block>)
    requires LawfulChain(names, chain) && Replay(chain).Some?
    ensures NoRepeats(chain)
  {
    forall k | 0 <= k < |chain|
      ensures TxHashes(chain[k]) !! ChainHashes(chain[..k])
    {
      ReplayPrefix(chain, k + 1);
      ReplayTidy(names, chain[..k+1]);
      LastIsNew(chain[..k+1]);
      assert chain[..k+1][..k] == chain[..k];
    }
  }

  lemma LastIsNew(chain: seq<Block>)
    requires chain != [] && Once(AllTxs(chain))
    ensures TxHashes(chain[|chain|-1]) !! ChainHashes(chain[..|chain|-1])
  {
    var less, b := chain[..|chain|-1], chain[|chain|-1];
    AllHashes(less);
    OnceSplits(AllTxs(less), b.vtx);
    assert Hashes(b.vtx) == TxHashes(b);
  }

  lemma OnceSplits(s: seq<Tx>, t: seq<Tx>)
    requires Once(s + t)
    ensures Hashes(s) !! Hashes(t)
  {
    forall i, j | 0 <= i < |s| && 0 <= j < |t|
      ensures s[i].hash != t[j].hash
    {
      assert (s + t)[i] == s[i] && (s + t)[|s| + j] == t[j];
    }
  }

  /** Every block a run connects keeps the rule at its height. */
  ghost predicate LawfulRun(names: Naming, steps: seq<Step>) {
    forall k :: 0 <= k < |steps| && steps[k].Connect? && Run(steps[..k]).Some? ==>
      Lawful(names, steps[k].block, |Run(steps[..k]).value.chain| + 1)
  }

  lemma {:induction false} LawfulRunChain(names: Naming, steps: seq<Step>)
    requires LawfulRun(names, steps) && Run(steps).Some?
    ensures LawfulChain(names, Run(steps).value.chain)
  {
    hide Next, LawfulChain, Lawful;
    if steps == [] {
      NoBlocks(names);
    } else {
      var n := |steps| - 1;
      LawfulPrefix(names, steps, n);
      LawfulRunChain(names, steps[..n]);
      assert steps[n].Connect? ==> Lawful(names, steps[n].block, |Run(steps[..n]).value.chain| + 1);
      hide LawfulRun;
      LawfulNext(names, Run(steps[..n]).value, steps[n]);
    }
  }

  lemma NoBlocks(names: Naming)
    ensures LawfulChain(names, [])
  {
  }

  lemma LawfulNext(names: Naming, s: Node, step: Step)
    requires LawfulChain(names, s.chain) && Next(s, step).Some?
    requires step.Connect? ==> Lawful(names, step.block, |s.chain| + 1)
    ensures LawfulChain(names, Next(s, step).value.chain)
  {
    hide Lawful, ApplyBlock, UndoBlock;
  }

  lemma LawfulPrefix(names: Naming, steps: seq<Step>, n: nat)
    requires LawfulRun(names, steps) && n <= |steps|
    ensures LawfulRun(names, steps[..n])
  {
    forall k | 0 <= k < n ensures steps[..n][..k] == steps[..k] {
    }
  }

  /** After every run the index is the replay of the chain, and nothing less. */
  lemma RunIsExact(names: Naming, steps: seq<Step>)
    requires LawfulRun(names, steps) && Run(steps).Some?
    ensures Replay(Run(steps).value.chain) == Some(Run(steps).value.index)
  {
    forall k | 0 <= k <= |steps| && Run(steps[..k]).Some?
      ensures NoRepeats(Run(steps[..k]).value.chain)
    {
      LawfulPrefix(names, steps, k);
      LawfulRunChain(names, steps[..k]);
      RunIsReplay(steps[..k]);
      NoTxidRepeats(names, Run(steps[..k]).value.chain);
    }
    RunIsReplayExactly(steps);
  }

  /** Disconnecting the last block of a chain gives the replay of the others. */
  lemma TipUndone(names: Naming, chain: seq<Block>)
    requires LawfulChain(names, chain) && Replay(chain).Some? && chain != []
    ensures UndoBlock(Replay(chain).value, chain[|chain|-1]) == Replay(chain[..|chain|-1])
  {
    var less := chain[..|chain|-1];
    NoTxidRepeats(names, chain);
    ReplayKeys(less);
    assert TxHashes(chain[|chain|-1]) !! ChainHashes(less);
    DisconnectUndoesConnect(Replay(less).value, chain[|chain|-1]);
  }

  /** After every run the last block can be disconnected, which gives the index of a node that never saw it. */
  lemma RunCanBeUndone(names: Naming, steps: seq<Step>)
    requires LawfulRun(names, steps) && Run(steps).Some? && Run(steps).value.chain != []
    ensures var s := Run(steps).value;
      && UndoBlock(s.index, s.chain[|s.chain|-1]).Some?
      && UndoBlock(s.index, s.chain[|s.chain|-1]) == Replay(s.chain[..|s.chain|-1])
  {
    var s := Run(steps).value;
    RunIsExact(names, steps);
    LawfulRunChain(names, steps);
    TipUndone(names, s.chain);
    ReplayPrefix(s.chain, |s.chain| - 1);
  }

  // ------------------------------------------------------------------ such chains exist

  function PlainCoinbase(n: nat): Tx {
    Tx(n, 0, [NullOut], [TxOut(1, 0, Standard)], 0)
  }

  function PlainBlock(n: nat): Block {
    Block(0, 0, 0, 1, [PlainCoinbase(n)])
  }

  /** Blocks with nothing but a coinbase, whose txid stands for its height. */
  function PlainNaming(): Naming {
    Naming((h: Hash) => PlainCoinbase(h), (h: Hash) => if h < HEIGHT_LIMIT then HeightScript(h) else [])
  }

  function PlainSteps(n: nat): (steps: seq<Step>)
    ensures |steps| == n && forall k :: 0 <= k < n ==> steps[k] == Connect(PlainBlock(k + 1))
  {
    seq(n, k requires k >= 0 => Connect(PlainBlock(k + 1)))
  }

  /** For every length there is a run that keeps the height rule and connects that many blocks. */
  lemma {:induction false} LawfulRunsExist(n: nat)
    requires n < HEIGHT_LIMIT
    ensures Run(PlainSteps(n)).Some? && |Run(PlainSteps(n)).value.chain| == n
    ensures LawfulRun(PlainNaming(), PlainSteps(n))
    ensures forall h :: h in Run(PlainSteps(n)).value.index ==> 1 <= h <= n
    decreases n
  {
    if n > 0 {
      LawfulRunsExist(n - 1);
      var steps := PlainSteps(n);
      assert steps[..n-1] == PlainSteps(n - 1);
      PlainConnects(Run(PlainSteps(n - 1)).value.index, n);
      PlainLawful(n);
      hide Lawful, PlainBlock, PlainNaming, ApplyBlock;
      OneMoreLawful(PlainNaming(), steps, n - 1);
    }
  }

  lemma OneMoreLawful(names: Naming, steps: seq<Step>, n: nat)
    requires |steps| == n + 1 && LawfulRun(names, steps[..n]) && Run(steps[..n]).Some?
    requires steps[n].Connect? ==> Lawful(names, steps[n].block, |Run(steps[..n]).value.chain| + 1)
    ensures LawfulRun(names, steps)
  {
    hide Lawful, Run;
    forall k | 0 <= k <= n && steps[k].Connect? && Run(steps[..k]).Some?
      ensures Lawful(names, steps[k].block, |Run(steps[..k]).value.chain| + 1)
    {
      if k < n {
        assert steps[..n][..k] == steps[..k] && steps[..n][k] == steps[k];
      }
    }
  }

  lemma PlainConnects(v: Index, n: nat)
    requires n !in v && 0 < n < HEIGHT_LIMIT
    ensures ApplyBlock(v, PlainBlock(n)).Some?
    ensures forall h :: h in ApplyBlock(v, PlainBlock(n)).value ==> h in v || h == n
  {
    assert ApplyTxs(v, PlainBlock(n), 0) == Some(v);
  }

  lemma PlainLawful(n: nat)
    requires n < HEIGHT_LIMIT
    ensures Lawful(PlainNaming(), PlainBlock(n), n)
  {
    hide HeightScript;
  }
}
