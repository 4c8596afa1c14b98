/** The transaction index: what connecting and disconnecting blocks does to it.

    An index entry names the disk position of a transaction and, for each of its
    outputs, the position of the spender or NoPos.  The outputs a reader would find
    at that position are kept in the entry. */
module Ledger {
  import opened Options

  type Hash = nat

  datatype OutPoint = NullOut | Out(hash: Hash, n: nat)

  /** What Solver says of an output script; an empty script marks a coinstake. */
  datatype ScriptKind = EmptyScript | Nonstandard | NullData | Standard

  datatype TxOut = TxOut(color: int, value: int, kind: ScriptKind)

  datatype Tx = Tx(hash: Hash, time: int, vin: seq<OutPoint>, vout: seq<TxOut>, size: nat)
  {
    predicate IsCoinBase() {
      |vin| == 1 && vin[0].NullOut? && |vout| >= 1
    }

    // the coin stake transaction is marked with the first output empty
    predicate IsCoinStake() {
      && |vin| > 0 && !vin[0].NullOut? && |vout| >= 2
      && vout[0].value == 0 && vout[0].kind == EmptyScript
    }
  }

  datatype Block = Block(file: nat, firstTxPos: nat, blockPos: nat, time: int, vtx: seq<Tx>)
  {
    predicate IsProofOfStake() {
      |vtx| > 1 && vtx[1].IsCoinStake()
    }
  }

  datatype DiskPos = NoPos | At(file: nat, block: nat, tx: nat)

  datatype TxIndex = TxIndex(pos: DiskPos, vout: seq<TxOut>, vSpent: seq<DiskPos>)

  type Index = map<Hash, TxIndex>

  const N_COLORS := 58

  predicate CheckColor(c: int) {
    1 <= c < N_COLORS
  }

  // ------------------------------------------------------------------ block checks

  /** The structural part of CheckTransaction. */
  predicate CheckTransaction(tx: Tx) {
    && |tx.vin| > 0
    && |tx.vout| > 0
    && (forall i :: 0 <= i < |tx.vout| ==> tx.vout[i].value >= 0)
    && (forall i, j :: 0 <= i < j < |tx.vin| ==> tx.vin[i] != tx.vin[j])
    && (tx.IsCoinBase() || forall i :: 0 <= i < |tx.vin| ==> !tx.vin[i].NullOut?)
  }

  /** The structural part of CheckBlock: one coinbase, in front; no repeated txid. */
  predicate CheckBlock(b: Block) {
    && |b.vtx| > 0
    && b.vtx[0].IsCoinBase()
    && (forall i :: 1 <= i < |b.vtx| ==> !b.vtx[i].IsCoinBase())
    && (b.IsProofOfStake() ==> forall i :: 2 <= i < |b.vtx| ==> !b.vtx[i].IsCoinStake())
    && (forall i :: 0 <= i < |b.vtx| ==> CheckTransaction(b.vtx[i]))
    && (forall i, j :: 0 <= i < j < |b.vtx| ==> b.vtx[i].hash != b.vtx[j].hash)
  }

  // ------------------------------------------------------------------ connecting

  predicate Unspent(e: TxIndex, n: nat) {
    n < |e.vSpent| && e.vSpent[n] == NoPos
  }

  predicate FullySpent(e: TxIndex) {
    forall n :: 0 <= n < |e.vSpent| ==> e.vSpent[n] != NoPos
  }

  /** The output exists and its index entry can mark it. */
  predicate Found(v: Index, o: OutPoint) {
    && o.Out?
    && o.hash in v
    && o.n < |v[o.hash].vout|
    && o.n < |v[o.hash].vSpent|
  }

  predicate Spendable(v: Index, o: OutPoint) {
    Found(v, o) && Unspent(v[o.hash], o.n)
  }

  function Mark(v: Index, o: OutPoint, spender: DiskPos): Index
    requires Found(v, o)
  {
    v[o.hash := v[o.hash].(vSpent := v[o.hash].vSpent[o.n := spender])]
  }

  function SpendInputs(v: Index, ins: seq<OutPoint>, spender: DiskPos): Option<Index>
  {
    if ins == [] then Some(v)
    else
      match SpendInputs(v, ins[..|ins|-1], spender)
      case None => None
      case Some(w) =>
        var o := ins[|ins|-1];
        if Spendable(w, o) then Some(Mark(w, o, spender)) else None
  }

  function Fresh(tx: Tx, pos: DiskPos): TxIndex {
    TxIndex(pos, tx.vout, seq(|tx.vout|, _ => NoPos))
  }

  /** A txid already in the index may be overwritten only when nothing of it is unspent. */
  predicate Overwritable(db: Index, h: Hash) {
    h in db ==> FullySpent(db[h])
  }

  /** One transaction: `db` is the index before the block, `v` the index as changed so far. */
  function ApplyTx(db: Index, v: Index, tx: Tx, pos: DiskPos): Option<Index> {
    if !Overwritable(db, tx.hash) then None
    else if tx.IsCoinBase() then Some(v[tx.hash := Fresh(tx, pos)])
    else
      match SpendInputs(v, tx.vin, pos)
      case None => None
      case Some(w) => Some(w[tx.hash := Fresh(tx, pos)])
  }

  function TxOffset(b: Block, i: nat): nat
    requires i <= |b.vtx|
  {
    if i == 0 then b.firstTxPos else TxOffset(b, i - 1) + b.vtx[i-1].size
  }

  function TxPos(b: Block, i: nat): (pos: DiskPos)
    requires i <= |b.vtx|
    ensures pos != NoPos
  {
    At(b.file, b.blockPos, TxOffset(b, i))
  }

  function SizeSum(vtx: seq<Tx>): nat {
    if vtx == [] then 0 else vtx[0].size + SizeSum(vtx[1..])
  }

  lemma {:induction false} SizesJoin(a: seq<Tx>, b: seq<Tx>)
    ensures SizeSum(a + b) == SizeSum(a) + SizeSum(b)
  {
    if a == [] {
      assert a + b == b;
    } else {
      assert (a + b)[0] == a[0] && (a + b)[1..] == a[1..] + b;
      SizesJoin(a[1..], b);
    }
  }

  /** A transaction stands in its file behind all those before it in the block. */
  lemma {:induction false} PositionIs(b: Block, i: nat)
    requires i <= |b.vtx|
    ensures TxPos(b, i) == At(b.file, b.blockPos, b.firstTxPos + SizeSum(b.vtx[..i]))
  {
    if i > 0 {
      PositionIs(b, i - 1);
      assert b.vtx[..i] == b.vtx[..i-1] + [b.vtx[i-1]];
      SizesJoin(b.vtx[..i-1], [b.vtx[i-1]]);
      assert [b.vtx[i-1]][1..] == [];
      assert SizeSum([b.vtx[i-1]]) == b.vtx[i-1].size + SizeSum([b.vtx[i-1]][1..]) == b.vtx[i-1].size;
    }
  }

  /** The index after the first i transactions of the block. */
  function ApplyTxs(db: Index, b: Block, i: nat): Option<Index>
    requires i <= |b.vtx|
  {
    if i == 0 then Some(db)
    else
      match ApplyTxs(db, b, i - 1)
      case None => None
      case Some(v) => ApplyTx(db, v, b.vtx[i-1], TxPos(b, i - 1))
  }

  function ApplyBlock(db: Index, b: Block): Option<Index> {
    if CheckBlock(b) then ApplyTxs(db, b, |b.vtx|) else None
  }

  // ------------------------------------------------------------------ disconnecting

  function UnspendInputs(v: Index, ins: seq<OutPoint>): Option<Index>
  {
    if ins == [] then Some(v)
    else
      match UnspendInputs(v, ins[..|ins|-1])
      case None => None
      case Some(w) =>
        var o := ins[|ins|-1];
        if o.Out? && o.hash in w && o.n < |w[o.hash].vSpent|
        then Some(w[o.hash := w[o.hash].(vSpent := w[o.hash].vSpent[o.n := NoPos])])
        else None
  }

  function UndoTx(v: Index, tx: Tx): Option<Index> {
    if tx.IsCoinBase() then Some(v - {tx.hash})
    else
      match UnspendInputs(v, tx.vin)
      case None => None
      case Some(w) => Some(w - {tx.hash})
  }

  /** Disconnects the first i transactions of the block, the last of them first. */
  function UndoTxs(v: Index, b: Block, i: nat): Option<Index>
    requires i <= |b.vtx|
    decreases i
  {
    if i == 0 then Some(v)
    else
      match UndoTx(v, b.vtx[i-1])
      case None => None
      case Some(w) => UndoTxs(w, b, i - 1)
  }

  function UndoBlock(v: Index, b: Block): Option<Index> {
    UndoTxs(v, b, |b.vtx|)
  }

  // ------------------------------------------------------------------ what the folds do, entry by entry

  /** w is v with exactly the outputs in `ins` marked by `spender`. */
  ghost predicate Marked(v: Index, w: Index, ins: seq<OutPoint>, spender: DiskPos) {
    && w.Keys == v.Keys
    && (forall h :: h in v ==>
          && w[h].pos == v[h].pos && w[h].vout == v[h].vout && |w[h].vSpent| == |v[h].vSpent|
          && forall n :: 0 <= n < |v[h].vSpent| ==>
               w[h].vSpent[n] == if Out(h, n) in ins then spender else v[h].vSpent[n])
  }

  lemma MarkedOneMore(v: Index, w: Index, ins: seq<OutPoint>, o: OutPoint, spender: DiskPos)
    requires Marked(v, w, ins, spender)
    requires o.Out? && o.hash in w && o.n < |w[o.hash].vSpent|
    ensures Marked(v, w[o.hash := w[o.hash].(vSpent := w[o.hash].vSpent[o.n := spender])], ins + [o], spender)
  {
  }

  lemma {:induction false} SpendInputsMarks(v: Index, ins: seq<OutPoint>, spender: DiskPos)
    requires SpendInputs(v, ins, spender).Some? && spender != NoPos
    ensures Marked(v, SpendInputs(v, ins, spender).value, ins, spender)
    ensures forall i :: 0 <= i < |ins| ==> Spendable(v, ins[i])
  {
    if ins != [] {
      var k := |ins| - 1;
      SpendInputsMarks(v, ins[..k], spender);
      MarkedOneMore(v, SpendInputs(v, ins[..k], spender).value, ins[..k], ins[k], spender);
      assert ins == ins[..k] + [ins[k]];
    }
  }

  lemma {:induction false} UnspendInputsMarks(v: Index, ins: seq<OutPoint>)
    requires UnspendInputs(v, ins).Some?
    ensures Marked(v, UnspendInputs(v, ins).value, ins, NoPos)
    ensures forall i :: 0 <= i < |ins| ==> ins[i].Out? && ins[i].hash in v && ins[i].n < |v[ins[i].hash].vSpent|
  {
    if ins != [] {
      var k := |ins| - 1;
      UnspendInputsMarks(v, ins[..k]);
      MarkedOneMore(v, UnspendInputs(v, ins[..k]).value, ins[..k], ins[k], NoPos);
      assert ins == ins[..k] + [ins[k]];
    }
  }

  lemma {:induction false} UnspendInputsSucceeds(v: Index, ins: seq<OutPoint>)
    requires forall i :: 0 <= i < |ins| ==> ins[i].Out? && ins[i].hash in v && ins[i].n < |v[ins[i].hash].vSpent|
    ensures UnspendInputs(v, ins).Some?
  {
    if ins != [] {
      var k := |ins| - 1;
      UnspendInputsSucceeds(v, ins[..k]);
      UnspendInputsMarks(v, ins[..k]);
    }
  }

  // ------------------------------------------------------------------ one block and its undoing

  function HashesFrom(b: Block, i: nat): (s: set<Hash>)
    requires i <= |b.vtx|
  {
    set j | i <= j < |b.vtx| :: b.vtx[j].hash
  }

  function TxHashes(b: Block): set<Hash> {
    HashesFrom(b, 0)
  }

  /** Connecting stops at no earlier transaction if it did not stop at a later one. */
  lemma {:induction false} ApplyTxsPrefix(db: Index, b: Block, i: nat, j: nat)
    requires i <= j <= |b.vtx| && ApplyTxs(db, b, j).Some?
    ensures ApplyTxs(db, b, i).Some?
    decreases j
  {
    if i < j {
      ApplyTxsPrefix(db, b, i, j - 1);
    }
  }

  lemma ApplyTxsOverwrites(db: Index, b: Block)
    requires ApplyTxs(db, b, |b.vtx|).Some?
    ensures forall h :: h in TxHashes(b) ==> Overwritable(db, h)
  {
    forall h | h in TxHashes(b)
      ensures Overwritable(db, h)
    {
      var j :| 0 <= j < |b.vtx| && b.vtx[j].hash == h;
      ApplyTxsPrefix(db, b, j + 1, |b.vtx|);
    }
  }

  /** An entry with nothing left to spend is not changed by another transaction. */
  lemma ApplyTxLeaves(db: Index, v: Index, tx: Tx, pos: DiskPos, h: Hash)
    requires ApplyTx(db, v, tx, pos).Some? && pos != NoPos
    requires h != tx.hash && (h in v ==> FullySpent(v[h]))
    ensures var w := ApplyTx(db, v, tx, pos).value; (h in w <==> h in v) && (h in v ==> w[h] == v[h])
  {
    if !tx.IsCoinBase() {
      SpendInputsMarks(v, tx.vin, pos);
      var w := SpendInputs(v, tx.vin, pos).value;
      if h in v {
        forall n | 0 <= n < |v[h].vSpent|
          ensures Out(h, n) !in tx.vin
        {
          assert Out(h, n) in tx.vin ==> Spendable(v, Out(h, n));
        }
        assert w[h].vSpent == v[h].vSpent;
      }
    }
  }

  /** Undoing a transaction from the index after it, the txids in `later` removed, gives
      the index before it, its own txid removed too. */
  lemma UndoOneTx(db: Index, v: Index, tx: Tx, pos: DiskPos, later: set<Hash>)
    requires ApplyTx(db, v, tx, pos).Some? && pos != NoPos
    requires tx.hash !in later
    requires forall h :: h in v && h in later + {tx.hash} ==> FullySpent(v[h])
    ensures UndoTx(ApplyTx(db, v, tx, pos).value - later, tx) == Some(v - (later + {tx.hash}))
  {
    var after := ApplyTx(db, v, tx, pos).value - later;
    var before := v - (later + {tx.hash});
    if tx.IsCoinBase() {
      assert after - {tx.hash} == before;
    } else {
      SpendInputsMarks(v, tx.vin, pos);
      assert forall k :: 0 <= k < |tx.vin| ==> Spendable(v, tx.vin[k]) && tx.vin[k].hash in before;
      UnspendInputsSucceeds(after, tx.vin);
      UnspendInputsMarks(after, tx.vin);
      var w, u := SpendInputs(v, tx.vin, pos).value, UnspendInputs(after, tx.vin).value;
      MinusUpdated(w, tx.hash, Fresh(tx, pos), later);
      UnmarkAll(v, w, after, u, tx.vin, pos, later + {tx.hash});
      MinusTwice(u, tx.hash, later);
    }
  }

  lemma MinusUpdated(w: Index, h: Hash, e: TxIndex, later: set<Hash>)
    ensures w - (later + {h}) == (w[h := e] - later) - (later + {h})
  {
  }

  lemma MinusTwice(u: Index, h: Hash, later: set<Hash>)
    requires u.Keys !! later
    ensures u - {h} == u - (later + {h})
  {
  }

  /** Marking and unmarking the same inputs, `gone` left out of account. */
  lemma UnmarkAll(v: Index, w: Index, x: Index, u: Index, ins: seq<OutPoint>, pos: DiskPos, gone: set<Hash>)
    requires Marked(v, w, ins, pos) && Marked(x, u, ins, NoPos)
    requires w - gone == x - gone
    requires forall i :: 0 <= i < |ins| ==> Spendable(v, ins[i])
    ensures u - gone == v - gone
  {
    forall h | h in v && h !in gone
      ensures h in u && u[h] == v[h]
    {
      assert h in w - gone && (w - gone)[h] == (x - gone)[h];
      UnmarkOne(v, w, u, ins, pos, h);
    }
    assert (u - gone).Keys == (v - gone).Keys by {
      assert (w - gone).Keys == (x - gone).Keys;
    }
  }

  lemma UnmarkOne(v: Index, w: Index, u: Index, ins: seq<OutPoint>, pos: DiskPos, h: Hash)
    requires Marked(v, w, ins, pos) && h in v && h in u
    requires forall i :: 0 <= i < |ins| ==> Spendable(v, ins[i])
    requires u[h].pos == w[h].pos && u[h].vout == w[h].vout && |u[h].vSpent| == |w[h].vSpent|
    requires forall n :: 0 <= n < |w[h].vSpent| ==>
               u[h].vSpent[n] == if Out(h, n) in ins then NoPos else w[h].vSpent[n]
    ensures u[h] == v[h]
  {
    forall n | 0 <= n < |v[h].vSpent|
      ensures u[h].vSpent[n] == v[h].vSpent[n]
    {
      if Out(h, n) in ins {
        assert Spendable(v, Out(h, n));
      }
    }
    assert u[h].vSpent == v[h].vSpent;
  }

  /** A txid that comes up later in the block has not been touched yet. */
  lemma {:induction false} LaterUntouched(db: Index, b: Block, i: nat, h: Hash)
    requires CheckBlock(b) && ApplyTxs(db, b, |b.vtx|).Some?
    requires i <= |b.vtx| && h in HashesFrom(b, i)
    ensures ApplyTxs(db, b, i).Some?
    ensures var v := ApplyTxs(db, b, i).value;
            (h in v <==> h in db) && (h in db ==> v[h] == db[h] && FullySpent(v[h]))
  {
    ApplyTxsPrefix(db, b, i, |b.vtx|);
    ApplyTxsOverwrites(db, b);
    assert h in TxHashes(b);
    if i > 0 {
      LaterUntouched(db, b, i - 1, h);
      ApplyTxLeaves(db, ApplyTxs(db, b, i - 1).value, b.vtx[i-1], TxPos(b, i - 1), h);
    }
  }

  /** DisconnectBlock after ConnectBlock: the old index, less the txids of the block,
      which were absent or entirely spent before it. */
  lemma {:induction false} UndoTxsInverts(db: Index, b: Block, i: nat)
    requires CheckBlock(b) && ApplyTxs(db, b, |b.vtx|).Some?
    requires i <= |b.vtx|
    ensures ApplyTxs(db, b, i).Some?
    ensures UndoTxs(ApplyTxs(db, b, i).value - HashesFrom(b, i), b, i) == Some(db - TxHashes(b))
  {
    ApplyTxsPrefix(db, b, i, |b.vtx|);
    if i > 0 {
      ApplyTxsPrefix(db, b, i - 1, |b.vtx|);
      var v := ApplyTxs(db, b, i - 1).value;
      forall h | h in v && h in HashesFrom(b, i - 1)
        ensures FullySpent(v[h])
      {
        LaterUntouched(db, b, i - 1, h);
      }
      assert HashesFrom(b, i - 1) == HashesFrom(b, i) + {b.vtx[i-1].hash};
      UndoOneTx(db, v, b.vtx[i-1], TxPos(b, i - 1), HashesFrom(b, i));
      UndoTxsInverts(db, b, i - 1);
    }
  }

  lemma DisconnectUndoesConnect(db: Index, b: Block)
    requires ApplyBlock(db, b).Some?
    ensures UndoBlock(ApplyBlock(db, b).value, b) == Some(db - TxHashes(b))
    ensures Covers(db - TxHashes(b), db)
    ensures UndoBlock(ApplyBlock(db, b).value, b) == Some(db) <==> TxHashes(b) !! db.Keys
  {
    UndoTxsInverts(db, b, |b.vtx|);
    var after := ApplyBlock(db, b).value;
    assert HashesFrom(b, |b.vtx|) == {};
    assert after - HashesFrom(b, |b.vtx|) == after;
    ApplyTxsOverwrites(db, b);
    if TxHashes(b) !! db.Keys {
      assert db - TxHashes(b) == db;
    } else {
      var h :| h in TxHashes(b) && h in db.Keys;
      assert h !in db - TxHashes(b);
    }
  }

  // ------------------------------------------------------------------ indexes that differ in spent entries only

  /** lo is hi with some entirely spent entries left out. */
  ghost predicate Covers(lo: Index, hi: Index) {
    && (forall h :: h in lo ==> h in hi && lo[h] == hi[h])
    && (forall h :: h in hi && h !in lo ==> FullySpent(hi[h]))
  }

  lemma CoversTransitive(a: Index, b: Index, c: Index)
    requires Covers(a, b) && Covers(b, c)
    ensures Covers(a, c)
  {
  }

  /** Two such indexes have the same unspent outputs. */
  lemma CoversSameUnspent(lo: Index, hi: Index, o: OutPoint)
    requires Covers(lo, hi)
    ensures Spendable(lo, o) == Spendable(hi, o)
    ensures Spendable(lo, o) ==> lo[o.hash].vout[o.n] == hi[o.hash].vout[o.n]
  {
  }

  lemma {:induction false} SpendInputsCovers(lo: Index, hi: Index, ins: seq<OutPoint>, spender: DiskPos)
    requires Covers(lo, hi)
    ensures SpendInputs(lo, ins, spender).Some? == SpendInputs(hi, ins, spender).Some?
    ensures SpendInputs(lo, ins, spender).Some?
            ==> Covers(SpendInputs(lo, ins, spender).value, SpendInputs(hi, ins, spender).value)
  {
    if ins != [] {
      SpendInputsCovers(lo, hi, ins[..|ins|-1], spender);
    }
  }

  lemma {:induction false} ApplyTxsCovers(lo: Index, hi: Index, b: Block, i: nat)
    requires Covers(lo, hi) && i <= |b.vtx|
    ensures ApplyTxs(lo, b, i).Some? == ApplyTxs(hi, b, i).Some?
    ensures ApplyTxs(lo, b, i).Some? ==> Covers(ApplyTxs(lo, b, i).value, ApplyTxs(hi, b, i).value)
  {
    if i > 0 {
      ApplyTxsCovers(lo, hi, b, i - 1);
      if ApplyTxs(lo, b, i - 1).Some? {
        SpendInputsCovers(ApplyTxs(lo, b, i - 1).value, ApplyTxs(hi, b, i - 1).value, b.vtx[i-1].vin, TxPos(b, i - 1));
      }
    }
  }

  /** A block connects on one exactly when it connects on the other. */
  lemma ApplyBlockCovers(lo: Index, hi: Index, b: Block)
    requires Covers(lo, hi)
    ensures ApplyBlock(lo, b).Some? == ApplyBlock(hi, b).Some?
    ensures ApplyBlock(lo, b).Some? ==> Covers(ApplyBlock(lo, b).value, ApplyBlock(hi, b).value)
  {
    ApplyTxsCovers(lo, hi, b, |b.vtx|);
  }

  lemma {:induction false} UnspendInputsCovers(lo: Index, hi: Index, ins: seq<OutPoint>)
    requires Covers(lo, hi) && UnspendInputs(lo, ins).Some?
    ensures UnspendInputs(hi, ins).Some?
    ensures Covers(UnspendInputs(lo, ins).value, UnspendInputs(hi, ins).value)
  {
    if ins != [] {
      UnspendInputsCovers(lo, hi, ins[..|ins|-1]);
    }
  }

  lemma {:induction false} UndoTxsCovers(lo: Index, hi: Index, b: Block, i: nat)
    requires Covers(lo, hi) && i <= |b.vtx| && UndoTxs(lo, b, i).Some?
    ensures UndoTxs(hi, b, i).Some?
    ensures Covers(UndoTxs(lo, b, i).value, UndoTxs(hi, b, i).value)
    decreases i
  {
    if i > 0 {
      var tx := b.vtx[i-1];
      if !tx.IsCoinBase() {
        UnspendInputsCovers(lo, hi, tx.vin);
      }
      UndoTxsCovers(UndoTx(lo, tx).value, UndoTx(hi, tx).value, b, i - 1);
    }
  }

  // ------------------------------------------------------------------ every run

  /** The index a node builds that only ever connects the blocks of this chain. */
  function Replay(chain: seq<Block>): Option<Index> {
    if chain == [] then Some(map[])
    else
      match Replay(chain[..|chain|-1])
      case None => None
      case Some(v) => ApplyBlock(v, chain[|chain|-1])
  }

  datatype Step = Connect(block: Block) | Disconnect

  datatype Node = Node(index: Index, chain: seq<Block>)

  /** One successful ConnectBlock on top, or one successful DisconnectBlock of the top. */
  function Next(s: Node, step: Step): Option<Node> {
    match step
    case Connect(b) =>
      (match ApplyBlock(s.index, b)
       case None => None
       case Some(v) => Some(Node(v, s.chain + [b])))
    case Disconnect =>
      if s.chain == [] then None
      else
        match UndoBlock(s.index, s.chain[|s.chain|-1])
        case None => None
        case Some(v) => Some(Node(v, s.chain[..|s.chain|-1]))
  }

  function Run(steps: seq<Step>): Option<Node> {
    if steps == [] then Some(Node(map[], []))
    else
      match Run(steps[..|steps|-1])
      case None => None
      case Some(s) => Next(s, steps[|steps|-1])
  }

  lemma StepKeepsReplay(s: Node, step: Step)
    requires Replay(s.chain).Some? && Covers(s.index, Replay(s.chain).value)
    requires Next(s, step).Some?
    ensures var t := Next(s, step).value; Replay(t.chain).Some? && Covers(t.index, Replay(t.chain).value)
  {
    var t := Next(s, step).value;
    var whole := Replay(s.chain).value;
    if step.Connect? {
      ApplyBlockCovers(s.index, whole, step.block);
      assert t.chain[..|t.chain|-1] == s.chain;
    } else {
      var b := s.chain[|s.chain|-1];
      var below := Replay(t.chain).value;
      UndoTxsCovers(s.index, whole, b, |b.vtx|);
      DisconnectUndoesConnect(below, b);
      CoversTransitive(t.index, below - TxHashes(b), below);
    }
  }

  /** After every successful run the index is the one replaying the chain gives, up to
      entirely spent entries; so every outpoint is spendable in both or in neither. */
  lemma {:induction false} RunIsReplay(steps: seq<Step>)
    requires Run(steps).Some?
    ensures var s := Run(steps).value;
            Replay(s.chain).Some? && Covers(s.index, Replay(s.chain).value)
  {
    if steps != [] {
      RunIsReplay(steps[..|steps|-1]);
      StepKeepsReplay(Run(steps[..|steps|-1]).value, steps[|steps|-1]);
    }
  }

  lemma RunHasReplayedOutputs(steps: seq<Step>, o: OutPoint)
    requires Run(steps).Some?
    ensures var s := Run(steps).value;
            && Replay(s.chain).Some?
            && Spendable(s.index, o) == Spendable(Replay(s.chain).value, o)
            && (Spendable(s.index, o) ==>
                  s.index[o.hash].vout[o.n] == Replay(s.chain).value[o.hash].vout[o.n])
  {
    RunIsReplay(steps);
    CoversSameUnspent(Run(steps).value.index, Replay(Run(steps).value.chain).value, o);
  }

  function ChainHashes(chain: seq<Block>): set<Hash> {
    if chain == [] then {} else ChainHashes(chain[..|chain|-1]) + TxHashes(chain[|chain|-1])
  }

  ghost predicate NoRepeats(chain: seq<Block>) {
    forall k :: 0 <= k < |chain| ==> TxHashes(chain[k]) !! ChainHashes(chain[..k])
  }

  lemma {:induction false} ApplyTxsKeys(db: Index, b: Block, i: nat)
    requires i <= |b.vtx| && ApplyTxs(db, b, i).Some?
    ensures ApplyTxs(db, b, i).value.Keys <= db.Keys + TxHashes(b)
  {
    if i > 0 {
      ApplyTxsKeys(db, b, i - 1);
      var v, tx := ApplyTxs(db, b, i - 1).value, b.vtx[i-1];
      assert tx.hash in TxHashes(b);
      if !tx.IsCoinBase() {
        SpendInputsMarks(v, tx.vin, TxPos(b, i - 1));
      }
    }
  }

  lemma {:induction false} ReplayKeys(chain: seq<Block>)
    requires Replay(chain).Some?
    ensures Replay(chain).value.Keys <= ChainHashes(chain)
  {
    if chain != [] {
      ReplayKeys(chain[..|chain|-1]);
      var b := chain[|chain|-1];
      ApplyTxsKeys(Replay(chain[..|chain|-1]).value, b, |b.vtx|);
    }
  }

  /** When no chain the run goes through repeats a txid, the index is exactly the replayed one. */
  lemma {:induction false} RunIsReplayExactly(steps: seq<Step>)
    requires Run(steps).Some?
    requires forall k :: 0 <= k <= |steps| && Run(steps[..k]).Some? ==> NoRepeats(Run(steps[..k]).value.chain)
    ensures Replay(Run(steps).value.chain) == Some(Run(steps).value.index)
  {
    if steps != [] {
      var prior := steps[..|steps|-1];
      forall k | 0 <= k <= |prior| && Run(prior[..k]).Some?
        ensures NoRepeats(Run(prior[..k]).value.chain)
      {
        assert prior[..k] == steps[..k];
      }
      RunIsReplayExactly(prior);
      var s, t := Run(prior).value, Run(steps).value;
      if steps[|steps|-1].Connect? {
        assert t.chain[..|t.chain|-1] == s.chain;
      } else {
        var k := |s.chain| - 1;
        assert prior[..|prior|] == prior == steps[..|prior|];
        assert NoRepeats(s.chain);
        ReplayKeys(t.chain);
        DisconnectUndoesConnect(Replay(t.chain).value, s.chain[k]);
      }
    }
  }

  /** Why the equality is only up to spent entries: disconnecting a block that overwrote an
      entirely spent txid leaves that txid out of the index. */
  lemma OverwrittenEntryIsLost(db: Index, b: Block, h: Hash)
    requires ApplyBlock(db, b).Some? && h in TxHashes(b) && h in db
    ensures FullySpent(db[h])
    ensures UndoBlock(ApplyBlock(db, b).value, b).Some?
    ensures h !in UndoBlock(ApplyBlock(db, b).value, b).value
  {
    ApplyTxsOverwrites(db, b);
    DisconnectUndoesConnect(db, b);
  }
}
