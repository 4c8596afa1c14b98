/** ConnectBlock and DisconnectBlock as they work on the transaction database. */
module LedgerDb {
  import opened Options
  import opened Ledger
  import opened LedgerValues

  type Amounts = a: seq<int> | |a| == N_COLORS witness seq(N_COLORS, _ => 0)

  const ZERO: Amounts := seq(N_COLORS, _ => 0)

  predicate ColorsIndexed(v: Index) {
    forall h :: h in v ==> forall n :: 0 <= n < |v[h].vout| ==> CheckColor(v[h].vout[n].color)
  }

  // ------------------------------------------------------------------ a prefix of a successful fold succeeds

  lemma {:induction false} SpendPrefix(v: Index, ins: seq<OutPoint>, spender: DiskPos, i: nat)
    requires i <= |ins| && SpendInputs(v, ins, spender).Some?
    ensures SpendInputs(v, ins[..i], spender).Some?
  {
    if i < |ins| {
      SpendPrefix(v, ins[..|ins|-1], spender, i);
      assert ins[..|ins|-1][..i] == ins[..i];
    } else {
      assert ins[..i] == ins;
    }
  }

  /** One more step of the fold, and what becomes of the whole if it fails. */
  lemma SpendNext(v: Index, ins: seq<OutPoint>, spender: DiskPos, i: nat, w: Index)
    requires i < |ins| && SpendInputs(v, ins[..i], spender) == Some(w)
    ensures Spendable(w, ins[i]) ==> SpendInputs(v, ins[..i+1], spender) == Some(Mark(w, ins[i], spender))
    ensures !Spendable(w, ins[i]) ==> SpendInputs(v, ins, spender).None?
  {
    assert ins[..i+1][..i] == ins[..i];
    if SpendInputs(v, ins, spender).Some? {
      SpendPrefix(v, ins, spender, i + 1);
    }
  }

  lemma {:induction false} UnspendPrefix(v: Index, ins: seq<OutPoint>, i: nat)
    requires i <= |ins| && UnspendInputs(v, ins).Some?
    ensures UnspendInputs(v, ins[..i]).Some?
  {
    if i < |ins| {
      UnspendPrefix(v, ins[..|ins|-1], i);
      assert ins[..|ins|-1][..i] == ins[..i];
    } else {
      assert ins[..i] == ins;
    }
  }

  predicate AllFound(v: Index, ins: seq<OutPoint>) {
    forall i :: 0 <= i < |ins| ==> Found(v, ins[i])
  }

  // ------------------------------------------------------------------ value tallies

  /** FillValuesOut: the outputs summed by color, zero outputs skipped. */
  method FillValuesOut(vout: seq<TxOut>) returns (sums: Amounts)
    requires forall k :: 0 <= k < |vout| ==> CheckColor(vout[k].color)
    ensures forall c :: CheckColor(c) ==> sums[c] == OutSum(vout, c)
  {
    sums := ZERO;
    for i := 0 to |vout|
      invariant forall c :: CheckColor(c) ==> sums[c] == OutSum(vout[..i], c)
    {
      assert vout[..i+1][..i] == vout[..i];
      if vout[i].value != 0 {
        sums := sums[vout[i].color := sums[vout[i].color] + vout[i].value];
      }
    }
    assert vout[..|vout|] == vout;
  }

  /** FillValuesIn: the spent outputs summed by color. */
  method FillValuesIn(inputs: Index, vin: seq<OutPoint>) returns (sums: Amounts)
    requires AllFound(inputs, vin)
    requires ColorsIndexed(inputs)
    ensures forall c :: CheckColor(c) ==> sums[c] == InSum(inputs, vin, c)
  {
    sums := ZERO;
    for i := 0 to |vin|
      invariant forall c :: CheckColor(c) ==> sums[c] == InSum(inputs, vin[..i], c)
    {
      assert vin[..i+1][..i] == vin[..i];
      var out := inputs[vin[i].hash].vout[vin[i].n];
      sums := sums[out.color := sums[out.color] + out.value];
    }
    assert vin[..|vin|] == vin;
  }

  method AddAmounts(a: Amounts, b: Amounts) returns (r: Amounts)
    ensures forall c :: 0 <= c < N_COLORS ==> r[c] == a[c] + b[c]
  {
    r := seq(N_COLORS, c requires 0 <= c < N_COLORS => a[c] + b[c]);
  }

  /** The fee loop over the colors of one transaction. */
  method AddFees(rules: Rules, fees: Amounts, ins: Amounts, outs: Amounts) returns (r: Amounts)
    ensures forall c :: CheckColor(c) ==>
              r[c] == fees[c] + if rules.scavengable(c) then ins[c] - outs[c] else 0
  {
    r := fees;
    for c := 1 to N_COLORS
      invariant forall d :: c <= d < N_COLORS ==> r[d] == fees[d]
      invariant forall d :: 1 <= d < c ==> r[d] == fees[d] + if rules.scavengable(d) then ins[d] - outs[d] else 0
    {
      if rules.scavengable(c) {
        r := r[c := r[c] + ins[c] - outs[c]];
      }
    }
  }

  /** The final comparison of ConnectInputs: no color puts out more than it takes in. */
  method CoversOutputs(ins: Amounts, outs: Amounts) returns (ok: bool)
    ensures ok <==> forall c :: CheckColor(c) ==> ins[c] >= outs[c]
  {
    for c := 1 to N_COLORS
      invariant forall d :: 1 <= d < c ==> ins[d] >= outs[d]
    {
      if ins[c] < outs[c] {
        assert CheckColor(c);
        return false;
      }
    }
    return true;
  }

  /** The scavenging loop of a PoW block. */
  method AddScavenged(rules: Rules, prev: BlockIndex, b: Block, fees: Amounts) returns (r: Amounts)
    requires prev.Valid() && !b.IsProofOfStake()
    ensures forall c :: CheckColor(c) ==> r[c] == fees[c] + Scavenged(rules, prev, b, c)
  {
    r := fees;
    for c := 1 to N_COLORS
      invariant forall d :: c <= d < N_COLORS ==> r[d] == fees[d]
      invariant forall d :: 1 <= d < c ==> r[d] == fees[d] + Scavenged(rules, prev, b, d)
    {
      if rules.scavengable(c) {
        var mintPrev := prev.mint[c];
        if c == SIS && rules.fork(prev.time) == FORK004 && rules.fork(b.time) == FORK005 {
          mintPrev := prev.supply[c];
        }
        r := r[c := r[c] + (mintPrev - prev.supply[c])];
      }
    }
  }

  /** The coinbase of a PoW block against reward and fees. */
  method CheckPowCoinbase(rules: Rules, prev: BlockIndex, ghost db: Index, b: Block, fees: Amounts)
    returns (ok: bool)
    requires prev.Valid() && !b.IsProofOfStake()
    requires |b.vtx| > 0 && |b.vtx[0].vout| > 0 && ColorsOk(b.vtx[0])
    requires forall c :: CheckColor(c) ==> fees[c] == Fees(rules, prev, db, b, c)
    ensures ok <==> PowOk(rules, prev, db, b)
  {
    var r := rules.powReward(prev);
    var coinbase := b.vtx[0];
    if coinbase.vout[0].color != r.color {
      return false;
    }
    assert CheckColor(r.color);
    if coinbase.vout[0].value > r.value + fees[r.color] {
      return false;
    }
    var rest := FillValuesOut(coinbase.vout[1..]);
    for c := 1 to N_COLORS
      invariant forall d :: 1 <= d < c && OutSum(coinbase.vout[1..], d) != 0 ==>
                  d != r.color && OutSum(coinbase.vout[1..], d) <= Fees(rules, prev, db, b, d)
    {
      assert CheckColor(c);
      if rest[c] != 0 && (c == r.color || rest[c] > fees[c]) {
        return false;
      }
    }
    return true;
  }

  /** The burn loop over one transaction: data-carrying outputs, by color; a script nobody
      can solve stops it before the first fork. */
  method TallyTxBurns(rules: Rules, tx: Tx, before: Amounts) returns (ok: bool, burned: Amounts)
    requires ColorsOk(tx)
    ensures ok <==> TxScriptsOk(rules, tx)
    ensures ok ==> forall c :: CheckColor(c) ==> burned[c] == before[c] + BurnSum(tx.vout, c)
  {
    burned := before;
    var vout := tx.vout;
    for k := 0 to |vout|
      invariant rules.fork(tx.time) >= FORK001 || forall i :: 0 <= i < k ==> Solvable(vout[i])
      invariant forall c :: CheckColor(c) ==> burned[c] == before[c] + BurnSum(vout[..k], c)
    {
      assert vout[..k+1][..k] == vout[..k];
      if !Solvable(vout[k]) {
        if rules.fork(tx.time) < FORK001 {
          return false, burned;
        }
      } else if vout[k].kind == NullData {
        burned := burned[vout[k].color := burned[vout[k].color] + vout[k].value];
      }
    }
    assert vout[..|vout|] == vout;
    return true, burned;
  }

  predicate BlockColorsOk(b: Block) {
    forall j :: 0 <= j < |b.vtx| ==> ColorsOk(b.vtx[j])
  }

  predicate ScriptsOkUpTo(rules: Rules, b: Block, i: nat)
    requires i <= |b.vtx|
  {
    forall j :: 0 <= j < i ==> TxScriptsOk(rules, b.vtx[j])
  }

  lemma ScriptsOneMore(rules: Rules, b: Block, j: nat)
    requires j < |b.vtx| && ScriptsOkUpTo(rules, b, j)
    ensures ScriptsOkUpTo(rules, b, j + 1) <==> TxScriptsOk(rules, b.vtx[j])
    ensures ScriptsOkUpTo(rules, b, |b.vtx|) ==> TxScriptsOk(rules, b.vtx[j])
  {
  }

  method TallyAllBurns(rules: Rules, b: Block) returns (ok: bool, burned: Amounts)
    requires BlockColorsOk(b)
    ensures ok <==> ScriptsOkUpTo(rules, b, |b.vtx|)
    ensures ok ==> forall c :: CheckColor(c) ==> burned[c] == BlockBurn(b, |b.vtx|, c)
  {
    burned := ZERO;
    for j := 0 to |b.vtx|
      invariant ScriptsOkUpTo(rules, b, j)
      invariant forall c :: CheckColor(c) ==> burned[c] == BlockBurn(b, j, c)
    {
      ok, burned := TallyTxBurns(rules, b.vtx[j], burned);
      ScriptsOneMore(rules, b, j);
      if !ok {
        return false, burned;
      }
    }
    return true, burned;
  }

  method TallyBurns(rules: Rules, prev: BlockIndex, b: Block) returns (ok: bool, burned: Amounts)
    requires BlockColorsOk(b)
    ensures ok <==> ScriptsOk(rules, prev, b)
    ensures ok ==> forall c :: CheckColor(c) ==> burned[c] == Burned(prev.time, b, c)
  {
    if prev.time < BURN_PROTOCOL_START_TIME {
      return true, ZERO;
    }
    ok, burned := TallyAllBurns(rules, b);
  }

  // ------------------------------------------------------------------ entries read for a transaction

  /** What was read for the inputs is what the database and the pending changes hold. */
  predicate Agrees(inputs: Index, v: Index) {
    forall h :: h in inputs ==> h in v && inputs[h] == v[h]
  }

  lemma MarkQueued(db: Index, queued: Index, inputs: Index, o: OutPoint, pos: DiskPos, entry: TxIndex)
    requires Agrees(inputs, db + queued) && Found(inputs, o)
    requires entry == inputs[o.hash].(vSpent := inputs[o.hash].vSpent[o.n := pos])
    ensures Found(db + queued, o)
    ensures db + queued[o.hash := entry] == Mark(db + queued, o, pos)
    ensures Agrees(inputs[o.hash := entry], db + queued[o.hash := entry])
    ensures forall ins :: AllFound(inputs, ins) ==> AllFound(inputs[o.hash := entry], ins)
  {
  }

  lemma {:induction false} AgreesSums(inputs: Index, v: Index, ins: seq<OutPoint>)
    requires Agrees(inputs, v) && AllFound(inputs, ins)
    ensures forall c :: InSum(inputs, ins, c) == InSum(v, ins, c)
  {
    if ins != [] {
      AgreesSums(inputs, v, ins[..|ins|-1]);
    }
  }

  /** The running sums of ConnectBlock over the transactions so far. */
  datatype Tally = Tally(ins: Amounts, outs: Amounts, fees: Amounts)
  {
    ghost predicate Counts(rules: Rules, db: Index, b: Block, j: nat)
      requires j <= |b.vtx|
    {
      forall c :: CheckColor(c) ==>
        && ins[c] == BlockIn(db, b, j, c)
        && outs[c] == BlockOut(b, j, c)
        && fees[c] == if rules.scavengable(c) then NetFees(db, b, j, c) else 0
    }

    /** t with one more transaction. */
    ghost predicate Extends(rules: Rules, t: Tally, tx: Tx, i: Amounts, o: Amounts) {
      forall c :: CheckColor(c) ==>
        && ins[c] == t.ins[c] + i[c]
        && outs[c] == t.outs[c] + o[c]
        && fees[c] == t.fees[c] + if rules.scavengable(c) && !tx.IsCoinBase() then i[c] - o[c] else 0
    }
  }

  method AddTx(rules: Rules, t: Tally, tx: Tx, ins: Amounts, outs: Amounts) returns (u: Tally)
    ensures u.Extends(rules, t, tx, ins, outs)
  {
    var sumIns := AddAmounts(t.ins, ins);
    var sumOuts := AddAmounts(t.outs, outs);
    var sumFees := t.fees;
    if !tx.IsCoinBase() {
      sumFees := AddFees(rules, t.fees, ins, outs);
    }
    u := Tally(sumIns, sumOuts, sumFees);
  }

  lemma CountsStep(rules: Rules, db: Index, b: Block, j: nat, t: Tally, ins: Amounts, outs: Amounts, u: Tally)
    requires j < |b.vtx| && t.Counts(rules, db, b, j)
    requires u.Extends(rules, t, b.vtx[j], ins, outs)
    requires forall c :: CheckColor(c) ==> ins[c] == TxIn(db, b, j, c) && outs[c] == OutSum(b.vtx[j].vout, c)
    ensures u.Counts(rules, db, b, j + 1)
  {
  }

  lemma QueueUpdate(db: Index, queued: Index, h: Hash, e: TxIndex)
    ensures db + queued[h := e] == (db + queued)[h := e]
  {
  }

  predicate Accepted(rules: Rules, prev: BlockIndex, db: Index, b: Block, i: nat)
    requires i <= |b.vtx|
  {
    forall j :: 0 <= j < i ==> TxAccepted(rules, prev, db, b, j)
  }

  lemma AcceptOne(rules: Rules, prev: BlockIndex, db: Index, b: Block, j: nat)
    requires j < |b.vtx| && Accepted(rules, prev, db, b, j)
    ensures Accepted(rules, prev, db, b, j + 1) <==> TxAccepted(rules, prev, db, b, j)
    ensures Accepted(rules, prev, db, b, |b.vtx|) ==> TxAccepted(rules, prev, db, b, j)
    ensures ApplyTxs(db, b, |b.vtx|).Some? ==> ApplyTxs(db, b, j + 1).Some?
  {
    if ApplyTxs(db, b, |b.vtx|).Some? {
      ApplyTxsPrefix(db, b, j + 1, |b.vtx|);
    }
  }

  lemma AcceptedColors(rules: Rules, prev: BlockIndex, db: Index, b: Block)
    requires Accepted(rules, prev, db, b, |b.vtx|)
    ensures BlockColorsOk(b)
  {
    forall j | 0 <= j < |b.vtx|
      ensures ColorsOk(b.vtx[j])
    {
      assert TxAccepted(rules, prev, db, b, j);
    }
  }

  lemma MarkedColors(v: Index, w: Index, ins: seq<OutPoint>, pos: DiskPos)
    requires ColorsIndexed(v) && Marked(v, w, ins, pos)
    ensures ColorsIndexed(w)
  {
  }

  /** The vectors of the new block index entry, written color by color. */
  method NextVectors(rules: Rules, prev: BlockIndex, b: Block, t: Tally, burned: Amounts)
    returns (next: BlockIndex)
    requires prev.Valid()
    requires CheckColor(Reward(rules, prev, b).color)
    requires forall c :: CheckColor(c) ==> burned[c] == Burned(prev.time, b, c)
    ensures next.Valid() && next.time == b.time && next.height == prev.height + 1
    ensures next.supply[0] == 0 && next.mint[0] == prev.mint[0]
    ensures forall c :: CheckColor(c) ==>
              && next.supply[c] == prev.supply[c] + t.outs[c] - t.ins[c] - burned[c]
              && next.mint[c] == NewMint(rules, prev, b, c)
  {
    var mint := prev.mint;
    if IsReset(rules, prev, b) {
      mint := mint[SIS := prev.supply[SIS]];
    }
    var r := Reward(rules, prev, b);
    if b.IsProofOfStake() {
      mint := mint[r.color := prev.mint[r.color] + r.value];
    } else {
      mint := mint[r.color := mint[r.color] + r.value];
    }
    ghost var minted := mint;
    var supply: seq<int> := ZERO;
    for c := 1 to N_COLORS
      invariant |supply| == N_COLORS && |mint| == N_COLORS
      invariant supply[0] == 0 && mint[0] == prev.mint[0]
      invariant forall d :: 1 <= d < c ==> supply[d] == prev.supply[d] + t.outs[d] - t.ins[d] - burned[d]
      invariant forall d :: 1 <= d < c ==> mint[d] == minted[d] - burned[d]
      invariant forall d :: c <= d < N_COLORS ==> mint[d] == minted[d]
    {
      supply := supply[c := prev.supply[c] + t.outs[c] - t.ins[c] - burned[c]];
      mint := mint[c := mint[c] - burned[c]];
    }
    next := BlockIndex(b.time, prev.height + 1, supply, mint);
  }

  lemma SameNext(rules: Rules, prev: BlockIndex, db: Index, b: Block, t: Tally, burned: Amounts, next: BlockIndex)
    requires prev.Valid() && t.Counts(rules, db, b, |b.vtx|) && |burned| == N_COLORS
    requires forall c :: CheckColor(c) ==> burned[c] == Burned(prev.time, b, c)
    requires next.Valid() && next.time == b.time && next.height == prev.height + 1
    requires next.supply[0] == 0 && next.mint[0] == prev.mint[0]
    requires forall c :: CheckColor(c) ==>
              && next.supply[c] == prev.supply[c] + t.outs[c] - t.ins[c] - burned[c]
              && next.mint[c] == NewMint(rules, prev, b, c)
    ensures next == NextIndex(rules, prev, db, b)
  {
    hide Burned, NewMint;
    ghost var spec := NextIndex(rules, prev, db, b);
    assert next.supply == spec.supply;
    assert next.mint == spec.mint;
  }

  /** The rest of ConnectBlock: rewards, burns and the vectors of the new entry. */
  method Settle(rules: Rules, prev: BlockIndex, ghost db: Index, b: Block, t: Tally)
    returns (ok: bool, next: BlockIndex)
    requires prev.Valid() && CheckBlock(b)
    requires BlockColorsOk(b)
    requires t.Counts(rules, db, b, |b.vtx|)
    ensures ok <==> (if b.IsProofOfStake() then PosOk(rules, prev, b) else PowOk(rules, prev, db, b))
                    && ScriptsOk(rules, prev, b)
    ensures ok ==> next == NextIndex(rules, prev, db, b)
  {
    next := prev;
    if b.IsProofOfStake() {
      ok := PosOk(rules, prev, b);
    } else {
      var fees := AddScavenged(rules, prev, b, t.fees);
      ok := CheckPowCoinbase(rules, prev, db, b, fees);
    }
    if !ok {
      return;
    }
    var burned;
    ok, burned := TallyBurns(rules, prev, b);
    if ok {
      assert ColorsOk(b.vtx[0]);
      next := NextVectors(rules, prev, b, t, burned);
      hide PosOk, PowOk, ScriptsOk, CheckBlock, Reward, Burned, NewMint;
      SameNext(rules, prev, db, b, t, burned, next);
    }
  }

  // ------------------------------------------------------------------ the database

  class TxDb {
    var index: Index

    constructor ()
      ensures index == map[] && ColorsIndexed(index)
    {
      index := map[];
    }

    // ---------------------------------------------------------------- disconnecting

    /** Gives the inputs back and removes the transaction; stops half way on a failure. */
    method DisconnectInputs(tx: Tx) returns (ok: bool)
      modifies this
      ensures ok == UndoTx(old(index), tx).Some?
      ensures ok ==> index == UndoTx(old(index), tx).value
      ensures old(ColorsIndexed(index)) ==> ColorsIndexed(index)
    {
      if !tx.IsCoinBase() {
        for i := 0 to |tx.vin|
          invariant UnspendInputs(old(index), tx.vin[..i]) == Some(index)
          invariant old(ColorsIndexed(index)) ==> ColorsIndexed(index)
        {
          var o := tx.vin[i];
          assert tx.vin[..i+1][..i] == tx.vin[..i];
          if o.NullOut? || o.hash !in index || o.n >= |index[o.hash].vSpent| {
            if UnspendInputs(old(index), tx.vin).Some? {
              UnspendPrefix(old(index), tx.vin, i + 1);
            }
            return false;
          }
          var entry := index[o.hash];
          index := index[o.hash := entry.(vSpent := entry.vSpent[o.n := NoPos])];
        }
        assert tx.vin[..|tx.vin|] == tx.vin;
      }
      index := index - {tx.hash};
      return true;
    }

    method DisconnectBlock(b: Block) returns (ok: bool)
      modifies this
      ensures ok == UndoBlock(old(index), b).Some?
      ensures ok ==> index == UndoBlock(old(index), b).value
      ensures old(ColorsIndexed(index)) ==> ColorsIndexed(index)
    {
      var i := |b.vtx|;
      while i > 0
        invariant 0 <= i <= |b.vtx|
        invariant UndoTxs(index, b, i) == UndoBlock(old(index), b)
        invariant old(ColorsIndexed(index)) ==> ColorsIndexed(index)
      {
        var done := DisconnectInputs(b.vtx[i-1]);
        if !done {
          return false;
        }
        i := i - 1;
      }
      return true;
    }

    // ---------------------------------------------------------------- connecting

    /** Reads the index entry of every input, the pending changes first. */
    method FetchInputs(queued: Index, tx: Tx) returns (r: Option<Index>)
      ensures r.Some? <==> AllFound(index + queued, tx.vin)
      ensures r.Some? ==> AllFound(r.value, tx.vin)
      ensures r.Some? ==> Agrees(r.value, index + queued)
    {
      var inputs: Index := map[];
      for i := 0 to |tx.vin|
        invariant forall k :: 0 <= k < i ==> tx.vin[k].Out? && tx.vin[k].hash in inputs
        invariant Agrees(inputs, index + queued)
      {
        if tx.vin[i].NullOut? {
          return None;
        }
        var h := tx.vin[i].hash;
        if h !in inputs {
          if h in queued {
            inputs := inputs[h := queued[h]];
          } else if h in index {
            inputs := inputs[h := index[h]];
          } else {
            return None;
          }
        }
      }
      for i := 0 to |tx.vin|
        invariant forall k :: 0 <= k < i ==> Found(inputs, tx.vin[k])
      {
        var entry := inputs[tx.vin[i].hash];
        if tx.vin[i].n >= |entry.vout| || tx.vin[i].n >= |entry.vSpent| {
          return None;
        }
      }
      return Some(inputs);
    }

    /** Marks every input as spent by `pos`, in a private copy of the entries and in the
        pending changes, and compares what comes in with what goes out, color by color. */
    method ConnectInputs(fetched: Index, before: Index, tx: Tx, pos: DiskPos)
      returns (ok: bool, queued: Index)
      requires AllFound(fetched, tx.vin) && Agrees(fetched, index + before)
      requires ColorsIndexed(index + before) && ColorsOk(tx)
      ensures ok <==> SpendInputs(index + before, tx.vin, pos).Some?
                      && forall c :: CheckColor(c) ==> InSum(index + before, tx.vin, c) >= OutSum(tx.vout, c)
      ensures ok ==> index + queued == SpendInputs(index + before, tx.vin, pos).value
    {
      queued := before;
      AgreesSums(fetched, index + before, tx.vin);
      var ins := FillValuesIn(fetched, tx.vin);
      var inputs: Index := fetched;
      for i := 0 to |tx.vin|
        invariant SpendInputs(index + before, tx.vin[..i], pos) == Some(index + queued)
        invariant Agrees(inputs, index + queued)
        invariant AllFound(inputs, tx.vin)
      {
        var o := tx.vin[i];
        SpendNext(index + before, tx.vin, pos, i, index + queued);
        if inputs[o.hash].vSpent[o.n] != NoPos {
          return false, queued;
        }
        var entry := inputs[o.hash].(vSpent := inputs[o.hash].vSpent[o.n := pos]);
        MarkQueued(index, queued, inputs, o, pos, entry);
        inputs := inputs[o.hash := entry];
        queued := queued[o.hash := entry];
      }
      assert tx.vin[..|tx.vin|] == tx.vin;
      var outs := FillValuesOut(tx.vout);
      ok := CoversOutputs(ins, outs);
    }

    /** FetchInputs, FillValuesIn and ConnectInputs of one transaction that is no coinbase. */
    method SpendTx(before: Index, tx: Tx, pos: DiskPos)
      returns (ok: bool, queued: Index, ins: Amounts)
      requires ColorsIndexed(index + before) && ColorsOk(tx) && pos != NoPos
      ensures ok <==> SpendInputs(index + before, tx.vin, pos).Some?
                      && forall c :: CheckColor(c) ==> InSum(index + before, tx.vin, c) >= OutSum(tx.vout, c)
      ensures ok ==> index + queued == SpendInputs(index + before, tx.vin, pos).value
      ensures ok ==> forall c :: CheckColor(c) ==> ins[c] == InSum(index + before, tx.vin, c)
    {
      queued, ins := before, ZERO;
      var fetched := FetchInputs(before, tx);
      if fetched.None? {
        if SpendInputs(index + before, tx.vin, pos).Some? {
          SpendInputsMarks(index + before, tx.vin, pos);
        }
        return false, queued, ins;
      }
      AgreesSums(fetched.value, index + before, tx.vin);
      ins := FillValuesIn(fetched.value, tx.vin);
      ok, queued := ConnectInputs(fetched.value, before, tx, pos);
    }

    /** One pass of the transaction loop of ConnectBlock. */
    method ConnectTx(rules: Rules, prev: BlockIndex, b: Block, j: nat, before: Index, t: Tally)
      returns (ok: bool, queued: Index, u: Tally)
      requires prev.Valid() && j < |b.vtx|
      requires ApplyTxs(index, b, j) == Some(index + before) && ColorsIndexed(index + before)
      requires t.Counts(rules, index, b, j)
      ensures ok <==> TxAccepted(rules, prev, index, b, j) && ApplyTxs(index, b, j + 1).Some?
      ensures ok ==> ApplyTxs(index, b, j + 1) == Some(index + queued) && ColorsIndexed(index + queued)
      ensures ok ==> u.Counts(rules, index, b, j + 1)
    {
      var tx, pos := b.vtx[j], TxPos(b, j);
      queued, u := before, t;
      if tx.hash in index && exists n :: 0 <= n < |index[tx.hash].vSpent| && index[tx.hash].vSpent[n] == NoPos {
        return false, queued, u;
      }
      if !ColorsOk(tx) || !rules.txOk(prev, b, j, index + before) {
        return false, queued, u;
      }
      var outs := FillValuesOut(tx.vout);
      var ins := ZERO;
      if !tx.IsCoinBase() {
        ok, queued, ins := SpendTx(before, tx, pos);
        if !ok {
          return false, queued, u;
        }
        SpendInputsMarks(index + before, tx.vin, pos);
        MarkedColors(index + before, index + queued, tx.vin, pos);
      }
      u := AddTx(rules, t, tx, ins, outs);
      CountsStep(rules, index, b, j, t, ins, outs, u);
      QueueUpdate(index, queued, tx.hash, Fresh(tx, pos));
      queued := queued[tx.hash := Fresh(tx, pos)];
      return true, queued, u;
    }

    /** The transaction loop of ConnectBlock; nothing is written yet. */
    method ConnectTxs(rules: Rules, prev: BlockIndex, b: Block) returns (ok: bool, queued: Index, t: Tally)
      requires prev.Valid() && ColorsIndexed(index)
      ensures ok <==> ApplyTxs(index, b, |b.vtx|).Some? && Accepted(rules, prev, index, b, |b.vtx|)
      ensures ok ==> ApplyTxs(index, b, |b.vtx|) == Some(index + queued) && ColorsIndexed(index + queued)
      ensures ok ==> t.Counts(rules, index, b, |b.vtx|)
    {
      queued, t := map[], Tally(ZERO, ZERO, ZERO);
      assert index + queued == index;
      for j := 0 to |b.vtx|
        invariant ApplyTxs(index, b, j) == Some(index + queued) && ColorsIndexed(index + queued)
        invariant t.Counts(rules, index, b, j)
        invariant Accepted(rules, prev, index, b, j)
      {
        ok, queued, t := ConnectTx(rules, prev, b, j, queued, t);
        AcceptOne(rules, prev, index, b, j);
        if !ok {
          return false, queued, t;
        }
      }
      return true, queued, t;
    }

    /** Connects the block on top of `prev`; the index changes only if every check passed. */
    method ConnectBlock(rules: Rules, prev: BlockIndex, b: Block) returns (ok: bool, next: BlockIndex)
      requires prev.Valid() && ColorsIndexed(index)
      modifies this
      ensures ok <==> ConnectOk(rules, prev, old(index), b)
      ensures ok ==> index == ApplyBlock(old(index), b).value && ColorsIndexed(index)
      ensures ok ==> next == NextIndex(rules, prev, old(index), b)
      ensures !ok ==> index == old(index)
    {
      next := prev;
      if !CheckBlock(b) || !rules.blockOk(prev, b) {
        return false, next;
      }
      var queued, t;
      ok, queued, t := ConnectTxs(rules, prev, b);
      if ok {
        AcceptedColors(rules, prev, index, b);
        ok, next := Settle(rules, prev, index, b, t);
      }
      if ok {
        index := index + queued;
      }
    }
  }
}
