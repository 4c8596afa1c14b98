/** The memory pool and its index of spends. */
module Mempool {

  import opened Ledger
  import opened LedgerValues
  import opened TxIds

  datatype InPoint = InPoint(hash: Hash, n: nat)

  type Pool = map<Hash, Tx>
  type Spends = map<OutPoint, InPoint>

  // ------------------------------------------------------------------ the index of spends

  predicate InputsIndexed(tx: Tx, next: Spends) {
    forall i :: 0 <= i < |tx.vin| ==> tx.vin[i] in next && next[tx.vin[i]] == InPoint(tx.hash, i)
  }

  predicate IsSpend(txs: Pool, o: OutPoint, p: InPoint) {
    p.hash in txs && p.n < |txs[p.hash].vin| && txs[p.hash].vin[p.n] == o
  }

  /** mapNextTx maps exactly the inputs of the pool, each to the one place where it is. */
  predicate Indexed(txs: Pool, next: Spends) {
    && (forall h :: h in txs ==> txs[h].hash == h && InputsIndexed(txs[h], next))
    && (forall o :: o in next ==> IsSpend(txs, o, next[o]))
  }

  lemma OneSpender(txs: Pool, next: Spends, o: OutPoint, p: InPoint, q: InPoint)
    requires Indexed(txs, next) && IsSpend(txs, o, p) && IsSpend(txs, o, q)
    ensures p == q && o in next && next[o] == p
  {
  }

  /** A transaction spends only what has a lower rank than itself; hashes make such a rank exist. */
  predicate RanksAfter(tx: Tx, rank: Hash -> nat) {
    forall i :: 0 <= i < |tx.vin| ==> tx.vin[i].Out? && rank(tx.vin[i].hash) < rank(tx.hash)
  }

  predicate Ranked(txs: Pool, rank: Hash -> nat) {
    forall h :: h in txs ==> RanksAfter(txs[h], rank)
  }

  // ------------------------------------------------------------------ descendants

  predicate SpendsOutputOf(tx: Tx, parent: Tx) {
    exists i :: 0 <= i < |tx.vin| && tx.vin[i].Out? && tx.vin[i].hash == parent.hash && tx.vin[i].n < |parent.vout|
  }

  ghost predicate IsLine(txs: Pool, p: seq<Hash>) {
    && (forall k :: 0 <= k < |p| ==> p[k] in txs)
    && (forall k :: 0 < k < |p| ==> SpendsOutputOf(txs[p[k]], txs[p[k-1]]))
  }

  /** A line of pool transactions leads from a to b, each spending an output of the one before. */
  ghost predicate Descends(txs: Pool, a: Hash, b: Hash) {
    exists p :: |p| > 0 && IsLine(txs, p) && p[0] == a && p[|p|-1] == b
  }

  lemma DescendsSelf(txs: Pool, a: Hash)
    requires a in txs
    ensures Descends(txs, a, a)
  {
    assert IsLine(txs, [a]);
  }

  predicate Part(txs': Pool, txs: Pool) {
    forall h :: h in txs' ==> h in txs && txs'[h] == txs[h]
  }

  /** A child's descendants are descendants, also when the child's line is in a part of the pool. */
  lemma DescendsFrom(txs: Pool, txs': Pool, a: Hash, c: Hash, b: Hash)
    requires Part(txs', txs) && a in txs && c in txs && SpendsOutputOf(txs[c], txs[a]) && Descends(txs', c, b)
    ensures Descends(txs, a, b)
  {
    var p :| |p| > 0 && IsLine(txs', p) && p[0] == c && p[|p|-1] == b;
    assert IsLine(txs, p) by {
      assert forall k :: 0 < k < |p| ==> SpendsOutputOf(txs'[p[k]], txs'[p[k-1]]);
    }
    LineGrows(txs, a, p, [a] + p);
  }

  lemma LineGrows(txs: Pool, a: Hash, p: seq<Hash>, q: seq<Hash>)
    requires a in txs && |p| > 0 && IsLine(txs, p) && SpendsOutputOf(txs[p[0]], txs[a]) && q == [a] + p
    ensures IsLine(txs, q)
  {
    assert forall k :: 0 < k < |p| ==> SpendsOutputOf(txs[p[k]], txs[p[k-1]]);
    assert forall k :: 0 < k < |q| ==> q[k] == p[k-1];
  }

  /** What is left spends no output of what has gone. */
  ghost predicate ClosedRest(txs: Pool, rest: Pool) {
    && Part(rest, txs)
    && (forall a, b :: a in txs && a !in rest && b in rest ==> !SpendsOutputOf(rest[b], txs[a]))
  }

  lemma {:induction false} GoneToTheEnd(txs: Pool, rest: Pool, p: seq<Hash>)
    requires ClosedRest(txs, rest) && |p| > 0 && IsLine(txs, p) && p[0] !in rest
    ensures p[|p|-1] !in rest
  {
    if |p| > 1 {
      var q := p[..|p|-1];
      assert IsLine(txs, q);
      GoneToTheEnd(txs, rest, q);
      assert SpendsOutputOf(txs[p[|p|-1]], txs[p[|p|-2]]);
    }
  }

  lemma GoneWithDescendants(txs: Pool, rest: Pool, a: Hash, b: Hash)
    requires ClosedRest(txs, rest) && Descends(txs, a, b) && a !in rest
    ensures b !in rest
  {
    var p :| |p| > 0 && IsLine(txs, p) && p[0] == a && p[|p|-1] == b;
    GoneToTheEnd(txs, rest, p);
  }

  /** Descent inside a closed rest is descent in the whole pool. */
  lemma RestDescends(txs: Pool, rest: Pool, a: Hash, b: Hash)
    requires ClosedRest(txs, rest) && b in rest
    ensures Descends(rest, a, b) <==> Descends(txs, a, b)
  {
    if Descends(rest, a, b) {
      var p :| |p| > 0 && IsLine(rest, p) && p[0] == a && p[|p|-1] == b;
      assert IsLine(txs, p);
    }
    if Descends(txs, a, b) {
      var p :| |p| > 0 && IsLine(txs, p) && p[0] == a && p[|p|-1] == b;
      forall k | 0 <= k < |p|
        ensures p[k] in rest
      {
        if p[k] !in rest {
          var q := p[k..];
          assert IsLine(txs, q);
          GoneToTheEnd(txs, rest, q);
        }
      }
      assert IsLine(rest, p);
    }
  }

  lemma ClosedTwice(txs: Pool, mid: Pool, rest: Pool)
    requires ClosedRest(txs, mid) && ClosedRest(mid, rest)
    ensures ClosedRest(txs, rest)
  {
  }

  // ------------------------------------------------------------------ how far a removal can go

  ghost function Above(txs: Pool, rank: Hash -> nat, r: nat): set<Hash> {
    set h | h in txs && rank(h) > r
  }

  lemma AboveShrinks(txs: Pool, txs': Pool, rank: Hash -> nat, r: nat, c: Hash)
    requires Part(txs', txs) && c in txs' && rank(c) > r
    ensures |Above(txs', rank, rank(c))| < |Above(txs, rank, r)|
  {
    assert c in Above(txs, rank, r) && c !in Above(txs', rank, rank(c));
    Smaller(Above(txs', rank, rank(c)), Above(txs, rank, r));
  }

  lemma Smaller(s: set<Hash>, t: set<Hash>)
    requires s < t
    ensures |s| < |t|
  {
    assert t == s + (t - s) && t - s != {};
  }

  // ------------------------------------------------------------------ single steps

  lemma AddKeeps(txs: Pool, next: Spends, tx: Tx, next': Spends)
    requires Indexed(txs, next) && tx.hash !in txs
    requires forall i :: 0 <= i < |tx.vin| ==> tx.vin[i] !in next
    requires InputsIndexed(tx, next')
    requires forall o :: o in next' <==> o in next || o in tx.vin
    requires forall o :: o in next ==> next'[o] == next[o]
    ensures Indexed(txs[tx.hash := tx], next')
  {
    var txs' := txs[tx.hash := tx];
    forall o | o in next'
      ensures IsSpend(txs', o, next'[o])
    {
      if o in next {
        assert IsSpend(txs, o, next[o]);
      }
    }
  }

  lemma DropKeeps(txs: Pool, next: Spends, tx: Tx, next': Spends)
    requires Indexed(txs, next) && tx.hash in txs && txs[tx.hash] == tx
    requires forall o :: o in next' <==> o in next && o !in tx.vin
    requires forall o :: o in next' ==> next'[o] == next[o]
    ensures Indexed(txs - {tx.hash}, next')
  {
    var txs' := txs - {tx.hash};
    forall h | h in txs'
      ensures InputsIndexed(txs'[h], next')
    {
      forall i | 0 <= i < |txs'[h].vin|
        ensures txs'[h].vin[i] in next'
      {
        assert InputsIndexed(txs[h], next) && InputsIndexed(tx, next);
        forall j | 0 <= j < |tx.vin|
          ensures tx.vin[j] != txs[h].vin[i]
        {
          assert next[tx.vin[j]] == InPoint(tx.hash, j);
        }
      }
    }
    forall o | o in next'
      ensures IsSpend(txs', o, next'[o])
    {
      assert IsSpend(txs, o, next[o]);
      assert next[o].hash == tx.hash ==> o in tx.vin;
    }
  }

  lemma IndexShrinks(txs: Pool, next: Spends, txs': Pool, next': Spends)
    requires Indexed(txs, next) && Indexed(txs', next') && Part(txs', txs)
    ensures forall o :: o in next' ==> o in next && next[o] == next'[o]
  {
    forall o | o in next'
      ensures o in next && next[o] == next'[o]
    {
      assert IsSpend(txs', o, next'[o]);
      assert InputsIndexed(txs[next'[o].hash], next);
    }
  }

  lemma GoneFromIndex(txs: Pool, next: Spends, txs': Pool, next': Spends, o: OutPoint)
    requires Indexed(txs, next) && Indexed(txs', next') && Part(txs', txs)
    requires o in next && next[o].hash !in txs'
    ensures o !in next'
  {
    IndexShrinks(txs, next, txs', next');
  }

  lemma ClosedSelf(txs: Pool)
    ensures ClosedRest(txs, txs)
  {
  }

  lemma ClosedParts(txs: Pool, rest: Pool)
    requires ClosedRest(txs, rest)
    ensures Part(rest, txs) && forall h :: h in rest ==> h in txs && rest[h] == txs[h]
  {
  }

  lemma ChildOf(txs: Pool, next: Spends, tx: Tx, i: nat, rank: Hash -> nat)
    requires Indexed(txs, next) && Ranked(txs, rank) && i < |tx.vout| && Out(tx.hash, i) in next
    ensures next[Out(tx.hash, i)].hash in txs
    ensures var child := txs[next[Out(tx.hash, i)].hash];
      && child.hash == next[Out(tx.hash, i)].hash && SpendsOutputOf(child, tx) && rank(child.hash) > rank(tx.hash)
  {
    assert IsSpend(txs, Out(tx.hash, i), next[Out(tx.hash, i)]);
    assert RanksAfter(txs[next[Out(tx.hash, i)].hash], rank);
  }

  lemma RankedPart(txs: Pool, rest: Pool, rank: Hash -> nat)
    requires Ranked(txs, rank) && Part(rest, txs)
    ensures Ranked(rest, rank)
  {
  }

  lemma OwnHashes(txs: Pool, next: Spends)
    requires Indexed(txs, next)
    ensures forall h :: h in txs ==> txs[h].hash == h
  {
  }

  lemma NoSpenders(txs: Pool, next: Spends, tx: Tx)
    requires Indexed(txs, next) && forall k :: 0 <= k < |tx.vout| ==> Out(tx.hash, k) !in next
    ensures forall h :: h in txs ==> !SpendsOutputOf(txs[h], tx)
  {
    forall h | h in txs
      ensures !SpendsOutputOf(txs[h], tx)
    {
      assert InputsIndexed(txs[h], next);
    }
  }

  /** One child and its descendants have left. */
  lemma ChildGone(t: Pool, mid: Pool, rest: Pool, tx: Tx, child: Tx, rank: Hash -> nat)
    requires ClosedRest(t, mid) && ClosedRest(mid, rest) && Ranked(mid, rank)
    requires tx.hash in mid && mid[tx.hash] == tx && child.hash in mid && mid[child.hash] == child
    requires SpendsOutputOf(child, tx) && rank(child.hash) > rank(tx.hash)
    requires forall h :: h in mid ==> mid[h].hash == h
    requires forall h :: h in t && h !in mid ==> Descends(t, tx.hash, h)
    requires forall h :: h in rest <==> h in mid && !Descends(mid, child.hash, h)
    ensures ClosedRest(t, rest) && tx.hash in rest && child.hash !in rest
    ensures forall h :: h in t && h !in rest ==> Descends(t, tx.hash, h)
  {
    ClosedTwice(t, mid, rest);
    DescendsSelf(mid, child.hash);
    forall h | h in t && h !in rest
      ensures Descends(t, tx.hash, h)
    {
      if h in mid {
        DescendsFrom(t, mid, tx.hash, child.hash, h);
      }
    }
    if Descends(mid, child.hash, tx.hash) {
      RankGrows(mid, rank, child.hash, tx.hash);
    }
  }

  lemma RankGrows(txs: Pool, rank: Hash -> nat, a: Hash, b: Hash)
    requires Ranked(txs, rank) && Descends(txs, a, b) && forall h :: h in txs ==> txs[h].hash == h
    ensures rank(a) <= rank(b)
  {
    var p :| |p| > 0 && IsLine(txs, p) && p[0] == a && p[|p|-1] == b;
    LineRanks(txs, rank, p);
  }

  lemma {:induction false} LineRanks(txs: Pool, rank: Hash -> nat, p: seq<Hash>)
    requires Ranked(txs, rank) && |p| > 0 && IsLine(txs, p) && forall h :: h in txs ==> txs[h].hash == h
    ensures rank(p[0]) <= rank(p[|p|-1])
  {
    if |p| > 1 {
      var q := p[..|p|-1];
      assert IsLine(txs, q);
      LineRanks(txs, rank, q);
      assert SpendsOutputOf(txs[p[|p|-1]], txs[p[|p|-2]]) && RanksAfter(txs[p[|p|-1]], rank);
    }
  }

  /** The transaction leaves last: what is left is all that does not descend from it. */
  lemma OnlyDescendants(t: Pool, mid: Pool, rest: Pool, tx: Tx)
    requires ClosedRest(t, mid) && tx.hash in mid && mid[tx.hash] == tx && rest == mid - {tx.hash}
    requires forall h :: h in t && h !in mid ==> Descends(t, tx.hash, h)
    requires forall h :: h in mid ==> !SpendsOutputOf(mid[h], tx)
    ensures ClosedRest(t, rest)
    ensures forall h :: h in rest <==> h in t && !Descends(t, tx.hash, h)
  {
    forall h | h in t
      ensures h in rest <==> !Descends(t, tx.hash, h)
    {
      if h == tx.hash {
        DescendsSelf(t, h);
      } else if Descends(t, tx.hash, h) {
        GoneWithDescendants(t, rest, tx.hash, h);
      }
    }
  }

  // ------------------------------------------------------------------ conflicts

  predicate SharesInput(a: Tx, b: Tx) {
    exists i, j :: 0 <= i < |a.vin| && 0 <= j < |b.vin| && a.vin[i] == b.vin[j]
  }

  /** Another transaction spends an input of tx, and h is or descends from it. */
  ghost predicate InConflict(txs: Pool, tx: Tx, h: Hash) {
    exists c :: c in txs && c != tx.hash && SharesInput(txs[c], tx) && Descends(txs, c, h)
  }

  lemma Spender(txs: Pool, next: Spends, o: OutPoint)
    requires Indexed(txs, next) && o in next
    ensures next[o].hash in txs && txs[next[o].hash].hash == next[o].hash
  {
    assert IsSpend(txs, o, next[o]);
  }

  lemma SharesThrough(txs: Pool, next: Spends, tx: Tx, i: nat)
    requires Indexed(txs, next) && i < |tx.vin| && tx.vin[i] in next
    ensures next[tx.vin[i]].hash in txs && SharesInput(txs[next[tx.vin[i]].hash], tx)
  {
    assert IsSpend(txs, tx.vin[i], next[tx.vin[i]]);
  }

  lemma ConflictGone(t: Pool, mid: Pool, rest: Pool, tx: Tx, conflict: Tx)
    requires ClosedRest(t, mid) && ClosedRest(mid, rest)
    requires conflict.hash in mid && mid[conflict.hash] == conflict && conflict.hash != tx.hash
             && SharesInput(conflict, tx)
    requires forall h :: h in t && h !in mid ==> InConflict(t, tx, h)
    requires forall h :: h in rest <==> h in mid && !Descends(mid, conflict.hash, h)
    ensures ClosedRest(t, rest) && conflict.hash !in rest
    ensures forall h :: h in t && h !in rest ==> InConflict(t, tx, h)
  {
    ClosedTwice(t, mid, rest);
    DescendsSelf(mid, conflict.hash);
    forall h | h in t && h !in rest
      ensures InConflict(t, tx, h)
    {
      if h in mid {
        RestDescends(t, mid, conflict.hash, h);
      }
    }
  }

  lemma NoConflictLeft(t: Pool, txs: Pool, next: Spends, tx: Tx)
    requires Indexed(txs, next) && ClosedRest(t, txs)
    requires forall k :: 0 <= k < |tx.vin| && tx.vin[k] in next ==> next[tx.vin[k]].hash == tx.hash
    requires forall h :: h in t && h !in txs ==> InConflict(t, tx, h)
    ensures forall h :: h in txs && h != tx.hash ==> !SharesInput(txs[h], tx)
    ensures forall h :: h in t ==> (h !in txs <==> InConflict(t, tx, h))
  {
    forall h | h in txs && h != tx.hash
      ensures !SharesInput(txs[h], tx)
    {
      assert InputsIndexed(txs[h], next);
    }
    forall h | h in t && InConflict(t, tx, h)
      ensures h !in txs
    {
      var c :| c in t && c != tx.hash && SharesInput(t[c], tx) && Descends(t, c, h);
      GoneWithDescendants(t, txs, c, h);
    }
  }

  // ------------------------------------------------------------------ what a pool transaction may spend

  /** What FetchInputs finds outside a block: the stored entry, or else the pool's transaction, unspent. */
  function View(db: Index, txs: Pool): Index {
    (map h | h in txs :: Fresh(txs[h], NoPos)) + db
  }

  predicate Funded(v: Index, tx: Tx) {
    forall i :: 0 <= i < |tx.vin| ==> Spendable(v, tx.vin[i])
  }

  predicate Pays(v: Index, tx: Tx) {
    forall c :: 1 <= c < N_COLORS ==> InSum(v, tx.vin, c) >= OutSum(tx.vout, c)
  }

  /** What the transaction leaves of one color, the one its fee is in, for the miner. */
  function FeeOf(v: Index, tx: Tx, color: int): int {
    InSum(v, tx.vin, color) - OutSum(tx.vout, color)
  }

  /** A well-formed transaction that is neither coinbase nor coinstake. */
  predicate Loose(tx: Tx) {
    CheckTransaction(tx) && !tx.IsCoinBase() && !tx.IsCoinStake()
  }

  /** No transaction of the pool spends what tx spends. */
  predicate NoClash(txs: Pool, tx: Tx) {
    forall h :: h in txs ==> !SharesInput(txs[h], tx)
  }

  predicate Acceptable(txs: Pool, tx: Tx) {
    Loose(tx) && tx.hash !in txs && NoClash(txs, tx)
  }

  lemma ClashIsIndexed(txs: Pool, next: Spends, tx: Tx)
    requires Indexed(txs, next)
    ensures NoClash(txs, tx) <==> forall i :: 0 <= i < |tx.vin| ==> tx.vin[i] !in next
  {
    forall h, i, j | h in txs && 0 <= i < |txs[h].vin| && 0 <= j < |tx.vin| && txs[h].vin[i] == tx.vin[j]
      ensures tx.vin[j] in next
    {
      assert InputsIndexed(txs[h], next);
    }
    forall i | 0 <= i < |tx.vin| && tx.vin[i] in next
      ensures !NoClash(txs, tx)
    {
      SharesThrough(txs, next, tx, i);
    }
  }

  // ------------------------------------------------------------------ blocks that come and go

  /** A txid names one transaction. */
  predicate Known(txs: Pool, vtx: seq<Tx>) {
    forall j :: 0 <= j < |vtx| && vtx[j].hash in txs ==> txs[vtx[j].hash] == vtx[j]
  }

  /** The included transactions have left, and with every other one that has left its children have. */
  ghost predicate Left(txs: Pool, rest: Pool, gone: set<Hash>) {
    && Part(rest, txs) && rest.Keys !! gone
    && (forall a, c :: a in txs && a !in rest && a !in gone && c in rest ==> !SpendsOutputOf(rest[c], txs[a]))
  }

  /** One more included transaction, then its conflicts, leave. */
  lemma LeftMore(t: Pool, mid: Pool, rest: Pool, vtx: seq<Tx>, k: nat)
    requires k < |vtx| && Left(t, mid, Hashes(vtx[..k])) && ClosedRest(mid - {vtx[k].hash}, rest)
    ensures Left(t, rest, Hashes(vtx[..k+1]))
  {
    var gone, more := Hashes(vtx[..k]), Hashes(vtx[..k+1]);
    HashesNext(vtx, k);
    forall a, c | a in t && a !in rest && a !in more && c in rest
      ensures !SpendsOutputOf(rest[c], t[a])
    {
      assert a in mid ==> a in mid - {vtx[k].hash};
    }
  }

  lemma HashesNext(vtx: seq<Tx>, k: nat)
    requires k < |vtx|
    ensures Hashes(vtx[..k+1]) == Hashes(vtx[..k]) + {vtx[k].hash}
  {
    var more := Hashes(vtx[..k+1]);
    forall h | h in Hashes(vtx[..k]) ensures h in more {
      var j :| 0 <= j < k && vtx[..k][j].hash == h;
      assert vtx[..k+1][j].hash == h;
    }
    assert vtx[..k+1][k].hash == vtx[k].hash;
    forall h | h in more ensures h in Hashes(vtx[..k]) + {vtx[k].hash} {
      var j :| 0 <= j < k + 1 && vtx[..k+1][j].hash == h;
      assert j < k ==> vtx[..k][j].hash == h;
    }
  }

  /** A conflict in a part of the pool is one in the pool. */
  lemma ConflictInPart(t: Pool, mid: Pool, tx: Tx, h: Hash)
    requires Part(mid, t) && InConflict(mid, tx, h)
    ensures InConflict(t, tx, h)
  {
    var c :| c in mid && c != tx.hash && SharesInput(mid[c], tx) && Descends(mid, c, h);
    var p :| |p| > 0 && IsLine(mid, p) && p[0] == c && p[|p|-1] == h;
    assert IsLine(t, p) by {
      assert forall k :: 0 < k < |p| ==> SpendsOutputOf(mid[p[k]], mid[p[k-1]]);
    }
  }

  /** The pool after the transactions are offered to it in turn without a check of their inputs. */
  function Resurrected(txs: Pool, vtx: seq<Tx>, standard: Tx -> bool): Pool {
    if vtx == [] then txs else
      var k := |vtx| - 1;
      var before := Resurrected(txs, vtx[..k], standard);
      if Acceptable(before, vtx[k]) && standard(vtx[k]) then before[vtx[k].hash := vtx[k]] else before
  }

  // ------------------------------------------------------------------ the pool

  class TxPool {
    var txs: Pool
    var next: Spends
    ghost const rank: Hash -> nat

    ghost predicate Valid()
      reads this
    {
      Indexed(txs, next) && Ranked(txs, rank)
    }

    constructor (ghost r: Hash -> nat)
      ensures Valid() && txs == map[] && rank == r
    {
      txs, next, rank := map[], map[], r;
    }

    method AddUnchecked(tx: Tx)
      requires Valid() && tx.hash !in txs && RanksAfter(tx, rank)
      requires forall i :: 0 <= i < |tx.vin| ==> tx.vin[i] !in next
      requires forall i, j :: 0 <= i < j < |tx.vin| ==> tx.vin[i] != tx.vin[j]
      modifies this
      ensures Valid() && txs == old(txs)[tx.hash := tx]
    {
      txs := txs[tx.hash := tx];
      ghost var before := next;
      for i := 0 to |tx.vin|
        invariant txs == old(txs)[tx.hash := tx]
        invariant forall k :: 0 <= k < i ==> tx.vin[k] in next && next[tx.vin[k]] == InPoint(tx.hash, k)
        invariant forall o :: o in next <==> o in before || o in tx.vin[..i]
        invariant forall o :: o in before ==> next[o] == before[o]
      {
        assert tx.vin[..i+1] == tx.vin[..i] + [tx.vin[i]];
        next := next[tx.vin[i] := InPoint(tx.hash, i)];
      }
      assert tx.vin[..|tx.vin|] == tx.vin;
      AddKeeps(old(txs), before, tx, next);
    }

    /** Accept over the index `db`, with the least fee and its color: `policy` stands for standardness, rate limit,
        maturity, signatures and sigops. */
    method Accept(db: Index, tx: Tx, checkInputs: bool, policy: bool, feeColor: int, minFee: int) returns (ok: bool)
      requires Valid()
      requires forall i :: 0 <= i < |tx.vin| && tx.vin[i].Out? ==> rank(tx.vin[i].hash) < rank(tx.hash)
      modifies this
      ensures Valid()
      ensures ok <==> && Acceptable(old(txs), tx) && policy
                      && (checkInputs ==> && tx.hash !in db && Funded(View(db, old(txs)), tx)
                                          && Pays(View(db, old(txs)), tx)
                                          && InSum(View(db, old(txs)), tx.vin, feeColor)
                                             - OutSum(tx.vout, feeColor) >= minFee)
      ensures txs == if ok then old(txs)[tx.hash := tx] else old(txs)
    {
      ClashIsIndexed(txs, next, tx);
      if !Loose(tx) || tx.hash in txs || (checkInputs && tx.hash in db) {
        return false;
      }
      for i := 0 to |tx.vin|
        invariant unchanged(this)
        invariant forall k :: 0 <= k < i ==> tx.vin[k] !in next
      {
        if tx.vin[i] in next {
          return false;
        }
      }
      if !policy || (checkInputs && !(Funded(View(db, txs), tx) && Pays(View(db, txs), tx)
                                        && FeeOf(View(db, txs), tx, feeColor) >= minFee)) {
        return false;
      }
      AddUnchecked(tx);
      return true;
    }

    /** The transactions of a disconnected block come back. */
    method Resurrect(db: Index, vtx: seq<Tx>, standard: Tx -> bool)
      requires Valid()
      requires forall j, i :: 0 <= j < |vtx| && 0 <= i < |vtx[j].vin| && vtx[j].vin[i].Out?
                 ==> rank(vtx[j].vin[i].hash) < rank(vtx[j].hash)
      modifies this
      ensures Valid() && txs == Resurrected(old(txs), vtx, standard)
    {
      hide Acceptable, Indexed, Ranked;
      for j := 0 to |vtx|
        invariant Valid() && txs == Resurrected(old(txs), vtx[..j], standard)
      {
        assert vtx[..j+1][..j] == vtx[..j];
        var _ := Accept(db, vtx[j], false, standard(vtx[j]), 0, 0);
      }
      assert vtx[..|vtx|] == vtx;
    }

    /** The transaction itself leaves, and its inputs leave the index. */
    method Drop(tx: Tx)
      requires Valid() && tx.hash in txs && txs[tx.hash] == tx
      modifies this
      ensures Valid() && txs == old(txs) - {tx.hash}
      ensures forall o :: o in next <==> o in old(next) && o !in tx.vin
    {
      hide Indexed, Ranked;
      ghost var before := next;
      for i := 0 to |tx.vin|
        invariant txs == old(txs)
        invariant forall o :: o in next <==> o in before && o !in tx.vin[..i]
        invariant forall o :: o in next ==> next[o] == before[o]
      {
        assert tx.vin[..i+1] == tx.vin[..i] + [tx.vin[i]];
        next := next - {tx.vin[i]};
      }
      assert tx.vin[..|tx.vin|] == tx.vin;
      txs := txs - {tx.hash};
      DropKeeps(old(txs), before, tx, next);
      RankedPart(old(txs), txs, rank);
    }

    /** The loop over the outputs: every transaction that spends one leaves with its descendants. */
    method RemoveChildren(tx: Tx)
      requires Valid() && tx.hash in txs && txs[tx.hash] == tx
      modifies this
      ensures Valid() && tx.hash in txs && ClosedRest(old(txs), txs)
      ensures forall h :: h in old(txs) && h !in txs ==> Descends(old(txs), tx.hash, h)
      ensures forall h :: h in txs ==> !SpendsOutputOf(txs[h], tx)
      decreases |Above(txs, rank, rank(tx.hash))|, 0
    {
      hide ClosedRest, Part, Descends, Indexed, Ranked, SpendsOutputOf, Above;
      ghost var t := txs;
      ClosedSelf(t);
      for i := 0 to |tx.vout|
        invariant Valid() && tx.hash in txs && ClosedRest(t, txs)
        invariant forall h :: h in t && h !in txs ==> Descends(t, tx.hash, h)
        invariant forall k :: 0 <= k < i ==> Out(tx.hash, k) !in next
      {
        var o := Out(tx.hash, i);
        if o in next {
          ghost var mid, seen := txs, next;
          ClosedParts(t, txs);
          ChildOf(txs, next, tx, i, rank);
          var child := txs[next[o].hash];
          AboveShrinks(t, txs, rank, rank(tx.hash), child.hash);
          Remove(child, true);
          OwnHashes(mid, seen);
          ChildGone(t, mid, txs, tx, child, rank);
          ClosedParts(mid, txs);
          IndexShrinks(mid, seen, txs, next);
          GoneFromIndex(mid, seen, txs, next, o);
        }
      }
      NoSpenders(txs, next, tx);
    }

    /** Recursive removal takes exactly the transaction and its descendants. */
    method Remove(tx: Tx, recursive: bool)
      requires Valid() && (tx.hash in txs ==> txs[tx.hash] == tx)
      modifies this
      ensures Valid() && Part(txs, old(txs))
      ensures !recursive ==> txs == old(txs) - {tx.hash}
      ensures recursive ==> ClosedRest(old(txs), txs)
      ensures recursive ==> forall h :: h in txs <==> h in old(txs) && !Descends(old(txs), tx.hash, h)
      decreases |Above(txs, rank, rank(tx.hash))|, 1
    {
      if tx.hash !in txs {
        assert forall h :: !Descends(txs, tx.hash, h);
        return;
      }
      if recursive {
        RemoveChildren(tx);
      }
      ghost var rest := txs;
      Drop(tx);
      if recursive {
        OnlyDescendants(old(txs), rest, txs, tx);
      }
    }
 
    /** Nothing but tx itself keeps spending an input of tx, and only what had to go goes. */
    method RemoveConflicts(tx: Tx)
      requires Valid() && (tx.hash in txs ==> txs[tx.hash] == tx)
      modifies this
      ensures Valid() && ClosedRest(old(txs), txs)
      ensures forall h :: h in txs && h != tx.hash ==> !SharesInput(txs[h], tx)
      ensures forall h :: h in old(txs) ==> (h !in txs <==> InConflict(old(txs), tx, h))
    {
      hide ClosedRest, Part, Descends, Indexed, Ranked, SharesInput, InConflict;
      ghost var t := txs;
      ClosedSelf(t);
      for i := 0 to |tx.vin|
        invariant Valid() && (tx.hash in txs ==> txs[tx.hash] == tx) && ClosedRest(t, txs)
        invariant forall h :: h in t && h !in txs ==> InConflict(t, tx, h)
        invariant forall k :: 0 <= k < i && tx.vin[k] in next ==> next[tx.vin[k]].hash == tx.hash
      {
        var o := tx.vin[i];
        if o in next {
          ghost var mid, seen := txs, next;
          Spender(txs, next, o);
          var conflict := txs[next[o].hash];
          if conflict != tx {
            SharesThrough(txs, next, tx, i);
            Remove(conflict, true);
            ConflictGone(t, mid, txs, tx, conflict);
            ClosedParts(mid, txs);
            IndexShrinks(mid, seen, txs, next);
            GoneFromIndex(mid, seen, txs, next, o);
          }
        }
      }
      NoConflictLeft(t, txs, next, tx);
    }

    /** The included transactions leave, with their conflicts or, as SetBestChainInner has it, without. */
    method DeleteIncluded(vtx: seq<Tx>, conflicts: bool)
      requires Valid() && Known(txs, vtx)
      modifies this
      ensures Valid() && Left(old(txs), txs, Hashes(vtx))
      ensures conflicts ==> forall j :: 0 <= j < |vtx| ==> NoClash(txs, vtx[j])
      ensures forall h :: h in old(txs) && h !in txs ==>
                h in Hashes(vtx) || (conflicts && exists j :: 0 <= j < |vtx| && InConflict(old(txs), vtx[j], h))
    {
      hide ClosedRest, Indexed, Ranked, InConflict, SpendsOutputOf, SharesInput, Hashes, Descends;
      ghost var t := txs;
      NoneLeft(t, vtx);
      for k := 0 to |vtx|
        invariant Valid() && Left(t, txs, Hashes(vtx[..k])) && Known(txs, vtx)
        invariant conflicts ==> forall j :: 0 <= j < k ==> NoClash(txs, vtx[j])
        invariant forall h :: h in t && h !in txs ==>
                    h in Hashes(vtx[..k]) || (conflicts && exists j :: 0 <= j < k && InConflict(t, vtx[j], h))
      {
        ghost var mid := txs;
        HashesNext(vtx, k);
        Remove(vtx[k], false);
        ghost var less := txs;
        ClosedSelf(less);
        if conflicts {
          RemoveConflicts(vtx[k]);
          ClosedParts(less, txs);
          forall h | h in less && h !in txs ensures InConflict(t, vtx[k], h) {
            ConflictInPart(t, less, vtx[k], h);
          }
        }
        LeftMore(t, mid, txs, vtx, k);
      }
      assert vtx[..|vtx|] == vtx;
    }
  }

  lemma NoneLeft(txs: Pool, vtx: seq<Tx>)
    ensures Left(txs, txs, Hashes(vtx[..0]))
  {
  }
}
