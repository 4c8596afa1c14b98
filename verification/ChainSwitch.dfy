/** Switching the best chain: Reorganize, SetBestChainInner and SetBestChain. */
module ChainSwitch {
  import opened Options
  import opened Ledger
  import opened LedgerValues
  import opened BlockTree

  /** The transaction index and the vectors kept in the block index entries. */
  datatype Store = Store(index: Index, vectors: map<Id, BlockIndex>)

  // ------------------------------------------------------------------ connecting and disconnecting along a branch

  function ConnectId(rules: Rules, t: Tree, s: Store, x: Id): Option<Store> {
    if x !in t || t[x].prev.None? || t[x].prev.value !in s.vectors || !s.vectors[t[x].prev.value].Valid() then None
    else
      var prev := s.vectors[t[x].prev.value];
      if ConnectOk(rules, prev, s.index, t[x].block)
      then Some(Store(ApplyBlock(s.index, t[x].block).value,
                      s.vectors[x := NextIndex(rules, prev, s.index, t[x].block)]))
      else None
  }

  function DisconnectId(t: Tree, index: Index, x: Id): Option<Index> {
    if x in t then UndoBlock(index, t[x].block) else None
  }

  function Connector(rules: Rules, t: Tree): (Store, Id) -> Option<Store> {
    (s: Store, x: Id) => ConnectId(rules, t, s, x)
  }

  function Disconnector(t: Tree): (Index, Id) -> Option<Index> {
    (index: Index, x: Id) => DisconnectId(t, index, x)
  }

  /** A switch in one database transaction. */
  function Switch(rules: Rules, t: Tree, s: Store, down: seq<Id>, up: seq<Id>): Option<Store> {
    match Fold(Disconnector(t), s.index, down)
    case None => None
    case Some(v) => Fold(Connector(rules, t), s.(index := v), up)
  }

  /** Connecting the new branch in two portions is the same as connecting it in one. */
  lemma SwitchInTwo(rules: Rules, t: Tree, s: Store, down: seq<Id>, first: seq<Id>, second: seq<Id>)
    ensures Switch(rules, t, s, down, first + second)
            == match Switch(rules, t, s, down, first)
               case None => None
               case Some(r) => Fold(Connector(rules, t), r, second)
  {
    match Fold(Disconnector(t), s.index, down)
    case None =>
    case Some(v) => FoldAppend(Connector(rules, t), s.(index := v), first, second);
  }

  // ------------------------------------------------------------------ pnext and mapBlockLookup

  /** The forward pointers along the path to x. */
  ghost function NextOf(t: Tree, x: Id): map<Id, Id>
    requires WellFormed(t) && x in t
    decreases t[x].height
  {
    match t[x].prev
    case None => map[]
    case Some(p) => NextOf(t, p)[p := x]
  }

  /** The blocks of the path to x by height. */
  ghost function LookupOf(t: Tree, x: Id): map<nat, Id>
    requires WellFormed(t) && x in t
    decreases t[x].height
  {
    match t[x].prev
    case None => map[t[x].height := x]
    case Some(p) => LookupOf(t, p)[t[x].height := x]
  }

  /** The forward pointers and the height table describe exactly the path to x. */
  ghost predicate Linked(t: Tree, pnext: map<Id, Id>, lookup: map<nat, Id>, x: Id)
    requires WellFormed(t)
  {
    x in t && pnext == NextOf(t, x) && lookup == LookupOf(t, x)
  }

  lemma {:induction false} PathAt(t: Tree, x: Id, i: nat)
    requires WellFormed(t) && x in t && i <= t[x].height
    ensures Path(t, x)[i] in t && t[Path(t, x)[i]].height == i
    decreases t[x].height
  {
    if i < t[x].height {
      PathAt(t, t[x].prev.value, i);
    }
  }

  /** What Linked says of position i of the path; NextOfBelow says there is nothing else. */
  lemma {:induction false} LinkedAt(t: Tree, x: Id, i: nat)
    requires WellFormed(t) && x in t && i <= t[x].height
    ensures i in LookupOf(t, x) && LookupOf(t, x)[i] == Path(t, x)[i]
    ensures i < t[x].height ==>
              Path(t, x)[i] in NextOf(t, x) && NextOf(t, x)[Path(t, x)[i]] == Path(t, x)[i+1]
    decreases t[x].height
  {
    if i < t[x].height {
      var p := t[x].prev.value;
      LinkedAt(t, p, i);
      PathAt(t, p, i);
      PathAt(t, p, t[p].height);
    }
  }

  lemma {:induction false} NextOfBelow(t: Tree, x: Id)
    requires WellFormed(t) && x in t
    ensures forall y :: y in NextOf(t, x) ==> y in t && t[y].height < t[x].height && Anc(t, y, x)
    ensures forall i :: i in LookupOf(t, x) ==> i <= t[x].height
    decreases t[x].height
  {
    if t[x].prev.Some? {
      NextOfBelow(t, t[x].prev.value);
    }
  }

  lemma UnlinkTop(t: Tree, pnext: map<Id, Id>, lookup: map<nat, Id>, x: Id)
    requires WellFormed(t) && Linked(t, pnext, lookup, x) && t[x].prev.Some?
    ensures Linked(t, pnext - {t[x].prev.value}, lookup - {t[x].height}, t[x].prev.value)
  {
    var p := t[x].prev.value;
    NextOfBelow(t, p);
    assert NextOf(t, p)[p := x] - {p} == NextOf(t, p);
    assert LookupOf(t, p)[t[x].height := x] - {t[x].height} == LookupOf(t, p);
  }

  /** The check both routines make on the block below the one they attach to. */
  lemma ProperlyConnected(t: Tree, pnext: map<Id, Id>, lookup: map<nat, Id>, x: Id)
    requires WellFormed(t) && Linked(t, pnext, lookup, x) && t[x].prev.Some?
    ensures t[x].prev.value in pnext && pnext[t[x].prev.value] == x
  {
  }

  // ------------------------------------------------------------------ index and vectors belong to the path

  ghost function Root(t: Tree, x: Id): (g: Id)
    requires WellFormed(t) && x in t
    ensures g in t && t[g].prev.None?
    decreases t[x].height
  {
    if t[x].prev.None? then x else Root(t, t[x].prev.value)
  }

  ghost function Blocks(t: Tree, x: Id): seq<Block>
    requires WellFormed(t) && x in t
    decreases t[x].height
  {
    match t[x].prev
    case None => []
    case Some(p) => Blocks(t, p) + [t[x].block]
  }

  ghost predicate HasVectors(t: Tree, vectors: map<Id, BlockIndex>, x: Id)
    requires WellFormed(t) && x in t
    decreases t[x].height
  {
    x in vectors && (t[x].prev.Some? ==> HasVectors(t, vectors, t[x].prev.value))
  }

  ghost function Tips(t: Tree, vectors: map<Id, BlockIndex>, x: Id): seq<BlockIndex>
    requires WellFormed(t) && x in t && HasVectors(t, vectors, x)
    decreases t[x].height
  {
    match t[x].prev
    case None => [vectors[x]]
    case Some(p) => Tips(t, vectors, p) + [vectors[x]]
  }

  ghost function StateOf(t: Tree, s: Store, x: Id): State
    requires WellFormed(t) && x in t && HasVectors(t, s.vectors, x)
  {
    State(s.index, Blocks(t, x), Tips(t, s.vectors, x))
  }

  /** The index is the replay of the path to x, value is conserved and supply is within mint
      at every block of it. */
  ghost predicate Good(t: Tree, s: Store, x: Id)
    requires WellFormed(t)
  {
    && x in t && HasVectors(t, s.vectors, x)
    && Root(t, x) in s.vectors
    && Genesis(s.vectors[Root(t, x)])
    && Sound(s.vectors[Root(t, x)], StateOf(t, s, x))
  }

  /** The vectors of the path to x are the same in both. */
  ghost predicate SamePath(t: Tree, v: map<Id, BlockIndex>, w: map<Id, BlockIndex>, x: Id)
    requires WellFormed(t)
  {
    forall a :: Anc(t, a, x) && a in v ==> a in w && w[a] == v[a]
  }

  /** Vectors of blocks off the path to x do not matter to it. */
  lemma {:induction false} TipsFrame(t: Tree, v: map<Id, BlockIndex>, w: map<Id, BlockIndex>, x: Id)
    requires WellFormed(t) && x in t && HasVectors(t, v, x)
    requires SamePath(t, v, w, x)
    ensures HasVectors(t, w, x) && Tips(t, w, x) == Tips(t, v, x)
    ensures Root(t, x) in v ==> Root(t, x) in w && w[Root(t, x)] == v[Root(t, x)]
    decreases t[x].height
  {
    if t[x].prev.Some? {
      TipsFrame(t, v, w, t[x].prev.value);
    }
  }

  lemma GoodIn(t: Tree, s: Store, x: Id)
    requires WellFormed(t) && Good(t, s, x)
    ensures x in t
  {
  }

  lemma GoodFrame(t: Tree, s: Store, r: Store, x: Id)
    requires WellFormed(t) && Good(t, s, x) && r.index == s.index
    requires SamePath(t, s.vectors, r.vectors, x)
    ensures Good(t, r, x)
  {
    TipsFrame(t, s.vectors, r.vectors, x);
  }

  lemma {:induction false} TipsLast(t: Tree, v: map<Id, BlockIndex>, x: Id)
    requires WellFormed(t) && x in t && HasVectors(t, v, x)
    ensures |Tips(t, v, x)| == t[x].height + 1 && |Blocks(t, x)| == t[x].height
    ensures Tips(t, v, x)[t[x].height] == v[x]
    decreases t[x].height
  {
    if t[x].prev.Some? {
      TipsLast(t, v, t[x].prev.value);
    }
  }

  lemma ConnectKeepsGood(rules: Rules, t: Tree, s: Store, x: Id)
    requires WellFormed(t) && x in t && t[x].prev.Some? && Good(t, s, t[x].prev.value)
    requires ConnectId(rules, t, s, x).Some?
    ensures Good(t, ConnectId(rules, t, s, x).value, x)
  {
    hide Sound, ConnectOk, ApplyBlock, NextIndex;
    var p := t[x].prev.value;
    var r := ConnectId(rules, t, s, x).value;
    forall a | Anc(t, a, p)
      ensures a != x
    {
      AncBelow(t, a, p);
    }
    TipsFrame(t, s.vectors, r.vectors, p);
    TipsLast(t, s.vectors, p);
    var before, after := StateOf(t, s, p), StateOf(t, r, x);
    SoundShape(s.vectors[Root(t, p)], before);
    assert Advance(rules, before, Connect(t[x].block)) == Some(after);
    AdvanceKeepsSound(rules, s.vectors[Root(t, p)], before, Connect(t[x].block));
  }

  lemma SoundShape(g: BlockIndex, s: State)
    requires Sound(g, s)
    ensures Shape(s)
  {
  }

  lemma DisconnectKeepsGood(rules: Rules, t: Tree, s: Store, x: Id)
    requires WellFormed(t) && x in t && t[x].prev.Some? && Good(t, s, x)
    requires UndoBlock(s.index, t[x].block).Some?
    ensures Good(t, s.(index := UndoBlock(s.index, t[x].block).value), t[x].prev.value)
  {
    hide Sound, UndoBlock;
    var p := t[x].prev.value;
    var r := s.(index := UndoBlock(s.index, t[x].block).value);
    TipsLast(t, s.vectors, p);
    var before, after := StateOf(t, s, x), StateOf(t, r, p);
    SoundShape(s.vectors[Root(t, x)], before);
    assert before.chain[..|before.chain|-1] == after.chain;
    assert before.tips[..|before.chain|] == after.tips;
    assert Advance(rules, before, Disconnect) == Some(after);
    AdvanceKeepsSound(rules, s.vectors[Root(t, x)], before, Disconnect);
  }

  // ------------------------------------------------------------------ a growing tree

  /** What is said about the path to y depends on the blocks of that path only. */
  lemma {:induction false} PathFrame(t: Tree, u: Tree, y: Id)
    requires WellFormed(t) && WellFormed(u) && Within(t, u) && y in t
    ensures NextOf(u, y) == NextOf(t, y) && LookupOf(u, y) == LookupOf(t, y)
    ensures Root(u, y) == Root(t, y) && Blocks(u, y) == Blocks(t, y)
    decreases t[y].height
  {
    if t[y].prev.Some? {
      PathFrame(t, u, t[y].prev.value);
    }
  }

  lemma {:induction false} VectorsFrame(t: Tree, u: Tree, v: map<Id, BlockIndex>, y: Id)
    requires WellFormed(t) && WellFormed(u) && Within(t, u) && y in t && HasVectors(t, v, y)
    ensures HasVectors(u, v, y) && Tips(u, v, y) == Tips(t, v, y)
    decreases t[y].height
  {
    if t[y].prev.Some? {
      VectorsFrame(t, u, v, t[y].prev.value);
    }
  }

  lemma GrowthKeepsTracks(t: Tree, u: Tree, pnext: map<Id, Id>, lookup: map<nat, Id>, s: Store, y: Id)
    requires WellFormed(t) && WellFormed(u) && Within(t, u)
    requires Linked(t, pnext, lookup, y) && Good(t, s, y)
    ensures Linked(u, pnext, lookup, y) && Good(u, s, y)
  {
    hide Sound;
    PathFrame(t, u, y);
    VectorsFrame(t, u, s.vectors, y);
  }

  // ------------------------------------------------------------------ whole branches

  lemma {:induction false} DisconnectBranchGood(rules: Rules, t: Tree, s: Store, x: Id, f: Id)
    requires WellFormed(t) && Anc(t, f, x) && Good(t, s, x)
    requires Fold(Disconnector(t), s.index, Down(t, x, f)).Some?
    ensures Good(t, s.(index := Fold(Disconnector(t), s.index, Down(t, x, f)).value), f)
    decreases t[x].height
  {
    hide Good, UndoBlock;
    if x == f {
      assert s.(index := s.index) == s;
    } else {
      var p := t[x].prev.value;
      FoldAppend(Disconnector(t), s.index, [x], Down(t, p, f));
      FoldOne(Disconnector(t), s.index, x);
      var v := UndoBlock(s.index, t[x].block).value;
      DisconnectKeepsGood(rules, t, s, x);
      DisconnectBranchGood(rules, t, s.(index := v), p, f);
    }
  }

  lemma {:induction false} ConnectBranchGood(rules: Rules, t: Tree, s: Store, x: Id, f: Id)
    requires WellFormed(t) && Anc(t, f, x) && Good(t, s, f)
    requires Fold(Connector(rules, t), s, Up(t, x, f)).Some?
    ensures Good(t, Fold(Connector(rules, t), s, Up(t, x, f)).value, x)
    decreases t[x].height
  {
    hide Good, ConnectId;
    if x != f {
      var p := t[x].prev.value;
      var below := Up(t, p, f);
      assert Up(t, x, f)[..|below|] == below;
      ConnectBranchGood(rules, t, s, p, f);
      ConnectKeepsGood(rules, t, Fold(Connector(rules, t), s, below).value, x);
    }
  }

  /** A switch that succeeds ends in a store that belongs to the path to the new tip. */
  lemma SwitchGood(rules: Rules, t: Tree, s: Store, x: Id, y: Id, f: Id)
    requires WellFormed(t) && Anc(t, f, x) && Anc(t, f, y) && Good(t, s, x)
    requires Switch(rules, t, s, Down(t, x, f), Up(t, y, f)).Some?
    ensures Good(t, Switch(rules, t, s, Down(t, x, f), Up(t, y, f)).value, y)
  {
    hide Good, ConnectId, UndoBlock;
    DisconnectBranchGood(rules, t, s, x, f);
    var v := Fold(Disconnector(t), s.index, Down(t, x, f)).value;
    ConnectBranchGood(rules, t, s.(index := v), y, f);
  }

  /** Attaching one block to the tip is a switch with nothing to disconnect. */
  lemma ExtendIsSwitch(rules: Rules, t: Tree, s: Store, y: Id)
    requires WellFormed(t) && y in t && t[y].prev.Some?
    ensures var x := t[y].prev.value;
            && IsFork(t, x, x, y)
            && Switch(rules, t, s, Down(t, x, x), Up(t, y, x)) == ConnectId(rules, t, s, y)
  {
    hide ConnectId, UndoBlock;
    var x := t[y].prev.value;
    assert Anc(t, x, x) && Anc(t, x, y);
    assert Up(t, x, x) == [];
    assert Up(t, y, x) == [y];
    FoldOne(Connector(rules, t), s, y);
    assert s.(index := s.index) == s;
  }

  /** The switch in two phases ends where one direct switch would: the lower part of the new
      branch starts at the same fork, because its top has more trust than the best block. */
  lemma TwoPhase(rules: Rules, t: Tree, s: Store, x: Id, y: Id, z: Id, f: Id)
    requires WellFormed(t) && x in t && Anc(t, z, y) && z in t && t[z].trust > t[x].trust
    requires IsFork(t, f, x, z)
    ensures IsFork(t, f, x, y)
    ensures Switch(rules, t, s, Down(t, x, f), Up(t, y, f))
            == match Switch(rules, t, s, Down(t, x, f), Up(t, z, f))
               case None => None
               case Some(r) => Fold(Connector(rules, t), r, Up(t, y, z))
  {
    hide Switch;
    ForkAbove(t, f, x, y, z);
    UpSplits(t, y, z, f);
    SwitchInTwo(rules, t, s, Down(t, x, f), Up(t, z, f), Up(t, y, z));
  }

  /** No common ancestor has more trust than the best block, so a block of the new branch
      that has more lies above all of them. */
  lemma ForkAbove(t: Tree, f: Id, x: Id, y: Id, z: Id)
    requires WellFormed(t) && IsFork(t, f, x, z) && Anc(t, z, y) && z in t && x in t
    requires t[z].trust > t[x].trust
    ensures IsFork(t, f, x, y)
  {
    AncTransitive(t, f, z, y);
    forall a | Anc(t, a, x) && Anc(t, a, y)
      ensures Anc(t, a, f)
    {
      AncBelow(t, a, x);
      if t[z].height < t[a].height {
        AncLinear(t, z, a, y);
        AncBelow(t, z, a);
        assert false;
      }
      AncLinear(t, a, z, y);
    }
  }

  lemma {:induction false} DownOneMore(t: Tree, x: Id, f: Id)
    requires WellFormed(t) && Anc(t, f, x) && f in t && t[f].prev.Some?
    ensures Anc(t, t[f].prev.value, x)
    ensures Down(t, x, t[f].prev.value) == Down(t, x, f) + [f]
    decreases t[x].height
  {
    var p := t[f].prev.value;
    assert Anc(t, p, p) && Anc(t, p, f);
    AncTransitive(t, p, f, x);
    AncBelow(t, f, x);
    if x != f {
      DownOneMore(t, t[x].prev.value, f);
      assert Down(t, x, p) == [x] + Down(t, t[x].prev.value, p);
    } else {
      assert Down(t, f, p) == [f] + Down(t, p, p);
    }
  }

  /** Clears the forward pointers and heights of the old branch, from the top down. */
  method Unlink(t: Tree, pnext0: map<Id, Id>, lookup0: map<nat, Id>, ids: seq<Id>, ghost x: Id, ghost f: Id)
    returns (pnext: map<Id, Id>, lookup: map<nat, Id>)
    requires WellFormed(t) && Anc(t, f, x) && Linked(t, pnext0, lookup0, x) && ids == Down(t, x, f)
    ensures Linked(t, pnext, lookup, f)
  {
    hide Linked;
    pnext, lookup := pnext0, lookup0;
    ghost var cur := x;
    for i := 0 to |ids|
      invariant Anc(t, f, cur) && ids[i..] == Down(t, cur, f)
      invariant Linked(t, pnext, lookup, cur)
    {
      assert ids[i] == ids[i..][0] == cur && ids[i+1..] == ids[i..][1..];
      UnlinkTop(t, pnext, lookup, ids[i]);
      pnext := pnext - {t[ids[i]].prev.value};
      lookup := lookup - {t[ids[i]].height};
      cur := t[cur].prev.value;
    }
  }

  lemma {:induction false} UpAt(t: Tree, x: Id, f: Id, i: nat)
    requires WellFormed(t) && Anc(t, f, x) && i < |Up(t, x, f)|
    ensures Up(t, x, f)[i] in t
    ensures t[Up(t, x, f)[i]].prev == Some(if i == 0 then f else Up(t, x, f)[i-1])
    decreases t[x].height
  {
    var p := t[x].prev.value;
    if i < |Up(t, p, f)| {
      UpAt(t, p, f, i);
    } else if i > 0 {
      assert p != f && Up(t, p, f)[i-1] == p;
    }
  }

  /** The target comes last on its branch and nowhere before. */
  lemma {:induction false} UpOnce(t: Tree, x: Id, f: Id, i: nat)
    requires WellFormed(t) && Anc(t, f, x) && i < |Up(t, x, f)|
    ensures i > 0 ==> Up(t, x, f)[i-1] != x
    ensures f != x
  {
    if i > 0 {
      var p := t[x].prev.value;
      assert Up(t, x, f)[i-1] == Up(t, p, f)[i-1];
      InUp(t, p, f, Up(t, p, f)[i-1]);
      AncBelow(t, Up(t, p, f)[i-1], p);
    }
  }

  /** One more block of the branch from f up to x. */
  lemma UpNext(t: Tree, x: Id, f: Id, i: nat, last: Id)
    requires WellFormed(t) && Anc(t, f, x) && i < |Up(t, x, f)|
    requires last == if i == 0 then f else Up(t, x, f)[i-1]
    requires Anc(t, f, last) && Up(t, x, f)[..i] == Up(t, last, f)
    ensures var y := Up(t, x, f)[i];
      && y in t && t[y].prev == Some(last) && Anc(t, y, x) && Anc(t, f, y) && last != x
      && Up(t, x, f)[..i+1] == Up(t, y, f)
  {
    UpAt(t, x, f, i);
    InUp(t, x, f, Up(t, x, f)[i]);
    UpOnce(t, x, f, i);
    assert Up(t, x, f)[..i+1] == Up(t, x, f)[..i] + [Up(t, x, f)[i]];
  }

  /** Sets the forward pointers and heights of the new branch, from the bottom up. */
  method Link(t: Tree, pnext0: map<Id, Id>, lookup0: map<nat, Id>, ids: seq<Id>, ghost y: Id, ghost f: Id)
    returns (pnext: map<Id, Id>, lookup: map<nat, Id>)
    requires WellFormed(t) && Anc(t, f, y) && Linked(t, pnext0, lookup0, f) && ids == Up(t, y, f)
    ensures Linked(t, pnext, lookup, y)
  {
    pnext, lookup := pnext0, lookup0;
    ghost var cur := f;
    for i := 0 to |ids|
      invariant cur == if i == 0 then f else ids[i-1]
      invariant Linked(t, pnext, lookup, cur)
    {
      UpAt(t, y, f, i);
      pnext := pnext[t[ids[i]].prev.value := ids[i]];
      lookup := lookup[t[ids[i]].height := ids[i]];
      cur := ids[i];
    }
  }

  /** The in-memory part of Reorganize.  The check it makes after the commit, that the fork
      is itself properly connected, always passes. */
  method Relink(t: Tree, pnext0: map<Id, Id>, lookup0: map<nat, Id>, down: seq<Id>, up: seq<Id>, ghost x: Id,
                ghost y: Id, meet: Id)
    returns (pnext: map<Id, Id>, lookup: map<nat, Id>)
    requires WellFormed(t) && Linked(t, pnext0, lookup0, x) && Anc(t, meet, x) && Anc(t, meet, y)
    requires down == Down(t, x, meet) && up == Up(t, y, meet)
    ensures Linked(t, pnext, lookup, y)
  {
    pnext, lookup := Unlink(t, pnext0, lookup0, down, x, meet);
    if up != [] && t[meet].prev.Some? {
      ProperlyConnected(t, pnext, lookup, meet);
      assert pnext[t[meet].prev.value] == meet;
    }
    pnext, lookup := Link(t, pnext, lookup, up, y, meet);
  }

  /** The lowest block of the branch to x that has more trust than `trust`. */
  ghost function FirstToBeat(t: Tree, x: Id, trust: nat): (z: Id)
    requires WellFormed(t) && x in t && t[x].trust > trust
    ensures z in t && Anc(t, z, x) && t[z].trust > trust
    ensures forall a :: Anc(t, a, x) && a in t && t[a].trust > trust ==> Anc(t, z, a)
    decreases t[x].height
  {
    if t[x].prev.Some? && t[t[x].prev.value].trust > trust then FirstToBeat(t, t[x].prev.value, trust)
    else
      assert forall a :: Anc(t, a, x) && a in t && t[a].trust > trust ==> a == x by {
        if t[x].prev.Some? { NoneBeats(t, t[x].prev.value, trust); }
      }
      x
  }

  lemma NoneBeats(t: Tree, x: Id, trust: nat)
    requires WellFormed(t) && x in t && t[x].trust <= trust
    ensures forall a :: Anc(t, a, x) ==> a in t && t[a].trust <= trust
  {
    forall a | Anc(t, a, x) ensures a in t && t[a].trust <= trust {
      AncBelow(t, a, x);
    }
  }

  /** Which blocks of the branch to `target` SetBestChain postpones: those whose parent
      already has more trust than `trust`. */
  method Postpone(t: Tree, target: Id, trust: nat) returns (middle: Id, later: seq<Id>)
    requires WellFormed(t) && target in t && t[target].trust > trust
    ensures middle == FirstToBeat(t, target, trust)
    ensures later == Down(t, target, middle)
  {
    middle, later := target, [];
    while t[middle].prev.Some? && t[t[middle].prev.value].trust > trust
      invariant middle in t && Anc(t, middle, target) && t[middle].trust > trust
      invariant FirstToBeat(t, middle, trust) == FirstToBeat(t, target, trust)
      invariant later == Down(t, target, middle)
      decreases t[middle].height
    {
      DownOneMore(t, target, middle);
      later := later + [middle];
      middle := t[middle].prev.value;
    }
  }

  method DisconnectBranch(t: Tree, index: Index, ids: seq<Id>) returns (r: Option<Index>)
    ensures r == Fold(Disconnector(t), index, ids)
  {
    var v := index;
    for i := 0 to |ids|
      invariant Fold(Disconnector(t), index, ids[..i]) == Some(v)
    {
      FoldNext(Disconnector(t), index, ids, i, v);
      var next := DisconnectId(t, v, ids[i]);
      if next.None? {
        return None;
      }
      v := next.value;
    }
    assert ids[..|ids|] == ids;
    return Some(v);
  }

  /** The block above `last` on the branch to `target` does not connect. */
  ghost predicate Blocked(rules: Rules, t: Tree, s: Store, last: Id, target: Id)
    requires WellFormed(t)
  {
    exists x :: x in t && Anc(t, x, target) && t[x].prev == Some(last) && ConnectId(rules, t, s, x).None?
  }

  lemma BlockedAt(rules: Rules, t: Tree, s: Store, last: Id, target: Id, x: Id)
    requires WellFormed(t) && x in t && Anc(t, x, target) && t[x].prev == Some(last) && ConnectId(rules, t, s, x).None?
    ensures Blocked(rules, t, s, last, target)
  {
    hide ConnectId;
  }

  lemma UpStart(t: Tree, x: Id, f: Id)
    requires WellFormed(t) && Anc(t, f, x)
    ensures f in t && Anc(t, f, f) && Up(t, x, f)[..0] == Up(t, f, f)
  {
    AncBelow(t, f, x);
  }

  lemma UpEnd(t: Tree, x: Id, f: Id)
    requires WellFormed(t) && Anc(t, f, x)
    ensures x == if Up(t, x, f) == [] then f else Up(t, x, f)[|Up(t, x, f)|-1]
  {
  }

  /** The links belong to the path to one block only. */
  lemma TracksOne(t: Tree, pnext: map<Id, Id>, lookup: map<nat, Id>, x: Id, y: Id)
    requires WellFormed(t) && Linked(t, pnext, lookup, x) && x != y
    ensures !Linked(t, pnext, lookup, y)
  {
    NextOfBelow(t, x);
    LookupTop(t, x);
    if y in t {
      NextOfBelow(t, y);
      LookupTop(t, y);
    }
  }

  lemma LookupTop(t: Tree, x: Id)
    requires WellFormed(t) && x in t
    ensures t[x].height in LookupOf(t, x) && LookupOf(t, x)[t[x].height] == x
  {
  }

  /** A block on top of the best one is the lowest of its branch that beats it. */
  lemma BeatsAtOnce(t: Tree, x: Id, trust: nat)
    requires WellFormed(t) && x in t && t[x].trust > trust
    requires t[x].prev.Some? && t[x].prev.value in t && t[t[x].prev.value].trust <= trust
    ensures FirstToBeat(t, x, trust) == x
  {
  }

  class ChainState {
    var tree: Tree
    var index: Index
    var vectors: map<Id, BlockIndex>
    var pnext: map<Id, Id>
    var lookup: map<nat, Id>
    var best: Id

    /** Everything the node keeps about the active chain is about the path to x. */
    ghost predicate Tracks(x: Id)
      reads this
    {
      WellFormed(tree) && Linked(tree, pnext, lookup, x) && Good(tree, Store(index, vectors), x)
    }

    /** A node that knows the genesis block only. */
    constructor (genesis: Id, block: Block, g: BlockIndex, work: nat)
      requires Genesis(g)
      ensures Tracks(best) && best == genesis
      ensures tree == map[genesis := Entry(None, 0, work, block)]
      ensures index == map[] && vectors == map[genesis := g]
    {
      tree := map[genesis := Entry(None, 0, work, block)];
      index, vectors := map[], map[genesis := g];
      pnext, lookup := map[], map[0 := genesis];
      best := genesis;
      new;
      GenesisIsSound(g);
      hide Sound;
      assert tree[genesis].prev.None?;
      assert StateOf(tree, Store(index, vectors), genesis) == State(map[], [], [g]);
    }

    /** AddToBlockIndex: a new block on top of a known one enters the tree, and SetBestChain makes it the
        best one if its chain has more trust. */
    method AddToBlockIndex(rules: Rules, x: Id, p: Id, block: Block, work: nat)
      returns (ok: bool, ghost last: Id, ghost fork: Id)
      requires Tracks(best) && p in tree
      modifies this
      ensures old(best) in old(tree) && WellFormed(tree)
      ensures x in old(tree) ==> tree == old(tree)
      ensures x !in old(tree) ==>
                && tree.Keys == old(tree).Keys + {x} && (forall y :: y in old(tree) ==> tree[y] == old(tree)[y])
                && tree[x].prev == Some(p) && tree[x].block == block
                && tree[x].height == old(tree)[p].height + 1 && tree[x].trust == old(tree)[p].trust + work
      ensures x in old(tree) ==> !ok
      ensures x in old(tree) || tree[x].trust <= tree[old(best)].trust ==>
                best == old(best) && Tracks(best) && index == old(index) && vectors == old(vectors)
      ensures x !in old(tree) && tree[x].trust <= tree[old(best)].trust ==> ok
      ensures x !in old(tree) && tree[x].trust > tree[old(best)].trust ==>
                && var s, r, first := Store(old(index), old(vectors)), Store(index, vectors),
                                      FirstToBeat(tree, x, tree[old(best)].trust);
                && IsFork(tree, fork, old(best), x) && IsFork(tree, fork, old(best), first)
                && (ok <==> Switch(rules, tree, s, Down(tree, old(best), fork), Up(tree, first, fork)).Some?)
                && Switch(rules, tree, s, Down(tree, old(best), fork), Up(tree, x, fork))
                   == (if ok && last == x then Some(r) else None)
                && (ok ==> && best == x && Tracks(last)
                           && (Tracks(best)
                               <==> Switch(rules, tree, s, Down(tree, old(best), fork), Up(tree, x, fork)).Some?))
                && (!ok ==> && best == old(best) && Tracks(best) && index == old(index)
                            && SamePath(tree, old(vectors), vectors, best))
    {
      hide Good, Linked, Switch, IsFork, Down, Up, FirstToBeat, Blocked, SamePath, WellFormed;
      last, fork := best, best;
      GoodIn(tree, Store(index, vectors), best);
      if x in tree {
        return false, last, fork;
      }
      GrowsWellFormed(tree, x, p, block, work);
      ghost var before := tree;
      tree := tree[x := Entry(Some(p), tree[p].height + 1, tree[p].trust + work, block)];
      GrowthKeepsTracks(before, tree, pnext, lookup, Store(index, vectors), best);
      ok := true;
      if tree[x].trust > tree[best].trust {
        ok, last, fork := SetBestChain(rules, x);
      }
    }

    /** The connect loop of Reorganize: `db0` is the database inside the open transaction,
        the vectors are written to the block index entries at once. */
    method ConnectBranch(rules: Rules, db0: Index, ids: seq<Id>) returns (ok: bool, db: Index)
      modifies this`vectors
      ensures Fold(Connector(rules, tree), Store(db0, old(vectors)), ids)
              == if ok then Some(Store(db, vectors)) else None
      ensures forall y :: y !in ids && y in old(vectors) ==> y in vectors && vectors[y] == old(vectors)[y]
    {
      db := db0;
      for i := 0 to |ids|
        invariant Fold(Connector(rules, tree), Store(db0, old(vectors)), ids[..i]) == Some(Store(db, vectors))
        invariant forall y :: y !in ids && y in old(vectors) ==> y in vectors && vectors[y] == old(vectors)[y]
      {
        FoldNext(Connector(rules, tree), Store(db0, old(vectors)), ids, i, Store(db, vectors));
        var next := ConnectId(rules, tree, Store(db, vectors), ids[i]);
        if next.None? {
          return false, db;
        }
        db, vectors := next.value.index, next.value.vectors;
      }
      assert ids[..|ids|] == ids;
      return true, db;
    }

    /** The database part of Reorganize, committed only when every block went through. */
    method SwitchIndex(rules: Rules, target: Id, ghost fork: Id, down: seq<Id>, up: seq<Id>) returns (ok: bool)
      requires Tracks(best) && target in tree && IsFork(tree, fork, best, target)
      requires down == Down(tree, best, fork) && up == Up(tree, target, fork)
      modifies this`index, this`vectors
      ensures Switch(rules, tree, Store(old(index), old(vectors)), down, up)
              == if ok then Some(Store(index, vectors)) else None
      ensures Good(tree, Store(index, vectors), if ok then target else best)
      ensures !ok ==> index == old(index) && SamePath(tree, old(vectors), vectors, best)
    {
      hide Good, ConnectId, UndoBlock, Linked;
      var below := DisconnectBranch(tree, index, down);
      if below.None? {
        return false;
      }
      ghost var before := Store(index, vectors);
      var db;
      ok, db := ConnectBranch(rules, below.value, up);
      if ok {
        index := db;
        SwitchGood(rules, tree, before, best, target, fork);
      } else {
        forall a | Anc(tree, a, best)
          ensures a !in up
        {
          BranchesApart(tree, best, target, fork, a);
        }
        GoodFrame(tree, before, Store(index, vectors), best);
      }
    }

    /** Switches from the best block to `target` in one database transaction: all of it, or
        nothing but vectors of blocks that are not on the active chain. */
    method Reorganize(rules: Rules, target: Id) returns (ok: bool, ghost fork: Id)
      requires Tracks(best) && target in tree
      modifies this`index, this`vectors, this`pnext, this`lookup
      ensures ok ==> Tracks(target)
      ensures !ok ==> Tracks(best) && index == old(index) && SamePath(tree, old(vectors), vectors, best)
      ensures IsFork(tree, fork, best, target)
      ensures Switch(rules, tree, Store(old(index), old(vectors)), Down(tree, best, fork), Up(tree, target, fork))
              == if ok then Some(Store(index, vectors)) else None
    {
      hide Good, Switch, Linked, WellFormed, Anc, Down, Up, Reversed;
      GoodIn(tree, Store(index, vectors), best);
      var meet := FindFork(tree, best, target);
      fork := meet;
      var down := CollectBranch(tree, best, meet);
      var up := CollectBranch(tree, target, meet);
      DownReversed(tree, target, meet);
      up := Reversed(up);
      ok := SwitchIndex(rules, target, fork, down, up);
      if ok {
        pnext, lookup := Relink(tree, pnext, lookup, down, up, best, target, meet);
      }
    }

    /** Attaches one block on top of the block the node tracks. */
    method SetBestChainInner(rules: Rules, x: Id) returns (ok: bool)
      requires x in tree && tree[x].prev.Some? && Tracks(tree[x].prev.value)
      modifies this`index, this`vectors, this`pnext, this`lookup
      ensures ConnectId(rules, tree, Store(old(index), old(vectors)), x)
              == if ok then Some(Store(index, vectors)) else None
      ensures ok ==> Tracks(x)
      ensures !ok ==> index == old(index) && vectors == old(vectors) && pnext == old(pnext) && lookup == old(lookup)
    {
      var next := ConnectId(rules, tree, Store(index, vectors), x);
      if next.None? {
        return false;
      }
      ConnectKeepsGood(rules, tree, Store(index, vectors), x);
      index, vectors := next.value.index, next.value.vectors;
      pnext := pnext[tree[x].prev.value := x];
      lookup := lookup[tree[x].height := x];
      return true;
    }

    /** The postponed blocks, one database transaction each, up to the first that fails. */
    method ConnectLater(rules: Rules, rest: seq<Id>, ghost target: Id, ghost middle: Id) returns (ghost last: Id)
      requires Tracks(middle) && target in tree && Anc(tree, middle, target) && rest == Up(tree, target, middle)
      modifies this`index, this`vectors, this`pnext, this`lookup
      ensures Tracks(last) && Anc(tree, last, target) && Anc(tree, middle, last)
      ensures Fold(Connector(rules, tree), Store(old(index), old(vectors)), Up(tree, last, middle))
              == Some(Store(index, vectors))
      ensures last != target ==> Blocked(rules, tree, Store(index, vectors), last, target)
      ensures Fold(Connector(rules, tree), Store(old(index), old(vectors)), rest)
              == if last == target then Some(Store(index, vectors)) else None
    {
      hide Good, Linked, ConnectId, Anc, Up, WellFormed, Blocked;
      last := middle;
      UpStart(tree, target, middle);
      var i := 0;
      while i < |rest|
        invariant 0 <= i <= |rest|
        invariant last == if i == 0 then middle else rest[i-1]
        invariant Tracks(last) && Anc(tree, last, target) && Anc(tree, middle, last)
        invariant rest[..i] == Up(tree, last, middle)
        invariant Fold(Connector(rules, tree), Store(old(index), old(vectors)), rest[..i])
                  == Some(Store(index, vectors))
      {
        UpNext(tree, target, middle, i, last);
        FoldNext(Connector(rules, tree), Store(old(index), old(vectors)), rest, i, Store(index, vectors));
        var attached := SetBestChainInner(rules, rest[i]);
        if !attached {
          BlockedAt(rules, tree, Store(index, vectors), last, target, rest[i]);
          return;
        }
        last := rest[i];
        i := i + 1;
      }
      assert rest[..|rest|] == rest;
      UpEnd(tree, target, middle);
    }

    /** SetBestChain for a block with more trust than the best one: at once when it extends
        the best block, otherwise a Reorganize to the lowest block of its branch that beats the best
        one, then the rest of the branch block by block.  It succeeds exactly when that first part
        does.  When a later block fails the loop is left, and yet the best block becomes `target`:
        `last` is what was reached, and the node keeps track of its best block exactly when one
        direct switch to `target` would have succeeded. */
    method SetBestChain(rules: Rules, target: Id) returns (ok: bool, ghost last: Id, ghost fork: Id)
      requires Tracks(best) && target in tree && tree[target].trust > tree[best].trust
      modifies this`index, this`vectors, this`pnext, this`lookup, this`best
      ensures IsFork(tree, fork, old(best), target)
      ensures IsFork(tree, fork, old(best), FirstToBeat(tree, target, tree[old(best)].trust))
      ensures ok <==> Switch(rules, tree, Store(old(index), old(vectors)), Down(tree, old(best), fork),
                             Up(tree, FirstToBeat(tree, target, tree[old(best)].trust), fork)).Some?
      ensures Switch(rules, tree, Store(old(index), old(vectors)), Down(tree, old(best), fork), Up(tree, target, fork))
              == if ok && last == target then Some(Store(index, vectors)) else None
      ensures !ok ==> best == old(best) && Tracks(best) && index == old(index)
      ensures !ok ==> SamePath(tree, old(vectors), vectors, best)
      ensures ok ==> best == target && Anc(tree, last, target) && Tracks(last)
      ensures ok && last != target ==> Blocked(rules, tree, Store(index, vectors), last, target)
      ensures ok ==> (Tracks(best) <==>
                        Switch(rules, tree, Store(old(index), old(vectors)), Down(tree, old(best), fork),
                               Up(tree, target, fork)).Some?)
    {
      hide Good, Linked, Switch, WellFormed, IsFork, Down, Up, Reversed, ConnectId, Blocked, FirstToBeat, Anc;
      GoodIn(tree, Store(index, vectors), best);
      last, fork := best, best;
      if tree[target].prev == Some(best) {
        ExtendIsSwitch(rules, tree, Store(index, vectors), target);
        BeatsAtOnce(tree, target, tree[best].trust);
        ok := SetBestChainInner(rules, target);
        if ok {
          best, last := target, target;
        }
        return;
      }
      var middle, later := Postpone(tree, target, tree[best].trust);
      ok, fork := Reorganize(rules, middle);
      TwoPhase(rules, tree, Store(old(index), old(vectors)), best, target, middle, fork);
      if ok {
        DownReversed(tree, target, middle);
        last := ConnectLater(rules, Reversed(later), target, middle);
        if last != target {
          TracksOne(tree, pnext, lookup, last, target);
        }
        best := target;
      }
    }
  }
}
