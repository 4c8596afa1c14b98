/** A node that is sent blocks, in any order and of any quality, is always on the chain with the most trust
    among those that connect. */
module BestChain {
  import opened Options
  import opened Ledger
  import opened LedgerValues
  import opened TxIds
  import opened BlockTree
  import opened ChainSwitch

  // ------------------------------------------------------------------ what the chain of a block is worth by itself

  /** The index and the vectors at a block. */
  datatype Tip = Tip(index: Index, vectors: BlockIndex)

  /** Connects the blocks from genesis to x one by one; None if one of them does not connect. */
  ghost function PathState(rules: Rules, t: Tree, g: BlockIndex, x: Id): Option<Tip>
    requires WellFormed(t) && x in t
    decreases t[x].height
  {
    match t[x].prev
    case None => Some(Tip(map[], g))
    case Some(p) =>
      match PathState(rules, t, g, p)
      case None => None
      case Some(s) =>
        if s.vectors.Valid() && ConnectOk(rules, s.vectors, s.index, t[x].block)
        then Some(Tip(ApplyBlock(s.index, t[x].block).value, NextIndex(rules, s.vectors, s.index, t[x].block)))
        else None
  }

  ghost predicate Connects(rules: Rules, t: Tree, g: BlockIndex, x: Id)
    requires WellFormed(t)
  {
    x in t && PathState(rules, t, g, x).Some?
  }

  lemma {:induction false} AncConnects(rules: Rules, t: Tree, g: BlockIndex, a: Id, x: Id)
    requires WellFormed(t) && Anc(t, a, x) && Connects(rules, t, g, x)
    ensures Connects(rules, t, g, a)
    decreases t[x].height
  {
    if a != x {
      AncConnects(rules, t, g, a, t[x].prev.value);
    }
  }

  lemma {:induction false} PathReplays(rules: Rules, t: Tree, g: BlockIndex, x: Id)
    requires WellFormed(t) && Connects(rules, t, g, x)
    ensures Replay(Blocks(t, x)) == Some(PathState(rules, t, g, x).value.index)
    decreases t[x].height
  {
    hide ConnectOk, NextIndex, ApplyBlock;
    if t[x].prev.Some? {
      var p := t[x].prev.value;
      PathReplays(rules, t, g, p);
      assert Blocks(t, x)[..|Blocks(t, p)|] == Blocks(t, p);
      OkApplies(rules, PathState(rules, t, g, p).value, t[x].block);
    }
  }

  lemma OkApplies(rules: Rules, s: Tip, b: Block)
    requires s.vectors.Valid() && ConnectOk(rules, s.vectors, s.index, b)
    ensures ApplyBlock(s.index, b).Some?
  {
  }

  // ------------------------------------------------------------------ the coinbases of a tree

  /** AcceptBlock lets only blocks in whose coinbase starts with their height. */
  ghost predicate LawfulTree(names: Naming, t: Tree) {
    forall x :: x in t && t[x].prev.Some? ==> Lawful(names, t[x].block, t[x].height)
  }

  lemma {:induction false} PathLawful(names: Naming, t: Tree, x: Id)
    requires WellFormed(t) && LawfulTree(names, t) && x in t
    ensures |Blocks(t, x)| == t[x].height && LawfulChain(names, Blocks(t, x))
    decreases t[x].height
  {
    hide Lawful;
    if t[x].prev.Some? {
      PathLawful(names, t, t[x].prev.value);
      assert Lawful(names, t[x].block, t[x].height);
    }
  }

  /** A block that was connected can be disconnected, and leaves the state of the block before. */
  lemma PathUndone(rules: Rules, names: Naming, t: Tree, g: BlockIndex, x: Id)
    requires WellFormed(t) && LawfulTree(names, t) && Connects(rules, t, g, x) && t[x].prev.Some?
    ensures Connects(rules, t, g, t[x].prev.value)
    ensures UndoBlock(PathState(rules, t, g, x).value.index, t[x].block)
            == Some(PathState(rules, t, g, t[x].prev.value).value.index)
  {
    var p := t[x].prev.value;
    AncConnects(rules, t, g, p, x);
    PathReplays(rules, t, g, p);
    PathReplays(rules, t, g, x);
    PathLawful(names, t, x);
    hide PathState, LawfulChain, LawfulTree, Replay, UndoBlock;
    TipUndone(names, Blocks(t, x));
    assert Blocks(t, x)[..|Blocks(t, x)|-1] == Blocks(t, p);
  }

  // ------------------------------------------------------------------ a store that is nothing but its path

  /** Index and vectors are what connecting the path to x from genesis gives. */
  ghost predicate Canonical(rules: Rules, t: Tree, g: BlockIndex, s: Store, x: Id)
    requires WellFormed(t)
  {
    && Connects(rules, t, g, x) && s.index == PathState(rules, t, g, x).value.index
    && forall a :: Anc(t, a, x) ==> HasTip(rules, t, g, s.vectors, a)
  }

  ghost predicate HasTip(rules: Rules, t: Tree, g: BlockIndex, vectors: map<Id, BlockIndex>, a: Id)
    requires WellFormed(t)
  {
    Connects(rules, t, g, a) && a in vectors && vectors[a] == PathState(rules, t, g, a).value.vectors
  }

  lemma DisconnectCanonical(rules: Rules, names: Naming, t: Tree, g: BlockIndex, s: Store, x: Id)
    requires WellFormed(t) && LawfulTree(names, t) && Canonical(rules, t, g, s, x) && t[x].prev.Some?
    ensures UndoBlock(s.index, t[x].block).Some?
    ensures Canonical(rules, t, g, s.(index := UndoBlock(s.index, t[x].block).value), t[x].prev.value)
  {
    PathUndone(rules, names, t, g, x);
    hide PathState, LawfulTree, UndoBlock, HasTip;
  }

  /** A block connects to the store of its parent exactly when its chain connects. */
  lemma ConnectCanonical(rules: Rules, t: Tree, g: BlockIndex, s: Store, x: Id)
    requires WellFormed(t) && x in t && t[x].prev.Some? && Canonical(rules, t, g, s, t[x].prev.value)
    ensures ConnectId(rules, t, s, x).Some? <==> Connects(rules, t, g, x)
    ensures Connects(rules, t, g, x) ==> Canonical(rules, t, g, ConnectId(rules, t, s, x).value, x)
  {
    hide ConnectOk, NextIndex, ApplyBlock;
    var p := t[x].prev.value;
    assert Anc(t, p, p) && HasTip(rules, t, g, s.vectors, p);
    if Connects(rules, t, g, x) {
      var r := ConnectId(rules, t, s, x).value;
      forall a | Anc(t, a, x)
        ensures HasTip(rules, t, g, r.vectors, a)
      {
        if a != x {
          assert HasTip(rules, t, g, s.vectors, a);
        }
      }
    }
  }

  lemma {:induction false} DisconnectsCanonical(rules: Rules, names: Naming, t: Tree, g: BlockIndex, s: Store, x: Id,
                                                f: Id)
    requires WellFormed(t) && LawfulTree(names, t) && Canonical(rules, t, g, s, x) && Anc(t, f, x)
    ensures Fold(Disconnector(t), s.index, Down(t, x, f)).Some?
    ensures Canonical(rules, t, g, s.(index := Fold(Disconnector(t), s.index, Down(t, x, f)).value), f)
    decreases t[x].height
  {
    hide Canonical, UndoBlock, LawfulTree;
    if x == f {
      assert s.(index := s.index) == s;
    } else {
      var p := t[x].prev.value;
      DisconnectCanonical(rules, names, t, g, s, x);
      FoldAppend(Disconnector(t), s.index, [x], Down(t, p, f));
      FoldOne(Disconnector(t), s.index, x);
      DisconnectsCanonical(rules, names, t, g, s.(index := UndoBlock(s.index, t[x].block).value), p, f);
    }
  }

  lemma {:induction false} ConnectsCanonical(rules: Rules, t: Tree, g: BlockIndex, s: Store, y: Id, f: Id)
    requires WellFormed(t) && Canonical(rules, t, g, s, f) && Anc(t, f, y)
    ensures Fold(Connector(rules, t), s, Up(t, y, f)).Some? <==> Connects(rules, t, g, y)
    ensures Connects(rules, t, g, y) ==> Canonical(rules, t, g, Fold(Connector(rules, t), s, Up(t, y, f)).value, y)
    decreases t[y].height
  {
    hide ConnectId, PathState;
    if y == f {
      assert Up(t, y, f) == [];
    } else {
      var p := t[y].prev.value;
      var below := Up(t, p, f);
      assert Up(t, y, f)[..|below|] == below;
      ConnectsCanonical(rules, t, g, s, p, f);
      if Connects(rules, t, g, p) {
        hide Canonical;
        ConnectCanonical(rules, t, g, Fold(Connector(rules, t), s, below).value, y);
      } else if Connects(rules, t, g, y) {
        AncConnects(rules, t, g, p, y);
      }
    }
  }

  /** A switch succeeds exactly when the chain it leads to connects from genesis, whatever was there before. */
  lemma SwitchIsReplay(rules: Rules, names: Naming, t: Tree, g: BlockIndex, s: Store, x: Id, y: Id, f: Id)
    requires WellFormed(t) && LawfulTree(names, t) && Canonical(rules, t, g, s, x) && Anc(t, f, x) && Anc(t, f, y)
    ensures Switch(rules, t, s, Down(t, x, f), Up(t, y, f)).Some? <==> Connects(rules, t, g, y)
    ensures Connects(rules, t, g, y) ==>
              Canonical(rules, t, g, Switch(rules, t, s, Down(t, x, f), Up(t, y, f)).value, y)
  {
    hide Canonical, Connects, LawfulTree;
    DisconnectsCanonical(rules, names, t, g, s, x, f);
    ConnectsCanonical(rules, t, g, s.(index := Fold(Disconnector(t), s.index, Down(t, x, f)).value), y, f);
  }

  // ------------------------------------------------------------------ a growing tree

  lemma {:induction false} PathStateFrame(rules: Rules, t: Tree, u: Tree, g: BlockIndex, y: Id)
    requires WellFormed(t) && WellFormed(u) && Within(t, u) && y in t
    ensures PathState(rules, u, g, y) == PathState(rules, t, g, y)
    ensures forall a :: Anc(u, a, y) <==> Anc(t, a, y)
    decreases t[y].height
  {
    hide ConnectOk, NextIndex, ApplyBlock;
    if t[y].prev.Some? {
      PathStateFrame(rules, t, u, g, t[y].prev.value);
    }
  }

  lemma CanonicalFrame(rules: Rules, t: Tree, u: Tree, g: BlockIndex, s: Store, y: Id)
    requires WellFormed(t) && WellFormed(u) && Within(t, u) && Canonical(rules, t, g, s, y)
    ensures Canonical(rules, u, g, s, y)
  {
    PathStateFrame(rules, t, u, g, y);
    forall a | Anc(u, a, y)
      ensures HasTip(rules, u, g, s.vectors, a)
    {
      AncBelow(t, a, y);
      PathStateFrame(rules, t, u, g, a);
      assert HasTip(rules, t, g, s.vectors, a);
    }
  }

  lemma CanonicalPath(rules: Rules, t: Tree, g: BlockIndex, s: Store, r: Store, y: Id)
    requires WellFormed(t) && Canonical(rules, t, g, s, y) && r.index == s.index && SamePath(t, s.vectors, r.vectors, y)
    ensures Canonical(rules, t, g, r, y)
  {
    hide PathState;
    forall a | Anc(t, a, y)
      ensures HasTip(rules, t, g, r.vectors, a)
    {
      assert HasTip(rules, t, g, s.vectors, a);
    }
  }

  /** No block whose chain connects has more trust than `best`. */
  ghost predicate Heaviest(rules: Rules, t: Tree, g: BlockIndex, best: Id)
    requires WellFormed(t)
  {
    Connects(rules, t, g, best) && forall x :: Connects(rules, t, g, x) ==> t[x].trust <= t[best].trust
  }

  /** The best block after x has come. */
  lemma HeaviestGrows(rules: Rules, t: Tree, u: Tree, g: BlockIndex, best: Id, x: Id)
    requires WellFormed(t) && WellFormed(u) && Within(t, u) && u.Keys == t.Keys + {x} && Heaviest(rules, t, g, best)
    ensures x in u && best in u
    ensures var next := if Connects(rules, u, g, x) && u[x].trust > u[best].trust then x else best;
      Heaviest(rules, u, g, next)
  {
    hide PathState;
    PathStateFrame(rules, t, u, g, best);
    forall y | Connects(rules, u, g, y) && y != x
      ensures u[y].trust <= u[best].trust
    {
      PathStateFrame(rules, t, u, g, y);
      assert Connects(rules, t, g, y);
    }
  }

  /** Of the blocks with more trust than the best one only the new one can connect. */
  lemma FirstConnects(rules: Rules, t: Tree, u: Tree, g: BlockIndex, best: Id, x: Id)
    requires WellFormed(t) && WellFormed(u) && Within(t, u) && u.Keys == t.Keys + {x} && Heaviest(rules, t, g, best)
    requires best in u && x in u && u[x].trust > u[best].trust
    ensures Connects(rules, u, g, FirstToBeat(u, x, u[best].trust)) <==> Connects(rules, u, g, x)
  {
    hide PathState;
    var z := FirstToBeat(u, x, u[best].trust);
    hide FirstToBeat;
    if Connects(rules, u, g, x) {
      AncConnects(rules, u, g, z, x);
    }
    if z in t {
      OldIsLighter(rules, t, u, g, best, z);
    }
  }

  lemma OldIsLighter(rules: Rules, t: Tree, u: Tree, g: BlockIndex, best: Id, y: Id)
    requires WellFormed(t) && WellFormed(u) && Within(t, u) && Heaviest(rules, t, g, best) && y in t
    ensures y in u && best in u && (Connects(rules, u, g, y) ==> u[y].trust <= u[best].trust)
  {
    hide PathState;
    PathStateFrame(rules, t, u, g, y);
    assert Connects(rules, u, g, y) ==> Connects(rules, t, g, y);
  }

  /** What SetBestChain makes of a new block with more trust than the best one. */
  lemma HeavierArrives(rules: Rules, names: Naming, t: Tree, u: Tree, g: BlockIndex, s: Store, r: Store, best: Id,
                       x: Id, fork: Id, ok: bool, last: Id)
    requires WellFormed(t) && WellFormed(u) && Within(t, u) && u.Keys == t.Keys + {x} && LawfulTree(names, u)
    requires Canonical(rules, t, g, s, best) && Heaviest(rules, t, g, best)
    requires best in u && x in u && u[x].trust > u[best].trust
    requires IsFork(u, fork, best, x) && IsFork(u, fork, best, FirstToBeat(u, x, u[best].trust))
    requires ok <==> Switch(rules, u, s, Down(u, best, fork), Up(u, FirstToBeat(u, x, u[best].trust), fork)).Some?
    requires Switch(rules, u, s, Down(u, best, fork), Up(u, x, fork)) == if ok && last == x then Some(r) else None
    requires !ok ==> r.index == s.index && SamePath(u, s.vectors, r.vectors, best)
    ensures ok <==> Connects(rules, u, g, x)
    ensures ok ==> last == x
    ensures Canonical(rules, u, g, r, if ok then x else best) && Heaviest(rules, u, g, if ok then x else best)
  {
    hide Canonical, Connects, Switch, FirstToBeat, IsFork, Heaviest, LawfulTree, Down, Up, SamePath;
    CanonicalFrame(rules, t, u, g, s, best);
    HeaviestGrows(rules, t, u, g, best, x);
    FirstConnects(rules, t, u, g, best, x);
    SwitchesTo(rules, names, u, g, s, best, x, fork);
    SwitchesTo(rules, names, u, g, s, best, FirstToBeat(u, x, u[best].trust), fork);
    if !ok {
      CanonicalPath(rules, u, g, s, r, best);
    }
  }

  // ------------------------------------------------------------------ the node

  /** The node keeps track of its best block, which has the most trust of all that connect. */
  ghost predicate Follows(node: ChainState, rules: Rules, names: Naming, g: BlockIndex)
    reads node
  {
    && node.Tracks(node.best) && LawfulTree(names, node.tree)
    && Canonical(rules, node.tree, g, Store(node.index, node.vectors), node.best)
    && Heaviest(rules, node.tree, g, node.best)
  }

  /** A block as it arrives, with its hash, its parent's hash and the trust it adds. */
  datatype Arrival = Arrival(id: Id, prev: Id, block: Block, work: nat)

  predicate Acceptable(names: Naming, t: Tree, a: Arrival) {
    a.id !in t && CheckBlock(a.block) && a.prev in t && HeightRule(names, a.block, t[a.prev].height + 1)
  }

  /** The tree after the block: it enters whenever its parent is known and its coinbase starts with its height. */
  function Grown(names: Naming, t: Tree, a: Arrival): Tree {
    if Acceptable(names, t, a)
    then t[a.id := Entry(Some(a.prev), t[a.prev].height + 1, t[a.prev].trust + a.work, a.block)]
    else t
  }

  /** The block is in the tree as it came: on top of its parent, with the trust it adds to that of its parent. */
  predicate Enters(t: Tree, a: Arrival) {
    && a.id in t && a.prev in t
    && t[a.id].prev == Some(a.prev) && t[a.id].block == a.block
    && t[a.id].height == t[a.prev].height + 1 && t[a.id].trust == t[a.prev].trust + a.work
  }

  /** CheckBlock and AcceptBlock. */
  method AcceptBlock(node: ChainState, rules: Rules, names: Naming, ghost g: BlockIndex, a: Arrival) returns (ok: bool)
    requires Follows(node, rules, names, g) && Named(names, a.block.vtx)
    modifies node
    ensures Follows(node, rules, names, g) && node.tree == Grown(names, old(node.tree), a)
    ensures old(node.best) in node.tree
    ensures a.id in node.tree && a.id !in old(node.tree) ==> Enters(node.tree, a)
    ensures node.best == if a.id !in old(node.tree) && Connects(rules, node.tree, g, a.id)
                            && node.tree[a.id].trust > node.tree[old(node.best)].trust
                         then a.id else old(node.best)
  {
    hide Canonical, Connects, Good, Linked, Switch, FirstToBeat, IsFork, Heaviest, Lawful, LawfulTree, Down, Up,
         SamePath, WellFormed, HeightRule, CheckBlock;
    ghost var t, s, best := node.tree, Store(node.index, node.vectors), node.best;
    BestIsKnown(node, rules, names, g);
    if a.id in node.tree || !CheckBlock(a.block) || a.prev !in node.tree
       || !HeightRule(names, a.block, node.tree[a.prev].height + 1) {
      UnknownDoesNotConnect(rules, t, g, a.id);
      return false;
    }
    ghost var last, fork;
    LawfulGrows(names, t, a);
    ok, last, fork := node.AddToBlockIndex(rules, a.id, a.prev, a.block, a.work);
    ghost var u, r := node.tree, Store(node.index, node.vectors);
    assert u == Grown(names, t, a);
    if u[a.id].trust > u[best].trust {
      HeavierArrives(rules, names, t, u, g, s, r, best, a.id, fork, ok, last);
    } else {
      CanonicalFrame(rules, t, u, g, s, best);
      HeaviestGrows(rules, t, u, g, best, a.id);
    }
  }

  lemma BestIsKnown(node: ChainState, rules: Rules, names: Naming, g: BlockIndex)
    requires Follows(node, rules, names, g)
    ensures WellFormed(node.tree) && node.best in node.tree
  {
    hide Good, PathState;
  }

  lemma UnknownDoesNotConnect(rules: Rules, t: Tree, g: BlockIndex, x: Id)
    requires WellFormed(t)
    ensures x !in t ==> !Connects(rules, t, g, x)
  {
  }

  lemma LawfulGrows(names: Naming, t: Tree, a: Arrival)
    requires LawfulTree(names, t) && Acceptable(names, t, a) && Named(names, a.block.vtx)
    ensures LawfulTree(names, Grown(names, t, a))
  {
    hide HeightRule, CheckBlock, Named;
  }

  lemma SwitchesTo(rules: Rules, names: Naming, t: Tree, g: BlockIndex, s: Store, x: Id, y: Id, f: Id)
    requires WellFormed(t) && LawfulTree(names, t) && Canonical(rules, t, g, s, x) && IsFork(t, f, x, y)
    ensures Anc(t, f, x) && Anc(t, f, y)
    ensures Switch(rules, t, s, Down(t, x, f), Up(t, y, f)).Some? <==> Connects(rules, t, g, y)
    ensures Connects(rules, t, g, y) ==>
              Canonical(rules, t, g, Switch(rules, t, s, Down(t, x, f), Up(t, y, f)).value, y)
  {
    hide Canonical, Connects, LawfulTree, Switch;
    SwitchIsReplay(rules, names, t, g, s, x, y, f);
  }

  function GrownBy(names: Naming, t: Tree, arrivals: seq<Arrival>): Tree {
    if arrivals == [] then t
    else Grown(names, GrownBy(names, t, arrivals[..|arrivals|-1]), arrivals[|arrivals|-1])
  }

  // ------------------------------------------------------------------ where the trust comes from

  /** Which arrival brought each block of the tree. */
  ghost function Origins(names: Naming, t: Tree, arrivals: seq<Arrival>): map<Id, nat> {
    if arrivals == [] then map[] else
      var k := |arrivals| - 1;
      var before := Origins(names, t, arrivals[..k]);
      if Acceptable(names, GrownBy(names, t, arrivals[..k]), arrivals[k]) then before[arrivals[k].id := k] else before
  }

  /** Every known block but genesis came with an arrival. */
  ghost predicate AllEntered(t: Tree, genesis: Id, first: Entry, arrivals: seq<Arrival>, from: map<Id, nat>) {
    && genesis in t && t[genesis] == first && from.Keys == t.Keys - {genesis}
    && forall x :: x in from ==> from[x] < |arrivals| && arrivals[from[x]].id == x && Enters(t, arrivals[from[x]])
  }

  lemma {:induction false} OriginsEnter(names: Naming, genesis: Id, first: Entry, arrivals: seq<Arrival>)
    ensures var t := map[genesis := first];
      AllEntered(GrownBy(names, t, arrivals), genesis, first, arrivals, Origins(names, t, arrivals))
  {
    hide HeightRule, CheckBlock;
    if arrivals != [] {
      OriginsEnter(names, genesis, first, arrivals[..|arrivals|-1]);
    }
  }

  /** The trust each block adds: that of its arrival, or for genesis its own. */
  ghost function Works(t: Tree, genesis: Id, first: Entry, arrivals: seq<Arrival>, from: map<Id, nat>)
    : (works: map<Id, nat>)
    requires AllEntered(t, genesis, first, arrivals, from)
    ensures works.Keys == t.Keys
  {
    map x | x in t :: if x == genesis then first.trust else arrivals[from[x]].work
  }

  /** The trust of a block is that of genesis and what all blocks of its chain came with. */
  lemma {:induction false} TrustIsWork(t: Tree, genesis: Id, first: Entry, arrivals: seq<Arrival>,
                                       from: map<Id, nat>, x: Id)
    requires WellFormed(t) && first.prev.None? && AllEntered(t, genesis, first, arrivals, from) && x in t
    ensures forall i :: 0 <= i < |Path(t, x)| ==> Path(t, x)[i] in t
    ensures t[x].trust == SumAlong(Path(t, x), Works(t, genesis, first, arrivals, from))
    decreases t[x].height
  {
    PathKnown(t, x);
    var works := Works(t, genesis, first, arrivals, from);
    var path := Path(t, x);
    if x == genesis {
      assert path == [x] && path[..0] == [];
    } else {
      assert Enters(t, arrivals[from[x]]);
      TrustIsWork(t, genesis, first, arrivals, from, t[x].prev.value);
      assert path[..|path|-1] == Path(t, t[x].prev.value);
    }
  }

  method AcceptBlocks(node: ChainState, rules: Rules, names: Naming, ghost g: BlockIndex, arrivals: seq<Arrival>)
    requires Follows(node, rules, names, g) && forall k :: 0 <= k < |arrivals| ==> Named(names, arrivals[k].block.vtx)
    modifies node
    ensures Follows(node, rules, names, g) && node.tree == GrownBy(names, old(node.tree), arrivals)
  {
    hide Follows, Grown, Connects, Named;
    for k := 0 to |arrivals|
      invariant Follows(node, rules, names, g) && node.tree == GrownBy(names, old(node.tree), arrivals[..k])
    {
      assert arrivals[..k+1][..k] == arrivals[..k];
      var _ := AcceptBlock(node, rules, names, g, arrivals[k]);
    }
    assert arrivals[..|arrivals|] == arrivals;
  }

  /** A node from genesis on: whatever blocks arrive, its index and vectors are those of its best block, which
      has the most trust of all known blocks whose chain connects. */
  method RunNode(rules: Rules, names: Naming, genesis: Id, block: Block, g: BlockIndex, work: nat,
                 arrivals: seq<Arrival>)
    returns (node: ChainState, ghost from: map<Id, nat>)
    requires Genesis(g) && forall k :: 0 <= k < |arrivals| ==> Named(names, arrivals[k].block.vtx)
    ensures fresh(node) && Follows(node, rules, names, g)
    ensures node.tree == GrownBy(names, map[genesis := Entry(None, 0, work, block)], arrivals)
    ensures WellFormed(node.tree) && AllEntered(node.tree, genesis, Entry(None, 0, work, block), arrivals, from)
    ensures forall x :: x in node.tree ==>
              && (forall i :: 0 <= i < |Path(node.tree, x)| ==> Path(node.tree, x)[i] in node.tree)
              && node.tree[x].trust
                 == SumAlong(Path(node.tree, x), Works(node.tree, genesis, Entry(None, 0, work, block), arrivals, from))
  {
    hide Follows, Good, Linked, AllEntered, Works, WellFormed, GrownBy, Origins;
    node := new ChainState(genesis, block, g, work);
    ghost var first := Entry(None, 0, work, block);
    GenesisFollows(node, rules, names, g);
    AcceptBlocks(node, rules, names, g, arrivals);
    BestIsKnown(node, rules, names, g);
    from := Origins(names, map[genesis := first], arrivals);
    OriginsEnter(names, genesis, first, arrivals);
    forall x | x in node.tree
      ensures forall i :: 0 <= i < |Path(node.tree, x)| ==> Path(node.tree, x)[i] in node.tree
      ensures node.tree[x].trust == SumAlong(Path(node.tree, x), Works(node.tree, genesis, first, arrivals, from))
    {
      TrustIsWork(node.tree, genesis, first, arrivals, from, x);
    }
  }

  lemma GenesisFollows(node: ChainState, rules: Rules, names: Naming, g: BlockIndex)
    requires node.Tracks(node.best) && node.tree.Keys == {node.best} && node.tree[node.best].prev.None?
    requires node.index == map[] && node.vectors == map[node.best := g]
    ensures Follows(node, rules, names, g)
  {
    hide Good, Linked;
    var t, x := node.tree, node.best;
    assert PathState(rules, t, g, x) == Some(Tip(map[], g));
    assert forall y :: y in t ==> y == x;
  }
}
