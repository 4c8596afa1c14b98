/** The tree of known blocks, and the fork point of two of its branches. */
module BlockTree {
  import opened Options
  import opened Ledger

  type Id = nat

  /** The fields of CBlockIndex that place a block in the tree. */
  datatype Entry = Entry(prev: Option<Id>, height: nat, trust: nat, block: Block)

  type Tree = map<Id, Entry>

  /** What AddToBlockIndex builds: heights and chain trust follow the parent, one genesis. */
  ghost predicate WellFormed(t: Tree) {
    && (forall x {:trigger t[x].prev} :: x in t ==>
          match t[x].prev
          case None => t[x].height == 0
          case Some(p) => p in t && t[x].height == t[p].height + 1 && t[p].trust <= t[x].trust)
    && (forall x, y {:trigger t[x].prev, t[y].prev} ::
          x in t && y in t && t[x].prev.None? && t[y].prev.None? ==> x == y)
  }

  lemma GrowsWellFormed(t: Tree, x: Id, p: Id, block: Block, work: nat)
    requires WellFormed(t) && x !in t && p in t
    ensures WellFormed(t[x := Entry(Some(p), t[p].height + 1, t[p].trust + work, block)])
  {
    var u := t[x := Entry(Some(p), t[p].height + 1, t[p].trust + work, block)];
    forall y {:trigger u[y].prev} | y in u
      ensures match u[y].prev
              case None => u[y].height == 0
              case Some(q) => q in u && u[y].height == u[q].height + 1 && u[q].trust <= u[y].trust
    {
      assert y != x ==> u[y].prev == t[y].prev;
    }
  }

  /** u knows the blocks of t, and perhaps more. */
  ghost predicate Within(t: Tree, u: Tree) {
    forall x :: x in t ==> x in u && u[x] == t[x]
  }

  /** a is x or one of its ancestors. */
  ghost predicate Anc(t: Tree, a: Id, x: Id)
    requires WellFormed(t)
    decreases if x in t then t[x].height else 0
  {
    x in t && (a == x || (t[x].prev.Some? && Anc(t, a, t[x].prev.value)))
  }

  lemma {:induction false} AncBelow(t: Tree, a: Id, x: Id)
    requires WellFormed(t) && Anc(t, a, x)
    ensures a in t && t[a].height <= t[x].height && t[a].trust <= t[x].trust
    ensures t[a].height == t[x].height ==> a == x
    decreases t[x].height
  {
    if a != x {
      AncBelow(t, a, t[x].prev.value);
    }
  }

  lemma {:induction false} AncTransitive(t: Tree, a: Id, b: Id, c: Id)
    requires WellFormed(t) && Anc(t, a, b) && Anc(t, b, c)
    ensures Anc(t, a, c)
    decreases t[c].height
  {
    if b != c {
      AncTransitive(t, a, b, t[c].prev.value);
    }
  }

  /** Of two ancestors of one block the lower is an ancestor of the higher. */
  lemma {:induction false} AncLinear(t: Tree, a: Id, b: Id, x: Id)
    requires WellFormed(t) && Anc(t, a, x) && Anc(t, b, x)
    requires a in t && b in t && t[a].height <= t[b].height
    ensures Anc(t, a, b)
    decreases t[x].height
  {
    if b != x {
      AncBelow(t, b, t[x].prev.value);
      AncLinear(t, a, b, t[x].prev.value);
    }
  }

  /** f is the lowest common ancestor of x and y: common, and above every other common one. */
  ghost predicate IsFork(t: Tree, f: Id, x: Id, y: Id)
    requires WellFormed(t)
  {
    Anc(t, f, x) && Anc(t, f, y) && forall a :: Anc(t, a, x) && Anc(t, a, y) ==> Anc(t, a, f)
  }

  lemma ForkIsUnique(t: Tree, f: Id, g: Id, x: Id, y: Id)
    requires WellFormed(t) && IsFork(t, f, x, y) && IsFork(t, g, x, y)
    ensures f == g
  {
    AncBelow(t, f, g);
    AncBelow(t, g, f);
  }

  /** The search at the start of Reorganize.  It cannot run off the tree. */
  method FindFork(t: Tree, best: Id, target: Id) returns (fork: Id)
    requires WellFormed(t) && best in t && target in t
    ensures IsFork(t, fork, best, target)
  {
    fork := best;
    var longer := target;
    while fork != longer
      invariant fork in t && longer in t && Anc(t, fork, best) && Anc(t, longer, target)
      invariant forall a :: Anc(t, a, best) && Anc(t, a, target) ==> Anc(t, a, fork) && Anc(t, a, longer)
      decreases t[fork].height + t[longer].height
    {
      ghost var start := t[longer].height;
      while t[longer].height > t[fork].height
        invariant longer in t && Anc(t, longer, target)
        invariant forall a :: Anc(t, a, best) && Anc(t, a, target) ==> Anc(t, a, fork) && Anc(t, a, longer)
        invariant t[longer].height <= start
        decreases t[longer].height
      {
        forall a | Anc(t, a, best) && Anc(t, a, target)
          ensures Anc(t, a, t[longer].prev.value)
        {
          AncBelow(t, a, fork);
        }
        assert Anc(t, t[longer].prev.value, t[longer].prev.value);
        AncTransitive(t, t[longer].prev.value, longer, target);
        longer := t[longer].prev.value;
      }
      if fork == longer {
        break;
      }
      forall a | Anc(t, a, best) && Anc(t, a, target)
        ensures a != fork
      {
        AncBelow(t, a, longer);
      }
      NotGenesis(t, fork, longer);
      assert Anc(t, t[fork].prev.value, t[fork].prev.value);
      AncTransitive(t, t[fork].prev.value, fork, best);
      fork := t[fork].prev.value;
    }
  }

  /** Of two different blocks the higher one has a parent. */
  lemma NotGenesis(t: Tree, x: Id, y: Id)
    requires WellFormed(t) && x in t && y in t && x != y && t[y].height <= t[x].height
    ensures t[x].prev.Some?
  {
    assert t[y].prev.Some? || t[y].prev.None?;
  }

  // ------------------------------------------------------------------ branches as lists

  /** The blocks from genesis to x. */
  ghost function Path(t: Tree, x: Id): (p: seq<Id>)
    requires WellFormed(t) && x in t
    ensures |p| == t[x].height + 1
    decreases t[x].height
  {
    match t[x].prev
    case None => [x]
    case Some(p) => Path(t, p) + [x]
  }

  function SumAlong(path: seq<Id>, works: map<Id, nat>): nat
    requires forall i :: 0 <= i < |path| ==> path[i] in works
  {
    if path == [] then 0 else SumAlong(path[..|path|-1], works) + works[path[|path|-1]]
  }

  lemma {:induction false} PathKnown(t: Tree, x: Id)
    requires WellFormed(t) && x in t
    ensures forall i :: 0 <= i < |Path(t, x)| ==> Path(t, x)[i] in t
    decreases t[x].height
  {
    if t[x].prev.Some? {
      PathKnown(t, t[x].prev.value);
    }
  }

  /** From x down to just above its ancestor f: what Reorganize disconnects. */
  ghost function Down(t: Tree, x: Id, f: Id): (ids: seq<Id>)
    requires WellFormed(t) && Anc(t, f, x)
    decreases t[x].height
  {
    if x == f then [] else [x] + Down(t, t[x].prev.value, f)
  }

  /** From just above f up to x: what Reorganize connects. */
  ghost function Up(t: Tree, x: Id, f: Id): (ids: seq<Id>)
    requires WellFormed(t) && Anc(t, f, x)
    decreases t[x].height
  {
    if x == f then [] else Up(t, t[x].prev.value, f) + [x]
  }

  lemma {:induction false} UpSplits(t: Tree, x: Id, z: Id, f: Id)
    requires WellFormed(t) && Anc(t, f, z) && Anc(t, z, x)
    ensures Anc(t, f, x)
    ensures Up(t, x, f) == Up(t, z, f) + Up(t, x, z)
    decreases t[x].height
  {
    AncTransitive(t, f, z, x);
    if x != z {
      AncBelow(t, z, t[x].prev.value);
      AncBelow(t, f, z);
      UpSplits(t, t[x].prev.value, z, f);
    }
  }

  lemma {:induction false} InUp(t: Tree, x: Id, f: Id, y: Id)
    requires WellFormed(t) && Anc(t, f, x) && y in Up(t, x, f)
    ensures Anc(t, y, x) && f in t && y in t && t[f].height < t[y].height
    decreases t[x].height
  {
    AncBelow(t, f, x);
    if y != x {
      InUp(t, t[x].prev.value, f, y);
    }
  }

  /** The branch to y above the fork has no block in common with the path to x. */
  lemma BranchesApart(t: Tree, x: Id, y: Id, f: Id, a: Id)
    requires WellFormed(t) && IsFork(t, f, x, y) && Anc(t, a, x)
    ensures a !in Up(t, y, f)
  {
    if a in Up(t, y, f) {
      InUp(t, y, f, a);
      AncBelow(t, a, f);
      assert false;
    }
  }

  function Reversed<T>(s: seq<T>): seq<T> {
    if s == [] then [] else Reversed(s[1..]) + [s[0]]
  }

  lemma {:induction false} DownReversed(t: Tree, x: Id, f: Id)
    requires WellFormed(t) && Anc(t, f, x)
    ensures Reversed(Down(t, x, f)) == Up(t, x, f)
    decreases t[x].height
  {
    if x != f {
      DownReversed(t, t[x].prev.value, f);
      assert Down(t, x, f)[1..] == Down(t, t[x].prev.value, f);
    }
  }

  /** The loop that collects the blocks between a tip and the fork. */
  method CollectBranch(t: Tree, x: Id, f: Id) returns (ids: seq<Id>)
    requires WellFormed(t) && Anc(t, f, x)
    ensures ids == Down(t, x, f)
  {
    ids := [];
    var cur := x;
    while cur != f
      invariant Anc(t, f, cur) && ids + Down(t, cur, f) == Down(t, x, f)
      decreases t[cur].height
    {
      assert ids + Down(t, cur, f) == ids + [cur] + Down(t, t[cur].prev.value, f);
      ids := ids + [cur];
      cur := t[cur].prev.value;
    }
  }
}
