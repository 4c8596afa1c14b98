module Options {
  datatype Option<+T> = None | Some(value: T)

  /** Runs a partial step over a list, from the left, and stops at the first failure. */
  function Fold<S, X>(step: (S, X) -> Option<S>, s: S, xs: seq<X>): Option<S> {
    if xs == [] then Some(s)
    else
      match Fold(step, s, xs[..|xs|-1])
      case None => None
      case Some(r) => step(r, xs[|xs|-1])
  }

  lemma {:induction false} FoldAppend<S, X>(step: (S, X) -> Option<S>, s: S, first: seq<X>, second: seq<X>)
    ensures Fold(step, s, first + second)
            == match Fold(step, s, first)
               case None => None
               case Some(r) => Fold(step, r, second)
  {
    if second == [] {
      assert first + second == first;
    } else {
      var k := |second| - 1;
      FoldAppend(step, s, first, second[..k]);
      assert (first + second)[..|first|+k] == first + second[..k];
    }
  }

  lemma FoldOne<S, X>(step: (S, X) -> Option<S>, s: S, x: X)
    ensures Fold(step, s, [x]) == step(s, x)
  {
    assert [x][..0] == [];
    assert Fold(step, s, [x][..0]) == Some(s);
  }

  /** One more element, and what becomes of the whole if it fails. */
  lemma FoldNext<S, X>(step: (S, X) -> Option<S>, s: S, xs: seq<X>, i: nat, r: S)
    requires i < |xs| && Fold(step, s, xs[..i]) == Some(r)
    ensures Fold(step, s, xs[..i+1]) == step(r, xs[i])
    ensures step(r, xs[i]).None? ==> Fold(step, s, xs).None?
  {
    assert xs[..i+1][..i] == xs[..i];
    FoldAppend(step, s, xs[..i+1], xs[i+1..]);
    assert xs[..i+1] + xs[i+1..] == xs;
  }
}
