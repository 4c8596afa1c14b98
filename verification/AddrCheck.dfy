/** The consistency check of the address manager: what a result of zero means. */
module AddrCheck {

  import opened AddrTables
  import opened Ordered

  // ------------------------------------------------------------------ what is tested

  function LookupOrZero(m: map<nat, nat>, k: nat): nat {
    if k in m then m[k] else 0
  }

  predicate EntryOk(t: Tables, n: nat)
    requires n in t.info
  {
    var i := t.info[n];
    && (if i.inTried then i.lastSuccess != 0 && i.refCount == 0 else 1 <= i.refCount <= NEW_BUCKETS_PER_ADDRESS)
    && LookupOrZero(t.addrs, i.addr) == n
    && 0 <= i.randomPos < |t.random| && t.random[i.randomPos] == n
    && i.lastTry >= 0 && i.lastSuccess >= 0
  }

  /** An address that is in no table looks like entry 0: for that entry alone the check does not notice. */
  lemma MissingAddress(t: Tables, n: nat)
    requires n in t.info && t.info[n].addr !in t.addrs && EntryOk(t, n)
    ensures n == 0
  {
  }

  function Flat(buckets: seq<seq<nat>>): seq<nat> {
    if buckets == [] then [] else Flat(buckets[..|buckets|-1]) + buckets[|buckets|-1]
  }

  ghost predicate NewsOk(news: seq<set<nat>>, refs: map<nat, int>) {
    forall b, x :: 0 <= b < |news| && x in news[b] ==> x in refs && Refs(news, x) <= refs[x]
  }

  /** The tables agree, as far as the check looks. */
  ghost predicate Consistent(t: Tables) {
    && |t.random| == t.nTried + t.nNew
    && (forall n :: n in t.info ==> EntryOk(t, n))
    && CountsOk(t.info, t.nTried, t.nNew, NONE)
    && TriedListed(t.tried, TriedIds(t.info)) && NewsListed(t.news, t.info)
  }

  /** The tried buckets list the tried entries, each once. */
  ghost predicate TriedListed(tried: seq<seq<nat>>, all: set<nat>) {
    Distinct(Flat(tried)) && forall x :: x in Flat(tried) <==> x in all
  }

  /** The new buckets hold new entries only, each in as many as its count says. */
  ghost predicate NewsListed(news: seq<set<nat>>, info: Infos) {
    && (forall b, x :: 0 <= b < |news| && x in news[b] ==> x in NewIds(info, NONE))
    && (forall x :: x in NewIds(info, NONE) ==> Refs(news, x) == info[x].refCount)
  }

  // ------------------------------------------------------------------ the entries

  method CheckEntry(t: Tables, n: nat) returns (code: int)
    requires n in t.info
    ensures code == 0 <==> EntryOk(t, n)
  {
    var i := t.info[n];
    if i.inTried {
      if i.lastSuccess == 0 { return -1; }
      if i.refCount != 0 { return -2; }
    } else {
      if i.refCount < 0 || i.refCount > NEW_BUCKETS_PER_ADDRESS { return -3; }
      if i.refCount == 0 { return -4; }
    }
    if LookupOrZero(t.addrs, i.addr) != n { return -5; }
    if i.randomPos < 0 || i.randomPos >= |t.random| || t.random[i.randomPos] != n { return -14; }
    if i.lastTry < 0 { return -6; }
    if i.lastSuccess < 0 { return -8; }
    return 0;
  }

  /** The entries among the given ids, told apart: the tried ones, and the counts of the new ones. */
  ghost predicate ToldApart(info: Infos, ids: seq<nat>, tried: set<nat>, refs: map<nat, int>) {
    && (forall x :: x in tried <==> x in ids && x in info && info[x].inTried)
    && (forall x :: x in refs <==> x in ids && x in info && !info[x].inTried)
    && (forall x :: x in refs ==> refs[x] == info[x].refCount)
  }

  lemma ToldNext(info: Infos, ids: seq<nat>, n: nat, tried: set<nat>, refs: map<nat, int>)
    requires ToldApart(info, ids, tried, refs) && n in info
    ensures info[n].inTried ==> ToldApart(info, ids + [n], tried + {n}, refs)
    ensures !info[n].inTried ==> ToldApart(info, ids + [n], tried, refs[n := info[n].refCount])
  {
  }

  /** The map of the new entries to their counts. */
  ghost predicate IsNewRefs(info: Infos, refs: map<nat, int>) {
    refs.Keys == NewIds(info, NONE) && forall x :: x in refs ==> refs[x] == info[x].refCount
  }

  lemma ToldAll(info: Infos, ids: seq<nat>, tried: set<nat>, refs: map<nat, int>)
    requires ToldApart(info, ids, tried, refs) && forall x :: x in info ==> x in ids
    ensures tried == TriedIds(info) && IsNewRefs(info, refs)
  {
    assert forall x :: x in tried <==> x in TriedIds(info);
    assert forall x :: x in refs.Keys <==> x in NewIds(info, NONE);
  }

  method CheckEntries(t: Tables) returns (code: int, tried: set<nat>, refs: map<nat, int>)
    ensures code == 0 <==> forall n :: n in t.info ==> EntryOk(t, n)
    ensures code == 0 ==> tried == TriedIds(t.info) && IsNewRefs(t.info, refs)
  {
    hide EntryOk, ToldApart, IsNewRefs, Ascending, TriedIds;
    var ids := Ascending(t.info.Keys);
    tried, refs := {}, map[];
    NoneTold(t.info);
    for k := 0 to |ids|
      invariant forall j :: 0 <= j < k ==> ids[j] in t.info && EntryOk(t, ids[j])
      invariant ToldApart(t.info, ids[..k], tried, refs)
    {
      var n := ids[k];
      assert n in t.info.Keys;
      code := CheckEntry(t, n);
      if code != 0 {
        return;
      }
      ToldNext(t.info, ids[..k], n, tried, refs);
      assert ids[..k+1] == ids[..k] + [n];
      if t.info[n].inTried {
        tried := tried + {n};
      } else {
        refs := refs[n := t.info[n].refCount];
      }
    }
    code := 0;
    assert ids[..|ids|] == ids;
    AllListed(t);
    ToldAll(t.info, ids, tried, refs);
  }

  lemma AllListed(t: Tables)
    ensures forall x :: x in t.info ==> x in Ascending(t.info.Keys)
    ensures (forall j :: 0 <= j < |Ascending(t.info.Keys)| ==>
               Ascending(t.info.Keys)[j] in t.info && EntryOk(t, Ascending(t.info.Keys)[j]))
            ==> forall n :: n in t.info ==> EntryOk(t, n)
  {
    hide EntryOk, Ascending;
    forall x | x in t.info
      ensures x in Ascending(t.info.Keys)
    {
      assert x in t.info.Keys;
    }
  }

  lemma NoneTold(info: Infos)
    ensures ToldApart(info, [], {}, map[])
  {
  }

  // ------------------------------------------------------------------ the tried buckets

  function Elems(s: seq<nat>): set<nat> {
    set y | y in s
  }

  predicate ListsOnce(s: seq<nat>, all: set<nat>) {
    Distinct(s) && forall x :: x in s ==> x in all
  }

  lemma {:induction false} FlatPrefix(buckets: seq<seq<nat>>, n: nat)
    requires n <= |buckets|
    ensures Flat(buckets[..n]) <= Flat(buckets)
  {
    if n < |buckets| {
      FlatPrefix(buckets[..|buckets|-1], n);
      assert buckets[..|buckets|-1][..n] == buckets[..n];
    } else {
      assert buckets[..n] == buckets;
    }
  }

  lemma BadPrefix(p: seq<nat>, s: seq<nat>, all: set<nat>)
    requires p <= s && !ListsOnce(p, all)
    ensures !ListsOnce(s, all)
  {
    if !Distinct(p) {
      var i, j :| 0 <= i < j < |p| && p[i] == p[j];
      assert s[i] == s[j];
    } else {
      var x :| x in p && x !in all;
      assert x in s;
    }
  }

  lemma OneMore(p: seq<nat>, x: nat, all: set<nat>, rest: set<nat>)
    requires ListsOnce(p, all) && rest == all - Elems(p)
    ensures ListsOnce(p + [x], all) <==> x in rest
    ensures rest - {x} == all - Elems(p + [x])
  {
    var q := p + [x];
    assert forall y :: y in q <==> y in p || y == x;
    if x in rest {
      assert Distinct(q);
    } else if x in p {
      var i :| 0 <= i < |p| && p[i] == x;
      assert q[i] == q[|p|];
    } else {
      assert x in q && x !in all;
    }
  }

  method CheckTried(buckets: seq<seq<nat>>, all: set<nat>) returns (code: int, rest: set<nat>)
    ensures code == 0 <==> ListsOnce(Flat(buckets), all)
    ensures code == 0 ==> rest == all - Elems(Flat(buckets))
  {
    hide ListsOnce;
    rest := all;
    NothingListed(all);
    for n := 0 to |buckets|
      invariant ListsOnce(Flat(buckets[..n]), all) && rest == all - Elems(Flat(buckets[..n]))
    {
      var bucket := buckets[n];
      ghost var before := Flat(buckets[..n]);
      assert before + bucket[..0] == before;
      assert buckets[..n+1][..n] == buckets[..n];
      FlatPrefix(buckets, n + 1);
      for k := 0 to |bucket|
        invariant ListsOnce(before + bucket[..k], all) && rest == all - Elems(before + bucket[..k])
      {
        OneMore(before + bucket[..k], bucket[k], all, rest);
        assert before + bucket[..k+1] == before + bucket[..k] + [bucket[k]];
        if bucket[k] !in rest {
          assert before + bucket[..k+1] <= before + bucket;
          BadPrefix(before + bucket[..k+1], Flat(buckets), all);
          return -11, rest;
        }
        rest := rest - {bucket[k]};
      }
      assert bucket[..|bucket|] == bucket;
    }
    assert buckets[..|buckets|] == buckets;
    code := 0;
  }

  lemma NothingListed(all: set<nat>)
    ensures ListsOnce([], all) && all == all - Elems([])
  {
  }

  // ------------------------------------------------------------------ the new buckets

  /** How often an id has been met: in the buckets before, and among the ones done in this bucket. */
  ghost function Met(news: seq<set<nat>>, n: nat, done: seq<nat>, x: nat): nat
    requires n <= |news|
  {
    Refs(news[..n], x) + Tick(x in done)
  }

  /** What is left of the counts: those that are not used up, less what has been met. */
  ghost predicate Left(news: seq<set<nat>>, refs: map<nat, int>, rest: map<nat, int>, n: nat, done: seq<nat>)
    requires n <= |news|
  {
    && (forall x :: x in refs ==> Met(news, n, done, x) <= refs[x])
    && (forall x :: x in rest <==> x in refs && Met(news, n, done, x) < refs[x])
    && (forall x :: x in rest ==> rest[x] == refs[x] - Met(news, n, done, x))
  }

  lemma LeftNext(news: seq<set<nat>>, refs: map<nat, int>, rest: map<nat, int>, n: nat, done: seq<nat>, y: nat)
    requires n < |news| && Left(news, refs, rest, n, done) && y !in done && y in news[n]
    ensures y !in rest ==> !NewsOk(news, refs)
    ensures y in rest ==> Left(news, refs, if rest[y] == 1 then rest - {y} else rest[y := rest[y] - 1], n, done + [y])
  {
    if y in rest {
      var rest' := if rest[y] == 1 then rest - {y} else rest[y := rest[y] - 1];
      hide Refs;
      assert forall x :: x in done + [y] <==> x in done || x == y;
      assert forall x :: Met(news, n, done + [y], x) == Met(news, n, done, x) + Tick(x == y);
      hide Met;
    } else {
      RefsUpTo(news, n, y);
      RefsUpTo(news, n + 1, y);
    }
  }

  lemma LeftDone(news: seq<set<nat>>, refs: map<nat, int>, rest: map<nat, int>, n: nat, done: seq<nat>)
    requires n < |news| && Left(news, refs, rest, n, done) && forall x :: x in done <==> x in news[n]
    ensures Left(news, refs, rest, n + 1, [])
  {
    forall x
      ensures Met(news, n + 1, [], x) == Met(news, n, done, x)
    {
      RefsUpTo(news, n, x);
    }
    hide Met;
  }

  method CheckNews(news: seq<set<nat>>, refs: map<nat, int>) returns (code: int, rest: map<nat, int>)
    requires forall x :: x in refs ==> refs[x] >= 1
    ensures code == 0 <==> NewsOk(news, refs)
    ensures code == 0 ==> forall x :: x in rest <==> x in refs && Refs(news, x) < refs[x]
  {
    hide Left, NewsOk, Ascending, Refs;
    rest := refs;
    LeftStart(news, refs);
    for n := 0 to |news|
      invariant Left(news, refs, rest, n, [])
      invariant forall b, x :: 0 <= b < n && x in news[b] ==> x in refs
    {
      var ids := Ascending(news[n]);
      for k := 0 to |ids|
        invariant Left(news, refs, rest, n, ids[..k])
        invariant forall j :: 0 <= j < k ==> ids[j] in refs
      {
        LeftNext(news, refs, rest, n, ids[..k], ids[k]);
        assert ids[..k+1] == ids[..k] + [ids[k]];
        if ids[k] !in rest {
          return -12, rest;
        }
        LeftKnown(news, refs, rest, n, ids[..k]);
        if rest[ids[k]] == 1 {
          rest := rest - {ids[k]};
        } else {
          rest := rest[ids[k] := rest[ids[k]] - 1];
        }
      }
      assert ids[..|ids|] == ids;
      LeftDone(news, refs, rest, n, ids);
    }
    LeftEnd(news, refs, rest);
    code := 0;
  }

  lemma LeftStart(news: seq<set<nat>>, refs: map<nat, int>)
    requires forall x :: x in refs ==> refs[x] >= 1
    ensures Left(news, refs, refs, 0, [])
  {
    assert news[..0] == [];
  }

  lemma LeftKnown(news: seq<set<nat>>, refs: map<nat, int>, rest: map<nat, int>, n: nat, done: seq<nat>)
    requires n <= |news| && Left(news, refs, rest, n, done)
    ensures forall x :: x in rest ==> x in refs
  {
  }

  lemma LeftEnd(news: seq<set<nat>>, refs: map<nat, int>, rest: map<nat, int>)
    requires Left(news, refs, rest, |news|, []) && forall b, x :: 0 <= b < |news| && x in news[b] ==> x in refs
    ensures NewsOk(news, refs) && forall x :: x in rest <==> x in refs && Refs(news, x) < refs[x]
  {
    assert news[..|news|] == news;
    hide Refs;
    assert forall x :: Met(news, |news|, [], x) == Refs(news, x);
  }

  // ------------------------------------------------------------------ the whole check

  lemma TriedParts(tried: seq<seq<nat>>, all: set<nat>)
    ensures TriedListed(tried, all) <==> ListsOnce(Flat(tried), all) && all - Elems(Flat(tried)) == {}
  {
    hide Flat;
    if ListsOnce(Flat(tried), all) && all - Elems(Flat(tried)) == {} {
      forall x | x in all ensures x in Flat(tried) {
        assert x !in all - Elems(Flat(tried));
      }
    }
  }

  lemma NewsParts(news: seq<set<nat>>, info: Infos, refs: map<nat, int>)
    requires IsNewRefs(info, refs) && forall x :: x in refs ==> refs[x] >= 1
    ensures NewsListed(news, info) <==> NewsOk(news, refs) && forall x :: x in refs ==> Refs(news, x) >= refs[x]
  {
    hide Refs;
    assert forall x :: x in NewIds(info, NONE) <==> x in refs;
    hide NewIds;
    if NewsOk(news, refs) && forall x :: x in refs ==> Refs(news, x) >= refs[x] {
      forall x | x in refs
        ensures Refs(news, x) == refs[x]
      {
        RefsZero(news, x);
        var b :| 0 <= b < |news| && x in news[b];
      }
    }
  }

  /** The conditions of the check in the order in which it meets them. */
  lemma InParts(t: Tables, tried: set<nat>, refs: map<nat, int>)
    requires forall n :: n in t.info ==> EntryOk(t, n)
    requires tried == TriedIds(t.info) && IsNewRefs(t.info, refs)
    ensures Consistent(t) <==>
      && |t.random| == t.nTried + t.nNew && |tried| == t.nTried && |refs| == t.nNew
      && ListsOnce(Flat(t.tried), tried) && NewsOk(t.news, refs)
      && tried - Elems(Flat(t.tried)) == {} && forall x :: x in refs ==> Refs(t.news, x) >= refs[x]
  {
    hide EntryOk, Flat, Refs, TriedListed, NewsListed, ListsOnce, NewsOk;
    assert |refs| == |refs.Keys|;
    TriedParts(t.tried, tried);
    Positive(t, refs);
    NewsParts(t.news, t.info, refs);
  }

  method Check(t: Tables) returns (code: int)
    ensures code == 0 <==> Consistent(t)
  {
    hide Consistent, EntryOk, IsNewRefs, ListsOnce, NewsOk, Flat, Refs, Elems;
    if |t.random| != t.nTried + t.nNew {
      NotEnough(t);
      return -7;
    }
    var tried, refs;
    code, tried, refs := CheckEntries(t);
    if code != 0 {
      NotEnough(t);
      return;
    }
    InParts(t, tried, refs);
    Positive(t, refs);
    if |tried| != t.nTried { return -9; }
    if |refs| != t.nNew { return -10; }
    var triedCode, triedLeft := CheckTried(t.tried, tried);
    if triedCode != 0 { return triedCode; }
    var newCode, newLeft := CheckNews(t.news, refs);
    if newCode != 0 { return newCode; }
    if triedLeft != {} { return -13; }
    if newLeft != map[] {
      var x :| x in newLeft;
      return -15;
    }
    return 0;
  }

  lemma NotEnough(t: Tables)
    requires |t.random| != t.nTried + t.nNew || exists n :: n in t.info && !EntryOk(t, n)
    ensures !Consistent(t)
  {
    hide EntryOk, Refs, Flat;
  }

  lemma Positive(t: Tables, refs: map<nat, int>)
    requires (forall n :: n in t.info ==> EntryOk(t, n)) && IsNewRefs(t.info, refs)
    ensures forall x :: x in refs ==> refs[x] >= 1
  {
    forall x | x in refs ensures refs[x] >= 1 {
      assert x in NewIds(t.info, NONE) && EntryOk(t, x);
    }
  }

  // ------------------------------------------------------------------ the invariant passes the check

  lemma {:induction false} FlatHas(buckets: seq<seq<nat>>, b: nat, k: nat)
    requires b < |buckets| && k < |buckets[b]|
    ensures buckets[b][k] in Flat(buckets)
  {
    if b < |buckets| - 1 {
      FlatHas(buckets[..|buckets|-1], b, k);
    }
  }

  lemma {:induction false} FlatOnce(key: Key, info: Infos, buckets: seq<seq<nat>>)
    requires forall b :: 0 <= b < |buckets| ==> BucketOk(key, info, buckets[b], b)
    ensures Distinct(Flat(buckets))
    ensures forall x :: x in Flat(buckets) ==> x in info && info[x].inTried && key.TriedBucket(info[x]) < |buckets|
  {
    if buckets != [] {
      var k := |buckets| - 1;
      FlatOnce(key, info, buckets[..k]);
      assert BucketOk(key, info, buckets[k], k);
    }
  }

  lemma TriedIsListed(key: Key, info: Infos, tried: seq<seq<nat>>)
    requires TriedOk(key, info, tried)
    ensures TriedListed(tried, TriedIds(info))
  {
    hide Flat;
    FlatOnce(key, info, tried);
    forall x | x in TriedIds(info)
      ensures x in Flat(tried)
    {
      var b := key.TriedBucket(info[x]);
      var k :| 0 <= k < |tried[b]| && tried[b][k] == x;
      FlatHas(tried, b, k);
    }
  }

  lemma NewIsListed(info: Infos, news: seq<set<nat>>)
    requires FreshOk(info, news, NONE, NONE)
    ensures NewsListed(news, info)
  {
    hide Refs;
    forall x | x in NewIds(info, NONE)
      ensures Refs(news, x) == info[x].refCount
    {
      assert RefOk(info[x], x, news, NONE, NONE);
    }
  }

  lemma EntryIsOk(key: Key, t: Tables, n: nat)
    requires Inv(key, t, NONE, NONE) && n in t.info
    ensures EntryOk(t, n) <==> GoodTimes(t.info[n])
  {
    hide RandomOk, AddrsOk, TriedOk, FreshOk, CountsOk, IdsOk, Refs;
    FreshAt(t.info, t.news, NONE, NONE, n);
    RandomAt(t.info, t.random, n);
    AddrsOf(t.info, t.addrs, n);
  }

  /** Tables that satisfy the invariant pass the check exactly when their times are in order. */
  lemma InvPassesCheck(key: Key, t: Tables)
    requires Inv(key, t, NONE, NONE)
    ensures Consistent(t) <==> TimesOk(t.info)
  {
    hide EntryOk, TriedListed, NewsListed, RandomOk, AddrsOk, TriedOk, FreshOk, IdsOk;
    forall n | n in t.info
      ensures EntryOk(t, n) <==> GoodTimes(t.info[n])
    {
      EntryIsOk(key, t, n);
    }
    RandomSize(t.info, t.random);
    SizesAdd(t.info);
    TriedIsListed(key, t.info, t.tried);
    NewIsListed(t.info, t.news);
  }

  lemma SizesAdd(info: Infos)
    ensures |TriedIds(info)| + |NewIds(info, NONE)| == |info|
  {
    assert info.Keys == TriedIds(info) + NewIds(info, NONE);
  }
}
