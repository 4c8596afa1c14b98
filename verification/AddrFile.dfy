/** How the address manager is written to peers.dat and read back: the tables are rebuilt, not stored. */
module AddrFile {

  import opened AddrTables
  import opened Ordered
  import opened Options

  /** The stored part of an entry. */
  datatype Record = Record(addr: nat, port: nat, services: set<nat>, source: nat, time: int,
                           lastSuccess: int, attempts: int)

  datatype Item = Num(n: int) | Rec(r: Record)

  const MAX_ATTEMPTS := 22

  function Stored(i: Info): Record {
    Record(i.addr, i.port, i.services, i.source, i.time, i.lastSuccess, i.attempts)
  }

  function Clamp(attempts: int): int {
    if attempts < 0 then 0 else if attempts > MAX_ATTEMPTS then MAX_ATTEMPTS else attempts
  }

  /** The attempts that come back: no more than 22, and no fewer than none. */
  lemma ClampIs(n: int)
    ensures 0 <= Clamp(n) <= 22
    ensures 0 <= n <= 22 ==> Clamp(n) == n
    ensures n > 22 ==> Clamp(n) == 22
    ensures n < 0 ==> Clamp(n) == 0
  {
  }

  function Loaded(r: Record): Info {
    Info(r.addr, r.port, r.services, r.source, r.time, 0, r.lastSuccess, Clamp(r.attempts), 0, false, NONE)
  }

  // ------------------------------------------------------------------ the stored order

  predicate Chosen(i: Info, inTried: bool) {
    if inTried then i.inTried else i.refCount != 0
  }

  /** The ids of the new (or the tried) entries, in the order in which they come. */
  function Pick(info: Infos, ids: seq<nat>, inTried: bool): (q: seq<nat>)
    requires forall x :: x in ids ==> x in info
    ensures |q| <= |ids|
    ensures forall x :: x in q <==> x in ids && Chosen(info[x], inTried)
  {
    if ids == [] then [] else
      var k := |ids| - 1;
      assert forall x :: x in ids <==> x in ids[..k] || x == ids[k] by { assert ids == ids[..k] + [ids[k]]; }
      Pick(info, ids[..k], inTried) + if Chosen(info[ids[k]], inTried) then [ids[k]] else []
  }

  lemma {:induction false} PickDistinct(info: Infos, ids: seq<nat>, inTried: bool)
    requires forall x :: x in ids ==> x in info
    requires Distinct(ids)
    ensures Distinct(Pick(info, ids, inTried))
  {
    if ids != [] {
      var k := |ids| - 1;
      PickDistinct(info, ids[..k], inTried);
      assert ids[k] !in ids[..k];
      hide Chosen;
      DistinctPush(Pick(info, ids[..k], inTried), ids[k]);
    }
  }

  lemma {:induction false} PickPrefix(info: Infos, ids: seq<nat>, k: nat, inTried: bool)
    requires forall x :: x in ids ==> x in info
    requires k <= |ids|
    ensures (forall x :: x in ids[..k] ==> x in info) && Pick(info, ids[..k], inTried) <= Pick(info, ids, inTried)
  {
    if k == |ids| {
      assert ids[..k] == ids;
    } else {
      PickPrefix(info, ids[..|ids|-1], k, inTried);
      assert ids[..|ids|-1][..k] == ids[..k];
    }
  }

  function NewOrder(t: Tables): seq<nat> { Pick(t.info, Ascending(t.info.Keys), false) }
  function TriedOrder(t: Tables): seq<nat> { Pick(t.info, Ascending(t.info.Keys), true) }

  lemma PickSizes(key: Key, t: Tables)
    requires Inv(key, t, NONE, NONE)
    ensures |NewOrder(t)| == t.nNew && |TriedOrder(t)| == t.nTried
    ensures Distinct(NewOrder(t)) && Distinct(TriedOrder(t))
    ensures forall x :: x in NewOrder(t) <==> x in t.info && !t.info[x].inTried
    ensures forall x :: x in TriedOrder(t) <==> x in t.info && t.info[x].inTried
  {
    hide RandomOk, AddrsOk, TriedOk, FreshOk, IdsOk, Pick, Refs;
    var ids := Ascending(t.info.Keys);
    PickDistinct(t.info, ids, false);
    PickDistinct(t.info, ids, true);
    forall x | x in t.info
      ensures t.info[x].refCount != 0 <==> !t.info[x].inTried
    {
      FreshAt(t.info, t.news, NONE, NONE, x);
    }
    SeqSize(NewOrder(t), NewIds(t.info, NONE));
    SeqSize(TriedOrder(t), TriedIds(t.info));
  }

  /** The order numbers every entry once, the new ones first. */
  predicate Ordering(t: Tables, order: seq<nat>) {
    && |order| == t.nNew + t.nTried && t.nNew >= 0 && t.nTried >= 0
    && (forall n :: 0 <= n < |order| ==> order[n] in t.info && (t.info[order[n]].inTried <==> n >= t.nNew))
    && (forall x :: x in t.info ==> x in order)
    && Distinct(order)
  }

  lemma OrderFacts(key: Key, t: Tables)
    requires Inv(key, t, NONE, NONE)
    ensures |NewOrder(t)| == t.nNew && |TriedOrder(t)| == t.nTried
    ensures Ordering(t, NewOrder(t) + TriedOrder(t))
  {
    PickSizes(key, t);
    hide Inv, NewOrder, TriedOrder;
    OrderJoins(t, NewOrder(t), TriedOrder(t));
  }

  lemma OrderJoins(t: Tables, a: seq<nat>, b: seq<nat>)
    requires Distinct(a) && Distinct(b) && |a| == t.nNew && |b| == t.nTried
    requires forall x :: x in a <==> x in t.info && !t.info[x].inTried
    requires forall x :: x in b <==> x in t.info && t.info[x].inTried
    ensures Ordering(t, a + b)
  {
    var order := a + b;
    forall n | 0 <= n < |order|
      ensures order[n] in t.info && (t.info[order[n]].inTried <==> n >= t.nNew)
    {
      assert if n < |a| then order[n] in a else order[n] in b;
    }
    forall i, j | 0 <= i < j < |order|
      ensures order[i] != order[j]
    {
      assert t.info[order[i]].inTried <==> i >= t.nNew;
      assert t.info[order[j]].inTried <==> j >= t.nNew;
    }
  }

  // ------------------------------------------------------------------ the stream

  function Index(q: seq<nat>, x: nat): (i: nat)
    requires x in q
    ensures i < |q| && q[i] == x
  {
    if q[0] == x then 0 else 1 + Index(q[1..], x)
  }

  function Recs(info: Infos, q: seq<nat>): (r: seq<Item>)
    requires forall x :: x in q ==> x in info
    ensures |r| == |q| && forall n :: 0 <= n < |q| ==> r[n] == Rec(Stored(info[q[n]]))
  {
    if q == [] then [] else
      var k := |q| - 1;
      Recs(info, q[..k]) + [Rec(Stored(info[q[k]]))]
  }

  function Nums(order: seq<nat>, ids: seq<nat>): (r: seq<Item>)
    requires forall x :: x in ids ==> x in order
    ensures |r| == |ids| && forall k :: 0 <= k < |ids| ==> r[k] == Num(Index(order, ids[k]))
  {
    if ids == [] then [] else
      var k := |ids| - 1;
      Nums(order, ids[..k]) + [Num(Index(order, ids[k]))]
  }

  predicate Indexed(order: seq<nat>, news: seq<set<nat>>) {
    forall b, x :: 0 <= b < |news| && x in news[b] ==> x in order
  }

  function BucketItems(order: seq<nat>, news: seq<set<nat>>, n: nat): seq<Item>
    requires n <= |news| && Indexed(order, news)
  {
    if n == 0 then [] else
      BucketItems(order, news, n - 1) + BucketItem(order, news[n-1])
  }

  function BucketItem(order: seq<nat>, bucket: set<nat>): (r: seq<Item>)
    requires forall x :: x in bucket ==> x in order
    ensures |r| == 1 + |bucket| && r[0] == Num(|bucket|)
    ensures var q := Ascending(bucket); forall k :: 0 <= k < |q| ==> r[1 + k] == Num(Index(order, q[k]))
  {
    [Num(|bucket|)] + Nums(order, Ascending(bucket))
  }

  /** A stream written from the tables, entries in the given order. */
  ghost predicate WrittenIn(t: Tables, s: seq<Item>, order: seq<nat>) {
    && Ordering(t, order) && Indexed(order[..t.nNew], t.news)
    && s == [Num(t.nNew), Num(t.nTried), Num(|t.news|)] + Recs(t.info, order)
            + BucketItems(order[..t.nNew], t.news, |t.news|)
  }

  lemma InvIndexed(key: Key, t: Tables)
    requires Inv(key, t, NONE, NONE)
    ensures |t.news| == NEW_BUCKET_COUNT && Indexed(NewOrder(t), t.news)
  {
    hide RandomOk, AddrsOk, TriedOk, FreshOk, IdsOk, CountsOk;
    PickSizes(key, t);
    FreshSize(t.info, t.news, NONE, NONE);
    hide NewOrder;
    forall b, x | 0 <= b < |t.news| && x in t.news[b]
      ensures x in NewOrder(t)
    {
      FreshHere(t.info, t.news, NONE, NONE, b, x);
    }
  }

  // ------------------------------------------------------------------ the writer

  /** How many of the first k ids are chosen. */
  ghost function Passed(info: Infos, ids: seq<nat>, k: nat, inTried: bool): nat
    requires k <= |ids| && forall x :: x in ids ==> x in info
  {
    |Pick(info, ids[..k], inTried)|
  }

  lemma PickStart(info: Infos, ids: seq<nat>, inTried: bool)
    requires forall x :: x in ids ==> x in info
    ensures Passed(info, ids, 0, inTried) == 0 && Recs(info, Pick(info, ids, inTried)[..0]) == []
  {
  }

  lemma PickNext(info: Infos, ids: seq<nat>, k: nat, inTried: bool)
    requires k < |ids| && forall x :: x in ids ==> x in info
    ensures Pick(info, ids[..k+1], inTried)
            == Pick(info, ids[..k], inTried) + if Chosen(info[ids[k]], inTried) then [ids[k]] else []
  {
    assert ids[..k+1][..k] == ids[..k];
  }

  lemma PickStep(info: Infos, ids: seq<nat>, k: nat, inTried: bool)
    requires k < |ids| && Distinct(ids) && forall x :: x in ids ==> x in info
    ensures var all, n := Pick(info, ids, inTried), Passed(info, ids, k, inTried);
      && n <= |all|
      && (forall j :: 0 <= j < n ==> all[j] != ids[k])
      && if Chosen(info[ids[k]], inTried)
         then n < |all| && all[n] == ids[k] && Passed(info, ids, k + 1, inTried) == n + 1
         else Passed(info, ids, k + 1, inTried) == n
  {
    var all, n := Pick(info, ids, inTried), Passed(info, ids, k, inTried);
    PickPrefix(info, ids, k, inTried);
    PickPrefix(info, ids, k + 1, inTried);
    PickNext(info, ids, k, inTried);
    hide Pick, Chosen;
    assert ids[k] !in ids[..k];
    forall j | 0 <= j < n ensures all[j] != ids[k] {
      assert all[j] in Pick(info, ids[..k], inTried);
    }
  }

  lemma RecsNext(info: Infos, q: seq<nat>, n: nat)
    requires n < |q| && forall x :: x in q ==> x in info
    ensures Recs(info, q[..n+1]) == Recs(info, q[..n]) + [Rec(Stored(info[q[n]]))]
  {
    assert q[..n+1][..n] == q[..n];
  }

  lemma NumberedAll(q: seq<nat>, ranks: map<nat, nat>)
    requires Distinct(q)
    ensures (forall j :: 0 <= j < |q| ==> q[j] in ranks && ranks[q[j]] == j) ==>
      forall x :: x in q ==> x in ranks && ranks[x] == Index(q, x)
  {
    hide Index;
  }

  /** Writes the chosen entries up to the given number of them, and numbers what it passes. */
  method WriteEntries(info: Infos, ids: seq<nat>, count: int, inTried: bool)
    returns (s: seq<Item>, ranks: map<nat, nat>)
    requires forall x :: x in ids ==> x in info
    requires Distinct(ids)
    ensures count == |Pick(info, ids, inTried)| ==>
      && s == Recs(info, Pick(info, ids, inTried))
      && forall x :: x in Pick(info, ids, inTried) ==> x in ranks && ranks[x] == Index(Pick(info, ids, inTried), x)
  {
    hide Pick, Index, Recs, Chosen;
    ghost var all := Pick(info, ids, inTried);
    PickDistinct(info, ids, inTried);
    s, ranks := [], map[];
    var n := 0;
    PickStart(info, ids, inTried);
    for k := 0 to |ids|
      invariant n == Passed(info, ids, k, inTried) <= |all|
      invariant s == Recs(info, all[..n])
      invariant forall j :: 0 <= j < n ==> all[j] in ranks && ranks[all[j]] == j
    {
      PickStep(info, ids, k, inTried);
      if n == count {
        NumberedAll(all, ranks);
        return;
      }
      assert forall j :: 0 <= j < n ==> all[j] != ids[k];
      ranks := ranks[ids[k] := n];
      if Chosen(info[ids[k]], inTried) {
        s := s + [Rec(Stored(info[ids[k]]))];
        RecsNext(info, all, n);
        n := n + 1;
      }
    }
    assert ids[..|ids|] == ids && all[..n] == all;
    NumberedAll(all, ranks);
  }

  method WriteBucket(order: seq<nat>, ranks: map<nat, nat>, ids: seq<nat>) returns (s: seq<Item>)
    requires forall x :: x in ids ==> x in order
    requires forall x :: x in order ==> x in ranks && ranks[x] == Index(order, x)
    ensures s == Nums(order, ids)
  {
    hide Index;
    s := [];
    for k := 0 to |ids|
      invariant s == Nums(order, ids[..k])
    {
      assert ids[..k+1][..k] == ids[..k];
      s := s + [Num(ranks[ids[k]])];
    }
    assert ids[..|ids|] == ids;
  }

  method WriteBuckets(order: seq<nat>, ranks: map<nat, nat>, news: seq<set<nat>>) returns (s: seq<Item>)
    requires Indexed(order, news)
    requires forall x :: x in order ==> x in ranks && ranks[x] == Index(order, x)
    ensures s == BucketItems(order, news, |news|)
  {
    hide Index, Ascending, Nums;
    s := [];
    for b := 0 to |news|
      invariant s == BucketItems(order, news, b)
    {
      var items := WriteBucket(order, ranks, Ascending(news[b]));
      s := s + ([Num(|news[b]|)] + items);
    }
  }

  lemma RecsJoin(info: Infos, a: seq<nat>, b: seq<nat>)
    requires (forall x :: x in a ==> x in info) && (forall x :: x in b ==> x in info)
    ensures Recs(info, a + b) == Recs(info, a) + Recs(info, b)
  {
    hide Recs;
    var l, r := Recs(info, a + b), Recs(info, a) + Recs(info, b);
    assert |l| == |r|;
    assert forall n :: 0 <= n < |l| ==> l[n] == r[n];
  }

  lemma Associates(h: seq<Item>, a: seq<Item>, b: seq<Item>, r: seq<Item>)
    ensures h + a + b + r == h + (a + b) + r
  {
  }

  lemma WrittenJoins(t: Tables, a: seq<nat>, b: seq<nat>, s: seq<Item>)
    requires Ordering(t, a + b) && |a| == t.nNew && Indexed(a, t.news)
    requires (forall x :: x in a ==> x in t.info) && (forall x :: x in b ==> x in t.info)
    requires s == [Num(t.nNew), Num(t.nTried), Num(|t.news|)] + Recs(t.info, a) + Recs(t.info, b)
                  + BucketItems(a, t.news, |t.news|)
    ensures WrittenIn(t, s, a + b)
  {
    hide Recs, BucketItems, Ordering, Indexed;
    RecsJoin(t.info, a, b);
    assert (a + b)[..t.nNew] == a;
    var h, bs := [Num(t.nNew), Num(t.nTried), Num(|t.news|)], BucketItems(a, t.news, |t.news|);
    Associates(h, Recs(t.info, a), Recs(t.info, b), bs);
  }

  method Write(t: Tables, ghost key: Key) returns (s: seq<Item>)
    requires Inv(key, t, NONE, NONE)
    ensures WrittenIn(t, s, NewOrder(t) + TriedOrder(t))
  {
    hide Inv, Recs, BucketItems, Ordering, Indexed, WrittenIn, Pick;
    InvIndexed(key, t);
    OrderFacts(key, t);
    var ids := Ascending(t.info.Keys);
    var recent, ranks := WriteEntries(t.info, ids, t.nNew, false);
    var tried, _ := WriteEntries(t.info, ids, t.nTried, true);
    var buckets := WriteBuckets(NewOrder(t), ranks, t.news);
    s := [Num(t.nNew), Num(t.nTried), Num(NEW_BUCKET_COUNT)] + recent + tried + buckets;
    WrittenJoins(t, NewOrder(t), TriedOrder(t), s);
  }

  // ------------------------------------------------------------------ the reader

  /** The entry that comes back under the id n. */
  function Expected(i: Info, n: nat): Info {
    i.(lastTry := 0, attempts := Clamp(i.attempts), randomPos := n)
  }

  ghost predicate SameSet(order: seq<nat>, bucket: set<nat>, from: set<nat>) {
    && (forall n: nat :: n in bucket ==> n < |order| && order[n] in from)
    && (forall n: nat :: n < |order| && order[n] in from ==> n in bucket)
  }

  ghost predicate SameList(order: seq<nat>, bucket: seq<nat>, from: seq<nat>) {
    && (forall n: nat :: n in bucket ==> n < |order| && order[n] in from)
    && (forall n: nat :: n < |order| && order[n] in from ==> n in bucket)
  }

  /** The tables with their ids renumbered: the id n stands for order[n]. */
  ghost predicate Renumbered(t: Tables, u: Tables, order: seq<nat>)
    requires Ordering(t, order)
  {
    && (forall n: nat :: n in u.info <==> n < |order|)
    && (forall n: nat :: n in u.info ==> u.info[n] == Expected(t.info[order[n]], n))
    && |u.news| == |t.news| && (forall b :: 0 <= b < |u.news| ==> SameSet(order, u.news[b], t.news[b]))
    && |u.tried| == |t.tried| && (forall b :: 0 <= b < |u.tried| ==> SameList(order, u.tried[b], t.tried[b]))
    && u.nNew == t.nNew && u.nTried == t.nTried
  }

  /** What the reader meets in a written stream. */
  lemma Framing(t: Tables, s: seq<Item>, order: seq<nat>)
    requires WrittenIn(t, s, order)
    ensures 3 + |order| <= |s| && 0 <= t.nNew <= |order| && Ordering(t, order)
    ensures Indexed(order[..t.nNew], t.news)
    ensures s[0] == Num(t.nNew) && s[1] == Num(t.nTried) && s[2] == Num(|t.news|)
    ensures forall n :: 0 <= n < |order| ==> order[n] in t.info && s[3 + n] == Rec(Stored(t.info[order[n]]))
    ensures s[3 + |order|..] == BucketItems(order[..t.nNew], t.news, |t.news|)
  {
    hide Recs, BucketItems;
    var h := [Num(t.nNew), Num(t.nTried), Num(|t.news|)];
    HeadAndTail(s, h, Recs(t.info, order), BucketItems(order[..t.nNew], t.news, |t.news|));
  }

  lemma HeadAndTail(s: seq<Item>, h: seq<Item>, r: seq<Item>, z: seq<Item>)
    requires s == h + r + z && |h| == 3
    ensures |s| == 3 + |r| + |z| && s[..3] == h && s[3 + |r|..] == z && forall n :: 0 <= n < |r| ==> s[3 + n] == r[n]
  {
  }

  /** What the reader needs of tables that were written, by this build or by one with another number of
      new buckets. */
  predicate Savable(key: Key, t: Tables) {
    AddrsOk(t.info, t.addrs) && TriedOk(key, t.info, t.tried)
  }

  /** The references an entry has when it has been read: one for a new entry if the stored buckets
      will not be used, otherwise none yet. */
  function FirstCount(t: Tables, m: nat): nat {
    if |t.news| != NEW_BUCKET_COUNT && m < t.nNew then 1 else 0
  }

  function Home(key: Key, i: Info): nat {
    key.NewBucket(i, i.source)
  }

  /** The first n new entries that have their home in bucket b. */
  ghost predicate AtHome(key: Key, t: Tables, order: seq<nat>, bucket: set<nat>, b: nat, n: nat)
    requires Ordering(t, order) && n <= |order|
  {
    && (forall m: nat :: m in bucket ==> m < n && Home(key, t.info[order[m]]) == b)
    && (forall m: nat :: m < n && Home(key, t.info[order[m]]) == b ==> m in bucket)
  }

  /** The new buckets while entries are read: empty, or filled by home if the stored ones will not be used. */
  ghost predicate HomesTo(key: Key, t: Tables, order: seq<nat>, news: seq<set<nat>>, n: nat)
    requires Ordering(t, order) && n <= |order|
  {
    if |t.news| == NEW_BUCKET_COUNT then news == seq(NEW_BUCKET_COUNT, _ => {})
    else |news| == NEW_BUCKET_COUNT && forall b :: 0 <= b < |news| ==> AtHome(key, t, order, news[b], b, n)
  }

  lemma HomesNext(key: Key, t: Tables, order: seq<nat>, news: seq<set<nat>>, n: nat)
    requires Ordering(t, order) && n < |order| && |t.news| != NEW_BUCKET_COUNT && HomesTo(key, t, order, news, n)
    ensures var b := Home(key, t.info[order[n]]); HomesTo(key, t, order, news[b := news[b] + {n}], n + 1)
  {
    var h := Home(key, t.info[order[n]]);
    var news' := news[h := news[h] + {n}];
    forall b | 0 <= b < |news'|
      ensures AtHome(key, t, order, news'[b], b, n + 1)
    {
      assert AtHome(key, t, order, news[b], b, n);
    }
  }

  /** The first n entries are back. */
  ghost predicate RestoredTo(t: Tables, order: seq<nat>, info: Infos, addrs: map<nat, nat>, random: seq<nat>, n: nat)
    requires Ordering(t, order)
  {
    && n <= |order| && |random| == n
    && (forall m: nat :: m in info <==> m < n)
    && (forall m: nat :: m in info ==> info[m] == Expected(t.info[order[m]], m).(refCount := FirstCount(t, m)))
    && RandomOk(info, random) && AddrsOk(info, addrs)
  }

  lemma RestoredNext(t: Tables, order: seq<nat>, info: Infos, addrs: map<nat, nat>, random: seq<nat>, n: nat, i: Info)
    requires AddrsOk(t.info, t.addrs) && Ordering(t, order) && RestoredTo(t, order, info, addrs, random, n)
             && n < |order|
    requires i == Expected(t.info[order[n]], n).(refCount := FirstCount(t, n))
    ensures i.addr !in addrs
    ensures RestoredTo(t, order, info[n := i], addrs[i.addr := n], random + [n], n + 1)
  {
    hide RandomOk, AddrsOk;
    RandomPush(info, random, n, i);
    forall m: nat | m in info
      ensures info[m].addr != i.addr
    {
      AddrsOf(t.info, t.addrs, order[m]);
      AddrsOf(t.info, t.addrs, order[n]);
    }
    AddrsFree(info, addrs, i.addr);
    AddrsPush(info, addrs, n, i);
  }

  /** Reading the new entries: the ids are the positions in the stream. */
  method ReadNew(key: Key, s: seq<Item>, count: int, buckets: int, ghost t: Tables, ghost order: seq<nat>)
    returns (ok: bool, info: Infos, addrs: map<nat, nat>, random: seq<nat>, news: seq<set<nat>>)
    ensures |news| == NEW_BUCKET_COUNT
    ensures WrittenIn(t, s, order) && AddrsOk(t.info, t.addrs) && count == t.nNew && buckets == |t.news| ==>
      ok && RestoredTo(t, order, info, addrs, random, t.nNew) && HomesTo(key, t, order, news, t.nNew)
  {
    hide WrittenIn, HomesTo, RestoredTo, AddrsOk, Ordering, Recs, BucketItems, Indexed;
    ghost var good := WrittenIn(t, s, order) && AddrsOk(t.info, t.addrs) && count == t.nNew && buckets == |t.news|;
    if good { Framing(t, s, order); NoHomes(key, t, order); RestoredNone(t, order); }
    ok, info, addrs, random := true, map[], map[], [];
    news := seq(NEW_BUCKET_COUNT, _ => {});
    for n := 0 to Max0(count)
      invariant ok && |news| == NEW_BUCKET_COUNT
      invariant good ==> RestoredTo(t, order, info, addrs, random, n) && HomesTo(key, t, order, news, n)
    {
      if good { NewAhead(key, t, s, order, info, addrs, random, news, n); }
      if 3 + n >= |s| || !s[3 + n].Rec? {
        return false, info, addrs, random, news;
      }
      var i := Loaded(s[3 + n].r).(randomPos := |random|);
      if buckets != NEW_BUCKET_COUNT {
        if good { HomesNext(key, t, order, news, n); }
        var b := key.NewBucket(i, i.source);
        news := news[b := news[b] + {n}];
        i := i.(refCount := i.refCount + 1);
      }
      if good { RestoredNext(t, order, info, addrs, random, n, i); }
      info, addrs, random := info[n := i], addrs[i.addr := n], random + [n];
    }
  }

  lemma RestoredNone(t: Tables, order: seq<nat>)
    requires Ordering(t, order)
    ensures RestoredTo(t, order, map[], map[], [], 0)
  {
  }

  /** Before new entry n is read. */
  lemma NewAhead(key: Key, t: Tables, s: seq<Item>, order: seq<nat>, info: Infos, addrs: map<nat, nat>,
                 random: seq<nat>, news: seq<set<nat>>, n: nat)
    requires WrittenIn(t, s, order) && n < t.nNew && RestoredTo(t, order, info, addrs, random, n)
    requires HomesTo(key, t, order, news, n)
    ensures |random| == n && 3 + n < |s| && order[n] in t.info && !t.info[order[n]].inTried
    ensures s[3 + n] == Rec(Stored(t.info[order[n]]))
    ensures |t.news| == NEW_BUCKET_COUNT ==> HomesTo(key, t, order, news, n + 1)
  {
    Framing(t, s, order);
    hide WrittenIn;
  }

  lemma NoHomes(key: Key, t: Tables, order: seq<nat>)
    requires Ordering(t, order)
    ensures HomesTo(key, t, order, seq(NEW_BUCKET_COUNT, _ => {}), 0)
  {
  }

  // ------------------------------------------------------------------ the tried entries

  lemma {:induction false} Injected(a: seq<nat>, b: seq<nat>)
    requires Distinct(a) && forall x :: x in a ==> x in b
    ensures |a| <= |b|
  {
    if a != [] {
      var k := |a| - 1;
      var j := Index(b, a[k]);
      var b' := b[..j] + b[j+1..];
      forall x | x in a[..k] ensures x in b' {
        assert x in a && x in b && x != a[k];
        assert b == b[..j] + [a[k]] + b[j+1..];
      }
      Injected(a[..k], b');
    }
  }

  function Through(order: seq<nat>, q: seq<nat>): (r: seq<nat>)
    requires forall i :: 0 <= i < |q| ==> q[i] < |order|
    ensures |r| == |q| && forall i :: 0 <= i < |q| ==> r[i] == order[q[i]]
  {
    if q == [] then [] else
      var k := |q| - 1;
      Through(order, q[..k]) + [order[q[k]]]
  }

  /** As long as entries of a written stream are missing, their tried buckets have room. */
  lemma RoomInBucket(key: Key, t: Tables, order: seq<nat>, info: Infos, tried: seq<seq<nat>>, n: nat)
    requires TriedOk(key, t.info, t.tried) && Ordering(t, order) && t.nNew <= n < |order|
    requires TriedOk(key, info, tried)
    requires forall m: nat :: m in info ==> m < n && info[m].inTried == t.info[order[m]].inTried
                                            && SameKey(info[m], t.info[order[m]])
    ensures |tried[key.TriedBucket(t.info[order[n]])]| < TRIED_BUCKET_SIZE
  {
    var b := key.TriedBucket(t.info[order[n]]);
    var q: seq<nat> := tried[b];
    assert BucketOk(key, info, q, b) && BucketOk(key, t.info, t.tried[b], b);
    assert forall i :: 0 <= i < |q| ==> q[i] in info;
    var a := Through(order, q) + [order[n]];
    forall i, j | 0 <= i < j < |a|
      ensures a[i] != a[j]
    {
      assert q[i] in info;
      assert j < |q| ==> q[j] in info && q[i] != q[j];
    }
    forall i | 0 <= i < |a|
      ensures a[i] in t.tried[b]
    {
      if i < |q| {
        assert q[i] in info && SameKey(info[q[i]], t.info[order[q[i]]]);
      }
    }
    Injected(a, t.tried[b]);
  }

  /** A new tried entry, under the next id. */
  lemma TriedGrows(key: Key, info: Infos, tried: seq<seq<nat>>, n: nat, i: Info)
    requires TriedOk(key, info, tried) && n !in info && i.inTried
    requires |tried[key.TriedBucket(i)]| < TRIED_BUCKET_SIZE
    ensures TriedOk(key, info[n := i], tried[key.TriedBucket(i) := tried[key.TriedBucket(i)] + [n]])
  {
    var mid := info[n := i.(inTried := false)];
    TriedFrame(key, info, mid, tried);
    TriedPush(key, mid, tried, n, key.TriedBucket(i));
    assert mid[n := mid[n].(inTried := true)] == info[n := i];
  }

  /** A written stream from which the new entries have been read. */
  ghost predicate NewRead(key: Key, t: Tables, s: seq<Item>, order: seq<nat>, info: Infos, addrs: map<nat, nat>,
                          random: seq<nat>) {
    Savable(key, t) && WrittenIn(t, s, order) && RestoredTo(t, order, info, addrs, random, t.nNew)
  }

  lemma TriedStart(key: Key, t: Tables, s: seq<Item>, order: seq<nat>, info: Infos, addrs: map<nat, nat>,
                   random: seq<nat>)
    requires NewRead(key, t, s, order, info, addrs, random)
    ensures Ordering(t, order) && Savable(key, t) && RestoredTo(t, order, info, addrs, random, t.nNew)
    ensures |order| == t.nNew + t.nTried && t.nNew >= 0 && t.nTried >= 0 && |s| >= 3 + |order|
    ensures forall n :: 0 <= n < |order| ==> order[n] in t.info && s[3 + n] == Rec(Stored(t.info[order[n]]))
    ensures TriedOk(key, info, seq(TRIED_BUCKET_COUNT, _ => []))
  {
    hide Savable;
    Framing(t, s, order);
    NoneTried(key, t, order, info);
    hide WrittenIn;
  }

  /** Reading the tried entries; none of a written stream is lost. */
  method ReadTried(key: Key, s: seq<Item>, count: int, info0: Infos, addrs0: map<nat, nat>, random0: seq<nat>,
                   start: nat, ghost t: Tables, ghost order: seq<nat>)
    returns (ok: bool, info: Infos, addrs: map<nat, nat>, random: seq<nat>, tried: seq<seq<nat>>, idCount: nat,
             lost: nat)
    ensures NewRead(key, t, s, order, info0, addrs0, random0) && count == t.nTried && start == t.nNew ==>
      && ok && lost == 0 && idCount == |order|
      && RestoredTo(t, order, info, addrs, random, |order|) && TriedOk(key, info, tried)
  {
    ghost var good := NewRead(key, t, s, order, info0, addrs0, random0) && count == t.nTried && start == t.nNew;
    var p := 3 + start;
    hide Savable, NewRead, Ordering, WrittenIn, RestoredTo, TriedOk;
    if good { TriedStart(key, t, s, order, info0, addrs0, random0); }
    ok, info, addrs, random, idCount, lost := true, info0, addrs0, random0, start, 0;
    tried := seq(TRIED_BUCKET_COUNT, _ => []);
    for m := 0 to Max0(count)
      invariant ok && |tried| == TRIED_BUCKET_COUNT
      invariant good ==> lost == 0 && idCount == t.nNew + m && RestoredTo(t, order, info, addrs, random, idCount)
      invariant good ==> TriedOk(key, info, tried)
    {
      assert good ==> s[3 + (t.nNew + m)] == Rec(Stored(t.info[order[t.nNew + m]]));
      if p + m >= |s| || !s[p + m].Rec? {
        return false, info, addrs, random, tried, idCount, lost;
      }
      var i := Loaded(s[p + m].r);
      var b := key.TriedBucket(i);
      if good {
        TriedNext(key, t, order, info, addrs, random, tried, idCount, i);
      }
      if |tried[b]| < TRIED_BUCKET_SIZE {
        i := i.(randomPos := |random|, inTried := true);
        random := random + [idCount];
        info := info[idCount := i];
        addrs := addrs[i.addr := idCount];
        tried := tried[b := tried[b] + [idCount]];
        idCount := idCount + 1;
      } else {
        lost := lost + 1;
      }
    }
  }

  lemma NoneTried(key: Key, t: Tables, order: seq<nat>, info: Infos)
    requires Ordering(t, order)
    requires forall m: nat :: m in info ==>
               m < t.nNew && info[m] == Expected(t.info[order[m]], m).(refCount := FirstCount(t, m))
    ensures TriedOk(key, info, seq(TRIED_BUCKET_COUNT, _ => []))
  {
  }

  lemma TriedNext(key: Key, t: Tables, order: seq<nat>, info: Infos, addrs: map<nat, nat>, random: seq<nat>,
                  tried: seq<seq<nat>>, n: nat, i: Info)
    requires Savable(key, t) && Ordering(t, order) && t.nNew <= n < |order|
    requires RestoredTo(t, order, info, addrs, random, n) && TriedOk(key, info, tried)
    requires i == Loaded(Stored(t.info[order[n]]))
    ensures var b, j := key.TriedBucket(i), i.(randomPos := |random|, inTried := true);
      && b < |tried| && |tried[b]| < TRIED_BUCKET_SIZE
      && RestoredTo(t, order, info[n := j], addrs[i.addr := n], random + [n], n + 1)
      && TriedOk(key, info[n := j], tried[b := tried[b] + [n]])
  {
    var j := i.(randomPos := |random|, inTried := true);
    hide TriedOk, RandomOk, AddrsOk;
    TriedSizes(key, info, tried);
    RoomInBucket(key, t, order, info, tried, n);
    RestoredNext(t, order, info, addrs, random, n, j);
    TriedGrows(key, info, tried, n, j);
  }

  // ------------------------------------------------------------------ the new buckets

  lemma {:induction false} BucketPrefix(order: seq<nat>, news: seq<set<nat>>, b: nat, n: nat)
    requires b <= n <= |news| && Indexed(order, news)
    ensures BucketItems(order, news, b) <= BucketItems(order, news, n)
  {
    hide BucketItem, Indexed;
    if b < n {
      BucketPrefix(order, news, b, n - 1);
    }
  }

  /** Where the bucket b is in the items of all buckets. */
  lemma BucketFraming(order: seq<nat>, news: seq<set<nat>>, b: nat)
    requires b < |news| && Indexed(order, news)
    ensures var all, p, item := BucketItems(order, news, |news|), |BucketItems(order, news, b)|,
                BucketItem(order, news[b]);
      && |BucketItems(order, news, b + 1)| == p + |item| <= |all|
      && forall i :: 0 <= i < |item| ==> all[p + i] == item[i]
  {
    hide BucketItem, BucketItems;
    BucketPrefix(order, news, b + 1, |news|);
    BucketNext(order, news, b);
    PrefixAt(BucketItems(order, news, |news|), BucketItems(order, news, b), BucketItem(order, news[b]));
  }

  lemma BucketNext(order: seq<nat>, news: seq<set<nat>>, b: nat)
    requires b < |news| && Indexed(order, news)
    ensures BucketItems(order, news, b + 1) == BucketItems(order, news, b) + BucketItem(order, news[b])
  {
    hide BucketItem, Indexed;
  }

  lemma PrefixAt(all: seq<Item>, l: seq<Item>, r: seq<Item>)
    requires l + r <= all
    ensures |l| + |r| <= |all| && forall i :: 0 <= i < |r| ==> all[|l| + i] == r[i]
  {
    forall i | 0 <= i < |r|
      ensures all[|l| + i] == r[i]
    {
      assert all[|l| + i] == (l + r)[|l| + i];
    }
  }

  /** The buckets before b are back, and of the bucket b the ids in `done`. */
  ghost predicate BucketsTo(t: Tables, order: seq<nat>, base: Infos, info: Infos, news: seq<set<nat>>, b: nat,
                            done: seq<nat>)
  {
    b <= |t.news| && CountedTo(t.news, order, base, info, b, done) && FilledTo(t.news, order, news, b, done)
  }

  ghost predicate CountedTo(from: seq<set<nat>>, order: seq<nat>, base: Infos, info: Infos, b: nat, done: seq<nat>)
    requires b <= |from|
  {
    && info.Keys == base.Keys
    && (forall m: nat :: m in info ==>
          m < |order| && info[m] == base[m].(refCount := Refs(from[..b], order[m]) + Tick(order[m] in done)))
  }

  ghost predicate FilledTo(from: seq<set<nat>>, order: seq<nat>, news: seq<set<nat>>, b: nat, done: seq<nat>) {
    && |news| == |from|
    && (forall c :: 0 <= c < |news| ==> FilledOne(from, order, news[c], b, done, c))
  }

  ghost predicate FilledOne(from: seq<set<nat>>, order: seq<nat>, bucket: set<nat>, b: nat, done: seq<nat>, c: nat)
    requires c < |from|
  {
    && (forall m: nat :: m in bucket ==> m < |order| && Back(order[m], from, b, done, c))
    && (forall m: nat :: m < |order| && Back(order[m], from, b, done, c) ==> m in bucket)
  }

  predicate Back(x: nat, news: seq<set<nat>>, b: nat, done: seq<nat>, c: nat)
    requires c < |news|
  {
    (c < b && x in news[c]) || (c == b && x in done)
  }

  lemma BucketDone(t: Tables, order: seq<nat>, base: Infos, info: Infos, news: seq<set<nat>>, b: nat)
    requires b < |t.news| && BucketsTo(t, order, base, info, news, b, Ascending(t.news[b]))
    ensures BucketsTo(t, order, base, info, news, b + 1, [])
  {
    hide Refs, Ascending;
    forall m: nat | m in info
      ensures info[m] == base[m].(refCount := Refs(t.news[..b+1], order[m]))
    {
      RefsUpTo(t.news, b, order[m]);
    }
    forall c | 0 <= c < |news|
      ensures FilledOne(t.news, order, news[c], b + 1, [], c)
    {
      assert FilledOne(t.news, order, news[c], b, Ascending(t.news[b]), c);
    }
  }

  lemma BucketGrows(t: Tables, order: seq<nat>, base: Infos, info: Infos, news: seq<set<nat>>, b: nat, done: seq<nat>,
                    j: nat)
    requires Distinct(order) && b < |t.news| && j < |order| && j in base
    requires order[j] in t.news[b] && order[j] !in done && Refs(t.news, order[j]) <= NEW_BUCKETS_PER_ADDRESS
    requires BucketsTo(t, order, base, info, news, b, done)
    ensures j in info && info[j].refCount < NEW_BUCKETS_PER_ADDRESS
    ensures BucketsTo(t, order, base, info[j := info[j].(refCount := info[j].refCount + 1)],
                      news[b := news[b] + {j}], b, done + [order[j]])
  {
    hide Refs, FilledTo;
    assert j in info && info[j].refCount == Refs(t.news[..b], order[j]) by { assert j in info.Keys; }
    RefsUpTo(t.news, b, order[j]);
    RefsUpTo(t.news, b + 1, order[j]);
    hide CountedTo;
    CountedNext(t.news, order, base, info, b, done, j);
    FilledNext(t.news, order, news, b, done, j);
  }

  lemma CountedNext(from: seq<set<nat>>, order: seq<nat>, base: Infos, info: Infos, b: nat, done: seq<nat>, j: nat)
    requires Distinct(order) && b < |from| && j < |order| && j in info && order[j] !in done
    requires CountedTo(from, order, base, info, b, done)
    ensures CountedTo(from, order, base, info[j := info[j].(refCount := info[j].refCount + 1)], b, done + [order[j]])
  {
    hide Refs;
    var done', info' := done + [order[j]], info[j := info[j].(refCount := info[j].refCount + 1)];
    assert info'.Keys == base.Keys;
    forall m: nat | m in info'
      ensures m < |order| && info'[m] == base[m].(refCount := Refs(from[..b], order[m]) + Tick(order[m] in done'))
    {
      assert m in info;
      assert m != j ==> order[m] != order[j];
    }
  }

  lemma FilledNext(from: seq<set<nat>>, order: seq<nat>, news: seq<set<nat>>, b: nat, done: seq<nat>, j: nat)
    requires Distinct(order) && b < |from| && j < |order| && order[j] !in done
    requires FilledTo(from, order, news, b, done)
    ensures FilledTo(from, order, news[b := news[b] + {j}], b, done + [order[j]])
  {
    var done', news' := done + [order[j]], news[b := news[b] + {j}];
    forall c | 0 <= c < |news'|
      ensures FilledOne(from, order, news'[c], b, done', c)
    {
      assert FilledOne(from, order, news[c], b, done, c);
      forall m: nat
        ensures m in news'[c] <==> m < |order| && Back(order[m], from, b, done', c)
      {
        assert m < |order| && m != j ==> order[m] != order[j];
      }
    }
  }

  /** A written bucket lies ahead at p: the positions of its ids in the order. */
  ghost predicate BucketAhead(t: Tables, order: seq<nat>, base: Infos, s: seq<Item>, p: nat, b: nat) {
    && b < |t.news| && 0 <= t.nNew <= |order| && Distinct(order) && Indexed(order[..t.nNew], t.news)
    && (forall m: nat :: m in base <==> m < |order|)
    && var q := Ascending(t.news[b]);
    && p + |q| <= |s|
    && forall k :: 0 <= k < |q| ==>
         && q[k] in t.news[b] && q[k] in order[..t.nNew]
         && s[p + k] == Num(Index(order[..t.nNew], q[k]))
  }

  /** No entry of the bucket is in more buckets than an entry may be. */
  ghost predicate FewRefs(t: Tables, b: nat)
    requires b < |t.news|
  {
    forall x :: x in t.news[b] ==> Refs(t.news, x) <= NEW_BUCKETS_PER_ADDRESS
  }

  method ReadBucket(s: seq<Item>, p: nat, size: int, b: nat, matching: bool, info0: Infos, news0: seq<set<nat>>,
                    ghost t: Tables, ghost order: seq<nat>, ghost base: Infos)
    returns (ok: bool, info: Infos, news: seq<set<nat>>)
    requires matching ==> b < |news0|
    ensures |news| == |news0|
    ensures matching && BucketAhead(t, order, base, s, p, b) && FewRefs(t, b) && size == |t.news[b]|
            && BucketsTo(t, order, base, info0, news0, b, []) ==>
      ok && BucketsTo(t, order, base, info, news, b + 1, [])
    ensures !matching && BucketAhead(t, order, info0, s, p, b) && size == |t.news[b]| ==>
      ok && info == info0 && news == news0
  {
    hide Ascending, Index, BucketsTo;
    ghost var good := matching && BucketAhead(t, order, base, s, p, b) && FewRefs(t, b) && size == |t.news[b]|
                      && BucketsTo(t, order, base, info0, news0, b, []);
    ghost var other := !matching && BucketAhead(t, order, info0, s, p, b) && size == |t.news[b]|;
    ghost var q := if good || other then Ascending(t.news[b]) else [];
    ok, info, news := true, info0, news0;
    for k := 0 to Max0(size)
      invariant ok && |news| == |news0| && (good || other ==> k <= |q|)
      invariant good ==> BucketsTo(t, order, base, info, news, b, q[..k])
      invariant other ==> info == info0 && news == news0
    {
      assert good || other ==> s[p + k] == Num(Index(order[..t.nNew], q[k])) && order[s[p + k].n] == q[k];
      if good {
        BucketGrows(t, order, base, info, news, b, q[..k], s[p + k].n);
        assert q[..k] + [q[k]] == q[..k+1];
      }
      if p + k >= |s| || !s[p + k].Num? || s[p + k].n < 0 || s[p + k].n !in info {
        return false, info, news;
      }
      var j := s[p + k].n;
      if matching && info[j].refCount < NEW_BUCKETS_PER_ADDRESS {
        info := info[j := info[j].(refCount := info[j].refCount + 1)];
        news := news[b := news[b] + {j}];
      }
    }
    if good {
      assert q[..|q|] == q;
      BucketDone(t, order, base, info, news, b);
    }
  }

  /** Reading the new buckets; they are used only when there are as many as now. */
  method ReadBuckets(s: seq<Item>, start: nat, buckets: int, info0: Infos, news0: seq<set<nat>>,
                     ghost key: Key, ghost t: Tables, ghost order: seq<nat>)
    returns (ok: bool, info: Infos, news: seq<set<nat>>)
    requires |news0| == NEW_BUCKET_COUNT
    ensures EntriesRead(t, s, order, info0) && Inv(key, t, NONE, NONE) && news0 == seq(NEW_BUCKET_COUNT, _ => {})
            && buckets == |t.news| && start == 3 + |order| ==>
      ok && BucketsTo(t, order, info0, info, news, NEW_BUCKET_COUNT, [])
    ensures EntriesRead(t, s, order, info0) && buckets == |t.news| < NEW_BUCKET_COUNT && start == 3 + |order| ==>
      ok && info == info0 && news == news0
    ensures buckets > NEW_BUCKET_COUNT ==> !ok
  {
    hide EntriesRead, BucketsTo, BucketAhead, BucketItems, BucketItem, FewRefs;
    ghost var read := EntriesRead(t, s, order, info0) && buckets == |t.news| && start == 3 + |order|;
    ghost var good := read && Inv(key, t, NONE, NONE) && news0 == seq(NEW_BUCKET_COUNT, _ => {});
    if good { InvIndexed(key, t); }
    hide Inv;
    ok, info, news := true, info0, news0;
    var p := start;
    if read { BucketsStart(t, s, order, info0); }
    if good { BucketsEmpty(t, order, info0, news0); }
    for b := 0 to Max0(buckets)
      invariant ok && b <= |news| == NEW_BUCKET_COUNT && p >= 0
      invariant read ==> 0 <= t.nNew <= |order| && Indexed(order[..t.nNew], t.news)
      invariant read ==> p == start + |BucketItems(order[..t.nNew], t.news, b)|
      invariant good ==> BucketsTo(t, order, info0, info, news, b, [])
      invariant read && buckets != NEW_BUCKET_COUNT ==> info == info0 && news == news0
    {
      if b == NEW_BUCKET_COUNT {
        return false, info, news;
      }
      if read { BucketsNext(t, s, order, info0, b); }
      if good { InvFewRefs(key, t, b); }
      if p >= |s| || !s[p].Num? {
        return false, info, news;
      }
      var size := s[p].n;
      ok, info, news := ReadBucket(s, p + 1, size, b, buckets == NEW_BUCKET_COUNT, info, news, t, order, info0);
      if !ok {
        return;
      }
      p := p + 1 + Max0(size);
    }
  }

  /** A written stream from which all entries have been read. */
  ghost predicate EntriesRead(t: Tables, s: seq<Item>, order: seq<nat>, info: Infos) {
    && WrittenIn(t, s, order)
    && (forall m: nat :: m in info <==> m < |order|)
    && (forall m: nat :: m in info ==> info[m] == Expected(t.info[order[m]], m).(refCount := FirstCount(t, m)))
  }

  lemma EntriesParts(t: Tables, s: seq<Item>, order: seq<nat>, info: Infos)
    requires EntriesRead(t, s, order, info)
    ensures WrittenIn(t, s, order)
    ensures forall m: nat :: m in info <==> m < |order|
    ensures |t.news| == NEW_BUCKET_COUNT ==> forall m: nat :: m in info ==> info[m].refCount == 0
  {
    hide WrittenIn;
  }

  lemma BucketsStart(t: Tables, s: seq<Item>, order: seq<nat>, info: Infos)
    requires EntriesRead(t, s, order, info)
    ensures 0 <= t.nNew <= |order| && Indexed(order[..t.nNew], t.news)
    ensures |BucketItems(order[..t.nNew], t.news, 0)| == 0
    ensures |t.news| == NEW_BUCKET_COUNT ==> forall m: nat :: m in info ==> m < |order| && info[m].refCount == 0
  {
    hide EntriesRead, Indexed, WrittenIn, Distinct;
    EntriesParts(t, s, order, info);
    Framing(t, s, order);
  }

  lemma BucketsEmpty(t: Tables, order: seq<nat>, info: Infos, news: seq<set<nat>>)
    requires |t.news| == NEW_BUCKET_COUNT && news == seq(NEW_BUCKET_COUNT, _ => {})
    requires forall m: nat :: m in info ==> m < |order| && info[m].refCount == 0
    ensures BucketsTo(t, order, info, info, news, 0, [])
  {
    hide CountedTo, FilledTo;
    NothingCounted(t.news, order, info);
    NothingFilled(t.news, order, news);
  }

  lemma NothingCounted(from: seq<set<nat>>, order: seq<nat>, info: Infos)
    requires forall m: nat :: m in info ==> m < |order| && info[m].refCount == 0
    ensures CountedTo(from, order, info, info, 0, [])
  {
    assert from[..0] == [];
  }

  lemma NothingFilled(from: seq<set<nat>>, order: seq<nat>, news: seq<set<nat>>)
    requires |from| == NEW_BUCKET_COUNT && news == seq(NEW_BUCKET_COUNT, _ => {})
    ensures FilledTo(from, order, news, 0, [])
  {
  }

  lemma BucketsNext(t: Tables, s: seq<Item>, order: seq<nat>, info: Infos, b: nat)
    requires EntriesRead(t, s, order, info) && b < |t.news|
    ensures 0 <= t.nNew <= |order| && Indexed(order[..t.nNew], t.news)
    ensures var p := 3 + |order| + |BucketItems(order[..t.nNew], t.news, b)|;
      && p < |s| && s[p] == Num(|t.news[b]|) && BucketAhead(t, order, info, s, p + 1, b)
      && 3 + |order| + |BucketItems(order[..t.nNew], t.news, b + 1)| == p + 1 + |t.news[b]|
  {
    hide EntriesRead, WrittenIn, BucketItems, BucketItem, Ascending, Index, Distinct;
    EntriesParts(t, s, order, info);
    Framing(t, s, order);
    var o := order[..t.nNew];
    BucketFraming(o, t.news, b);
    var l, item, all := |BucketItems(o, t.news, b)|, BucketItem(o, t.news[b]), BucketItems(o, t.news, |t.news|);
    var p := 3 + |order| + l;
    SuffixAt(s, 3 + |order|, all, l, item);
    assert BucketAhead(t, order, info, s, p + 1, b) by {
      var q := Ascending(t.news[b]);
      forall k | 0 <= k < |q|
        ensures q[k] in t.news[b] && s[p + 1 + k] == Num(Index(o, q[k]))
      {
        assert s[p + (1 + k)] == item[1 + k];
      }
    }
  }

  lemma SuffixAt(s: seq<Item>, start: nat, all: seq<Item>, l: nat, item: seq<Item>)
    requires start <= |s| && s[start..] == all && l + |item| <= |all|
             && forall i :: 0 <= i < |item| ==> all[l + i] == item[i]
    ensures start + l + |item| <= |s| && forall i :: 0 <= i < |item| ==> s[start + l + i] == item[i]
  {
    forall i | 0 <= i < |item|
      ensures s[start + l + i] == item[i]
    {
      assert s[start..][l + i] == item[i];
    }
  }

  lemma InvFewRefs(key: Key, t: Tables, b: nat)
    requires Inv(key, t, NONE, NONE) && b < |t.news|
    ensures FewRefs(t, b)
  {
    hide RandomOk, AddrsOk, TriedOk, FreshOk, CountsOk, IdsOk, Refs;
    forall x | x in t.news[b]
      ensures Refs(t.news, x) <= NEW_BUCKETS_PER_ADDRESS
    {
      FreshHere(t.info, t.news, NONE, NONE, b, x);
      FreshAt(t.info, t.news, NONE, NONE, x);
    }
  }

  // ------------------------------------------------------------------ the round trip

  lemma BucketsWhole(key: Key, t: Tables, order: seq<nat>, base: Infos, info: Infos, news: seq<set<nat>>)
    requires Inv(key, t, NONE, NONE) && Ordering(t, order)
    requires forall m: nat :: m in base <==> m < |order|
    requires forall m: nat :: m in base ==> base[m] == Expected(t.info[order[m]], m).(refCount := FirstCount(t, m))
    requires |t.news| == NEW_BUCKET_COUNT && BucketsTo(t, order, base, info, news, NEW_BUCKET_COUNT, [])
    ensures info.Keys == base.Keys && forall m: nat :: m in info ==> info[m] == Expected(t.info[order[m]], m)
    ensures |news| == NEW_BUCKET_COUNT
    ensures forall b :: 0 <= b < |news| ==> SameSet(order, news[b], t.news[b])
  {
    hide RandomOk, AddrsOk, TriedOk, FreshOk, CountsOk, IdsOk, Refs;
    assert t.news[..NEW_BUCKET_COUNT] == t.news;
    forall m: nat | m in info
      ensures info[m] == Expected(t.info[order[m]], m)
    {
      assert m in base.Keys;
      FreshAt(t.info, t.news, NONE, NONE, order[m]);
    }
    forall b | 0 <= b < |news|
      ensures SameSet(order, news[b], t.news[b])
    {
      assert FilledOne(t.news, order, news[b], NEW_BUCKET_COUNT, [], b);
    }
  }

  lemma BucketSizes(order: seq<nat>, bucket: set<nat>, from: set<nat>)
    requires Distinct(order) && forall n: nat :: n in bucket ==> n < |order| && order[n] in from
    ensures |bucket| <= |from|
  {
    var q, r := Ascending(bucket), Ascending(from);
    hide Ascending;
    assert forall i :: 0 <= i < |q| ==> q[i] in bucket;
    var a := Through(order, q);
    assert forall i :: 0 <= i < |q| ==> a[i] in from && a[i] in r;
    Injected(a, r);
  }

  lemma RenumberedFresh(t: Tables, order: seq<nat>, info: Infos, news: seq<set<nat>>)
    requires FreshOk(t.info, t.news, NONE, NONE) && Ordering(t, order)
    requires forall n: nat :: n in info <==> n < |order|
    requires forall m: nat :: m in info ==> info[m] == Expected(t.info[order[m]], m)
    requires |news| == NEW_BUCKET_COUNT
    requires forall b :: 0 <= b < |news| ==> SameSet(order, news[b], t.news[b])
    ensures FreshOk(info, news, NONE, NONE)
  {
    FreshSize(t.info, t.news, NONE, NONE);
    hide Refs, RefOk;
    forall b | 0 <= b < |news|
      ensures |news[b]| <= NEW_BUCKET_SIZE
    {
      assert SameSet(order, news[b], t.news[b]);
      BucketSizes(order, news[b], t.news[b]);
    }
    forall b, n: nat | 0 <= b < |news| && n in news[b]
      ensures n in info && !info[n].inTried && n != NONE
    {
      assert SameSet(order, news[b], t.news[b]);
    }
    forall n | n in info
      ensures RefOk(info[n], n, news, NONE, NONE)
    {
      assert RefOk(t.info[order[n]], order[n], t.news, NONE, NONE);
      forall b | 0 <= b < |news|
        ensures n in news[b] <==> order[n] in t.news[b]
      {
        assert SameSet(order, news[b], t.news[b]);
      }
      RefsRenumbered(news, n, t.news, order[n]);
      RefMoved(t.info[order[n]], order[n], t.news, info[n], n, news);
    }
  }

  lemma RefMoved(i: Info, x: nat, news: seq<set<nat>>, j: Info, y: nat, news': seq<set<nat>>)
    requires RefOk(i, x, news, NONE, NONE) && Refs(news, x) == Refs(news', y)
    requires i.refCount == j.refCount && i.inTried == j.inTried
    ensures RefOk(j, y, news', NONE, NONE)
  {
  }

  lemma RangeSize(lo: nat, hi: nat, s: set<nat>)
    requires lo <= hi && forall n: nat :: n in s <==> lo <= n < hi
    ensures |s| == hi - lo
  {
    var q: seq<nat> := seq(hi - lo, i requires 0 <= i => lo + i);
    forall n: nat | n in s ensures n in q {
      assert q[n - lo] == n;
    }
    SeqSize(q, s);
  }

  lemma RenumberedCounts(t: Tables, order: seq<nat>, info: Infos)
    requires Ordering(t, order)
    requires forall n: nat :: n in info <==> n < |order|
    requires forall m: nat :: m in info ==> info[m] == Expected(t.info[order[m]], m)
    ensures CountsOk(info, t.nTried, t.nNew, NONE) && IdsOk(info, |order|)
  {
    RangeSize(0, t.nNew, NewIds(info, NONE));
    RangeSize(t.nNew, |order|, TriedIds(info));
  }

  lemma RenumberedTried(key: Key, t: Tables, order: seq<nat>, info: Infos, tried: seq<seq<nat>>, b: nat, n: nat)
    requires TriedOk(key, t.info, t.tried) && TriedOk(key, info, tried) && Ordering(t, order) && b < TRIED_BUCKET_COUNT
    requires forall n: nat :: n in info <==> n < |order|
    requires forall m: nat :: m in info ==>
               SameKey(info[m], t.info[order[m]]) && info[m].inTried == t.info[order[m]].inTried
    ensures n in tried[b] <==> n < |order| && order[n] in t.tried[b]
  {
    assert BucketOk(key, info, tried[b], b) && BucketOk(key, t.info, t.tried[b], b);
    assert n < |order| ==> key.TriedBucket(info[n]) == key.TriedBucket(t.info[order[n]]);
  }

  lemma ReadBack(key: Key, t: Tables, order: seq<nat>, base: Infos, addrs: map<nat, nat>, random: seq<nat>,
                 tried: seq<seq<nat>>, info: Infos, news: seq<set<nat>>)
    requires Inv(key, t, NONE, NONE) && Ordering(t, order) && RestoredTo(t, order, base, addrs, random, |order|)
    requires TriedOk(key, base, tried)
    requires |t.news| == NEW_BUCKET_COUNT && BucketsTo(t, order, base, info, news, NEW_BUCKET_COUNT, [])
    ensures var u := Tables(info, addrs, random, tried, news, t.nTried, t.nNew, |order|);
      Inv(key, u, NONE, NONE) && Renumbered(t, u, order)
  {
    hide RandomOk, AddrsOk, TriedOk, FreshOk, CountsOk, IdsOk, BucketsTo, Renumbered;
    RestoredParts(t, order, base, addrs, random);
    BucketsWhole(key, t, order, base, info, news);
    hide RestoredTo, Expected;
    RestoredKeeps(t, order, base, addrs, random, info);
    TriedFrame(key, base, info, tried);
    RenumberedFresh(t, order, info, news);
    RenumberedCounts(t, order, info);
    RenumberedSame(key, t, order, Tables(info, addrs, random, tried, news, t.nTried, t.nNew, |order|));
  }

  lemma RestoredParts(t: Tables, order: seq<nat>, base: Infos, addrs: map<nat, nat>, random: seq<nat>)
    requires Ordering(t, order) && RestoredTo(t, order, base, addrs, random, |order|)
    ensures forall m: nat :: m in base <==> m < |order|
    ensures forall m: nat :: m in base ==> base[m] == Expected(t.info[order[m]], m).(refCount := FirstCount(t, m))
  {
    hide RandomOk, AddrsOk;
  }

  lemma RestoredKeeps(t: Tables, order: seq<nat>, base: Infos, addrs: map<nat, nat>, random: seq<nat>, info: Infos)
    requires Ordering(t, order) && RestoredTo(t, order, base, addrs, random, |order|)
    requires info.Keys == base.Keys && forall m: nat :: m in info ==> info[m] == Expected(t.info[order[m]], m)
    ensures RandomOk(info, random) && AddrsOk(info, addrs)
    ensures forall m: nat :: m in info ==> SameKey(info[m], base[m]) && info[m].inTried == base[m].inTried
  {
    RandomFrame(base, info, random);
    AddrsFrame(base, info, addrs);
    hide RandomOk, AddrsOk;
  }

  lemma RenumberedSame(key: Key, t: Tables, order: seq<nat>, u: Tables)
    requires TriedOk(key, t.info, t.tried) && TriedOk(key, u.info, u.tried) && Ordering(t, order)
    requires forall m: nat :: m in u.info <==> m < |order|
    requires forall m: nat :: m in u.info ==> u.info[m] == Expected(t.info[order[m]], m)
    requires |u.news| == |t.news| && u.nNew == t.nNew && u.nTried == t.nTried
    requires forall b :: 0 <= b < |u.news| ==> SameSet(order, u.news[b], t.news[b])
    ensures Renumbered(t, u, order)
  {
    hide TriedOk;
    TriedSizes(key, u.info, u.tried);
    TriedSizes(key, t.info, t.tried);
    forall b | 0 <= b < |u.tried|
      ensures SameList(order, u.tried[b], t.tried[b])
    {
      forall n: nat
        ensures n in u.tried[b] <==> n < |order| && order[n] in t.tried[b]
      {
        RenumberedTried(key, t, order, u.info, u.tried, b, n);
      }
    }
  }

  lemma Heading(t: Tables, s: seq<Item>, order: seq<nat>)
    requires WrittenIn(t, s, order)
    ensures |s| >= 3 && s[0] == Num(t.nNew) && s[1] == Num(t.nTried) && s[2] == Num(|t.news|)
    ensures |order| == t.nNew + t.nTried && t.nNew >= 0 && t.nTried >= 0
    ensures Ordering(t, order)
  {
    Framing(t, s, order);
  }

  lemma InvSavable(key: Key, t: Tables)
    requires Inv(key, t, NONE, NONE)
    ensures Savable(key, t) && |t.news| == NEW_BUCKET_COUNT
  {
    hide RandomOk, AddrsOk, TriedOk, CountsOk, IdsOk;
  }

  lemma AllRead(t: Tables, s: seq<Item>, order: seq<nat>, base: Infos, addrs: map<nat, nat>, random: seq<nat>)
    requires WrittenIn(t, s, order) && RestoredTo(t, order, base, addrs, random, |order|)
    ensures EntriesRead(t, s, order, base)
  {
    RestoredParts(t, order, base, addrs, random);
  }

  // ------------------------------------------------------------------ another number of new buckets

  /** The tables with their ids renumbered and every new entry in the one bucket that is its home. */
  ghost predicate Rebuilt(key: Key, t: Tables, u: Tables, order: seq<nat>)
    requires Ordering(t, order)
  {
    && (forall n: nat :: n in u.info <==> n < |order|)
    && (forall n: nat :: n in u.info ==>
          u.info[n] == Expected(t.info[order[n]], n).(refCount := if n < t.nNew then 1 else 0))
    && |u.news| == NEW_BUCKET_COUNT && (forall b :: 0 <= b < |u.news| ==> AtHome(key, t, order, u.news[b], b, t.nNew))
    && |u.tried| == |t.tried| && (forall b :: 0 <= b < |u.tried| ==> SameList(order, u.tried[b], t.tried[b]))
    && u.nNew == t.nNew && u.nTried == t.nTried
    && RandomOk(u.info, u.random) && AddrsOk(u.info, u.addrs) && TriedOk(key, u.info, u.tried)
    && IdsOk(u.info, u.nextId)
  }

  lemma RebuildsBack(key: Key, t: Tables, order: seq<nat>, info: Infos, addrs: map<nat, nat>, random: seq<nat>,
                     tried: seq<seq<nat>>, news: seq<set<nat>>)
    requires Savable(key, t) && Ordering(t, order) && |t.news| != NEW_BUCKET_COUNT
    requires RestoredTo(t, order, info, addrs, random, |order|) && TriedOk(key, info, tried)
    requires HomesTo(key, t, order, news, t.nNew)
    ensures Rebuilt(key, t, Tables(info, addrs, random, tried, news, t.nTried, t.nNew, |order|), order)
  {
    hide RandomOk, AddrsOk, TriedOk, AtHome;
    TriedSizes(key, info, tried);
    TriedSizes(key, t.info, t.tried);
    forall b | 0 <= b < |tried|
      ensures SameList(order, tried[b], t.tried[b])
    {
      forall n: nat
        ensures n in tried[b] <==> n < |order| && order[n] in t.tried[b]
      {
        RenumberedTried(key, t, order, info, tried, b, n);
      }
    }
  }

  /** The new entries that have their home in bucket b. */
  function Residents(key: Key, info: Infos, b: nat): set<nat> {
    set x | x in info && !info[x].inTried && Home(key, info[x]) == b
  }

  /** What is rebuilt is valid exactly when no new bucket is home to more entries than it may hold. */
  lemma RebuiltIsValid(key: Key, t: Tables, u: Tables, order: seq<nat>)
    requires Ordering(t, order) && Rebuilt(key, t, u, order)
    ensures Inv(key, u, NONE, NONE)
            <==> forall b :: 0 <= b < NEW_BUCKET_COUNT ==> |Residents(key, t.info, b)| <= NEW_BUCKET_SIZE
  {
    hide RandomOk, AddrsOk, TriedOk, Residents;
    RebuiltHeld(key, t, u, order);
    RebuiltRefs(key, t, u, order);
    RangeSize(0, t.nNew, NewIds(u.info, NONE));
    RangeSize(t.nNew, |order|, TriedIds(u.info));
    hide HeldOk, RefsOk;
    forall b | 0 <= b < NEW_BUCKET_COUNT
      ensures |u.news[b]| == |Residents(key, t.info, b)|
    {
      RebuiltSize(key, t, u, order, b);
    }
  }

  lemma RebuiltSize(key: Key, t: Tables, u: Tables, order: seq<nat>, b: nat)
    requires Ordering(t, order) && Rebuilt(key, t, u, order) && b < NEW_BUCKET_COUNT
    ensures |u.news[b]| == |Residents(key, t.info, b)|
  {
    hide RandomOk, AddrsOk, TriedOk;
    assert AtHome(key, t, order, u.news[b], b, t.nNew);
    var bucket, from := u.news[b], Residents(key, t.info, b);
    assert forall n: nat :: n in bucket ==> n < |order| && order[n] in from;
    BucketSizes(order, bucket, from);
    forall x | x in from
      ensures x in order && Index(order, x) in bucket
    {
      assert t.info[order[Index(order, x)]] == t.info[x];
    }
    hide AtHome, Residents, Ordering;
    ResidentSizes(order, bucket, from);
  }

  lemma ResidentSizes(order: seq<nat>, bucket: set<nat>, from: set<nat>)
    requires forall x :: x in from ==> x in order && Index(order, x) in bucket
    ensures |from| <= |bucket|
  {
    hide Ascending, Index;
    var q := Ascending(from);
    assert forall i :: 0 <= i < |q| ==> q[i] in from;
    var a := Indexes(order, q);
    forall i, j | 0 <= i < j < |a|
      ensures a[i] != a[j]
    {
      assert q[i] != q[j];
    }
    forall i | 0 <= i < |a|
      ensures a[i] in Ascending(bucket)
    {
      assert a[i] in bucket;
    }
    Injected(a, Ascending(bucket));
  }

  function Indexes(order: seq<nat>, q: seq<nat>): (r: seq<nat>)
    requires forall i :: 0 <= i < |q| ==> q[i] in order
    ensures |r| == |q| && forall i :: 0 <= i < |q| ==> r[i] == Index(order, q[i])
  {
    if q == [] then [] else
      var k := |q| - 1;
      Indexes(order, q[..k]) + [Index(order, q[k])]
  }

  lemma RebuiltHeld(key: Key, t: Tables, u: Tables, order: seq<nat>)
    requires Ordering(t, order) && Rebuilt(key, t, u, order)
    ensures HeldOk(u.info, u.news, NONE)
  {
    hide RandomOk, AddrsOk, TriedOk;
    forall b, n: nat | 0 <= b < |u.news| && n in u.news[b]
      ensures n in u.info && !u.info[n].inTried && n != NONE
    {
      assert AtHome(key, t, order, u.news[b], b, t.nNew);
    }
  }

  lemma RebuiltRefs(key: Key, t: Tables, u: Tables, order: seq<nat>)
    requires Ordering(t, order) && Rebuilt(key, t, u, order)
    ensures RefsOk(u.info, u.news, NONE, NONE)
  {
    hide RandomOk, AddrsOk, TriedOk, Refs;
    forall n: nat | n in u.info
      ensures RefOk(u.info[n], n, u.news, NONE, NONE)
    {
      forall b | 0 <= b < |u.news|
        ensures n in u.news[b] <==> n < t.nNew && Home(key, t.info[order[n]]) == b
      {
        assert AtHome(key, t, order, u.news[b], b, t.nNew);
      }
      if n < t.nNew {
        RefsInOne(u.news, n, Home(key, t.info[order[n]]));
      } else {
        RefsZero(u.news, n);
      }
    }
  }

  lemma {:induction false} RefsInOne(news: seq<set<nat>>, x: nat, h: nat)
    requires forall b :: 0 <= b < |news| ==> (x in news[b] <==> b == h)
    ensures Refs(news, x) == if h < |news| then 1 else 0
  {
    if news != [] {
      RefsInOne(news[..|news|-1], x, h);
    }
  }

  // ------------------------------------------------------------------ the reader and the round trip

  /** The reader rebuilds from a written stream the same tables, up to the renumbering.  From a stream of a
      build with fewer new buckets it rebuilds the new buckets too.  More of them it would look up past the
      end of its own: None stands for what is undefined then, as for a stream that ends too soon. */
  method Read(key: Key, s: seq<Item>, ghost t: Tables, ghost order: seq<nat>) returns (r: Option<Tables>)
    ensures Inv(key, t, NONE, NONE) && WrittenIn(t, s, order) ==>
      r.Some? && Inv(key, r.value, NONE, NONE) && Renumbered(t, r.value, order)
    ensures Savable(key, t) && WrittenIn(t, s, order) && |t.news| < NEW_BUCKET_COUNT ==>
      r.Some? && Rebuilt(key, t, r.value, order)
    ensures |s| >= 3 && s[2].Num? && s[2].n > NEW_BUCKET_COUNT ==> r.None?
    ensures WrittenIn(t, s, order) && |t.news| > NEW_BUCKET_COUNT ==> r.None?
  {
    ghost var written := WrittenIn(t, s, order) && Savable(key, t);
    ghost var good := Inv(key, t, NONE, NONE) && WrittenIn(t, s, order);
    if good { InvSavable(key, t); }
    hide Inv, Savable, WrittenIn, RestoredTo, HomesTo, TriedOk, BucketsTo, Renumbered, Rebuilt, Ordering, EntriesRead,
         AddrsOk;
    if WrittenIn(t, s, order) { Heading(t, s, order); }
    if written { SavableParts(key, t); }
    if |s| < 3 || !s[0].Num? || !s[1].Num? || !s[2].Num? {
      return None;
    }
    var nNew, nTried, buckets := s[0].n, s[1].n, s[2].n;
    var ok, info, addrs, random, news := ReadNew(key, s, nNew, buckets, t, order);
    if !ok {
      return None;
    }
    ghost var homes := news;
    var tried, idCount, lost;
    ok, info, addrs, random, tried, idCount, lost :=
      ReadTried(key, s, nTried, info, addrs, random, Max0(nNew), t, order);
    if !ok {
      return None;
    }
    ghost var base := info;
    if written { AllRead(t, s, order, base, addrs, random); }
    if good { HomesNone(key, t, order, news); }
    ok, info, news := ReadBuckets(s, 3 + Max0(nNew) + Max0(nTried), buckets, info, news, key, t, order);
    if !ok {
      return None;
    }
    if good {
      ReadBack(key, t, order, base, addrs, random, tried, info, news);
    } else if written && |t.news| != NEW_BUCKET_COUNT {
      RebuildsBack(key, t, order, base, addrs, random, tried, news);
    }
    r := Some(Tables(info, addrs, random, tried, news, nTried - lost, nNew, idCount));
  }

  lemma SavableParts(key: Key, t: Tables)
    requires Savable(key, t)
    ensures AddrsOk(t.info, t.addrs)
  {
  }

  lemma HomesNone(key: Key, t: Tables, order: seq<nat>, news: seq<set<nat>>)
    requires Ordering(t, order) && t.nNew <= |order| && t.nNew >= 0 && HomesTo(key, t, order, news, t.nNew)
    requires |t.news| == NEW_BUCKET_COUNT
    ensures news == seq(NEW_BUCKET_COUNT, _ => {})
  {
  }

  /** Writing a valid address manager and reading it back loses nothing but the times of the last
      tries, large attempt counts, the ids and the random order. */
  method SaveAndLoad(key: Key, t: Tables) returns (u: Tables)
    requires Inv(key, t, NONE, NONE)
    ensures Inv(key, u, NONE, NONE) && (TimesOk(t.info) ==> TimesOk(u.info))
    ensures Ordering(t, NewOrder(t) + TriedOrder(t)) && Renumbered(t, u, NewOrder(t) + TriedOrder(t))
  {
    hide Inv, WrittenIn, Renumbered, Ordering, NewOrder, TriedOrder, TimesOk;
    OrderFacts(key, t);
    var s := Write(t, key);
    var r := Read(key, s, t, NewOrder(t) + TriedOrder(t));
    u := r.value;
    RenumberedTimes(t, u, NewOrder(t) + TriedOrder(t));
  }

  lemma RenumberedTimes(t: Tables, u: Tables, order: seq<nat>)
    requires Ordering(t, order) && Renumbered(t, u, order)
    ensures TimesOk(t.info) ==> TimesOk(u.info)
  {
    if TimesOk(t.info) {
      forall n | n in u.info ensures GoodTimes(u.info[n]) {
        assert GoodTimes(t.info[order[n]]);
      }
    }
  }
}
