/** The linked tables of the address manager, and the small changes its methods make. */
module AddrTables {

  const TRIED_BUCKET_COUNT := 64
  const TRIED_BUCKET_SIZE := 64
  const NEW_BUCKET_COUNT := 256
  const NEW_BUCKET_SIZE := 64
  const NEW_BUCKETS_PER_ADDRESS := 4

  /** CAddrInfo: `addr` is the network address without the port. */
  datatype Info = Info(addr: nat, port: nat, services: set<nat>, source: nat, time: int,
                       lastTry: int, lastSuccess: int, attempts: int,
                       refCount: int, inTried: bool, randomPos: int)

  /** The keyed hashes that choose buckets, and the test for public addresses. */
  datatype Key = Key(tried: (nat, nat) -> nat, news: (nat, nat) -> nat, routable: nat -> bool)
  {
    function TriedBucket(i: Info): (b: nat)
      ensures b < TRIED_BUCKET_COUNT
    {
      tried(i.addr, i.port) % TRIED_BUCKET_COUNT
    }

    function NewBucket(i: Info, source: nat): (b: nat)
      ensures b < NEW_BUCKET_COUNT
    {
      news(i.addr, source) % NEW_BUCKET_COUNT
    }
  }

  /** The bucket is the remainder of the hash. */
  lemma BucketIsRemainder(key: Key, i: Info, source: nat)
    ensures exists q :: key.tried(i.addr, i.port) == 64 * q + key.TriedBucket(i)
    ensures exists q :: key.news(i.addr, source) == 256 * q + key.NewBucket(i, source)
  {
    var t, n := key.tried(i.addr, i.port), key.news(i.addr, source);
    assert t == 64 * (t / 64) + key.TriedBucket(i);
    assert n == 256 * (n / 256) + key.NewBucket(i, source);
  }

  type Infos = map<nat, Info>

  datatype Tables = Tables(info: Infos, addrs: map<nat, nat>, random: seq<nat>,
                           tried: seq<seq<nat>>, news: seq<set<nat>>,
                           nTried: int, nNew: int, nextId: nat)

  const NONE := -1

  function Max0(n: int): nat { if n < 0 then 0 else n }

  function Tick(c: bool): int { if c then 1 else 0 }

  // ------------------------------------------------------------------ reference counts

  /** In how many of the new buckets the id is. */
  function Refs(news: seq<set<nat>>, id: nat): nat {
    if news == [] then 0
    else Refs(news[..|news|-1], id) + if id in news[|news|-1] then 1 else 0
  }

  lemma {:induction false} RefsUpdate(news: seq<set<nat>>, b: nat, s: set<nat>, id: nat)
    requires b < |news|
    ensures Refs(news[b := s], id)
            == Refs(news, id) - (if id in news[b] then 1 else 0) + (if id in s then 1 else 0)
    ensures id in news[b] ==> Refs(news, id) >= 1
  {
    var k := |news| - 1;
    if b < k {
      RefsUpdate(news[..k], b, s, id);
      assert news[b := s][..k] == news[..k][b := s];
    } else {
      assert news[b := s][..k] == news[..k];
    }
  }

  lemma {:induction false} RefsZero(news: seq<set<nat>>, id: nat)
    ensures Refs(news, id) == 0 <==> forall b :: 0 <= b < |news| ==> id !in news[b]
  {
    if news != [] {
      RefsZero(news[..|news|-1], id);
    }
  }

  lemma {:induction false} RefsUpTo(news: seq<set<nat>>, n: nat, x: nat)
    requires n <= |news|
    ensures Refs(news[..n], x) <= Refs(news, x)
    ensures n < |news| ==> Refs(news[..n+1], x) == Refs(news[..n], x) + Tick(x in news[n])
  {
    if n < |news| {
      var k := |news| - 1;
      RefsUpTo(news[..k], n, x);
      assert news[..k][..n] == news[..n];
      assert news[..n+1][..n] == news[..n];
    } else {
      assert news[..n] == news;
    }
  }

  // ------------------------------------------------------------------ the invariant, as Check_ tests it

  /** vRandom lists every id once, and every entry knows its place there. */
  predicate RandomOk(info: Infos, random: seq<nat>) {
    && (forall i :: 0 <= i < |random| ==> random[i] in info && info[random[i]].randomPos == i)
    && (forall id :: id in info ==> 0 <= info[id].randomPos < |random| && random[info[id].randomPos] == id)
  }

  /** mapAddr is the inverse of the address field. */
  predicate AddrsOk(info: Infos, addrs: map<nat, nat>) {
    && (forall id :: id in info ==> info[id].addr in addrs && addrs[info[id].addr] == id)
    && (forall a :: a in addrs ==> addrs[a] in info && info[addrs[a]].addr == a)
  }

  /** The tried buckets hold exactly the tried entries, each once and in its own bucket. */
  predicate TriedOk(key: Key, info: Infos, tried: seq<seq<nat>>) {
    && |tried| == TRIED_BUCKET_COUNT
    && (forall b :: 0 <= b < |tried| ==> BucketOk(key, info, tried[b], b))
    && (forall id :: id in info && info[id].inTried ==> id in tried[key.TriedBucket(info[id])])
  }

  predicate BucketOk(key: Key, info: Infos, bucket: seq<nat>, b: nat) {
    && |bucket| <= TRIED_BUCKET_SIZE
    && (forall k :: 0 <= k < |bucket| ==>
          bucket[k] in info && info[bucket[k]].inTried && key.TriedBucket(info[bucket[k]]) == b)
    && (forall j, k :: 0 <= j < k < |bucket| ==> bucket[j] != bucket[k])
  }

  /** The new buckets hold only new entries, and the reference counts say in how many an
      entry is.  `pending` has been counted once more than it is there, `limbo` is in no
      table at the moment. */
  predicate FreshOk(info: Infos, news: seq<set<nat>>, pending: int, limbo: int) {
    && |news| == NEW_BUCKET_COUNT
    && (forall b :: 0 <= b < |news| ==> |news[b]| <= NEW_BUCKET_SIZE)
    && HeldOk(info, news, limbo)
    && RefsOk(info, news, pending, limbo)
  }

  predicate HeldOk(info: Infos, news: seq<set<nat>>, limbo: int) {
    forall b, id :: 0 <= b < |news| && id in news[b] ==> id in info && !info[id].inTried && id != limbo
  }

  predicate RefsOk(info: Infos, news: seq<set<nat>>, pending: int, limbo: int) {
    forall id :: id in info ==> RefOk(info[id], id, news, pending, limbo)
  }

  predicate RefOk(i: Info, id: nat, news: seq<set<nat>>, pending: int, limbo: int) {
    && i.refCount == Refs(news, id) + (if id == pending then 1 else 0)
    && (i.inTried ==> i.refCount == 0)
    && (!i.inTried && id != limbo ==> 1 <= i.refCount <= NEW_BUCKETS_PER_ADDRESS)
    && (id == limbo ==> !i.inTried && i.refCount == 0)
  }

  function TriedIds(info: Infos): set<nat> {
    set id | id in info && info[id].inTried
  }

  function NewIds(info: Infos, limbo: int): set<nat> {
    set id | id in info && !info[id].inTried && id != limbo
  }

  predicate CountsOk(info: Infos, nTried: int, nNew: int, limbo: int) {
    nTried == |TriedIds(info)| && nNew == |NewIds(info, limbo)|
  }

  predicate IdsOk(info: Infos, nextId: nat) {
    forall id :: id in info ==> id < nextId
  }

  /** The times Check_ asks for.  They hold as long as callers pass sensible times; nothing else
      depends on them. */
  predicate TimesOk(info: Infos) {
    forall id :: id in info ==> GoodTimes(info[id])
  }

  predicate GoodTimes(i: Info) {
    i.lastTry >= 0 && i.lastSuccess >= 0 && (i.inTried ==> i.lastSuccess != 0)
  }

  predicate Inv(key: Key, t: Tables, pending: int, limbo: int) {
    && RandomOk(t.info, t.random)
    && AddrsOk(t.info, t.addrs)
    && TriedOk(key, t.info, t.tried)
    && FreshOk(t.info, t.news, pending, limbo)
    && CountsOk(t.info, t.nTried, t.nNew, limbo)
    && IdsOk(t.info, t.nextId)
  }

  // ------------------------------------------------------------------ vRandom

  /** SwapRandom on values. */
  function SwapInfo(info: Infos, random: seq<nat>, i: nat, j: nat): Infos
    requires i < |random| && j < |random| && random[i] in info && random[j] in info
  {
    if i == j then info
    else info[random[i] := info[random[i]].(randomPos := j)][random[j] := info[random[j]].(randomPos := i)]
  }

  function SwapRandom(random: seq<nat>, i: nat, j: nat): seq<nat>
    requires i < |random| && j < |random|
  {
    random[i := random[j]][j := random[i]]
  }

  /** Two tables that differ in random positions only. */
  predicate SameButPos(info: Infos, info': Infos) {
    && info.Keys == info'.Keys
    && forall id :: id in info ==> info'[id] == info[id].(randomPos := info'[id].randomPos)
  }

  lemma SwapKeeps(info: Infos, random: seq<nat>, i: nat, j: nat)
    requires RandomOk(info, random) && i < |random| && j < |random|
    ensures RandomOk(SwapInfo(info, random, i, j), SwapRandom(random, i, j))
    ensures SameButPos(info, SwapInfo(info, random, i, j))
  {
    var info', random' := SwapInfo(info, random, i, j), SwapRandom(random, i, j);
    if i == j {
      assert random' == random;
    } else {
      forall k | 0 <= k < |random'|
        ensures random'[k] in info' && info'[random'[k]].randomPos == k
      {
        assert info[random[k]].randomPos == k;
      }
      forall id | id in info'
        ensures 0 <= info'[id].randomPos < |random'| && random'[info'[id].randomPos] == id
      {
        assert random[info[id].randomPos] == id;
      }
    }
  }

  // ------------------------------------------------------------------ what each table looks at

  lemma RandomFrame(info: Infos, info': Infos, random: seq<nat>)
    requires RandomOk(info, random) && info.Keys == info'.Keys
    requires forall id :: id in info ==> info'[id].randomPos == info[id].randomPos
    ensures RandomOk(info', random)
  {
    assert forall id :: id in info' ==> random[info[id].randomPos] == id;
  }

  lemma RandomPush(info: Infos, random: seq<nat>, id: nat, i: Info)
    requires RandomOk(info, random) && id !in info && i.randomPos == |random|
    ensures RandomOk(info[id := i], random + [id])
  {
  }

  lemma RandomPop(info: Infos, random: seq<nat>)
    requires RandomOk(info, random) && random != []
    ensures RandomOk(info - {random[|random|-1]}, random[..|random|-1])
  {
  }

  lemma AddrsFrame(info: Infos, info': Infos, addrs: map<nat, nat>)
    requires AddrsOk(info, addrs) && info.Keys == info'.Keys
    requires forall id :: id in info ==> info'[id].addr == info[id].addr
    ensures AddrsOk(info', addrs)
  {
    assert forall id :: id in info' ==> info'[id].addr in addrs && addrs[info[id].addr] == id;
    assert forall a :: a in addrs ==> addrs[a] in info' && info[addrs[a]].addr == a;
  }

  /** The tried buckets look at tried entries only. */
  lemma TriedFrame(key: Key, info: Infos, info': Infos, tried: seq<seq<nat>>)
    requires TriedOk(key, info, tried)
    requires forall id :: id in info && info[id].inTried ==>
               id in info' && info'[id].inTried && SameKey(info[id], info'[id])
    requires forall id :: id in info' && info'[id].inTried ==> id in info && info[id].inTried
    ensures TriedOk(key, info', tried)
  {
    forall b | 0 <= b < |tried|
      ensures BucketOk(key, info', tried[b], b)
    {
      assert BucketOk(key, info, tried[b], b);
      forall k | 0 <= k < |tried[b]|
        ensures tried[b][k] in info' && info'[tried[b][k]].inTried
                && key.TriedBucket(info'[tried[b][k]]) == b
      {
        assert SameKey(info[tried[b][k]], info'[tried[b][k]]);
      }
    }
    forall id | id in info' && info'[id].inTried
      ensures id in tried[key.TriedBucket(info'[id])]
    {
      assert SameKey(info[id], info'[id]);
    }
  }

  predicate SameKey(i: Info, j: Info) {
    i.addr == j.addr && i.port == j.port
  }

  lemma FreshFrame(info: Infos, info': Infos, news: seq<set<nat>>, pending: int, limbo: int)
    requires FreshOk(info, news, pending, limbo) && info.Keys == info'.Keys
    requires forall id :: id in info ==>
               info'[id].refCount == info[id].refCount && info'[id].inTried == info[id].inTried
    ensures FreshOk(info', news, pending, limbo)
  {
    HeldFrame(info, info', news, limbo);
    RefsFrame(info, info', news, pending, limbo);
    hide HeldOk, RefsOk;
  }

  lemma HeldFrame(info: Infos, info': Infos, news: seq<set<nat>>, limbo: int)
    requires HeldOk(info, news, limbo) && info.Keys == info'.Keys
    requires forall id :: id in info ==> info'[id].inTried == info[id].inTried
    ensures HeldOk(info', news, limbo)
  {
    forall b, id | 0 <= b < |news| && id in news[b]
      ensures id in info' && !info'[id].inTried && id != limbo
    {
      assert id in info && id in info.Keys;
    }
  }

  lemma RefsFrame(info: Infos, info': Infos, news: seq<set<nat>>, pending: int, limbo: int)
    requires RefsOk(info, news, pending, limbo) && info.Keys == info'.Keys
    requires forall id :: id in info ==>
               info'[id].refCount == info[id].refCount && info'[id].inTried == info[id].inTried
    ensures RefsOk(info', news, pending, limbo)
  {
    hide Refs, RefOk;
    forall id | id in info'
      ensures RefOk(info'[id], id, news, pending, limbo)
    {
      assert id in info.Keys;
      RefFrame(info[id], info'[id], id, news, pending, limbo);
    }
  }

  lemma RefFrame(i: Info, j: Info, id: nat, news: seq<set<nat>>, pending: int, limbo: int)
    requires RefOk(i, id, news, pending, limbo) && i.refCount == j.refCount && i.inTried == j.inTried
    ensures RefOk(j, id, news, pending, limbo)
  {
  }

  lemma {:induction false} RefsRenumbered(news: seq<set<nat>>, x: nat, news': seq<set<nat>>, y: nat)
    requires |news| == |news'|
    requires forall b :: 0 <= b < |news| ==> (x in news[b] <==> y in news'[b])
    ensures Refs(news, x) == Refs(news', y)
  {
    if news != [] {
      var k := |news| - 1;
      assert x in news[k] <==> y in news'[k];
      RefsRenumbered(news[..k], x, news'[..k], y);
    }
  }

  /** Only what is said about `id` changes. */
  predicate Elsewhere(news: seq<set<nat>>, news': seq<set<nat>>, id: nat) {
    && |news| == |news'|
    && (forall b :: 0 <= b < |news| ==> news[b] - {id} == news'[b] - {id} && |news'[b]| <= NEW_BUCKET_SIZE)
  }

  predicate OnlyEntry(info: Infos, info': Infos, id: nat) {
    && info.Keys - {id} == info'.Keys - {id}
    && (forall x :: x in info' && x != id ==> x in info && info'[x] == info[x].(randomPos := info'[x].randomPos))
  }

  predicate OnlyMark(m: int, m': int, id: nat) {
    ((m == NONE || m == id) && (m' == NONE || m' == id)) || m == m'
  }

  lemma ElsewhereRefs(news: seq<set<nat>>, news': seq<set<nat>>, id: nat, x: nat)
    requires Elsewhere(news, news', id) && x != id
    ensures Refs(news', x) == Refs(news, x)
  {
    forall b | 0 <= b < |news|
      ensures x in news[b] <==> x in news'[b]
    {
      assert x in news[b] - {id} <==> x in news'[b] - {id};
    }
    RefsRenumbered(news, x, news', x);
  }

  lemma FreshOne(info: Infos, info': Infos, news: seq<set<nat>>, news': seq<set<nat>>, id: nat,
                 pending: int, limbo: int, pending': int, limbo': int)
    requires FreshOk(info, news, pending, limbo)
    requires Elsewhere(news, news', id) && OnlyEntry(info, info', id)
    requires OnlyMark(pending, pending', id) && OnlyMark(limbo, limbo', id)
    requires if id in info' then RefOk(info'[id], id, news', pending', limbo') else Refs(news', id) == 0
    requires id == pending' ==> id in info' && !info'[id].inTried && id != limbo'
    ensures FreshOk(info', news', pending', limbo')
  {
    RefsZero(news', id);
    HeldOne(info, info', news, news', id, limbo, limbo');
    RefsOne(info, info', news, news', id, pending, limbo, pending', limbo');
    hide HeldOk, RefsOk, Refs;
  }

  lemma HeldOne(info: Infos, info': Infos, news: seq<set<nat>>, news': seq<set<nat>>, id: nat, limbo: int, limbo': int)
    requires HeldOk(info, news, limbo)
    requires Elsewhere(news, news', id) && OnlyEntry(info, info', id) && OnlyMark(limbo, limbo', id)
    requires (exists b :: 0 <= b < |news'| && id in news'[b]) ==> id in info' && !info'[id].inTried && id != limbo'
    ensures HeldOk(info', news', limbo')
  {
    forall b, x | 0 <= b < |news'| && x in news'[b]
      ensures x in info' && !info'[x].inTried && x != limbo'
    {
      if x != id {
        assert x in news'[b] - {id} && x in news[b];
        assert x in info && x in info.Keys - {id};
      }
    }
  }

  lemma RefsOne(info: Infos, info': Infos, news: seq<set<nat>>, news': seq<set<nat>>, id: nat,
                pending: int, limbo: int, pending': int, limbo': int)
    requires RefsOk(info, news, pending, limbo)
    requires Elsewhere(news, news', id) && OnlyEntry(info, info', id)
    requires OnlyMark(pending, pending', id) && OnlyMark(limbo, limbo', id)
    requires id in info' ==> RefOk(info'[id], id, news', pending', limbo')
    ensures RefsOk(info', news', pending', limbo')
  {
    hide Refs, Elsewhere;
    forall x | x in info'
      ensures RefOk(info'[x], x, news', pending', limbo')
    {
      if x != id {
        assert x in info && RefOk(info[x], x, news, pending, limbo);
        ElsewhereRefs(news, news', id, x);
      }
    }
  }

  /** The two counters after a change of one entry. */
  lemma CountsOne(info: Infos, info': Infos, id: nat, limbo: int, limbo': int)
    requires OnlyEntry(info, info', id) && OnlyMark(limbo, limbo', id)
    ensures |TriedIds(info')| - Tick(id in TriedIds(info')) == |TriedIds(info)| - Tick(id in TriedIds(info))
    ensures |NewIds(info', limbo')| - Tick(id in NewIds(info', limbo'))
            == |NewIds(info, limbo)| - Tick(id in NewIds(info, limbo))
  {
    forall x | x != id
      ensures x in TriedIds(info) <==> x in TriedIds(info')
      ensures x in NewIds(info, limbo) <==> x in NewIds(info', limbo')
    {
      assert x in info.Keys - {id} <==> x in info'.Keys - {id};
    }
    SameWithout(TriedIds(info), TriedIds(info'), id);
    SameWithout(NewIds(info, limbo), NewIds(info', limbo'), id);
  }

  lemma SameWithout(s: set<nat>, s': set<nat>, id: nat)
    requires forall x :: x != id ==> (x in s <==> x in s')
    ensures |s'| - Tick(id in s') == |s| - Tick(id in s)
  {
    assert s - {id} == s' - {id};
    assert |s - {id}| == |s| - Tick(id in s);
    assert |s' - {id}| == |s'| - Tick(id in s');
  }

  lemma FreshAt(info: Infos, news: seq<set<nat>>, pending: int, limbo: int, id: nat)
    requires FreshOk(info, news, pending, limbo) && id in info
    ensures |news| == NEW_BUCKET_COUNT && RefOk(info[id], id, news, pending, limbo)
    ensures forall b :: 0 <= b < |news| && id in news[b] ==> !info[id].inTried
    ensures forall b :: 0 <= b < |news| ==> |news[b]| <= NEW_BUCKET_SIZE
  {
    hide Refs, RefOk;
  }

  lemma RandomSize(info: Infos, random: seq<nat>)
    requires RandomOk(info, random)
    ensures |random| == |info| && info.Keys == (set x | x in random)
  {
    SeqSize(random, info.Keys);
  }

  lemma SeqSize(s: seq<nat>, xs: set<nat>)
    requires forall i, j :: 0 <= i < j < |s| ==> s[i] != s[j]
    requires forall x :: x in s <==> x in xs
    ensures |s| == |xs|
  {
    if s != [] {
      var k := |s| - 1;
      assert forall x :: x in s[..k] <==> x in xs - {s[k]} by {
        assert s == s[..k] + [s[k]];
      }
      SeqSize(s[..k], xs - {s[k]});
    }
  }

  lemma RandomHas(info: Infos, random: seq<nat>, k: nat)
    requires RandomOk(info, random) && k < |random|
    ensures random[k] in info && info[random[k]].randomPos == k
  {
  }

  lemma RandomDistinct(info: Infos, random: seq<nat>)
    requires RandomOk(info, random)
    ensures forall j, k :: 0 <= j < k < |random| ==> random[j] != random[k]
  {
  }

  lemma RandomAt(info: Infos, random: seq<nat>, id: nat)
    requires RandomOk(info, random) && id in info
    ensures 0 <= info[id].randomPos < |random| && random[info[id].randomPos] == id
  {
  }

  lemma SwapLast(info: Infos, random: seq<nat>, id: nat)
    requires RandomOk(info, random) && id in info && random != []
    ensures var p, last := info[id].randomPos, |random| - 1;
            0 <= p <= last && |SwapRandom(random, p, last)| == |random| && SwapRandom(random, p, last)[last] == id
  {
  }

  lemma TriedSizes(key: Key, info: Infos, tried: seq<seq<nat>>)
    requires TriedOk(key, info, tried)
    ensures |tried| == TRIED_BUCKET_COUNT
    ensures forall b :: 0 <= b < |tried| ==> |tried[b]| <= TRIED_BUCKET_SIZE
  {
    assert forall b :: 0 <= b < |tried| ==> BucketOk(key, info, tried[b], b);
  }

  lemma TriedAll(key: Key, info: Infos, tried: seq<seq<nat>>, k: nat)
    requires TriedOk(key, info, tried) && k < |tried|
    ensures forall j :: 0 <= j < |tried[k]| ==> tried[k][j] in info
  {
    assert BucketOk(key, info, tried[k], k);
  }

  lemma TriedDistinct(key: Key, info: Infos, tried: seq<seq<nat>>, k: nat)
    requires TriedOk(key, info, tried) && k < |tried|
    ensures forall i, j :: 0 <= i < j < |tried[k]| ==> tried[k][i] != tried[k][j]
  {
    assert BucketOk(key, info, tried[k], k);
  }

  lemma TriedHere(key: Key, info: Infos, tried: seq<seq<nat>>, k: nat, id: nat)
    requires TriedOk(key, info, tried) && k < |tried| && id in tried[k]
    ensures id in info && info[id].inTried
  {
    var pos :| 0 <= pos < |tried[k]| && tried[k][pos] == id;
    TriedAt(key, info, tried, k, pos);
  }

  lemma AddrsAt(info: Infos, addrs: map<nat, nat>, a: nat)
    requires AddrsOk(info, addrs) && a in addrs
    ensures addrs[a] in info && info[addrs[a]].addr == a
  {
  }

  lemma FreshHere(info: Infos, news: seq<set<nat>>, pending: int, limbo: int, b: nat, id: nat)
    requires FreshOk(info, news, pending, limbo) && b < |news| && id in news[b]
    ensures id in info && !info[id].inTried
  {
  }

  lemma FreshUnknown(info: Infos, news: seq<set<nat>>, pending: int, limbo: int, id: nat)
    requires FreshOk(info, news, pending, limbo) && id !in info
    ensures Refs(news, id) == 0 && Elsewhere(news, news, id)
  {
    RefsZero(news, id);
  }

  lemma FreshUnknownId(t: Tables)
    requires IdsOk(t.info, t.nextId) && FreshOk(t.info, t.news, NONE, NONE)
    ensures t.nextId !in t.info && forall b :: 0 <= b < |t.news| ==> t.nextId !in t.news[b]
  {
  }

  lemma FreshSize(info: Infos, news: seq<set<nat>>, pending: int, limbo: int)
    requires FreshOk(info, news, pending, limbo)
    ensures |news| == NEW_BUCKET_COUNT
  {
  }

  lemma AddrsFree(info: Infos, addrs: map<nat, nat>, a: nat)
    requires AddrsOk(info, addrs) && forall id :: id in info ==> info[id].addr != a
    ensures a !in addrs
  {
  }

  lemma AddrsOf(info: Infos, addrs: map<nat, nat>, id: nat)
    requires AddrsOk(info, addrs) && id in info
    ensures info[id].addr in addrs && addrs[info[id].addr] == id
  {
  }

  lemma TriedAt(key: Key, info: Infos, tried: seq<seq<nat>>, k: nat, pos: nat)
    requires TriedOk(key, info, tried) && k < |tried| && pos < |tried[k]|
    ensures tried[k][pos] in info && info[tried[k][pos]].inTried
  {
    assert BucketOk(key, info, tried[k], k);
  }

  // ------------------------------------------------------------------ the steps of the methods

  /** Shuffling vRandom. */
  lemma SamePosKeeps(key: Key, t: Tables, info': Infos, random': seq<nat>, pending: int, limbo: int)
    requires Inv(key, t, pending, limbo) && SameButPos(t.info, info') && RandomOk(info', random')
    ensures Inv(key, t.(info := info', random := random'), pending, limbo)
  {
    hide RandomOk, AddrsOk, TriedOk, FreshOk, Refs;
    AddrsFrame(t.info, info', t.addrs);
    TriedFrame(key, t.info, info', t.tried);
    FreshFrame(t.info, info', t.news, pending, limbo);
    assert TriedIds(info') == TriedIds(t.info);
    assert NewIds(info', limbo) == NewIds(t.info, limbo);
  }

  /** Times, services and attempts of an entry may change freely. */
  predicate SameLinks(i: Info, j: Info) {
    && i.addr == j.addr && i.port == j.port && i.refCount == j.refCount
    && i.inTried == j.inTried && i.randomPos == j.randomPos
  }

  lemma TouchKeeps(key: Key, t: Tables, id: nat, i: Info)
    requires Inv(key, t, NONE, NONE) && id in t.info && SameLinks(t.info[id], i)
    ensures Inv(key, t.(info := t.info[id := i]), NONE, NONE)
  {
    hide RandomOk, AddrsOk, TriedOk, FreshOk, Refs;
    var info' := t.info[id := i];
    RandomFrame(t.info, info', t.random);
    AddrsFrame(t.info, info', t.addrs);
    TriedFrame(key, t.info, info', t.tried);
    FreshFrame(t.info, info', t.news, NONE, NONE);
    assert TriedIds(info') == TriedIds(t.info);
    assert NewIds(info', NONE) == NewIds(t.info, NONE);
  }

  /** One more reference to a new entry, which is about to enter another bucket. */
  lemma BumpKeeps(key: Key, t: Tables, id: nat)
    requires Inv(key, t, NONE, NONE) && id in t.info && !t.info[id].inTried
    requires t.info[id].refCount < NEW_BUCKETS_PER_ADDRESS
    ensures Inv(key, t.(info := t.info[id := t.info[id].(refCount := t.info[id].refCount + 1)]), id, NONE)
  {
    hide RandomOk, AddrsOk, TriedOk, FreshOk, Refs;
    var info' := t.info[id := t.info[id].(refCount := t.info[id].refCount + 1)];
    FreshAt(t.info, t.news, NONE, NONE, id);
    RandomFrame(t.info, info', t.random);
    AddrsFrame(t.info, info', t.addrs);
    TriedFrame(key, t.info, info', t.tried);
    FreshOne(t.info, info', t.news, t.news, id, NONE, NONE, id, NONE);
    CountsOne(t.info, info', id, NONE, NONE);
  }

  /** A new entry, with one reference counted and not yet in a bucket. */
  function Created(t: Tables, i: Info): Tables {
    t.(info := t.info[t.nextId := i], addrs := t.addrs[i.addr := t.nextId], random := t.random + [t.nextId],
       nNew := t.nNew + 1, nextId := t.nextId + 1)
  }

  lemma CreateKeeps(key: Key, t: Tables, i: Info)
    requires Inv(key, t, NONE, NONE) && i.addr !in t.addrs
    requires i.refCount == 1 && !i.inTried && i.randomPos == |t.random|
    ensures Inv(key, Created(t, i), t.nextId, NONE)
  {
    hide RandomOk, AddrsOk, TriedOk, FreshOk, Refs;
    var id, u := t.nextId, Created(t, i);
    assert id !in t.info;
    FreshUnknown(t.info, t.news, NONE, NONE, id);
    RandomPush(t.info, t.random, id, i);
    AddrsPush(t.info, t.addrs, id, i);
    TriedFrame(key, t.info, u.info, t.tried);
    FreshOne(t.info, u.info, t.news, t.news, id, NONE, NONE, id, NONE);
    CountsOne(t.info, u.info, id, NONE, NONE);
  }

  lemma AddrsPush(info: Infos, addrs: map<nat, nat>, id: nat, i: Info)
    requires AddrsOk(info, addrs) && id !in info && i.addr !in addrs
    ensures AddrsOk(info[id := i], addrs[i.addr := id])
  {
  }

  lemma AddrsPop(info: Infos, info': Infos, addrs: map<nat, nat>, id: nat)
    requires AddrsOk(info, addrs) && id in info && OnlyEntry(info, info', id) && id !in info'
    ensures AddrsOk(info', addrs - {info[id].addr})
  {
    forall x | x in info
      ensures x != id ==> x in info' && info'[x].addr != info[id].addr
    {
      assert x in info.Keys - {id} <==> x in info'.Keys - {id};
    }
  }

  /** The pending entry goes into a bucket that has room. */
  lemma InsertKeeps(key: Key, t: Tables, b: nat, id: nat)
    requires Inv(key, t, id, NONE) && id in t.info && !t.info[id].inTried
    requires b < |t.news| && id !in t.news[b] && |t.news[b]| < NEW_BUCKET_SIZE
    ensures Inv(key, t.(news := t.news[b := t.news[b] + {id}]), NONE, NONE)
  {
    hide RandomOk, AddrsOk, TriedOk, FreshOk, CountsOk, IdsOk, Refs;
    var news' := t.news[b := t.news[b] + {id}];
    FreshAt(t.info, t.news, id, NONE, id);
    RefsUpdate(t.news, b, t.news[b] + {id}, id);
    FreshOne(t.info, t.info, t.news, news', id, id, NONE, NONE, NONE);
  }

  /** ShrinkNew takes the entry `x` out of the bucket `b`: it loses one reference, and with its
      last reference it goes away, the last id of vRandom taking its place there. */
  predicate Dropped(t: Tables, u: Tables, b: nat, x: nat)
    requires b < |t.news| && x in t.info
  {
    && OnlyEntry(t.info, u.info, x)
    && u.news == t.news[b := t.news[b] - {x}]
    && (if t.info[x].refCount == 1
        then x !in u.info && u.addrs == t.addrs - {t.info[x].addr} && u.nNew == t.nNew - 1
        else && x in u.info && u.info[x] == t.info[x].(refCount := t.info[x].refCount - 1)
             && u.addrs == t.addrs && u.nNew == t.nNew && u.random == t.random
             && (forall y :: y in t.info ==> y in u.info && u.info[y].randomPos == t.info[y].randomPos))
    && u.tried == t.tried && u.nTried == t.nTried && u.nextId == t.nextId
  }

  lemma DropKeeps(key: Key, t: Tables, u: Tables, b: nat, x: nat, pending: int)
    requires Inv(key, t, pending, NONE) && b < |t.news| && x in t.news[b] && x != pending && x in t.info
    requires Dropped(t, u, b, x)
    requires t.info[x].refCount == 1 ==> RandomOk(u.info, u.random)
    ensures Inv(key, u, pending, NONE)
  {
    hide RandomOk, AddrsOk, TriedOk, FreshOk, CountsOk, IdsOk, Refs;
    FreshAt(t.info, t.news, pending, NONE, x);
    DropFresh(t, u, b, x, pending);
    if t.info[x].refCount == 1 {
      AddrsPop(t.info, u.info, t.addrs, x);
    } else {
      assert u.info.Keys == t.info.Keys;
      RandomFrame(t.info, u.info, t.random);
      AddrsFrame(t.info, u.info, t.addrs);
    }
    assert forall y :: y in t.info && y != x ==> y in t.info.Keys - {x};
    TriedFrame(key, t.info, u.info, t.tried);
    DropCounts(t, u, b, x);
    hide Dropped;
  }

  lemma DropCounts(t: Tables, u: Tables, b: nat, x: nat)
    requires b < |t.news| && x in t.info && Dropped(t, u, b, x) && !t.info[x].inTried
    requires CountsOk(t.info, t.nTried, t.nNew, NONE) && IdsOk(t.info, t.nextId)
    ensures CountsOk(u.info, u.nTried, u.nNew, NONE) && IdsOk(u.info, u.nextId)
  {
    CountsOne(t.info, u.info, x, NONE, NONE);
  }

  lemma DropFresh(t: Tables, u: Tables, b: nat, x: nat, pending: int)
    requires FreshOk(t.info, t.news, pending, NONE) && b < |t.news| && x in t.news[b] && x != pending && x in t.info
    requires Dropped(t, u, b, x)
    ensures FreshOk(u.info, u.news, pending, NONE)
  {
    hide FreshOk, Refs;
    FreshAt(t.info, t.news, pending, NONE, x);
    RefsUpdate(t.news, b, t.news[b] - {x}, x);
    FreshOne(t.info, u.info, t.news, u.news, x, pending, NONE, pending, NONE);
  }

  lemma ClearSizes(news: seq<set<nat>>, id: nat, news': seq<set<nat>>)
    requires |news'| == |news| && forall b :: 0 <= b < |news'| ==> news'[b] == news[b] - {id}
    requires forall b :: 0 <= b < |news| ==> |news[b]| <= NEW_BUCKET_SIZE
    ensures Elsewhere(news, news', id)
  {
    forall b | 0 <= b < |news| ensures |news'[b]| <= NEW_BUCKET_SIZE {
      assert news[b] == news'[b] + (news[b] * {id});
    }
  }

  /** The entry leaves all new buckets. */
  lemma ClearKeeps(key: Key, t: Tables, id: nat, news': seq<set<nat>>)
    requires Inv(key, t, NONE, NONE) && id in t.info && !t.info[id].inTried
    requires |news'| == |t.news| && forall b :: 0 <= b < |news'| ==> news'[b] == t.news[b] - {id}
    ensures Inv(key, t.(info := t.info[id := t.info[id].(refCount := 0)], news := news', nNew := t.nNew - 1), NONE, id)
  {
    hide RandomOk, AddrsOk, TriedOk, FreshOk, Refs;
    var info' := t.info[id := t.info[id].(refCount := 0)];
    FreshAt(t.info, t.news, NONE, NONE, id);
    RefsZero(news', id);
    RandomFrame(t.info, info', t.random);
    AddrsFrame(t.info, info', t.addrs);
    TriedFrame(key, t.info, info', t.tried);
    ClearSizes(t.news, id, news');
    hide Elsewhere;
    FreshOne(t.info, info', t.news, news', id, NONE, NONE, NONE, id);
    CountsOne(t.info, info', id, NONE, id);
  }

  /** An entry that is nowhere enters its tried bucket, which has room. */
  lemma PushTriedKeeps(key: Key, t: Tables, id: nat, k: nat)
    requires Inv(key, t, NONE, id) && id in t.info
    requires k == key.TriedBucket(t.info[id]) && k < |t.tried| && |t.tried[k]| < TRIED_BUCKET_SIZE
    ensures Inv(key, t.(info := t.info[id := t.info[id].(inTried := true)],
                        tried := t.tried[k := t.tried[k] + [id]], nTried := t.nTried + 1), NONE, NONE)
  {
    hide RandomOk, AddrsOk, TriedOk, FreshOk, Refs;
    var info', tried' := t.info[id := t.info[id].(inTried := true)], t.tried[k := t.tried[k] + [id]];
    FreshAt(t.info, t.news, NONE, id, id);
    RandomFrame(t.info, info', t.random);
    AddrsFrame(t.info, info', t.addrs);
    TriedPush(key, t.info, t.tried, id, k);
    FreshOne(t.info, info', t.news, t.news, id, NONE, id, NONE, NONE);
    CountsOne(t.info, info', id, id, NONE);
  }

  lemma TriedPush(key: Key, info: Infos, tried: seq<seq<nat>>, id: nat, k: nat)
    requires TriedOk(key, info, tried) && id in info && !info[id].inTried
    requires k == key.TriedBucket(info[id]) && |tried[k]| < TRIED_BUCKET_SIZE
    ensures TriedOk(key, info[id := info[id].(inTried := true)], tried[k := tried[k] + [id]])
  {
    var info', tried' := info[id := info[id].(inTried := true)], tried[k := tried[k] + [id]];
    forall b | 0 <= b < |tried'|
      ensures BucketOk(key, info', tried'[b], b)
    {
      assert BucketOk(key, info, tried[b], b);
    }
    forall x | x in info' && info'[x].inTried
      ensures x in tried'[key.TriedBucket(info'[x])]
    {
      assert x != id ==> x in tried[key.TriedBucket(info[x])];
    }
  }

  function Put(bucket: seq<nat>, pos: nat, id: nat): seq<nat>
    requires pos < |bucket|
  {
    bucket[pos := id]
  }

  /** An entry that is nowhere takes the place of a tried one. */
  lemma TriedReplace(key: Key, info: Infos, tried: seq<seq<nat>>, id: nat, k: nat, pos: nat, info': Infos)
    requires TriedOk(key, info, tried) && id in info && !info[id].inTried
    requires k == key.TriedBucket(info[id]) && pos < |tried[k]|
    requires info'.Keys == info.Keys
    requires forall x :: x in info ==>
      SameKey(info[x], info'[x]) && info'[x].inTried == (x == id || (x != tried[k][pos] && info[x].inTried))
    ensures TriedOk(key, info', tried[k := Put(tried[k], pos, id)])
  {
    var tried', gone := tried[k := Put(tried[k], pos, id)], tried[k][pos];
    assert BucketOk(key, info, tried[k], k);
    forall b | 0 <= b < |tried'|
      ensures BucketOk(key, info', tried'[b], b)
    {
      assert BucketOk(key, info, tried[b], b);
      forall j | 0 <= j < |tried'[b]|
        ensures tried'[b][j] in info' && info'[tried'[b][j]].inTried && key.TriedBucket(info'[tried'[b][j]]) == b
      {
        var x := tried'[b][j];
        if b != k || j != pos {
          assert x == tried[b][j] && x != gone;
        }
        assert SameKey(info[x], info'[x]);
      }
    }
    forall x | x in info' && info'[x].inTried
      ensures x in tried'[key.TriedBucket(info'[x])]
    {
      assert SameKey(info[x], info'[x]);
      var b := key.TriedBucket(info[x]);
      if x == id {
        assert tried'[k][pos] == id;
      } else {
        var j :| 0 <= j < |tried[b]| && tried[b][j] == x;
        assert tried'[b][j] == x;
      }
    }
  }

  /** MakeTried on a full bucket: `id` takes the place of `gone`, which goes back to the new bucket `b`. */
  lemma EvictKeeps(key: Key, t: Tables, id: nat, k: nat, pos: nat, b: nat)
    requires Inv(key, t, NONE, id) && id in t.info
    requires k == key.TriedBucket(t.info[id]) && k < |t.tried| && pos < |t.tried[k]|
    requires b < |t.news| && |t.news[b]| < NEW_BUCKET_SIZE
    ensures var gone := t.tried[k][pos];
      && gone in t.info && gone != id && t.info[gone].inTried
      && Inv(key, t.(info := t.info[gone := t.info[gone].(inTried := false, refCount := 1)]
                                   [id := t.info[id].(inTried := true)],
                     tried := t.tried[k := Put(t.tried[k], pos, id)],
                     news := t.news[b := t.news[b] + {gone}], nNew := t.nNew + 1), NONE, NONE)
  {
    hide RandomOk, AddrsOk, TriedOk, FreshOk, Refs;
    var gone := t.tried[k][pos];
    TriedAt(key, t.info, t.tried, k, pos);
    FreshAt(t.info, t.news, NONE, id, id);
    var info2 := t.info[gone := t.info[gone].(inTried := false, refCount := 1)][id := t.info[id].(inTried := true)];
    RandomFrame(t.info, info2, t.random);
    AddrsFrame(t.info, info2, t.addrs);
    TriedReplace(key, t.info, t.tried, id, k, pos, info2);
    EvictFresh(t.info, t.news, id, gone, b);
    EvictCounts(t.info, id, gone, t.nTried, t.nNew);
    assert IdsOk(info2, t.nextId) by { hide CountsOk; }
    hide IdsOk, CountsOk;
  }

  lemma EvictCounts(info: Infos, id: nat, gone: nat, nTried: int, nNew: int)
    requires CountsOk(info, nTried, nNew, id) && id in info && !info[id].inTried
    requires gone in info && id != gone && info[gone].inTried
    ensures CountsOk(info[gone := info[gone].(inTried := false, refCount := 1)][id := info[id].(inTried := true)],
                     nTried, nNew + 1, NONE)
  {
    var info1 := info[id := info[id].(inTried := true)];
    var info2 := info[gone := info[gone].(inTried := false, refCount := 1)][id := info[id].(inTried := true)];
    CountsOne(info, info1, id, id, NONE);
    CountsOne(info1, info2, gone, NONE, NONE);
  }

  lemma EvictFresh(info: Infos, news: seq<set<nat>>, id: nat, gone: nat, b: nat)
    requires FreshOk(info, news, NONE, id) && id in info && gone in info && id != gone && info[gone].inTried
    requires b < |news| && |news[b]| < NEW_BUCKET_SIZE
    ensures FreshOk(info[gone := info[gone].(inTried := false, refCount := 1)][id := info[id].(inTried := true)],
                    news[b := news[b] + {gone}], NONE, NONE)
  {
    hide FreshOk, Refs;
    FreshAt(info, news, NONE, id, id);
    FreshAt(info, news, NONE, id, gone);
    var info1 := info[id := info[id].(inTried := true)];
    var info2 := info[gone := info[gone].(inTried := false, refCount := 1)][id := info[id].(inTried := true)];
    var news' := news[b := news[b] + {gone}];
    FreshOne(info, info1, news, news, id, NONE, id, NONE, NONE);
    RefsZero(news, gone);
    RefsUpdate(news, b, news[b] + {gone}, gone);
    FreshOne(info1, info2, news, news', gone, NONE, NONE, NONE, NONE);
  }

  /** A shuffle inside one tried bucket. */
  lemma TriedSwap(key: Key, info: Infos, tried: seq<seq<nat>>, k: nat, i: nat, j: nat)
    requires TriedOk(key, info, tried) && k < |tried| && i < |tried[k]| && j < |tried[k]|
    ensures TriedOk(key, info, tried[k := SwapRandom(tried[k], i, j)])
  {
    var tried' := tried[k := SwapRandom(tried[k], i, j)];
    forall b | 0 <= b < |tried'|
      ensures BucketOk(key, info, tried'[b], b)
    {
      assert BucketOk(key, info, tried[b], b);
    }
    forall x | x in info && info[x].inTried
      ensures x in tried'[key.TriedBucket(info[x])]
    {
      var b := key.TriedBucket(info[x]);
      var p :| 0 <= p < |tried[b]| && tried[b][p] == x;
      assert tried'[b][if b != k then p else if p == i then j else if p == j then i else p] == x;
    }
  }
}
