/** The stochastic address manager: its methods, for every outcome of the random draws. */
module AddrMan {

  import opened AddrTables
  import opened Ordered
  import opened Arithmetic

  const TRIED_ENTRIES_INSPECT_ON_EVICT := 4
  const HORIZON_DAYS := 30
  const RETRIES := 3
  const MAX_FAILURES := 10
  const MIN_FAIL_DAYS := 7
  const DAY := 86400
  const GETADDR_MAX_PCT := 23
  const GETADDR_MAX := 2500

  /** CAddress, as peers announce it. */
  datatype Address = Address(addr: nat, port: nat, services: set<nat>, time: int)

  function ToAddress(i: Info): Address {
    Address(i.addr, i.port, i.services, i.time)
  }

  predicate IsTerrible(i: Info, now: int) {
    && !(i.lastTry != 0 && i.lastTry >= now - 60)
    && (|| i.time > now + 10 * 60
        || i.time == 0
        || now - i.time > HORIZON_DAYS * DAY
        || (i.lastSuccess == 0 && i.attempts >= RETRIES)
        || (now - i.lastSuccess > MIN_FAIL_DAYS * DAY && i.attempts >= MAX_FAILURES))
  }

  /** An entry is worth keeping when it was tried in the last minute, or was seen in the last 30 days and no more than
      10 minutes from now, has succeeded once or been tried less than three times, and has succeeded in the last
      week or been tried less than ten times. */
  lemma WorthKeeping(i: Info, now: int)
    ensures !IsTerrible(i, now)
            <==> || (i.lastTry != 0 && now - i.lastTry <= 60)
                 || (&& i.time != 0 && now - 2592000 <= i.time <= now + 600
                     && (i.lastSuccess != 0 || i.attempts <= 2)
                     && (i.lastSuccess >= now - 604800 || i.attempts <= 9))
  {
  }

  /** What an announcement of a known address changes before any bucket is considered. */
  function Refreshed(i: Info, a: Address, now: int, penalty: int): Info {
    var interval := if now - a.time < 24 * 60 * 60 then 60 * 60 else 24 * 60 * 60;
    var time := if a.time != 0 && (i.time == 0 || i.time < a.time - interval - penalty)
                then Max0(a.time - penalty) else i.time;
    i.(time := time, services := i.services + a.services)
  }

  /** The time of a known address moves exactly when it has none, or when the announced one is later by more than
      the penalty and an hour, or a day if the announcement is itself older than a day; it moves to the announced
      one less the penalty.  Nothing else changes but the services, which are added to. */
  lemma TimeMoves(i: Info, a: Address, now: int, penalty: int)
    requires penalty >= 0
    ensures var j := Refreshed(i, a, now, penalty);
      && j == i.(time := j.time, services := j.services)
      && (forall s :: s in j.services <==> s in i.services || s in a.services)
      && (a.time == 0 ==> j.time == i.time)
      && (a.time != 0 && i.time == 0 ==> j.time == if a.time >= penalty then a.time - penalty else 0)
      && (i.time != 0 && a.time > now - 86400 ==>
            j.time == if a.time != 0 && a.time - i.time > 3600 + penalty
                      then (if a.time >= penalty then a.time - penalty else 0) else i.time)
      && (i.time != 0 && a.time <= now - 86400 ==>
            j.time == if a.time != 0 && a.time - i.time > 86400 + penalty
                      then (if a.time >= penalty then a.time - penalty else 0) else i.time)
  {
  }

  function NewInfo(a: Address, source: nat, penalty: int, pos: nat): Info {
    Info(a.addr, a.port, a.services, source, Max0(a.time - penalty), 0, 0, 0, 1, false, pos)
  }

  lemma NewIs(a: Address, source: nat, penalty: int)
    ensures forall p: int :: NewInfo(a, source, penalty, 0).(randomPos := p)
              == Info(a.addr, a.port, a.services, source, if a.time >= penalty then a.time - penalty else 0, 0, 0, 0,
                      1, false, p)
  {
  }

  function Found(i: Info, time: int): Info {
    i.(lastSuccess := time, lastTry := time, time := time, attempts := 0)
  }

  /** An announcement brings something new about a new entry that may have one more reference. */
  predicate WantsMore(i: Info, a: Address) {
    && a.time != 0 && (i.time == 0 || i.time < a.time)
    && !i.inTried && i.refCount != NEW_BUCKETS_PER_ADDRESS
  }

  /** All entries but the named ones are as they were, up to their place in vRandom. */
  predicate SameEntries(info: Infos, info': Infos, except: set<int>) {
    forall x :: x in info && x !in except ==>
      x in info' && info'[x] == info[x].(randomPos := info'[x].randomPos)
  }

  /** An entry that gave way has lost one reference, or with its last reference has gone. */
  predicate LostOne(info: Infos, info': Infos, x: int) {
    && x in info && !info[x].inTried
    && if info[x].refCount == 1 then x !in info'
       else x in info' && info'[x] == info[x].(refCount := info[x].refCount - 1, randomPos := info'[x].randomPos)
  }

  /** Exactly when the bucket was full one of its entries has given way. */
  predicate GaveWay(info: Infos, info': Infos, bucket: set<nat>, victim: int) {
    && (victim != NONE <==> |bucket| == NEW_BUCKET_SIZE)
    && (victim != NONE ==> victim in bucket && LostOne(info, info', victim))
  }

  lemma LostBefore(info: Infos, made: Infos, info': Infos, id: nat, victim: int)
    requires victim != id && (victim != NONE ==> LostOne(made, info', victim))
    requires forall x :: x in made && x != id ==> x in info && info[x] == made[x]
    ensures victim != NONE ==> LostOne(info, info', victim)
  {
  }

  lemma NewTimes(a: Address, source: nat, penalty: int)
    ensures forall p: int :: GoodTimes(NewInfo(a, source, penalty, 0).(randomPos := p))
  {
  }

  lemma TimesAfterAdd(info: Infos, info': Infos, news: seq<set<nat>>, id: nat, b: nat, victim: int)
    requires SameEntries(info, info', {id, victim}) && info'.Keys <= info.Keys + {id}
    requires victim == NONE || (b < |news| && GaveWay(info, info', news[b], victim))
    requires id in info' && (TimesOk(info) ==> GoodTimes(info'[id]))
    ensures TimesOk(info) ==> TimesOk(info')
  {
    forall x | x in info' && x != id && TimesOk(info)
      ensures GoodTimes(info'[x])
    {
      assert x in info'.Keys && x in info && GoodTimes(info[x]);
    }
  }

  lemma DroppedSame(t: Tables, u: Tables, b: nat, x: nat)
    requires b < |t.news| && x in t.info && x in t.news[b] && Dropped(t, u, b, x)
    ensures SameEntries(t.info, u.info, {x}) && u.info.Keys <= t.info.Keys
    ensures u.news == t.news[b := t.news[b] - {x}] && |u.news[b]| == |t.news[b]| - 1
    ensures u.tried == t.tried && u.nTried == t.nTried
    ensures !t.info[x].inTried ==> LostOne(t.info, u.info, x)
  {
    forall y | y in t.info && y != x
      ensures y in u.info
    {
      assert y in t.info.Keys - {x};
    }
    forall y | y in u.info
      ensures y in t.info
    {
      assert y == x || y in u.info.Keys - {x};
    }
  }

  lemma RefreshedLinks(i: Info, a: Address, now: int, penalty: int)
    ensures SameLinks(i, Refreshed(i, a, now, penalty)) && (GoodTimes(i) ==> GoodTimes(Refreshed(i, a, now, penalty)))
  {
  }

  /** When an announcement of a known address may give it one more reference: it is later than what is known, and the
      entry is a new one with fewer than four references. */
  lemma MayHaveMore(i: Info, a: Address)
    requires !i.inTried ==> i.refCount <= 4
    ensures WantsMore(i, a) <==> !i.inTried && i.refCount < 4 && a.time != 0 && (i.time == 0 || a.time > i.time)
  {
  }

  lemma NotTried(i: Info, a: Address)
    requires WantsMore(i, a)
    ensures !i.inTried
  {
  }

  // ------------------------------------------------------------------ what is inspected for eviction

  function Inspected(size: nat): nat {
    if size < TRIED_ENTRIES_INSPECT_ON_EVICT then size else TRIED_ENTRIES_INSPECT_ON_EVICT
  }

  /** Draw i is among the places from i on. */
  predicate Drawable(size: nat, draws: seq<nat>) {
    |draws| <= size && forall i :: 0 <= i < |draws| ==> i + draws[i] < size
  }

  /** The bucket after each place has been swapped with the one drawn for it. */
  function AfterDraws(bucket: seq<nat>, draws: seq<nat>): (q: seq<nat>)
    requires Drawable(|bucket|, draws)
    ensures |q| == |bucket|
  {
    if draws == [] then bucket else
      var i := |draws| - 1;
      AddrTables.SwapRandom(AfterDraws(bucket, draws[..i]), i, i + draws[i])
  }

  /** Among the first n entries, m is the first of those whose last success is the longest ago. */
  predicate LeastRecent(info: Infos, q: seq<nat>, n: nat, m: nat) {
    && m < n <= |q| && (forall j :: 0 <= j < n ==> q[j] in info)
    && (forall j :: 0 <= j < n ==> info[q[m]].lastSuccess <= info[q[j]].lastSuccess)
    && (forall j :: 0 <= j < m ==> info[q[m]].lastSuccess < info[q[j]].lastSuccess)
  }

  lemma LeastRecentNext(info: Infos, q: seq<nat>, i: nat, p: nat, m: nat)
    requires i <= p < |q| && forall j :: 0 <= j < |q| ==> q[j] in info
    ensures var q' := AddrTables.SwapRandom(q, i, p);
      && (forall j :: 0 <= j < |q'| ==> q'[j] in info)
      && (i == 0 ==> LeastRecent(info, q', 1, 0))
      && (i > 0 && LeastRecent(info, q, i, m) ==>
            q'[m] == q[m]
            && LeastRecent(info, q', i + 1, if info[q[p]].lastSuccess < info[q[m]].lastSuccess then i else m))
  {
  }

  lemma DrawNothing(bucket: seq<nat>)
    ensures AfterDraws(bucket, []) == bucket
  {
  }

  lemma DrawNext(bucket: seq<nat>, draws: seq<nat>, draw: nat)
    requires Drawable(|bucket|, draws) && |draws| + draw < |bucket|
    ensures Drawable(|bucket|, draws + [draw])
    ensures AfterDraws(bucket, draws + [draw])
            == AddrTables.SwapRandom(AfterDraws(bucket, draws), |draws|, |draws| + draw)
  {
    hide AddrTables.SwapRandom, AfterDraws, Drawable;
    var more := draws + [draw];
    DrawableNext(|bucket|, draws, draw);
    assert more[..|draws|] == draws;
    LastDraw(bucket, more);
  }

  lemma DrawableNext(size: nat, draws: seq<nat>, draw: nat)
    requires Drawable(size, draws) && |draws| + draw < size
    ensures Drawable(size, draws + [draw])
  {
  }

  lemma LastDraw(bucket: seq<nat>, draws: seq<nat>)
    requires Drawable(|bucket|, draws) && draws != []
    ensures var i := |draws| - 1;
      AfterDraws(bucket, draws) == AddrTables.SwapRandom(AfterDraws(bucket, draws[..i]), i, i + draws[i])
  {
    hide AddrTables.SwapRandom;
  }

  lemma {:induction false} TriedAfterDraws(key: Key, info: Infos, tried: seq<seq<nat>>, k: nat, draws: seq<nat>)
    requires TriedOk(key, info, tried) && k < |tried| && Drawable(|tried[k]|, draws)
    ensures TriedOk(key, info, tried[k := AfterDraws(tried[k], draws)])
  {
    hide TriedOk, AddrTables.SwapRandom;
    if draws == [] {
      assert tried[k := tried[k]] == tried;
    } else {
      var i := |draws| - 1;
      var before := AfterDraws(tried[k], draws[..i]);
      TriedAfterDraws(key, info, tried, k, draws[..i]);
      TriedSwap(key, info, tried[k := before], k, i, i + draws[i]);
      assert tried[k := before][k := AfterDraws(tried[k], draws)] == tried[k := AfterDraws(tried[k], draws)];
    }
  }

  lemma {:induction false} DrawsPermute(bucket: seq<nat>, draws: seq<nat>)
    requires Drawable(|bucket|, draws)
    ensures multiset(AfterDraws(bucket, draws)) == multiset(bucket)
  {
    hide AddrTables.SwapRandom;
    if draws != [] {
      var i := |draws| - 1;
      DrawsPermute(bucket, draws[..i]);
      SwapPermutes(AfterDraws(bucket, draws[..i]), i, i + draws[i]);
    }
  }

  lemma SwapPermutes(q: seq<nat>, i: nat, j: nat)
    requires i < |q| && j < |q|
    ensures multiset(AddrTables.SwapRandom(q, i, j)) == multiset(q)
  {
  }

  method GetRandInt(n: int) returns (r: int)
    requires n > 0
    ensures 0 <= r < n
  {
    assert 0 <= 0 < n;
    r :| 0 <= r < n;
  }

  class AddrMan {
    const key: Key
    var info: Infos
    var addrs: map<nat, nat>
    var random: seq<nat>
    var tried: seq<seq<nat>>
    var news: seq<set<nat>>
    var nTried: int
    var nNew: int
    var idCount: nat

    ghost function View(): Tables
      reads this
    {
      Tables(info, addrs, random, tried, news, nTried, nNew, idCount)
    }

    ghost predicate Valid()
      reads this
    {
      Inv(key, View(), NONE, NONE)
    }

    /** The times are such that the consistency check accepts them. */
    ghost predicate Timely()
      reads this
    {
      TimesOk(info)
    }

    constructor (k: Key)
      ensures key == k && Valid() && Timely() && info == map[]
    {
      key := k;
      info, addrs, random := map[], map[], [];
      tried := seq(TRIED_BUCKET_COUNT, _ => []);
      news := seq(NEW_BUCKET_COUNT, _ => {});
      nTried, nNew, idCount := 0, 0, 0;
    }

    method SwapRandom(i: nat, j: nat)
      requires RandomOk(info, random) && i < |random| && j < |random|
      modifies this`info, this`random
      ensures random == AddrTables.SwapRandom(old(random), i, j)
      ensures RandomOk(info, random) && SameButPos(old(info), info)
      ensures forall k :: 0 <= k < |random| && k != i && k != j ==> info[random[k]] == old(info)[random[k]]
    {
      SwapKeeps(info, random, i, j);
      if i == j {
        return;
      }
      var id1, id2 := random[i], random[j];
      info := info[id1 := info[id1].(randomPos := j)];
      info := info[id2 := info[id2].(randomPos := i)];
      random := random[i := id2];
      random := random[j := id1];
    }

    /** The loop of SelectTried over one bucket. */
    method Inspect(vTried: seq<nat>) returns (bucket: seq<nat>, pos: int, ghost draws: seq<nat>, ghost m: nat)
      requires forall j :: 0 <= j < |vTried| ==> vTried[j] in info
      ensures Drawable(|vTried|, draws) && |draws| == Inspected(|vTried|) && bucket == AfterDraws(vTried, draws)
      ensures bucket == [] ==> pos == -1
      ensures bucket != [] ==> m < |draws| && LeastRecent(info, bucket, |draws|, m) && pos == m + draws[m] < |bucket|
    {
      hide AfterDraws, LeastRecent;
      var oldest: int := -1;
      bucket, pos, draws, m := vTried, -1, [], 0;
      DrawNothing(vTried);
      var i := 0;
      while i < TRIED_ENTRIES_INSPECT_ON_EVICT && i < |bucket|
        invariant |bucket| == |vTried| && |draws| == i <= Inspected(|bucket|)
        invariant Drawable(|vTried|, draws) && bucket == AfterDraws(vTried, draws)
        invariant forall j :: 0 <= j < |bucket| ==> bucket[j] in info
        invariant i == 0 ==> pos == -1 && oldest == -1
        invariant i > 0 ==> m < i && pos == m + draws[m] && oldest == bucket[m] && LeastRecent(info, bucket, i, m)
      {
        var draw := GetRandInt(|bucket| - i);
        var p := draw + i;
        DrawNext(vTried, draws, draw);
        LeastRecentNext(info, bucket, i, p, m);
        var temp := bucket[p];
        bucket := AddrTables.SwapRandom(bucket, i, p);
        draws := draws + [draw];
        if oldest == -1 || info[temp].lastSuccess < info[oldest].lastSuccess {
          oldest, pos := temp, p;
          m := i;
        }
        i := i + 1;
      }
    }

    /** Inspects the first few places of the bucket after drawing each of them from the rest.  The place
        returned is the one the least recently successful of them, `m`, was drawn from, and after the
        swap that entry is there only if the draw was its own place. */
    method SelectTried(k: nat) returns (pos: int, ghost draws: seq<nat>, ghost m: nat)
      requires k < |tried| && TriedOk(key, info, tried)
      modifies this`tried
      ensures TriedOk(key, info, tried)
      ensures Drawable(|old(tried)[k]|, draws)
      ensures |draws| == if |old(tried)[k]| < 4 then |old(tried)[k]| else 4
      ensures tried == old(tried)[k := AfterDraws(old(tried)[k], draws)]
      ensures multiset(tried[k]) == multiset(old(tried[k]))
      ensures tried[k] == [] ==> pos == -1
      ensures tried[k] != [] ==>
                m < |draws| && LeastRecent(info, tried[k], |draws|, m) && pos == m + draws[m] < |tried[k]|
      ensures tried[k] != [] ==> (tried[k][pos] == tried[k][m] <==> draws[m] == 0)
    {
      TriedAll(key, info, tried, k);
      hide TriedOk, AfterDraws, LeastRecent;
      var bucket;
      bucket, pos, draws, m := Inspect(tried[k]);
      TriedAfterDraws(key, info, tried, k, draws);
      DrawsPermute(tried[k], draws);
      tried := tried[k := bucket];
      TriedDistinct(key, info, tried, k);
    }

    /** An entry without references goes away; the last id of vRandom takes its place there. */
    method Forget(x: nat)
      requires RandomOk(info, random) && x in info
      modifies this`info, this`random, this`addrs, this`nNew
      ensures RandomOk(info, random) && OnlyEntry(old(info), info, x) && x !in info
      ensures addrs == old(addrs) - {old(info)[x].addr} && nNew == old(nNew) - 1
    {
      RandomAt(info, random, x);
      hide RandomOk, AddrTables.SwapRandom;
      SwapLast(info, random, x);
      var a, last := info[x].addr, |random| - 1;
      SwapRandom(info[x].randomPos, last);
      RandomPop(info, random);
      random := random[..last];
      addrs := addrs - {a};
      info := info - {x};
      nNew := nNew - 1;
    }

    /** The common end of both halves of ShrinkNew. */
    method TakeOut(b: nat, x: nat, ghost pending: int)
      requires Inv(key, View(), pending, NONE) && b < |news| && x in news[b] && x != pending
      modifies this
      ensures x in old(info) && Dropped(old(View()), View(), b, x)
      ensures Inv(key, View(), pending, NONE)
    {
      hide RandomOk, AddrsOk, TriedOk, FreshOk, CountsOk, IdsOk, Refs, AddrTables.SwapRandom;
      ghost var t := View();
      FreshHere(info, news, pending, NONE, b, x);
      var count := info[x].refCount - 1;
      info := info[x := info[x].(refCount := count)];
      if count == 0 {
        RandomFrame(t.info, info, random);
        Forget(x);
      }
      assert OnlyEntry(t.info, info, x);
      assert x in news[b] && |news| == |t.news|;
      news := news[b := news[b] - {x}];
      DropKeeps(key, t, View(), b, x, pending);
    }

    /** The lowest terrible id of a bucket. */
    method FirstTerrible(ids: seq<nat>, now: int) returns (found: bool, x: nat)
      requires forall j :: 0 <= j < |ids| ==> ids[j] in info
      requires forall i, j :: 0 <= i < j < |ids| ==> ids[i] < ids[j]
      ensures found ==> x in ids && IsTerrible(info[x], now)
      ensures forall y :: y in ids && (!found || y < x) ==> !IsTerrible(info[y], now)
    {
      hide IsTerrible;
      for k := 0 to |ids|
        invariant forall j :: 0 <= j < k ==> !IsTerrible(info[ids[j]], now)
      {
        if IsTerrible(info[ids[k]], now) {
          return true, ids[k];
        }
      }
      return false, 0;
    }

    /** The oldest of four entries drawn at random; `drawn` are the four. */
    method OldestDrawn(ids: seq<nat>) returns (oldest: int, ghost drawn: set<nat>)
      requires ids != [] && forall j :: 0 <= j < |ids| ==> ids[j] in info
      ensures oldest in drawn && 1 <= |drawn| <= 4
      ensures oldest in info && forall y :: y in drawn ==> y in ids && y in info && info[oldest].time <= info[y].time
    {
      var n0 := GetRandInt(|ids|);
      var n1 := GetRandInt(|ids|);
      var n2 := GetRandInt(|ids|);
      var n3 := GetRandInt(|ids|);
      oldest := -1;
      for k := 0 to |ids|
        invariant oldest == -1 <==> n0 >= k && n1 >= k && n2 >= k && n3 >= k
        invariant oldest != -1 ==> oldest in {ids[n0], ids[n1], ids[n2], ids[n3]} && oldest in info
        invariant oldest != -1 ==> forall n :: n in {n0, n1, n2, n3} && n < k ==> info[oldest].time <= info[ids[n]].time
      {
        if k == n0 || k == n1 || k == n2 || k == n3 {
          if oldest == -1 || info[ids[k]].time < info[oldest].time {
            oldest := ids[k];
          }
        }
      }
      drawn := {ids[n0], ids[n1], ids[n2], ids[n3]};
    }

    /** One entry leaves the bucket: the first terrible one (0), or else the oldest of the drawn ones (1). */
    method ShrinkNew(b: nat, now: int, ghost pending: int) returns (r: int, ghost x: nat, ghost drawn: set<nat>)
      requires Inv(key, View(), pending, NONE) && b < |news| && news[b] != {}
      requires forall y :: y in news[b] ==> y != pending
      modifies this
      ensures Inv(key, View(), pending, NONE)
      ensures x in old(news[b]) && x in old(info) && Dropped(old(View()), View(), b, x)
      ensures forall y :: y in old(news[b]) ==> y in old(info)
      ensures r == 0 ==> IsTerrible(old(info)[x], now)
                         && forall y :: y in old(news[b]) && y < x ==> !IsTerrible(old(info)[y], now)
      ensures r != 0 ==> r == 1 && x in drawn && drawn <= old(news[b]) && 1 <= |drawn| <= 4
                         && (forall y :: y in old(news[b]) ==> !IsTerrible(old(info)[y], now))
                         && (forall y :: y in drawn ==> old(info)[x].time <= old(info)[y].time)
    {
      hide RandomOk, AddrsOk, TriedOk, FreshOk, CountsOk, IdsOk, Dropped, IsTerrible;
      var ids := Ascending(news[b]);
      forall y | y in news[b] ensures y in info { FreshHere(info, news, pending, NONE, b, y); }
      drawn := {};
      var found, worst := FirstTerrible(ids, now);
      if found {
        x := worst;
        TakeOut(b, worst, pending);
        return 0, x, drawn;
      }
      var oldest;
      oldest, drawn := OldestDrawn(ids);
      x := oldest;
      TakeOut(b, oldest, pending);
      r := 1;
    }
 
    /** The entry leaves every new bucket, and the references counted down are all it had. */
    method ClearNew(id: nat)
      requires Valid() && id in info && !info[id].inTried
      modifies this`info, this`news, this`nNew
      ensures Inv(key, View(), NONE, id)
      ensures info == old(info)[id := old(info)[id].(refCount := 0)]
      ensures |news| == |old(news)| && forall b :: 0 <= b < |news| ==> news[b] == old(news)[b] - {id}
    {
      hide RandomOk, AddrsOk, TriedOk, FreshOk, CountsOk, IdsOk, Refs;
      ghost var t := View();
      FreshAt(info, news, NONE, NONE, id);
      for k := 0 to |news|
        invariant |news| == |t.news| && nNew == t.nNew
        invariant forall b :: 0 <= b < k ==> news[b] == t.news[b] - {id}
        invariant forall b :: k <= b < |news| ==> news[b] == t.news[b]
        invariant info == t.info[id := t.info[id].(refCount := Refs(news, id))]
      {
        if id in news[k] {
          RefsUpdate(news, k, news[k] - {id}, id);
          news := news[k := news[k] - {id}];
          info := info[id := info[id].(refCount := info[id].refCount - 1)];
        }
      }
      nNew := nNew - 1;
      assert forall b :: 0 <= b < |news| ==> id !in news[b];
      RefsZero(news, id);
      ClearKeeps(key, t, id, news);
    }

    /** Moves a new entry to its tried bucket.  When that is full, a tried entry `gone` makes place and
        becomes new again, in the bucket its source gives it or, if that is full, in one `id` has just left. */
    method MakeTried(id: nat, origin: nat) returns (ghost gone: int)
      requires Valid() && origin < |news| && id in news[origin] && id in info
      modifies this`info, this`news, this`tried, this`nNew, this`nTried
      ensures Valid()
      ensures gone == NONE <==> |old(tried)[key.TriedBucket(old(info)[id])]| < TRIED_BUCKET_SIZE
      ensures gone == NONE ==> info == old(info)[id := old(info)[id].(refCount := 0, inTried := true)]
                               && nTried == old(nTried) + 1
      ensures gone != NONE ==>
                && gone in old(tried)[key.TriedBucket(old(info)[id])] && gone in old(info) && gone != id
                && info == old(info)[gone := old(info)[gone].(refCount := 1, inTried := false)]
                                    [id := old(info)[id].(refCount := 0, inTried := true)]
                && nTried == old(nTried)
                && |old(news)| == |news| == NEW_BUCKET_COUNT
                && var home := key.NewBucket(old(info)[gone], old(info)[gone].source);
                gone in news[if |old(news)[home] - {id}| < NEW_BUCKET_SIZE then home else origin]
    {
      hide RandomOk, AddrsOk, TriedOk, FreshOk, CountsOk, IdsOk;
      ghost var t := View();
      FreshAt(info, news, NONE, NONE, id);
      assert |news[origin] - {id}| < NEW_BUCKET_SIZE;
      ClearNew(id);
      TriedSizes(key, info, tried);
      var k := key.TriedBucket(info[id]);
      if |tried[k]| < TRIED_BUCKET_SIZE {
        PushTriedKeeps(key, View(), id, k);
        tried := tried[k := tried[k] + [id]];
        nTried := nTried + 1;
        info := info[id := info[id].(inTried := true)];
        return NONE;
      }
      gone := Evict(id, k, origin);
    }

    /** The second half of MakeTried: `id` is in no bucket, so that `origin` has room. */
    method Evict(id: nat, k: nat, origin: nat) returns (ghost gone: int)
      requires Inv(key, View(), NONE, id) && id in info
      requires k == key.TriedBucket(info[id]) && k < |tried| && tried[k] != []
      requires origin < |news| && |news[origin]| < NEW_BUCKET_SIZE
      modifies this`info, this`news, this`tried, this`nNew
      ensures Valid() && gone in old(tried)[k] && gone in old(info) && gone != id
      ensures info == old(info)[gone := old(info)[gone].(refCount := 1, inTried := false)]
                               [id := old(info)[id].(inTried := true)]
      ensures |news| == NEW_BUCKET_COUNT
      ensures var home := key.NewBucket(old(info)[gone], old(info)[gone].source);
              gone in news[if |old(news)[home]| < NEW_BUCKET_SIZE then home else origin]
    {
      hide RandomOk, AddrsOk, TriedOk, FreshOk, CountsOk, IdsOk, AfterDraws, LeastRecent, Drawable;
      FreshAt(info, news, NONE, id, id);
      var pos;
      ghost var draws, m;
      pos, draws, m := SelectTried(k);
      TriedAt(key, info, tried, k, pos);
      var evicted := tried[k][pos];
      assert evicted in multiset(tried[k]);
      var b := key.NewBucket(info[evicted], info[evicted].source);
      if |news[b]| >= NEW_BUCKET_SIZE {
        b := origin;
      }
      EvictKeeps(key, View(), id, k, pos, b);
      info := info[evicted := info[evicted].(inTried := false, refCount := 1)];
      news := news[b := news[b] + {evicted}];
      nNew := nNew + 1;
      tried := tried[k := Put(tried[k], pos, id)];
      info := info[id := info[id].(inTried := true)];
      return evicted;
    }

    /** The bucket a search through all new buckets, from a random one, finds the entry in. */
    method FindBucket(id: nat) returns (found: int)
      requires Valid() && id in info && !info[id].inTried
      ensures 0 <= found < |news| && id in news[found]
    {
      FreshAt(info, news, NONE, NONE, id);
      RefsZero(news, id);
      hide Inv, Refs;
      var rnd := GetRandInt(|news|);
      found := -1;
      var n := 0;
      while n < |news| && found == -1
        invariant 0 <= n <= |news|
        invariant found != -1 ==> 0 <= found < |news| && id in news[found]
        invariant found == -1 ==> forall b :: rnd <= b < |news| && b < rnd + n ==> id !in news[b]
        invariant found == -1 ==> forall b :: 0 <= b < rnd + n - |news| ==> id !in news[b]
      {
        var b := (n + rnd) % |news|;
        assert b == if n + rnd < |news| then n + rnd else n + rnd - |news|;
        if id in news[b] {
          found := b;
        }
        n := n + 1;
      }
    }

    /** Good_: the exit for an entry in no bucket is never taken. */
    method Good(addr: nat, port: nat, time: int) returns (ghost gone: int)
      requires Valid()
      modifies this
      ensures Valid() && addrs == old(addrs) && info.Keys == old(info).Keys && random == old(random)
      ensures addr in addrs ==> addrs[addr] in old(info)
      ensures addr !in addrs || old(info)[addrs[addr]].port != port ==> View() == old(View())
      ensures addr in addrs && old(info)[addrs[addr]].port == port ==>
                && var i := old(info)[addrs[addr]];
                && info[addrs[addr]] == i.(lastSuccess := time, lastTry := time, time := time, attempts := 0,
                                           inTried := true, refCount := 0)
                && SameEntries(old(info), info, {addrs[addr], gone})
                && (gone != NONE <==> !i.inTried && |old(tried)[key.TriedBucket(i)]| == TRIED_BUCKET_SIZE)
                && (gone != NONE ==>
                      && gone in old(info) && old(info)[gone].inTried
                      && info[gone] == old(info)[gone].(inTried := false, refCount := 1))
                && (old(Timely()) ==> (Timely() <==> time > 0))
    {
      hide RandomOk, AddrsOk, TriedOk, FreshOk, CountsOk, IdsOk, Refs;
      gone := NONE;
      if addr !in addrs {
        return;
      }
      AddrsAt(info, addrs, addr);
      var id := addrs[addr];
      if info[id].port != port {
        return;
      }
      FreshAt(info, news, NONE, NONE, id);
      TriedSizes(key, info, tried);
      TouchKeeps(key, View(), id, Found(info[id], time));
      info := info[id := Found(info[id], time)];
      if info[id].inTried {
        return;
      }
      var b := FindBucket(id);
      gone := MakeTried(id, b);
      if gone != NONE {
        TriedHere(key, old(info), old(tried), key.TriedBucket(old(info)[id]), gone);
      }
    }
 
    /** One chance in 2 to the power of the reference count for one more reference. */
    method StochasticTest(refCount: int) returns (ok: bool, ghost draw: int)
      requires refCount >= 0
      ensures 0 <= draw < Power2(refCount)
      ensures ok <==> draw == 0
    {
      var factor := 1;
      for n := 0 to refCount
        invariant factor == Power2(n)
      {
        factor := factor * 2;
      }
      draw := 0;
      if factor > 1 {
        var r := GetRandInt(factor);
        draw := r;
        return r == 0, draw;
      }
      return true, draw;
    }

    method Create(a: Address, source: nat, penalty: int) returns (id: nat)
      modifies this
      ensures id == old(idCount)
      ensures View() == Created(old(View()),
                                NewInfo(a, source, penalty, |old(random)|).(refCount := 0)).(nNew := old(nNew))
    {
      id := idCount;
      idCount := idCount + 1;
      info := info[id := Info(a.addr, a.port, a.services, source, a.time, 0, 0, 0, 0, false, NONE)];
      addrs := addrs[a.addr := id];
      info := info[id := info[id].(randomPos := |random|)];
      random := random + [id];
      info := info[id := info[id].(time := Max0(info[id].time - penalty))];
    }

    /** An announced address that is known: no more than its time and services change here, and one
        more reference may be wanted. */
    method Announce(id: nat, a: Address, now: int, penalty: int) returns (more: bool, ghost draw: int)
      requires Valid() && id in info
      modifies this`info
      ensures Valid() && info == old(info)[id := Refreshed(old(info)[id], a, now, penalty)]
      ensures more <==> WantsMore(info[id], a) && draw == 0
      ensures WantsMore(info[id], a) ==>
                0 <= draw < Power2(info[id].refCount) && info[id].refCount < NEW_BUCKETS_PER_ADDRESS
    {
      hide RandomOk, AddrsOk, TriedOk, FreshOk, CountsOk, IdsOk, Refs, Power2;
      FreshAt(info, news, NONE, NONE, id);
      TouchKeeps(key, View(), id, Refreshed(info[id], a, now, penalty));
      info := info[id := Refreshed(info[id], a, now, penalty)];
      draw := 0;
      if a.time == 0 || (info[id].time != 0 && a.time <= info[id].time) {
        return false, draw;
      }
      if info[id].inTried {
        return false, draw;
      }
      if info[id].refCount == NEW_BUCKETS_PER_ADDRESS {
        return false, draw;
      }
      more, draw := StochasticTest(info[id].refCount);
    }

    /** The pending entry enters the bucket, another one leaving if that was full. */
    method Enter(id: nat, b: nat, now: int) returns (ghost victim: int)
      requires Inv(key, View(), id, NONE) && b < |news| && id !in news[b] && id in info && !info[id].inTried
      modifies this
      ensures Valid() && id in info && info[id] == old(info)[id].(randomPos := info[id].randomPos)
      ensures victim != id && SameEntries(old(info), info, {victim}) && info.Keys <= old(info).Keys
      ensures victim != NONE <==> |old(news)[b]| == NEW_BUCKET_SIZE
      ensures victim != NONE ==> victim in old(news)[b] && LostOne(old(info), info, victim)
      ensures tried == old(tried) && nTried == old(nTried)
      ensures news == old(news)[b := old(news)[b] - (if victim == NONE then {} else {victim}) + {id}]
    {
      hide RandomOk, AddrsOk, TriedOk, FreshOk, CountsOk, IdsOk, Refs, Dropped;
      victim := NONE;
      FreshAt(info, news, id, NONE, id);
      if |news[b]| == NEW_BUCKET_SIZE {
        var r;
        ghost var x, drawn;
        r, x, drawn := ShrinkNew(b, now, id);
        victim := x;
        FreshHere(old(info), old(news), id, NONE, b, x);
        DroppedSame(old(View()), View(), b, x);
      }
      assert id in info && !info[id].inTried;
      InsertKeeps(key, View(), b, id);
      news := news[b := news[b] + {id}];
    }

    /** Add_ of an unknown address: the entry is made and enters its bucket. */
    method AddUnknown(a: Address, source: nat, penalty: int, now: int) returns (id: nat, ghost victim: int)
      requires Valid() && a.addr !in addrs
      modifies this
      ensures Valid() && a.addr in addrs && addrs[a.addr] == id && id !in old(info) && id in info
      ensures info[id] == NewInfo(a, source, penalty, 0).(randomPos := info[id].randomPos)
      ensures victim != id && SameEntries(old(info), info, {victim}) && info.Keys <= old(info).Keys + {id}
      ensures |old(news)| == |news| == NEW_BUCKET_COUNT
      ensures var b := key.NewBucket(info[id], source);
              id in news[b] && GaveWay(old(info), info, old(news)[b], victim)
      ensures tried == old(tried) && nTried == old(nTried)
    {
      hide RandomOk, AddrsOk, TriedOk, FreshOk, CountsOk, IdsOk, Refs;
      FreshSize(info, news, NONE, NONE);
      FreshUnknownId(View());
      id := Create(a, source, penalty);
      nNew := nNew + 1;
      var b := key.NewBucket(info[id], source);
      info := info[id := info[id].(refCount := info[id].refCount + 1)];
      CreateKeeps(key, old(View()), info[id]);
      assert View() == Created(old(View()), info[id]);
      ghost var made := info;
      victim := Enter(id, b, now);
      AddrsOf(info, addrs, id);
      LostBefore(old(info), made, info, id, victim);
    }

    /** Add_ of a known address: it is refreshed, and may enter one more bucket. */
    method AddKnown(id: nat, a: Address, source: nat, penalty: int, now: int)
      returns (ghost victim: int, ghost draw: int)
      requires Valid() && id in info && a.addr == info[id].addr
      modifies this
      ensures Valid() && id in info && a.addr in addrs && addrs[a.addr] == id
      ensures victim != id && SameEntries(old(info), info, {id, victim}) && info.Keys <= old(info).Keys
      ensures |old(news)| == |news| == NEW_BUCKET_COUNT
      ensures var i := Refreshed(old(info)[id], a, now, penalty);
        && (WantsMore(i, a) ==> 0 <= draw < Power2(i.refCount))
        && var b := key.NewBucket(i, source);
        if WantsMore(i, a) && draw == 0 && id !in old(news)[b]
        then && info[id] == i.(refCount := i.refCount + 1, randomPos := info[id].randomPos)
             && id in news[b] && GaveWay(old(info), info, old(news)[b], victim)
        else info[id] == i && news == old(news) && victim == NONE
      ensures tried == old(tried) && nTried == old(nTried)
    {
      hide RandomOk, AddrsOk, TriedOk, FreshOk, CountsOk, IdsOk, Refs, Refreshed, WantsMore, Power2;
      FreshSize(info, news, NONE, NONE);
      victim := NONE;
      var more;
      more, draw := Announce(id, a, now, penalty);
      RefreshedLinks(old(info)[id], a, now, penalty);
      AddrsOf(info, addrs, id);
      if !more {
        return;
      }
      NotTried(info[id], a);
      var b := key.NewBucket(info[id], source);
      if id !in news[b] {
        BumpKeeps(key, View(), id);
        info := info[id := info[id].(refCount := info[id].refCount + 1)];
        ghost var made := info;
        victim := Enter(id, b, now);
        AddrsOf(info, addrs, id);
        LostBefore(old(info), made, info, id, victim);
      }
    }

    /** Add_: an unknown routable address gets an entry; a known one is refreshed and may enter one more
        bucket.  Another entry of that bucket gives way exactly when the bucket was full. */
    method Add(a: Address, source: nat, penalty: int, now: int)
      returns (isNew: bool, ghost victim: int, ghost draw: int)
      requires Valid()
      modifies this
      ensures Valid() && (old(Timely()) ==> Timely())
      ensures !key.routable(a.addr) ==> View() == old(View())
      ensures isNew <==> key.routable(a.addr) && a.addr !in old(addrs)
      ensures key.routable(a.addr) ==>
                && a.addr in addrs && addrs[a.addr] in info && |old(news)| == |news| == NEW_BUCKET_COUNT
                && SameEntries(old(info), info, {addrs[a.addr], victim})
                && info.Keys <= old(info).Keys + {addrs[a.addr]} && victim != addrs[a.addr]
      ensures isNew ==>
                && var i := info[addrs[a.addr]];
                && var b := key.NewBucket(i, source);
                && i == Info(a.addr, a.port, a.services, source, if a.time >= penalty then a.time - penalty else 0,
                             0, 0, 0, 1, false, i.randomPos)
                && addrs[a.addr] in news[b] && GaveWay(old(info), info, old(news)[b], victim)
      ensures key.routable(a.addr) && !isNew ==>
                && addrs[a.addr] == old(addrs)[a.addr] && addrs[a.addr] in old(info)
                && var id := addrs[a.addr];
                && var i := Refreshed(old(info)[id], a, now, penalty);
                && (WantsMore(i, a) ==> 0 <= draw < Power2(i.refCount))
                && var b := key.NewBucket(i, source);
                if WantsMore(i, a) && draw == 0 && id !in old(news)[b]
                then && info[id] == i.(refCount := i.refCount + 1, randomPos := info[id].randomPos)
                     && id in news[b] && GaveWay(old(info), info, old(news)[b], victim)
                else info[id] == i && news == old(news) && victim == NONE
      ensures tried == old(tried) && nTried == old(nTried)
    {
      hide RandomOk, AddrsOk, TriedOk, FreshOk, CountsOk, IdsOk, Refs, Refreshed, WantsMore, Power2, NewInfo, GaveWay;
      NewIs(a, source, penalty);
      isNew, victim, draw := false, NONE, 0;
      if !key.routable(a.addr) {
        return;
      }
      if a.addr in addrs {
        var id := addrs[a.addr];
        AddrsAt(info, addrs, a.addr);
        RefreshedLinks(info[id], a, now, penalty);
        victim, draw := AddKnown(id, a, source, penalty, now);
        TimesAfterAdd(old(info), info, old(news), id,
                      key.NewBucket(Refreshed(old(info)[id], a, now, penalty), source), victim);
      } else {
        var id;
        id, victim := AddUnknown(a, source, penalty, now);
        NewTimes(a, source, penalty);
        TimesAfterAdd(old(info), info, old(news), id, key.NewBucket(info[id], source), victim);
        isNew := true;
      }
    }

    /** GetAddr_: a random part of the entries, no address twice. */
    method GetAddr() returns (out: seq<Address>)
      requires Valid()
      modifies this`info, this`random
      ensures Valid() && SameButPos(old(info), info) && (old(Timely()) ==> Timely())
      ensures |out| == if GETADDR_MAX_PCT * |info| / 100 > GETADDR_MAX then GETADDR_MAX
                       else GETADDR_MAX_PCT * |info| / 100
      ensures forall k :: 0 <= k < |out| ==> out[k].addr in addrs && addrs[out[k].addr] in info
                                             && out[k] == ToAddress(info[addrs[out[k].addr]])
      ensures forall j, k :: 0 <= j < k < |out| ==> out[j].addr != out[k].addr
    {
      hide RandomOk, AddrsOk, TriedOk, FreshOk, CountsOk, IdsOk;
      RandomSize(info, random);
      ghost var t := View();
      var nodes := GETADDR_MAX_PCT * |random| / 100;
      if nodes > GETADDR_MAX {
        nodes := GETADDR_MAX;
      }
      out := Shuffle(nodes);
      RandomSize(t.info, t.random);
      SamePosKeeps(key, t, info, random, NONE, NONE);
      forall k | 0 <= k < |out|
        ensures random[k] in info && out[k].addr in addrs && addrs[out[k].addr] == random[k]
      {
        RandomHas(info, random, k);
        AddrsOf(info, addrs, random[k]);
      }
      RandomDistinct(info, random);
    }

    /** The first entries of vRandom, after a shuffle that draws them from all of it. */
    method Shuffle(nodes: nat) returns (out: seq<Address>)
      requires RandomOk(info, random) && nodes <= |random|
      modifies this`info, this`random
      ensures RandomOk(info, random) && SameButPos(old(info), info) && |random| == |old(random)|
      ensures |out| == nodes
      ensures forall k :: 0 <= k < nodes ==> random[k] in info && out[k] == ToAddress(info[random[k]])
    {
      hide RandomOk;
      out := [];
      for n := 0 to nodes
        invariant |random| == |old(random)| && |out| == n
        invariant RandomOk(info, random) && SameButPos(old(info), info)
        invariant forall k :: 0 <= k < n ==> random[k] in info && out[k] == ToAddress(info[random[k]])
      {
        var draw := GetRandInt(|random| - n);
        SwapRandom(n, draw + n);
        RandomHas(info, random, n);
        out := out + [ToAddress(info[random[n]])];
      }
    }

    method Attempt(addr: nat, port: nat, time: int)
      requires Valid()
      modifies this`info
      ensures Valid()
      ensures addr !in addrs || addrs[addr] !in info || info[addrs[addr]].port != port ==> info == old(info)
      ensures addr in addrs && addrs[addr] in old(info) && old(info)[addrs[addr]].port == port ==>
        && var i := old(info)[addrs[addr]];
        && var tries := Max0(i.attempts) + 1;
        && info == old(info)[addrs[addr] := i.(lastTry := time, attempts := if tries < 27 then tries else 27)]
        && (old(Timely()) ==> (Timely() <==> time >= 0))
    {
      hide RandomOk, AddrsOk, TriedOk, FreshOk, CountsOk, IdsOk, Refs;
      if addr !in addrs {
        return;
      }
      AddrsAt(info, addrs, addr);
      var id := addrs[addr];
      if info[id].port != port {
        return;
      }
      var tries := Max0(info[id].attempts) + 1;
      var i := info[id].(lastTry := time, attempts := if tries < 27 then tries else 27);
      TouchKeeps(key, View(), id, i);
      info := info[id := i];
    }

    method Connected(addr: nat, port: nat, time: int)
      requires Valid()
      modifies this`info
      ensures Valid()
      ensures addr !in addrs || addrs[addr] !in info || info[addrs[addr]].port != port ==> info == old(info)
      ensures addr in addrs && addrs[addr] in old(info) && old(info)[addrs[addr]].port == port ==>
        && var i := old(info)[addrs[addr]];
        info == old(info)[addrs[addr] := i.(time := if time - i.time > 20 * 60 then time else i.time)]
      ensures old(Timely()) ==> Timely()
    {
      hide RandomOk, AddrsOk, TriedOk, FreshOk, CountsOk, IdsOk, Refs;
      if addr !in addrs {
        return;
      }
      AddrsAt(info, addrs, addr);
      var id := addrs[addr];
      if info[id].port != port {
        return;
      }
      if time - info[id].time > 20 * 60 {
        TouchKeeps(key, View(), id, info[id].(time := time));
        info := info[id := info[id].(time := time)];
      }
    }
  }
}
