/** The explorer database: a store with a batch of pending changes laid over it. */
module ExploreDb {

  import opened Options

  datatype Op<K, V> = Put(key: K, value: V) | Delete(key: K)

  type Store<K, V> = map<K, V>

  function ApplyOp<K, V>(s: Store<K, V>, op: Op<K, V>): Store<K, V> {
    match op
    case Put(k, v) => s[k := v]
    case Delete(k) => s - {k}
  }

  /** What writing the batch does to the store: its operations, in order. */
  function Apply<K, V>(s: Store<K, V>, ops: seq<Op<K, V>>): Store<K, V> {
    if ops == [] then s else ApplyOp(Apply(s, ops[..|ops|-1]), ops[|ops|-1])
  }

  function Lookup<K, V>(s: Store<K, V>, k: K): Option<V> {
    if k in s then Some(s[k]) else None
  }

  // ------------------------------------------------------------------ the last operation wins

  predicate LastOn<K(==), V>(ops: seq<Op<K, V>>, k: K, n: nat) {
    n < |ops| && ops[n].key == k && forall j :: n < j < |ops| ==> ops[j].key != k
  }

  predicate Untouched<K(==), V>(ops: seq<Op<K, V>>, k: K) {
    forall j :: 0 <= j < |ops| ==> ops[j].key != k
  }

  lemma {:induction false} LastOperationWins<K, V>(s: Store<K, V>, ops: seq<Op<K, V>>, k: K, n: nat)
    requires LastOn(ops, k, n)
    ensures Lookup(Apply(s, ops), k) == match ops[n] case Put(_, v) => Some(v) case Delete(_) => None
  {
    var last := |ops| - 1;
    if n < last {
      LastOperationWins(s, ops[..last], k, n);
    }
  }

  lemma {:induction false} UntouchedStays<K, V>(s: Store<K, V>, ops: seq<Op<K, V>>, k: K)
    requires Untouched(ops, k)
    ensures Lookup(Apply(s, ops), k) == Lookup(s, k)
  {
    if ops != [] {
      UntouchedStays(s, ops[..|ops|-1], k);
    }
  }

  /** ScanBatch: the handler sees every operation, so that the last one on the key decides. */
  method ScanBatch<K(==), V>(ops: seq<Op<K, V>>, key: K) returns (found: bool, deleted: bool, value: Option<V>)
    ensures found <==> !Untouched(ops, key)
    ensures (deleted ==> found) && (found && !deleted ==> value.Some?)
    ensures forall s: Store<K, V> :: Lookup(Apply(s, ops), key)
              == if !found then Lookup(s, key) else if deleted then None else value
  {
    found, deleted, value := false, false, None;
    ghost var n := 0;
    for i := 0 to |ops|
      invariant found <==> exists j :: 0 <= j < i && ops[j].key == key
      invariant found ==> n < i && ops[n].key == key && forall j :: n < j < i ==> ops[j].key != key
      invariant (deleted ==> found) && (found ==> (deleted <==> ops[n].Delete?))
      invariant found && !deleted ==> value == Some(ops[n].value)
    {
      if ops[i].key == key {
        found, n := true, i;
        match ops[i]
        case Put(_, v) => deleted, value := false, Some(v);
        case Delete(_) => deleted := true;
      }
    }
    forall s: Store<K, V>
      ensures Lookup(Apply(s, ops), key) == if !found then Lookup(s, key) else if deleted then None else value
    {
      if found {
        LastOperationWins(s, ops, key, n);
      } else {
        UntouchedStays(s, ops, key);
      }
    }
  }

  class Db<K(==), V> {
    var store: Store<K, V>
    var batch: Option<seq<Op<K, V>>>

    constructor ()
      ensures store == map[] && batch == None
    {
      store, batch := map[], None;
    }

    /** The contents a reader must see: the store as it would be after a commit. */
    ghost function Contents(): Store<K, V>
      reads this
    {
      match batch
      case None => store
      case Some(ops) => Apply(store, ops)
    }

    method Read(key: K) returns (r: Option<V>)
      ensures r == Lookup(Contents(), key)
    {
      if batch.Some? {
        var found, deleted, value := ScanBatch(batch.value, key);
        assert Lookup(Apply(store, batch.value), key)
               == if !found then Lookup(store, key) else if deleted then None else value;
        if deleted {
          return None;
        }
        if found {
          return value;
        }
      }
      return Lookup(store, key);
    }

    method IsViable(key: K) returns (r: bool)
      ensures r <==> key in Contents()
    {
      if batch.Some? {
        var found, deleted, value := ScanBatch(batch.value, key);
        assert Lookup(Apply(store, batch.value), key)
               == if !found then Lookup(store, key) else if deleted then None else value;
        if found {
          return !deleted;
        }
      }
      return key in store;
    }

    method Write(key: K, value: V)
      modifies this
      ensures Contents() == old(Contents())[key := value]
      ensures if old(batch).Some? then store == old(store) && batch.Some? else batch == None
    {
      if batch.Some? {
        PushOp(store, batch.value, Put(key, value));
        batch := Some(batch.value + [Put(key, value)]);
        return;
      }
      store := store[key := value];
    }

    method Erase(key: K)
      modifies this
      ensures Contents() == old(Contents()) - {key}
      ensures if old(batch).Some? then store == old(store) && batch.Some? else batch == None
    {
      if batch.Some? {
        PushOp(store, batch.value, Delete(key));
        batch := Some(batch.value + [Delete(key)]);
        return;
      }
      store := store - {key};
    }

    method RemoveRecord(key: K) returns (ok: bool)
      modifies this
      ensures ok <==> key in old(Contents())
      ensures Contents() == old(Contents()) - {key}
    {
      var viable := IsViable(key);
      if viable {
        Erase(key);
        return true;
      }
      return false;
    }

    method TxnBegin()
      requires batch == None
      modifies this
      ensures batch == Some([]) && store == old(store) && Contents() == old(Contents())
    {
      batch := Some([]);
    }

    method TxnCommit()
      requires batch.Some?
      modifies this
      ensures batch == None && store == old(Contents())
    {
      WriteBatch();
      batch := None;
    }

    /** What LevelDB does with a batch. */
    method WriteBatch()
      requires batch.Some?
      modifies this`store
      ensures store == old(Contents())
    {
      var ops := batch.value;
      for i := 0 to |ops|
        invariant store == Apply(old(store), ops[..i])
      {
        assert ops[..i+1][..i] == ops[..i];
        store := ApplyOp(store, ops[i]);
      }
      assert ops[..|ops|] == ops;
    }

    method TxnAbort()
      modifies this
      ensures batch == None && store == old(store)
    {
      batch := None;
    }
  }

  lemma PushOp<K, V>(s: Store<K, V>, ops: seq<Op<K, V>>, op: Op<K, V>)
    ensures Apply(s, ops + [op]) == ApplyOp(Apply(s, ops), op)
  {
    assert (ops + [op])[..|ops|] == ops;
  }

  // ------------------------------------------------------------------ whole transactions

  /** A transaction that runs the given operations and is then ended one way or the other; `seen` is what a
      read of the key says just before. */
  method Transaction<K(==), V>(db: Db<K, V>, ops: seq<Op<K, V>>, key: K, commit: bool) returns (seen: Option<V>)
    requires db.batch == None
    modifies db
    ensures db.batch == None
    ensures db.store == if commit then Apply(old(db.store), ops) else old(db.store)
    ensures seen == Lookup(Apply(old(db.store), ops), key)
  {
    db.TxnBegin();
    for i := 0 to |ops|
      invariant db.batch.Some? && db.store == old(db.store)
      invariant db.Contents() == Apply(old(db.store), ops[..i])
    {
      assert ops[..i+1][..i] == ops[..i];
      match ops[i]
      case Put(k, v) => db.Write(k, v);
      case Delete(k) => db.Erase(k);
    }
    assert ops[..|ops|] == ops;
    seen := db.Read(key);
    if commit {
      db.TxnCommit();
    } else {
      db.TxnAbort();
    }
  }
}
