/** The key-value store (common/rocks_store.py): string keys held as UTF-8 bytes. */
module Store {
  import opened Outcomes
  import opened Sets
  import opened Utf8

  class RocksStore<V(==)> {
    var db: map<Bytes, V>
    /** The same content under its string keys. */
    ghost var contents: map<string, V>

    /** Every stored key is the encoding of a string, and the two views agree. */
    ghost predicate Valid()
      reads this
    {
      && (forall b :: b in db ==> Decode(b).Some? && Encode(Decode(b).value) == b && Decode(b).value in contents)
      && (forall s :: s in contents ==> Encode(s) in db && db[Encode(s)] == contents[s])
    }

    constructor ()
      ensures Valid() && contents == map[]
    {
      db, contents := map[], map[];
    }

    method Put(key: string, value: V)
      requires Valid()
      modifies this
      ensures Valid() && contents == old(contents)[key := value]
    {
      DecodeEncode(key);
      ghost var before := contents;
      db := db[Encode(key) := value];
      contents := contents[key := value];
      forall s | s in contents ensures Encode(s) in db && db[Encode(s)] == contents[s] {
        if s != key {
          assert s in before;
          if Encode(s) == Encode(key) {
            EncodeInjective(s, key);
          }
        }
      }
    }

    method Get(key: string) returns (r: Option<V>)
      requires Valid()
      ensures r == if key in contents then Some(contents[key]) else None
    {
      DecodeEncode(key);
      r := if Encode(key) in db then Some(db[Encode(key)]) else None;
    }

    method Delete(key: string)
      requires Valid()
      modifies this
      ensures Valid() && contents == old(contents) - {key}
    {
      ghost var before := contents;
      Forget(Encode(key));
      contents := contents - {key};
      forall s | s in before ensures Encode(s) == Encode(key) ==> s == key {
        if Encode(s) == Encode(key) {
          EncodeInjective(s, key);
        }
      }
      DecodeEncode(key);
    }

    /** `del db[k]`, silent when the key is absent. */
    method Forget(k: Bytes)
      modifies this`db
      ensures db == old(db) - {k}
    {
      db := db - {k};
    }

    /** All pairs whose key starts with `prefix`. */
    method Items(prefix: string) returns (items: map<string, V>)
      requires Valid()
      ensures forall s :: s in items <==> s in contents && prefix <= s
      ensures forall s :: s in items ==> items[s] == contents[s]
    {
      items := map[];
      var rest := db.Keys;
      while rest != {}
        invariant rest <= db.Keys
        invariant forall s :: s in items <==> s in contents && prefix <= s && Encode(s) !in rest
        invariant forall s :: s in items ==> items[s] == contents[s]
        decreases rest
      {
        ghost var some := Pick(rest);
        var k :| k in rest;
        var key := Decode(k).value;
        PrefixOfEncoding(prefix, key);
        if Encode(prefix) <= k {
          items := items[key := db[k]];
        }
        forall s | s in contents && Encode(s) == k ensures s == key {
          EncodeInjective(s, key);
        }
        rest := rest - {k};
      }
    }

    /** `clear_prefix`: whether the range delete is available or the fallback runs, exactly the keys
        with the prefix go; the fallback also counts them. */
    method ClearPrefix(prefix: string, rangeDelete: bool) returns (deleted: int)
      requires Valid()
      modifies this
      ensures Valid()
      ensures forall s :: s in contents <==> s in old(contents) && !(prefix <= s)
      ensures forall s :: s in contents ==> contents[s] == old(contents)[s]
      ensures deleted == if rangeDelete then -1 else |old(db)| - |db|
    {
      var lo := Encode(prefix);
      ghost var before := contents;
      if rangeDelete {
        var hi := lo + EIGHT_FF;
        db := map k | k in db && !InRange(lo, hi, k) :: db[k];
        deleted := -1;
      } else {
        deleted := ClearByIteration(lo);
      }
      contents := map s | s in contents && !(prefix <= s) :: contents[s];
      forall s | s in before
        ensures prefix <= s <==> lo <= Encode(s)
        ensures InRange(lo, lo + EIGHT_FF, Encode(s)) <==> lo <= Encode(s)
      {
        PrefixOfEncoding(prefix, s);
        NoByteFF(s);
        RangeIsPrefix(lo, Encode(s));
      }
    }

    /** The keys `gone` are deleted but for those of the batch that is not yet written. */
    ghost predicate Pending(before: map<Bytes, V>, gone: set<Bytes>, batch: set<Bytes>, deleted: nat)
      reads this`db
    {
      && batch <= gone && deleted == |gone| && (deleted % 1000 == 0 ==> batch == {})
      && db == before - (gone - batch)
    }

    /** The fallback: deletions are collected and written in batches of a thousand. */
    method ClearByIteration(lo: Bytes) returns (deleted: nat)
      modifies this`db
      ensures db == map k | k in old(db) && !(lo <= k) :: old(db)[k]
      ensures deleted == |old(db)| - |db|
    {
      deleted := 0;
      ghost var before := db;
      var rest := db.Keys;
      var batch: set<Bytes> := {};
      ghost var gone: set<Bytes> := {};
      assert Deleted(before.Keys - rest, lo, gone) && before - (gone - batch) == before;
      while rest != {}
        invariant rest <= before.Keys && Deleted(before.Keys - rest, lo, gone)
        invariant Pending(before, gone, batch, deleted)
        decreases rest
      {
        hide StartsWith, Deleted, Pending;
        ghost var some := Pick(rest);
        var k :| k in rest;
        DeletedOneMore(before.Keys, rest, lo, gone, k);
        if StartsWith(lo, k) {
          batch, deleted := DeleteOne(before, gone, batch, deleted, k);
          gone := gone + {k};
        }
        rest := rest - {k};
      }
      WriteRest(before, gone, batch, deleted);
      hide StartsWith;
      RemovedCount(before.Keys, db.Keys, gone);
      StartsWithMeans(lo);
    }

    method DeleteOne(ghost before: map<Bytes, V>, ghost gone: set<Bytes>, batch: set<Bytes>, deleted: nat, k: Bytes)
      returns (batch': set<Bytes>, deleted': nat)
      requires Pending(before, gone, batch, deleted) && k !in gone
      modifies this`db
      ensures Pending(before, gone + {k}, batch', deleted')
    {
      PendingOneMore(gone, batch, k);
      batch', deleted' := batch + {k}, deleted + 1;
      if deleted' % 1000 == 0 {
        WriteBatch(before, gone + {k}, batch');
        db := db - batch';
        batch' := {};
      }
    }

    method WriteRest(ghost before: map<Bytes, V>, ghost gone: set<Bytes>, batch: set<Bytes>, deleted: nat)
      requires Pending(before, gone, batch, deleted)
      modifies this`db
      ensures db == before - gone && deleted == |gone|
    {
      WriteBatch(before, gone, batch);
      if deleted > 0 && deleted % 1000 != 0 {
        db := db - batch;
      }
    }
  }

  /** `gone` are the keys among `keys` to be deleted. */
  ghost predicate Deleted(keys: set<Bytes>, lo: Bytes, gone: set<Bytes>) {
    forall k :: k in gone <==> k in keys && StartsWith(lo, k)
  }

  lemma DeletedOneMore(keys: set<Bytes>, rest: set<Bytes>, lo: Bytes, gone: set<Bytes>, k: Bytes)
    requires Deleted(keys - rest, lo, gone) && k in rest && rest <= keys
    ensures Deleted(keys - (rest - {k}), lo, if StartsWith(lo, k) then gone + {k} else gone)
    ensures k !in gone
  {
  }

  lemma PendingOneMore(gone: set<Bytes>, batch: set<Bytes>, k: Bytes)
    requires k !in gone
    ensures gone + {k} - (batch + {k}) == gone - batch && |gone + {k}| == |gone| + 1
  {
  }

  lemma WriteBatch<V>(before: map<Bytes, V>, gone: set<Bytes>, batch: set<Bytes>)
    requires batch <= gone
    ensures before - (gone - batch) - batch == before - gone
    ensures gone - {} == gone
  {
  }

  /** `k_raw.startswith(prefix_bytes)` */
  predicate StartsWith(lo: Bytes, k: Bytes) {
    lo <= k
  }

  lemma StartsWithMeans(lo: Bytes)
    ensures forall k :: StartsWith(lo, k) <==> lo <= k
  {
  }

  lemma RemovedCount<T>(all: set<T>, kept: set<T>, gone: set<T>)
    requires gone <= all && forall x :: x in kept <==> x in all && x !in gone
    ensures |gone| == |all| - |kept|
  {
    assert all == kept + gone && kept !! gone;
  }
}
