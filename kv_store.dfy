/**
 * The key-value backend the caches sit in front of (Redis or Memcached), as
 * an abstract store: a map from key to a value with an optional absolute
 * expiry instant. Every operation is given the instant `now` at which it
 * runs; an entry whose expiry is not after `now` is gone.
 *
 * Store-model choices (the backends differ or fail here, the caches never
 * rely on the difference):
 *  - a key is read with the type its caller expects: a counter read of a key
 *    that holds no counter, or a hash read of a key that holds no hash, sees
 *    nothing, and a write of that type replaces what was there;
 *  - Redis INCR / HINCRBY on a missing counter or field store 1; Memcached
 *    `increment` on a missing key changes nothing and fails;
 *  - counters are unbounded naturals.
 */
module KvStore {
  import opened Basics

  datatype Value =
    | Num(n: nat)                          // a counter, a marker, a timestamp
    | Blob(data: seq<byte>)                // an opaque payload
    | Table(fields: map<string, nat>)      // a Redis hash

  datatype Entry = Entry(value: Value, expiry: Option<nat>)

  type Db = map<string, Entry>

  predicate Live(e: Entry, now: nat) {
    e.expiry.None? || now < e.expiry.value
  }

  /** EXISTS: the key holds an entry that has not expired. */
  predicate Present(db: Db, k: string, now: nat) {
    k in db && Live(db[k], now)
  }

  /** GET of a counter; `None` stands for PHP's `false`. */
  function NumAt(db: Db, k: string, now: nat): Option<nat> {
    if Present(db, k, now) && db[k].value.Num? then Some(db[k].value.n) else None
  }

  /** PHP truthiness of a counter read: present and not 0. */
  predicate Truthy(v: Option<nat>) {
    v.Some? && v.value != 0
  }

  /** The version a counter read stands for: the stored one when truthy, else 1. */
  function CounterVersion(db: Db, k: string, now: nat): (v: nat)
    ensures v >= 1
    ensures Truthy(NumAt(db, k, now)) ==> NumAt(db, k, now) == Some(v)
  {
    var stored := NumAt(db, k, now);
    if Truthy(stored) then stored.value else 1
  }

  predicate IsSet(db: Db, k: string, now: nat) {
    Truthy(NumAt(db, k, now))
  }

  /** MGET: one counter read per key, in order. */
  function NumsAt(db: Db, ks: seq<string>, now: nat): (vs: seq<Option<nat>>)
    ensures |vs| == |ks|
    ensures forall i :: 0 <= i < |ks| ==> vs[i] == NumAt(db, ks[i], now)
  {
    seq(|ks|, i requires 0 <= i < |ks| => NumAt(db, ks[i], now))
  }

  /** GET of a payload. */
  function BlobAt(db: Db, k: string, now: nat): Option<seq<byte>> {
    if Present(db, k, now) && db[k].value.Blob? then Some(db[k].value.data) else None
  }

  /** HGETALL: the fields of a live hash, none otherwise. */
  function FieldsAt(db: Db, k: string, now: nat): map<string, nat> {
    if Present(db, k, now) && db[k].value.Table? then db[k].value.fields else map[]
  }

  /** HGET of one field. */
  function FieldAt(db: Db, k: string, f: string, now: nat): Option<nat> {
    var fs := FieldsAt(db, k, now);
    if f in fs then Some(fs[f]) else None
  }

  /** SET / SETEX / Memcached set. */
  function Put(db: Db, k: string, v: Value, expiry: Option<nat>): Db {
    db[k := Entry(v, expiry)]
  }

  /** A payload just written is read back while it lives. */
  lemma BlobAtPut(db: Db, k: string, data: seq<byte>, expiry: Option<nat>, now: nat)
    requires Live(Entry(Blob(data), expiry), now)
    ensures BlobAt(Put(db, k, Blob(data), expiry), k, now) == Some(data)
  {
  }

  /** SETEX's expiry: `ttl` seconds from now. */
  function After(now: nat, ttl: nat): Option<nat> {
    Some(now + ttl)
  }

  /**
   * Memcached's expiration argument: 0 never expires, a value above 30 days
   * is an absolute Unix time, a negative one has already expired.
   */
  function MemcachedExpiry(ttl: int, now: nat): Option<nat> {
    if ttl == 0 then None
    else if ttl < 0 then Some(now)
    else if ttl > 2592000 then Some(ttl)
    else Some(now + ttl)
  }

  /** The value INCR / HINCRBY leave behind: one more than the old one, 1 from nothing. */
  function Succ(prev: Option<nat>): (n: nat)
    ensures n >= 1
    ensures prev.Some? ==> n == prev.value + 1
  {
    match prev
    case Some(v) => v + 1
    case None => 1
  }

  /** A counter after `k` increments: as it was for none, else `k` above its old value (0 when absent). */
  function Raised(v: Option<nat>, k: nat): Option<nat> {
    if k == 0 then v else Some(v.GetOr(0) + k)
  }

  /** One more increment on top of `k`. */
  lemma RaisedStep(v: Option<nat>, k: nat)
    ensures Raised(v, k + 1) == Some(Succ(Raised(v, k)))
  {
  }

  /** Redis INCR: a live counter keeps its time to live, a new one has none. */
  function Bumped(db: Db, k: string, now: nat): (db': Db)
    ensures NumAt(db', k, now) == Some(Succ(NumAt(db, k, now)))
  {
    var keep := if NumAt(db, k, now).Some? then db[k].expiry else None;
    db[k := Entry(Num(Succ(NumAt(db, k, now))), keep)]
  }

  /** Memcached increment: only a live counter moves. */
  function BumpedIfPresent(db: Db, k: string, now: nat): (db': Db)
    ensures NumAt(db, k, now).Some? ==> NumAt(db', k, now) == Some(NumAt(db, k, now).value + 1)
    ensures NumAt(db, k, now).None? ==> db' == db
  {
    if NumAt(db, k, now).Some? then db[k := Entry(Num(NumAt(db, k, now).value + 1), db[k].expiry)] else db
  }

  /** The expiry a hash keeps when it is written: its own while live, none when created. */
  function TableExpiry(db: Db, k: string, now: nat): Option<nat> {
    if Present(db, k, now) && db[k].value.Table? then db[k].expiry else None
  }

  /** HSET of one field. */
  function WithField(db: Db, k: string, f: string, v: nat, now: nat): (db': Db)
    ensures FieldsAt(db', k, now) == FieldsAt(db, k, now)[f := v]
  {
    db[k := Entry(Table(FieldsAt(db, k, now)[f := v]), TableExpiry(db, k, now))]
  }

  /** HINCRBY by one. */
  function FieldBumped(db: Db, k: string, f: string, now: nat): (db': Db)
    ensures FieldsAt(db', k, now) == FieldsAt(db, k, now)[f := Succ(FieldAt(db, k, f, now))]
  {
    WithField(db, k, f, Succ(FieldAt(db, k, f, now)), now)
  }

  /** HDEL of one field; Redis drops a hash whose last field goes. */
  function WithoutField(db: Db, k: string, f: string, now: nat): (db': Db)
    ensures FieldsAt(db', k, now) == FieldsAt(db, k, now) - {f}
  {
    var fs := FieldsAt(db, k, now);
    if f !in fs then db
    else if fs - {f} == map[] then db - {k}
    else db[k := Entry(Table(fs - {f}), db[k].expiry)]
  }

  /** HDEL of every field in `fs`: the order of the deletions does not matter (see `WithoutFieldsStep`). */
  function WithoutFields(db: Db, k: string, fs: set<string>, now: nat): (db': Db)
    ensures FieldsAt(db', k, now) == FieldsAt(db, k, now) - fs
  {
    var cur := FieldsAt(db, k, now);
    if cur.Keys * fs == {} then
      assert cur - fs == cur by {
        forall x | x in fs ensures x !in cur {
          assert x !in cur.Keys * fs;
        }
      }
      db
    else if cur - fs == map[] then db - {k}
    else db[k := Entry(Table(cur - fs), db[k].expiry)]
  }

  /** Deleting one more field after a batch is deleting the larger batch. */
  lemma WithoutFieldsStep(db: Db, k: string, fs: set<string>, f: string, now: nat)
    ensures WithoutField(WithoutFields(db, k, fs, now), k, f, now) == WithoutFields(db, k, fs + {f}, now)
  {
    var cur := FieldsAt(db, k, now);
    assert cur - fs - {f} == cur - (fs + {f});
    if cur.Keys * fs == {} {
      if f in cur {
        assert cur - {f} == cur - (fs + {f});
      } else {
        assert cur.Keys * (fs + {f}) == {};
      }
    }
  }

  /** Two stores agree at every key except those in `ks`. */
  ghost predicate AgreeExcept(db: Db, db': Db, ks: set<string>) {
    forall k :: k !in ks ==> (k in db <==> k in db') && (k in db ==> db[k] == db'[k])
  }

  /** The backend: one database of the server, mutated in place by the caches' calls. */
  class Store {
    var entries: Db

    constructor ()
      ensures entries == map[]
    {
      entries := map[];
    }

    method Get(k: string, now: nat) returns (v: Option<nat>)
      ensures v == NumAt(entries, k, now)
    {
      v := NumAt(entries, k, now);
    }

    method MGet(ks: seq<string>, now: nat) returns (vs: seq<Option<nat>>)
      ensures vs == NumsAt(entries, ks, now)
    {
      vs := NumsAt(entries, ks, now);
    }

    method GetBlob(k: string, now: nat) returns (v: Option<seq<byte>>)
      ensures v == BlobAt(entries, k, now)
    {
      v := BlobAt(entries, k, now);
    }

    method Exists(k: string, now: nat) returns (b: bool)
      ensures b == Present(entries, k, now)
    {
      b := Present(entries, k, now);
    }

    method Set(k: string, v: Value, expiry: Option<nat>)
      modifies this
      ensures entries == Put(old(entries), k, v, expiry)
    {
      entries := Put(entries, k, v, expiry);
    }

    /** Redis INCR; answers the new value. */
    method Incr(k: string, now: nat) returns (n: nat)
      modifies this
      ensures n == Succ(NumAt(old(entries), k, now))
      ensures entries == Bumped(old(entries), k, now)
    {
      n := Succ(NumAt(entries, k, now));
      entries := Bumped(entries, k, now);
    }

    /** Memcached increment; answers the new value, or `None` (false) for a missing key. */
    method Increment(k: string, now: nat) returns (n: Option<nat>)
      modifies this
      ensures n == if NumAt(old(entries), k, now).Some? then Some(NumAt(old(entries), k, now).value + 1) else None
      ensures entries == BumpedIfPresent(old(entries), k, now)
    {
      var cur := NumAt(entries, k, now);
      n := if cur.Some? then Some(cur.value + 1) else None;
      entries := BumpedIfPresent(entries, k, now);
    }

    method HGet(k: string, f: string, now: nat) returns (v: Option<nat>)
      ensures v == FieldAt(entries, k, f, now)
    {
      v := FieldAt(entries, k, f, now);
    }

    method HGetAll(k: string, now: nat) returns (fs: map<string, nat>)
      ensures fs == FieldsAt(entries, k, now)
    {
      fs := FieldsAt(entries, k, now);
    }

    method HSet(k: string, f: string, v: nat, now: nat)
      modifies this
      ensures entries == WithField(old(entries), k, f, v, now)
    {
      entries := WithField(entries, k, f, v, now);
    }

    method HIncrBy(k: string, f: string, now: nat) returns (n: nat)
      modifies this
      ensures n == Succ(FieldAt(old(entries), k, f, now))
      ensures entries == FieldBumped(old(entries), k, f, now)
    {
      n := Succ(FieldAt(entries, k, f, now));
      entries := FieldBumped(entries, k, f, now);
    }

    method HDel(k: string, f: string, now: nat)
      modifies this
      ensures entries == WithoutField(old(entries), k, f, now)
    {
      entries := WithoutField(entries, k, f, now);
    }

    /** FLUSHDB: the database becomes empty. */
    method FlushDb()
      modifies this
      ensures entries == map[]
    {
      entries := map[];
    }
  }
}
