/**
 * `TaggedCache\Memcache`: tag versions and the namespace epoch as plain
 * Memcached counters. A tag's version lives under "TCM:key:" + tag with a
 * time to live of 90000 seconds and is created at 1 on first use; the epoch
 * lives under "TCM:namespace"; fingerprints are
 * "TCM:" + namespace + ':' + 43 URL-safe characters of a sha256 digest.
 * There is no connection flag: every operation goes to the store.
 */
module SrcMemcache {
  import opened Basics
  import opened Text
  import opened Ordering
  import opened Encoding
  import opened KvStore
  import opened Fingerprint

  const NamespaceKey: string := "TCM:namespace"
  /** The time to live `getTagValue` gives a version it creates. */
  const TagTtl: int := 90000

  function TagKey(tag: string): (k: string)
    ensures |k| == 8 + |tag| && k[..8] == "TCM:key:" && k[8..] == tag
  {
    "TCM:key:" + tag
  }

  /** The keys that hold tag versions. */
  predicate IsTagKey(k: string) {
    |k| >= 8 && k[..8] == "TCM:key:"
  }

  /** Two stores agree at every key that holds no tag version. */
  ghost predicate AgreeOutsideTags(db: Db, db': Db) {
    forall k :: !IsTagKey(k) ==> (k in db <==> k in db') && (k in db ==> db[k] == db'[k])
  }

  // ------------------------------------------------------- getTagValue

  /** `getTagValue`'s store effect: a falsy version is stored as 1 for 90000 seconds. */
  function Touched(db: Db, tag: string, now: nat): Db {
    if Truthy(NumAt(db, TagKey(tag), now)) then db
    else Put(db, TagKey(tag), Num(1), MemcachedExpiry(TagTtl, now))
  }

  /** What `getTagValue` answers. */
  function Version(db: Db, tag: string, now: nat): (v: nat)
    ensures v >= 1
  {
    CounterVersion(db, TagKey(tag), now)
  }

  /** The store effect of `genkey`'s loop. */
  function TouchedAll(db: Db, tags: seq<string>, now: nat): Db
    decreases |tags|
  {
    if tags == [] then db else Touched(TouchedAll(db, tags[..|tags| - 1], now), tags[|tags| - 1], now)
  }

  /** The versions `genkey`'s loop collects, one per tag, in order. */
  function VersionsOf(db: Db, tags: seq<string>, now: nat): (vs: seq<nat>)
    ensures |vs| == |tags|
    ensures forall i :: 0 <= i < |vs| ==> vs[i] >= 1
    decreases |tags|
  {
    if tags == [] then []
    else
      var n := |tags| - 1;
      VersionsOf(db, tags[..n], now) + [Version(TouchedAll(db, tags[..n], now), tags[n], now)]
  }

  /** One more tag in `genkey`'s loop. */
  lemma GenKeyStep(db: Db, tags: seq<string>, i: nat, now: nat)
    requires i < |tags|
    ensures TouchedAll(db, tags[..i + 1], now) == Touched(TouchedAll(db, tags[..i], now), tags[i], now)
    ensures VersionsOf(db, tags[..i + 1], now) == VersionsOf(db, tags[..i], now) + [Version(TouchedAll(db, tags[..i], now), tags[i], now)]
    ensures TagsText(tags[..i + 1]) == TagsText(tags[..i]) + "_" + tags[i]
  {
    assert tags[..i + 1][..i] == tags[..i];
  }

  /**
   * One `getTagValue`: the tag's counter ends truthy (1 when it was falsy,
   * untouched otherwise), every other key is as it was.
   */
  lemma TouchedReads(db: Db, tag: string, now: nat, t: string)
    ensures NumAt(Touched(db, tag, now), TagKey(t), now)
         == if t == tag && !Truthy(NumAt(db, TagKey(t), now)) then Some(1) else NumAt(db, TagKey(t), now)
    ensures AgreeExcept(db, Touched(db, tag, now), {TagKey(tag)})
    ensures AgreeOutsideTags(db, Touched(db, tag, now))
  {
    assert MemcachedExpiry(TagTtl, now) == Some(now + 90000);
    assert TagKey(t) == TagKey(tag) ==> t == tag;
  }

  /** `genkey` leaves every listed tag with a truthy version (1 if it had none) and touches no other kind of key. */
  lemma {:induction false} TouchedAllReads(db: Db, tags: seq<string>, now: nat, t: string)
    ensures NumAt(TouchedAll(db, tags, now), TagKey(t), now)
         == if t in tags && !Truthy(NumAt(db, TagKey(t), now)) then Some(1) else NumAt(db, TagKey(t), now)
    ensures AgreeOutsideTags(db, TouchedAll(db, tags, now))
    decreases |tags|
  {
    if tags != [] {
      var n := |tags| - 1;
      TouchedAllReads(db, tags[..n], now, t);
      TouchedReads(TouchedAll(db, tags[..n], now), tags[n], now, t);
      PrefixMembers(tags, n);
      assert t in tags ==> t in tags[..n] || t == tags[n] by {
        if t in tags {
          var i :| 0 <= i < |tags| && tags[i] == t;
          if i < n { assert tags[..n][i] == t; }
        }
      }
    }
  }

  /** The versions `genkey` hashes are the ones it leaves stored. */
  lemma {:induction false} VersionsAreStored(db: Db, tags: seq<string>, now: nat)
    ensures forall i :: 0 <= i < |tags| ==>
      NumAt(TouchedAll(db, tags, now), TagKey(tags[i]), now) == Some(VersionsOf(db, tags, now)[i])
    decreases |tags|
  {
    if tags != [] {
      var n := |tags| - 1;
      var s := TouchedAll(db, tags[..n], now);
      var vs := VersionsOf(db, tags, now);
      VersionsAreStored(db, tags[..n], now);
      assert vs == VersionsOf(db, tags[..n], now) + [Version(s, tags[n], now)];
      forall i | 0 <= i < |tags|
        ensures NumAt(Touched(s, tags[n], now), TagKey(tags[i]), now) == Some(vs[i])
      {
        TouchedReads(s, tags[n], now, tags[i]);
        if i < n {
          assert tags[i] == tags[..n][i];
          assert vs[i] == VersionsOf(db, tags[..n], now)[i];
          assert NumAt(s, TagKey(tags[i]), now) == Some(vs[i]);
        }
      }
    }
  }

  /** Every listed tag holds a truthy version. */
  predicate Settled(db: Db, tags: seq<string>, now: nat) {
    forall t :: t in tags ==> Truthy(NumAt(db, TagKey(t), now))
  }

  lemma GenKeySettles(db: Db, tags: seq<string>, now: nat)
    ensures Settled(TouchedAll(db, tags, now), tags, now)
  {
    forall t | t in tags
      ensures Truthy(NumAt(TouchedAll(db, tags, now), TagKey(t), now))
    {
      TouchedAllReads(db, tags, now, t);
    }
  }

  /** On a settled store `genkey` writes nothing and hashes the stored versions. */
  lemma {:induction false} TouchedAllSettled(db: Db, tags: seq<string>, now: nat)
    requires Settled(db, tags, now)
    ensures TouchedAll(db, tags, now) == db
    ensures forall i :: 0 <= i < |tags| ==> NumAt(db, TagKey(tags[i]), now) == Some(VersionsOf(db, tags, now)[i])
    decreases |tags|
  {
    if tags != [] {
      var n := |tags| - 1;
      PrefixMembers(tags, n);
      TouchedAllSettled(db, tags[..n], now);
      assert tags[n] in tags;
      var vs := VersionsOf(db, tags, now);
      assert vs == VersionsOf(db, tags[..n], now) + [Version(db, tags[n], now)];
      forall i | 0 <= i < n
        ensures NumAt(db, TagKey(tags[i]), now) == Some(vs[i])
      {
        assert tags[i] == tags[..n][i];
      }
    }
  }

  /** Writing a key that holds no version leaves a settled store settled. */
  lemma SettledUnderPut(db: Db, tags: seq<string>, now: nat, k: string, e: Entry)
    requires Settled(db, tags, now)
    requires !IsTagKey(k)
    ensures Settled(db[k := e], tags, now)
  {
    forall t | t in tags
      ensures NumAt(db[k := e], TagKey(t), now) == NumAt(db, TagKey(t), now)
    {
      assert k != TagKey(t);
    }
  }

  // ------------------------------------------------------------ genkey

  /** `$this->prefix . '_keys_' . $string . '_' . $tags_str . '_' . $tags_val`. */
  function PreHashOf(prefix: string, key: string, tags: seq<string>, vs: seq<nat>): string {
    PreHash(prefix + "_keys_" + key, TagsText(tags), VersionsText(vs))
  }

  /** `'TCM:' . $namespace . ':' . base64url(sha256(...))`. */
  function KeyAt(hash: Sha256, ns: Option<nat>, prefix: string, key: string, tags: seq<string>, vs: seq<nat>): string {
    ColonKey("TCM:", ns, Base64Url(hash(PreHashOf(prefix, key, tags, vs))))
  }

  /** The key `genkey` answers for `key` and `tags` on store `db`. */
  function GenKeyOf(hash: Sha256, ns: Option<nat>, prefix: string, key: string, tags: seq<string>, db: Db, now: nat): string {
    KeyAt(hash, ns, prefix, key, Sort(tags), VersionsOf(db, Sort(tags), now))
  }

  /** Listing the same tags in another order gives the same store effect and the same key. */
  lemma GenKeyOrderIndependent(hash: Sha256, ns: Option<nat>, prefix: string, key: string,
                               a: seq<string>, b: seq<string>, db: Db, now: nat)
    requires multiset(a) == multiset(b)
    ensures TouchedAll(db, Sort(a), now) == TouchedAll(db, Sort(b), now)
    ensures GenKeyOf(hash, ns, prefix, key, a, db, now) == GenKeyOf(hash, ns, prefix, key, b, db, now)
  {
    SortOrderIndependent(a, b);
  }

  /** "TCM:", the epoch's digits, ':' and 43 characters of the URL-safe alphabet. */
  lemma FingerprintLayout(hash: Sha256, ns: Option<nat>, prefix: string, key: string, tags: seq<string>, db: Db, now: nat)
    ensures var k := GenKeyOf(hash, ns, prefix, key, tags, db, now);
      var n := 4 + |NamespaceText(ns)|;
      |k| == n + 44 && k[..4] == "TCM:" && k[4..n] == NamespaceText(ns) && k[n] == ':' &&
      forall i :: n < i < |k| ==> IsUrlChar(k[i])
  {
    var sorted := Sort(tags);
    var vs := VersionsOf(db, sorted, now);
    var b := hash(PreHashOf(prefix, key, sorted, vs));
    Base64UrlIsUnpadded(b);
    Base64UrlWidths(b);
    UrlColonKey("TCM:", ns, Base64Url(b));
  }

  /** No fingerprint is the epoch's key or a version's key: its fifth character is ':' or a digit. */
  lemma FingerprintOutsideRegistry(hash: Sha256, ns: Option<nat>, prefix: string, key: string, tags: seq<string>, db: Db, now: nat)
    ensures var k := GenKeyOf(hash, ns, prefix, key, tags, db, now);
      k != NamespaceKey && !IsTagKey(k)
  {
    var sorted := Sort(tags);
    ColonKeyOutside(ns, Base64Url(hash(PreHashOf(prefix, key, sorted, VersionsOf(db, sorted, now)))));
  }

  lemma ColonKeyOutside(ns: Option<nat>, digest: string)
    ensures ColonKey("TCM:", ns, digest) != NamespaceKey && !IsTagKey(ColonKey("TCM:", ns, digest))
  {
    var k := ColonKey("TCM:", ns, digest);
    ColonKeyAfterHead("TCM:", ns, digest);
    assert NamespaceKey[4] == 'n';
    if |k| >= 8 {
      assert k[..8][4] == k[4];
    }
  }

  /** Keys under different namespaces never coincide. */
  lemma KeysSeparateNamespaces(hash: Sha256, ns1: Option<nat>, ns2: Option<nat>,
                               prefix1: string, prefix2: string, key1: string, key2: string,
                               tags1: seq<string>, tags2: seq<string>, vs1: seq<nat>, vs2: seq<nat>)
    requires ns1 != ns2
    ensures KeyAt(hash, ns1, prefix1, key1, tags1, vs1) != KeyAt(hash, ns2, prefix2, key2, tags2, vs2)
  {
    ColonKeySeparatesNamespaces("TCM:", ns1, ns2,
      Base64Url(hash(PreHashOf(prefix1, key1, tags1, vs1))), Base64Url(hash(PreHashOf(prefix2, key2, tags2, vs2))));
  }

  /** With prefix, key and tags fixed, the digest input tells version vectors apart. */
  lemma PreHashSeparatesVersionVectors(prefix: string, key: string, tags: seq<string>, a: seq<nat>, b: seq<nat>)
    requires |a| == |b| && a != b
    ensures PreHashOf(prefix, key, tags, a) != PreHashOf(prefix, key, tags, b)
  {
    if VersionsText(a) == VersionsText(b) {
      VersionsTextInjective(a, b);
    }
    PreHashSeparatesVersions(prefix + "_keys_" + key, TagsText(tags), VersionsText(a), VersionsText(b));
  }

  /** Memcached increment keeps a settled store settled. */
  lemma BumpKeepsSettled(db: Db, tags: seq<string>, t: string, now: nat)
    requires Settled(db, tags, now)
    ensures Settled(BumpedIfPresent(db, TagKey(t), now), tags, now)
  {
    var r := BumpedIfPresent(db, TagKey(t), now);
    forall u | u in tags
      ensures Truthy(NumAt(r, TagKey(u), now))
    {
      assert TagKey(u) == TagKey(t) ==> u == t;
    }
  }

  /**
   * Invalidation reaches the next fingerprint: after `genkey`, an increment
   * of one of its tags at the same instant changes the next digest input.
   */
  lemma BumpAfterGenKeyChangesPreHash(db: Db, prefix: string, key: string, tags: seq<string>, t: string, now: nat)
    requires t in tags
    ensures var s := TouchedAll(db, Sort(tags), now);
      PreHashOf(prefix, key, Sort(tags), VersionsOf(BumpedIfPresent(s, TagKey(t), now), Sort(tags), now))
      != PreHashOf(prefix, key, Sort(tags), VersionsOf(s, Sort(tags), now))
  {
    var sorted := Sort(tags);
    var s := TouchedAll(db, sorted, now);
    var s' := BumpedIfPresent(s, TagKey(t), now);
    SortKeepsMembers(tags, t);
    GenKeySettles(db, sorted, now);
    BumpKeepsSettled(s, sorted, t, now);
    TouchedAllSettled(s, sorted, now);
    TouchedAllSettled(s', sorted, now);
    var i :| 0 <= i < |sorted| && sorted[i] == t;
    PreHashSeparatesVersionVectors(prefix, key, sorted, VersionsOf(s', sorted, now), VersionsOf(s, sorted, now));
  }

  /**
   * An invalidation lasts only as long as the counter: increment keeps the
   * 90000-second expiry `getTagValue` gave it, so once that has passed the
   * version is 1 again, the one the fingerprints carried before `clean`;
   * and `clean` of a counter that has already expired changes nothing.
   */
  lemma InvalidationExpires(db: Db, t: string, now: nat, c: nat, later: nat)
    requires NumAt(db, TagKey(t), now).None?
    requires now <= c < now + TagTtl <= later
    ensures var s := TouchedAll(db, [t], now);
      var s' := Cleaned(s, CleaningModeMatchingTag, [t], c);
      VersionsOf(s, [t], now) == [1] && VersionsOf(s', [t], c) == [2] &&
      VersionsOf(s', [t], later) == [1] &&
      Cleaned(s', CleaningModeMatchingTag, [t], later) == s'
  {
    assert [t][..0] == [];
    var s := TouchedAll(db, [t], now);
    assert TouchedAll(db, [t][..0], now) == db;
    assert s == Touched(db, t, now);
    assert MemcachedExpiry(TagTtl, now) == Some(now + TagTtl);
    var s' := Cleaned(s, CleaningModeMatchingTag, [t], c);
    assert CleaningModeMatchingTag != CleaningModeAll && IsMatchingMode(CleaningModeMatchingTag);
    assert BumpedAll(s, [t][..0], c) == s;
    assert s' == BumpedIfPresent(s, TagKey(t), c);
    assert s'[TagKey(t)] == Entry(Num(2), Some(now + TagTtl));
    assert VersionsOf(s, [t], now) == [Version(s, t, now)];
    assert VersionsOf(s', [t], c) == [Version(s', t, c)];
    assert VersionsOf(s', [t], later) == [Version(s', t, later)];
    assert NumAt(s', TagKey(t), later).None?;
    assert BumpedAll(s', [t][..0], later) == s';
  }

  // ------------------------------------------------------------- clean

  /** The matching modes' store effect: one increment per listed tag, in order. */
  function BumpedAll(db: Db, tags: seq<string>, now: nat): Db
    decreases |tags|
  {
    if tags == [] then db else BumpedIfPresent(BumpedAll(db, tags[..|tags| - 1], now), TagKey(tags[|tags| - 1]), now)
  }

  /** The store after `clean($mode, $tags)`; there is no 'clear' mode here. */
  function Cleaned(db: Db, mode: string, tags: seq<string>, now: nat): (r: Db)
    ensures mode != CleaningModeAll && !IsMatchingMode(mode) ==> r == db
    ensures IsMatchingMode(mode) && tags == [] ==> r == db
  {
    if mode == CleaningModeAll then BumpedIfPresent(db, NamespaceKey, now)
    else if IsMatchingMode(mode) then BumpedAll(db, tags, now)
    else db
  }

  /** The epoch field after `clean`: re-read from the store in mode 'all'. */
  function CleanedNamespace(ns: Option<nat>, db': Db, mode: string, now: nat): Option<nat> {
    if mode == CleaningModeAll then NumAt(db', NamespaceKey, now) else ns
  }

  /**
   * The matching modes raise a live version by the number of times its tag
   * is listed, leave a missing one missing, and touch no other kind of key.
   */
  lemma {:induction false} BumpedAllRaises(db: Db, tags: seq<string>, now: nat, t: string)
    ensures var v := NumAt(db, TagKey(t), now);
      NumAt(BumpedAll(db, tags, now), TagKey(t), now) == if v.Some? then Some(v.value + multiset(tags)[t]) else None
    ensures AgreeOutsideTags(db, BumpedAll(db, tags, now))
    decreases |tags|
  {
    if tags != [] {
      var n := |tags| - 1;
      BumpedAllRaises(db, tags[..n], now, t);
      assert tags == tags[..n] + [tags[n]];
      assert multiset(tags) == multiset(tags[..n]) + multiset{tags[n]};
      assert TagKey(t) == TagKey(tags[n]) ==> t == tags[n];
      var s := BumpedAll(db, tags[..n], now);
      forall k | !IsTagKey(k)
        ensures k != TagKey(tags[n])
      {
      }
    }
  }

  /**
   * Mode 'all' raises a present epoch by one and the field follows it; on a
   * missing epoch the increment fails and the field becomes empty. No other
   * key changes.
   */
  lemma CleanAllRaisesNamespace(db: Db, ns: Option<nat>, tags: seq<string>, now: nat)
    ensures var r := Cleaned(db, CleaningModeAll, tags, now);
      var ns' := CleanedNamespace(ns, r, CleaningModeAll, now);
      var old_ := NumAt(db, NamespaceKey, now);
      ns' == NumAt(r, NamespaceKey, now) &&
      (old_.Some? ==> ns' == Some(old_.value + 1)) &&
      (old_.None? ==> ns' == None && r == db) &&
      AgreeExcept(db, r, {NamespaceKey})
  {
  }

  // ------------------------------------------------- constructor, save/load

  /** The epoch the constructor settles on: the stored one unless the read is `false`, else the draw. */
  function InitialNamespace(db: Db, draw: nat, now: nat): Option<nat> {
    if NumAt(db, NamespaceKey, now).Some? then NumAt(db, NamespaceKey, now) else Some(draw)
  }

  function InitialStore(db: Db, draw: nat, now: nat): Db {
    if NumAt(db, NamespaceKey, now).Some? then db else Put(db, NamespaceKey, Num(draw), None)
  }

  /**
   * After construction field and store agree; only a missing epoch is
   * replaced, so a stored 0 is kept, unlike the `!$namespace` test of the
   * Redis variants.
   */
  lemma InitialNamespaceStored(db: Db, draw: nat, now: nat)
    ensures InitialNamespace(db, draw, now).Some?
    ensures NumAt(InitialStore(db, draw, now), NamespaceKey, now) == InitialNamespace(db, draw, now)
    ensures NumAt(db, NamespaceKey, now) == Some(0) ==> InitialNamespace(db, draw, now) == Some(0) && InitialStore(db, draw, now) == db
    ensures NumAt(db, NamespaceKey, now).None? ==> InitialNamespace(db, draw, now) == Some(draw)
  {
  }

  /** The store after `save`: the `genkey` effect, then a set with Memcached's reading of the timeout. */
  function SavedStore(hash: Sha256, ns: Option<nat>, prefix: string, key: string, tags: seq<string>,
                      data: seq<byte>, ttl: int, db: Db, now: nat): Db {
    Put(TouchedAll(db, Sort(tags), now), GenKeyOf(hash, ns, prefix, key, tags, db, now), Blob(data), MemcachedExpiry(ttl, now))
  }

  function LoadedValue(hash: Sha256, ns: Option<nat>, prefix: string, key: string, tags: seq<string>, db: Db, now: nat): Option<seq<byte>> {
    BlobAt(TouchedAll(db, Sort(tags), now), GenKeyOf(hash, ns, prefix, key, tags, db, now), now)
  }

  lemma SavedStoreIs(hash: Sha256, ns: Option<nat>, prefix: string, key: string, tags: seq<string>,
                     data: seq<byte>, ttl: int, db: Db, now: nat)
    ensures SavedStore(hash, ns, prefix, key, tags, data, ttl, db, now)
         == TouchedAll(db, Sort(tags), now)[GenKeyOf(hash, ns, prefix, key, tags, db, now) := Entry(Blob(data), MemcachedExpiry(ttl, now))]
  {
  }

  /** `genkey` reads the store only through the versions of the listed tags. */
  lemma GenKeyFollowsVersions(hash: Sha256, ns: Option<nat>, prefix: string, key: string, tags: seq<string>, db: Db, db': Db, now: nat)
    requires VersionsOf(db, Sort(tags), now) == VersionsOf(db', Sort(tags), now)
    ensures GenKeyOf(hash, ns, prefix, key, tags, db, now) == GenKeyOf(hash, ns, prefix, key, tags, db', now)
  {
  }

  /** A write outside the versions right after `genkey` leaves the next `genkey` writing nothing and hashing the same versions. */
  lemma GenKeyStable(db: Db, tags: seq<string>, now: nat, k: string, e: Entry)
    requires !IsTagKey(k)
    ensures var s := TouchedAll(db, tags, now)[k := e];
      TouchedAll(s, tags, now) == s && VersionsOf(s, tags, now) == VersionsOf(db, tags, now)
  {
    var s := TouchedAll(db, tags, now);
    var s' := s[k := e];
    GenKeySettles(db, tags, now);
    SettledUnderPut(s, tags, now, k, e);
    TouchedAllSettled(s', tags, now);
    VersionsAreStored(db, tags, now);
    var vs := VersionsOf(db, tags, now);
    var vs' := VersionsOf(s', tags, now);
    forall i | 0 <= i < |tags|
      ensures vs'[i] == vs[i]
    {
      assert k != TagKey(tags[i]);
      assert NumAt(s', TagKey(tags[i]), now) == NumAt(s, TagKey(tags[i]), now);
    }
  }

  /**
   * What is saved is what a load of the same key and tags answers at the
   * same instant, for any timeout under which Memcached keeps the item:
   * none (0), seconds from now, or an absolute time still ahead.
   */
  lemma SaveThenLoad(hash: Sha256, ns: Option<nat>, prefix: string, key: string, tags: seq<string>,
                     data: seq<byte>, ttl: int, db: Db, now: nat)
    requires ttl >= 0 && (ttl > 2592000 ==> now < ttl)
    ensures LoadedValue(hash, ns, prefix, key, tags, SavedStore(hash, ns, prefix, key, tags, data, ttl, db, now), now) == Some(data)
  {
    var sorted := Sort(tags);
    var k := GenKeyOf(hash, ns, prefix, key, tags, db, now);
    FingerprintOutsideRegistry(hash, ns, prefix, key, tags, db, now);
    var e := Entry(Blob(data), MemcachedExpiry(ttl, now));
    var saved := TouchedAll(db, sorted, now)[k := e];
    GenKeyStable(db, sorted, now, k, e);
    SavedStoreIs(hash, ns, prefix, key, tags, data, ttl, db, now);
    GenKeyFollowsVersions(hash, ns, prefix, key, tags, saved, db, now);
    assert Live(e, now);
    assert LoadedValue(hash, ns, prefix, key, tags, saved, now) == BlobAt(saved, k, now);
  }

  // ------------------------------------------------------------- class

  class Memcache {
    const store: Store
    const hash: Sha256
    var namespace: Option<nat>
    var prefix: string

    /** Reads the epoch and stores a random one in 1..10000 only when the read answers `false`. */
    constructor (store: Store, hash: Sha256, now: nat)
      modifies store
      ensures this.store == store && this.hash == hash && prefix == ""
      ensures namespace.Some? && namespace == InitialNamespace(old(store.entries), namespace.value, now)
      ensures store.entries == InitialStore(old(store.entries), namespace.value, now)
      ensures NumAt(old(store.entries), NamespaceKey, now).None? ==> 1 <= namespace.value <= 10000
    {
      this.store := store;
      this.hash := hash;
      prefix := "";
      var ns := store.Get(NamespaceKey, now);
      if ns.None? {
        var draw :| 1 <= draw <= 10000;
        ns := Some(draw);
        store.Set(NamespaceKey, Num(draw), None);
      }
      namespace := ns;
    }

    /** `prefix($prefix)`: only keys computed afterwards see it. */
    method Prefix(p: string)
      modifies this
      ensures prefix == p && namespace == old(namespace)
    {
      prefix := p;
    }

    /** `incrementTag`: Memcached increment of the tag's counter; `None` (false) when it is missing. */
    method IncrementTag(tag: string, now: nat) returns (n: Option<nat>)
      modifies store
      ensures n == if NumAt(old(store.entries), TagKey(tag), now).Some? then Some(NumAt(old(store.entries), TagKey(tag), now).value + 1) else None
      ensures store.entries == BumpedIfPresent(old(store.entries), TagKey(tag), now)
    {
      n := store.Increment(TagKey(tag), now);
    }

    /** `getTagValue`: the stored version, or 1 stored for 90000 seconds when it is falsy. */
    method GetTagValue(tag: string, now: nat) returns (v: nat)
      modifies store
      ensures v == Version(old(store.entries), tag, now)
      ensures store.entries == Touched(old(store.entries), tag, now)
    {
      var stored := store.Get(TagKey(tag), now);
      if Truthy(stored) {
        v := stored.value;
      } else {
        store.Set(TagKey(tag), Num(1), MemcachedExpiry(TagTtl, now));
        v := 1;
      }
    }

    /** `genkey`. */
    method GenKey(key: string, tags: seq<string>, now: nat) returns (k: string)
      modifies store
      ensures store.entries == TouchedAll(old(store.entries), Sort(tags), now)
      ensures k == GenKeyOf(hash, namespace, prefix, key, tags, old(store.entries), now)
    {
      var sorted := Sort(tags);
      var tagsStr := "_";
      var tagsVal := "0";
      ghost var vs: seq<nat> := [];
      var i := 0;
      while i < |sorted|
        invariant 0 <= i <= |sorted|
        invariant store.entries == TouchedAll(old(store.entries), sorted[..i], now)
        invariant vs == VersionsOf(old(store.entries), sorted[..i], now)
        invariant tagsStr == TagsText(sorted[..i])
        invariant tagsVal == VersionsText(vs)
      {
        var tag := sorted[i];
        tagsStr := tagsStr + "_" + tag;
        var v := GetTagValue(tag, now);
        tagsVal := tagsVal + "_" + Decimal(v);
        GenKeyStep(old(store.entries), sorted, i, now);
        vs := vs + [v];
        i := i + 1;
      }
      assert sorted[..i] == sorted;
      var hashThis := prefix + "_keys_" + key + "_" + tagsStr + "_" + tagsVal;
      k := "TCM:" + NamespaceText(namespace) + ":" + Base64Url(hash(hashThis));
    }

    /** `clean($mode, $tags)`; no connection check. */
    method Clean(mode: string, tags: seq<string>, now: nat)
      modifies this, store
      ensures prefix == old(prefix)
      ensures store.entries == Cleaned(old(store.entries), mode, tags, now)
      ensures namespace == CleanedNamespace(old(namespace), store.entries, mode, now)
    {
      if mode == CleaningModeAll {
        var n := store.Increment(NamespaceKey, now);
        namespace := store.Get(NamespaceKey, now);
      } else if IsMatchingMode(mode) {
        if |tags| > 0 {
          var i := 0;
          while i < |tags|
            invariant 0 <= i <= |tags|
            invariant store.entries == BumpedAll(old(store.entries), tags[..i], now)
            invariant namespace == old(namespace) && prefix == old(prefix)
          {
            var n := IncrementTag(tags[i], now);
            assert tags[..i + 1][..i] == tags[..i];
            i := i + 1;
          }
          assert tags[..i] == tags;
        }
      }
    }

    /** `save`: set under the fingerprint with the timeout as Memcached reads it; the set succeeds. */
    method Save(data: seq<byte>, key: string, tags: seq<string>, ttl: int, now: nat) returns (ok: bool)
      modifies store
      ensures ok
      ensures store.entries == SavedStore(hash, namespace, prefix, key, tags, data, ttl, old(store.entries), now)
    {
      var k := GenKey(key, tags, now);
      store.Set(k, Blob(data), MemcachedExpiry(ttl, now));
      ok := true;
    }

    /** `load`: the payload under the fingerprint, if any. */
    method Load(key: string, tags: seq<string>, now: nat) returns (data: Option<seq<byte>>)
      modifies store
      ensures store.entries == TouchedAll(old(store.entries), Sort(tags), now)
      ensures data == LoadedValue(hash, namespace, prefix, key, tags, old(store.entries), now)
    {
      var k := GenKey(key, tags, now);
      data := store.GetBlob(k, now);
    }
  }
}
