/**
 * `RKeyCache`: the registry cache under the key names RKCNAMESPACE, RKCK,
 * RKCKTIME and RKCKFRESH, whose fingerprints carry no head at all: they are
 * namespace + ':' + 32 URL-safe characters.
 */
module RKey {
  import opened Basics
  import opened Text
  import opened Ordering
  import opened Encoding
  import opened KvStore
  import opened Fingerprint
  import opened HashRegistry
  import TaggedRedis

  const Keys: Layout := Layout("", "RKCNAMESPACE", "RKCK", "RKCKTIME", "RKCKFRESH")

  /** The bookkeeping keys differ, and a fingerprint, which starts with ':' or a digit, is none of them. */
  lemma KeysWellFormed()
    ensures Keys.WellFormed()
  {
    forall ns: Option<nat>, d: string
      ensures ColonKey(Keys.head, ns, d) !in {Keys.namespaceKey, Keys.tagsKey, Keys.timeKey, Keys.refreshKey}
    {
      ColonKeyAfterHead(Keys.head, ns, d);
      assert Keys.namespaceKey[0] == 'R' && Keys.tagsKey[0] == 'R' && Keys.timeKey[0] == 'R' && Keys.refreshKey[0] == 'R';
    }
  }

  /** The key `genkey` answers: the epoch's digits, ':' and 32 characters of the URL-safe alphabet, nothing before. */
  lemma FingerprintShape(hash: Tiger192, ns: Option<nat>, prefix: string, key: string, tags: seq<string>, db: Db, now: nat)
    ensures var k := GenKeyOf(hash, Keys, ns, prefix, key, tags, db, now);
      var n := |NamespaceText(ns)|;
      |k| == n + 33 && k[..n] == NamespaceText(ns) && k[n] == ':' &&
      forall i :: n < i < |k| ==> IsUrlChar(k[i])
  {
    FingerprintLayout(hash, Keys, ns, prefix, key, tags, db, now);
  }


  /**
   * `RKeyCache` and `TaggedRedisCache` can share one Redis database: no key
   * either of them writes is a key the other one writes, whatever the
   * epochs, prefixes, keys and tags.
   */
  lemma SharedDatabase(hash: Tiger192, ns1: Option<nat>, ns2: Option<nat>, prefix1: string, prefix2: string,
                       key1: string, key2: string, tags1: seq<string>, tags2: seq<string>, db1: Db, db2: Db, now: nat)
    ensures var mine := GenKeyOf(hash, Keys, ns1, prefix1, key1, tags1, db1, now);
      var theirs := GenKeyOf(hash, TaggedRedis.Keys, ns2, prefix2, key2, tags2, db2, now);
      mine != theirs &&
      mine !in {TaggedRedis.Keys.namespaceKey, TaggedRedis.Keys.tagsKey, TaggedRedis.Keys.timeKey, TaggedRedis.Keys.refreshKey} &&
      theirs !in {Keys.namespaceKey, Keys.tagsKey, Keys.timeKey, Keys.refreshKey}
  {
    var sorted1, sorted2 := Sort(tags1), Sort(tags2);
    KeyFamiliesDisjoint(ns1, ns2,
      Base64Url(hash(PreHashOf(prefix1, key1, sorted1, VersionsOf(db1, Keys, sorted1, now)))),
      Base64Url(hash(PreHashOf(prefix2, key2, sorted2, VersionsOf(db2, TaggedRedis.Keys, sorted2, now)))));
  }

  /**
   * Whatever the digests: an `RKeyCache` key starts with a digit or ':', a
   * `TaggedRedisCache` key with "RKC:", and the two sets of bookkeeping keys
   * differ from both at the first or the fourth character.
   */
  lemma KeyFamiliesDisjoint(ns1: Option<nat>, ns2: Option<nat>, d1: string, d2: string)
    ensures var mine := ColonKey(Keys.head, ns1, d1);
      var theirs := ColonKey(TaggedRedis.Keys.head, ns2, d2);
      mine != theirs &&
      mine !in {TaggedRedis.Keys.namespaceKey, TaggedRedis.Keys.tagsKey, TaggedRedis.Keys.timeKey, TaggedRedis.Keys.refreshKey} &&
      theirs !in {Keys.namespaceKey, Keys.tagsKey, Keys.timeKey, Keys.refreshKey}
  {
    var mine := ColonKey(Keys.head, ns1, d1);
    var theirs := ColonKey(TaggedRedis.Keys.head, ns2, d2);
    ColonKeyAfterHead(Keys.head, ns1, d1);
    ColonKeyAfterHead(TaggedRedis.Keys.head, ns2, d2);
    assert mine[0] == ':' || IsDigit(mine[0]);
    assert theirs[0] == 'R' && theirs[3] == ':' by {
      assert theirs[..4][0] == theirs[0] && theirs[..4][3] == theirs[3];
    }
    assert TaggedRedis.Keys.namespaceKey[0] == 'R' && TaggedRedis.Keys.tagsKey[0] == 'R';
    assert TaggedRedis.Keys.timeKey[0] == 'R' && TaggedRedis.Keys.refreshKey[0] == 'R';
    assert Keys.namespaceKey[3] == 'N' && Keys.tagsKey[3] == 'K' && Keys.timeKey[3] == 'K' && Keys.refreshKey[3] == 'K';
  }
}
