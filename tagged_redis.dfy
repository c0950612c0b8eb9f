/**
 * `TaggedRedisCache`: the registry cache with its own key names. Every
 * store key it uses starts with "RKC:"; its fingerprints are
 * "RKC:" + namespace + ':' + 32 URL-safe characters.
 */
module TaggedRedis {
  import opened Basics
  import opened Text
  import opened Ordering
  import opened Encoding
  import opened KvStore
  import opened Fingerprint
  import opened HashRegistry

  /** RKC:NAMESPACE, RKC:TAGS, RKC:TIME and RKC:REFRESH, fingerprints headed by "RKC:". */
  const Keys: Layout := Layout("RKC:", "RKC:NAMESPACE", "RKC:TAGS", "RKC:TIME", "RKC:REFRESH")

  /** The bookkeeping keys differ, and a fingerprint, whose fifth character is ':' or a digit, is none of them. */
  lemma KeysWellFormed()
    ensures Keys.WellFormed()
  {
    forall ns: Option<nat>, d: string
      ensures ColonKey(Keys.head, ns, d) !in {Keys.namespaceKey, Keys.tagsKey, Keys.timeKey, Keys.refreshKey}
    {
      ColonKeyAfterHead(Keys.head, ns, d);
      assert Keys.namespaceKey[4] == 'N' && Keys.tagsKey[4] == 'T' && Keys.timeKey[4] == 'T' && Keys.refreshKey[4] == 'R';
    }
  }

  /** The key `genkey` answers: "RKC:", the epoch's digits, ':' and 32 characters of the URL-safe alphabet. */
  lemma FingerprintShape(hash: Tiger192, ns: Option<nat>, prefix: string, key: string, tags: seq<string>, db: Db, now: nat)
    ensures var k := GenKeyOf(hash, Keys, ns, prefix, key, tags, db, now);
      var n := |NamespaceText(ns)|;
      |k| == n + 37 && k[..4] == "RKC:" && k[4..4 + n] == NamespaceText(ns) && k[4 + n] == ':' &&
      forall i :: 5 + n <= i < |k| ==> IsUrlChar(k[i])
  {
    FingerprintLayout(hash, Keys, ns, prefix, key, tags, db, now);
  }

}
