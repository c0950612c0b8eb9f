# Tag-versioned cache keys, modelled in Dafny

The repository provides five PHP cache front-ends over Redis or Memcached.
They share one idea. A payload is stored under a *fingerprint*: a digest of
the caller's key, the sorted tag names and the current version of every tag,
prefixed by a namespace *epoch*. Invalidating a tag raises its version, so
the next fingerprint that mentions the tag differs from every one computed
before. Invalidating everything raises the epoch. The raise does not last
for ever in four of the five classes: a Memcached version expires 90000
seconds after it was created, and the two hash-based classes forget a tag
unread for a day. Either way the version starts again at 1, and the old
fingerprints come back.

The variants differ in where they keep versions:

| class | versions | epoch | fingerprint |
|---|---|---|---|
| `TaggedCache\Redis` (src/Redis.php) | Redis counters `RKC:TAGS:<sanitised tag>`, one MGET | `RKC:NAMESPACE`, created at 1 | `RKC:<ns>:<hex tiger192>` |
| `TaggedRedisCache` | Redis hash `RKC:TAGS`, last use in `RKC:TIME` | `RKC:NAMESPACE`, random 1..10000 | `RKC:<ns>:<base64url tiger192>` |
| `RKeyCache` | Redis hash `RKCK`, last use in `RKCKTIME` | `RKCNAMESPACE`, random 1..10000 | `<ns>:<base64url tiger192>` |
| `TaggedCache\Memcache` (src/Memcache.php) | Memcached counters `TCM:key:<tag>` | `TCM:namespace` | `TCM:<ns>:<base64url sha256>` |
| `awr\TaggedMemCache` | Memcached counters `keymemcache_key_<tag>` plus an in-object memo | `keymemcache.namespace.key.beware` | `<ns>.<base64url sha256>` |

Two more features need explaining:

- **Delayed tags:** src/Redis.php can also debounce some tags. `clean` arms a
  200-second marker on them. While the marker is armed, the first `genKey`
  that finds no 49-second window marker opens a window and bumps the tag once.
- **Sweep:** the two hash-based classes forget tags that have been unused for
  a day. They do this at most once per 7200-second marker lifetime.

## How the model is built

- **Store (`KvStore`).** The backend is `KvStore.Store`, a class whose one
  field is a map from key to entry. An entry holds a counter, an opaque
  payload or a Redis hash, plus an optional absolute expiry.
  - Every operation is given the instant `now` at which it runs. That one
    value is both the store's clock and PHP's `time()`.
  - Memcached's reading of a timeout is written out: 0 never expires, a
    negative timeout has already expired, a value above 30 days is an
    absolute time, and anything else counts in seconds from now.
- **Cache classes.** Each PHP class becomes a Dafny `class`. Its stored
  fields are `namespace`, `prefix` and, for `TaggedMemCache`, the memo
  `keys`; each method's `modifies` clause names the object, the store, or both.
  - Every method is proved against a pure function of the old state:
    `Touched`, `TouchedAll`, `Debounced`, `Cleaned`, `Swept`, `SavedStore`
    and so on.
  - Each loop carries the invariant that the state so far is that function
    applied to what the loop has visited: for the `genkey` loops, the prefix
    of the sorted tags; for the `clean` loops, the prefix of the tags as the
    caller listed them; for the sweep's deletion loop, the set of stale tags
    already deleted.
- **Proved properties.** The lemmas beside each class prove what the source
  promises about those functions:
  - tag-order independence;
  - the fingerprint's layout and alphabet;
  - separation of namespaces and of version vectors;
  - exact effects and frames of `clean`, the sweep and the debounce;
  - what the memo of `TaggedMemCache` may and may not hide;
  - that a load right after a save answers the saved payload.
- **Shared registry (`HashRegistry`).** `TaggedRedisCache` and `RKeyCache`
  run the same code under different key names. Both are one class,
  `HashRegistry.RegistryCache`, parameterised by a `Layout`.
  `TaggedRedis.Keys` and `RKey.Keys` give the two layouts.
- **Digests.** Tiger192 and SHA-256 are arbitrary functions onto 24- and
  32-byte strings; nothing else about them is assumed, injectivity
  included. Base64 (section 4 of RFC 4648) and the `strtr`/`rtrim` pipeline
  are defined in full. That pipeline is proved equal to the unpadded
  URL-safe alphabet of section 5 of RFC 4648.

Files: `basics.dfy` (Option, the cleaning modes, byte), `text.dfy` (decimal text of integers), `ordering.dfy`
(string order and the sort standing for `asort`), `encoding.dfy` (hex, base64, the
URL-safe pipeline), `fingerprint.dfy` (pre-hash text and key wrappers), `kv_store.dfy`,
`hash_registry.dfy`, `tagged_redis.dfy`, `rkey.dfy`, `src_redis.dfy`, `src_memcache.dfy`,
`tagged_mem.dfy`.

## Model

| member | source | states |
|---|---|---|
| Ordering.Sort | TaggedRedisCache.php:110 | `asort` followed by iteration: the result is ascending and a permutation of the listed tags |
| Ordering.SortOrderIndependent | TaggedRedisCache.php:108-116 | any rearrangement of a tag list is iterated in the same order |
| Ordering.SortKeepsMembers | TaggedRedisCache.php:110-111 | a tag is visited by the loop exactly when it was listed |
| Ordering.SortedUnique | TaggedRedisCache.php:110 | two ascending permutations of one multiset are equal, so the sorted order is determined by the tags alone |
| Encoding.Hex | src/Redis.php:188 | `hash(...)` without raw output: two lowercase hex characters per digest byte |
| Encoding.UnhexHex | src/Redis.php:188 | the hex text loses nothing: reading it back gives the digest |
| Encoding.HexLacksSeparators | src/Redis.php:188 | a hex digest contains no ':', '.' or '=' |
| Encoding.TrimRight | TaggedRedisCache.php:120 | `rtrim(..., '=')`: the result is a prefix of the input that does not end in the trimmed character, and everything cut off was that character |
| Encoding.UrlSafe | TaggedRedisCache.php:120 | `strtr(..., '+/', '-_')` keeps the length |
| Encoding.UrlSafeBase64 | TaggedRedisCache.php:120 | translating the padded standard base64 text gives the unpadded URL-safe encoding followed by the padding |
| Encoding.TrimRightRun | TaggedRedisCache.php:120 | `rtrim` removes exactly a trailing run of the character from a text that does not otherwise end in it |
| Encoding.Base64UrlIsUnpadded | TaggedRedisCache.php:120 | the `base64_encode`/`strtr`/`rtrim` pipeline equals the unpadded URL-safe encoding: URL-safe characters only, no '=', ceil(8n/6) characters |
| Encoding.Base64UrlLacksSeparators | TaggedRedisCache.php:120 | the encoded digest contains no ':', '.' or '=' |
| Encoding.Base64UrlWidths | TaggedRedisCache.php:120 | a 24-byte tiger192 digest encodes to 32 characters; a 32-byte sha256 digest encodes to 43 |
| Text.Decimal | TaggedRedisCache.php:114 | PHP's string form of a version: non-empty, digits only, no leading zero except for 0 |
| Text.DecimalInjective | TaggedRedisCache.php:114 | distinct versions render as distinct text |
| Text.NamespaceText | TaggedRedisCache.php:120 | the namespace as concatenated: digits only, and empty exactly when it is `false` |
| Text.NamespaceTextInjective | TaggedRedisCache.php:120 | distinct namespaces render as distinct text |
| Fingerprint.Segment | src/Redis.php:183 | one MGET value as `implode` renders it: no '_', and empty exactly for `false` |
| Fingerprint.VersionsTextInjective | TaggedRedisCache.php:114 | version vectors of one length have distinct `$tags_val` texts |
| Fingerprint.ImplodeInjective | src/Redis.php:183 | `implode('_', ...)` of equally long lists without '_' is injective |
| Fingerprint.SegmentsInjective | src/Redis.php:183 | MGET replies of one length, absent values included, have distinct imploded texts |
| Fingerprint.PreHashSeparatesVersions | TaggedRedisCache.php:118 | with the head and the tag text fixed, a different version text gives a different digest input |
| Fingerprint.ColonKeyParts | TaggedRedisCache.php:120 | where head, epoch digits, ':' and digest sit in a `head . ns . ':' . digest` key |
| Fingerprint.UrlColonKey | TaggedRedisCache.php:120 | a colon key over a URL-safe digest is URL-safe after its ':' |
| Fingerprint.UrlDotKey | TaggedMemCache.php:92 | a `ns . '.' . digest` key over a URL-safe digest holds exactly one '.', right after the digits |
| Fingerprint.ColonKeySeparatesNamespaces | TaggedRedisCache.php:120 | colon keys under different namespaces differ, whatever the digests |
| Fingerprint.DotKeySeparatesNamespaces | TaggedMemCache.php:92 | dot keys under different namespaces differ, whatever the digests |
| KvStore.Bumped | src/Redis.php:140 | INCR: the counter becomes one more than before, or 1 when it was absent |
| KvStore.BumpedIfPresent | src/Memcache.php:104 | Memcached `increment`: a live counter goes up by one; on a missing key nothing changes |
| KvStore.WithField | TaggedRedisCache.php:133 | HSET changes exactly one field of the hash |
| KvStore.FieldBumped | TaggedRedisCache.php:127 | HINCRBY by 1: the field becomes one more, or 1 when absent, and the other fields stay |
| KvStore.WithoutField | TaggedRedisCache.php:159-160 | HDEL removes exactly the one field |
| KvStore.WithoutFields | TaggedRedisCache.php:154-162 | deleting a set of fields removes exactly those fields |
| KvStore.WithoutFieldsStep | TaggedRedisCache.php:154-162 | deleting one more field after a batch is the same as deleting the larger batch |
| HashRegistry.Version | TaggedRedisCache.php:131-142 | `getTagValue`'s answer is at least 1 |
| HashRegistry.VersionReads | TaggedRedisCache.php:131-142 | `getTagValue` answers the stored version when it is truthy, else 1 |
| HashRegistry.TouchedFields | TaggedRedisCache.php:131-142 | `getTagValue` stamps the tag's time with `now`, stores version 1 only when the version was falsy, and changes no other field or key |
| HashRegistry.TouchedAllFields | TaggedRedisCache.php:104-116 | after `genkey` every listed tag is stamped with `now` and holds a truthy version (1 if it had none); unlisted tags and all other keys are unchanged |
| HashRegistry.TouchedAllMonotone | TaggedRedisCache.php:125-142 | outside a sweep, `genkey` never lowers a stored version |
| HashRegistry.VersionsAreStored | TaggedRedisCache.php:111-115 | the versions `genkey` hashes are exactly the versions it leaves stored |
| HashRegistry.GenKeySettles | TaggedRedisCache.php:104-116 | `genkey` leaves every listed tag materialised and stamped |
| HashRegistry.TouchedSettled | TaggedRedisCache.php:131-142 | on a tag that is already stamped at `now` and holds a truthy version, `getTagValue` writes nothing |
| HashRegistry.TouchedAllSettled | TaggedRedisCache.php:104-116 | on a settled store `genkey` writes nothing and hashes the stored versions |
| HashRegistry.SettledUnderPut | TaggedRedisCache.php:58 | writing a payload key keeps the tags settled |
| HashRegistry.GenKeyStable | TaggedRedisCache.php:55-58 | after a `genkey` and a payload write, a second `genkey` of the same tags writes nothing and hashes the same versions |
| HashRegistry.GenKeyOrderIndependent | TaggedRedisCache.php:104-123 | any rearrangement of the tags gives the same store effect and the same key |
| HashRegistry.KeyShape | TaggedRedisCache.php:120 | the key is head, epoch, ':' and a 32-character URL-safe digest without '=' |
| HashRegistry.FingerprintLayout | TaggedRedisCache.php:118-120 | the exact positions of head, epoch digits and ':', with URL-safe characters after the ':' |
| HashRegistry.FingerprintOutsideRegistry | TaggedRedisCache.php:120 | no fingerprint is one of the four bookkeeping keys |
| HashRegistry.KeysSeparateNamespaces | TaggedRedisCache.php:120 | keys under different namespaces never coincide |
| HashRegistry.PreHashSeparatesVersionVectors | TaggedRedisCache.php:113-118 | with prefix, key and tags fixed, different version vectors give different digest inputs |
| HashRegistry.BumpAfterGenKeyChangesPreHash | TaggedRedisCache.php:125-128 | after `genkey`, bumping one listed tag changes the next digest input over those tags |
| HashRegistry.BumpKeepsSettled | TaggedRedisCache.php:125-128 | HINCRBY keeps a settled store settled |
| HashRegistry.Cleaned | TaggedRedisCache.php:80-102 | an unknown mode, or a matching mode with no tags, leaves the store unchanged |
| HashRegistry.BumpedAllRaises | TaggedRedisCache.php:90-99 | the matching modes raise each version by the number of times its tag is listed, starting from 0 when it is absent, and write nothing outside the version hash |
| HashRegistry.CleanAllRaisesNamespace | TaggedRedisCache.php:86-89 | `clean('all')` leaves the field equal to the stored epoch, strictly above the old one, and changes no other key |
| HashRegistry.SweepExact | TaggedRedisCache.php:144-166 | a sweep that runs sets the marker for 7200 s and deletes from both hashes exactly the tags stamped more than 86400 s ago, nothing else |
| HashRegistry.SweepLeavesNoStale | TaggedRedisCache.php:154-162 | after a sweep no stale tag remains in the time hash |
| HashRegistry.SweepForgetsInvalidation | TaggedRedisCache.php:125-162 | a tag read once, bumped to 2 by `clean` and unread for more than a day is swept, and its next version is 1 again, as before the `clean` |
| HashRegistry.SecondSweepIsNoOp | TaggedRedisCache.php:148-150 | a second sweep within 7200 s of one that ran changes nothing |
| HashRegistry.DropsCommute | TaggedRedisCache.php:159-160 | deleting from one hash commutes with deleting from the other |
| HashRegistry.SweepStep | TaggedRedisCache.php:159-160 | one more stale tag deleted from both hashes extends the done set by that tag |
| HashRegistry.DroppedNothing | TaggedRedisCache.php:152-154 | the sweep loop starts from the unchanged store |
| HashRegistry.ForgetStep | TaggedRedisCache.php:154-162 | one turn of the sweep loop preserves its invariant |
| HashRegistry.SaveThenLoad | TaggedRedisCache.php:51-78 | for a positive timeout, a load right after a save of the same key and tags answers the saved payload |
| HashRegistry.SavedStoreIs | TaggedRedisCache.php:51-60 | a save stores the payload under the fingerprint that `genkey` computed from the old store, with a `timeout`-second expiry |
| HashRegistry.GenKeyFollowsVersions | TaggedRedisCache.php:104-123 | `genkey` reads the store only through the versions of the listed tags |
| HashRegistry.SaveKeepsBookkeeping | TaggedRedisCache.php:51-60 | a save changes only the fingerprint's key beyond `genkey`'s bookkeeping |
| HashRegistry.PutElsewhere | TaggedRedisCache.php:58 | a write to a non-bookkeeping key leaves the epoch, the marker and both hashes as they were |
| HashRegistry.InitialNamespaceStored | TaggedRedisCache.php:21-27 | after construction the field and the store agree on a truthy epoch, drawn from 1..10000 when the stored one was missing or falsy |
| HashRegistry.RegistryCache.constructor | TaggedRedisCache.php:15-29 | a connected instance reads or draws the epoch, stores it, then sweeps; an unconnected one writes nothing |
| HashRegistry.RegistryCache.SetPrefix | TaggedRedisCache.php:168-171 | sets the prefix and keeps the epoch |
| HashRegistry.RegistryCache.IncrementTag | TaggedRedisCache.php:125-128 | HINCRBY of the tag's version: answers the new value |
| HashRegistry.RegistryCache.GetTagValue | TaggedRedisCache.php:131-142 | answers `Version` and leaves the store as `Touched` |
| HashRegistry.RegistryCache.GenKey | TaggedRedisCache.php:104-123 | the loop over the sorted tags leaves `TouchedAll` and answers the fingerprint of the old store |
| HashRegistry.RegistryCache.Clean | TaggedRedisCache.php:80-102 | connected: the store becomes `Cleaned` and the field `CleanedNamespace`; unconnected: nothing changes |
| HashRegistry.RegistryCache.CleanTags | TaggedRedisCache.php:144-166 | connected: the store becomes `Swept`; unconnected: nothing changes |
| HashRegistry.RegistryCache.ForgetStale | TaggedRedisCache.php:151-163 | the loop over `hgetall` deletes exactly the stale tags from both hashes |
| HashRegistry.RegistryCache.ForgetTag | TaggedRedisCache.php:159-160 | HDEL from the time hash, then from the version hash |
| HashRegistry.RegistryCache.Save | TaggedRedisCache.php:51-60 | connected: answers whether the timeout is positive, and the store becomes `SavedStore`; unconnected: false, no change |
| HashRegistry.RegistryCache.Load | TaggedRedisCache.php:62-78 | connected: answers the payload under the fingerprint, after `genkey`'s effect; unconnected: nothing |
| TaggedRedis.KeysWellFormed | TaggedRedisCache.php:21-25 | `RKC:NAMESPACE`, `RKC:TAGS`, `RKC:TIME` and `RKC:REFRESH` are distinct, and none of them is a fingerprint |
| TaggedRedis.FingerprintShape | TaggedRedisCache.php:120 | the key is "RKC:", the epoch's digits, ':' and 32 URL-safe characters |
| RKey.KeysWellFormed | RKeyCache.php:21-25 | `RKCNAMESPACE`, `RKCK`, `RKCKTIME` and `RKCKFRESH` are distinct, and none of them is a fingerprint |
| RKey.FingerprintShape | RKeyCache.php:111 | the key is the epoch's digits, ':' and 32 URL-safe characters, with no head |
| RKey.SharedDatabase | RKeyCache.php:111 | an `RKeyCache` and a `TaggedRedisCache` in one database never write each other's keys |
| RKey.KeyFamiliesDisjoint | RKeyCache.php:111 | whatever the digests, the two key families and both sets of bookkeeping keys are disjoint |
| SrcRedis.PrepareString | src/Redis.php:200-203 | `preg_replace('/\W/', '', ...)`: only word characters remain, and the result is no longer than the input |
| SrcRedis.PrepareStringKeepsWords | src/Redis.php:200-203 | a string of word characters is left as it is |
| SrcRedis.PrepareStringIdempotent | src/Redis.php:200-203 | sanitising twice is sanitising once |
| SrcRedis.PrepareStringConcat | src/Redis.php:200-203 | sanitising distributes over concatenation |
| SrcRedis.NonWordCharsShareCounter | src/Redis.php:180-202 | tags that differ only by a non-word character share one version counter |
| SrcRedis.CounterKey | src/Redis.php:180 | the version counter key is `RKC:TAGS:` followed by the sanitised name |
| SrcRedis.ArmedKey | src/Redis.php:155 | the arming marker `RKC:D:` followed by the tag |
| SrcRedis.WindowKey | src/Redis.php:175 | the window marker `RKC:T:` followed by the tag |
| SrcRedis.PayloadKey | src/Redis.php:188 | a fingerprint has a digit or ':' after `RKC:`, so no bookkeeping key is one |
| SrcRedis.CounterKeys | src/Redis.php:180 | `$tag_mget`: one counter key per tag, in order |
| SrcRedis.DebouncedAll | src/Redis.php:171-179 | with no delayed tags the loop changes nothing |
| SrcRedis.DebounceFrame | src/Redis.php:171-179 | the loop writes only counters and window markers of listed delayed tags |
| SrcRedis.DebounceKeepsMarkers | src/Redis.php:171-179 | the markers of a tag that is not listed are left alone |
| SrcRedis.DebounceQuiets | src/Redis.php:172-178 | after the loop no listed tag is due any more at that instant |
| SrcRedis.QuietFixes | src/Redis.php:172-178 | a loop over tags none of which is due changes nothing |
| SrcRedis.DebounceIdempotent | src/Redis.php:171-179 | a second `genKey` over the same tags at the same instant bumps nothing |
| SrcRedis.DebounceStepFires | src/Redis.php:172-178 | a tag is bumped exactly when it is due the first time the loop reaches it |
| SrcRedis.DebounceStepCounter | src/Redis.php:172-177 | one iteration moves a counter only for a due tag whose sanitised name is that counter's |
| SrcRedis.FiringStep | src/Redis.php:172-178 | how the set of due tags grows with one more listed tag |
| SrcRedis.DebounceRaises | src/Redis.php:172-178 | each distinct due delayed tag bumps its counter exactly once per `genKey`, however often it is listed; nothing else moves a counter |
| SrcRedis.PlainTagsStay | src/Redis.php:172 | tags outside `delayedKeys` (and sharing no counter with a listed delayed tag) are never bumped by `genKey` |
| SrcRedis.DebounceOpensWindow | src/Redis.php:175 | a due tag leaves the loop with a 49-second window marker |
| SrcRedis.WindowHoldsOff | src/Redis.php:174-177 | at most one debounced bump per window: a later `genKey` within 49 s that finds the marker does not bump again |
| SrcRedis.DebounceIgnoresPayload | src/Redis.php:171-179 | a payload write commutes with the debounce loop |
| SrcRedis.DebouncedIgnoresPayload | src/Redis.php:172-178 | one loop iteration commutes with a payload write |
| SrcRedis.VersionsIgnorePayload | src/Redis.php:183 | a payload write changes no version that MGET reads |
| SrcRedis.GenKeyStep | src/Redis.php:171-182 | one more tag in the loop extends the store effect, `$tags_str` and `$tag_mget` by that tag |
| SrcRedis.GenKeyOrderIndependent | src/Redis.php:169-188 | any rearrangement of the tags gives the same store effect and the same fingerprint |
| SrcRedis.KeyShape | src/Redis.php:188 | the key is `RKC:`, the epoch's digits, ':' and 48 lowercase hex characters |
| SrcRedis.KeysSeparateNamespaces | src/Redis.php:188 | fingerprints under different namespaces never coincide |
| SrcRedis.PreHashSeparatesReplies | src/Redis.php:183-186 | with prefix, key and tags fixed, different MGET replies give different digest inputs |
| SrcRedis.TagBumpChangesPreHash | src/Redis.php:183-196 | bumping the counter of a listed tag changes the digest input |
| SrcRedis.TagBumpedCounter | src/Redis.php:150-157 | one round of `matchingTag` moves a counter exactly when the tag sanitises to its name |
| SrcRedis.Cleaned | src/Redis.php:133-162 | an unknown mode, or a matching mode with no tags, leaves the store unchanged |
| SrcRedis.TagsBumpedRaises | src/Redis.php:146-159 | the matching modes raise each counter by the number of listed tags that share it |
| SrcRedis.TagsBumpedArms | src/Redis.php:153-156 | the matching modes arm every listed delayed tag for 200 seconds |
| SrcRedis.TagsBumpedFrame | src/Redis.php:146-159 | the matching modes write only the listed counters and the markers of listed delayed tags |
| SrcRedis.MatchingModesAgree | src/Redis.php:146-147 | `matchingTag` and `matchingAnyTag` have the same effect |
| SrcRedis.CleanAllRaisesNamespace | src/Redis.php:139-142 | `clean('all')` leaves the field equal to the stored epoch, strictly above the old one, and changes no other key |
| SrcRedis.CleanAllChangesKeys | src/Redis.php:139-188 | after `clean('all')` no new fingerprint equals any old one |
| SrcRedis.InitialNamespaceStored | src/Redis.php:32-40 | after construction the field and the store agree on a truthy epoch; a truthy stored epoch is kept untouched |
| SrcRedis.SaveThenLoad | src/Redis.php:90-125 | for a positive timeout, a load right after a save of the same key and tags answers the saved payload |
| SrcRedis.Redis.constructor | src/Redis.php:28-41 | a connected instance reads the epoch, or stores 1 when it is missing or falsy; an unconnected one writes nothing |
| SrcRedis.Redis.SetPrefix | src/Redis.php:210-213 | sets the prefix and keeps the epoch |
| SrcRedis.Redis.IncrementTag | src/Redis.php:192-197 | connected: INCR of the sanitised tag's counter, answering the new value; unconnected: nothing |
| SrcRedis.Redis.Debounce | src/Redis.php:172-179 | one loop iteration: the store becomes `Debounced` |
| SrcRedis.Redis.GenKey | src/Redis.php:164-190 | connected: the store becomes `DebouncedAll` over the sorted tags, and the answer is the fingerprint over the MGET of the new store; unconnected: nothing |
| SrcRedis.Redis.Clean | src/Redis.php:133-162 | connected: the store becomes `Cleaned` (including `flushdb` for 'clear') and the field `CleanedNamespace`; unconnected: nothing changes |
| SrcRedis.Redis.Save | src/Redis.php:90-102 | connected: SETEX under the fingerprint, answering whether the timeout is positive; unconnected: false, no change |
| SrcRedis.Redis.Load | src/Redis.php:112-125 | connected: the payload under the fingerprint, after the debounce effect; unconnected: nothing |
| SrcMemcache.TagKey | src/Memcache.php:104-110 | the version key is `TCM:key:` followed by the tag |
| SrcMemcache.Version | src/Memcache.php:108-118 | `getTagValue`'s answer is at least 1 |
| SrcMemcache.TouchedReads | src/Memcache.php:108-118 | `getTagValue` stores 1 only for a falsy version and changes no other key |
| SrcMemcache.TouchedAllReads | src/Memcache.php:87-95 | `genkey` leaves every listed tag with a truthy version (1 if it had none) and touches no other key |
| SrcMemcache.VersionsAreStored | src/Memcache.php:90-94 | the versions `genkey` hashes are the ones it leaves stored |
| SrcMemcache.GenKeySettles | src/Memcache.php:87-95 | `genkey` leaves every listed tag holding a truthy version |
| SrcMemcache.TouchedAllSettled | src/Memcache.php:87-95 | on a settled store `genkey` writes nothing and hashes the stored versions |
| SrcMemcache.SettledUnderPut | src/Memcache.php:48 | writing a non-version key keeps the tags settled |
| SrcMemcache.GenKeyStep | src/Memcache.php:90-94 | one more tag in the loop extends the store effect, the versions and `$tags_str` |
| SrcMemcache.GenKeyStable | src/Memcache.php:46-48 | after a `genkey` and a payload write, the next `genkey` of the same tags writes nothing and hashes the same versions |
| SrcMemcache.GenKeyOrderIndependent | src/Memcache.php:83-100 | any rearrangement of the tags gives the same store effect and the same key |
| SrcMemcache.FingerprintLayout | src/Memcache.php:99 | the key is "TCM:", the epoch's digits, ':' and 43 URL-safe characters |
| SrcMemcache.FingerprintOutsideRegistry | src/Memcache.php:99 | no fingerprint is the epoch's key or a version key |
| SrcMemcache.ColonKeyOutside | src/Memcache.php:99 | whatever the digest, a `TCM:` key of this shape is no bookkeeping key |
| SrcMemcache.KeysSeparateNamespaces | src/Memcache.php:99 | keys under different namespaces never coincide |
| SrcMemcache.PreHashSeparatesVersionVectors | src/Memcache.php:92-97 | with prefix, key and tags fixed, different version vectors give different digest inputs |
| SrcMemcache.BumpKeepsSettled | src/Memcache.php:102-105 | an increment keeps a settled store settled |
| SrcMemcache.BumpAfterGenKeyChangesPreHash | src/Memcache.php:102-105 | after `genkey`, incrementing one listed tag changes the next digest input |
| SrcMemcache.InvalidationExpires | src/Memcache.php:102-118 | a version created at 1 and incremented to 2 reads 1 again once its 90000 seconds have passed, and a `clean` of an expired version changes nothing |
| SrcMemcache.Cleaned | src/Memcache.php:62-81 | an unknown mode, or a matching mode with no tags, leaves the store unchanged |
| SrcMemcache.BumpedAllRaises | src/Memcache.php:70-79 | the matching modes raise a live version by the number of times its tag is listed, leave a missing one missing, and touch no other kind of key |
| SrcMemcache.CleanAllRaisesNamespace | src/Memcache.php:66-69 | mode 'all' raises a present epoch by one and the field follows; on a missing epoch the field becomes `false` and the store is unchanged |
| SrcMemcache.InitialNamespaceStored | src/Memcache.php:20-25 | only a read answering `false` is replaced by the draw; a stored 0 is kept |
| SrcMemcache.SavedStoreIs | src/Memcache.php:42-50 | a save stores the payload under the old store's fingerprint, with Memcached's reading of the timeout |
| SrcMemcache.GenKeyFollowsVersions | src/Memcache.php:83-100 | `genkey` reads the store only through the versions of the listed tags |
| SrcMemcache.SaveThenLoad | src/Memcache.php:42-60 | for any timeout under which Memcached keeps the item, a load right after a save answers the saved payload |
| SrcMemcache.Memcache.constructor | src/Memcache.php:16-26 | reads the epoch and stores a random draw in 1..10000 only when the read answers `false` |
| SrcMemcache.Memcache.Prefix | src/Memcache.php:125-128 | sets the prefix and keeps the epoch |
| SrcMemcache.Memcache.IncrementTag | src/Memcache.php:102-105 | Memcached increment of the version key; `false` when the key is missing |
| SrcMemcache.Memcache.GetTagValue | src/Memcache.php:108-118 | answers `Version` and leaves the store as `Touched` |
| SrcMemcache.Memcache.GenKey | src/Memcache.php:83-100 | the loop leaves `TouchedAll` and answers the fingerprint of the old store |
| SrcMemcache.Memcache.Clean | src/Memcache.php:62-81 | the store becomes `Cleaned` and the field `CleanedNamespace` |
| SrcMemcache.Memcache.Save | src/Memcache.php:42-50 | set under the fingerprint; the set succeeds |
| SrcMemcache.Memcache.Load | src/Memcache.php:52-60 | the payload under the fingerprint, after `genkey`'s effect |
| TaggedMem.TagKey | TaggedMemCache.php:98-107 | the version key is `keymemcache_key_` followed by the tag |
| KvStore.CounterVersion | TaggedMemCache.php:105-113 | the version a counter read stands for is at least 1, and is the stored counter whenever that is truthy |
| TaggedMem.LookedValue | TaggedMemCache.php:103-115 | `getTagValue`'s answer is at least 1 |
| TaggedMem.LookedFacts | TaggedMemCache.php:103-115 | a truthy memo entry is answered without touching anything; afterwards the entry is truthy and holds the answer; the store changes only at the tag's counter, which becomes 1 when neither memo nor store had a truthy value |
| TaggedMem.LookedTransparent | TaggedMemCache.php:103-115 | while every truthy memo entry matches the store, `getTagValue` answers what the store alone would, and the memo stays in line |
| TaggedMem.VersionsOf | TaggedMemCache.php:84-88 | one version per tag, each at least 1 |
| TaggedMem.GenKeyStep | TaggedMemCache.php:84-88 | one more tag in the loop extends memo, store, versions and `$tags_str` by that tag |
| TaggedMem.GenKeyMemoizes | TaggedMemCache.php:84-88 | `genkey` memoises every listed tag, and a truthy entry stays truthy |
| TaggedMem.VersionsAreMemoized | TaggedMemCache.php:84-88 | the versions `genkey` hashes are the memo entries it leaves |
| TaggedMem.LookedAllMemoized | TaggedMemCache.php:103-115 | with every listed tag memoised, `genkey` changes nothing and hashes the memo |
| TaggedMem.GenKeyRepeats | TaggedMemCache.php:105 | a second `genkey` of the same tags on the same instance reads only the memo: whatever the store holds by then, it writes nothing and hashes the same versions |
| TaggedMem.LookedAllTransparent | TaggedMemCache.php:77-93 | while the memo is in line with the store, `genkey` keeps it so |
| TaggedMem.IncrementAgrees | TaggedMemCache.php:95-100 | after `incrementTag` memo and store agree on the tag, and the next `getTagValue` answers the store's new version |
| TaggedMem.IncrementRaises | TaggedMemCache.php:95-100 | while the memo is in line, `incrementTag` raises the tag by exactly one over what `getTagValue` answered, and the next `getTagValue` sees it |
| TaggedMem.IncrementAfterGenKeyChangesVersions | TaggedMemCache.php:77-100 | while the memo is in line, an `incrementTag` of a listed tag right after `genkey` changes the versions the next `genkey` of those tags hashes |
| TaggedMem.IncrementAfterGenKeyChangesPreHash | TaggedMemCache.php:77-100 | while the memo is in line, an `incrementTag` of a listed tag right after `genkey` changes the next `genkey`'s digest input over the sorted tags |
| TaggedMem.IncrementLostOnExpiredVersion | TaggedMemCache.php:95-113 | when the memo holds version 1 but the stored counter has expired, `incrementTag` finds nothing to raise and the next `genkey` hashes version 1 again |
| TaggedMem.IncrementStep | TaggedMemCache.php:95-100 | one `incrementTag` moves only the tag's counter, to one above the version it stood for |
| TaggedMem.IncrementedAllCoherent | TaggedMemCache.php:64-73 | the matching modes keep the memo in line and change no key outside the versions |
| TaggedMem.RaisedByStep | TaggedMemCache.php:68-71 | one more increment in the loop adds one for its tag only |
| TaggedMem.IncrementedAllRaises | TaggedMemCache.php:64-73 | the matching modes leave each tag one version per listing above what it stood for, and unlisted tags as they were |
| TaggedMem.CountLast | TaggedMemCache.php:68-71 | the number of listings of a tag grows by one exactly when the last listed tag is that tag |
| TaggedMem.Cleaned | TaggedMemCache.php:56-75 | an unknown mode, or a matching mode with no tags, changes neither memo nor store |
| TaggedMem.CleanAllRaisesNamespace | TaggedMemCache.php:60-63 | mode 'all' raises a present epoch by one and the field follows; a missing epoch leaves the field `false`; the memo is kept |
| TaggedMem.StoreKey | TaggedMemCache.php:40-52 | with no tags, save and load use the caller's key as it is |
| TaggedMem.GenKeyOrderIndependent | TaggedMemCache.php:77-93 | any rearrangement of the tags gives the same effect and the same key |
| TaggedMem.FingerprintLayout | TaggedMemCache.php:92 | the key is the epoch's digits, '.' and 43 URL-safe characters, and that '.' is the only one |
| TaggedMem.FingerprintOutsideRegistry | TaggedMemCache.php:92 | no fingerprint is the epoch's key or a version key |
| TaggedMem.DotKeyOutside | TaggedMemCache.php:92 | whatever the digest, a key of this shape is no bookkeeping key |
| TaggedMem.KeysSeparateNamespaces | TaggedMemCache.php:92 | keys under different namespaces never coincide |
| TaggedMem.PreHashSeparatesVersionVectors | TaggedMemCache.php:87-91 | with key and tags fixed, different version vectors give different digest inputs |
| TaggedMem.KeyAndTagsShareDelimiter | TaggedMemCache.php:91 | the digest input does not delimit the key from the tag names: key `k_` with tag `t` and key `k` with tag `_t` hash the same text |
| TaggedMem.InitialNamespaceStored | TaggedMemCache.php:16-21 | only a read answering `false` is replaced by the draw; a stored 0 is kept |
| TaggedMem.SavedIs | TaggedMemCache.php:38-45 | with tags, a save stores the payload under the fingerprint computed before the write |
| TaggedMem.LoadedAtRepeat | TaggedMemCache.php:47-54 | a load whose `genkey` writes nothing and sees the same versions reads the same key |
| TaggedMem.SaveThenLoad | TaggedMemCache.php:38-54 | on one instance, for any timeout under which Memcached keeps the item, a load right after a save answers the saved payload, with or without tags |
| TaggedMem.TaggedMemCache.constructor | TaggedMemCache.php:13-22 | reads the epoch and stores a draw in 1..10000 only when the read answers `false`; the memo starts empty |
| TaggedMem.TaggedMemCache.GetTagValue | TaggedMemCache.php:103-115 | memo and store become `Looked`, and the answer is `LookedValue` |
| TaggedMem.TaggedMemCache.IncrementTag | TaggedMemCache.php:95-100 | memo and store become `Incremented`; the answer is the memo's new entry, the store's read |
| TaggedMem.TaggedMemCache.GenKey | TaggedMemCache.php:77-93 | memo and store become `LookedAll` over the sorted tags; the answer is the fingerprint of the old state |
| TaggedMem.TaggedMemCache.Clean | TaggedMemCache.php:56-75 | memo and store become `Cleaned`, the field `CleanedNamespace` |
| TaggedMem.TaggedMemCache.Save | TaggedMemCache.php:38-45 | memo and store become `Saved`; the set succeeds |
| TaggedMem.TaggedMemCache.Load | TaggedMemCache.php:47-54 | `genkey`'s effect only when there are tags, and the answer is `Loaded` |

## Left out

- Connecting is left out: `connect()`, server addresses, `pconnect`, `RedisArray`, Predis, `select`, `ping` and timeouts. A `connected` flag fixed at construction stands for the outcome. `getInstance` is not modelled.
- Payloads are opaque bytes. `gzcompress`, `json_encode`, `serialize` and their inverses are foreign libraries. Their output is never empty, so the `if ($dane)` test of `load` is read as "a payload is present".
- tiger192 and sha256 are arbitrary functions of fixed output width. Their internals and any collision resistance are not modelled, so no lemma claims that different digest inputs give different keys.
- `asort` with `SORT_REGULAR` is modelled as ordering strings by character code. PHP's numeric-string comparison (e.g. "10" vs "9") is not modelled, and neither are the key-preserving aspects of `asort`.
- `preg_replace('/\W/', ...)` is modelled with `\W` as "not in [A-Za-z0-9_]". Locale-dependent word characters are not modelled.
- PHP `false` and `null` are both modelled as `None`. `count($tags)` on `null` and on an empty array are both the empty sequence, as in PHP 7, where `count(null)` answers 0 with a warning. The model follows PHP 7. Under PHP 8, `count(null)` throws a `TypeError`, so the tag-less `save` and `load` of TaggedMemCache.php (whose `$tags` defaults to `null`) would fail; that is not modelled. A non-array `$tags` is not modelled.
- PHP integers are unbounded naturals: there is no 64-bit overflow of counters.
- `time()` and the store's clock are one instant `now` per operation. Time passing during an operation, and clock skew between PHP and the store, are not modelled.
- Concurrency is out of scope: other processes writing the same store between two commands of one operation are not modelled. A lemma can still state a store change between two whole calls, as `GenKeyRepeats` does.
- Backend failures (a `RedisException` during `setex`, a Memcached set that fails) are not modelled. Sets succeed, and a Redis SETEX with a non-positive timeout answers false without writing.
- `rand(1, 10000)` is an arbitrary choice in 1..10000 inside the constructors. The lemmas about the constructors take that choice as a parameter `draw`. Randomness itself is not modelled.
- `flushdb` is modelled only as "the database becomes empty".
- src/Memcache.php's constructor calls `connect()` before it sets `$server`, so `addServer` receives the empty default. The model has no server address, so this is not modelled.
- `TaggedCache\Memcache` and `awr\TaggedMemCache` have no connection flag. Every call goes to the store, and the model does the same.
- src/BasicCache.php is not part of this model: it is an interface with no logic. example.php is not part of this model: it is usage only.
- Store-model choices: Redis INCR/HINCRBY on a missing counter or field store 1, and Memcached increment on a missing key changes nothing and answers `false`. A read of a key holding another kind of value sees nothing, and a write replaces it.
- `TaggedMem.StoreKey`: with no tags the caller's raw key is used. Such a key can be the epoch's key or a version key, and the model does not exclude it. `FingerprintOutsideRegistry` covers only fingerprints.
- `TaggedMem.KeyAndTagsShareDelimiter`: the pre-hash text of every variant is a plain concatenation, so distinct (key, tags) pairs can hash the same text. This lemma exhibits it for `TaggedMemCache`. The other variants share the shape, and no lemma claims that distinct keys or tags give distinct inputs.
- `TaggedMem.IncrementAfterGenKeyChangesPreHash`: the change of the fingerprint after `incrementTag` is proved only at one instant and only while the memo is in line with the store (`Coherent`). Version counters live 90000 seconds, and increment keeps that expiry. Once a counter expires, a later `genkey` recreates version 1 whether or not the object memoises it, so the old fingerprints come back. If the object still memoises the expired counter, `incrementTag` itself is lost: the increment of the missing key does nothing, the memo takes the store's empty answer, and `getTagValue` recreates 1. `TaggedMem.IncrementLostOnExpiredVersion` exhibits the second case for a memoised version 1.
- `SrcMemcache.BumpAfterGenKeyChangesPreHash`: the change of the fingerprint is proved at the instant of `clean` only. Version counters live 90000 seconds from their creation, and increment keeps that expiry. Once it passes, the version is 1 again and the fingerprints from before the invalidation come back. A `clean` of an already-expired counter changes nothing. `SrcMemcache.InvalidationExpires` exhibits both.
- `HashRegistry.BumpAfterGenKeyChangesPreHash`: the change of the fingerprint is proved at the instant of `clean` only. HINCRBY does not stamp the time hash. So the sweep forgets a tag that was cleaned but not read for a day, the next read recreates version 1, and the fingerprints from before the invalidation come back. `HashRegistry.SweepForgetsInvalidation` exhibits this. Both `TaggedRedisCache` and `RKeyCache` behave this way.
- `SrcRedis.Fires`: membership in `delayedKeys` is exact string equality. PHP's non-strict `in_array` compares numeric strings by value, so a listed "01", "1.0" or "1e0" would also match a delayed "1". This is not modelled.
- `SrcRedis.TagBumped`: the same exact membership test decides whether a matching-mode `clean` arms a tag's 200-second marker; PHP's loose comparison of numeric strings is not modelled.
- `SrcRedis.Redis.Debounce`: the same exact membership test decides which listed tags `genKey` debounces; PHP's loose comparison of numeric strings is not modelled.
- `SrcRedis.Redis.Clean`: the same exact membership test decides which listed tags `clean` arms; PHP's loose comparison of numeric strings is not modelled.
