/**
 * `awr\TaggedMemCache`: Memcached counters for tag versions and the epoch,
 * plus a per-instance memo `keys` of the versions already seen. A truthy
 * memo entry is answered without asking the store; fingerprints are
 * namespace + '.' + 43 URL-safe characters of a salted sha256 digest; and
 * a save or load with no tags uses the caller's key as it is.
 */
module TaggedMem {
  import opened Basics
  import opened Text
  import opened Ordering
  import opened Encoding
  import opened KvStore
  import opened Fingerprint

  const NamespaceKey: string := "keymemcache.namespace.key.beware"
  /** The text every digest input starts with, in front of the caller's key. */
  const Salt: string := "the3bushooxoobu4oo9Esah1chutak"
  /** The time to live `getTagValue` gives a version it creates. */
  const TagTtl: int := 90000

  function TagKey(tag: string): (k: string)
    ensures |k| == 16 + |tag| && k[..16] == "keymemcache_key_" && k[16..] == tag
  {
    "keymemcache_key_" + tag
  }

  predicate IsTagKey(k: string) {
    |k| >= 16 && k[..16] == "keymemcache_key_"
  }

  /** Two stores agree at every key that holds no tag version. */
  ghost predicate AgreeOutsideTags(db: Db, db': Db) {
    forall k :: !IsTagKey(k) ==> (k in db <==> k in db') && (k in db ==> db[k] == db'[k])
  }

  /** `$this->keys`: what the instance last read or wrote for a tag; `None` stands for `false`. */
  type Memo = map<string, Option<nat>>

  /** `$this->keys[$tag]`, an unset entry reading as a falsy null. */
  function MemoAt(m: Memo, tag: string): Option<nat> {
    if tag in m then m[tag] else None
  }

  /** The instance's memo together with the store. */
  datatype Side = Side(memo: Memo, db: Db)

  /** Every truthy memo entry is what the store holds for that tag. */
  ghost predicate Coherent(s: Side, now: nat) {
    forall t :: t in s.memo && Truthy(s.memo[t]) ==> NumAt(s.db, TagKey(t), now) == s.memo[t]
  }

  // ------------------------------------------------------- getTagValue

  /**
   * `getTagValue`'s effect: a falsy memo entry is refreshed from the store;
   * if it is still falsy, 1 is stored for 90000 seconds and memoised.
   */
  function Looked(s: Side, tag: string, now: nat): Side {
    var m := if Truthy(MemoAt(s.memo, tag)) then s.memo else s.memo[tag := NumAt(s.db, TagKey(tag), now)];
    if Truthy(MemoAt(m, tag)) then Side(m, s.db)
    else Side(m[tag := Some(1)], Put(s.db, TagKey(tag), Num(1), MemcachedExpiry(TagTtl, now)))
  }

  /** What `getTagValue` answers. */
  function LookedValue(s: Side, tag: string, now: nat): (v: nat)
    ensures v >= 1
  {
    if Truthy(MemoAt(s.memo, tag)) then MemoAt(s.memo, tag).value else CounterVersion(s.db, TagKey(tag), now)
  }

  /**
   * One `getTagValue`: a truthy memo entry is answered without touching
   * anything; afterwards the entry is truthy and holds the answer; no other
   * memo entry changes; the store changes only at the tag's own counter,
   * which becomes 1 when neither memo nor store had a truthy version.
   */
  lemma LookedFacts(s: Side, tag: string, now: nat, t: string)
    ensures Truthy(MemoAt(s.memo, tag)) ==> Looked(s, tag, now) == s
    ensures MemoAt(Looked(s, tag, now).memo, t) == if t == tag then Some(LookedValue(s, tag, now)) else MemoAt(s.memo, t)
    ensures NumAt(Looked(s, tag, now).db, TagKey(t), now)
         == if t == tag && !Truthy(MemoAt(s.memo, tag)) && !Truthy(NumAt(s.db, TagKey(tag), now)) then Some(1) else NumAt(s.db, TagKey(t), now)
    ensures AgreeOutsideTags(s.db, Looked(s, tag, now).db)
  {
    assert MemcachedExpiry(TagTtl, now) == Some(now + 90000);
    assert TagKey(t) == TagKey(tag) ==> t == tag;
  }

  /** While the memo is coherent it is invisible: `getTagValue` answers what the store alone would, and stays coherent. */
  lemma LookedTransparent(s: Side, tag: string, now: nat)
    requires Coherent(s, now)
    ensures LookedValue(s, tag, now) == CounterVersion(s.db, TagKey(tag), now)
    ensures NumAt(Looked(s, tag, now).db, TagKey(tag), now) == Some(LookedValue(s, tag, now))
    ensures Coherent(Looked(s, tag, now), now)
  {
    var r := Looked(s, tag, now);
    forall t | t in r.memo && Truthy(r.memo[t])
      ensures NumAt(r.db, TagKey(t), now) == r.memo[t]
    {
      LookedFacts(s, tag, now, t);
      assert r.memo[t] == MemoAt(r.memo, t);
    }
    LookedFacts(s, tag, now, tag);
  }

  /** The effect of `genkey`'s loop on memo and store. */
  function LookedAll(s: Side, tags: seq<string>, now: nat): Side
    decreases |tags|
  {
    if tags == [] then s else Looked(LookedAll(s, tags[..|tags| - 1], now), tags[|tags| - 1], now)
  }

  /** The versions `genkey`'s loop collects. */
  function VersionsOf(s: Side, tags: seq<string>, now: nat): (vs: seq<nat>)
    ensures |vs| == |tags|
    ensures forall i :: 0 <= i < |vs| ==> vs[i] >= 1
    decreases |tags|
  {
    if tags == [] then []
    else
      var n := |tags| - 1;
      VersionsOf(s, tags[..n], now) + [LookedValue(LookedAll(s, tags[..n], now), tags[n], now)]
  }

  /** One more tag in `genkey`'s loop. */
  lemma GenKeyStep(s: Side, tags: seq<string>, i: nat, now: nat)
    requires i < |tags|
    ensures LookedAll(s, tags[..i + 1], now) == Looked(LookedAll(s, tags[..i], now), tags[i], now)
    ensures VersionsOf(s, tags[..i + 1], now) == VersionsOf(s, tags[..i], now) + [LookedValue(LookedAll(s, tags[..i], now), tags[i], now)]
    ensures TagsText(tags[..i + 1]) == TagsText(tags[..i]) + "_" + tags[i]
  {
    assert tags[..i + 1][..i] == tags[..i];
  }

  /** Every listed tag has a truthy memo entry. */
  predicate Memoized(s: Side, tags: seq<string>) {
    forall t :: t in tags ==> Truthy(MemoAt(s.memo, t))
  }

  /** `genkey` memoises every listed tag, and a truthy entry stays truthy. */
  lemma {:induction false} GenKeyMemoizes(s: Side, tags: seq<string>, now: nat, t: string)
    requires t in tags || Truthy(MemoAt(s.memo, t))
    ensures Truthy(MemoAt(LookedAll(s, tags, now).memo, t))
    decreases |tags|
  {
    if tags != [] {
      var n := |tags| - 1;
      LastOrBefore(tags, t);
      var r := LookedAll(s, tags[..n], now);
      if t in tags[..n] || Truthy(MemoAt(s.memo, t)) {
        GenKeyMemoizes(s, tags[..n], now, t);
      }
      LookedFacts(r, tags[n], now, t);
    }
  }

  /** The versions `genkey` hashes are the memo entries it leaves. */
  lemma {:induction false} VersionsAreMemoized(s: Side, tags: seq<string>, now: nat)
    ensures forall i :: 0 <= i < |tags| ==> MemoAt(LookedAll(s, tags, now).memo, tags[i]) == Some(VersionsOf(s, tags, now)[i])
    decreases |tags|
  {
    if tags != [] {
      var n := |tags| - 1;
      var r := LookedAll(s, tags[..n], now);
      var vs := VersionsOf(s, tags, now);
      VersionsAreMemoized(s, tags[..n], now);
      assert vs == VersionsOf(s, tags[..n], now) + [LookedValue(r, tags[n], now)];
      forall i | 0 <= i < |tags|
        ensures MemoAt(Looked(r, tags[n], now).memo, tags[i]) == Some(vs[i])
      {
        LookedFacts(r, tags[n], now, tags[i]);
        if i < n {
          assert tags[i] == tags[..n][i];
          assert vs[i] == VersionsOf(s, tags[..n], now)[i];
          assert MemoAt(r.memo, tags[i]) == Some(vs[i]);
        }
      }
    }
  }

  /** With every listed tag memoised, `genkey` changes nothing and hashes the memo entries. */
  lemma {:induction false} LookedAllMemoized(s: Side, tags: seq<string>, now: nat)
    requires Memoized(s, tags)
    ensures LookedAll(s, tags, now) == s
    ensures forall i :: 0 <= i < |tags| ==> MemoAt(s.memo, tags[i]) == Some(VersionsOf(s, tags, now)[i])
    decreases |tags|
  {
    if tags != [] {
      var n := |tags| - 1;
      PrefixMembers(tags, n);
      LookedAllMemoized(s, tags[..n], now);
      assert tags[n] in tags;
      LookedFacts(s, tags[n], now, tags[n]);
      assert LookedAll(s, tags, now) == Looked(s, tags[n], now);
      var prev := VersionsOf(s, tags[..n], now);
      var vs := VersionsOf(s, tags, now);
      assert vs == prev + [LookedValue(s, tags[n], now)];
      forall i | 0 <= i < |tags|
        ensures MemoAt(s.memo, tags[i]) == Some(vs[i])
      {
        if i < n {
          assert tags[i] == tags[..n][i];
          assert vs[i] == prev[i];
        }
      }
    }
  }

  /**
   * After one `genkey`, the next `genkey` of the same tags on the same
   * instance consults only the memo: whatever was written to the store in
   * between, it writes nothing and hashes the same versions.
   */
  lemma GenKeyRepeats(s: Side, tags: seq<string>, now: nat, db': Db)
    ensures var s' := Side(LookedAll(s, tags, now).memo, db');
      LookedAll(s', tags, now) == s' && VersionsOf(s', tags, now) == VersionsOf(s, tags, now)
  {
    var r := LookedAll(s, tags, now);
    var s' := Side(r.memo, db');
    forall t | t in tags
      ensures Truthy(MemoAt(s'.memo, t))
    {
      GenKeyMemoizes(s, tags, now, t);
    }
    LookedAllMemoized(s', tags, now);
    VersionsAreMemoized(s, tags, now);
  }

  /** While the memo is coherent, `genkey` stays coherent. */
  lemma {:induction false} LookedAllTransparent(s: Side, tags: seq<string>, now: nat)
    requires Coherent(s, now)
    ensures Coherent(LookedAll(s, tags, now), now)
    decreases |tags|
  {
    if tags != [] {
      LookedAllTransparent(s, tags[..|tags| - 1], now);
      LookedTransparent(LookedAll(s, tags[..|tags| - 1], now), tags[|tags| - 1], now);
    }
  }

  // ------------------------------------------------------ incrementTag

  /** `incrementTag`: `getTagValue`, the store increment, then the memo takes the store's answer. */
  function Incremented(s: Side, tag: string, now: nat): Side {
    var r := Looked(s, tag, now);
    var db := BumpedIfPresent(r.db, TagKey(tag), now);
    Side(r.memo[tag := NumAt(db, TagKey(tag), now)], db)
  }

  /** After `incrementTag` the memo and the store agree on the tag, and the next `getTagValue` answers the store's new version. */
  lemma IncrementAgrees(s: Side, tag: string, now: nat)
    ensures MemoAt(Incremented(s, tag, now).memo, tag) == NumAt(Incremented(s, tag, now).db, TagKey(tag), now)
    ensures LookedValue(Incremented(s, tag, now), tag, now) == CounterVersion(Incremented(s, tag, now).db, TagKey(tag), now)
  {
  }

  /**
   * While the memo is coherent, `incrementTag` raises the tag's version by
   * exactly one over what `getTagValue` answered, the next `getTagValue`
   * sees the new version, and the memo stays coherent.
   */
  lemma IncrementRaises(s: Side, tag: string, now: nat)
    requires Coherent(s, now)
    ensures NumAt(Incremented(s, tag, now).db, TagKey(tag), now) == Some(LookedValue(s, tag, now) + 1)
    ensures LookedValue(Incremented(s, tag, now), tag, now) == LookedValue(s, tag, now) + 1
    ensures Coherent(Incremented(s, tag, now), now)
    ensures AgreeOutsideTags(s.db, Incremented(s, tag, now).db)
  {
    var r := Looked(s, tag, now);
    LookedTransparent(s, tag, now);
    LookedFacts(s, tag, now, tag);
    var x := Incremented(s, tag, now);
    forall t | t in x.memo && Truthy(x.memo[t])
      ensures NumAt(x.db, TagKey(t), now) == x.memo[t]
    {
      assert TagKey(t) == TagKey(tag) ==> t == tag;
      if t != tag {
        assert x.memo[t] == r.memo[t];
      }
    }
    forall k | !IsTagKey(k)
      ensures k != TagKey(tag)
    {
    }
  }

  /**
   * While the memo is coherent, an `incrementTag` of a listed tag right
   * after `genkey` changes what the next `genkey` hashes.
   */
  lemma IncrementAfterGenKeyChangesVersions(s: Side, tags: seq<string>, t: string, now: nat)
    requires Coherent(s, now) && t in tags
    ensures var r := LookedAll(s, tags, now);
      VersionsOf(Incremented(r, t, now), tags, now) != VersionsOf(r, tags, now)
  {
    var r := LookedAll(s, tags, now);
    LookedAllTransparent(s, tags, now);
    forall u | u in tags
      ensures Truthy(MemoAt(r.memo, u))
    {
      GenKeyMemoizes(s, tags, now, u);
    }
    var x := Incremented(r, t, now);
    IncrementRaises(r, t, now);
    LookedFacts(r, t, now, t);
    forall u | u in tags
      ensures Truthy(MemoAt(x.memo, u))
    {
      LookedFacts(r, t, now, u);
    }
    LookedAllMemoized(r, tags, now);
    LookedAllMemoized(x, tags, now);
    var i :| 0 <= i < |tags| && tags[i] == t;
    assert VersionsOf(x, tags, now)[i] == VersionsOf(r, tags, now)[i] + 1;
  }

  /** The same at the digest input: the tag's new version moves the fingerprint. */
  lemma IncrementAfterGenKeyChangesPreHash(s: Side, key: string, tags: seq<string>, t: string, now: nat)
    requires Coherent(s, now) && t in tags
    ensures var r := LookedAll(s, Sort(tags), now);
      PreHashOf(key, Sort(tags), VersionsOf(Incremented(r, t, now), Sort(tags), now))
        != PreHashOf(key, Sort(tags), VersionsOf(r, Sort(tags), now))
  {
    var sorted := Sort(tags);
    SortKeepsMembers(tags, t);
    IncrementAfterGenKeyChangesVersions(s, sorted, t, now);
    var r := LookedAll(s, sorted, now);
    PreHashSeparatesVersionVectors(key, sorted, VersionsOf(Incremented(r, t, now), sorted, now), VersionsOf(r, sorted, now));
  }

  /**
   * Without coherence the invalidation can be lost: when the memo still
   * holds version 1 but the stored counter has expired, the increment finds
   * nothing to raise, the memo takes the store's empty answer, and the next
   * `getTagValue` recreates version 1.
   */
  lemma IncrementLostOnExpiredVersion(s: Side, t: string, now: nat)
    requires MemoAt(s.memo, t) == Some(1) && NumAt(s.db, TagKey(t), now) == None
    ensures var r := LookedAll(s, [t], now);
      VersionsOf(Incremented(r, t, now), [t], now) == VersionsOf(r, [t], now) == [1]
  {
    assert [t][..0] == [];
  }

  // ------------------------------------------------------------- clean

  /** The matching modes' effect: one `incrementTag` per listed tag, in order. */
  function IncrementedAll(s: Side, tags: seq<string>, now: nat): Side
    decreases |tags|
  {
    if tags == [] then s else Incremented(IncrementedAll(s, tags[..|tags| - 1], now), tags[|tags| - 1], now)
  }

  lemma CountLast(tags: seq<string>, t: string)
    requires tags != []
    ensures multiset(tags)[t] == multiset(tags[..|tags| - 1])[t] + if tags[|tags| - 1] == t then 1 else 0
  {
    assert tags == tags[..|tags| - 1] + [tags[|tags| - 1]];
  }

  /** One `incrementTag` while the memo is coherent: the tag's counter becomes one above what it stood for, the others stay. */
  lemma IncrementStep(r: Side, tag: string, now: nat, t: string)
    requires Coherent(r, now)
    ensures NumAt(Incremented(r, tag, now).db, TagKey(t), now)
         == if t == tag then Some(CounterVersion(r.db, TagKey(t), now) + 1) else NumAt(r.db, TagKey(t), now)
  {
    IncrementRaises(r, tag, now);
    LookedTransparent(r, tag, now);
    if t != tag {
      assert TagKey(t) != TagKey(tag);
      LookedFacts(r, tag, now, t);
    }
  }

  /** While the memo is coherent, the matching modes keep it coherent and change no key outside the versions. */
  lemma {:induction false} IncrementedAllCoherent(s: Side, tags: seq<string>, now: nat)
    requires Coherent(s, now)
    ensures Coherent(IncrementedAll(s, tags, now), now)
    ensures AgreeOutsideTags(s.db, IncrementedAll(s, tags, now).db)
    decreases |tags|
  {
    if tags != [] {
      var n := |tags| - 1;
      IncrementedAllCoherent(s, tags[..n], now);
      IncrementRaises(IncrementedAll(s, tags[..n], now), tags[n], now);
    }
  }

  /** A tag's counter after `c` increments from `s`: unchanged for none, else `c` above the version it stood for. */
  function RaisedBy(s: Side, t: string, c: nat, now: nat): Option<nat> {
    if c == 0 then NumAt(s.db, TagKey(t), now) else Some(CounterVersion(s.db, TagKey(t), now) + c)
  }

  lemma RaisedByStep(s: Side, r: Side, tag: string, t: string, c: nat, now: nat)
    requires Coherent(r, now)
    requires NumAt(r.db, TagKey(t), now) == RaisedBy(s, t, c, now)
    ensures NumAt(Incremented(r, tag, now).db, TagKey(t), now) == RaisedBy(s, t, c + if tag == t then 1 else 0, now)
  {
    IncrementStep(r, tag, now, t);
  }

  /**
   * While the memo is coherent, the matching modes leave each listed tag one
   * version per listing above what it stood for (1 when it was falsy) and
   * unlisted tags as they were.
   */
  lemma {:induction false} IncrementedAllRaises(s: Side, tags: seq<string>, now: nat, t: string)
    requires Coherent(s, now)
    ensures NumAt(IncrementedAll(s, tags, now).db, TagKey(t), now) == RaisedBy(s, t, multiset(tags)[t], now)
    decreases |tags|
  {
    if tags != [] {
      var n := |tags| - 1;
      IncrementedAllRaises(s, tags[..n], now, t);
      IncrementedAllCoherent(s, tags[..n], now);
      var r := IncrementedAll(s, tags[..n], now);
      var c := multiset(tags[..n])[t] + if tags[n] == t then 1 else 0;
      CountLast(tags, t);
      RaisedByStep(s, r, tags[n], t, multiset(tags[..n])[t], now);
      assert IncrementedAll(s, tags, now) == Incremented(r, tags[n], now);
      assert multiset(tags)[t] == c;
    }
  }

  /** Memo and store after `clean($mode, $tags)`; there is no 'clear' mode. */
  function Cleaned(s: Side, mode: string, tags: seq<string>, now: nat): (r: Side)
    ensures mode != CleaningModeAll && !IsMatchingMode(mode) ==> r == s
    ensures IsMatchingMode(mode) && tags == [] ==> r == s
  {
    if mode == CleaningModeAll then Side(s.memo, BumpedIfPresent(s.db, NamespaceKey, now))
    else if IsMatchingMode(mode) then IncrementedAll(s, tags, now)
    else s
  }

  function CleanedNamespace(ns: Option<nat>, db': Db, mode: string, now: nat): Option<nat> {
    if mode == CleaningModeAll then NumAt(db', NamespaceKey, now) else ns
  }

  /**
   * Mode 'all' raises a present epoch by one and the field follows it; on a
   * missing epoch the increment fails and the field becomes empty. Nothing
   * else changes, the memo included.
   */
  lemma CleanAllRaisesNamespace(s: Side, ns: Option<nat>, tags: seq<string>, now: nat)
    ensures var r := Cleaned(s, CleaningModeAll, tags, now);
      var ns' := CleanedNamespace(ns, r.db, CleaningModeAll, now);
      var old_ := NumAt(s.db, NamespaceKey, now);
      r.memo == s.memo && ns' == NumAt(r.db, NamespaceKey, now) &&
      (old_.Some? ==> ns' == Some(old_.value + 1)) &&
      (old_.None? ==> ns' == None && r == s) &&
      AgreeExcept(s.db, r.db, {NamespaceKey})
  {
  }

  // ------------------------------------------------------------ genkey

  /** `$salt . $string . '_' . $tags_str . '_' . $tags_val`: no prefix. */
  function PreHashOf(key: string, tags: seq<string>, vs: seq<nat>): string {
    PreHash(Salt + key, TagsText(tags), VersionsText(vs))
  }

  /** `$namespace . '.' . base64url(sha256(...))`. */
  function KeyAt(hash: Sha256, ns: Option<nat>, key: string, tags: seq<string>, vs: seq<nat>): string {
    DotKey(ns, Base64Url(hash(PreHashOf(key, tags, vs))))
  }

  function GenKeyOf(hash: Sha256, ns: Option<nat>, key: string, tags: seq<string>, s: Side, now: nat): string {
    KeyAt(hash, ns, key, Sort(tags), VersionsOf(s, Sort(tags), now))
  }

  /** The key `save` and `load` use: the caller's own when no tags are given. */
  function StoreKey(hash: Sha256, ns: Option<nat>, key: string, tags: seq<string>, s: Side, now: nat): (k: string)
    ensures tags == [] ==> k == key
  {
    if |tags| > 0 then GenKeyOf(hash, ns, key, tags, s, now) else key
  }

  /** Listing the same tags in another order gives the same effect and the same key. */
  lemma GenKeyOrderIndependent(hash: Sha256, ns: Option<nat>, key: string, a: seq<string>, b: seq<string>, s: Side, now: nat)
    requires multiset(a) == multiset(b)
    ensures LookedAll(s, Sort(a), now) == LookedAll(s, Sort(b), now)
    ensures GenKeyOf(hash, ns, key, a, s, now) == GenKeyOf(hash, ns, key, b, s, now)
  {
    SortOrderIndependent(a, b);
  }

  /**
   * The epoch's digits, '.' and 43 characters of the URL-safe alphabet; the
   * '.' is the only one in the key, since neither digits nor that alphabet
   * contain it.
   */
  lemma FingerprintLayout(hash: Sha256, ns: Option<nat>, key: string, tags: seq<string>, s: Side, now: nat)
    ensures var k := GenKeyOf(hash, ns, key, tags, s, now);
      var n := |NamespaceText(ns)|;
      |k| == n + 44 && k[..n] == NamespaceText(ns) && k[n] == '.' &&
      (forall i :: n < i < |k| ==> IsUrlChar(k[i])) &&
      (forall i :: 0 <= i < |k| && i != n ==> k[i] != '.')
  {
    var sorted := Sort(tags);
    var b := hash(PreHashOf(key, sorted, VersionsOf(s, sorted, now)));
    Base64UrlIsUnpadded(b);
    Base64UrlWidths(b);
    UrlDotKey(ns, Base64Url(b));
  }

  /** No fingerprint is the epoch's key or a version's key: those start with 'k', a fingerprint with a digit or '.'. */
  lemma FingerprintOutsideRegistry(hash: Sha256, ns: Option<nat>, key: string, tags: seq<string>, s: Side, now: nat)
    ensures var k := GenKeyOf(hash, ns, key, tags, s, now);
      k != NamespaceKey && !IsTagKey(k)
  {
    var sorted := Sort(tags);
    DotKeyOutside(ns, Base64Url(hash(PreHashOf(key, sorted, VersionsOf(s, sorted, now)))));
  }

  lemma DotKeyOutside(ns: Option<nat>, digest: string)
    ensures DotKey(ns, digest) != NamespaceKey && !IsTagKey(DotKey(ns, digest))
  {
    var k := DotKey(ns, digest);
    var ds := NamespaceText(ns);
    assert k == ds + ['.'] + digest;
    JoinAt(ds, '.', digest);
    assert k[0] == '.' || IsDigit(k[0]);
    assert NamespaceKey[0] == 'k';
    if |k| >= 16 {
      assert k[..16][0] == k[0];
    }
  }

  lemma KeysSeparateNamespaces(hash: Sha256, ns1: Option<nat>, ns2: Option<nat>, key1: string, key2: string,
                               tags1: seq<string>, tags2: seq<string>, vs1: seq<nat>, vs2: seq<nat>)
    requires ns1 != ns2
    ensures KeyAt(hash, ns1, key1, tags1, vs1) != KeyAt(hash, ns2, key2, tags2, vs2)
  {
    DotKeySeparatesNamespaces(ns1, ns2, Base64Url(hash(PreHashOf(key1, tags1, vs1))), Base64Url(hash(PreHashOf(key2, tags2, vs2))));
  }

  lemma PreHashSeparatesVersionVectors(key: string, tags: seq<string>, a: seq<nat>, b: seq<nat>)
    requires |a| == |b| && a != b
    ensures PreHashOf(key, tags, a) != PreHashOf(key, tags, b)
  {
    if VersionsText(a) == VersionsText(b) {
      VersionsTextInjective(a, b);
    }
    PreHashSeparatesVersions(Salt + key, TagsText(tags), VersionsText(a), VersionsText(b));
  }

  /**
   * The digest input does not delimit the caller's key from the tag names:
   * key k + "_" with tag t and key k with tag "_" + t hash the same text, so
   * they share one fingerprint whenever their versions agree.
   */
  lemma KeyAndTagsShareDelimiter(key: string, t: string, vs: seq<nat>)
    ensures PreHashOf(key + "_", [t], vs) == PreHashOf(key, ["_" + t], vs)
  {
    assert TagsText([t]) == "_" + "_" + t by { assert [t][..0] == []; }
    assert TagsText(["_" + t]) == "_" + "_" + ("_" + t) by { assert ["_" + t][..0] == []; }
    var v := VersionsText(vs);
    assert PreHashOf(key + "_", [t], vs) == Salt + key + "_" + "_" + ("_" + "_" + t) + "_" + v;
    assert PreHashOf(key, ["_" + t], vs) == Salt + key + "_" + ("_" + "_" + ("_" + t)) + "_" + v;
  }

  // ------------------------------------------------- constructor, save/load

  function InitialNamespace(db: Db, draw: nat, now: nat): Option<nat> {
    if NumAt(db, NamespaceKey, now).Some? then NumAt(db, NamespaceKey, now) else Some(draw)
  }

  function InitialStore(db: Db, draw: nat, now: nat): Db {
    if NumAt(db, NamespaceKey, now).Some? then db else Put(db, NamespaceKey, Num(draw), None)
  }

  /** Only a read answering `false` is replaced; a stored 0 is kept. */
  lemma InitialNamespaceStored(db: Db, draw: nat, now: nat)
    ensures InitialNamespace(db, draw, now).Some?
    ensures NumAt(InitialStore(db, draw, now), NamespaceKey, now) == InitialNamespace(db, draw, now)
    ensures NumAt(db, NamespaceKey, now) == Some(0) ==> InitialNamespace(db, draw, now) == Some(0) && InitialStore(db, draw, now) == db
    ensures NumAt(db, NamespaceKey, now).None? ==> InitialNamespace(db, draw, now) == Some(draw)
  {
  }

  /** Memo and store after `save`: the `genkey` effect when there are tags, then the set. */
  function Saved(hash: Sha256, ns: Option<nat>, key: string, tags: seq<string>, data: seq<byte>, ttl: int, s: Side, now: nat): Side {
    var r := if |tags| > 0 then LookedAll(s, Sort(tags), now) else s;
    Side(r.memo, Put(r.db, StoreKey(hash, ns, key, tags, s, now), Blob(data), MemcachedExpiry(ttl, now)))
  }

  /** What `load` answers. */
  function Loaded(hash: Sha256, ns: Option<nat>, key: string, tags: seq<string>, s: Side, now: nat): Option<seq<byte>> {
    var r := if |tags| > 0 then LookedAll(s, Sort(tags), now) else s;
    BlobAt(r.db, StoreKey(hash, ns, key, tags, s, now), now)
  }

  lemma SavedIs(hash: Sha256, ns: Option<nat>, key: string, tags: seq<string>, data: seq<byte>, ttl: int, s: Side, now: nat)
    requires |tags| > 0
    ensures var r := LookedAll(s, Sort(tags), now);
      Saved(hash, ns, key, tags, data, ttl, s, now)
      == Side(r.memo, r.db[GenKeyOf(hash, ns, key, tags, s, now) := Entry(Blob(data), MemcachedExpiry(ttl, now))])
  {
  }

  /** A `load` whose `genkey` writes nothing and hashes the versions `s` would read, reads the key `s` would use. */
  lemma LoadedAtRepeat(hash: Sha256, ns: Option<nat>, key: string, tags: seq<string>, s: Side, s': Side, now: nat)
    requires |tags| > 0
    requires LookedAll(s', Sort(tags), now) == s'
    requires VersionsOf(s', Sort(tags), now) == VersionsOf(s, Sort(tags), now)
    ensures Loaded(hash, ns, key, tags, s', now) == BlobAt(s'.db, GenKeyOf(hash, ns, key, tags, s, now), now)
  {
  }

  /**
   * What is saved is what a load of the same key and tags on the same
   * instance answers at the same instant, for any timeout under which
   * Memcached keeps the item; with no tags that is the caller's raw key.
   */
  lemma SaveThenLoad(hash: Sha256, ns: Option<nat>, key: string, tags: seq<string>, data: seq<byte>, ttl: int, s: Side, now: nat)
    requires ttl >= 0 && (ttl > 2592000 ==> now < ttl)
    ensures Loaded(hash, ns, key, tags, Saved(hash, ns, key, tags, data, ttl, s, now), now) == Some(data)
  {
    var e := Entry(Blob(data), MemcachedExpiry(ttl, now));
    assert Live(e, now);
    if |tags| > 0 {
      var r := LookedAll(s, Sort(tags), now);
      var k := GenKeyOf(hash, ns, key, tags, s, now);
      var saved := Side(r.memo, r.db[k := e]);
      SavedIs(hash, ns, key, tags, data, ttl, s, now);
      assert Saved(hash, ns, key, tags, data, ttl, s, now) == saved;
      GenKeyRepeats(s, Sort(tags), now, saved.db);
      LoadedAtRepeat(hash, ns, key, tags, s, saved, now);
      BlobAtPut(r.db, k, data, MemcachedExpiry(ttl, now), now);
    }
  }

  // ------------------------------------------------------------- class

  class TaggedMemCache {
    const store: Store
    const hash: Sha256
    var namespace: Option<nat>
    /** `$keys`: the version memo. */
    var keys: Memo

    /** Reads the epoch and stores a random one in 1..10000 only when the read answers `false`. */
    constructor (store: Store, hash: Sha256, now: nat)
      modifies store
      ensures this.store == store && this.hash == hash && keys == map[]
      ensures namespace.Some? && namespace == InitialNamespace(old(store.entries), namespace.value, now)
      ensures store.entries == InitialStore(old(store.entries), namespace.value, now)
      ensures NumAt(old(store.entries), NamespaceKey, now).None? ==> 1 <= namespace.value <= 10000
    {
      this.store := store;
      this.hash := hash;
      keys := map[];
      var ns := store.Get(NamespaceKey, now);
      if ns.None? {
        var draw :| 1 <= draw <= 10000;
        ns := Some(draw);
        store.Set(NamespaceKey, Num(draw), None);
      }
      namespace := ns;
    }

    /** `getTagValue`. */
    method GetTagValue(tag: string, now: nat) returns (v: nat)
      modifies this, store
      ensures namespace == old(namespace)
      ensures Side(keys, store.entries) == Looked(Side(old(keys), old(store.entries)), tag, now)
      ensures v == LookedValue(Side(old(keys), old(store.entries)), tag, now)
    {
      if !Truthy(MemoAt(keys, tag)) {
        var stored := store.Get(TagKey(tag), now);
        keys := keys[tag := stored];
      }
      if !Truthy(MemoAt(keys, tag)) {
        store.Set(TagKey(tag), Num(1), MemcachedExpiry(TagTtl, now));
        keys := keys[tag := Some(1)];
      }
      v := MemoAt(keys, tag).value;
    }

    /** `incrementTag`: answers the store's new value, `None` (false) when the increment failed. */
    method IncrementTag(tag: string, now: nat) returns (n: Option<nat>)
      modifies this, store
      ensures namespace == old(namespace)
      ensures Side(keys, store.entries) == Incremented(Side(old(keys), old(store.entries)), tag, now)
      ensures n == MemoAt(keys, tag)
    {
      var _ := GetTagValue(tag, now);
      var _ := store.Increment(TagKey(tag), now);
      n := store.Get(TagKey(tag), now);
      keys := keys[tag := n];
    }

    /** `genkey`. */
    method GenKey(key: string, tags: seq<string>, now: nat) returns (k: string)
      modifies this, store
      ensures namespace == old(namespace)
      ensures Side(keys, store.entries) == LookedAll(Side(old(keys), old(store.entries)), Sort(tags), now)
      ensures k == GenKeyOf(hash, namespace, key, tags, Side(old(keys), old(store.entries)), now)
    {
      ghost var start := Side(keys, store.entries);
      var sorted := Sort(tags);
      var tagsStr := "_";
      var tagsVal := "0";
      ghost var vs: seq<nat> := [];
      var i := 0;
      while i < |sorted|
        invariant 0 <= i <= |sorted|
        invariant namespace == old(namespace)
        invariant Side(keys, store.entries) == LookedAll(start, sorted[..i], now)
        invariant vs == VersionsOf(start, sorted[..i], now)
        invariant tagsStr == TagsText(sorted[..i])
        invariant tagsVal == VersionsText(vs)
      {
        var tag := sorted[i];
        tagsStr := tagsStr + "_" + tag;
        var v := GetTagValue(tag, now);
        tagsVal := tagsVal + "_" + Decimal(v);
        GenKeyStep(start, sorted, i, now);
        vs := vs + [v];
        i := i + 1;
      }
      assert sorted[..i] == sorted;
      var hashThis := Salt + key + "_" + tagsStr + "_" + tagsVal;
      k := NamespaceText(namespace) + "." + Base64Url(hash(hashThis));
    }

    /** `clean($mode, $tags)`. */
    method Clean(mode: string, tags: seq<string>, now: nat)
      modifies this, store
      ensures Side(keys, store.entries) == Cleaned(Side(old(keys), old(store.entries)), mode, tags, now)
      ensures namespace == CleanedNamespace(old(namespace), store.entries, mode, now)
    {
      if mode == CleaningModeAll {
        var _ := store.Increment(NamespaceKey, now);
        namespace := store.Get(NamespaceKey, now);
      } else if IsMatchingMode(mode) {
        if |tags| > 0 {
          ghost var start := Side(keys, store.entries);
          var i := 0;
          while i < |tags|
            invariant 0 <= i <= |tags|
            invariant Side(keys, store.entries) == IncrementedAll(start, tags[..i], now)
            invariant namespace == old(namespace)
          {
            var _ := IncrementTag(tags[i], now);
            assert tags[..i + 1][..i] == tags[..i];
            i := i + 1;
          }
          assert tags[..i] == tags;
        }
      }
    }

    /** `save`: the caller's key when there are no tags, else the fingerprint; the set succeeds. */
    method Save(data: seq<byte>, key: string, tags: seq<string>, ttl: int, now: nat) returns (ok: bool)
      modifies this, store
      ensures ok && namespace == old(namespace)
      ensures Side(keys, store.entries) == Saved(hash, namespace, key, tags, data, ttl, Side(old(keys), old(store.entries)), now)
    {
      var k := key;
      if |tags| > 0 {
        k := GenKey(key, tags, now);
      }
      store.Set(k, Blob(data), MemcachedExpiry(ttl, now));
      ok := true;
    }

    /** `load`: the caller's key when there are no tags, else the fingerprint. */
    method Load(key: string, tags: seq<string>, now: nat) returns (data: Option<seq<byte>>)
      modifies this, store
      ensures namespace == old(namespace)
      ensures Side(keys, store.entries) == (if |tags| > 0 then LookedAll(Side(old(keys), old(store.entries)), Sort(tags), now) else Side(old(keys), old(store.entries)))
      ensures data == Loaded(hash, namespace, key, tags, Side(old(keys), old(store.entries)), now)
    {
      var k := key;
      if |tags| > 0 {
        k := GenKey(key, tags, now);
      }
      data := store.GetBlob(k, now);
    }
  }
}
