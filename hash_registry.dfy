/**
 * The tag registry shared by `TaggedRedisCache` and `RKeyCache`: two Redis
 * hashes, one holding each tag's version and one the instant the tag was
 * last used, a namespace counter, and a rate-limited sweep that forgets tags
 * unused for a day. The two classes differ only in their key names and in
 * the text put before the namespace, which a `Layout` carries.
 */
module HashRegistry {
  import opened Basics
  import opened Text
  import opened Ordering
  import opened Encoding
  import opened KvStore
  import opened Fingerprint

  /** The store keys of one class, and the text its fingerprints start with. */
  datatype Layout = Layout(head: string, namespaceKey: string, tagsKey: string, timeKey: string, refreshKey: string)
  {
    /** The bookkeeping keys are distinct, and no fingerprint is one of them. */
    ghost predicate WellFormed() {
      && namespaceKey != tagsKey && namespaceKey != timeKey && namespaceKey != refreshKey
      && tagsKey != timeKey && tagsKey != refreshKey && timeKey != refreshKey
      && forall ns, d :: ColonKey(head, ns, d) != tagsKey && ColonKey(head, ns, d) != timeKey
                     && ColonKey(head, ns, d) != namespaceKey && ColonKey(head, ns, d) != refreshKey
    }
  }

  /** How long the sweep's rate-limit marker lives. */
  const RefreshTtl: nat := 7200
  /** A tag untouched for longer than this is forgotten by the sweep. */
  const MaxAge: nat := 86400

  // ------------------------------------------------------- getTagValue

  /** `getTagValue`'s store effect: stamp the tag, then create its version at 1 when falsy. */
  function Touched(db: Db, l: Layout, tag: string, now: nat): Db {
    var stamped := WithField(db, l.timeKey, tag, now, now);
    if Truthy(FieldAt(stamped, l.tagsKey, tag, now)) then stamped
    else WithField(stamped, l.tagsKey, tag, 1, now)
  }

  /** What `getTagValue` answers. */
  function Version(db: Db, l: Layout, tag: string, now: nat): (v: nat)
    ensures v >= 1
  {
    var stored := FieldAt(WithField(db, l.timeKey, tag, now, now), l.tagsKey, tag, now);
    if Truthy(stored) then stored.value else 1
  }

  /** The store effect of `genkey`'s loop. */
  function TouchedAll(db: Db, l: Layout, tags: seq<string>, now: nat): Db
    decreases |tags|
  {
    if tags == [] then db else Touched(TouchedAll(db, l, tags[..|tags| - 1], now), l, tags[|tags| - 1], now)
  }

  /** The versions `genkey`'s loop collects, one per tag, in order. */
  function VersionsOf(db: Db, l: Layout, tags: seq<string>, now: nat): (vs: seq<nat>)
    ensures |vs| == |tags|
    ensures forall i :: 0 <= i < |vs| ==> vs[i] >= 1
    decreases |tags|
  {
    if tags == [] then []
    else
      var n := |tags| - 1;
      VersionsOf(db, l, tags[..n], now) + [Version(TouchedAll(db, l, tags[..n], now), l, tags[n], now)]
  }

  /** One more tag in `genkey`'s loop. */
  lemma GenKeyStep(db: Db, l: Layout, tags: seq<string>, i: nat, now: nat)
    requires i < |tags|
    ensures TouchedAll(db, l, tags[..i + 1], now) == Touched(TouchedAll(db, l, tags[..i], now), l, tags[i], now)
    ensures VersionsOf(db, l, tags[..i + 1], now) == VersionsOf(db, l, tags[..i], now) + [Version(TouchedAll(db, l, tags[..i], now), l, tags[i], now)]
    ensures TagsText(tags[..i + 1]) == TagsText(tags[..i]) + "_" + tags[i]
  {
    assert tags[..i + 1][..i] == tags[..i];
  }

  /** What `getTagValue` answers, read off the version hash alone. */
  lemma VersionReads(db: Db, l: Layout, tag: string, now: nat)
    requires l.WellFormed()
    ensures Version(db, l, tag, now) == if Truthy(FieldAt(db, l.tagsKey, tag, now)) then FieldAt(db, l.tagsKey, tag, now).value else 1
  {
  }

  /** Every listed tag is stamped with `now` and holds a truthy version. */
  predicate Settled(db: Db, l: Layout, tags: seq<string>, now: nat) {
    forall t :: t in tags ==> Truthy(FieldAt(db, l.tagsKey, t, now)) && FieldAt(db, l.timeKey, t, now) == Some(now)
  }

  /** One `getTagValue`, field by field. */
  lemma TouchedFields(db: Db, l: Layout, tag: string, now: nat, t: string)
    requires l.WellFormed()
    ensures FieldAt(Touched(db, l, tag, now), l.tagsKey, t, now)
         == if t == tag && !Truthy(FieldAt(db, l.tagsKey, t, now)) then Some(1) else FieldAt(db, l.tagsKey, t, now)
    ensures FieldAt(Touched(db, l, tag, now), l.timeKey, t, now)
         == if t == tag then Some(now) else FieldAt(db, l.timeKey, t, now)
    ensures AgreeExcept(db, Touched(db, l, tag, now), {l.timeKey, l.tagsKey})
  {
  }

  /**
   * `genkey` leaves every listed tag stamped with `now` and holding a truthy
   * version (1 if it had none), and changes nothing else.
   */
  lemma {:induction false} TouchedAllFields(db: Db, l: Layout, tags: seq<string>, now: nat, t: string)
    requires l.WellFormed()
    ensures FieldAt(TouchedAll(db, l, tags, now), l.tagsKey, t, now)
         == if t in tags && !Truthy(FieldAt(db, l.tagsKey, t, now)) then Some(1) else FieldAt(db, l.tagsKey, t, now)
    ensures FieldAt(TouchedAll(db, l, tags, now), l.timeKey, t, now)
         == if t in tags then Some(now) else FieldAt(db, l.timeKey, t, now)
    ensures AgreeExcept(db, TouchedAll(db, l, tags, now), {l.timeKey, l.tagsKey})
    decreases |tags|
  {
    if tags != [] {
      var n := |tags| - 1;
      TouchedAllFields(db, l, tags[..n], now, t);
      TouchedFields(TouchedAll(db, l, tags[..n], now), l, tags[n], now, t);
      PrefixMembers(tags, |tags|);
      PrefixMembers(tags, n);
      assert t in tags <==> t in tags[..n] || t == tags[n];
    }
  }

  /** Outside a sweep, `genkey` never lowers a version: absent or falsy becomes 1, the rest stay. */
  lemma TouchedAllMonotone(db: Db, l: Layout, tags: seq<string>, now: nat, t: string)
    requires l.WellFormed()
    requires FieldAt(db, l.tagsKey, t, now).Some?
    ensures FieldAt(TouchedAll(db, l, tags, now), l.tagsKey, t, now).Some?
    ensures FieldAt(TouchedAll(db, l, tags, now), l.tagsKey, t, now).value >= FieldAt(db, l.tagsKey, t, now).value
  {
    TouchedAllFields(db, l, tags, now, t);
  }

  /** The versions `genkey` hashes are the ones it leaves stored. */
  lemma {:induction false} VersionsAreStored(db: Db, l: Layout, tags: seq<string>, now: nat)
    requires l.WellFormed()
    ensures forall i :: 0 <= i < |tags| ==>
      FieldAt(TouchedAll(db, l, tags, now), l.tagsKey, tags[i], now) == Some(VersionsOf(db, l, tags, now)[i])
    decreases |tags|
  {
    if tags != [] {
      var n := |tags| - 1;
      var s := TouchedAll(db, l, tags[..n], now);
      var prev := VersionsOf(db, l, tags[..n], now);
      var vs := VersionsOf(db, l, tags, now);
      assert TouchedAll(db, l, tags, now) == Touched(s, l, tags[n], now);
      VersionsAreStored(db, l, tags[..n], now);
      assert vs == prev + [Version(s, l, tags[n], now)];
      VersionReads(s, l, tags[n], now);
      forall i | 0 <= i < |tags|
        ensures FieldAt(Touched(s, l, tags[n], now), l.tagsKey, tags[i], now) == Some(vs[i])
      {
        TouchedFields(s, l, tags[n], now, tags[i]);
        if i < n {
          assert tags[i] == tags[..n][i];
          assert vs[i] == prev[i];
          assert FieldAt(s, l.tagsKey, tags[i], now) == Some(vs[i]);
        }
      }
    }
  }

  /** `genkey` leaves its tags settled. */
  lemma GenKeySettles(db: Db, l: Layout, tags: seq<string>, now: nat)
    requires l.WellFormed()
    ensures Settled(TouchedAll(db, l, tags, now), l, tags, now)
  {
    forall t | t in tags
      ensures Truthy(FieldAt(TouchedAll(db, l, tags, now), l.tagsKey, t, now))
      ensures FieldAt(TouchedAll(db, l, tags, now), l.timeKey, t, now) == Some(now)
    {
      TouchedAllFields(db, l, tags, now, t);
    }
  }

  /** On a tag stamped with `now` and holding a truthy version, `getTagValue` writes nothing and answers that version. */
  lemma TouchedSettled(db: Db, l: Layout, t: string, now: nat)
    requires l.WellFormed()
    requires Truthy(FieldAt(db, l.tagsKey, t, now)) && FieldAt(db, l.timeKey, t, now) == Some(now)
    ensures Touched(db, l, t, now) == db
    ensures Some(Version(db, l, t, now)) == FieldAt(db, l.tagsKey, t, now)
  {
    var fs := FieldsAt(db, l.timeKey, now);
    assert t in fs && fs[t] == now;
    assert fs[t := now] == fs;
    assert WithField(db, l.timeKey, t, now, now) == db;
    VersionReads(db, l, t, now);
  }

  /** On a settled store `genkey` writes nothing and hashes the stored versions. */
  lemma {:induction false} TouchedAllSettled(db: Db, l: Layout, tags: seq<string>, now: nat)
    requires l.WellFormed()
    requires Settled(db, l, tags, now)
    ensures TouchedAll(db, l, tags, now) == db
    ensures forall i :: 0 <= i < |tags| ==> FieldAt(db, l.tagsKey, tags[i], now) == Some(VersionsOf(db, l, tags, now)[i])
    decreases |tags|
  {
    if tags != [] {
      var n := |tags| - 1;
      PrefixMembers(tags, n);
      TouchedAllSettled(db, l, tags[..n], now);
      var t := tags[n];
      assert t in tags;
      TouchedSettled(db, l, t, now);
      assert TouchedAll(db, l, tags, now) == Touched(db, l, t, now);
      var prev := VersionsOf(db, l, tags[..n], now);
      var vs := VersionsOf(db, l, tags, now);
      assert vs == prev + [Version(db, l, t, now)];
      forall i | 0 <= i < |tags|
        ensures FieldAt(db, l.tagsKey, tags[i], now) == Some(vs[i])
      {
        if i < n {
          assert tags[i] == tags[..n][i];
          assert vs[i] == prev[i];
        }
      }
    }
  }

  /** Writing a payload key leaves a settled store settled. */
  lemma SettledUnderPut(db: Db, l: Layout, tags: seq<string>, now: nat, k: string, e: Entry)
    requires Settled(db, l, tags, now)
    requires k != l.tagsKey && k != l.timeKey
    ensures Settled(db[k := e], l, tags, now)
  {
    forall t | t in tags
      ensures FieldAt(db[k := e], l.tagsKey, t, now) == FieldAt(db, l.tagsKey, t, now)
      ensures FieldAt(db[k := e], l.timeKey, t, now) == FieldAt(db, l.timeKey, t, now)
    {
    }
  }

  // ------------------------------------------------------------ genkey

  /** `$hash_this`. */
  function PreHashOf(prefix: string, key: string, tags: seq<string>, vs: seq<nat>): string {
    PreHash(prefix + "_key_" + key, TagsText(tags), VersionsText(vs))
  }

  /** `$head . $namespace . ':' . base64url(tiger192(...))`. */
  function KeyAt(hash: Tiger192, l: Layout, ns: Option<nat>, prefix: string, key: string, tags: seq<string>, vs: seq<nat>): string {
    ColonKey(l.head, ns, Base64Url(hash(PreHashOf(prefix, key, tags, vs))))
  }

  /** The key `genkey` answers for `key` and `tags` on store `db`. */
  function GenKeyOf(hash: Tiger192, l: Layout, ns: Option<nat>, prefix: string, key: string, tags: seq<string>, db: Db, now: nat): string {
    KeyAt(hash, l, ns, prefix, key, Sort(tags), VersionsOf(db, l, Sort(tags), now))
  }

  /** Listing the same tags in another order gives the same store effect and the same key. */
  lemma GenKeyOrderIndependent(hash: Tiger192, l: Layout, ns: Option<nat>, prefix: string, key: string,
                               a: seq<string>, b: seq<string>, db: Db, now: nat)
    requires multiset(a) == multiset(b)
    ensures TouchedAll(db, l, Sort(a), now) == TouchedAll(db, l, Sort(b), now)
    ensures GenKeyOf(hash, l, ns, prefix, key, a, db, now) == GenKeyOf(hash, l, ns, prefix, key, b, db, now)
  {
    SortOrderIndependent(a, b);
  }

  /** The suffix after the namespace is 32 characters of the URL-safe alphabet, with no '='. */
  lemma KeyShape(hash: Tiger192, l: Layout, ns: Option<nat>, prefix: string, key: string, tags: seq<string>, vs: seq<nat>)
    ensures var d := Base64Url(hash(PreHashOf(prefix, key, tags, vs)));
      KeyAt(hash, l, ns, prefix, key, tags, vs) == l.head + NamespaceText(ns) + ":" + d &&
      |d| == 32 && '=' !in d && (forall i :: 0 <= i < |d| ==> IsUrlChar(d[i]))
  {
    var b := hash(PreHashOf(prefix, key, tags, vs));
    Base64UrlIsUnpadded(b);
    Base64UrlWidths(b);
    Base64UrlLacksSeparators(b);
  }

  /**
   * Where the parts of a fingerprint sit: the head, the epoch's digits, ':'
   * and then 32 characters of the URL-safe alphabet.
   */
  lemma FingerprintLayout(hash: Tiger192, l: Layout, ns: Option<nat>, prefix: string, key: string, tags: seq<string>, db: Db, now: nat)
    ensures var k := GenKeyOf(hash, l, ns, prefix, key, tags, db, now);
      var n := |l.head| + |NamespaceText(ns)|;
      |k| == n + 33 && k[..|l.head|] == l.head && k[|l.head|..n] == NamespaceText(ns) && k[n] == ':' &&
      forall i :: n < i < |k| ==> IsUrlChar(k[i])
  {
    var sorted := Sort(tags);
    var vs := VersionsOf(db, l, sorted, now);
    KeyShape(hash, l, ns, prefix, key, sorted, vs);
    UrlColonKey(l.head, ns, Base64Url(hash(PreHashOf(prefix, key, sorted, vs))));
  }

  /** Keys under different namespaces never coincide. */
  lemma KeysSeparateNamespaces(hash: Tiger192, l: Layout, ns1: Option<nat>, ns2: Option<nat>,
                               prefix1: string, prefix2: string, key1: string, key2: string,
                               tags1: seq<string>, tags2: seq<string>, vs1: seq<nat>, vs2: seq<nat>)
    requires ns1 != ns2
    ensures KeyAt(hash, l, ns1, prefix1, key1, tags1, vs1) != KeyAt(hash, l, ns2, prefix2, key2, tags2, vs2)
  {
    ColonKeySeparatesNamespaces(l.head, ns1, ns2,
      Base64Url(hash(PreHashOf(prefix1, key1, tags1, vs1))), Base64Url(hash(PreHashOf(prefix2, key2, tags2, vs2))));
  }

  /** With prefix, key and tags fixed, different version vectors give different digest inputs. */
  lemma PreHashSeparatesVersionVectors(prefix: string, key: string, tags: seq<string>, a: seq<nat>, b: seq<nat>)
    requires |a| == |b| && a != b
    ensures PreHashOf(prefix, key, tags, a) != PreHashOf(prefix, key, tags, b)
  {
    if VersionsText(a) == VersionsText(b) {
      VersionsTextInjective(a, b);
    }
    PreHashSeparatesVersions(prefix + "_key_" + key, TagsText(tags), VersionsText(a), VersionsText(b));
  }

  /**
   * Once `genkey` has materialised the tags, bumping one of them changes the
   * digest input of the next `genkey` over those tags.
   */
  lemma BumpAfterGenKeyChangesPreHash(db: Db, l: Layout, prefix: string, key: string, tags: seq<string>, t: string, now: nat)
    requires l.WellFormed()
    requires t in tags
    ensures var s := TouchedAll(db, l, Sort(tags), now);
      PreHashOf(prefix, key, Sort(tags), VersionsOf(FieldBumped(s, l.tagsKey, t, now), l, Sort(tags), now))
      != PreHashOf(prefix, key, Sort(tags), VersionsOf(s, l, Sort(tags), now))
  {
    var sorted := Sort(tags);
    var s := TouchedAll(db, l, sorted, now);
    var s' := FieldBumped(s, l.tagsKey, t, now);
    SortKeepsMembers(tags, t);
    GenKeySettles(db, l, sorted, now);
    BumpKeepsSettled(s, l, sorted, t, now);
    TouchedAllSettled(s, l, sorted, now);
    TouchedAllSettled(s', l, sorted, now);
    var i :| 0 <= i < |sorted| && sorted[i] == t;
    assert FieldAt(s', l.tagsKey, t, now) == Some(FieldAt(s, l.tagsKey, t, now).value + 1);
    PreHashSeparatesVersionVectors(prefix, key, sorted, VersionsOf(s', l, sorted, now), VersionsOf(s, l, sorted, now));
  }

  /** HINCRBY keeps a settled store settled. */
  lemma BumpKeepsSettled(db: Db, l: Layout, tags: seq<string>, t: string, now: nat)
    requires l.WellFormed()
    requires Settled(db, l, tags, now)
    ensures Settled(FieldBumped(db, l.tagsKey, t, now), l, tags, now)
  {
    var r := FieldBumped(db, l.tagsKey, t, now);
    forall u | u in tags
      ensures Truthy(FieldAt(r, l.tagsKey, u, now)) && FieldAt(r, l.timeKey, u, now) == Some(now)
    {
      assert FieldAt(r, l.timeKey, u, now) == FieldAt(db, l.timeKey, u, now);
    }
  }

  // ------------------------------------------------------------- clean

  /** The store effect of the matching modes' loop: HINCRBY per listed tag, in order. */
  function BumpedAll(db: Db, l: Layout, tags: seq<string>, now: nat): Db
    decreases |tags|
  {
    if tags == [] then db else FieldBumped(BumpedAll(db, l, tags[..|tags| - 1], now), l.tagsKey, tags[|tags| - 1], now)
  }

  /** The store after a connected `clean($mode, $tags)`; these classes know no `clear` mode. */
  function Cleaned(db: Db, l: Layout, mode: string, tags: seq<string>, now: nat): (r: Db)
    ensures mode != CleaningModeAll && !IsMatchingMode(mode) ==> r == db
    ensures IsMatchingMode(mode) && tags == [] ==> r == db
  {
    if mode == CleaningModeAll then Bumped(db, l.namespaceKey, now)
    else if IsMatchingMode(mode) then BumpedAll(db, l, tags, now)
    else db
  }

  function CleanedNamespace(ns: Option<nat>, l: Layout, db': Db, mode: string, now: nat): Option<nat> {
    if mode == CleaningModeAll then NumAt(db', l.namespaceKey, now) else ns
  }

  /** The matching modes raise each version by the number of times its tag is listed, and touch nothing else. */
  lemma {:induction false} BumpedAllRaises(db: Db, l: Layout, tags: seq<string>, now: nat, t: string)
    ensures FieldAt(BumpedAll(db, l, tags, now), l.tagsKey, t, now) == Raised(FieldAt(db, l.tagsKey, t, now), multiset(tags)[t])
    ensures AgreeExcept(db, BumpedAll(db, l, tags, now), {l.tagsKey})
    decreases |tags|
  {
    if tags != [] {
      var n := |tags| - 1;
      BumpedAllRaises(db, l, tags[..n], now, t);
      assert tags == tags[..n] + [tags[n]];
      assert multiset(tags) == multiset(tags[..n]) + multiset{tags[n]};
      if tags[n] == t {
        RaisedStep(FieldAt(db, l.tagsKey, t, now), multiset(tags[..n])[t]);
      }
    }
  }

  /** `clean('all')` raises the stored epoch and the field takes the new, strictly larger value. */
  lemma CleanAllRaisesNamespace(db: Db, l: Layout, ns: Option<nat>, tags: seq<string>, now: nat)
    ensures var r := Cleaned(db, l, CleaningModeAll, tags, now);
      var ns' := CleanedNamespace(ns, l, r, CleaningModeAll, now);
      ns'.Some? && ns' == NumAt(r, l.namespaceKey, now) &&
      (NumAt(db, l.namespaceKey, now).Some? ==> ns'.value > NumAt(db, l.namespaceKey, now).value) &&
      AgreeExcept(db, r, {l.namespaceKey})
  {
  }

  // --------------------------------------------------------- cleanTags

  /** The tags whose last use lies more than a day before `now`. */
  function StaleTags(times: map<string, nat>, now: nat): set<string> {
    set t | t in times && now - times[t] > MaxAge
  }

  /** The store after a connected `cleanTags()`. */
  function Swept(db: Db, l: Layout, now: nat): Db {
    if Present(db, l.refreshKey, now) then db
    else
      var marked := Put(db, l.refreshKey, Num(1), After(now, RefreshTtl));
      var stale := StaleTags(FieldsAt(marked, l.timeKey, now), now);
      Dropped(marked, l, stale, now)
  }

  /**
   * A sweep that runs sets the marker for 7200 seconds, deletes from both
   * hashes exactly the tags stamped more than a day ago, and changes no
   * other key.
   */
  lemma SweepExact(db: Db, l: Layout, now: nat)
    requires l.WellFormed()
    requires !Present(db, l.refreshKey, now)
    ensures var r := Swept(db, l, now);
      var stale := StaleTags(FieldsAt(db, l.timeKey, now), now);
      l.refreshKey in r && r[l.refreshKey] == Entry(Num(1), After(now, RefreshTtl)) &&
      FieldsAt(r, l.timeKey, now) == FieldsAt(db, l.timeKey, now) - stale &&
      FieldsAt(r, l.tagsKey, now) == FieldsAt(db, l.tagsKey, now) - stale &&
      AgreeExcept(db, r, {l.refreshKey, l.timeKey, l.tagsKey})
  {
  }

  /** After a sweep that ran, no tag in the time hash is stale. */
  lemma SweepLeavesNoStale(db: Db, l: Layout, now: nat)
    requires l.WellFormed()
    requires !Present(db, l.refreshKey, now)
    ensures StaleTags(FieldsAt(Swept(db, l, now), l.timeKey, now), now) == {}
  {
    SweepExact(db, l, now);
  }

  /** The sweep is rate-limited: a second call within 7200 seconds of one that ran changes nothing. */
  lemma SecondSweepIsNoOp(db: Db, l: Layout, now: nat, later: nat)
    requires l.WellFormed()
    requires !Present(db, l.refreshKey, now)
    requires now <= later < now + RefreshTtl
    ensures Swept(Swept(db, l, now), l, later) == Swept(db, l, now)
  {
    SweepExact(db, l, now);
  }

  /**
   * The sweep can undo an invalidation: HINCRBY does not stamp the time
   * hash, so a tag first read at `now`, bumped to 2 by `clean` and not read
   * again for more than a day is forgotten, and its next version is 1, the
   * one its fingerprints carried before the `clean`.
   */
  lemma SweepForgetsInvalidation(db: Db, l: Layout, t: string, now: nat, c: nat, later: nat)
    requires l.WellFormed()
    requires l.tagsKey !in db && l.timeKey !in db && l.refreshKey !in db
    requires now <= c && later > now + MaxAge
    ensures var s := TouchedAll(db, l, [t], now);
      var s' := Cleaned(s, l, CleaningModeMatchingTag, [t], c);
      VersionsOf(s, l, [t], now) == [1] && VersionsOf(s', l, [t], c) == [2] &&
      VersionsOf(Swept(s', l, later), l, [t], later) == [1]
  {
    var s := TouchedAll(db, l, [t], now);
    var s' := Cleaned(s, l, CleaningModeMatchingTag, [t], c);
    ReadThenBumped(db, l, t, now, c);
    OneTagVersions(s, l, t, now);
    OneTagVersions(s', l, t, c);
    var r := Swept(s', l, later);
    OneTagVersions(r, l, t, later);
    assert !Present(s', l.refreshKey, later);
    assert FieldsAt(s', l.timeKey, later) == map[t := now];
    SweepExact(s', l, later);
    assert t in StaleTags(FieldsAt(s', l.timeKey, later), later);
    assert FieldAt(r, l.tagsKey, t, later).None?;
  }

  /** A fresh registry after one read and one matching `clean` of a tag: both hashes hold just that tag. */
  lemma ReadThenBumped(db: Db, l: Layout, t: string, now: nat, c: nat)
    requires l.WellFormed()
    requires l.tagsKey !in db && l.timeKey !in db
    ensures var s := TouchedAll(db, l, [t], now);
      var s' := Cleaned(s, l, CleaningModeMatchingTag, [t], c);
      l.tagsKey in s && s[l.tagsKey] == Entry(Table(map[t := 1]), None) &&
      l.tagsKey in s' && s'[l.tagsKey] == Entry(Table(map[t := 2]), None) &&
      l.timeKey in s' && s'[l.timeKey] == Entry(Table(map[t := now]), None) &&
      (l.refreshKey in s' <==> l.refreshKey in db)
  {
    assert [t][..0] == [];
    assert TouchedAll(db, l, [t][..0], now) == db;
    var s := TouchedAll(db, l, [t], now);
    assert s == Touched(db, l, t, now);
    var stamped := db[l.timeKey := Entry(Table(map[t := now]), None)];
    assert WithField(db, l.timeKey, t, now, now) == stamped;
    assert s == stamped[l.tagsKey := Entry(Table(map[t := 1]), None)];
    assert CleaningModeMatchingTag != CleaningModeAll && IsMatchingMode(CleaningModeMatchingTag);
    assert BumpedAll(s, l, [t][..0], c) == s;
    var s' := Cleaned(s, l, CleaningModeMatchingTag, [t], c);
    assert s' == FieldBumped(s, l.tagsKey, t, c);
    assert FieldAt(s, l.tagsKey, t, c) == Some(1);
    assert map[t := 1][t := 2] == map[t := 2];
    assert s' == stamped[l.tagsKey := Entry(Table(map[t := 2]), None)];
  }

  /** `genkey` over one tag hashes `getTagValue`'s answer, which is the truthy version field or 1. */
  lemma OneTagVersions(db: Db, l: Layout, t: string, now: nat)
    requires l.WellFormed()
    ensures VersionsOf(db, l, [t], now) == [if Truthy(FieldAt(db, l.tagsKey, t, now)) then FieldAt(db, l.tagsKey, t, now).value else 1]
  {
    assert [t][..0] == [];
    assert TouchedAll(db, l, [t][..0], now) == db;
    VersionReads(db, l, t, now);
  }

  /** Deleting a field of one hash commutes with deleting fields of another. */
  lemma DropsCommute(db: Db, k: string, f: string, k': string, fs: set<string>, now: nat)
    requires k != k'
    ensures WithoutField(WithoutFields(db, k', fs, now), k, f, now) == WithoutFields(WithoutField(db, k, f, now), k', fs, now)
  {
  }

  /** The store part-way through the sweep: the tags in `done` are gone from both hashes. */
  function Dropped(db: Db, l: Layout, done: set<string>, now: nat): Db {
    WithoutFields(WithoutFields(db, l.timeKey, done, now), l.tagsKey, done, now)
  }

  /** One stale tag of the `cleanTags` loop: HDEL from the time hash, then from the version hash. */
  lemma SweepStep(db: Db, l: Layout, done: set<string>, t: string, now: nat)
    requires l.timeKey != l.tagsKey
    ensures WithoutField(WithoutField(Dropped(db, l, done, now), l.timeKey, t, now), l.tagsKey, t, now)
         == Dropped(db, l, done + {t}, now)
  {
    var a := WithoutFields(db, l.timeKey, done, now);
    DropsCommute(a, l.timeKey, t, l.tagsKey, done, now);
    WithoutFieldsStep(db, l.timeKey, done, t, now);
    WithoutFieldsStep(WithoutFields(db, l.timeKey, done + {t}, now), l.tagsKey, done, t, now);
  }

  /** The sweep loop starts from the unchanged store. */
  lemma DroppedNothing(db: Db, l: Layout, now: nat)
    ensures Dropped(db, l, {}, now) == db
  {
  }

  /** One turn of the sweep loop over a stale tag keeps the loop's account of what is gone. */
  lemma ForgetStep(db: Db, l: Layout, stale: set<string>, pending: set<string>, done: set<string>, t: string, now: nat, e: Db)
    requires l.timeKey != l.tagsKey
    requires done == stale - pending && t in pending && t in stale
    requires e == WithoutField(WithoutField(Dropped(db, l, done, now), l.timeKey, t, now), l.tagsKey, t, now)
    ensures done + {t} == stale - (pending - {t})
    ensures e == Dropped(db, l, done + {t}, now)
  {
    SweepStep(db, l, done, t, now);
  }

  // ------------------------------------------------- constructor, save/load

  /** The store after a connected `save`: the `genkey` effect, then SETEX when the timeout is positive. */
  function SavedStore(hash: Tiger192, l: Layout, ns: Option<nat>, prefix: string,
                      key: string, tags: seq<string>, data: seq<byte>, ttl: int, db: Db, now: nat): Db {
    var s := TouchedAll(db, l, Sort(tags), now);
    if ttl > 0 then Put(s, GenKeyOf(hash, l, ns, prefix, key, tags, db, now), Blob(data), After(now, ttl)) else s
  }

  function LoadedValue(hash: Tiger192, l: Layout, ns: Option<nat>, prefix: string,
                       key: string, tags: seq<string>, db: Db, now: nat): Option<seq<byte>> {
    BlobAt(TouchedAll(db, l, Sort(tags), now), GenKeyOf(hash, l, ns, prefix, key, tags, db, now), now)
  }

  /**
   * A write to a key outside the registry right after `genkey` leaves the
   * next `genkey` of the same tags writing nothing and hashing the same versions.
   */
  lemma GenKeyStable(db: Db, l: Layout, tags: seq<string>, now: nat, k: string, e: Entry)
    requires l.WellFormed()
    requires k != l.tagsKey && k != l.timeKey
    ensures var s := TouchedAll(db, l, tags, now)[k := e];
      TouchedAll(s, l, tags, now) == s && VersionsOf(s, l, tags, now) == VersionsOf(db, l, tags, now)
  {
    var s := TouchedAll(db, l, tags, now);
    var s' := s[k := e];
    GenKeySettles(db, l, tags, now);
    SettledUnderPut(s, l, tags, now, k, e);
    TouchedAllSettled(s', l, tags, now);
    VersionsAreStored(db, l, tags, now);
    var vs := VersionsOf(db, l, tags, now);
    var vs' := VersionsOf(s', l, tags, now);
    forall i | 0 <= i < |tags|
      ensures vs'[i] == vs[i]
    {
      assert FieldAt(s', l.tagsKey, tags[i], now) == FieldAt(s, l.tagsKey, tags[i], now);
    }
  }

  /** No fingerprint is one of the registry's own keys. */
  lemma FingerprintOutsideRegistry(hash: Tiger192, l: Layout, ns: Option<nat>, prefix: string,
                                   key: string, tags: seq<string>, db: Db, now: nat)
    requires l.WellFormed()
    ensures var k := GenKeyOf(hash, l, ns, prefix, key, tags, db, now);
      k != l.namespaceKey && k != l.refreshKey && k != l.tagsKey && k != l.timeKey
  {
    var sorted := Sort(tags);
    var k := GenKeyOf(hash, l, ns, prefix, key, tags, db, now);
    assert k == ColonKey(l.head, ns, Base64Url(hash(PreHashOf(prefix, key, sorted, VersionsOf(db, l, sorted, now)))));
  }

  /** What is saved under a key and tags is what a load of them answers at the same instant. */
  lemma SaveThenLoad(hash: Tiger192, l: Layout, ns: Option<nat>, prefix: string,
                     key: string, tags: seq<string>, data: seq<byte>, ttl: int, db: Db, now: nat)
    requires l.WellFormed()
    requires ttl > 0
    ensures LoadedValue(hash, l, ns, prefix, key, tags, SavedStore(hash, l, ns, prefix, key, tags, data, ttl, db, now), now) == Some(data)
  {
    var sorted := Sort(tags);
    var k := GenKeyOf(hash, l, ns, prefix, key, tags, db, now);
    FingerprintOutsideRegistry(hash, l, ns, prefix, key, tags, db, now);
    var e := Entry(Blob(data), After(now, ttl));
    var saved := TouchedAll(db, l, sorted, now)[k := e];
    GenKeyStable(db, l, sorted, now, k, e);
    SavedStoreIs(hash, l, ns, prefix, key, tags, data, ttl, db, now);
    GenKeyFollowsVersions(hash, l, ns, prefix, key, tags, saved, db, now);
    assert LoadedValue(hash, l, ns, prefix, key, tags, saved, now) == BlobAt(saved, k, now);
    BlobAtPut(TouchedAll(db, l, sorted, now), k, data, After(now, ttl), now);
  }

  lemma SavedStoreIs(hash: Tiger192, l: Layout, ns: Option<nat>, prefix: string,
                     key: string, tags: seq<string>, data: seq<byte>, ttl: int, db: Db, now: nat)
    requires ttl > 0
    ensures SavedStore(hash, l, ns, prefix, key, tags, data, ttl, db, now)
         == TouchedAll(db, l, Sort(tags), now)[GenKeyOf(hash, l, ns, prefix, key, tags, db, now) := Entry(Blob(data), After(now, ttl))]
  {
  }

  /** `genkey` reads the store only through the versions of the listed tags. */
  lemma GenKeyFollowsVersions(hash: Tiger192, l: Layout, ns: Option<nat>, prefix: string,
                              key: string, tags: seq<string>, db: Db, db': Db, now: nat)
    requires VersionsOf(db, l, Sort(tags), now) == VersionsOf(db', l, Sort(tags), now)
    ensures GenKeyOf(hash, l, ns, prefix, key, tags, db, now) == GenKeyOf(hash, l, ns, prefix, key, tags, db', now)
  {
  }

  /**
   * A save writes the payload under its fingerprint and nothing else beyond
   * `genkey`'s bookkeeping: the epoch, the sweep marker and both registry
   * hashes are as `genkey` left them.
   */
  lemma SaveKeepsBookkeeping(hash: Tiger192, l: Layout, ns: Option<nat>, prefix: string,
                             key: string, tags: seq<string>, data: seq<byte>, ttl: int, db: Db, now: nat)
    requires l.WellFormed()
    ensures var s := TouchedAll(db, l, Sort(tags), now);
      var r := SavedStore(hash, l, ns, prefix, key, tags, data, ttl, db, now);
      AgreeExcept(s, r, {GenKeyOf(hash, l, ns, prefix, key, tags, db, now)}) &&
      NumAt(r, l.namespaceKey, now) == NumAt(s, l.namespaceKey, now) &&
      Present(r, l.refreshKey, now) == Present(s, l.refreshKey, now) &&
      FieldsAt(r, l.tagsKey, now) == FieldsAt(s, l.tagsKey, now) &&
      FieldsAt(r, l.timeKey, now) == FieldsAt(s, l.timeKey, now)
  {
    var sorted := Sort(tags);
    var s := TouchedAll(db, l, sorted, now);
    var k := GenKeyOf(hash, l, ns, prefix, key, tags, db, now);
    FingerprintOutsideRegistry(hash, l, ns, prefix, key, tags, db, now);
    if ttl > 0 {
      var e := Entry(Blob(data), After(now, ttl));
      assert SavedStore(hash, l, ns, prefix, key, tags, data, ttl, db, now) == s[k := e];
      PutElsewhere(s, l, k, e, now);
    }
  }

  /** A write to a key that is none of the registry's own leaves the registry's view of the store alone. */
  lemma PutElsewhere(s: Db, l: Layout, k: string, e: Entry, now: nat)
    requires k != l.namespaceKey && k != l.refreshKey && k != l.tagsKey && k != l.timeKey
    ensures AgreeExcept(s, s[k := e], {k})
    ensures NumAt(s[k := e], l.namespaceKey, now) == NumAt(s, l.namespaceKey, now)
    ensures Present(s[k := e], l.refreshKey, now) == Present(s, l.refreshKey, now)
    ensures FieldsAt(s[k := e], l.tagsKey, now) == FieldsAt(s, l.tagsKey, now)
    ensures FieldsAt(s[k := e], l.timeKey, now) == FieldsAt(s, l.timeKey, now)
  {
  }

  /** The namespace a connected constructor settles on: the stored epoch if truthy, else the random draw. */
  function InitialNamespace(db: Db, l: Layout, draw: nat, now: nat): Option<nat> {
    if IsSet(db, l.namespaceKey, now) then NumAt(db, l.namespaceKey, now) else Some(draw)
  }

  /** The store after a connected constructor: the epoch stored when needed, then one sweep. */
  function InitialStore(db: Db, l: Layout, draw: nat, now: nat): Db {
    Swept(if IsSet(db, l.namespaceKey, now) then db else Put(db, l.namespaceKey, Num(draw), None), l, now)
  }

  /** After construction the field and the store agree on a truthy epoch. */
  lemma InitialNamespaceStored(db: Db, l: Layout, draw: nat, now: nat)
    requires l.WellFormed()
    requires 1 <= draw <= 10000
    ensures Truthy(InitialNamespace(db, l, draw, now))
    ensures NumAt(InitialStore(db, l, draw, now), l.namespaceKey, now) == InitialNamespace(db, l, draw, now)
    ensures !IsSet(db, l.namespaceKey, now) ==> 1 <= InitialNamespace(db, l, draw, now).value <= 10000
  {
    var stored := if IsSet(db, l.namespaceKey, now) then db else Put(db, l.namespaceKey, Num(draw), None);
    if !Present(stored, l.refreshKey, now) {
      SweepExact(stored, l, now);
    }
  }

  // ------------------------------------------------------------- class

  /** One `TaggedRedisCache` or `RKeyCache` instance; `layout` says which. */
  class RegistryCache {
    const store: Store
    const layout: Layout
    const connected: bool
    const hash: Tiger192
    var namespace: Option<nat>
    var prefix: string

    /** Reads the epoch, stores a random one in 1..10000 when it is missing or falsy, then sweeps. */
    constructor (store: Store, layout: Layout, connected: bool, hash: Tiger192, now: nat)
      requires layout.WellFormed()
      modifies store
      ensures this.store == store && this.layout == layout && this.connected == connected && this.hash == hash
      ensures prefix == ""
      ensures !connected ==> namespace == None && store.entries == old(store.entries)
      ensures connected ==> (namespace.Some? &&
        namespace == InitialNamespace(old(store.entries), layout, namespace.value, now) &&
        store.entries == InitialStore(old(store.entries), layout, namespace.value, now))
      ensures connected && !IsSet(old(store.entries), layout.namespaceKey, now) ==> 1 <= namespace.value <= 10000
    {
      this.store := store;
      this.layout := layout;
      this.connected := connected;
      this.hash := hash;
      prefix := "";
      namespace := None;
      new;
      if connected {
        var ns := store.Get(layout.namespaceKey, now);
        if !Truthy(ns) {
          var draw :| 1 <= draw <= 10000;
          ns := Some(draw);
          store.Set(layout.namespaceKey, Num(draw), None);
        }
        namespace := ns;
        CleanTags(now);
      }
    }

    /** `setPrefix($prefix)`. */
    method SetPrefix(p: string)
      modifies this
      ensures prefix == p && namespace == old(namespace)
    {
      prefix := p;
    }

    /** `incrementTag`: HINCRBY of the tag's version. */
    method IncrementTag(tag: string, now: nat) returns (n: nat)
      modifies store
      ensures n == Succ(FieldAt(old(store.entries), layout.tagsKey, tag, now))
      ensures store.entries == FieldBumped(old(store.entries), layout.tagsKey, tag, now)
    {
      n := store.HIncrBy(layout.tagsKey, tag, now);
    }

    /** `getTagValue`: stamp the tag, create its version at 1 when falsy, answer the version. */
    method GetTagValue(tag: string, now: nat) returns (v: nat)
      modifies store
      ensures v == Version(old(store.entries), layout, tag, now)
      ensures store.entries == Touched(old(store.entries), layout, tag, now)
    {
      store.HSet(layout.timeKey, tag, now, now);
      var stored := store.HGet(layout.tagsKey, tag, now);
      if Truthy(stored) {
        v := stored.value;
      } else {
        store.HSet(layout.tagsKey, tag, 1, now);
        v := 1;
      }
    }

    /** `genkey`: no connection check of its own; its callers check. */
    method GenKey(key: string, tags: seq<string>, now: nat) returns (k: string)
      modifies store
      ensures store.entries == TouchedAll(old(store.entries), layout, Sort(tags), now)
      ensures k == GenKeyOf(hash, layout, namespace, prefix, key, tags, old(store.entries), now)
    {
      var sorted := Sort(tags);
      var tagsStr := "_";
      var tagsVal := "0";
      ghost var vs: seq<nat> := [];
      var i := 0;
      while i < |sorted|
        invariant 0 <= i <= |sorted|
        invariant store.entries == TouchedAll(old(store.entries), layout, sorted[..i], now)
        invariant vs == VersionsOf(old(store.entries), layout, sorted[..i], now)
        invariant tagsStr == TagsText(sorted[..i])
        invariant tagsVal == VersionsText(vs)
      {
        var tag := sorted[i];
        tagsStr := tagsStr + "_" + tag;
        var v := GetTagValue(tag, now);
        tagsVal := tagsVal + "_" + Decimal(v);
        GenKeyStep(old(store.entries), layout, sorted, i, now);
        vs := vs + [v];
        i := i + 1;
      }
      assert sorted[..i] == sorted;
      var hashThis := prefix + "_key_" + key + "_" + tagsStr + "_" + tagsVal;
      k := layout.head + NamespaceText(namespace) + ":" + Base64Url(hash(hashThis));
    }

    /** `clean($mode, $tags)`. */
    method Clean(mode: string, tags: seq<string>, now: nat)
      modifies this, store
      ensures prefix == old(prefix)
      ensures !connected ==> store.entries == old(store.entries) && namespace == old(namespace)
      ensures connected ==> store.entries == Cleaned(old(store.entries), layout, mode, tags, now)
      ensures connected ==> namespace == CleanedNamespace(old(namespace), layout, store.entries, mode, now)
    {
      if !connected {
        return;
      }
      if mode == CleaningModeAll {
        var n := store.Incr(layout.namespaceKey, now);
        namespace := store.Get(layout.namespaceKey, now);
      } else if IsMatchingMode(mode) {
        if |tags| > 0 {
          var i := 0;
          while i < |tags|
            invariant 0 <= i <= |tags|
            invariant store.entries == BumpedAll(old(store.entries), layout, tags[..i], now)
            invariant namespace == old(namespace) && prefix == old(prefix)
          {
            var n := IncrementTag(tags[i], now);
            assert tags[..i + 1][..i] == tags[..i];
            i := i + 1;
          }
          assert tags[..i] == tags;
        }
      }
    }

    /** `cleanTags()`: at most once per marker lifetime, forget the tags unused for a day. */
    method CleanTags(now: nat)
      requires layout.WellFormed()
      modifies store
      ensures !connected ==> store.entries == old(store.entries)
      ensures connected ==> store.entries == Swept(old(store.entries), layout, now)
    {
      if !connected {
        return;
      }
      var marker := store.Exists(layout.refreshKey, now);
      if marker {
        return;
      }
      store.Set(layout.refreshKey, Num(1), After(now, RefreshTtl));
      var times := store.HGetAll(layout.timeKey, now);
      ForgetStale(times, now);
    }

    /** `cleanTags`' loop: HDEL from both hashes every tag of `times` stamped more than a day before `now`. */
    method ForgetStale(times: map<string, nat>, now: nat)
      requires layout.timeKey != layout.tagsKey
      modifies store
      ensures store.entries == Dropped(old(store.entries), layout, StaleTags(times, now), now)
    {
      ghost var stale := StaleTags(times, now);
      ghost var start := store.entries;
      var pending := times.Keys;
      ghost var done: set<string> := {};
      DroppedNothing(start, layout, now);
      while pending != {}
        invariant pending <= times.Keys
        invariant done == stale - pending
        invariant store.entries == Dropped(start, layout, done, now)
        decreases |pending|
      {
        var t :| t in pending;
        var age := now - times[t];
        if age > MaxAge {
          assert t in stale;
          ForgetTag(t, now);
          ForgetStep(start, layout, stale, pending, done, t, now, store.entries);
          done := done + {t};
        } else {
          assert t !in stale;
        }
        pending := pending - {t};
      }
      assert done == stale;
    }

    /** Forget one tag: HDEL from the time hash, then from the version hash. */
    method ForgetTag(t: string, now: nat)
      modifies store
      ensures store.entries == WithoutField(WithoutField(old(store.entries), layout.timeKey, t, now), layout.tagsKey, t, now)
    {
      store.HDel(layout.timeKey, t, now);
      store.HDel(layout.tagsKey, t, now);
    }

    /** `save`: SETEX under the fingerprint; false for a non-positive timeout or no connection. */
    method Save(data: seq<byte>, key: string, tags: seq<string>, ttl: int, now: nat) returns (ok: bool)
      modifies store
      ensures !connected ==> !ok && store.entries == old(store.entries)
      ensures connected ==> ok == (ttl > 0)
      ensures connected ==> store.entries == SavedStore(hash, layout, namespace, prefix, key, tags, data, ttl, old(store.entries), now)
    {
      if !connected {
        return false;
      }
      var k := GenKey(key, tags, now);
      if ttl > 0 {
        store.Set(k, Blob(data), After(now, ttl));
        ok := true;
      } else {
        ok := false;
      }
    }

    /** `load`: the payload under the fingerprint, if any. */
    method Load(key: string, tags: seq<string>, now: nat) returns (data: Option<seq<byte>>)
      modifies store
      ensures !connected ==> data == None && store.entries == old(store.entries)
      ensures connected ==> store.entries == TouchedAll(old(store.entries), layout, Sort(tags), now)
      ensures connected ==> data == LoadedValue(hash, layout, namespace, prefix, key, tags, old(store.entries), now)
    {
      if !connected {
        return None;
      }
      var k := GenKey(key, tags, now);
      data := store.GetBlob(k, now);
    }
  }
}
