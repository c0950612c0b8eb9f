/**
 * `TaggedCache\Redis` (src/Redis.php): tag versions are plain Redis counters
 * `RKC:TAGS:<sanitised tag>` read with one MGET, the namespace epoch is the
 * counter `RKC:NAMESPACE`, fingerprints are `RKC:<ns>:<hex tiger192 digest>`,
 * and tags listed in `delayedKeys` get a debounced bump: `clean` arms a
 * 200-second marker `RKC:D:<tag>`, and while it is armed the first `genKey`
 * that finds no 49-second window marker `RKC:T:<tag>` opens one and bumps.
 */
module SrcRedis {
  import opened Basics
  import opened Text
  import opened Ordering
  import opened Encoding
  import opened KvStore
  import opened Fingerprint

  const NamespaceKey: string := "RKC:NAMESPACE"
  /** `$delayedKeysTtl`: how long `clean` keeps a delayed tag armed. */
  const DelayedTtl: nat := 200
  /** How long the window marker set by a debounced bump lasts. */
  const WindowTtl: nat := 49

  // ------------------------------------------------------ prepareString

  /** `\w` in the C locale. */
  predicate IsWordChar(c: char) {
    'a' <= c <= 'z' || 'A' <= c <= 'Z' || '0' <= c <= '9' || c == '_'
  }

  predicate AllWord(s: string) {
    forall i :: 0 <= i < |s| ==> IsWordChar(s[i])
  }

  /** `preg_replace('/\W/', '', $s)`: keeps the word characters, in order. */
  function PrepareString(s: string): (r: string)
    ensures AllWord(r)
    ensures |r| <= |s|
  {
    if s == [] then [] else (if IsWordChar(s[0]) then [s[0]] else []) + PrepareString(s[1..])
  }

  /** A string made of word characters only is left as it is. */
  lemma {:induction false} PrepareStringKeepsWords(s: string)
    requires AllWord(s)
    ensures PrepareString(s) == s
  {
    if s != [] {
      PrepareStringKeepsWords(s[1..]);
      assert s == [s[0]] + s[1..];
    }
  }

  lemma PrepareStringIdempotent(s: string)
    ensures PrepareString(PrepareString(s)) == PrepareString(s)
  {
    PrepareStringKeepsWords(PrepareString(s));
  }

  lemma {:induction false} PrepareStringConcat(a: string, b: string)
    ensures PrepareString(a + b) == PrepareString(a) + PrepareString(b)
  {
    if a != [] {
      assert (a + b)[1..] == a[1..] + b;
      PrepareStringConcat(a[1..], b);
    } else {
      assert a + b == b;
    }
  }

  /**
   * Tags that differ only by a non-word character are one tag to the
   * version counters.
   */
  lemma NonWordCharsShareCounter(a: string, c: char, b: string)
    requires !IsWordChar(c)
    ensures PrepareString(a + [c] + b) == PrepareString(a + b)
    ensures TagKey(a + [c] + b) == TagKey(a + b)
  {
    PrepareStringConcat(a + [c], b);
    PrepareStringConcat(a, [c]);
    PrepareStringConcat(a, b);
    assert PrepareString([c]) == [];
  }

  // --------------------------------------------------------------- keys

  /** The version counter of a sanitised tag name. */
  function CounterKey(name: string): (k: string)
    ensures |k| >= 9 && k[4] == 'T' && k[5] == 'A' && k[9..] == name
  {
    "RKC:TAGS:" + name
  }

  function TagKey(tag: string): string {
    CounterKey(PrepareString(tag))
  }

  /** The marker `clean` sets on a delayed tag. */
  function ArmedKey(tag: string): (k: string)
    ensures |k| >= 6 && k[4] == 'D' && k[6..] == tag
  {
    "RKC:D:" + tag
  }

  /** The marker a debounced bump sets. */
  function WindowKey(tag: string): (k: string)
    ensures |k| >= 6 && k[4] == 'T' && k[5] == ':' && k[6..] == tag
  {
    "RKC:T:" + tag
  }

  /** A key no bookkeeping key can be: a digit or ':' after `RKC:`. */
  predicate OutsideMeta(k: string) {
    |k| >= 5 && (IsDigit(k[4]) || k[4] == ':')
  }

  /** `'RKC:' . $namespace . ':' . $digest`. */
  function PayloadKey(ns: Option<nat>, digest: string): (k: string)
    ensures OutsideMeta(k)
  {
    var k := ColonKey("RKC:", ns, digest);
    assert k[4] == (NamespaceText(ns) + ":" + digest)[0];
    k
  }

  // ------------------------------------------------------------- genKey

  /** `$tag_mget`: the counter key of each tag, in order. */
  function CounterKeys(tags: seq<string>): (ks: seq<string>)
    ensures |ks| == |tags|
    ensures forall i :: 0 <= i < |tags| ==> ks[i] == TagKey(tags[i])
  {
    if tags == [] then [] else CounterKeys(tags[..|tags| - 1]) + [TagKey(tags[|tags| - 1])]
  }

  /** The MGET reply for the tags. */
  function Versions(db: Db, tags: seq<string>, now: nat): seq<Option<nat>> {
    NumsAt(db, CounterKeys(tags), now)
  }

  /** `$tags_val`: 0 without tags, else the imploded MGET reply. */
  function ReplyText(vs: seq<Option<nat>>): string {
    if vs == [] then "0" else Implode(Segments(vs))
  }

  /** `$hash_this`. */
  function PreHashOf(prefix: string, key: string, tags: seq<string>, vs: seq<Option<nat>>): string {
    PreHash(prefix + "_keys_" + key, TagsText(tags), ReplyText(vs))
  }

  /** The fingerprint of `key` under the sorted `tags`, reading versions from `db`. */
  function KeyAt(hash: Tiger192, ns: Option<nat>, prefix: string, key: string, tags: seq<string>, db: Db, now: nat): string {
    PayloadKey(ns, Hex(hash(PreHashOf(prefix, key, tags, Versions(db, tags, now)))))
  }

  /** A delayed tag whose debounced bump is due: armed, and no window open. */
  predicate Fires(db: Db, delayed: seq<string>, tag: string, now: nat) {
    tag in delayed && IsSet(db, ArmedKey(tag), now) && !IsSet(db, WindowKey(tag), now)
  }

  /** One iteration of the `genKey` loop's store effect. */
  function Debounced(db: Db, delayed: seq<string>, tag: string, now: nat): Db {
    if Fires(db, delayed, tag, now)
    then Bumped(Put(db, WindowKey(tag), Num(1), After(now, WindowTtl)), TagKey(tag), now)
    else db
  }

  /** The store effect of the whole `genKey` loop over `tags`. */
  function DebouncedAll(db: Db, delayed: seq<string>, tags: seq<string>, now: nat): (r: Db)
    ensures delayed == [] ==> r == db
    decreases |tags|
  {
    if tags == [] then db
    else Debounced(DebouncedAll(db, delayed, tags[..|tags| - 1], now), delayed, tags[|tags| - 1], now)
  }

  /** The keys a `genKey` loop may write: counter and window of each listed delayed tag. */
  function DebounceKeys(delayed: seq<string>, tags: seq<string>): set<string> {
    (set t | t in tags && t in delayed :: TagKey(t)) + (set t | t in tags && t in delayed :: WindowKey(t))
  }

  /** The delayed tags of `tags` whose bump is due in `db` and whose counter is `name`'s. */
  function Firing(db: Db, delayed: seq<string>, tags: seq<string>, now: nat, name: string): set<string> {
    set t | t in tags && Fires(db, delayed, t, now) && PrepareString(t) == name
  }

  /** One more tag in the `genKey` loop. */
  lemma GenKeyStep(db: Db, delayed: seq<string>, tags: seq<string>, i: nat, now: nat)
    requires i < |tags|
    ensures DebouncedAll(db, delayed, tags[..i + 1], now) == Debounced(DebouncedAll(db, delayed, tags[..i], now), delayed, tags[i], now)
    ensures TagsText(tags[..i + 1]) == TagsText(tags[..i]) + "_" + tags[i]
    ensures CounterKeys(tags[..i + 1]) == CounterKeys(tags[..i]) + [TagKey(tags[i])]
  {
    assert tags[..i + 1][..i] == tags[..i];
  }

  /** The `genKey` loop writes nothing but counters and windows of listed delayed tags. */
  lemma {:induction false} DebounceFrame(db: Db, delayed: seq<string>, tags: seq<string>, now: nat)
    ensures AgreeExcept(db, DebouncedAll(db, delayed, tags, now), DebounceKeys(delayed, tags))
    decreases |tags|
  {
    if tags != [] {
      var n := |tags| - 1;
      DebounceFrame(db, delayed, tags[..n], now);
      PrefixMembers(tags, n);
      assert DebounceKeys(delayed, tags[..n]) <= DebounceKeys(delayed, tags);
      if Fires(DebouncedAll(db, delayed, tags[..n], now), delayed, tags[n], now) {
        assert TagKey(tags[n]) in DebounceKeys(delayed, tags);
        assert WindowKey(tags[n]) in DebounceKeys(delayed, tags);
      }
    }
  }

  /** The markers of a tag the loop does not visit are left as they were. */
  lemma DebounceKeepsMarkers(db: Db, delayed: seq<string>, tags: seq<string>, now: nat, t: string)
    requires t !in tags
    ensures var r := DebouncedAll(db, delayed, tags, now);
      (ArmedKey(t) in r <==> ArmedKey(t) in db) && (ArmedKey(t) in db ==> r[ArmedKey(t)] == db[ArmedKey(t)]) &&
      (WindowKey(t) in r <==> WindowKey(t) in db) && (WindowKey(t) in db ==> r[WindowKey(t)] == db[WindowKey(t)])
    ensures Fires(DebouncedAll(db, delayed, tags, now), delayed, t, now) == Fires(db, delayed, t, now)
  {
    DebounceFrame(db, delayed, tags, now);
    assert ArmedKey(t) !in DebounceKeys(delayed, tags);
    assert WindowKey(t) !in DebounceKeys(delayed, tags);
  }

  /** After the loop no listed tag is due any more at that instant. */
  lemma {:induction false} DebounceQuiets(db: Db, delayed: seq<string>, tags: seq<string>, now: nat)
    ensures forall t :: t in tags ==> !Fires(DebouncedAll(db, delayed, tags, now), delayed, t, now)
    decreases |tags|
  {
    if tags != [] {
      var n := |tags| - 1;
      var s := DebouncedAll(db, delayed, tags[..n], now);
      var r := Debounced(s, delayed, tags[n], now);
      DebounceQuiets(db, delayed, tags[..n], now);
      forall t | t in tags
        ensures !Fires(r, delayed, t, now)
      {
        if t != tags[n] {
          var i :| 0 <= i < |tags| && tags[i] == t;
          assert t in tags[..n] by { assert tags[..n][i] == t; }
          assert !Fires(s, delayed, t, now);
        }
      }
    }
  }

  /** A loop over tags none of which is due changes nothing. */
  lemma {:induction false} QuietFixes(db: Db, delayed: seq<string>, tags: seq<string>, now: nat)
    requires forall t :: t in tags ==> !Fires(db, delayed, t, now)
    ensures DebouncedAll(db, delayed, tags, now) == db
    decreases |tags|
  {
    if tags != [] {
      var n := |tags| - 1;
      PrefixMembers(tags, n);
      QuietFixes(db, delayed, tags[..n], now);
    }
  }

  /** A second `genKey` over the same tags at the same instant bumps nothing. */
  lemma DebounceIdempotent(db: Db, delayed: seq<string>, tags: seq<string>, now: nat)
    ensures var r := DebouncedAll(db, delayed, tags, now);
      DebouncedAll(r, delayed, tags, now) == r
  {
    DebounceQuiets(db, delayed, tags, now);
    QuietFixes(DebouncedAll(db, delayed, tags, now), delayed, tags, now);
  }

  /** A tag is bumped by the loop when, and only when, it is due when first visited. */
  lemma DebounceStepFires(db: Db, delayed: seq<string>, tags: seq<string>, now: nat)
    requires tags != []
    ensures var n := |tags| - 1;
      Fires(DebouncedAll(db, delayed, tags[..n], now), delayed, tags[n], now) <==>
      tags[n] !in tags[..n] && Fires(db, delayed, tags[n], now)
  {
    var n := |tags| - 1;
    if tags[n] in tags[..n] {
      DebounceQuiets(db, delayed, tags[..n], now);
    } else {
      DebounceKeepsMarkers(db, delayed, tags[..n], now, tags[n]);
    }
  }

  /** One loop iteration's effect on a counter. */
  lemma DebounceStepCounter(s: Db, delayed: seq<string>, t: string, now: nat, name: string)
    ensures NumAt(Debounced(s, delayed, t, now), CounterKey(name), now)
         == if Fires(s, delayed, t, now) && PrepareString(t) == name
            then Some(Succ(NumAt(s, CounterKey(name), now))) else NumAt(s, CounterKey(name), now)
  {
    if Fires(s, delayed, t, now) {
      assert WindowKey(t) != CounterKey(name);
      if PrepareString(t) != name {
        assert TagKey(t) != CounterKey(name);
      }
    }
  }

  /** How the set of due tags grows by one more listed tag. */
  lemma FiringStep(db: Db, delayed: seq<string>, tags: seq<string>, now: nat, name: string)
    requires tags != []
    ensures var n := |tags| - 1;
      var before := Firing(db, delayed, tags[..n], now, name);
      if tags[n] !in tags[..n] && Fires(db, delayed, tags[n], now) && PrepareString(tags[n]) == name
      then Firing(db, delayed, tags, now, name) == before + {tags[n]} && tags[n] !in before
      else Firing(db, delayed, tags, now, name) == before
  {
    var n := |tags| - 1;
    PrefixMembers(tags, n);
    assert tags == tags[..n] + [tags[n]];
  }

  /**
   * Each distinct due delayed tag bumps its counter exactly once per
   * `genKey`, however often it is listed; nothing else moves a counter.
   */
  lemma {:induction false} DebounceRaises(db: Db, delayed: seq<string>, tags: seq<string>, now: nat, name: string)
    ensures NumAt(DebouncedAll(db, delayed, tags, now), CounterKey(name), now)
         == Raised(NumAt(db, CounterKey(name), now), |Firing(db, delayed, tags, now, name)|)
    decreases |tags|
  {
    if tags == [] {
      assert Firing(db, delayed, tags, now, name) == {};
    } else {
      var n := |tags| - 1;
      var t := tags[n];
      var s := DebouncedAll(db, delayed, tags[..n], now);
      DebounceRaises(db, delayed, tags[..n], now, name);
      DebounceStepFires(db, delayed, tags, now);
      DebounceStepCounter(s, delayed, t, now, name);
      FiringStep(db, delayed, tags, now, name);
      var before := Firing(db, delayed, tags[..n], now, name);
      RaisedStep(NumAt(db, CounterKey(name), now), |before|);
      assert DebouncedAll(db, delayed, tags, now) == Debounced(s, delayed, t, now);
      if t !in tags[..n] && Fires(db, delayed, t, now) && PrepareString(t) == name {
        assert |Firing(db, delayed, tags, now, name)| == |before| + 1;
      } else {
        assert |Firing(db, delayed, tags, now, name)| == |before|;
      }
    }
  }

  /** Tags outside `delayedKeys` (and sharing no counter with a listed one) are never bumped by `genKey`. */
  lemma PlainTagsStay(db: Db, delayed: seq<string>, tags: seq<string>, now: nat, name: string)
    requires forall t :: t in tags && t in delayed ==> PrepareString(t) != name
    ensures NumAt(DebouncedAll(db, delayed, tags, now), CounterKey(name), now) == NumAt(db, CounterKey(name), now)
  {
    DebounceRaises(db, delayed, tags, now, name);
    assert Firing(db, delayed, tags, now, name) == {};
  }

  /** A due tag leaves the loop with a fresh 49-second window marker. */
  lemma {:induction false} DebounceOpensWindow(db: Db, delayed: seq<string>, tags: seq<string>, now: nat, t: string)
    requires t in tags && Fires(db, delayed, t, now)
    ensures var r := DebouncedAll(db, delayed, tags, now);
      WindowKey(t) in r && r[WindowKey(t)] == Entry(Num(1), After(now, WindowTtl))
    decreases |tags|
  {
    var n := |tags| - 1;
    var s := DebouncedAll(db, delayed, tags[..n], now);
    DebounceStepFires(db, delayed, tags, now);
    if t in tags[..n] {
      DebounceOpensWindow(db, delayed, tags[..n], now, t);
      if tags[n] == t {
        assert !Fires(s, delayed, t, now);
      }
    } else {
      assert tags[n] == t;
    }
  }

  /**
   * At most one debounced bump per window: once a `genKey` at `now` has
   * bumped a tag, a later `genKey` before `now + 49` that finds the window
   * marker as that call left it does not bump the tag again.
   */
  lemma WindowHoldsOff(db: Db, delayed: seq<string>, tags: seq<string>, now: nat, t: string, later: nat, db': Db)
    requires t in tags && Fires(db, delayed, t, now)
    requires now <= later < now + WindowTtl
    requires var r := DebouncedAll(db, delayed, tags, now);
      WindowKey(t) in r && WindowKey(t) in db' && db'[WindowKey(t)] == r[WindowKey(t)]
    ensures !Fires(db', delayed, t, later)
  {
    DebounceOpensWindow(db, delayed, tags, now, t);
  }

  /** Writing a payload key commutes with the `genKey` loop. */
  lemma {:induction false} DebounceIgnoresPayload(db: Db, delayed: seq<string>, tags: seq<string>, now: nat, k: string, e: Entry)
    requires OutsideMeta(k)
    ensures DebouncedAll(db[k := e], delayed, tags, now) == DebouncedAll(db, delayed, tags, now)[k := e]
    decreases |tags|
  {
    if tags != [] {
      var n := |tags| - 1;
      var s := DebouncedAll(db, delayed, tags[..n], now);
      DebounceIgnoresPayload(db, delayed, tags[..n], now, k, e);
      DebouncedIgnoresPayload(s, delayed, tags[n], now, k, e);
      assert DebouncedAll(db, delayed, tags, now) == Debounced(s, delayed, tags[n], now);
      assert DebouncedAll(db[k := e], delayed, tags, now) == Debounced(s[k := e], delayed, tags[n], now);
    }
  }

  /** One round of the loop commutes with a payload write. */
  lemma DebouncedIgnoresPayload(s: Db, delayed: seq<string>, t: string, now: nat, k: string, e: Entry)
    requires OutsideMeta(k)
    ensures Debounced(s[k := e], delayed, t, now) == Debounced(s, delayed, t, now)[k := e]
  {
    assert k != ArmedKey(t) && k != WindowKey(t) && k != TagKey(t);
    assert Fires(s[k := e], delayed, t, now) == Fires(s, delayed, t, now);
    if Fires(s, delayed, t, now) {
      var w := Put(s, WindowKey(t), Num(1), After(now, WindowTtl));
      assert Put(s[k := e], WindowKey(t), Num(1), After(now, WindowTtl)) == w[k := e];
      assert NumAt(w[k := e], TagKey(t), now) == NumAt(w, TagKey(t), now);
      assert Bumped(w[k := e], TagKey(t), now) == Bumped(w, TagKey(t), now)[k := e];
    }
  }

  /** Writing a payload key changes no version the fingerprint reads. */
  lemma VersionsIgnorePayload(db: Db, tags: seq<string>, now: nat, k: string, e: Entry)
    requires OutsideMeta(k)
    ensures Versions(db[k := e], tags, now) == Versions(db, tags, now)
  {
    var ks := CounterKeys(tags);
    forall i | 0 <= i < |tags|
      ensures NumAt(db[k := e], ks[i], now) == NumAt(db, ks[i], now)
    {
      assert ks[i] == CounterKey(PrepareString(tags[i]));
    }
  }

  /** Listing the same tags in another order gives the same store effect and the same fingerprint. */
  lemma GenKeyOrderIndependent(hash: Tiger192, ns: Option<nat>, prefix: string, key: string,
                               delayed: seq<string>, a: seq<string>, b: seq<string>, db: Db, now: nat)
    requires multiset(a) == multiset(b)
    ensures DebouncedAll(db, delayed, Sort(a), now) == DebouncedAll(db, delayed, Sort(b), now)
    ensures var r := DebouncedAll(db, delayed, Sort(a), now);
      KeyAt(hash, ns, prefix, key, Sort(a), r, now) == KeyAt(hash, ns, prefix, key, Sort(b), r, now)
  {
    SortOrderIndependent(a, b);
  }

  /** The key is `RKC:`, the namespace digits, ':' and 48 lowercase hex characters. */
  lemma KeyShape(hash: Tiger192, ns: Option<nat>, prefix: string, key: string, tags: seq<string>, db: Db, now: nat)
    ensures var d := Hex(hash(PreHashOf(prefix, key, tags, Versions(db, tags, now))));
      KeyAt(hash, ns, prefix, key, tags, db, now) == "RKC:" + NamespaceText(ns) + ":" + d &&
      |d| == 48 && (forall i :: 0 <= i < |d| ==> IsHexChar(d[i]))
  {
  }

  /** Fingerprints under different namespaces never coincide. */
  lemma KeysSeparateNamespaces(hash: Tiger192, ns1: Option<nat>, ns2: Option<nat>, prefix1: string, prefix2: string,
                               key1: string, key2: string, tags1: seq<string>, tags2: seq<string>, db1: Db, db2: Db, now: nat)
    requires ns1 != ns2
    ensures KeyAt(hash, ns1, prefix1, key1, tags1, db1, now) != KeyAt(hash, ns2, prefix2, key2, tags2, db2, now)
  {
    ColonKeySeparatesNamespaces("RKC:", ns1, ns2,
      Hex(hash(PreHashOf(prefix1, key1, tags1, Versions(db1, tags1, now)))),
      Hex(hash(PreHashOf(prefix2, key2, tags2, Versions(db2, tags2, now)))));
  }

  /** With prefix, key and tags fixed, different MGET replies give different digest inputs. */
  lemma PreHashSeparatesReplies(prefix: string, key: string, tags: seq<string>, a: seq<Option<nat>>, b: seq<Option<nat>>)
    requires |a| == |b| && a != b
    ensures PreHashOf(prefix, key, tags, a) != PreHashOf(prefix, key, tags, b)
  {
    if ReplyText(a) == ReplyText(b) {
      SegmentsInjective(a, b);
    }
    PreHashSeparatesVersions(prefix + "_keys_" + key, TagsText(tags), ReplyText(a), ReplyText(b));
  }

  /** Bumping the counter of a listed tag changes the digest input. */
  lemma TagBumpChangesPreHash(db: Db, prefix: string, key: string, tags: seq<string>, t: string, now: nat)
    requires t in tags
    ensures PreHashOf(prefix, key, tags, Versions(Bumped(db, TagKey(t), now), tags, now))
         != PreHashOf(prefix, key, tags, Versions(db, tags, now))
  {
    var i :| 0 <= i < |tags| && tags[i] == t;
    var a, b := Versions(Bumped(db, TagKey(t), now), tags, now), Versions(db, tags, now);
    assert a[i] == Some(Succ(b[i]));
    PreHashSeparatesReplies(prefix, key, tags, a, b);
  }

  // -------------------------------------------------------------- clean

  /** One round of the `matchingTag` loop: bump the tag, re-arm it when delayed. */
  function TagBumped(db: Db, delayed: seq<string>, t: string, now: nat): Db {
    var s := Bumped(db, TagKey(t), now);
    if t in delayed then Put(s, ArmedKey(t), Num(1), After(now, DelayedTtl)) else s
  }

  /** The store effect of the `matchingTag` loop. */
  function TagsBumped(db: Db, delayed: seq<string>, tags: seq<string>, now: nat): Db
    decreases |tags|
  {
    if tags == [] then db else TagBumped(TagsBumped(db, delayed, tags[..|tags| - 1], now), delayed, tags[|tags| - 1], now)
  }

  /** One round moves the counter of `name` only when the tag sanitises to it. */
  lemma TagBumpedCounter(db: Db, delayed: seq<string>, t: string, now: nat, name: string)
    ensures NumAt(TagBumped(db, delayed, t, now), CounterKey(name), now)
         == if PrepareString(t) == name then Some(Succ(NumAt(db, CounterKey(name), now))) else NumAt(db, CounterKey(name), now)
  {
    assert ArmedKey(t) != CounterKey(name);
    if PrepareString(t) != name {
      assert TagKey(t) != CounterKey(name);
    }
  }

  /** The store after a connected `clean($mode, $tags)`. */
  function Cleaned(db: Db, delayed: seq<string>, mode: string, tags: seq<string>, now: nat): (r: Db)
    ensures mode != CleaningModeAll && mode != CleaningModeClear && !IsMatchingMode(mode) ==> r == db
    ensures IsMatchingMode(mode) && tags == [] ==> r == db
  {
    if mode == CleaningModeAll then Bumped(db, NamespaceKey, now)
    else if mode == CleaningModeClear then map[]
    else if IsMatchingMode(mode) then TagsBumped(db, delayed, tags, now)
    else db
  }

  /** The namespace field after a connected `clean`: re-read after `all`, kept otherwise. */
  function CleanedNamespace(ns: Option<nat>, db': Db, mode: string, now: nat): Option<nat> {
    if mode == CleaningModeAll then NumAt(db', NamespaceKey, now) else ns
  }

  /** How many listed tags share the counter of `name`. */
  function Occurrences(tags: seq<string>, name: string): nat
    decreases |tags|
  {
    if tags == [] then 0
    else Occurrences(tags[..|tags| - 1], name) + (if PrepareString(tags[|tags| - 1]) == name then 1 else 0)
  }

  /** `matchingTag` raises every counter by the number of listed tags that share it. */
  lemma {:induction false} TagsBumpedRaises(db: Db, delayed: seq<string>, tags: seq<string>, now: nat, name: string)
    ensures NumAt(TagsBumped(db, delayed, tags, now), CounterKey(name), now)
         == Raised(NumAt(db, CounterKey(name), now), Occurrences(tags, name))
    decreases |tags|
  {
    if tags != [] {
      var n := |tags| - 1;
      var t := tags[n];
      TagsBumpedRaises(db, delayed, tags[..n], now, name);
      var s := TagsBumped(db, delayed, tags[..n], now);
      assert TagsBumped(db, delayed, tags, now) == TagBumped(s, delayed, t, now);
      TagBumpedCounter(s, delayed, t, now, name);
      RaisedStep(NumAt(db, CounterKey(name), now), Occurrences(tags[..n], name));
    }
  }

  /** `matchingTag` arms every listed delayed tag for 200 seconds. */
  lemma {:induction false} TagsBumpedArms(db: Db, delayed: seq<string>, tags: seq<string>, now: nat, t: string)
    requires t in tags && t in delayed
    ensures var r := TagsBumped(db, delayed, tags, now);
      ArmedKey(t) in r && r[ArmedKey(t)] == Entry(Num(1), After(now, DelayedTtl))
    decreases |tags|
  {
    var n := |tags| - 1;
    if tags[n] != t {
      assert t in tags[..n] by {
        var i :| 0 <= i < |tags| && tags[i] == t;
        assert tags[..n][i] == t;
      }
      TagsBumpedArms(db, delayed, tags[..n], now, t);
      assert ArmedKey(tags[n]) != ArmedKey(t);
    }
  }

  /** The keys `matchingTag` may write. */
  function CleanKeys(delayed: seq<string>, tags: seq<string>): set<string> {
    (set t | t in tags :: TagKey(t)) + (set t | t in tags && t in delayed :: ArmedKey(t))
  }

  /** `matchingTag` writes nothing but the listed counters and the markers of listed delayed tags. */
  lemma {:induction false} TagsBumpedFrame(db: Db, delayed: seq<string>, tags: seq<string>, now: nat)
    ensures AgreeExcept(db, TagsBumped(db, delayed, tags, now), CleanKeys(delayed, tags))
    decreases |tags|
  {
    if tags != [] {
      var n := |tags| - 1;
      TagsBumpedFrame(db, delayed, tags[..n], now);
      PrefixMembers(tags, n);
      assert CleanKeys(delayed, tags[..n]) <= CleanKeys(delayed, tags);
      assert TagKey(tags[n]) in CleanKeys(delayed, tags);
      if tags[n] in delayed {
        assert ArmedKey(tags[n]) in CleanKeys(delayed, tags);
      }
    }
  }

  /** `matchingTag` and `matchingAnyTag` are one mode. */
  lemma MatchingModesAgree(db: Db, delayed: seq<string>, tags: seq<string>, now: nat)
    ensures Cleaned(db, delayed, CleaningModeMatchingTag, tags, now) == Cleaned(db, delayed, CleaningModeMatchingAnyTag, tags, now)
  {
  }

  /**
   * `clean('all')` leaves the field holding the stored epoch, strictly above
   * the one it replaced, and touches no other key.
   */
  lemma CleanAllRaisesNamespace(db: Db, delayed: seq<string>, ns: Option<nat>, tags: seq<string>, now: nat)
    ensures var r := Cleaned(db, delayed, CleaningModeAll, tags, now);
      var ns' := CleanedNamespace(ns, r, CleaningModeAll, now);
      ns'.Some? && ns' == NumAt(r, NamespaceKey, now) &&
      (NumAt(db, NamespaceKey, now).Some? ==> ns'.value > NumAt(db, NamespaceKey, now).value) &&
      AgreeExcept(db, r, {NamespaceKey})
  {
  }

  /** When the field follows the stored epoch, `clean('all')` moves every fingerprint to fresh keys. */
  lemma CleanAllChangesKeys(db: Db, delayed: seq<string>, ns: Option<nat>, tags: seq<string>, now: nat, d1: string, d2: string)
    requires ns.Some? && ns == NumAt(db, NamespaceKey, now)
    ensures var ns' := CleanedNamespace(ns, Cleaned(db, delayed, CleaningModeAll, tags, now), CleaningModeAll, now);
      PayloadKey(ns', d1) != PayloadKey(ns, d2)
  {
    var ns' := CleanedNamespace(ns, Cleaned(db, delayed, CleaningModeAll, tags, now), CleaningModeAll, now);
    ColonKeySeparatesNamespaces("RKC:", ns', ns, d1, d2);
  }

  // --------------------------------------------------------- constructor

  /** The namespace the constructor settles on: the stored epoch if truthy, else 1. */
  function InitialNamespace(db: Db, now: nat): Option<nat> {
    if IsSet(db, NamespaceKey, now) then NumAt(db, NamespaceKey, now) else Some(1)
  }

  function InitialStore(db: Db, now: nat): Db {
    if IsSet(db, NamespaceKey, now) then db else Put(db, NamespaceKey, Num(1), None)
  }

  /** After construction the field and the store agree on a truthy epoch, and nothing else was written. */
  lemma InitialNamespaceStored(db: Db, now: nat)
    ensures Truthy(InitialNamespace(db, now))
    ensures NumAt(InitialStore(db, now), NamespaceKey, now) == InitialNamespace(db, now)
    ensures AgreeExcept(db, InitialStore(db, now), {NamespaceKey})
    ensures IsSet(db, NamespaceKey, now) ==> InitialStore(db, now) == db
  {
  }

  // ---------------------------------------------------------- save, load

  /** The store after a connected `save`: the `genKey` effect, then SETEX when the timeout is positive. */
  function SavedStore(hash: Tiger192, ns: Option<nat>, prefix: string, delayed: seq<string>,
                      key: string, tags: seq<string>, data: seq<byte>, ttl: int, db: Db, now: nat): Db {
    var s := DebouncedAll(db, delayed, Sort(tags), now);
    if ttl > 0 then Put(s, KeyAt(hash, ns, prefix, key, Sort(tags), s, now), Blob(data), After(now, ttl)) else s
  }

  /** What a connected `load` answers. */
  function LoadedValue(hash: Tiger192, ns: Option<nat>, prefix: string, delayed: seq<string>,
                       key: string, tags: seq<string>, db: Db, now: nat): Option<seq<byte>> {
    var s := DebouncedAll(db, delayed, Sort(tags), now);
    BlobAt(s, KeyAt(hash, ns, prefix, key, Sort(tags), s, now), now)
  }

  /** What is saved under a key and tags is what a load of them answers at the same instant. */
  lemma SaveThenLoad(hash: Tiger192, ns: Option<nat>, prefix: string, delayed: seq<string>,
                     key: string, tags: seq<string>, data: seq<byte>, ttl: int, db: Db, now: nat)
    requires ttl > 0
    ensures LoadedValue(hash, ns, prefix, delayed, key, tags,
                        SavedStore(hash, ns, prefix, delayed, key, tags, data, ttl, db, now), now) == Some(data)
  {
    var sorted := Sort(tags);
    var s := DebouncedAll(db, delayed, sorted, now);
    var k := KeyAt(hash, ns, prefix, key, sorted, s, now);
    var e := Entry(Blob(data), After(now, ttl));
    var saved := SavedStore(hash, ns, prefix, delayed, key, tags, data, ttl, db, now);
    assert saved == s[k := e];
    DebounceIgnoresPayload(s, delayed, sorted, now, k, e);
    DebounceIdempotent(db, delayed, sorted, now);
    assert DebouncedAll(saved, delayed, sorted, now) == saved;
    VersionsIgnorePayload(s, sorted, now, k, e);
    assert KeyAt(hash, ns, prefix, key, sorted, saved, now) == k;
    assert LoadedValue(hash, ns, prefix, delayed, key, tags, saved, now) == BlobAt(saved, k, now);
    BlobAtPut(s, k, data, After(now, ttl), now);
  }

  // --------------------------------------------------------------- class

  /** One `TaggedCache\Redis` instance over a shared store. */
  class Redis {
    const store: Store
    /** Whether `connect()` succeeded; nothing later changes it. */
    const connected: bool
    const delayedKeys: seq<string>
    const hash: Tiger192
    var namespace: Option<nat>
    var prefix: string

    /** Reads the epoch, and stores 1 when it is missing or falsy. */
    constructor (store: Store, connected: bool, delayedKeys: seq<string>, hash: Tiger192, now: nat)
      modifies store
      ensures this.store == store && this.connected == connected
      ensures this.delayedKeys == delayedKeys && this.hash == hash && prefix == ""
      ensures !connected ==> namespace == None && store.entries == old(store.entries)
      ensures connected ==> namespace == InitialNamespace(old(store.entries), now)
      ensures connected ==> store.entries == InitialStore(old(store.entries), now)
    {
      this.store := store;
      this.connected := connected;
      this.delayedKeys := delayedKeys;
      this.hash := hash;
      prefix := "";
      var ns: Option<nat> := None;
      if connected {
        ns := store.Get(NamespaceKey, now);
        if !Truthy(ns) {
          ns := Some(1);
          store.Set(NamespaceKey, Num(1), None);
        }
      }
      namespace := ns;
    }

    /** `prefix($prefix)`. */
    method SetPrefix(p: string)
      modifies this
      ensures prefix == p && namespace == old(namespace)
    {
      prefix := p;
    }

    /** `incrementTag`: INCR of the tag's counter; `None` when not connected. */
    method IncrementTag(tag: string, now: nat) returns (n: Option<nat>)
      modifies store
      ensures !connected ==> n == None && store.entries == old(store.entries)
      ensures connected ==> n == Some(Succ(NumAt(old(store.entries), TagKey(tag), now)))
      ensures connected ==> store.entries == Bumped(old(store.entries), TagKey(tag), now)
    {
      n := None;
      if connected {
        var v := store.Incr(TagKey(tag), now);
        n := Some(v);
      }
    }

    /** The body of the `genKey` loop: a due delayed tag opens its window and bumps its counter. */
    method Debounce(tag: string, now: nat)
      requires connected
      modifies store
      ensures store.entries == Debounced(old(store.entries), delayedKeys, tag, now)
    {
      if tag in delayedKeys {
        var armed := store.Get(ArmedKey(tag), now);
        if Truthy(armed) {
          var window := store.Get(WindowKey(tag), now);
          if !Truthy(window) {
            store.Set(WindowKey(tag), Num(1), After(now, WindowTtl));
            var n := IncrementTag(tag, now);
          }
        }
      }
    }

    /** `genKey`: the debounce loop over the sorted tags, one MGET, then the key. */
    method GenKey(key: string, tags: seq<string>, now: nat) returns (k: Option<string>)
      modifies store
      ensures !connected ==> k == None && store.entries == old(store.entries)
      ensures connected ==> store.entries == DebouncedAll(old(store.entries), delayedKeys, Sort(tags), now)
      ensures connected ==> k == Some(KeyAt(hash, namespace, prefix, key, Sort(tags), store.entries, now))
    {
      if !connected {
        return None;
      }
      var sorted := Sort(tags);
      var tagsText := "_";
      var mget: seq<string> := [];
      var i := 0;
      while i < |sorted|
        invariant 0 <= i <= |sorted|
        invariant store.entries == DebouncedAll(old(store.entries), delayedKeys, sorted[..i], now)
        invariant tagsText == TagsText(sorted[..i])
        invariant mget == CounterKeys(sorted[..i])
      {
        var tag := sorted[i];
        Debounce(tag, now);
        GenKeyStep(old(store.entries), delayedKeys, sorted, i, now);
        mget := mget + [TagKey(tag)];
        tagsText := tagsText + "_" + tag;
        i := i + 1;
      }
      assert sorted[..i] == sorted;
      var tagsVal := "0";
      if |sorted| > 0 {
        var reply := store.MGet(mget, now);
        tagsVal := Implode(Segments(reply));
      }
      var hashThis := prefix + "_keys_" + key + "_" + tagsText + "_" + tagsVal;
      k := Some("RKC:" + NamespaceText(namespace) + ":" + Hex(hash(hashThis)));
    }

    /** `clean($mode, $tags)`. */
    method Clean(mode: string, tags: seq<string>, now: nat)
      modifies this, store
      ensures prefix == old(prefix)
      ensures !connected ==> store.entries == old(store.entries) && namespace == old(namespace)
      ensures connected ==> store.entries == Cleaned(old(store.entries), delayedKeys, mode, tags, now)
      ensures connected ==> namespace == CleanedNamespace(old(namespace), store.entries, mode, now)
    {
      if !connected {
        return;
      }
      if mode == CleaningModeAll {
        var n := store.Incr(NamespaceKey, now);
        namespace := store.Get(NamespaceKey, now);
      } else if mode == CleaningModeClear {
        store.FlushDb();
      } else if IsMatchingMode(mode) {
        if |tags| > 0 {
          var i := 0;
          while i < |tags|
            invariant 0 <= i <= |tags|
            invariant store.entries == TagsBumped(old(store.entries), delayedKeys, tags[..i], now)
            invariant namespace == old(namespace) && prefix == old(prefix)
          {
            var tag := tags[i];
            var n := IncrementTag(tag, now);
            if tag in delayedKeys {
              store.Set(ArmedKey(tag), Num(1), After(now, DelayedTtl));
            }
            assert tags[..i + 1][..i] == tags[..i];
            i := i + 1;
          }
          assert tags[..i] == tags;
        }
      }
    }

    /** `save`: SETEX under the fingerprint; false for a non-positive timeout or no connection. */
    method Save(data: seq<byte>, key: string, tags: seq<string>, ttl: int, now: nat) returns (ok: bool)
      modifies store
      ensures !connected ==> !ok && store.entries == old(store.entries)
      ensures connected ==> ok == (ttl > 0)
      ensures connected ==> store.entries == SavedStore(hash, namespace, prefix, delayedKeys, key, tags, data, ttl, old(store.entries), now)
    {
      if !connected {
        return false;
      }
      var k := GenKey(key, tags, now);
      if ttl > 0 {
        store.Set(k.value, Blob(data), After(now, ttl));
        ok := true;
      } else {
        ok := false;
      }
    }

    /** `load`: the payload under the fingerprint, if any. */
    method Load(key: string, tags: seq<string>, now: nat) returns (data: Option<seq<byte>>)
      modifies store
      ensures !connected ==> data == None && store.entries == old(store.entries)
      ensures connected ==> store.entries == DebouncedAll(old(store.entries), delayedKeys, Sort(tags), now)
      ensures connected ==> data == LoadedValue(hash, namespace, prefix, delayedKeys, key, tags, old(store.entries), now)
    {
      if !connected {
        return None;
      }
      var k := GenKey(key, tags, now);
      data := store.GetBlob(k.value, now);
    }
  }
}
