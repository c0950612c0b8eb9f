/**
 * The pieces every variant's `genkey` assembles before and after hashing:
 * the tag-name text, the tag-version text, the string that is hashed, and
 * the key that wraps the encoded digest with the namespace.
 */
module Fingerprint {
  import opened Basics
  import opened Text
  import opened Encoding

  /** `hash('tiger192,3', ...)`: some function onto 24-byte digests; nothing else is known of it. */
  type Tiger192 = f: string -> seq<byte> | forall s :: |f(s)| == 24
    witness (s: string) => seq(24, _ => 0)

  /** `hash('sha256', ...)`: some function onto 32-byte digests; nothing else is known of it. */
  type Sha256 = f: string -> seq<byte> | forall s :: |f(s)| == 32
    witness (s: string) => seq(32, _ => 0)

  /** `$tags_str`: starts as '_' and gains '_' . $tag for every tag, in iteration order. */
  function TagsText(tags: seq<string>): string {
    if tags == [] then "_" else TagsText(tags[..|tags| - 1]) + "_" + tags[|tags| - 1]
  }

  /** `$tags_val` of the lazily-initialising variants: starts as 0 and gains '_' . $version per tag. */
  function VersionsText(vs: seq<nat>): string {
    if vs == [] then "0" else VersionsText(vs[..|vs| - 1]) + "_" + Decimal(vs[|vs| - 1])
  }

  /** `implode('_', $segments)`. */
  function Implode(segs: seq<string>): string {
    if segs == [] then ""
    else if |segs| == 1 then segs[0]
    else Implode(segs[..|segs| - 1]) + "_" + segs[|segs| - 1]
  }

  /** One value of an `mGet` reply as `implode` renders it: `false` as "", a counter in decimal. */
  function Segment(v: Option<nat>): (s: string)
    ensures '_' !in s
    ensures v.Some? <==> s != ""
  {
    match v
    case None => ""
    case Some(n) => DigitsLackChar(Decimal(n), '_'); Decimal(n)
  }

  function Segments(vs: seq<Option<nat>>): (ss: seq<string>)
    ensures |ss| == |vs|
    ensures forall i :: 0 <= i < |vs| ==> ss[i] == Segment(vs[i])
  {
    seq(|vs|, i requires 0 <= i < |vs| => Segment(vs[i]))
  }

  /** The digest input: `$head . '_' . $tags_str . '_' . $tags_val`. */
  function PreHash(head: string, tagsText: string, versionsText: string): string {
    head + "_" + tagsText + "_" + versionsText
  }

  /** Version vectors of one length are told apart by their text. */
  lemma {:induction false} VersionsTextInjective(a: seq<nat>, b: seq<nat>)
    requires |a| == |b|
    requires VersionsText(a) == VersionsText(b)
    ensures a == b
    decreases |a|
  {
    if a != [] {
      var n := |a| - 1;
      var da, db := Decimal(a[n]), Decimal(b[n]);
      DigitsLackChar(da, '_');
      DigitsLackChar(db, '_');
      assert VersionsText(a) == VersionsText(a[..n]) + ['_'] + da;
      assert VersionsText(b) == VersionsText(b[..n]) + ['_'] + db;
      SplitAtLast(VersionsText(a[..n]), da, VersionsText(b[..n]), db, '_');
      DecimalInjective(a[n], b[n]);
      VersionsTextInjective(a[..n], b[..n]);
      assert a == a[..n] + [a[n]] && b == b[..n] + [b[n]];
    }
  }

  /** Segment lists of one length whose segments hold no '_' are told apart by their implosion. */
  lemma {:induction false} ImplodeInjective(a: seq<string>, b: seq<string>)
    requires |a| == |b|
    requires forall i :: 0 <= i < |a| ==> '_' !in a[i] && '_' !in b[i]
    requires Implode(a) == Implode(b)
    ensures a == b
    decreases |a|
  {
    if |a| >= 2 {
      var n := |a| - 1;
      assert Implode(a) == Implode(a[..n]) + ['_'] + a[n];
      assert Implode(b) == Implode(b[..n]) + ['_'] + b[n];
      SplitAtLast(Implode(a[..n]), a[n], Implode(b[..n]), b[n], '_');
      ImplodeInjective(a[..n], b[..n]);
      assert a == a[..n] + [a[n]] && b == b[..n] + [b[n]];
    }
  }

  /** `mGet` replies of one length are told apart by their implosion, absent values included. */
  lemma SegmentsInjective(a: seq<Option<nat>>, b: seq<Option<nat>>)
    requires |a| == |b|
    requires Implode(Segments(a)) == Implode(Segments(b))
    ensures a == b
  {
    ImplodeInjective(Segments(a), Segments(b));
    forall i | 0 <= i < |a|
      ensures a[i] == b[i]
    {
      assert Segment(a[i]) == Segment(b[i]);
      if a[i].Some? && b[i].Some? {
        DecimalInjective(a[i].value, b[i].value);
      }
    }
  }

  /** With the head and the tag text fixed, the digest input changes whenever the version text does. */
  lemma PreHashSeparatesVersions(head: string, tagsText: string, v1: string, v2: string)
    requires v1 != v2
    ensures PreHash(head, tagsText, v1) != PreHash(head, tagsText, v2)
  {
    if PreHash(head, tagsText, v1) == PreHash(head, tagsText, v2) {
      CancelHead(head + "_" + tagsText + "_", v1, v2);
    }
  }

  /** `$head . $namespace . ':' . $digest`. */
  function ColonKey(head: string, ns: Option<nat>, digest: string): string {
    head + NamespaceText(ns) + ":" + digest
  }

  /** Right after the head a colon key holds a digit of the namespace, or the ':' when there is none. */
  lemma ColonKeyAfterHead(head: string, ns: Option<nat>, digest: string)
    ensures |ColonKey(head, ns, digest)| > |head|
    ensures ColonKey(head, ns, digest)[..|head|] == head
    ensures ColonKey(head, ns, digest)[|head|] == ':' || IsDigit(ColonKey(head, ns, digest)[|head|])
  {
    var k := ColonKey(head, ns, digest);
    assert k == head + (NamespaceText(ns) + ":" + digest);
    if ns.Some? {
      assert k[|head|] == NamespaceText(ns)[0];
    }
  }

  /** Where the parts of a colon key sit. */
  lemma ColonKeyParts(head: string, ns: Option<nat>, digest: string)
    ensures var k := ColonKey(head, ns, digest);
      var n := |head| + |NamespaceText(ns)|;
      |k| == n + 1 + |digest| && k[..|head|] == head && k[|head|..n] == NamespaceText(ns) && k[n] == ':' &&
      forall j :: 0 <= j < |digest| ==> k[n + 1 + j] == digest[j]
  {
    var k := ColonKey(head, ns, digest);
    assert k == (head + NamespaceText(ns)) + [':'] + digest;
    JoinAt(head + NamespaceText(ns), ':', digest);
    assert k[..|head| + |NamespaceText(ns)|] == head + NamespaceText(ns);
  }

  /** A colon key over a URL-safe digest: the head, the epoch's digits, ':' and URL-safe characters only. */
  lemma UrlColonKey(head: string, ns: Option<nat>, digest: string)
    requires forall j :: 0 <= j < |digest| ==> IsUrlChar(digest[j])
    ensures var k := ColonKey(head, ns, digest);
      var n := |head| + |NamespaceText(ns)|;
      |k| == n + 1 + |digest| && k[..|head|] == head && k[|head|..n] == NamespaceText(ns) && k[n] == ':' &&
      forall i :: n < i < |k| ==> IsUrlChar(k[i])
  {
    ColonKeyParts(head, ns, digest);
    var k := ColonKey(head, ns, digest);
    var n := |head| + |NamespaceText(ns)|;
    forall i | n < i < |k|
      ensures IsUrlChar(k[i])
    {
      assert k[n + 1 + (i - n - 1)] == digest[i - n - 1];
    }
  }

  /** `$namespace . '.' . $digest`. */
  function DotKey(ns: Option<nat>, digest: string): string {
    NamespaceText(ns) + "." + digest
  }

  /**
   * A dot key over a URL-safe digest: the epoch's digits, '.' and URL-safe
   * characters, the '.' being the only one in the key.
   */
  lemma UrlDotKey(ns: Option<nat>, digest: string)
    requires forall j :: 0 <= j < |digest| ==> IsUrlChar(digest[j])
    ensures var k := DotKey(ns, digest);
      var n := |NamespaceText(ns)|;
      |k| == n + 1 + |digest| && k[..n] == NamespaceText(ns) && k[n] == '.' &&
      (forall i :: n < i < |k| ==> IsUrlChar(k[i])) &&
      (forall i :: 0 <= i < |k| && i != n ==> k[i] != '.')
  {
    var ds := NamespaceText(ns);
    var k := DotKey(ns, digest);
    var n := |ds|;
    assert k == ds + ['.'] + digest;
    JoinAt(ds, '.', digest);
    DigitsLackChar(ds, '.');
    forall i | 0 <= i < |k| && i != n
      ensures k[i] != '.' && (n < i ==> IsUrlChar(k[i]))
    {
      if i < n {
        assert k[i] == ds[i];
      } else {
        assert k[n + 1 + (i - n - 1)] == digest[i - n - 1];
      }
    }
  }

  /** Keys built under different namespaces differ, whatever the digests. */
  lemma ColonKeySeparatesNamespaces(head: string, a: Option<nat>, b: Option<nat>, d1: string, d2: string)
    requires a != b
    ensures ColonKey(head, a, d1) != ColonKey(head, b, d2)
  {
    if ColonKey(head, a, d1) == ColonKey(head, b, d2) {
      DigitsLackChar(NamespaceText(a), ':');
      DigitsLackChar(NamespaceText(b), ':');
      assert ColonKey(head, a, d1) == head + (NamespaceText(a) + [':'] + d1);
      assert ColonKey(head, b, d2) == head + (NamespaceText(b) + [':'] + d2);
      CancelHead(head, NamespaceText(a) + [':'] + d1, NamespaceText(b) + [':'] + d2);
      SplitAtFirst(NamespaceText(a), d1, NamespaceText(b), d2, ':');
      NamespaceTextInjective(a, b);
    }
  }

  lemma DotKeySeparatesNamespaces(a: Option<nat>, b: Option<nat>, d1: string, d2: string)
    requires a != b
    ensures DotKey(a, d1) != DotKey(b, d2)
  {
    if DotKey(a, d1) == DotKey(b, d2) {
      DigitsLackChar(NamespaceText(a), '.');
      DigitsLackChar(NamespaceText(b), '.');
      SplitAtFirst(NamespaceText(a), d1, NamespaceText(b), d2, '.');
      NamespaceTextInjective(a, b);
    }
  }
}
