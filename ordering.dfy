/**
 * The order `asort` puts tags in before a fingerprint is built: byte-wise
 * string comparison, as PHP's strcmp does for non-numeric strings, and a
 * sort by it. Sorting is what makes a fingerprint independent of the order
 * in which the caller lists the tags.
 */
module Ordering {

  /** Lexicographic "a comes no later than b", comparing character codes. */
  predicate Below(a: string, b: string)
    decreases |a|
  {
    if a == [] then true
    else if b == [] then false
    else if a[0] != b[0] then a[0] < b[0]
    else Below(a[1..], b[1..])
  }

  lemma {:induction false} BelowReflexive(a: string)
    ensures Below(a, a)
    decreases |a|
  {
    if a != [] {
      BelowReflexive(a[1..]);
    }
  }

  lemma {:induction false} BelowTotal(a: string, b: string)
    ensures Below(a, b) || Below(b, a)
    decreases |a|
  {
    if a != [] && b != [] && a[0] == b[0] {
      BelowTotal(a[1..], b[1..]);
    }
  }

  lemma {:induction false} BelowAntisymmetric(a: string, b: string)
    requires Below(a, b) && Below(b, a)
    ensures a == b
    decreases |a|
  {
    if a != [] && b != [] {
      BelowAntisymmetric(a[1..], b[1..]);
      assert a == [a[0]] + a[1..] && b == [b[0]] + b[1..];
    }
  }

  lemma {:induction false} BelowTransitive(a: string, b: string, c: string)
    requires Below(a, b) && Below(b, c)
    ensures Below(a, c)
    decreases |a|
  {
    if a != [] && b != [] && c != [] && a[0] == b[0] && b[0] == c[0] {
      BelowTransitive(a[1..], b[1..], c[1..]);
    }
  }

  predicate Sorted(s: seq<string>) {
    forall i, j :: 0 <= i < j < |s| ==> Below(s[i], s[j])
  }

  /** An element no later than every element of an ascending sequence can go in front of it. */
  lemma SortedCons(x: string, s: seq<string>)
    requires Sorted(s)
    requires forall j :: 0 <= j < |s| ==> Below(x, s[j])
    ensures Sorted([x] + s)
  {
    forall i, j | 0 <= i < j < |s| + 1
      ensures Below(([x] + s)[i], ([x] + s)[j])
    {
      if i > 0 {
        assert ([x] + s)[i] == s[i - 1] && ([x] + s)[j] == s[j - 1];
      }
    }
  }

  /** The head of an ascending sequence comes no later than its other elements. */
  lemma HeadBelowTail(s: seq<string>)
    requires Sorted(s) && s != []
    ensures forall j :: 0 <= j < |s| - 1 ==> Below(s[0], s[1..][j])
  {
    forall j | 0 <= j < |s| - 1
      ensures Below(s[0], s[1..][j])
    {
      assert s[1..][j] == s[j + 1];
    }
  }

  /** A lower bound of a sequence and of `x` bounds every rearrangement of them. */
  lemma BoundsRearrangement(h: string, tail: seq<string>, x: string, rest: seq<string>)
    requires forall j :: 0 <= j < |tail| ==> Below(h, tail[j])
    requires Below(h, x)
    requires multiset(rest) == multiset(tail) + multiset{x}
    ensures forall k :: 0 <= k < |rest| ==> Below(h, rest[k])
  {
    forall k | 0 <= k < |rest|
      ensures Below(h, rest[k])
    {
      assert rest[k] in multiset(rest);
      if rest[k] != x {
        assert rest[k] in multiset(tail);
        var m :| 0 <= m < |tail| && tail[m] == rest[k];
      }
    }
  }

  /** Places `x` in front of the first element it comes before. */
  function Insert(x: string, s: seq<string>): (r: seq<string>)
    requires Sorted(s)
    ensures Sorted(r)
    ensures multiset(r) == multiset(s) + multiset{x}
  {
    if s == [] then [x]
    else if Below(x, s[0]) then
      assert forall j :: 0 <= j < |s| ==> Below(x, s[j]) by {
        forall j | 0 <= j < |s|
          ensures Below(x, s[j])
        {
          if j > 0 { BelowTransitive(x, s[0], s[j]); }
        }
      }
      SortedCons(x, s);
      [x] + s
    else
      BelowTotal(x, s[0]);
      SortedTail(s);
      var rest := Insert(x, s[1..]);
      assert s == [s[0]] + s[1..];
      HeadBelowTail(s);
      BoundsRearrangement(s[0], s[1..], x, rest);
      SortedCons(s[0], rest);
      [s[0]] + rest
  }

  /** The tags in ascending order: `asort($tags)` followed by iteration in that order. */
  function Sort(s: seq<string>): (r: seq<string>)
    ensures Sorted(r)
    ensures multiset(r) == multiset(s)
    ensures |r| == |s|
  {
    if s == [] then []
    else
      assert s == [s[0]] + s[1..];
      Insert(s[0], Sort(s[1..]))
  }

  /** The first element of an ascending sequence comes before every element. */
  lemma SortedHeadLeast(s: seq<string>, x: string)
    requires Sorted(s) && x in s
    ensures Below(s[0], x)
  {
    var j :| 0 <= j < |s| && s[j] == x;
    if j == 0 {
      BelowReflexive(x);
    }
  }

  lemma SortedTail(s: seq<string>)
    requires Sorted(s) && s != []
    ensures Sorted(s[1..])
  {
    forall i, j | 0 <= i < j < |s| - 1
      ensures Below(s[1..][i], s[1..][j])
    {
      assert s[1..][i] == s[i + 1] && s[1..][j] == s[j + 1];
    }
  }

  /** Two ascending sequences holding the same elements start alike. */
  lemma SortedSameHead(a: seq<string>, b: seq<string>)
    requires Sorted(a) && Sorted(b) && a != [] && b != []
    requires multiset(a) == multiset(b)
    ensures a[0] == b[0]
  {
    assert a[0] in multiset(b) && b[0] in multiset(a);
    SortedHeadLeast(b, a[0]);
    SortedHeadLeast(a, b[0]);
    BelowAntisymmetric(a[0], b[0]);
  }

  lemma TailMultiset(s: seq<string>)
    requires s != []
    ensures multiset(s[1..]) == multiset(s) - multiset{s[0]}
  {
    assert s == [s[0]] + s[1..];
  }

  /** Two ascending sequences holding the same elements are the same sequence. */
  lemma {:induction false} SortedUnique(a: seq<string>, b: seq<string>)
    requires Sorted(a) && Sorted(b)
    requires multiset(a) == multiset(b)
    ensures a == b
    decreases |a|
  {
    assert |b| == |a| by { assert |multiset(b)| == |multiset(a)|; }
    if a != [] {
      SortedSameHead(a, b);
      TailMultiset(a);
      TailMultiset(b);
      SortedTail(a);
      SortedTail(b);
      SortedUnique(a[1..], b[1..]);
      assert a == [a[0]] + a[1..] && b == [b[0]] + b[1..];
    }
  }

  /** The order in which tags are listed does not matter: any rearrangement sorts to the same sequence. */
  lemma SortOrderIndependent(a: seq<string>, b: seq<string>)
    requires multiset(a) == multiset(b)
    ensures Sort(a) == Sort(b)
  {
    SortedUnique(Sort(a), Sort(b));
  }

  /** A tag is iterated over exactly when it was listed. */
  lemma SortKeepsMembers(s: seq<string>, t: string)
    ensures t in Sort(s) <==> t in s
  {
    assert t in Sort(s) <==> t in multiset(Sort(s));
    assert t in s <==> t in multiset(s);
  }

  /** Every tag of a prefix is a listed tag. */
  lemma PrefixMembers(tags: seq<string>, n: nat)
    requires n <= |tags|
    ensures forall t :: t in tags[..n] ==> t in tags
  {
    forall t | t in tags[..n]
      ensures t in tags
    {
      var i :| 0 <= i < n && tags[..n][i] == t;
      assert tags[i] == t;
    }
  }

  /** A listed tag is the last one or one before it. */
  lemma LastOrBefore(tags: seq<string>, t: string)
    requires tags != []
    ensures t in tags <==> t in tags[..|tags| - 1] || t == tags[|tags| - 1]
  {
    PrefixMembers(tags, |tags| - 1);
    if t in tags {
      var i :| 0 <= i < |tags| && tags[i] == t;
      if i < |tags| - 1 { assert tags[..|tags| - 1][i] == t; }
    }
  }
}
