/**
 * Strings as PHP renders integers into keys, and the facts about separators
 * that make a concatenated key readable back into its parts.
 */
module Text {
  import opened Basics

  predicate IsDigit(c: char) {
    '0' <= c <= '9'
  }

  predicate AllDigits(s: string) {
    forall i :: 0 <= i < |s| ==> IsDigit(s[i])
  }

  function DigitChar(d: nat): (c: char)
    requires d < 10
    ensures IsDigit(c)
  {
    ('0' as int + d) as char
  }

  /** PHP's string conversion of a non-negative integer: decimal, no sign, no leading zero. */
  function Decimal(n: nat): (s: string)
    ensures |s| >= 1 && AllDigits(s)
    ensures n >= 10 <==> |s| >= 2
    ensures s[0] == '0' ==> n == 0
  {
    if n < 10 then [DigitChar(n)] else Decimal(n / 10) + [DigitChar(n % 10)]
  }

  /** Distinct numbers render as distinct strings. */
  lemma {:induction false} DecimalInjective(a: nat, b: nat)
    requires Decimal(a) == Decimal(b)
    ensures a == b
  {
    if a >= 10 && b >= 10 {
      var da, db := Decimal(a), Decimal(b);
      assert da[|da| - 1] == DigitChar(a % 10) && db[|db| - 1] == DigitChar(b % 10);
      assert da[..|da| - 1] == Decimal(a / 10);
      assert db[..|db| - 1] == Decimal(b / 10);
      DecimalInjective(a / 10, b / 10);
    } else {
      assert Decimal(a)[0] == DigitChar(a) || a >= 10;
    }
  }

  /** The text a namespace contributes to a key: PHP renders `false` as the empty string. */
  function NamespaceText(ns: Option<nat>): (s: string)
    ensures AllDigits(s)
    ensures ns.Some? <==> |s| >= 1
  {
    match ns
    case None => ""
    case Some(n) => Decimal(n)
  }

  lemma NamespaceTextInjective(a: Option<nat>, b: Option<nat>)
    requires NamespaceText(a) == NamespaceText(b)
    ensures a == b
  {
    if a.Some? && b.Some? {
      DecimalInjective(a.value, b.value);
    }
  }

  /** A digit string contains no character outside 0-9, so in particular none of the separators. */
  lemma DigitsLackChar(s: string, c: char)
    requires AllDigits(s) && !IsDigit(c)
    ensures c !in s
  {
  }

  /**
   * Splitting at the FIRST occurrence of a separator: when neither head holds
   * the separator, equal joins have equal heads and equal tails.
   */
  lemma SplitAtFirst(x1: string, y1: string, x2: string, y2: string, sep: char)
    requires sep !in x1 && sep !in x2
    requires x1 + [sep] + y1 == x2 + [sep] + y2
    ensures x1 == x2 && y1 == y2
  {
    var s1, s2 := x1 + [sep] + y1, x2 + [sep] + y2;
    if |x1| != |x2| {
      JoinAt(x1, sep, y1);
      JoinAt(x2, sep, y2);
      assert false;
    }
    assert x1 == s1[..|x1|] && x2 == s2[..|x2|];
    assert y1 == s1[|x1| + 1..] && y2 == s2[|x2| + 1..];
  }

  /**
   * Splitting at the LAST occurrence of a separator: when neither tail holds
   * the separator, equal joins have equal heads and equal tails.
   */
  lemma SplitAtLast(x1: string, y1: string, x2: string, y2: string, sep: char)
    requires sep !in y1 && sep !in y2
    requires x1 + [sep] + y1 == x2 + [sep] + y2
    ensures x1 == x2 && y1 == y2
  {
    var s1, s2 := x1 + [sep] + y1, x2 + [sep] + y2;
    if |y1| != |y2| {
      JoinAt(x1, sep, y1);
      JoinAt(x2, sep, y2);
      assert false;
    }
    assert x1 == s1[..|x1|] && x2 == s2[..|x2|];
    assert y1 == s1[|x1| + 1..] && y2 == s2[|x2| + 1..];
  }

  /** Where the parts of a join sit in it. */
  lemma JoinAt(x: string, sep: char, y: string)
    ensures |x + [sep] + y| == |x| + 1 + |y|
    ensures (x + [sep] + y)[|x|] == sep
    ensures forall i :: 0 <= i < |x| ==> (x + [sep] + y)[i] == x[i]
    ensures forall j :: 0 <= j < |y| ==> (x + [sep] + y)[|x| + 1 + j] == y[j]
  {
  }

  /** A common head cancels. */
  lemma CancelHead(h: string, a: string, b: string)
    requires h + a == h + b
    ensures a == b
  {
    assert a == (h + a)[|h|..];
    assert b == (h + b)[|h|..];
  }
}
