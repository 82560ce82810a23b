/**
  The two `std::string` facilities the core relies on: the ordering that a
  `std::map<std::string, …>` iterates in, and `std::to_string` of a count.
 */
module Strings {

  /** `std::string` comparison: character by character, a proper prefix first. */
  predicate Less(a: string, b: string)
  {
    if |a| == 0 then |b| > 0
    else if |b| == 0 then false
    else a[0] < b[0] || (a[0] == b[0] && Less(a[1..], b[1..]))
  }

  lemma {:induction false} LessIrreflexive(a: string)
    ensures !Less(a, a)
  {
    if |a| > 0 {
      LessIrreflexive(a[1..]);
    }
  }

  lemma {:induction false} LessTransitive(a: string, b: string, c: string)
    requires Less(a, b) && Less(b, c)
    ensures Less(a, c)
  {
    if |a| > 0 && |c| > 0 && a[0] == c[0] {
      LessTransitive(a[1..], b[1..], c[1..]);
    }
  }

  /** Any two different strings are ordered one way or the other. */
  lemma {:induction false} LessTotal(a: string, b: string)
    ensures a == b || Less(a, b) || Less(b, a)
  {
    if |a| > 0 && |b| > 0 && a[0] == b[0] {
      LessTotal(a[1..], b[1..]);
      if a[1..] == b[1..] {
        assert a == [a[0]] + a[1..] && b == [b[0]] + b[1..];
      }
    }
  }

  /** Strictly increasing, which is the iteration order of a `std::map`. */
  ghost predicate Sorted(s: seq<string>)
  {
    forall i, j :: 0 <= i < j < |s| ==> Less(s[i], s[j])
  }

  lemma SortedDistinct(s: seq<string>, i: int, j: int)
    requires Sorted(s) && 0 <= i < |s| && 0 <= j < |s| && i != j
    ensures s[i] != s[j]
  {
    if i < j {
      LessIrreflexive(s[i]);
    } else {
      LessIrreflexive(s[j]);
    }
  }

  /** Inserting a new key into the sorted key sequence of a map. */
  function InsertSorted(s: seq<string>, x: string): (r: seq<string>)
    requires Sorted(s) && x !in s
    ensures Sorted(r) && |r| == |s| + 1
    ensures forall y :: y in r <==> y in s || y == x
  {
    if s == [] then [x]
    else if Less(x, s[0]) then
      SortedTail(s);
      assert forall y :: y in s ==> Less(x, y) by {
        forall y | y in s ensures Less(x, y) {
          if y != s[0] {
            assert y in s[1..];
            LessTransitive(x, s[0], y);
          }
        }
      }
      SortedCons(x, s);
      [x] + s
    else
      SortedTail(s);
      var t := InsertSorted(s[1..], x);
      LessTotal(x, s[0]);
      SortedCons(s[0], t);
      [s[0]] + t
  }

  /** The tail of a sorted sequence is sorted and follows its head. */
  lemma SortedTail(s: seq<string>)
    requires Sorted(s) && |s| > 0
    ensures Sorted(s[1..]) && forall y :: y in s[1..] ==> Less(s[0], y)
  {
    forall y | y in s[1..]
      ensures Less(s[0], y)
    {
      var j :| 0 <= j < |s[1..]| && s[1..][j] == y;
      assert y == s[j + 1];
    }
  }

  /** A key before every key of a sorted sequence can be put in front of it. */
  lemma SortedCons(a: string, t: seq<string>)
    requires Sorted(t) && forall y :: y in t ==> Less(a, y)
    ensures Sorted([a] + t)
  {
    forall i, j | 0 <= i < j < |[a] + t|
      ensures Less(([a] + t)[i], ([a] + t)[j])
    {
      assert ([a] + t)[j] == t[j - 1];
      if i > 0 {
        assert ([a] + t)[i] == t[i - 1];
      } else {
        assert t[j - 1] in t;
      }
    }
  }

  /** Erasing a key from the sorted key sequence of a map. */
  function RemoveKey(s: seq<string>, x: string): (r: seq<string>)
    requires Sorted(s)
    ensures Sorted(r) && |r| <= |s|
    ensures forall y :: y in r <==> y in s && y != x
    ensures x !in s ==> r == s
  {
    if s == [] then []
    else
      SortedTail(s);
      var t := RemoveKey(s[1..], x);
      if s[0] == x then t
      else
        SortedCons(s[0], t);
        assert x !in s ==> [s[0]] + s[1..] == s;
        [s[0]] + t
  }

  /** The decimal digit `d`. */
  function Digit(d: nat): char
    requires d < 10
  {
    ('0' as int + d) as char
  }

  /** `std::to_string` of a non-negative count. */
  function DecimalString(n: nat): (s: string)
    ensures |s| >= 1
    ensures n >= 10 ==> |s| >= 2
  {
    if n < 10 then [Digit(n)] else DecimalString(n / 10) + [Digit(n % 10)]
  }

  /** Different counts print differently. */
  lemma {:induction false} DecimalStringInjective(a: nat, b: nat)
    requires DecimalString(a) == DecimalString(b)
    ensures a == b
  {
    var s, t := DecimalString(a), DecimalString(b);
    assert s[|s| - 1] == t[|t| - 1];
    if a >= 10 && b >= 10 {
      assert s[..|s| - 1] == DecimalString(a / 10);
      assert t[..|t| - 1] == DecimalString(b / 10);
      DecimalStringInjective(a / 10, b / 10);
    }
  }

  /** The name a belt gives its `k`-th asteroid: `"ast_" + std::to_string(k)`. */
  function AsteroidName(k: nat): string
  {
    "ast_" + DecimalString(k)
  }

  /** Distinct indices give distinct asteroid names. */
  lemma AsteroidNameInjective(j: nat, k: nat)
    requires j != k
    ensures AsteroidName(j) != AsteroidName(k)
  {
    if AsteroidName(j) == AsteroidName(k) {
      assert AsteroidName(j)[4..] == DecimalString(j);
      assert AsteroidName(k)[4..] == DecimalString(k);
      DecimalStringInjective(j, k);
    }
  }
}
