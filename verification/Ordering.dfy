/** The order Python's `sorted` uses on strings, and the sorted listing of a set of them. */
module Ordering {

  /** Strict lexicographic order by code point. */
  predicate Less(a: string, b: string) {
    if b == "" then false
    else if a == "" then true
    else if a[0] != b[0] then a[0] < b[0]
    else Less(a[1..], b[1..])
  }

  lemma {:induction false} LessTrichotomy(a: string, b: string)
    ensures a == b || Less(a, b) || Less(b, a)
    ensures !(Less(a, b) && Less(b, a))
    ensures !Less(a, a)
  {
    if a != "" && b != "" {
      LessTrichotomy(a[1..], b[1..]);
      assert a == [a[0]] + a[1..] && b == [b[0]] + b[1..];
    }
    if a != "" {
      LessTrichotomy(a[1..], a[1..]);
    }
  }

  lemma {:induction false} LessTransitive(a: string, b: string, c: string)
    requires Less(a, b) && Less(b, c)
    ensures Less(a, c)
  {
    if a != "" && a[0] == b[0] == c[0] {
      LessTransitive(a[1..], b[1..], c[1..]);
    }
  }

  /** `b` goes on after all of `a`, or has the greater code point where they first differ. */
  predicate LessAt(a: string, b: string, k: nat) {
    k <= |a| && k < |b| && a[..k] == b[..k] && (k == |a| || a[k] < b[k])
  }

  lemma FirstShared(a: string, b: string, k: nat)
    requires k <= |a| && k < |b| && a[..k] == b[..k]
    ensures k > 0 ==> a[0] == b[0]
  {
    if k > 0 { assert a[..k][0] == b[..k][0]; }
  }

  lemma {:induction false} LessIsLexicographic(a: string, b: string)
    ensures Less(a, b) <==> exists k: nat :: LessAt(a, b, k)
  {
    if a != "" && b != "" && a[0] == b[0] {
      LessIsLexicographic(a[1..], b[1..]);
      if k: nat :| LessAt(a[1..], b[1..], k) {
        assert a[..k + 1] == [a[0]] + a[1..][..k] && b[..k + 1] == [b[0]] + b[1..][..k];
        assert LessAt(a, b, k + 1);
      }
      if k: nat :| LessAt(a, b, k) {
        assert a[1..][..k - 1] == a[..k][1..] && b[1..][..k - 1] == b[..k][1..];
        assert LessAt(a[1..], b[1..], k - 1);
      }
    } else if Less(a, b) {
      assert LessAt(a, b, 0);
    } else if k: nat :| LessAt(a, b, k) {
      assert k <= |a| && a[..k] == b[..k];
      FirstShared(a, b, k);
      assert false;
    }
  }

  predicate IsLeast(x: string, s: set<string>) {
    x in s && forall y :: y in s && y != x ==> Less(x, y)
  }

  lemma {:induction false} LeastExists(s: set<string>)
    requires s != {}
    ensures exists x :: IsLeast(x, s)
  {
    var z :| z in s;
    var rest := s - {z};
    if rest == {} {
      assert s == {z};
      assert IsLeast(z, s);
    } else {
      LeastExists(rest);
      var m :| IsLeast(m, rest);
      LessTrichotomy(z, m);
      if Less(z, m) {
        forall y | y in s && y != z ensures Less(z, y) {
          if y != m { LessTransitive(z, m, y); }
        }
        assert IsLeast(z, s);
      } else {
        assert IsLeast(m, s);
      }
    }
  }

  lemma LeastUnique(s: set<string>)
    ensures forall x, y :: IsLeast(x, s) && IsLeast(y, s) ==> x == y
  {
    forall x, y | IsLeast(x, s) && IsLeast(y, s) ensures x == y { LessTrichotomy(x, y); }
  }

  function Least(s: set<string>): (x: string)
    requires s != {}
    ensures IsLeast(x, s)
  {
    LeastExists(s);
    LeastUnique(s);
    var x :| x in s && IsLeast(x, s);
    x
  }

  ghost predicate IsSortedListing(r: seq<string>, s: set<string>) {
    && |r| == |s| && (forall x :: x in r <==> x in s)
    && forall i, j :: 0 <= i < j < |r| ==> Less(r[i], r[j])
  }

  lemma SortedCons(x: string, rest: seq<string>, s: set<string>)
    requires IsLeast(x, s) && IsSortedListing(rest, s - {x})
    ensures IsSortedListing([x] + rest, s)
  {
    hide Less;
    var r := [x] + rest;
    assert s == {x} + (s - {x});
    forall i, j | 0 <= i < j < |r| ensures Less(r[i], r[j]) {
      assert r[j] == rest[j - 1] && rest[j - 1] in rest;
    }
  }

  /** `sorted(s)`: strictly increasing, hence duplicate-free, and listing exactly `s`. */
  function Sorted(s: set<string>): (r: seq<string>)
    ensures forall x :: x in r <==> x in s
    ensures forall i, j :: 0 <= i < j < |r| ==> Less(r[i], r[j])
    ensures |r| == |s|
  {
    if s == {} then [] else
    var x := Least(s);
    var rest := Sorted(s - {x});
    SortedCons(x, rest, s);
    [x] + rest
  }

  lemma SortedDistinct(s: set<string>)
    ensures forall i, j :: 0 <= i < j < |Sorted(s)| ==> Sorted(s)[i] != Sorted(s)[j]
  {
    var r := Sorted(s);
    forall i, j | 0 <= i < j < |r| ensures r[i] != r[j] { LessTrichotomy(r[i], r[j]); }
  }

  lemma SortedInjective(a: set<string>, b: set<string>)
    requires Sorted(a) == Sorted(b)
    ensures a == b
  {
    forall x ensures x in a <==> x in b {
      assert x in Sorted(a) <==> x in a;
      assert x in Sorted(b) <==> x in b;
    }
  }
}
