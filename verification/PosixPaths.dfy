/** POSIX path strings as `pathlib` reads them. */
module PosixPaths {

  type Path = seq<string>

  function Split(s: string, sep: char): (r: seq<string>)
    ensures |r| >= 1
    ensures forall i :: 0 <= i < |r| ==> sep !in r[i]
  {
    if s == "" then [""]
    else if s[0] == sep then [""] + Split(s[1..], sep)
    else var r := Split(s[1..], sep); [[s[0]] + r[0]] + r[1..]
  }

  function Join(p: Path, sep: char): string {
    if |p| == 0 then "" else if |p| == 1 then p[0] else p[0] + [sep] + Join(p[1..], sep)
  }

  lemma {:induction false} SplitHead(a: string, rest: string, sep: char)
    requires sep !in a
    ensures Split(a, sep) == [a]
    ensures Split(a + [sep] + rest, sep) == [a] + Split(rest, sep)
  {
    var s := a + [sep] + rest;
    if a == "" {
      assert s[1..] == rest;
    } else {
      SplitHead(a[1..], rest, sep);
      assert s[1..] == a[1..] + [sep] + rest;
      assert a == [a[0]] + a[1..];
    }
  }

  lemma {:induction false} SplitJoin(p: Path, sep: char)
    requires |p| > 0 && forall i :: 0 <= i < |p| ==> sep !in p[i]
    ensures Split(Join(p, sep), sep) == p
  {
    if |p| == 1 {
      SplitHead(p[0], "", sep);
    } else {
      SplitJoin(p[1..], sep);
      SplitHead(p[0], Join(p[1..], sep), sep);
    }
  }

  /** Drops the empty and `.` components, as `pathlib` does when it parses a path. */
  function DropDots(p: Path): (r: Path)
    ensures forall c :: c in r <==> c in p && c != "" && c != "."
  {
    if p == [] then []
    else (if p[0] == "" || p[0] == "." then [] else [p[0]]) + DropDots(p[1..])
  }

  /** `PurePosixPath(s).parts` without the root marker. */
  function Parts(s: string): (r: Path)
    ensures forall c :: c in r ==> c != "" && c != "." && '/' !in c
  {
    DropDots(Split(s, '/'))
  }

  /** `as_posix()` of a relative path given by its components. */
  function Posix(p: Path): string { Join(p, '/') }

  predicate Absolute(s: string) { s != "" && s[0] == '/' }

  /** `Path(s).name`. */
  function LeafName(s: string): string {
    var p := Parts(s); if p == [] then "" else p[|p| - 1]
  }

  /** A component a directory listing can produce. */
  predicate GoodName(c: string) { c != "" && c != "." && c != ".." && '/' !in c && '\0' !in c }

  predicate GoodPath(p: Path) { p != [] && forall i :: 0 <= i < |p| ==> GoodName(p[i]) }

  lemma {:induction false} DropDotsId(p: Path)
    requires forall i :: 0 <= i < |p| ==> p[i] != "" && p[i] != "."
    ensures DropDots(p) == p
  {
    if p != [] { DropDotsId(p[1..]); }
  }

  lemma PartsOfPosix(p: Path)
    requires GoodPath(p)
    ensures Parts(Posix(p)) == p
    ensures !Absolute(Posix(p))
  {
    SplitJoin(p, '/');
    DropDotsId(p);
    assert p[0][0] != '/' by { assert GoodName(p[0]); }
  }

  lemma {:induction false} JoinFree(p: Path, sep: char, bad: char)
    requires sep != bad && forall i :: 0 <= i < |p| ==> bad !in p[i]
    ensures bad !in Join(p, sep)
  {
    if |p| > 1 { JoinFree(p[1..], sep, bad); }
  }

  /** `b` is `a` or lies under it, both given as path strings. */
  predicate Under(a: string, b: string) { b == a || a + "/" <= b }

  /** The components of `a` are the first ones of `b`. */
  predicate FirstOf(a: Path, b: Path) { |a| <= |b| && b[..|a|] == a }

  lemma {:induction false} JoinPrefix(a: Path, b: Path)
    requires GoodPath(a) && GoodPath(b)
    ensures Under(Posix(a), Posix(b)) <==> FirstOf(a, b)
  {
    if Under(Posix(a), Posix(b)) {
      PartsOfPosix(a);
      PartsOfPosix(b);
      if Posix(a) != Posix(b) {
        var rest := Posix(b)[|Posix(a)| + 1..];
        assert Posix(b) == Posix(a) + ['/'] + rest;
        SplitConcat(Posix(a), rest, '/');
        SplitJoin(a, '/');
        SplitJoin(b, '/');
      }
    }
    if FirstOf(a, b) {
      if |a| == |b| {
        assert a == b;
      } else {
        JoinConcat(a, b[|a|..], '/');
        assert b == a + b[|a|..];
      }
    }
  }

  lemma {:induction false} SplitConcat(a: string, rest: string, sep: char)
    ensures Split(a + [sep] + rest, sep) == Split(a, sep) + Split(rest, sep)
  {
    hide Split;
    var s := a + [sep] + rest;
    SplitStep(s, sep);
    if a == "" {
      SplitNone(sep);
      assert s[0] == sep && s[1..] == rest;
    } else {
      SplitConcat(a[1..], rest, sep);
      assert s[0] == a[0] && s[1..] == a[1..] + [sep] + rest;
      SplitStep(a, sep);
      Glue(a[0], Split(a[1..], sep), Split(rest, sep));
    }
  }

  lemma SplitNone(sep: char)
    ensures Split("", sep) == [""]
  {}

  lemma Glue(c: char, q: seq<string>, r: seq<string>)
    requires q != []
    ensures [[c] + (q + r)[0]] + (q + r)[1..] == [[c] + q[0]] + q[1..] + r
    ensures [""] + (q + r) == [""] + q + r
  {
    assert (q + r)[1..] == q[1..] + r;
  }

  lemma SplitStep(s: string, sep: char)
    requires s != ""
    ensures var r := Split(s[1..], sep);
            Split(s, sep) == if s[0] == sep then [""] + r else [[s[0]] + r[0]] + r[1..]
  {}

  lemma {:induction false} JoinConcat(a: Path, b: Path, sep: char)
    requires a != [] && b != []
    ensures Join(a + b, sep) == Join(a, sep) + [sep] + Join(b, sep)
  {
    if |a| == 1 {
      assert (a + b)[1..] == b;
    } else {
      assert (a + b)[1..] == a[1..] + b;
      JoinConcat(a[1..], b, sep);
    }
  }

  /** One absolute path lies at or under another exactly when its components begin with the other's. */
  lemma UnderIsAncestor(a: Path, b: Path)
    requires GoodPath(a) && GoodPath(b)
    ensures Under("/" + Posix(a), "/" + Posix(b)) <==> FirstOf(a, b)
  {
    JoinPrefix(a, b);
    var x, y := "/" + Posix(a), "/" + Posix(b);
    assert x[1..] == Posix(a) && y[1..] == Posix(b);
    assert x + "/" == "/" + (Posix(a) + "/");
    assert (x + "/")[1..] == Posix(a) + "/";
  }

  /** The leaf of a path is its last component. */
  lemma LeafOfPosix(p: Path)
    requires GoodPath(p)
    ensures LeafName(Posix(p)) == p[|p| - 1] && LeafName("/" + Posix(p)) == p[|p| - 1]
  {
    PartsOfPosix(p);
    SplitJoin(p, '/');
    assert ("/" + Posix(p))[1..] == Posix(p);
    assert Split("/" + Posix(p), '/') == [""] + p;
    assert ([""] + p)[1..] == p;
    DropDotsId(p);
  }
}
