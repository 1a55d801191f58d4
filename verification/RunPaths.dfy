/** Rewriting the run-path entries that a build left pointing at a temporary root. */
module RunPaths {
  import opened PosixPaths

  const LOADER_PATH := "@loader_path"

  predicate Distinct(s: seq<string>) { forall i, j :: 0 <= i < j < |s| ==> s[i] != s[j] }

  function Entries(s: seq<string>): set<string> { set i | 0 <= i < |s| :: s[i] }

  /** An entry at or below one of the spellings of the old root. */
  predicate Stale(olds: seq<string>, value: string) { exists i :: 0 <= i < |olds| && Under(olds[i], value) }

  /** The first spelling, in the set's iteration order, that the entry lies under. */
  function MatchedOld(olds: seq<string>, value: string): (r: string)
    requires Stale(olds, value)
    ensures r in olds && Under(r, value)
  {
    if Under(olds[0], value) then olds[0] else MatchedOld(olds[1..], value)
  }

  /** Where a stale entry moves: below the new root, or beside the file itself. */
  function Mapped(olds: seq<string>, newRoot: string, finalParent: string, value: string): string
    requires Stale(olds, value)
  {
    var moved := newRoot + value[|MatchedOld(olds, value)|..];
    if moved == finalParent then LOADER_PATH else moved
  }

  function StaleOf(olds: seq<string>, entries: set<string>): set<string> {
    set v | v in entries && Stale(olds, v)
  }

  function Images(olds: seq<string>, newRoot: string, finalParent: string, entries: set<string>): set<string> {
    set v | v in entries && Stale(olds, v) :: Mapped(olds, newRoot, finalParent, v)
  }

  /** The entries every order of the rewriting loop ends with, whatever the roots. */
  function Rewritten(olds: seq<string>, newRoot: string, finalParent: string, entries: set<string>): set<string> {
    var stale := StaleOf(olds, entries);
    (entries - stale) + (Images(olds, newRoot, finalParent, entries) - stale)
  }

  /** The load commands of one Mach-O file, as `install_name_tool` edits them. */
  class MachOFile {
    var rpaths: seq<string>

    constructor (entries: seq<string>)
      ensures rpaths == entries
    {
      rpaths := entries;
    }

    method FindRpath(value: string) returns (k: nat)
      requires value in rpaths
      ensures k < |rpaths| && rpaths[k] == value
    {
      k := 0;
      while rpaths[k] != value
        invariant k < |rpaths| && value in rpaths[k..]
        decreases |rpaths| - k
      {
        k := k + 1;
      }
    }

    /** `-delete_rpath`: the tool fails when the entry is not there. */
    method DeleteRpath(value: string)
      requires Distinct(rpaths) && value in rpaths
      modifies this
      ensures Distinct(rpaths) && Entries(rpaths) == Entries(old(rpaths)) - {value}
    {
      var k := FindRpath(value);
      ghost var was := rpaths;
      rpaths := rpaths[..k] + rpaths[k + 1..];
      forall x ensures x in Entries(rpaths) <==> x in Entries(was) - {value} {
        if x in Entries(was) - {value} {
          var i :| 0 <= i < |was| && was[i] == x;
          assert rpaths[if i < k then i else i - 1] == x;
        }
      }
    }

    /** `-rpath old new`: fails when `old` is missing or `new` already there. */
    method ChangeRpath(value: string, newValue: string)
      requires Distinct(rpaths) && value in rpaths && newValue !in rpaths
      modifies this
      ensures Distinct(rpaths) && Entries(rpaths) == Entries(old(rpaths)) - {value} + {newValue}
    {
      var k := FindRpath(value);
      ghost var was := rpaths;
      rpaths := rpaths[k := newValue];
      forall x ensures x in Entries(rpaths) <==> x in Entries(was) - {value} + {newValue} {
        if x in Entries(was) - {value} {
          var i :| 0 <= i < |was| && was[i] == x;
          assert rpaths[i] == x;
        }
        if x == newValue { assert rpaths[k] == x; }
      }
    }

    /**
     The body of `rewrite_stale_macho_rpaths` for one file, entries taken in any order. Every tool
     call meets its own requirement, no two entries end up equal, and the outcome is the same
     for every order.
     */
    method RewriteStale(olds: seq<string>, newRoot: string, finalParent: string)
      requires Distinct(rpaths)
      modifies this
      ensures Distinct(rpaths)
      ensures Entries(rpaths) == Rewritten(olds, newRoot, finalParent, Entries(old(rpaths)))
    {
      hide Stale, Mapped;
      ghost var e0 := Entries(rpaths);
      var existing := Entries(rpaths);
      var todo := existing;
      ghost var done: set<string> := {};
      while todo != {}
        invariant todo !! done && todo + done == e0 && Distinct(rpaths)
        invariant existing == e0 + Images(olds, newRoot, finalParent, done)
        invariant Entries(rpaths) == (e0 - StaleOf(olds, done)) + (Images(olds, newRoot, finalParent, done) - e0)
      {
        var value :| value in todo;
        todo, done := todo - {value}, done + {value};
        if Stale(olds, value) {
          var newValue := Mapped(olds, newRoot, finalParent, value);
          ImagesStep(olds, newRoot, finalParent, done - {value}, value);
          assert value in Entries(rpaths);
          if newValue in existing {
            DeleteRpath(value);
          } else {
            assert newValue !in Entries(rpaths);
            ChangeRpath(value, newValue);
            existing := existing + {newValue};
          }
        } else {
          NoImage(olds, newRoot, finalParent, done - {value}, value);
        }
        assert done - {value} + {value} == done;
      }
      assert done == e0;
    }
  }

  lemma ImagesStep(olds: seq<string>, newRoot: string, finalParent: string, done: set<string>, value: string)
    requires Stale(olds, value)
    ensures Images(olds, newRoot, finalParent, done + {value})
         == Images(olds, newRoot, finalParent, done) + {Mapped(olds, newRoot, finalParent, value)}
    ensures StaleOf(olds, done + {value}) == StaleOf(olds, done) + {value}
  {
    hide Mapped, Stale;
    var m := Mapped(olds, newRoot, finalParent, value);
    forall x ensures x in Images(olds, newRoot, finalParent, done + {value})
                <==> x in Images(olds, newRoot, finalParent, done) + {m} {
      if x == m { assert value in done + {value}; }
      if x in Images(olds, newRoot, finalParent, done) {
        var v :| v in done && Stale(olds, v) && Mapped(olds, newRoot, finalParent, v) == x;
        assert v in done + {value};
      }
    }
  }

  lemma NoImage(olds: seq<string>, newRoot: string, finalParent: string, done: set<string>, value: string)
    requires !Stale(olds, value)
    ensures Images(olds, newRoot, finalParent, done + {value}) == Images(olds, newRoot, finalParent, done)
    ensures StaleOf(olds, done + {value}) == StaleOf(olds, done)
  {
    hide Mapped, Stale;
    forall x ensures x in Images(olds, newRoot, finalParent, done + {value})
                <==> x in Images(olds, newRoot, finalParent, done) {
      if x in Images(olds, newRoot, finalParent, done) {
        var v :| v in done && Stale(olds, v) && Mapped(olds, newRoot, finalParent, v) == x;
        assert v in done + {value};
      }
    }
  }

  predicate Unrelated(a: string, b: string) { !Under(a, b) && !Under(b, a) }

  /** Absolute old spellings, none of them above or below the new root. */
  ghost predicate RootsUnrelated(olds: seq<string>, newRoot: string) {
    forall i :: 0 <= i < |olds| ==> Absolute(olds[i]) && Unrelated(olds[i], newRoot)
  }

  lemma PrefixesRelate(a: string, b: string, suffix: string)
    requires Under(a, b + suffix) && (suffix == "" || suffix[0] == '/')
    ensures !Unrelated(a, b)
  {
    var v := b + suffix;
    if |a| <= |b| {
      assert a == v[..|a|] == b[..|a|];
      if |a| < |b| { assert (a + "/") <= v; assert v[|a|] == '/'; assert b[|a|] == '/'; }
    } else {
      assert b == v[..|b|] == a[..|b|];
      assert a[|b|] == v[|b|] == '/';
    }
  }

  /** With unrelated roots no entry moves onto, or below, the old root. */
  lemma UnrelatedImages(olds: seq<string>, newRoot: string, finalParent: string, value: string)
    requires RootsUnrelated(olds, newRoot) && Stale(olds, value)
    ensures !Stale(olds, Mapped(olds, newRoot, finalParent, value))
  {
    var o := MatchedOld(olds, value);
    var suffix := value[|o|..];
    assert suffix == "" || suffix[0] == '/';
    forall i | 0 <= i < |olds| ensures !Under(olds[i], Mapped(olds, newRoot, finalParent, value)) {
      if Under(olds[i], newRoot + suffix) { PrefixesRelate(olds[i], newRoot, suffix); }
      assert olds[i][0] == '/' && LOADER_PATH[0] == '@';
    }
  }

  /**
   The rewriting does its job between unrelated roots: live entries stay, stale ones arrive at
   their image, none is left stale, and a second pass has nothing to do.
   */
  lemma UnrelatedRootsRewritten(olds: seq<string>, newRoot: string, finalParent: string, entries: set<string>)
    requires RootsUnrelated(olds, newRoot)
    ensures var r := Rewritten(olds, newRoot, finalParent, entries);
            && r == (entries - StaleOf(olds, entries)) + Images(olds, newRoot, finalParent, entries)
            && StaleOf(olds, r) == {}
            && Rewritten(olds, newRoot, finalParent, r) == r
  {
    var images := Images(olds, newRoot, finalParent, entries);
    forall x | x in images ensures !Stale(olds, x) {
      var v :| v in entries && Stale(olds, v) && Mapped(olds, newRoot, finalParent, v) == x;
      UnrelatedImages(olds, newRoot, finalParent, v);
    }
    hide Stale, Mapped;
  }

  /** What the rewriting is for: every live entry kept and every stale one at its image. */
  predicate Complete(olds: seq<string>, newRoot: string, finalParent: string, entries: set<string>) {
    Rewritten(olds, newRoot, finalParent, entries)
    == (entries - StaleOf(olds, entries)) + Images(olds, newRoot, finalParent, entries)
  }

  ghost predicate Spellings(olds: seq<string>) {
    && (forall i :: 0 <= i < |olds| ==> Absolute(olds[i]))
    && forall a, b :: a in olds && b in olds && a != b ==> Unrelated(a, b)
  }

  /** An entry under one spelling is matched by that one. */
  lemma OnlyMatch(olds: seq<string>, o: string, suffix: string)
    requires Spellings(olds) && o in olds && (suffix == "" || suffix[0] == '/')
    ensures Stale(olds, o + suffix) && MatchedOld(olds, o + suffix) == o
  {
    var k :| 0 <= k < |olds| && olds[k] == o;
    assert Under(olds[k], o + suffix);
    PrefixesRelate(MatchedOld(olds, o + suffix), o, suffix);
  }

  /** A stale entry that moves onto another stale one is lost. */
  lemma LostImage(olds: seq<string>, newRoot: string, finalParent: string, entries: set<string>, v: string, w: string)
    requires v in entries && w in entries && Stale(olds, v) && Stale(olds, w)
    requires Mapped(olds, newRoot, finalParent, v) == w
    ensures !Complete(olds, newRoot, finalParent, entries)
  {
    hide Stale, Mapped;
    assert w in Images(olds, newRoot, finalParent, entries);
    assert w !in Rewritten(olds, newRoot, finalParent, entries);
  }

  /** `Path(root) / rel`. */
  function Below(root: string, rel: Path): string { (if root == "/" then "" else root) + "/" + Posix(rel) }

  /** The directory some file is published into: the new root or one below it. */
  ghost predicate FileParent(newRoot: string, finalParent: string) {
    finalParent == newRoot || exists rel :: GoodPath(rel) && finalParent == Below(newRoot, rel)
  }

  /** With the new root at or below a spelling: in a subdirectory, the root's own entry moves onto a stale one. */
  lemma NewRootBelow(olds: seq<string>, newRoot: string, o: string) returns (finalParent: string, entries: set<string>)
    requires Spellings(olds) && o in olds && Under(o, newRoot)
    ensures FileParent(newRoot, finalParent) && !Complete(olds, newRoot, finalParent, entries)
  {
    var suffix := newRoot[|o|..];
    assert newRoot == o + suffix && o == o + "";
    OnlyMatch(olds, o, "");
    OnlyMatch(olds, o, suffix);
    assert o[|o|..] == "" && newRoot + "" == newRoot;
    assert GoodName("lib") && GoodPath(["lib"]) && Posix(["lib"]) == "lib";
    finalParent, entries := Below(newRoot, ["lib"]), {o, newRoot};
    assert |finalParent| != |newRoot|;
    LostImage(olds, newRoot, finalParent, entries, o, newRoot);
  }

  /** With the new root above a spelling: at the root itself, an entry below the old one moves onto it. */
  lemma NewRootAbove(olds: seq<string>, newRoot: string, o: string) returns (finalParent: string, entries: set<string>)
    requires Spellings(olds) && o in olds && Under(newRoot, o) && newRoot != o
    ensures FileParent(newRoot, finalParent) && !Complete(olds, newRoot, finalParent, entries)
  {
    var suffix := o[|newRoot|..];
    assert o == newRoot + suffix && o == o + "";
    assert suffix == "" || suffix[0] == '/';
    OnlyMatch(olds, o, "");
    OnlyMatch(olds, o, suffix);
    assert (o + suffix)[|o|..] == suffix;
    finalParent, entries := newRoot, {o + suffix, o};
    LostImage(olds, newRoot, finalParent, entries, o + suffix, o);
  }

  /**
   Exactly when the rewriting does its job on every file that can be published: no spelling of the
   old root is the new root, lies above it or below it.
   */
  lemma CompleteIffUnrelated(olds: seq<string>, newRoot: string)
    requires Spellings(olds)
    ensures (forall finalParent, entries :: FileParent(newRoot, finalParent) ==> Complete(olds, newRoot, finalParent,
        entries))
       <==> RootsUnrelated(olds, newRoot)
  {
    hide Complete, Spellings, Under, RootsUnrelated, FileParent;
    if RootsUnrelated(olds, newRoot) {
      forall finalParent, entries | FileParent(newRoot, finalParent)
        ensures Complete(olds, newRoot, finalParent, entries)
      {
        UnrelatedComplete(olds, newRoot, finalParent, entries);
      }
    } else {
      var o := RelatedSpelling(olds, newRoot);
      var finalParent, entries;
      if Under(o, newRoot) { finalParent, entries := NewRootBelow(olds, newRoot, o); }
      else { finalParent, entries := NewRootAbove(olds, newRoot, o); }
    }
  }

  lemma UnrelatedComplete(olds: seq<string>, newRoot: string, finalParent: string, entries: set<string>)
    requires RootsUnrelated(olds, newRoot)
    ensures Complete(olds, newRoot, finalParent, entries)
  {
    hide Rewritten, StaleOf, Images, RootsUnrelated;
    UnrelatedRootsRewritten(olds, newRoot, finalParent, entries);
  }

  lemma RelatedSpelling(olds: seq<string>, newRoot: string) returns (o: string)
    requires Spellings(olds) && !RootsUnrelated(olds, newRoot)
    ensures o in olds && (Under(o, newRoot) || (Under(newRoot, o) && newRoot != o))
  {
    var i :| 0 <= i < |olds| && !Unrelated(olds[i], newRoot);
    o := olds[i];
  }

  /** With spellings unrelated to one another, their iteration order does not matter either. */
  lemma SpellingOrderIrrelevant(olds: seq<string>, other: seq<string>, newRoot: string, finalParent: string,
                                value: string)
    requires forall a, b :: a in olds && b in olds && a != b ==> Unrelated(a, b)
    requires forall o :: o in olds <==> o in other
    ensures Stale(olds, value) <==> Stale(other, value)
    ensures Stale(olds, value) ==>
              Mapped(olds, newRoot, finalParent, value) == Mapped(other, newRoot, finalParent, value)
  {
    forall i | 0 <= i < |olds| && Under(olds[i], value) ensures Stale(other, value) {
      assert olds[i] in other;
      var j :| 0 <= j < |other| && other[j] == olds[i];
    }
    forall j | 0 <= j < |other| && Under(other[j], value) ensures Stale(olds, value) {
      assert other[j] in olds;
      var i :| 0 <= i < |olds| && olds[i] == other[j];
    }
    if Stale(olds, value) {
      var a, b := MatchedOld(olds, value), MatchedOld(other, value);
      if a != b {
        var suffix := value[|b|..];
        assert value == b + suffix;
        PrefixesRelate(a, b, suffix);
      }
    }
  }

  lemma SpellingOrderRewritten(olds: seq<string>, other: seq<string>, newRoot: string, finalParent: string,
                               entries: set<string>)
    requires forall a, b :: a in olds && b in olds && a != b ==> Unrelated(a, b)
    requires forall o :: o in olds <==> o in other
    ensures Rewritten(olds, newRoot, finalParent, entries) == Rewritten(other, newRoot, finalParent, entries)
  {
    forall v ensures Stale(olds, v) <==> Stale(other, v)
             ensures Stale(olds, v) ==>
                       Mapped(olds, newRoot, finalParent, v) == Mapped(other, newRoot, finalParent, v)
    {
      SpellingOrderIrrelevant(olds, other, newRoot, finalParent, v);
    }
    hide Stale, Mapped;
    assert StaleOf(olds, entries) == StaleOf(other, entries);
    assert Images(olds, newRoot, finalParent, entries) == Images(other, newRoot, finalParent, entries);
  }

  /**
   Rewriting a tree in place, old and new root equal: an entry for the file's own directory
   becomes `@loader_path`, every other entry under the root is deleted, nothing stale stays.
   */
  lemma EqualRootsRewritten(root: string, finalParent: string, entries: set<string>)
    requires Absolute(root)
    ensures Rewritten([root], root, finalParent, entries)
         == (entries - StaleOf([root], entries))
          + (if finalParent in StaleOf([root], entries) then {LOADER_PATH} else {})
  {
    var stale, images := StaleOf([root], entries), Images([root], root, finalParent, entries);
    forall v | v in stale
      ensures Mapped([root], root, finalParent, v) == if v == finalParent then LOADER_PATH else v
    {
      assert Under(root, v) && v == root + v[|root|..];
    }
    assert !Stale([root], LOADER_PATH) by { assert root[0] == '/' && LOADER_PATH[0] == '@'; }
    assert forall x :: x in images - stale ==> x == LOADER_PATH;
    if finalParent in stale { assert LOADER_PATH in images; }
  }

  /** Nested roots defeat it: the first entry moves onto the other stale one, and its image is lost. */
  lemma NestedRootsLoseEntries()
    ensures FileParent("/n", "/n/bin")
    ensures var entries := {"/n/x/x/lib", "/n/x/lib"};
            var r := Rewritten(["/n/x"], "/n", "/n/bin", entries);
            && Images(["/n/x"], "/n", "/n/bin", entries) == {"/n/x/lib", "/n/lib"}
            && r == {"/n/lib"}
  {
    hide *;
    NestedNames();
    OneImage("/n/x", "/n", "/n/bin", "/x/lib");
    OneImage("/n/x", "/n", "/n/bin", "/lib");
    LostOnTheWay(["/n/x"], "/n", "/n/bin", "/n/x/x/lib", "/n/x/lib", "/n/lib");
  }

  lemma NestedNames()
    ensures FileParent("/n", "/n/bin")
    ensures "/n/x" + "/x/lib" == "/n/x/x/lib" && "/n/x" + "/lib" == "/n/x/lib"
    ensures "/n" + "/x/lib" == "/n/x/lib" && "/n" + "/lib" == "/n/lib"
    ensures "/n/lib" != "/n/x/x/lib" && "/n/lib" != "/n/x/lib"
    ensures "/n/lib" != "/n/bin" && "/n/x/lib" != "/n/bin" && "/x/lib"[0] == '/' && "/lib"[0] == '/'
  {
    assert |"/n/x/x/lib"| == 10 && |"/n/x/lib"| == 8 && |"/n/lib"| == 6 && "/n/bin"[3] != "/n/lib"[3];
    assert GoodName("bin") && GoodPath(["bin"]) && Posix(["bin"]) == "bin";
    assert Below("/n", ["bin"]) == "/n/bin" by { assert "/n" + "/" + "bin" == "/n/bin"; }
  }

  /** One stale entry moves onto another, which moves on: only the last place is left. */
  lemma LostOnTheWay(olds: seq<string>, newRoot: string, finalParent: string, a: string, b: string, c: string)
    requires Stale(olds, a) && Stale(olds, b) && c != a && c != b
    requires Mapped(olds, newRoot, finalParent, a) == b && Mapped(olds, newRoot, finalParent, b) == c
    ensures Images(olds, newRoot, finalParent, {a, b}) == {b, c}
    ensures Rewritten(olds, newRoot, finalParent, {a, b}) == {c}
  {
    hide Stale, Mapped;
    assert StaleOf(olds, {a, b}) == {a, b};
  }

  /** One entry under a single old root. */
  lemma OneImage(o: string, newRoot: string, finalParent: string, suffix: string)
    requires suffix != "" && suffix[0] == '/'
    ensures Stale([o], o + suffix)
    ensures Mapped([o], newRoot, finalParent, o + suffix)
         == if newRoot + suffix == finalParent then LOADER_PATH else newRoot + suffix
  {
    assert o + "/" <= o + suffix && [o][0] == o;
    assert Under(o, o + suffix) && (o + suffix)[|o|..] == suffix;
  }
}
