/**
 File trees as the staging directory and the cached layers hold them: directories,
 regular files and symbolic links, keyed by their path components from the root.
 */
module Trees {
  import opened PosixPaths
  import opened Json

  /** A regular file's bytes: a JSON document (with its layout), or anything else. */
  datatype Content = JsonText(value: Json, layout: nat) | Bytes(data: string)

  datatype Node = Dir | File(content: Content) | Link(target: string)

  type Tree = map<Path, Node>

  predicate AtOrAbove(q: Path, p: Path) { |q| <= |p| && q == p[..|q|] }

  predicate Above(q: Path, p: Path) { |q| < |p| && AtOrAbove(q, p) }

  lemma AboveTransitive(a: Path, b: Path, c: Path)
    requires AtOrAbove(a, b) && AtOrAbove(b, c)
    ensures AtOrAbove(a, c)
    ensures |a| < |c| ==> Above(a, c)
  {
    assert c[..|b|][..|a|] == c[..|a|];
  }

  /** A root directory, and every entry inside directories only. */
  ghost predicate IsTree(t: Tree) {
    && [] in t && t[[]].Dir?
    && (forall p :: p in t && p != [] ==> GoodPath(p))
    && (forall p, q :: p in t && Above(q, p) ==> q in t && t[q].Dir?)
  }

  // ---------------------------------------------------------------- pure effects of file operations

  /** `t` without `p` and everything below it. */
  function Pruned(t: Tree, p: Path): Tree {
    map q | q in t && !AtOrAbove(p, q) :: t[q]
  }

  /** Some path of `cs` is `q` or lies above it. */
  predicate Covered(cs: set<Path>, q: Path) { exists c :: c in cs && AtOrAbove(c, q) }

  /** `q` is a path of `cs` or lies above one. */
  predicate OnSpine(cs: set<Path>, q: Path) { exists c :: c in cs && AtOrAbove(q, c) }

  /** `t` without any of `gone` and everything below them. */
  function Without(t: Tree, gone: set<Path>): Tree {
    map q | q in t && !Covered(gone, q) :: t[q]
  }

  function Spine(cs: set<Path>): (r: set<Path>)
    ensures forall q :: q in r <==> OnSpine(cs, q)
  {
    var r := set c, i | c in cs && 0 <= i <= |c| :: c[..i];
    assert forall q, c :: c in cs && AtOrAbove(q, c) ==> q == c[..|q|] && q in r;
    r
  }

  /** `t` with each path of `cs` replaced by the node of `src` there, missing ancestors made. */
  function Overlay(t: Tree, src: Tree, cs: set<Path>): Tree {
    map q | q in t.Keys + Spine(cs) && (OnSpine(cs, q) || !Covered(cs, q)) ::
      if q in cs * src.Keys then src[q] else if OnSpine(cs, q) then Dir else t[q]
  }

  /** No entry that is not a directory lies above `p`. */
  ghost predicate Clear(t: Tree, p: Path) {
    forall q :: q in t && Above(q, p) ==> t[q].Dir?
  }

  ghost predicate PrefixFree(cs: set<Path>) {
    forall a, b :: a in cs && b in cs ==> !Above(a, b)
  }

  lemma WithoutNone(t: Tree)
    ensures Without(t, {}) == t
  {}

  lemma CoveredStep(cs: set<Path>, p: Path, q: Path)
    ensures Covered(cs + {p}, q) <==> Covered(cs, q) || AtOrAbove(p, q)
    ensures OnSpine(cs + {p}, q) <==> OnSpine(cs, q) || AtOrAbove(q, p)
  {
    if Covered(cs, q) { var c :| c in cs && AtOrAbove(c, q); assert c in cs + {p}; }
    if OnSpine(cs, q) { var c :| c in cs && AtOrAbove(q, c); assert c in cs + {p}; }
    assert p in cs + {p};
  }

  lemma WithoutStep(t: Tree, gone: set<Path>, p: Path)
    ensures Pruned(Without(t, gone), p) == Without(t, gone + {p})
  {
    forall q ensures Covered(gone + {p}, q) <==> Covered(gone, q) || AtOrAbove(p, q) { CoveredStep(gone, p, q); }
  }

  lemma OverlayNone(t: Tree, src: Tree)
    ensures Overlay(t, src, {}) == t
  {}

  /** `t` with one entry put at `p`, its ancestors made, whatever was at or below `p` gone. */
  function Planted(t: Tree, p: Path, node: Node): Tree {
    map q | q in t.Keys + Spine({p}) && (AtOrAbove(q, p) || !AtOrAbove(p, q)) ::
      if q == p then node else if AtOrAbove(q, p) then Dir else t[q]
  }

  lemma OverlayAt(t: Tree, src: Tree, cs: set<Path>, q: Path)
    requires cs <= src.Keys
    ensures q in Overlay(t, src, cs) <==> OnSpine(cs, q) || (q in t && !Covered(cs, q))
    ensures q in Overlay(t, src, cs) ==>
              Overlay(t, src, cs)[q] == if q in cs then src[q] else if OnSpine(cs, q) then Dir else t[q]
  {}

  lemma PlantedAt(t: Tree, p: Path, node: Node, q: Path)
    ensures q in Planted(t, p, node) <==> AtOrAbove(q, p) || (q in t && !AtOrAbove(p, q))
    ensures q in Planted(t, p, node) ==>
              Planted(t, p, node)[q] == if q == p then node else if AtOrAbove(q, p) then Dir else t[q]
  {
    CoveredStep({}, p, q);
    assert {} + {p} == {p};
  }

  lemma OverlayStepAt(t: Tree, src: Tree, cs: set<Path>, p: Path, q: Path)
    requires cs + {p} <= src.Keys && PrefixFree(cs + {p})
    ensures var l, r := Overlay(t, src, cs + {p}), Planted(Overlay(t, src, cs), p, src[p]);
            (q in l <==> q in r) && (q in l ==> l[q] == r[q])
  {
    hide Overlay, Planted, Covered;
    OverlayAt(t, src, cs + {p}, q);
    OverlayAt(t, src, cs, q);
    PlantedAt(Overlay(t, src, cs), p, src[p], q);
    CoveredStep(cs, p, q);
    if OnSpine(cs, q) && AtOrAbove(p, q) {
      var c :| c in cs && AtOrAbove(q, c);
      AboveTransitive(p, q, c);
      assert p in cs + {p} && c in cs + {p};
      assert p == c == q;
    }
    if q in cs && AtOrAbove(q, p) {
      assert p in cs + {p} && q in cs + {p};
      assert q == p;
    }
  }

  /** Copying one more entry extends a partly finished overlay. */
  lemma OverlayStep(t: Tree, src: Tree, cs: set<Path>, p: Path)
    requires cs + {p} <= src.Keys && PrefixFree(cs + {p})
    ensures Planted(Overlay(t, src, cs), p, src[p]) == Overlay(t, src, cs + {p})
  {
    var l, r := Overlay(t, src, cs + {p}), Planted(Overlay(t, src, cs), p, src[p]);
    forall q ensures (q in l <==> q in r) && (q in l ==> l[q] == r[q]) {
      OverlayStepAt(t, src, cs, p, q);
    }
  }

  lemma WithoutIsTree(t: Tree, gone: set<Path>)
    requires IsTree(t) && [] !in gone
    ensures IsTree(Without(t, gone))
  {
    var w := Without(t, gone);
    assert !Covered(gone, []);
    forall p, q | p in w && Above(q, p) ensures q in w && w[q].Dir? {
      if Covered(gone, q) {
        var g :| g in gone && AtOrAbove(g, q);
        AboveTransitive(g, q, p);
        assert Covered(gone, p);
      }
    }
  }

  lemma OverlayIsTree(t: Tree, src: Tree, cs: set<Path>)
    requires IsTree(t) && cs <= src.Keys && PrefixFree(cs)
    requires forall c :: c in cs ==> GoodPath(c) && Clear(t, c)
    ensures IsTree(Overlay(t, src, cs))
  {
    var r := Overlay(t, src, cs);
    assert !Covered(cs, []) by { assert forall c :: c in cs && AtOrAbove(c, []) ==> c == []; }
    forall p | p in r && p != [] ensures GoodPath(p) {
      if OnSpine(cs, p) {
        var c :| c in cs && AtOrAbove(p, c);
        assert GoodPath(c);
        assert forall i :: 0 <= i < |p| ==> p[i] == c[i];
      }
    }
    forall p, q | p in r && Above(q, p) ensures q in r && r[q].Dir? {
      if OnSpine(cs, p) {
        var c :| c in cs && AtOrAbove(p, c);
        AboveTransitive(q, p, c);
        assert q !in cs;
      } else {
        if Covered(cs, q) {
          var c :| c in cs && AtOrAbove(c, q);
          AboveTransitive(c, q, p);
          assert Covered(cs, p);
        }
        assert q in cs ==> Covered(cs, p);
      }
    }
    assert [] in r && r[[]].Dir? by { OverlayAt(t, src, cs, []); assert [] !in cs; }
  }

  // ---------------------------------------------------------------- replaying a difference

  /** `p` is a file or link of `t`: what an inventory lists. */
  predicate Lists(t: Tree, p: Path) { p in t && !t[p].Dir? }

  /** `changed` and `removed` lead from the files and links of `t` to those of `t1`. */
  ghost predicate Leads(t: Tree, t1: Tree, changed: set<Path>, removed: set<Path>) {
    && (forall p :: p in changed ==> Lists(t1, p))
    && (forall p :: p in removed <==> Lists(t, p) && !Lists(t1, p))
    && (forall p :: Lists(t1, p) && p !in changed ==> Lists(t, p))
  }

  /** Nothing listed lies above something listed. */
  lemma ListedPrefixFree(t: Tree, q: Path, p: Path)
    requires IsTree(t) && Lists(t, p) && AtOrAbove(q, p)
    ensures q == p || !Lists(t, q)
  {}

  lemma LeadsClear(t: Tree, t1: Tree, changed: set<Path>, removed: set<Path>)
    requires IsTree(t) && IsTree(t1) && Leads(t, t1, changed, removed)
    ensures PrefixFree(changed)
    ensures forall r :: r in removed ==> GoodPath(r) && Clear(t, r)
    ensures forall c :: c in changed ==> GoodPath(c) && Clear(Without(t, removed), c)
  {
    var w := Without(t, removed);
    forall c, q | c in changed && q in w && Above(q, c) ensures w[q].Dir? {
      if Lists(t, q) {
        ListedPrefixFree(t1, q, c);
        assert AtOrAbove(q, q);
      }
    }
    forall x, y | x in changed && y in changed ensures !Above(x, y) {
      if Above(x, y) { ListedPrefixFree(t1, x, y); }
    }
  }

  /** An entry that neither changed nor went away is still there, untouched. */
  lemma UntouchedSurvives(t: Tree, t1: Tree, changed: set<Path>, removed: set<Path>, p: Path)
    requires IsTree(t) && IsTree(t1) && Leads(t, t1, changed, removed)
    requires Lists(t1, p) && p !in changed
    ensures !Covered(removed, p) && !Covered(changed, p) && !OnSpine(changed, p)
  {
    if Covered(removed, p) {
      var g :| g in removed && AtOrAbove(g, p);
      ListedPrefixFree(t, g, p);
    }
    if Covered(changed, p) {
      var c :| c in changed && AtOrAbove(c, p);
      ListedPrefixFree(t1, c, p);
    }
    if OnSpine(changed, p) {
      var c :| c in changed && AtOrAbove(p, c);
      ListedPrefixFree(t1, p, c);
    }
  }

  /**
   The heart of the round trip: whatever directories `t` has, replaying the difference lists
   exactly the paths of `t1`, with the recorded node where one changed and the old one elsewhere.
   */
  lemma ReplayAt(t: Tree, t1: Tree, src: Tree, changed: set<Path>, removed: set<Path>, p: Path)
    requires IsTree(t) && IsTree(t1) && Leads(t, t1, changed, removed)
    requires changed <= src.Keys && forall c :: c in changed ==> src[c] == t1[c]
    ensures var r := Overlay(Without(t, removed), src, changed);
            (Lists(r, p) <==> Lists(t1, p)) && (Lists(t1, p) ==> r[p] == if p in changed then t1[p] else t[p])
  {
    var w := Without(t, removed);
    OverlayAt(w, src, changed, p);
    assert p in w <==> p in t && !Covered(removed, p);
    hide Overlay, IsTree, Without;
    if p in changed {
      assert AtOrAbove(p, p);
      assert OnSpine(changed, p);
    } else if Lists(t1, p) {
      UntouchedSurvives(t, t1, changed, removed, p);
    } else if p in removed {
      assert AtOrAbove(p, p);
      assert Covered(removed, p);
    }
  }

  /** What is in the way of one copy does not depend on the copies made before it. */
  lemma OverlayClear(t: Tree, src: Tree, cs: set<Path>, p: Path)
    requires cs <= src.Keys && PrefixFree(cs + {p})
    requires forall c :: c in cs ==> Clear(t, c)
    ensures Clear(Overlay(t, src, cs), p) <==> Clear(t, p)
  {
    var m := Overlay(t, src, cs);
    forall q | Above(q, p) ensures q in t && !t[q].Dir? <==> q in m && !m[q].Dir? {
      OverlayAt(t, src, cs, q);
      assert p in cs + {p} && cs <= cs + {p};
      if Covered(cs, q) {
        var c :| c in cs && AtOrAbove(c, q);
        AboveTransitive(c, q, p);
      }
      if OnSpine(cs, q) {
        var c :| c in cs && AtOrAbove(q, c);
        assert Clear(t, c);
      }
    }
  }
}
