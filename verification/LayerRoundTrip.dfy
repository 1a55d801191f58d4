/** What capturing a layer and replaying it promise together. */
module LayerRoundTrip {
  import opened PosixPaths
  import opened Json
  import opened Trees
  import opened InstallLayer

  /** The delta a layer records for a build from `before` to `t1`. */
  ghost function Recorded(hash: Hash, t1: Tree, before: Inventory): Delta {
    DeltaOf(before, InventoryOf(hash, t1))
  }

  /** The names of `after`: with the new identity where the delta changed one, `base`'s elsewhere. */
  function Updated(base: Inventory, after: Inventory, d: Delta): Inventory {
    map s | s in after && (s in d.changed || s in base) :: if s in d.changed then after[s] else base[s]
  }

  /** Nodes of the captured tree stand unchanged in `src` at every changed path. */
  ghost predicate Carries(src: Tree, t1: Tree, d: Delta) {
    forall c :: c in PathsOf(d.changed.Keys) ==> c in t1 && c in src && src[c] == t1[c]
  }

  lemma CapturedCarries(hash: Hash, t1: Tree, before: Inventory)
    requires IsTree(t1) && MetadataNameFree(Recorded(hash, t1, before))
    ensures Carries(Captured(hash, t1, before), t1, Recorded(hash, t1, before))
  {
    var d := Recorded(hash, t1, before);
    CapturedPaths(hash, t1, before);
    assert forall c :: c in PathsOf(d.changed.Keys) ==> c != METADATA by { assert AtOrAbove(METADATA, METADATA); }
    OverlayCarries(EMPTY, t1, PathsOf(d.changed.Keys), METADATA, MetadataFile(d));
  }

  lemma OverlayCarries(t: Tree, src: Tree, cs: set<Path>, other: Path, node: Node)
    requires cs <= src.Keys && other !in cs
    ensures forall c :: c in cs ==>
              c in Overlay(t, src, cs)[other := node] && Overlay(t, src, cs)[other := node][c] == src[c]
  {
    forall c | c in cs ensures c in Overlay(t, src, cs) && Overlay(t, src, cs)[c] == src[c] {
      assert AtOrAbove(c, c);
      assert OnSpine(cs, c);
    }
  }

  /**
   Replaying a recorded build on any tree that lists the same names as the build's input.
   Names the build changed get the build's result, all others keep their own identity.
   */
  lemma ReplayInventory(hash: Hash, esc: Escapes, t: Tree, t1: Tree, before: Inventory, src: Tree)
    requires Resolver(esc) && IsTree(t) && IsTree(t1)
    requires before.Keys == InventoryOf(hash, t).Keys
    requires Carries(src, t1, Recorded(hash, t1, before))
    ensures PathsOf(Recorded(hash, t1, before).changed.Keys) <= src.Keys
    ensures Replayable(esc, t, Recorded(hash, t1, before))
    ensures IsTree(Replayed(t, src, Recorded(hash, t1, before)))
    ensures InventoryOf(hash, Replayed(t, src, Recorded(hash, t1, before)))
         == Updated(InventoryOf(hash, t), InventoryOf(hash, t1), Recorded(hash, t1, before))
  {
    var d := Recorded(hash, t1, before);
    var changed, removed := PathsOf(d.changed.Keys), RemovedPaths(d);
    DeltaLeads(hash, t, t1, before);
    LeadsClear(t, t1, changed, removed);
    RemovalsAreSafe(hash, esc, t, t1, before);
    WithoutIsTree(t, removed);
    assert changed <= src.Keys;
    OverlayIsTree(Without(t, removed), src, changed);
    ReplayedNames(hash, t, t1, before, src, d, Replayed(t, src, d));
  }

  lemma RemovalsAreSafe(hash: Hash, esc: Escapes, t: Tree, t1: Tree, before: Inventory)
    requires Resolver(esc) && IsTree(t) && IsTree(t1) && before.Keys == InventoryOf(hash, t).Keys
    ensures var d := Recorded(hash, t1, before);
            forall i :: 0 <= i < |d.removed| ==> SafeLayerPath(esc, Without(t, FirstRemoved(d, i)), d.removed[i])
  {
    var d := Recorded(hash, t1, before);
    ListedNames(hash, t);
    assert NamesOf(before.Keys, t);
    RemovedNames(before, InventoryOf(hash, t1));
    assert d == DeltaOf(before, InventoryOf(hash, t1));
    hide *;
    forall i | 0 <= i < |d.removed| ensures SafeLayerPath(esc, Without(t, FirstRemoved(d, i)), d.removed[i]) {
      NamedIn(before.Keys, t, d.removed[i]);
      RemovedNameIsSafe(esc, t, d.removed[i], FirstRemoved(d, i));
    }
  }

  lemma RemovedNames(before: Inventory, after: Inventory)
    ensures forall i :: 0 <= i < |DeltaOf(before, after).removed| ==> DeltaOf(before, after).removed[i] in before.Keys
  {
    var r := DeltaOf(before, after).removed;
    assert forall i :: 0 <= i < |r| ==> r[i] in r;
  }

  lemma NamedIn(names: set<string>, t: Tree, s: string)
    requires NamesOf(names, t) && s in names
    ensures Lists(t, Parts(s)) && Posix(Parts(s)) == s
  {}

  lemma RemovedNameIsSafe(esc: Escapes, t: Tree, s: string, gone: set<Path>)
    requires Resolver(esc) && IsTree(t) && Lists(t, Parts(s)) && Posix(Parts(s)) == s
    ensures SafeLayerPath(esc, Without(t, gone), s)
  {
    var p := Parts(s);
    PartsOfPosix(p);
    assert forall i :: 0 <= i < |p| ==> GoodName(p[i]);
    assert Clear(Without(t, gone), p);
    ClearIsSafe(esc, Without(t, gone), s);
  }

  lemma ReplayedNames(hash: Hash, t: Tree, t1: Tree, before: Inventory, src: Tree, d: Delta, r: Tree)
    requires IsTree(t) && IsTree(t1) && IsTree(r) && before.Keys == InventoryOf(hash, t).Keys
    requires d == Recorded(hash, t1, before) && Carries(src, t1, d)
    requires PathsOf(d.changed.Keys) <= src.Keys && r == Replayed(t, src, d)
    ensures InventoryOf(hash, r) == Updated(InventoryOf(hash, t), InventoryOf(hash, t1), d)
  {
    var inv := InventoryOf(hash, r);
    var u := Updated(InventoryOf(hash, t), InventoryOf(hash, t1), d);
    hide *;
    forall s ensures (s in inv <==> s in u) && (s in inv ==> inv[s] == u[s]) {
      ReplayedNameAt(hash, t, t1, before, src, d, r, s);
    }
  }

  lemma ReplayedNameAt(hash: Hash, t: Tree, t1: Tree, before: Inventory, src: Tree, d: Delta, r: Tree, s: string)
    requires IsTree(t) && IsTree(t1) && IsTree(r) && before.Keys == InventoryOf(hash, t).Keys
    requires d == Recorded(hash, t1, before) && Carries(src, t1, d)
    requires PathsOf(d.changed.Keys) <= src.Keys && r == Replayed(t, src, d)
    ensures var u := Updated(InventoryOf(hash, t), InventoryOf(hash, t1), d);
            && (s in InventoryOf(hash, r) <==> s in u)
            && (s in InventoryOf(hash, r) ==> InventoryOf(hash, r)[s] == u[s])
  {
    var changed, removed := PathsOf(d.changed.Keys), RemovedPaths(d);
    assert forall s :: s in InventoryOf(hash, t1) && s !in d.changed ==> s in before.Keys;
    DeltaLeads(hash, t, t1, before);
    ListedNames(hash, t);
    ListedNames(hash, t1);
    ListedNames(hash, r);
    ChangedNames(hash, t1, before, s);
    ReplayAt(t, t1, src, changed, removed, Parts(s));
    hide InventoryOf, Overlay, IsTree, Recorded, PathsOf, RemovedPaths, Without, Leads, Parts, Posix;
  }

  /** A name and its path are changed together. */
  lemma ChangedNames(hash: Hash, t1: Tree, before: Inventory, s: string)
    requires IsTree(t1)
    ensures var d := Recorded(hash, t1, before);
            s in InventoryOf(hash, t1) ==> (Parts(s) in PathsOf(d.changed.Keys) <==> s in d.changed)
  {
    ListedNames(hash, t1);
    var d := Recorded(hash, t1, before);
    if s in InventoryOf(hash, t1) && Parts(s) in PathsOf(d.changed.Keys) {
      var x :| x in d.changed && Parts(x) == Parts(s);
      assert x in InventoryOf(hash, t1);
    }
  }

  /**
   The round trip: the layer captured from `t1` against the inventory of `t0`, replayed on any
   tree with that inventory, gives exactly the inventory of `t1`. Files may have become
   directories or links and the reverse, and `t` may hold other empty directories than `t0`.
   */
  lemma LayerRoundTrip(hash: Hash, esc: Escapes, t: Tree, t0: Tree, t1: Tree)
    requires Resolver(esc) && IsTree(t) && IsTree(t0) && IsTree(t1)
    requires InventoryOf(hash, t) == InventoryOf(hash, t0)
    requires MetadataNameFree(Recorded(hash, t1, InventoryOf(hash, t0)))
    ensures var layer := Captured(hash, t1, InventoryOf(hash, t0));
            var d := Recorded(hash, t1, InventoryOf(hash, t0));
            && PathsOf(d.changed.Keys) <= layer.Keys
            && Replayable(esc, t, d)
            && IsTree(Replayed(t, layer, d))
            && InventoryOf(hash, Replayed(t, layer, d)) == InventoryOf(hash, t1)
  {
    var before, after := InventoryOf(hash, t0), InventoryOf(hash, t1);
    UpdatedSelf(before, after);
    assert Recorded(hash, t1, before) == DeltaOf(before, after);
    hide *;
    CapturedCarries(hash, t1, before);
    ReplayInventory(hash, esc, t, t1, before, Captured(hash, t1, before));
  }

  lemma UpdatedSelf(before: Inventory, after: Inventory)
    ensures Updated(before, after, DeltaOf(before, after)) == after
  {}

  /** The root metadata name is not a changed file, or its bytes hash like the metadata put there. */
  ghost predicate MetadataSurvives(hash: Hash, t1: Tree, d: Delta) {
    METADATA in PathsOf(d.changed.Keys) && METADATA in t1 && t1[METADATA].File? ==>
      hash(t1[METADATA].content) == hash(MetadataFile(d).content)
  }

  /**
   Exactly when a captured layer passes its own check: no removed path leaves the layer
   directory when its parent is resolved there, and the build made no root `.layer.json`.
   */
  lemma CapturedAccepted(hash: Hash, esc: Escapes, t0: Tree, t1: Tree)
    requires Resolver(esc) && IsTree(t0) && IsTree(t1)
    requires MetadataWritable(Candidate(hash, t1, InventoryOf(hash, t0)))
    ensures PathsOf(Recorded(hash, t1, InventoryOf(hash, t0)).changed.Keys) <= t1.Keys
    ensures var layer := Captured(hash, t1, InventoryOf(hash, t0));
            var d := Recorded(hash, t1, InventoryOf(hash, t0));
            && (Valid(hash, esc, layer) <==>
                  MetadataSurvives(hash, t1, d) && forall s :: s in d.removed ==> !esc(layer, Parts(s)))
            && (Valid(hash, esc, layer) ==> Accepts(hash, esc, layer, d))
  {
    var before := InventoryOf(hash, t0);
    var layer := Captured(hash, t1, before);
    var d := Recorded(hash, t1, before);
    CapturedMetadata(hash, t1, before);
    CapturedPaths(hash, t1, before);
    assert forall s :: s in d.removed ==> s in before;
    forall s | s in d.removed ensures RelativeName(s) {
      ListedNames(hash, t0);
      PartsOfPosix(Parts(s));
      assert forall i :: 0 <= i < |Parts(s)| ==> GoodName(Parts(s)[i]);
    }
    hide *;
    forall s | s in d.changed
      ensures ChangedOk(hash, esc, layer, s, JStr(d.changed[s]))
          <==> (Parts(s) == METADATA ==> MetadataSurvives(hash, t1, d))
    {
      CapturedEntryOk(hash, esc, t1, before, s);
    }
    CapturedVerdict(hash, esc, layer, d);
    MetadataEntry(hash, t1, before, d);
  }

  /** Metadata survives unless it is itself a changed entry. */
  lemma MetadataEntry(hash: Hash, t1: Tree, before: Inventory, d: Delta)
    requires IsTree(t1) && d == Recorded(hash, t1, before) && PathsOf(d.changed.Keys) <= t1.Keys
    ensures MetadataSurvives(hash, t1, d) || exists s :: s in d.changed && Parts(s) == METADATA
  {}

  lemma CapturedMetadata(hash: Hash, t1: Tree, before: Inventory)
    requires IsTree(t1)
    ensures ReadMetadata(Captured(hash, t1, before)) == Ok(MetadataJson(Recorded(hash, t1, before)).fields)
  {
    hide Candidate, InventoryOf, DeltaOf, IsTree;
  }

  /** A changed entry is accepted, unless the metadata took its place with another hash. */
  lemma CapturedEntryOk(hash: Hash, esc: Escapes, t1: Tree, before: Inventory, s: string)
    requires Resolver(esc) && IsTree(t1) && MetadataWritable(Candidate(hash, t1, before))
    requires s in Recorded(hash, t1, before).changed
    ensures PathsOf(Recorded(hash, t1, before).changed.Keys) <= t1.Keys
    ensures ChangedOk(hash, esc, Captured(hash, t1, before), s, JStr(Recorded(hash, t1, before).changed[s]))
       <==> (Parts(s) == METADATA ==> MetadataSurvives(hash, t1, Recorded(hash, t1, before)))
  {
    var d, layer := Recorded(hash, t1, before), Captured(hash, t1, before);
    var cs, p := PathsOf(d.changed.Keys), Parts(s);
    CapturedPaths(hash, t1, before);
    ChangedEntry(hash, t1, before, s);
    assert Candidate(hash, t1, before) == Overlay(EMPTY, t1, cs);
    assert layer == Overlay(EMPTY, t1, cs)[METADATA := MetadataFile(d)];
    assert PrefixFree(cs);
    hide Recorded, Captured, Candidate, InventoryOf, IsTree, Overlay, PathsOf, Copyable, Parts, ChangedOk, RelativeName;
    CopiedEntry(t1, cs, p, MetadataFile(d));
    OverlayClearAbove(t1, cs, p, METADATA, MetadataFile(d));
    ChangedOkIf(hash, esc, layer, s, d.changed[s]);
    if p == METADATA { FileIdentity(hash, MetadataFile(d).content, t1[p].content); }
  }

  lemma ChangedEntry(hash: Hash, t1: Tree, before: Inventory, s: string)
    requires IsTree(t1) && s in Recorded(hash, t1, before).changed
    ensures Parts(s) in PathsOf(Recorded(hash, t1, before).changed.Keys)
    ensures RelativeName(s) && Lists(t1, Parts(s))
    ensures Recorded(hash, t1, before).changed[s] == Identity(hash, t1[Parts(s)])
  {
    CapturedPaths(hash, t1, before);
    ListedNames(hash, t1);
    assert s in InventoryOf(hash, t1);
  }

  /** Where a copied entry stands once the metadata has been written. */
  lemma CopiedEntry(src: Tree, cs: set<Path>, p: Path, metadata: Node)
    requires cs <= src.Keys && PrefixFree(cs) && p in cs && Lists(src, p) && metadata.File?
    requires MetadataWritable(Overlay(EMPTY, src, cs))
    ensures !Above(METADATA, p) && (p == METADATA ==> src[p].File?)
    ensures var layer := Overlay(EMPTY, src, cs)[METADATA := metadata];
            Lists(layer, p) && layer[p] == if p == METADATA then metadata else src[p]
  {
    OverlayAt(EMPTY, src, cs, METADATA);
    OverlayAt(EMPTY, src, cs, p);
    assert AtOrAbove(p, p) && OnSpine(cs, p);
    assert Above(METADATA, p) ==> OnSpine(cs, METADATA) && METADATA !in cs;
  }

  lemma FileIdentity(hash: Hash, a: Content, b: Content)
    ensures Identity(hash, File(a)) == Identity(hash, File(b)) <==> hash(a) == hash(b)
  {
    var ia, ib := Identity(hash, File(a)), Identity(hash, File(b));
    if ia == ib { assert ia[5..] == hash(a) && ib[5..] == hash(b); }
  }

  lemma ChangedOkIf(hash: Hash, esc: Escapes, layer: Tree, s: string, id: string)
    requires Resolver(esc) && RelativeName(s) && Clear(layer, Parts(s)) && Lists(layer, Parts(s))
    ensures ChangedOk(hash, esc, layer, s, JStr(id)) <==> Identity(hash, layer[Parts(s)]) == id
  {
    ClearIsSafe(esc, layer, s);
  }

  /** Above a copied entry there are only directories. */
  lemma OverlayClearAbove(src: Tree, cs: set<Path>, p: Path, other: Path, node: Node)
    requires cs <= src.Keys && PrefixFree(cs) && p in cs && !Above(other, p)
    ensures Clear(Overlay(EMPTY, src, cs)[other := node], p)
  {
    forall q | Above(q, p) && q in Overlay(EMPTY, src, cs)[other := node]
      ensures q != other && Overlay(EMPTY, src, cs)[q].Dir?
    {
      assert OnSpine(cs, q);
      OverlayAt(EMPTY, src, cs, q);
    }
  }

  /** What the checker says of metadata as the capture writes it. */
  lemma CapturedVerdict(hash: Hash, esc: Escapes, layer: Tree, d: Delta)
    requires ReadMetadata(layer) == Ok(MetadataJson(d).fields)
    requires forall s :: s in d.removed ==> RelativeName(s)
    ensures Valid(hash, esc, layer) <==>
              && (forall s :: s in d.changed ==> ChangedOk(hash, esc, layer, s, JStr(d.changed[s])))
              && (forall s :: s in d.removed ==> !esc(layer, Parts(s)))
    ensures Valid(hash, esc, layer) ==> Accepts(hash, esc, layer, d)
  {
    if && (forall s :: s in d.changed ==> ChangedOk(hash, esc, layer, s, JStr(d.changed[s])))
       && (forall s :: s in d.removed ==> !esc(layer, Parts(s)))
    {
      AcceptedIf(hash, esc, layer, d);
    }
    if Valid(hash, esc, layer) {
      AcceptedOnlyIf(hash, esc, layer, d);
      AcceptedIf(hash, esc, layer, d);
    }
  }

  lemma AcceptedIf(hash: Hash, esc: Escapes, layer: Tree, d: Delta)
    requires ReadMetadata(layer) == Ok(MetadataJson(d).fields)
    requires forall s :: s in d.changed ==> ChangedOk(hash, esc, layer, s, JStr(d.changed[s]))
    requires forall s :: s in d.removed ==> SafeLayerPath(esc, layer, s)
    ensures Accepts(hash, esc, layer, d)
  {
    hide ChangedOk, ReadMetadata, SafeLayerPath;
    assert PyEq(MetadataJson(d).fields["format"], JInt(2));
  }

  lemma AcceptedOnlyIf(hash: Hash, esc: Escapes, layer: Tree, d: Delta)
    requires ReadMetadata(layer) == Ok(MetadataJson(d).fields) && Valid(hash, esc, layer)
    ensures forall s :: s in d.changed ==> ChangedOk(hash, esc, layer, s, JStr(d.changed[s]))
    ensures forall s :: s in d.removed ==> SafeLayerPath(esc, layer, s)
  {
    var e :| Accepts(hash, esc, layer, e);
    var fields := MetadataJson(d).fields;
    forall s | s in d.changed ensures ChangedOk(hash, esc, layer, s, JStr(d.changed[s])) {
      assert fields["changed"].fields[s] == JStr(d.changed[s]);
    }
    forall s | s in d.removed ensures SafeLayerPath(esc, layer, s) {
      var i :| 0 <= i < |d.removed| && d.removed[i] == s;
      assert RemovedOk(esc, layer, fields["removed"].items[i]);
    }
  }

  // ---------------------------------------------------------------- the same, seen from the two trees

  predicate LinkAt(t: Tree, q: Path) { q in t && t[q].Link? }

  /** The links met on the way to `p` are the same. */
  ghost predicate SameLinksAbove(t: Tree, u: Tree, p: Path) {
    forall q :: Above(q, p) ==> (LinkAt(t, q) <==> LinkAt(u, q)) && (LinkAt(t, q) && LinkAt(u, q) ==> t[q] == u[q])
  }

  /** A resolver that looks at nothing but the links above a path. */
  ghost predicate LinkLocal(esc: Escapes) {
    forall t, u, p :: SameLinksAbove(t, u, p) ==> (esc(t, p) <==> esc(u, p))
  }

  /** Above a removed path the layer has exactly the links of the captured tree. */
  lemma LinksAboveRemoved(hash: Hash, t0: Tree, t1: Tree, p: Path)
    requires IsTree(t0) && IsTree(t1) && Lists(t0, p)
    requires MetadataWritable(Candidate(hash, t1, InventoryOf(hash, t0)))
    ensures SameLinksAbove(Captured(hash, t1, InventoryOf(hash, t0)), t1, p)
  {
    hide InventoryOf, Candidate, Captured, Recorded, DeltaOf, PathsOf, Overlay, Copyable;
    var before := InventoryOf(hash, t0);
    var d := Recorded(hash, t1, before);
    var cs := PathsOf(d.changed.Keys);
    RecordedIs(hash, t1, before);
    CandidateIs(hash, t1, before);
    CopyablePathsGood(t1, d.changed.Keys);
    forall q | Above(q, p)
      ensures LinkAt(Overlay(EMPTY, t1, cs)[METADATA := MetadataFile(d)], q) <==> LinkAt(t1, q)
      ensures LinkAt(t1, q) ==> Overlay(EMPTY, t1, cs)[METADATA := MetadataFile(d)][q] == t1[q]
    {
      assert !Lists(t0, q);
      if LinkAt(t1, q) { NewEntryChanged(hash, t0, t1, q); }
      OverlayAt(EMPTY, t1, cs, q);
      if q in cs { assert AtOrAbove(q, q); }
      if q !in cs { assert !LinkAt(Overlay(EMPTY, t1, cs), q); }
    }
  }

  lemma RecordedIs(hash: Hash, t1: Tree, before: Inventory)
    ensures Recorded(hash, t1, before) == DeltaOf(before, InventoryOf(hash, t1))
  {}

  /** An entry the first tree does not list is recorded as changed. */
  lemma NewEntryChanged(hash: Hash, t0: Tree, t1: Tree, q: Path)
    requires IsTree(t0) && IsTree(t1) && !Lists(t0, q) && Lists(t1, q)
    ensures q in PathsOf(Recorded(hash, t1, InventoryOf(hash, t0)).changed.Keys)
  {
    hide InventoryOf, IsTree, Lists, Parts, Posix;
    ListedNames(hash, t0);
    ListedNames(hash, t1);
    assert Posix(q) in InventoryOf(hash, t0) ==> Lists(t0, Parts(Posix(q)));
    assert Posix(q) in Recorded(hash, t1, InventoryOf(hash, t0)).changed;
  }

  /** The removed names are those of the paths listed before and not after. */
  lemma RemovedAre(hash: Hash, t0: Tree, t1: Tree)
    requires IsTree(t0) && IsTree(t1)
    ensures forall s :: s in Recorded(hash, t1, InventoryOf(hash, t0)).removed ==>
              Lists(t0, Parts(s)) && !Lists(t1, Parts(s))
    ensures forall p :: Lists(t0, p) && !Lists(t1, p) ==>
              Posix(p) in Recorded(hash, t1, InventoryOf(hash, t0)).removed && Parts(Posix(p)) == p
  {
    hide InventoryOf, IsTree, Lists, Parts, Posix;
    var before, after := InventoryOf(hash, t0), InventoryOf(hash, t1);
    ListedNames(hash, t0);
    ListedNames(hash, t1);
    forall s ensures s in Recorded(hash, t1, before).removed <==> s in before && s !in after {
      assert s in DeltaOf(before, after).removed <==> s in before.Keys - after.Keys;
    }
    forall p | Lists(t0, p) && !Lists(t1, p) ensures Posix(p) in before && Posix(p) !in after && Parts(Posix(p)) == p {
      assert Posix(p) in after ==> Lists(t1, Parts(Posix(p)));
    }
    forall s | s in before && s !in after ensures Lists(t0, Parts(s)) && !Lists(t1, Parts(s)) {
      assert Posix(Parts(s)) == s;
    }
  }

  /**
   Exactly when a captured layer passes its own check, said of the two trees a caller has: no path
   listed before and not after leaves the new tree through a link.
   */
  lemma CapturedAcceptedOnTrees(hash: Hash, esc: Escapes, t0: Tree, t1: Tree)
    requires Resolver(esc) && LinkLocal(esc) && IsTree(t0) && IsTree(t1)
    requires MetadataWritable(Candidate(hash, t1, InventoryOf(hash, t0)))
    ensures Valid(hash, esc, Captured(hash, t1, InventoryOf(hash, t0))) <==>
              && MetadataSurvives(hash, t1, Recorded(hash, t1, InventoryOf(hash, t0)))
              && forall p :: Lists(t0, p) && !Lists(t1, p) ==> !esc(t1, p)
  {
    hide InventoryOf, IsTree, Lists, Parts, Posix, Captured, Candidate, Recorded, Valid, MetadataSurvives;
    hide SameLinksAbove, Accepts;
    var layer, d := Captured(hash, t1, InventoryOf(hash, t0)), Recorded(hash, t1, InventoryOf(hash, t0));
    CapturedAccepted(hash, esc, t0, t1);
    RemovedAre(hash, t0, t1);
    forall p | Lists(t0, p) ensures esc(layer, p) <==> esc(t1, p) { LinksAboveRemoved(hash, t0, t1, p); }
    assert forall s :: s in d.removed ==> Lists(t0, Parts(s)) && (esc(layer, Parts(s)) <==> esc(t1, Parts(s)));
  }

  /** Under any resolver a captured layer passes its check if no removed path has a new link above it. */
  lemma CapturedAcceptedWithoutLinks(hash: Hash, esc: Escapes, t0: Tree, t1: Tree)
    requires Resolver(esc) && IsTree(t0) && IsTree(t1)
    requires MetadataWritable(Candidate(hash, t1, InventoryOf(hash, t0)))
    requires MetadataSurvives(hash, t1, Recorded(hash, t1, InventoryOf(hash, t0)))
    requires forall p :: Lists(t0, p) && !Lists(t1, p) ==> NoLinkAbove(t1, p)
    ensures Valid(hash, esc, Captured(hash, t1, InventoryOf(hash, t0)))
  {
    hide InventoryOf, IsTree, Lists, Parts, Posix, Captured, Candidate, Recorded, Valid, MetadataSurvives, Accepts;
    var layer, d := Captured(hash, t1, InventoryOf(hash, t0)), Recorded(hash, t1, InventoryOf(hash, t0));
    CapturedAccepted(hash, esc, t0, t1);
    RemovedAre(hash, t0, t1);
    forall s | s in d.removed ensures !esc(layer, Parts(s)) {
      LinksAboveRemoved(hash, t0, t1, Parts(s));
      assert forall q :: q in layer && Above(q, Parts(s)) && layer[q].Link? ==> LinkAt(layer, q) && LinkAt(t1, q);
      assert NoLinkAbove(layer, Parts(s));
    }
  }

  // ---------------------------------------------------------------- interrupted removal

  /** What is left of a layer while its directory is being deleted. */
  ghost predicate Remnant(rest: Tree, layer: Tree) {
    forall p :: p in rest ==> p in layer && rest[p] == layer[p]
  }

  /** A half-deleted layer that still passes the check replays exactly like the whole one. */
  lemma RemnantReplays(hash: Hash, esc: Escapes, rest: Tree, t1: Tree, before: Inventory, e: Delta, t: Tree)
    requires IsTree(t1) && IsTree(rest) && Remnant(rest, Captured(hash, t1, before))
    requires Accepts(hash, esc, rest, e)
    ensures e == Recorded(hash, t1, before)
    ensures PathsOf(e.changed.Keys) <= rest.Keys && PathsOf(e.changed.Keys) <= Captured(hash, t1, before).Keys
    ensures Replayed(t, rest, e) == Replayed(t, Captured(hash, t1, before), e)
  {
    var layer, d := Captured(hash, t1, before), Recorded(hash, t1, before);
    CapturedMetadata(hash, t1, before);
    assert ReadMetadata(rest) == ReadMetadata(layer);
    SameDelta(hash, esc, rest, d, e);
    AcceptedPrefixFree(hash, esc, rest, e);
    var cs := PathsOf(e.changed.Keys);
    assert cs <= layer.Keys && forall c :: c in cs ==> rest[c] == layer[c];
    SameSource(Without(t, RemovedPaths(e)), rest, layer, cs);
  }

  lemma SameSource(t: Tree, a: Tree, b: Tree, cs: set<Path>)
    requires cs <= a.Keys && cs <= b.Keys && forall c :: c in cs ==> a[c] == b[c]
    ensures Overlay(t, a, cs) == Overlay(t, b, cs)
  {
    hide Covered, OnSpine;
  }

  lemma SameDelta(hash: Hash, esc: Escapes, layer: Tree, d: Delta, e: Delta)
    requires ReadMetadata(layer) == Ok(MetadataJson(d).fields) && Accepts(hash, esc, layer, e)
    ensures d == e
  {
    assert d.changed == e.changed;
    assert d.removed == e.removed;
  }

  // ---------------------------------------------------------------- where the check refuses a sound capture

  /** Resolution that leaves the tree exactly through links with absolute targets. */
  predicate AbsoluteLinkAbove(t: Tree, p: Path) {
    exists q :: q in t && Above(q, p) && t[q].Link? && Absolute(t[q].target)
  }

  /**
   A directory of `t0` that became a link out of the tree in `t1`: the capture succeeds, yet its
   own layer is refused on every later run, because the removed file's parent resolves through
   the new link inside the layer.
   */
  lemma EscapingLinkRefused(hash: Hash, t0: Tree, t1: Tree, a: Path, p: Path)
    requires IsTree(t0) && IsTree(t1) && Lists(t0, p) && Above(a, p)
    requires a in t1 && t1[a].Link? && Absolute(t1[a].target)
    requires MetadataWritable(Candidate(hash, t1, InventoryOf(hash, t0)))
    ensures Resolver(AbsoluteLinkAbove)
    ensures !Valid(hash, AbsoluteLinkAbove, Captured(hash, t1, InventoryOf(hash, t0)))
  {
    hide InventoryOf, Captured, Candidate, Recorded, Valid, MetadataSurvives, SameLinksAbove, LinkLocal, Resolver;
    hide AbsoluteLinkAbove;
    AbsoluteLinksLocal();
    assert !Lists(t1, p);
    LinkEscapes(t1, a, p);
    CapturedAcceptedOnTrees(hash, AbsoluteLinkAbove, t0, t1);
  }

  lemma LinkEscapes(t: Tree, a: Path, p: Path)
    requires a in t && t[a].Link? && Absolute(t[a].target) && Above(a, p)
    ensures AbsoluteLinkAbove(t, p)
  {}

  /** Such a resolver is one of those the exact condition covers. */
  lemma AbsoluteLinksLocal()
    ensures Resolver(AbsoluteLinkAbove) && LinkLocal(AbsoluteLinkAbove)
  {
    forall t: Tree, u: Tree, p: Path | SameLinksAbove(t, u, p) ensures AbsoluteLinkAbove(t, p)
        <==> AbsoluteLinkAbove(u, p) {
      if AbsoluteLinkAbove(t, p) {
        var q :| q in t && Above(q, p) && t[q].Link? && Absolute(t[q].target);
        assert LinkAt(t, q) && LinkAt(u, q);
      }
      if AbsoluteLinkAbove(u, p) {
        var q :| q in u && Above(q, p) && u[q].Link? && Absolute(u[q].target);
        assert LinkAt(t, q) && LinkAt(u, q);
      }
    }
  }

  /** A build that makes no root `.layer.json` can always be captured. */
  lemma NoMetadataEntry(hash: Hash, t1: Tree, before: Inventory)
    requires IsTree(t1) && METADATA !in t1
    ensures MetadataWritable(Candidate(hash, t1, before))
    ensures MetadataNameFree(Recorded(hash, t1, before))
  {
    CapturedPaths(hash, t1, before);
    NotAboveAny(t1, PathsOf(Recorded(hash, t1, before).changed.Keys), METADATA);
  }

  lemma NotAboveAny(t: Tree, cs: set<Path>, q: Path)
    requires IsTree(t) && cs <= t.Keys && q !in t && q != []
    ensures q !in Overlay(EMPTY, t, cs)
    ensures forall c :: c in cs ==> !AtOrAbove(q, c)
  {
    forall c | c in cs ensures !AtOrAbove(q, c) {
      assert AtOrAbove(q, c) ==> q == c || Above(q, c);
    }
  }

  lemma CapturedIsTree(hash: Hash, t1: Tree, before: Inventory)
    requires IsTree(t1) && METADATA !in t1
    ensures MetadataWritable(Candidate(hash, t1, before)) && IsTree(Captured(hash, t1, before))
  {
    assert METADATA != [];
    hide *;
    var d := DeltaOf(before, InventoryOf(hash, t1));
    var cs := PathsOf(d.changed.Keys);
    NoMetadataEntry(hash, t1, before);
    CandidateIs(hash, t1, before);
    CopyablePathsGood(t1, d.changed.Keys);
    OverlayIsTree(EMPTY, t1, cs);
    NotAboveAny(t1, cs, METADATA);
    EntryAdded(Overlay(EMPTY, t1, cs), MetadataFile(d));
  }

  lemma CopyablePathsGood(t: Tree, names: set<string>)
    requires Copyable(t, names)
    ensures PrefixFree(PathsOf(names)) && forall c :: c in PathsOf(names) ==> GoodPath(c)
  {}

  lemma EntryAdded(t: Tree, node: Node)
    requires IsTree(t) && METADATA !in t
    ensures IsTree(t[METADATA := node])
  {
    var r := t[METADATA := node];
    forall p, q | p in r && Above(q, p) ensures q in r && r[q].Dir? {
      if p == METADATA { assert q == []; } else { assert q != METADATA; }
    }
  }

  lemma SmallTrees(t0: Tree, t1: Tree)
    requires t0 == map[[] := Dir, ["a"] := Dir, ["a", "b"] := File(Bytes("x"))]
    requires t1 == map[[] := Dir, ["a"] := Link("/x")]
    ensures IsTree(t0) && IsTree(t1) && METADATA !in t1
  {
    assert GoodName("a") && GoodName("b");
    forall p, q | p in t0 && Above(q, p) ensures q in t0 && t0[q].Dir? {
      assert q == [] || q == ["a"];
    }
  }

  /** The smallest such pair of trees. */
  lemma EscapingLinkWitness(hash: Hash, t0: Tree, t1: Tree)
    requires t0 == map[[] := Dir, ["a"] := Dir, ["a", "b"] := File(Bytes("x"))]
    requires t1 == map[[] := Dir, ["a"] := Link("/x")]
    ensures IsTree(t0) && IsTree(t1)
    ensures MetadataWritable(Candidate(hash, t1, InventoryOf(hash, t0)))
    ensures !Valid(hash, AbsoluteLinkAbove, Captured(hash, t1, InventoryOf(hash, t0)))
  {
    SmallTrees(t0, t1);
    assert Above(["a"], ["a", "b"]) && Lists(t0, ["a", "b"]) && Absolute(t1[["a"]].target);
    hide *;
    NoMetadataEntry(hash, t1, InventoryOf(hash, t0));
    EscapingLinkRefused(hash, t0, t1, ["a"], ["a", "b"]);
  }
}
