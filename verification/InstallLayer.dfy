/**
 Dependency install layers: the difference between two staged trees, recorded with its
 metadata, checked, and replayed on a clean tree in place of the build.
 `hash` stands for the content digest and `esc` for the operating system's answer to
 "does the parent of this path resolve outside the tree"; both are parameters.
 */
module InstallLayer {
  import opened Ordering
  import opened PosixPaths
  import opened Json
  import opened Trees
  import Framing

  type Inventory = Framing.Inventory
  type Hash = Content -> string
  type Escapes = (Tree, Path) -> bool

  /** What resolution may not claim: a path with no link above it stays where it is. */
  ghost predicate Resolver(esc: Escapes) {
    forall t, p :: NoLinkAbove(t, p) ==> !esc(t, p)
  }

  ghost predicate NoLinkAbove(t: Tree, p: Path) {
    forall q :: q in t && Above(q, p) ==> !t[q].Link?
  }

  const METADATA: Path := [".layer.json"]
  const MANIFEST: Path := ["manifest.json"]

  // ---------------------------------------------------------------- inventories

  /** `path_identity` of a file or link. */
  function Identity(hash: Hash, node: Node): string
    requires !node.Dir?
  {
    match node
    case Link(target) => "symlink:" + target
    case File(content) => "file:" + hash(content)
  }

  /** The predecessor manifest without the time it was packaged, in canonical layout. */
  function WithoutCreationTime(content: Content): Content {
    match content
    case JsonText(JObj(fields), _) => JsonText(JObj(fields - {"created_utc"}), 0)
    case _ => content
  }

  function EntryIdentity(hash: Hash, normal: bool, p: Path, node: Node): string
    requires !node.Dir?
  {
    if normal && p == MANIFEST && node.File? then Identity(hash, File(WithoutCreationTime(node.content)))
    else Identity(hash, node)
  }

  function Listing(hash: Hash, normal: bool, t: Tree): map<Path, string> {
    map p | p in t && !t[p].Dir? :: EntryIdentity(hash, normal, p, t[p])
  }

  /** A listing keyed by path strings. */
  function Named(m: map<Path, string>): (r: Inventory)
    requires forall p :: p in m ==> GoodPath(p)
    ensures forall p :: p in m ==> Posix(p) in r && r[Posix(p)] == m[p]
    ensures forall s :: s in r ==> Parts(s) in m && s == Posix(Parts(s))
  {
    assert forall p :: p in m ==> Parts(Posix(p)) == p by {
      forall p | p in m ensures Parts(Posix(p)) == p { PartsOfPosix(p); }
    }
    map s | s in (set p | p in m :: Posix(p)) :: m[Parts(s)]
  }

  ghost function InventoryOf(hash: Hash, t: Tree): Inventory {
    if !IsTree(t) then map[] else
    assert forall p :: p in Listing(hash, false, t) ==> GoodPath(p);
    Named(Listing(hash, false, t))
  }

  ghost function NormalInventoryOf(hash: Hash, t: Tree): Inventory {
    if !IsTree(t) then map[] else
    assert forall p :: p in Listing(hash, true, t) ==> GoodPath(p);
    Named(Listing(hash, true, t))
  }

  /** `inv` names exactly the entries of `m`. */
  ghost predicate Names(inv: Inventory, m: map<Path, string>) {
    && (forall p :: p in m ==> Posix(p) in inv && inv[Posix(p)] == m[p])
    && (forall s :: s in inv ==> Parts(s) in m && s == Posix(Parts(s)))
  }

  lemma NamesNamed(inv: Inventory, m: map<Path, string>)
    requires forall p :: p in m ==> GoodPath(p)
    requires Names(inv, m)
    ensures inv == Named(m)
  {
    var named := Named(m);
    forall s ensures s in inv <==> s in named {
      if s in inv { assert Posix(Parts(s)) in named; }
      if s in named { assert Posix(Parts(s)) in inv; }
    }
    forall s | s in inv ensures inv[s] == named[s] { assert named[Posix(Parts(s))] == m[Parts(s)]; }
  }

  lemma NamesStep(inv: Inventory, m: map<Path, string>, p: Path, id: string)
    requires GoodPath(p) && p !in m && Names(inv, m)
    ensures Names(inv[Posix(p) := id], m[p := id])
  {
    PartsOfPosix(p);
  }

  /** `tree_inventory`: one entry per file or link, directories skipped. */
  method TreeInventory(hash: Hash, t: Tree, normalizeManifest: bool) returns (inventory: Inventory)
    requires IsTree(t)
    ensures inventory == if normalizeManifest then NormalInventoryOf(hash, t) else InventoryOf(hash, t)
  {
    inventory := map[];
    ghost var listed: map<Path, string> := map[];
    var todo := t.Keys;
    while todo != {}
      invariant todo <= t.Keys
      invariant forall p :: p in listed <==> p in t && p !in todo && !t[p].Dir?
      invariant forall p :: p in listed ==> listed[p] == EntryIdentity(hash, normalizeManifest, p, t[p])
      invariant Names(inventory, listed)
    {
      var p :| p in todo;
      if t[p].Link? || t[p].File? {
        var identity;
        if t[p].File? && normalizeManifest && p == MANIFEST {
          identity := Identity(hash, File(WithoutCreationTime(t[p].content)));
        } else {
          identity := Identity(hash, t[p]);
        }
        NamesStep(inventory, listed, p, identity);
        inventory := inventory[Posix(p) := identity];
        listed := listed[p := identity];
      }
      todo := todo - {p};
    }
    assert listed == Listing(hash, normalizeManifest, t);
    assert forall p :: p in listed ==> GoodPath(p);
    NamesNamed(inventory, listed);
  }

  // ---------------------------------------------------------------- deltas

  /** What a layer's metadata records. */
  datatype Delta = Delta(changed: Inventory, removed: seq<string>)

  function DeltaOf(before: Inventory, after: Inventory): Delta {
    Delta(map s | s in after && !(s in before && before[s] == after[s]) :: after[s],
          Sorted(before.Keys - after.Keys))
  }

  function PathsOf(names: set<string>): set<Path> { set s | s in names :: Parts(s) }

  function RemovedPaths(d: Delta): set<Path> { set i | 0 <= i < |d.removed| :: Parts(d.removed[i]) }

  function MetadataJson(d: Delta): Json {
    JObj(map["format" := JInt(2),
             "changed" := JObj(map s | s in d.changed :: JStr(d.changed[s])),
             "removed" := JArr(seq(|d.removed|, i requires 0 <= i < |d.removed| => JStr(d.removed[i])))])
  }

  function MetadataFile(d: Delta): Node { File(JsonText(MetadataJson(d), 2)) }

  /** No changed entry of the tree is, or is below, the name the metadata takes. */
  predicate MetadataNameFree(d: Delta) {
    forall p :: p in PathsOf(d.changed.Keys) ==> !AtOrAbove(METADATA, p)
  }

  const EMPTY: Tree := map[[] := Dir]

  /** The layer directory recording how `t` differs from the inventory `before`. */
  ghost function Captured(hash: Hash, t: Tree, before: Inventory): Tree {
    Candidate(hash, t, before)[METADATA := MetadataFile(DeltaOf(before, InventoryOf(hash, t)))]
  }

  /** The paths of a delta lead from any tree listing the same names to the captured one. */
  lemma DeltaLeads(hash: Hash, t: Tree, t1: Tree, before: Inventory)
    requires IsTree(t) && IsTree(t1) && before.Keys == InventoryOf(hash, t).Keys
    ensures var d := DeltaOf(before, InventoryOf(hash, t1));
            Leads(t, t1, PathsOf(d.changed.Keys), RemovedPaths(d))
  {
    ListedNames(hash, t);
    ListedNames(hash, t1);
    assert NamesOf(before.Keys, t) && NamesOf(InventoryOf(hash, t1).Keys, t1);
    hide *;
    NamesLead(t, t1, before, InventoryOf(hash, t1));
  }

  ghost predicate NamesOf(names: set<string>, t: Tree) {
    && (forall p :: Lists(t, p) ==> Posix(p) in names && Parts(Posix(p)) == p)
    && (forall s :: s in names ==> Lists(t, Parts(s)) && Posix(Parts(s)) == s)
  }

  lemma NamesLead(t: Tree, t1: Tree, before: Inventory, a: Inventory)
    requires NamesOf(before.Keys, t) && NamesOf(a.Keys, t1)
    ensures Leads(t, t1, PathsOf(DeltaOf(before, a).changed.Keys), RemovedPaths(DeltaOf(before, a)))
  {
    var d := DeltaOf(before, a);
    forall p ensures p in PathsOf(d.changed.Keys) ==> Lists(t1, p)
             ensures p in RemovedPaths(d) <==> Lists(t, p) && !Lists(t1, p)
             ensures Lists(t1, p) && p !in PathsOf(d.changed.Keys) ==> Lists(t, p)
    {
      RemovedPathAt(before, a, p);
      NamesLeadAt(t, t1, before, a, p);
    }
  }

  lemma RemovedPathAt(before: Inventory, a: Inventory, p: Path)
    ensures p in RemovedPaths(DeltaOf(before, a)) <==> exists s :: s in before.Keys - a.Keys && Parts(s) == p
  {
    var r := DeltaOf(before, a).removed;
    hide Parts;
    if p in RemovedPaths(DeltaOf(before, a)) {
      var i :| 0 <= i < |r| && Parts(r[i]) == p;
      assert r[i] in r;
    }
    if s :| s in before.Keys - a.Keys && Parts(s) == p {
      assert s in r;
      var i :| 0 <= i < |r| && r[i] == s;
    }
  }

  lemma NamesLeadAt(t: Tree, t1: Tree, before: Inventory, a: Inventory, p: Path)
    requires NamesOf(before.Keys, t) && NamesOf(a.Keys, t1)
    ensures p in PathsOf(DeltaOf(before, a).changed.Keys) ==> Lists(t1, p)
    ensures (exists s :: s in before.Keys - a.Keys && Parts(s) == p) <==> Lists(t, p) && !Lists(t1, p)
    ensures Lists(t1, p) && p !in PathsOf(DeltaOf(before, a).changed.Keys) ==> Lists(t, p)
  {
    hide Lists, Parts, Posix, Sorted;
    if Lists(t, p) && !Lists(t1, p) {
      assert Posix(p) in a ==> Lists(t1, Parts(Posix(p)));
      assert Posix(p) in before.Keys - a.Keys;
    }
    if Lists(t1, p) && p !in PathsOf(DeltaOf(before, a).changed.Keys) {
      assert Posix(p) !in DeltaOf(before, a).changed;
    }
  }

  /** An inventory names exactly the files and links of its tree. */
  lemma ListedNames(hash: Hash, t: Tree)
    requires IsTree(t)
    ensures forall p :: Lists(t, p) ==>
              Posix(p) in InventoryOf(hash, t) && InventoryOf(hash, t)[Posix(p)] == Identity(hash, t[p])
              && Parts(Posix(p)) == p
    ensures forall s :: s in InventoryOf(hash, t) ==> Lists(t, Parts(s)) && Posix(Parts(s)) == s
  {
    forall p | Lists(t, p)
      ensures Posix(p) in InventoryOf(hash, t) && InventoryOf(hash, t)[Posix(p)] == Identity(hash, t[p])
              && Parts(Posix(p)) == p
    {
      assert p in Listing(hash, false, t);
      PartsOfPosix(p);
    }
  }

  // ---------------------------------------------------------------- checking a layer

  datatype Failure = Unreadable | NotAnObject | BadFormat | Malformed | BadEntry | Obstructed

  datatype Result<T> = Ok(value: T) | Err(failure: Failure)

  /** `safe_layer_path`: the components, or nothing where the source raises. */
  predicate SafeLayerPath(esc: Escapes, t: Tree, relative: string) {
    && !Absolute(relative) && Parts(relative) != [] && ".." !in Parts(relative)
    && !esc(t, Parts(relative))
  }

  predicate ChangedOk(hash: Hash, esc: Escapes, layer: Tree, relative: string, expected: Json) {
    && expected.JStr? && SafeLayerPath(esc, layer, relative)
    && Lists(layer, Parts(relative)) && Identity(hash, layer[Parts(relative)]) == expected.s
  }

  predicate RemovedOk(esc: Escapes, layer: Tree, relative: Json) {
    relative.JStr? && SafeLayerPath(esc, layer, relative.s)
  }

  /** The metadata document, if it can be read at all. */
  function ReadMetadata(layer: Tree): Result<map<string, Json>> {
    if !(METADATA in layer && layer[METADATA].File? && layer[METADATA].content.JsonText?) then Err(Unreadable)
    else match layer[METADATA].content.value
      case JObj(fields) => Ok(fields)
      case _ => Err(NotAnObject)
  }

  predicate FormatTwo(m: map<string, Json>) { "format" in m && PyEq(m["format"], JInt(2)) }

  predicate WellShaped(m: map<string, Json>) {
    "changed" in m && m["changed"].JObj? && "removed" in m && m["removed"].JArr?
  }

  /** A layer the source accepts as recording `d`. */
  predicate Accepts(hash: Hash, esc: Escapes, layer: Tree, d: Delta) {
    var r := ReadMetadata(layer);
    && r.Ok? && FormatTwo(r.value) && WellShaped(r.value)
    && (forall s :: s in r.value["changed"].fields ==> ChangedOk(hash, esc, layer, s, r.value["changed"].fields[s]))
    && (forall i :: 0 <= i < |r.value["removed"].items| ==> RemovedOk(esc, layer, r.value["removed"].items[i]))
    && d.changed.Keys == r.value["changed"].fields.Keys
    && (forall s :: s in d.changed ==> d.changed[s] == r.value["changed"].fields[s].s)
    && |d.removed| == |r.value["removed"].items|
    && (forall i :: 0 <= i < |d.removed| ==> d.removed[i] == r.value["removed"].items[i].s)
  }

  ghost predicate Valid(hash: Hash, esc: Escapes, layer: Tree) {
    exists d :: Accepts(hash, esc, layer, d)
  }

  lemma AcceptsUnique(hash: Hash, esc: Escapes, layer: Tree, d: Delta, e: Delta)
    requires Accepts(hash, esc, layer, d) && Accepts(hash, esc, layer, e)
    ensures d == e
  {
    assert d.changed == e.changed;
    assert d.removed == e.removed;
  }

  /** `validate_install_layer`: every recorded entry is checked before the metadata is returned. */
  method ValidateInstallLayer(hash: Hash, esc: Escapes, layer: Tree) returns (r: Result<Delta>)
    ensures r.Ok? <==> Valid(hash, esc, layer)
    ensures r.Ok? ==> Accepts(hash, esc, layer, r.value)
    ensures r == Err(NotAnObject) <==> ReadMetadata(layer) == Err(NotAnObject)
  {
    hide SafeLayerPath, Identity, Parts, Lists, PyEq;
    var document := ReadMetadata(layer);
    if document.Err? { return Err(document.failure); }
    var metadata := document.value;
    if !FormatTwo(metadata) { return Err(BadFormat); }
    if !WellShaped(metadata) { return Err(Malformed); }
    var fields, items := metadata["changed"].fields, metadata["removed"].items;
    var d := Delta(map[], []);
    var todo := fields.Keys;
    while todo != {}
      invariant todo <= fields.Keys && d.removed == []
      invariant d.changed.Keys == fields.Keys - todo
      invariant forall s :: s in d.changed ==>
                  ChangedOk(hash, esc, layer, s, fields[s]) && d.changed[s] == fields[s].s
    {
      var relative :| relative in todo;
      if !ChangedOk(hash, esc, layer, relative, fields[relative]) { return Err(BadEntry); }
      d := d.(changed := d.changed[relative := fields[relative].s]);
      todo := todo - {relative};
    }
    for i := 0 to |items|
      invariant |d.removed| == i && d.changed.Keys == fields.Keys
      invariant forall s :: s in d.changed ==>
                  ChangedOk(hash, esc, layer, s, fields[s]) && d.changed[s] == fields[s].s
      invariant forall j :: 0 <= j < i ==> RemovedOk(esc, layer, items[j]) && d.removed[j] == items[j].s
    {
      if !RemovedOk(esc, layer, items[i]) { return Err(BadEntry); }
      d := d.(removed := d.removed + [items[i].s]);
    }
    assert Accepts(hash, esc, layer, d);
    r := Ok(d);
  }

  datatype Verdict = Good | Rejected | Raises

  /**
   `install_layer_valid`: failures are caught and reported as an invalid layer, except that a
   metadata document which is no object raises an error the handler does not name.
   */
  method InstallLayerValid(hash: Hash, esc: Escapes, layer: Tree) returns (v: Verdict)
    ensures v == Good <==> Valid(hash, esc, layer)
    ensures v == Raises <==> ReadMetadata(layer) == Err(NotAnObject)
  {
    var r := ValidateInstallLayer(hash, esc, layer);
    if r.Ok? { v := Good; } else if r.failure == NotAnObject { v := Raises; } else { v := Rejected; }
  }

  /** Entries accepted where they stand, not through a link, never lie above one another. */
  lemma AcceptedPrefixFree(hash: Hash, esc: Escapes, layer: Tree, d: Delta)
    requires IsTree(layer) && Accepts(hash, esc, layer, d)
    ensures PathsOf(d.changed.Keys) <= layer.Keys && PrefixFree(PathsOf(d.changed.Keys))
    ensures Copyable(layer, d.changed.Keys)
  {
    var cs := PathsOf(d.changed.Keys);
    forall c | c in cs ensures Lists(layer, c) && GoodPath(c) {
      var s :| s in d.changed && Parts(s) == c;
      assert ChangedOk(hash, esc, layer, s, ReadMetadata(layer).value["changed"].fields[s]);
    }
    forall a, b | a in cs && b in cs ensures !Above(a, b) {
      if Above(a, b) { ListedPrefixFree(layer, a, b); }
    }
    forall s | s in d.changed ensures RelativeName(s) && GoodPath(Parts(s)) && Lists(layer, Parts(s)) {
      assert ChangedOk(hash, esc, layer, s, ReadMetadata(layer).value["changed"].fields[s]);
      assert Parts(s) in cs;
    }
  }

  // ---------------------------------------------------------------- replay

  /** The tree a delta makes of `t`, with changed entries taken from `src`. */
  ghost function Replayed(t: Tree, src: Tree, d: Delta): Tree {
    Overlay(Without(t, RemovedPaths(d)), src, PathsOf(d.changed.Keys))
  }

  function FirstRemoved(d: Delta, n: nat): set<Path>
    requires n <= |d.removed|
  {
    set i | 0 <= i < n :: Parts(d.removed[i])
  }

  /** No removal leaves the tree and no copy meets a file or link above its place. */
  ghost predicate Replayable(esc: Escapes, t: Tree, d: Delta) {
    && (forall i :: 0 <= i < |d.removed| ==> SafeLayerPath(esc, Without(t, FirstRemoved(d, i)), d.removed[i]))
    && (forall c :: c in PathsOf(d.changed.Keys) ==> Clear(Without(t, RemovedPaths(d)), c))
  }

  /** `t` with directories at the ancestors of `p` shorter than `n`. */
  function WithParents(t: Tree, p: Path, n: nat): Tree {
    map q | q in t.Keys + Spine({p}) && (q in t || (Above(q, p) && |q| < n)) ::
      if Above(q, p) && |q| < n then Dir else t[q]
  }

  lemma WithParentsNone(t: Tree, p: Path)
    ensures WithParents(t, p, 0) == t
  {}

  lemma WithParentsStep(t: Tree, p: Path, i: nat)
    requires i < |p|
    ensures WithParents(t, p, i)[p[..i] := Dir] == WithParents(t, p, i + 1)
  {
    assert Above(p[..i], p);
    assert OnSpine({p}, p[..i]);
    forall q | Above(q, p) && |q| == i ensures q == p[..i] {}
  }

  /** Making the parents, pruning and putting the node together plant it. */
  lemma PlantingSteps(t: Tree, p: Path, node: Node)
    requires IsTree(t) && p != []
    ensures Pruned(WithParents(t, p, |p|), p)[p := node] == Planted(t, p, node)
  {
    var r := Pruned(WithParents(t, p, |p|), p)[p := node];
    forall q ensures (q in r <==> q in Planted(t, p, node)) && (q in r ==> r[q] == Planted(t, p, node)[q]) {
      PlantedAt(t, p, node, q);
      assert Above(q, p) ==> OnSpine({p}, q);
    }
  }

  lemma WithParentsIsTree(t: Tree, p: Path)
    requires IsTree(t) && GoodPath(p)
    ensures IsTree(WithParents(t, p, |p|))
  {
    var r := WithParents(t, p, |p|);
    forall x, q | x in r && Above(q, x) ensures q in r && r[q].Dir? {
      if Above(x, p) {
        AboveTransitive(q, x, p);
        assert OnSpine({p}, q);
      }
    }
    assert Above([], p);
  }

  /** A staging directory, changed in place. */
  class Directory {
    var nodes: Tree

    constructor ()
      ensures nodes == EMPTY
    {
      nodes := EMPTY;
    }

    /** `remove_path`: a file or link is unlinked, a directory goes with everything in it. */
    method RemovePath(p: Path)
      requires IsTree(nodes)
      modifies this
      ensures nodes == Pruned(old(nodes), p)
    {
      if p in nodes && !nodes[p].Dir? {
        assert forall q :: q in nodes && AtOrAbove(p, q) ==> q == p;
        nodes := nodes - {p};
      } else if p in nodes {
        nodes := Pruned(nodes, p);
      } else {
        assert forall q :: q in nodes && AtOrAbove(p, q) ==> q == p;
      }
    }

    method NothingInTheWay(p: Path) returns (ok: bool)
      ensures ok <==> Clear(nodes, p)
    {
      var i := |p|;
      while i > 0
        invariant 0 <= i <= |p|
        invariant forall q :: q in nodes && Above(q, p) && i <= |q| ==> nodes[q].Dir?
      {
        i := i - 1;
        if p[..i] in nodes && !nodes[p[..i]].Dir? {
          assert Above(p[..i], p);
          return false;
        }
      }
      ok := true;
    }

    /** `mkdir(parents=True, exist_ok=True)` of the parent: refused if something else is in the way. */
    method MakeParents(p: Path) returns (ok: bool)
      modifies this
      ensures ok <==> Clear(old(nodes), p)
      ensures nodes == if ok then WithParents(old(nodes), p, |p|) else old(nodes)
    {
      ok := NothingInTheWay(p);
      if ok {
        WithParentsNone(nodes, p);
        hide WithParents, Clear;
        for i := 0 to |p|
          invariant nodes == WithParents(old(nodes), p, i)
        {
          WithParentsStep(old(nodes), p, i);
          nodes := nodes[p[..i] := Dir];
        }
      }
    }

    /** `copy_layer_entry` of one node to `p`. */
    method CopyLayerEntry(node: Node, p: Path) returns (ok: bool)
      requires IsTree(nodes) && GoodPath(p) && !node.Dir?
      modifies this
      ensures ok <==> Clear(old(nodes), p)
      ensures ok ==> nodes == Planted(old(nodes), p, node)
    {
      ok := MakeParents(p);
      if ok {
        WithParentsIsTree(old(nodes), p);
        RemovePath(p);
        nodes := nodes[p := node];
        PlantingSteps(old(nodes), p, node);
      }
    }
  }

  predicate RelativeName(s: string) { !Absolute(s) && Parts(s) != [] && ".." !in Parts(s) }

  lemma FirstRemovedSteps(d: Delta)
    ensures FirstRemoved(d, 0) == {} && FirstRemoved(d, |d.removed|) == RemovedPaths(d)
    ensures forall i :: 0 <= i < |d.removed| ==>
              FirstRemoved(d, i + 1) == FirstRemoved(d, i) + {Parts(d.removed[i])}
  {}

  /** With a path clear, only its spelling can make `safe_layer_path` refuse it. */
  lemma ClearIsSafe(esc: Escapes, t: Tree, relative: string)
    requires Resolver(esc) && RelativeName(relative) && Clear(t, Parts(relative))
    ensures SafeLayerPath(esc, t, relative)
  {
    assert NoLinkAbove(t, Parts(relative));
  }

  /** The removal half of `apply_install_layer`. */
  method RemoveEntries(esc: Escapes, d: Delta, staged: Directory) returns (ok: bool)
    requires IsTree(staged.nodes)
    modifies staged
    ensures ok <==> forall i :: 0 <= i < |d.removed| ==>
                      SafeLayerPath(esc, Without(old(staged.nodes), FirstRemoved(d, i)), d.removed[i])
    ensures ok ==> staged.nodes == Without(old(staged.nodes), RemovedPaths(d)) && IsTree(staged.nodes)
  {
    ghost var t := staged.nodes;
    WithoutNone(t);
    FirstRemovedSteps(d);
    hide IsTree, Without, Covered, Pruned, FirstRemoved, RemovedPaths, Parts;
    for i := 0 to |d.removed|
      invariant staged.nodes == Without(t, FirstRemoved(d, i)) && IsTree(staged.nodes)
      invariant [] !in FirstRemoved(d, i)
      invariant forall j :: 0 <= j < i ==> SafeLayerPath(esc, Without(t, FirstRemoved(d, j)), d.removed[j])
    {
      if !SafeLayerPath(esc, staged.nodes, d.removed[i]) { return false; }
      WithoutStep(t, FirstRemoved(d, i), Parts(d.removed[i]));
      WithoutIsTree(t, FirstRemoved(d, i + 1));
      staged.RemovePath(Parts(d.removed[i]));
    }
    ok := true;
  }

  /** Entries that can be copied from a tree without one landing on another's ancestor. */
  ghost predicate Copyable(source: Tree, names: set<string>) {
    && PrefixFree(PathsOf(names))
    && forall s :: s in names ==> RelativeName(s) && GoodPath(Parts(s)) && Lists(source, Parts(s))
  }

  lemma CopyStep(esc: Escapes, t: Tree, source: Tree, names: set<string>, cs: set<Path>, relative: string)
    requires Resolver(esc) && IsTree(t) && Copyable(source, names) && relative in names
    requires cs <= PathsOf(names) && forall c :: c in cs ==> Clear(t, c)
    ensures Parts(relative) in PathsOf(names)
    ensures GoodPath(Parts(relative)) && Parts(relative) in source && !source[Parts(relative)].Dir?
    ensures cs + {Parts(relative)} <= source.Keys
    ensures Clear(Overlay(t, source, cs), Parts(relative)) <==> Clear(t, Parts(relative))
    ensures RelativeName(relative)
    ensures Clear(t, Parts(relative)) ==>
              && Planted(Overlay(t, source, cs), Parts(relative), source[Parts(relative)])
                 == Overlay(t, source, cs + {Parts(relative)})
              && IsTree(Overlay(t, source, cs + {Parts(relative)}))
  {
    var p := Parts(relative);
    forall c | c in PathsOf(names) ensures c in source.Keys && GoodPath(c) {
      var s :| s in names && Parts(s) == c;
    }
    assert p in PathsOf(names);
    OverlayClear(t, source, cs, p);
    if Clear(t, p) {
      OverlayStep(t, source, cs, p);
      OverlayIsTree(t, source, cs + {p});
    }
  }

  lemma CopyablePaths(source: Tree, names: set<string>)
    requires Copyable(source, names)
    ensures PathsOf(names) <= source.Keys
  {}

  ghost predicate Reached(names: set<string>, done: set<Path>) { forall s :: s in names ==> Parts(s) in done }

  lemma ReachedStep(names: set<string>, todo: set<string>, done: set<Path>, relative: string)
    requires Reached(names - todo, done)
    ensures Reached(names - (todo - {relative}), done + {Parts(relative)})
  {}

  lemma PathsOfAll(names: set<string>, done: set<Path>)
    requires done <= PathsOf(names) && Reached(names, done)
    ensures done == PathsOf(names)
  {}

  /** One entry, named as in the metadata, copied to its place in `target`. */
  method CopyNamed(esc: Escapes, node: Node, relative: string, target: Directory) returns (ok: bool)
    requires Resolver(esc) && IsTree(target.nodes)
    requires RelativeName(relative) && GoodPath(Parts(relative)) && !node.Dir?
    modifies target
    ensures ok <==> Clear(old(target.nodes), Parts(relative))
    ensures ok ==> target.nodes == Planted(old(target.nodes), Parts(relative), node)
  {
    if Clear(target.nodes, Parts(relative)) { ClearIsSafe(esc, target.nodes, relative); }
    hide *;
    if !SafeLayerPath(esc, target.nodes, relative) { return false; }
    ok := target.CopyLayerEntry(node, Parts(relative));
  }

  /** The copying half of `apply_install_layer` and of `capture_install_layer`, entries in any order. */
  method CopyEntries(esc: Escapes, source: Tree, names: set<string>, target: Directory) returns (ok: bool)
    requires Resolver(esc) && IsTree(target.nodes) && Copyable(source, names)
    modifies target
    ensures PathsOf(names) <= source.Keys
    ensures ok <==> forall c :: c in PathsOf(names) ==> Clear(old(target.nodes), c)
    ensures ok ==> target.nodes == Overlay(old(target.nodes), source, PathsOf(names)) && IsTree(target.nodes)
  {
    ghost var t := target.nodes;
    OverlayNone(t, source);
    CopyablePaths(source, names);
    assert Reached(names - names, {});
    hide *;
    var todo := names;
    ghost var done: set<Path> := {};
    while todo != {}
      invariant todo <= names && done <= PathsOf(names) <= source.Keys
      invariant Reached(names - todo, done)
      invariant target.nodes == Overlay(t, source, done) && IsTree(target.nodes)
      invariant forall c :: c in done ==> Clear(t, c)
    {
      var relative :| relative in todo;
      CopyStep(esc, t, source, names, done, relative);
      var copied := CopyNamed(esc, source[Parts(relative)], relative, target);
      if !copied { return false; }
      ReachedStep(names, todo, done, relative);
      todo, done := todo - {relative}, done + {Parts(relative)};
    }
    assert names - todo == names;
    PathsOfAll(names, done);
    ok := true;
  }

  /** `apply_install_layer`: nothing is touched until every cached byte has been checked. */
  method ApplyInstallLayer(hash: Hash, esc: Escapes, layer: Tree, staged: Directory) returns (r: Result<Delta>)
    requires Resolver(esc) && IsTree(layer) && IsTree(staged.nodes)
    modifies staged
    ensures !Valid(hash, esc, layer) ==> r.Err? && staged.nodes == old(staged.nodes)
    ensures forall d :: Accepts(hash, esc, layer, d) ==> (r.Ok? <==> Replayable(esc, old(staged.nodes), d))
    ensures r.Ok? ==> && Accepts(hash, esc, layer, r.value) && PathsOf(r.value.changed.Keys) <= layer.Keys
                      && staged.nodes == Replayed(old(staged.nodes), layer, r.value) && IsTree(staged.nodes)
  {
    ghost var t := staged.nodes;
    r := ValidateInstallLayer(hash, esc, layer);
    if r.Err? { return; }
    var d := r.value;
    assert forall e :: Accepts(hash, esc, layer, e) ==> e == d by {
      forall e | Accepts(hash, esc, layer, e) ensures e == d { AcceptsUnique(hash, esc, layer, d, e); }
    }
    AcceptedPrefixFree(hash, esc, layer, d);
    hide Accepts;
    var removed := RemoveEntries(esc, d, staged);
    if !removed { return Err(BadEntry); }
    var copied := CopyEntries(esc, layer, d.changed.Keys, staged);
    if !copied { return Err(Obstructed); }
  }

  /** The changed entries alone, before the metadata is written beside them. */
  ghost function Candidate(hash: Hash, t: Tree, before: Inventory): Tree {
    Overlay(EMPTY, t, PathsOf(DeltaOf(before, InventoryOf(hash, t)).changed.Keys))
  }

  lemma CapturedPaths(hash: Hash, t: Tree, before: Inventory)
    requires IsTree(t)
    ensures Copyable(t, DeltaOf(before, InventoryOf(hash, t)).changed.Keys)
    ensures PathsOf(DeltaOf(before, InventoryOf(hash, t)).changed.Keys) <= t.Keys
  {
    var names := DeltaOf(before, InventoryOf(hash, t)).changed.Keys;
    ListedNames(hash, t);
    forall s | s in names ensures RelativeName(s) && GoodPath(Parts(s)) && Lists(t, Parts(s)) {
      assert s in InventoryOf(hash, t);
      PartsOfPosix(Parts(s));
      assert forall i :: 0 <= i < |Parts(s)| ==> GoodName(Parts(s)[i]);
    }
    forall x, y | x in PathsOf(names) && y in PathsOf(names) ensures !Above(x, y) {
      if Above(x, y) { ListedPrefixFree(t, x, y); }
    }
  }

  /** `write_text` of the metadata finds a file or nothing at its name. */
  predicate MetadataWritable(candidate: Tree) {
    METADATA !in candidate || candidate[METADATA].File?
  }

  /** `capture_install_layer`: the old layer stays until the new one is complete beside it. */
  method CaptureInstallLayer(hash: Hash, esc: Escapes, staged: Tree, before: Inventory, layer: Directory)
    returns (ok: bool)
    requires Resolver(esc) && IsTree(staged)
    modifies layer
    ensures ok <==> MetadataWritable(Candidate(hash, staged, before))
    ensures layer.nodes == if ok then Captured(hash, staged, before) else old(layer.nodes)
  {
    CandidateIs(hash, staged, before);
    hide *;
    var after := TreeInventory(hash, staged, false);
    var d := DeltaOf(before, after);
    var candidate := CopyChanged(esc, staged, d.changed.Keys);
    WritableIs(candidate);
    if METADATA in candidate && !candidate[METADATA].File? { return false; }
    layer.nodes := candidate[METADATA := MetadataFile(d)];
    ok := true;
  }

  /** The fresh directory beside the old layer that the changed entries are copied to. */
  method CopyChanged(esc: Escapes, staged: Tree, names: set<string>) returns (candidate: Tree)
    requires Resolver(esc) && Copyable(staged, names)
    ensures candidate == Overlay(EMPTY, staged, PathsOf(names))
  {
    EmptyIsTree();
    hide *;
    var directory := new Directory();
    var copied := CopyEntries(esc, staged, names, directory);
    candidate := directory.nodes;
  }

  lemma WritableIs(candidate: Tree)
    ensures MetadataWritable(candidate) <==> (METADATA !in candidate || candidate[METADATA].File?)
  {}

  /** The captured layer spelled out: the changed entries over nothing, then the metadata. */
  lemma CandidateIs(hash: Hash, t: Tree, before: Inventory)
    requires IsTree(t)
    ensures var d := DeltaOf(before, InventoryOf(hash, t));
            && Copyable(t, d.changed.Keys) && PathsOf(d.changed.Keys) <= t.Keys
            && Candidate(hash, t, before) == Overlay(EMPTY, t, PathsOf(d.changed.Keys))
            && Captured(hash, t, before) == Candidate(hash, t, before)[METADATA := MetadataFile(d)]
    ensures IsTree(EMPTY) && forall c :: Clear(EMPTY, c)
  {
    CapturedPaths(hash, t, before);
    EmptyIsTree();
    hide InventoryOf, DeltaOf, Overlay, PathsOf, Copyable, MetadataFile, IsTree, Clear;
  }

  lemma EmptyIsTree()
    ensures IsTree(EMPTY)
    ensures forall c :: Clear(EMPTY, c)
  {}

  // ---------------------------------------------------------------- what a checked layer is

  lemma DropDotsKeeps(p: Path)
    ensures DropDots(p) == [] <==> forall c :: c in p ==> c == "" || c == "."
  {
    var r := DropDots(p);
    if r != [] { assert r[0] in r; }
  }

  /** A name of the metadata is safe when it is relative, names something, never goes up and does not escape. */
  lemma SafeNames(esc: Escapes, t: Tree, s: string)
    ensures SafeLayerPath(esc, t, s) <==>
              && (s != "" ==> s[0] != '/') && (exists c :: c in Split(s, '/') && c != "" && c != ".")
              && ".." !in Split(s, '/') && !esc(t, Parts(s))
  {
    DropDotsKeeps(Split(s, '/'));
  }

  /** The metadata says format 2, in any way Python takes for the number. */
  predicate SaysTwo(m: map<string, Json>) { "format" in m && Plain(m["format"]) == JFloat(2.0) }

  /** A layer of any other format, or of none, is refused, and those that are captured say 2. */
  lemma OtherFormatsRefused(hash: Hash, esc: Escapes, layer: Tree, d: Delta)
    ensures Valid(hash, esc, layer) ==> ReadMetadata(layer).Ok? && SaysTwo(ReadMetadata(layer).value)
    ensures MetadataJson(d).fields["format"] == JInt(2) && SaysTwo(MetadataJson(d).fields)
  {
    if Valid(hash, esc, layer) {
      var e :| Accepts(hash, esc, layer, e);
      PyEqIsPlain(ReadMetadata(layer).value["format"], JInt(2));
    }
  }

  /** What acceptance says of every single entry. */
  lemma AcceptedEntries(hash: Hash, esc: Escapes, layer: Tree, d: Delta)
    requires Accepts(hash, esc, layer, d)
    ensures forall s :: s in d.changed ==>
              && SafeLayerPath(esc, layer, s) && Parts(s) in layer && !layer[Parts(s)].Dir?
              && d.changed[s] == (match layer[Parts(s)] case Link(target) => "symlink:" + target
                                                        case File(content) => "file:" + hash(content)
                                                        case Dir => "")
    ensures forall i :: 0 <= i < |d.removed| ==> SafeLayerPath(esc, layer, d.removed[i])
  {
    var m := ReadMetadata(layer).value;
    forall s | s in d.changed ensures ChangedOk(hash, esc, layer, s, m["changed"].fields[s]) {}
    forall i | 0 <= i < |d.removed| ensures RemovedOk(esc, layer, m["removed"].items[i]) {}
  }
}
