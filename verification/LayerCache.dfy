/**
 The three-tier dependency cache as a step machine: every reuse run starts from a clean copy of
 its predecessor SDK and passes the ports, Skia and curl tiers in turn, replaying a layer on a
 hit and building, capturing and marking on a miss. A run may stop between any two steps.
 What a build may leave is a relation on trees: builds need not be repeatable.
 */
module LayerCache {
  import opened Wrappers
  import opened PosixPaths
  import opened Json
  import opened Trees
  import opened Framing
  import InstallLayer
  import opened LayerRoundTrip

  type Delta = InstallLayer.Delta

  const PORTS: nat := 0
  const SKIA: nat := 1
  const CURL: nat := 2

  /**
   What a run was asked to build with: the compiler's identity, the hashed recipe files of each
   tier, and the asset files its builds read that no key hashes.
   */
  datatype Inputs = Inputs(compiler: string, files: seq<seq<string>>, assets: string) {
    ghost predicate Ok() { |files| == 3 && forall i :: 0 <= i < 3 ==> AllNulFree(files[i]) }
  }

  /** The inputs a tier's key covers: the compiler for the ports only. */
  datatype Keyed = Keyed(compiler: string, files: seq<string>)

  function KeyedInputs(inputs: Inputs, tier: nat): Keyed {
    Keyed(if tier == PORTS then inputs.compiler else "", if tier < |inputs.files| then inputs.files[tier] else [])
  }

  /** A marker's text, as the digests it joins. */
  datatype Key = Key(inventory: string, compiler: string, files: string)

  /**
   The surroundings: digests, path resolution, and which tree the build of a tier may leave of
   which, given all the inputs of the run, keyed or not.
   */
  datatype Env = Env(hash: InstallLayer.Hash, sha: string -> string, esc: InstallLayer.Escapes,
                     builds: (nat, Inputs, Tree, Tree) -> bool)

  ghost predicate Injective(sha: string -> string) { forall a, b :: sha(a) == sha(b) ==> a == b }

  ghost predicate EnvOk(env: Env) {
    && Injective(env.sha) && InstallLayer.Resolver(env.esc) && forall c :: NulFree(env.hash(c))
  }

  /** A tree the host can hold: names and link targets have no NUL. */
  ghost predicate Hosted(t: Tree) {
    IsTree(t) && forall p :: p in t && t[p].Link? ==> NulFree(t[p].target)
  }

  ghost function KeyedInventory(env: Env, tier: nat, t: Tree): Inventory {
    if tier == PORTS then InstallLayer.NormalInventoryOf(env.hash, t) else InstallLayer.InventoryOf(env.hash, t)
  }

  /** The key of a tier about to run on the staged tree `t`. */
  ghost function KeyOf(env: Env, tier: nat, t: Tree, inputs: Keyed): Key {
    Key(env.sha(InventoryStream(KeyedInventory(env, tier, t))), inputs.compiler, env.sha(IndexedStream(inputs.files)))
  }

  // ---------------------------------------------------------------- states and steps

  datatype Slot = Slot(layer: Option<Tree>, marker: Option<Key>)

  datatype Phase =
    | Checking
    | Built      // built, old layer possibly part deleted, marker old
    | Replaced   // new layer in place, marker still old
    | Truncated  // marker opened for writing

  /** `trail` keeps the tree staged when each tier was reached, the predecessor's copy first. */
  datatype Run = Run(inputs: Inputs, tier: nat, trail: seq<Tree>, staged: Tree, phase: Phase) {
    function Onward(next: Tree): Run {
      this.(tier := tier + 1, trail := trail + [next], staged := next, phase := Checking)
    }

    ghost predicate Shaped() { |trail| == tier + 1 }

    /** The tree the current tier started from. */
    function Base(): Tree { if tier < |trail| then trail[tier] else staged }
  }

  /** A finished build: kept as evidence of where layers come from. */
  datatype Capture = Capture(tier: nat, inputs: Inputs, base: Tree, made: Tree)

  datatype State = State(slots: seq<Slot>, run: Option<Run>, log: set<Capture>)

  datatype Step =
    | Start(inputs: Inputs, sdk: Tree)
    | Hit(delta: Delta)
    | Build(made: Tree)
    | Erode(rest: Option<Tree>)
    | Replace
    | Truncate
    | Mark
    | Stop

  ghost predicate Hits(env: Env, slot: Slot, key: Key, d: Delta) {
    && slot.layer.Some? && slot.marker == Some(key) && IsTree(slot.layer.value)
    && InstallLayer.Accepts(env.hash, env.esc, slot.layer.value, d)
  }

  ghost predicate Active(s: State, phase: Phase) {
    && |s.slots| == 3 && s.run.Some? && s.run.value.phase == phase
    && s.run.value.tier < 3 && s.run.value.Shaped() && s.run.value.inputs.Ok()
  }

  ghost function RunKey(env: Env, r: Run): Key { KeyOf(env, r.tier, r.Base(), KeyedInputs(r.inputs, r.tier)) }

  /** The layer a run captures of what it has built. */
  ghost function RunLayer(env: Env, r: Run): Tree {
    InstallLayer.Captured(env.hash, r.staged, InstallLayer.InventoryOf(env.hash, r.Base()))
  }

  /** The build of a tier may leave `made` of `base`. */
  ghost predicate Makes(env: Env, tier: nat, inputs: Inputs, base: Tree, made: Tree) {
    && Hosted(base) && Hosted(made) && InstallLayer.METADATA !in made && env.builds(tier, inputs, base, made)
  }

  lemma MadeFacts(env: Env, tier: nat, inputs: Inputs, base: Tree, made: Tree)
    requires Makes(env, tier, inputs, base, made)
    ensures Hosted(base) && Hosted(made) && IsTree(base) && IsTree(made) && InstallLayer.METADATA !in made
  {}

  function WithLayer(s: State, i: nat, layer: Option<Tree>): State
    requires i < |s.slots|
  {
    s.(slots := s.slots[i := s.slots[i].(layer := layer)])
  }

  function WithMarker(s: State, i: nat, marker: Option<Key>): State
    requires i < |s.slots|
  {
    s.(slots := s.slots[i := s.slots[i].(marker := marker)])
  }

  ghost predicate Next(env: Env, s: State, step: Step, s': State) {
    match step
    case Start(inputs, sdk) =>
      && s.run.None? && inputs.Ok() && Hosted(sdk)
      && s' == s.(run := Some(Run(inputs, PORTS, [sdk], sdk, Checking)))
    case Hit(d) =>
      && Active(s, Checking)
      && var r, slot := s.run.value, s.slots[s.run.value.tier];
      && Hits(env, slot, RunKey(env, r), d) && InstallLayer.Replayable(env.esc, r.staged, d)
      && s' == s.(run := Some(r.Onward(InstallLayer.Replayed(r.staged, slot.layer.value, d))))
    case Build(made) =>
      && Active(s, Checking)
      && var r := s.run.value;
      && !(exists d :: Hits(env, s.slots[r.tier], RunKey(env, r), d))
      && Makes(env, r.tier, r.inputs, r.staged, made)
      && s' == s.(run := Some(r.(staged := made, phase := Built)),
                  log := s.log + {Capture(r.tier, r.inputs, r.Base(), made)})
    case Erode(rest) =>
      && Active(s, Built)
      && var i := s.run.value.tier;
      && (rest.Some? ==> s.slots[i].layer.Some? && IsTree(rest.value) && Remnant(rest.value, s.slots[i].layer.value))
      && s' == WithLayer(s, i, rest)
    case Replace =>
      && Active(s, Built)
      && var r := s.run.value;
      && s' == WithLayer(s, r.tier, Some(RunLayer(env, r))).(run := Some(r.(phase := Replaced)))
    case Truncate =>
      && Active(s, Replaced)
      && var r := s.run.value;
      && s' == WithMarker(s, r.tier, None).(run := Some(r.(phase := Truncated)))
    case Mark =>
      && Active(s, Truncated)
      && var r := s.run.value;
      && s' == WithMarker(s, r.tier, Some(RunKey(env, r))).(run := Some(r.Onward(r.staged)))
    case Stop => s.run.Some? && s' == s.(run := None)
  }

  /** A stop that leaves a new layer under a marker that holds another run's key. */
  ghost predicate Harmful(env: Env, s: State, step: Step) {
    && step.Stop? && Active(s, Replaced)
    && var marker := s.slots[s.run.value.tier].marker;
    && marker.Some? && marker.value != RunKey(env, s.run.value)
  }

  // ---------------------------------------------------------------- the invariant

  ghost predicate CaptureOk(env: Env, c: Capture) {
    c.tier < 3 && c.inputs.Ok() && Makes(env, c.tier, c.inputs, c.base, c.made)
  }

  /** The layer is what is left of a logged capture whose key the marker holds. */
  ghost predicate Backed(env: Env, slot: Slot, tier: nat, c: Capture) {
    && c.tier == tier && CaptureOk(env, c)
    && slot.marker == Some(KeyOf(env, tier, c.base, KeyedInputs(c.inputs, tier)))
    && slot.layer.Some?
    && Remnant(slot.layer.value,
               InstallLayer.Captured(env.hash, c.made, InstallLayer.InventoryOf(env.hash, c.base)))
  }

  ghost predicate SlotOk(env: Env, slot: Slot, tier: nat, log: set<Capture>) {
    slot.layer.Some? && slot.marker.Some? ==> exists c :: c in log && Backed(env, slot, tier, c)
  }

  ghost predicate InWindow(s: State, i: nat) {
    s.run.Some? && s.run.value.tier == i && s.run.value.phase.Replaced?
  }

  /** What a build from `before` to `after` makes of `l`: kept names keep their identity in `l`. */
  ghost function Moved(before: Inventory, after: Inventory, l: Inventory): Inventory {
    Updated(l, after, InstallLayer.DeltaOf(before, after))
  }

  /** `next` is what the recorded build `c`, under the same key, makes of `t`. */
  ghost predicate Follows(env: Env, c: Capture, tier: nat, inputs: Inputs, t: Tree, next: Tree) {
    && c.tier == tier && CaptureOk(env, c)
    && KeyedInputs(c.inputs, tier) == KeyedInputs(inputs, tier)
    && KeyedInventory(env, tier, c.base) == KeyedInventory(env, tier, t)
    && InstallLayer.InventoryOf(env.hash, next)
       == Moved(InstallLayer.InventoryOf(env.hash, c.base), InstallLayer.InventoryOf(env.hash, c.made),
                InstallLayer.InventoryOf(env.hash, t))
  }

  ghost predicate Passed(env: Env, log: set<Capture>, tier: nat, inputs: Inputs, t: Tree, next: Tree) {
    exists c :: c in log && Follows(env, c, tier, inputs, t, next)
  }

  ghost predicate RunOk(env: Env, r: Run, log: set<Capture>) {
    && r.inputs.Ok() && r.tier <= 3 && r.Shaped() && Hosted(r.staged)
    && (forall i :: 0 <= i <= r.tier ==> Hosted(r.trail[i]))
    && (forall i :: 0 <= i < r.tier ==> Passed(env, log, i, r.inputs, r.trail[i], r.trail[i + 1]))
    && if r.phase.Checking? then r.staged == r.trail[r.tier]
       else r.tier < 3 && Capture(r.tier, r.inputs, r.trail[r.tier], r.staged) in log
  }

  /** Once replaced, the tier's layer is the one just captured. */
  ghost predicate LayerInPlace(env: Env, s: State)
    requires |s.slots| == 3 && s.run.Some?
  {
    var r := s.run.value;
    r.phase.Replaced? || r.phase.Truncated? ==> r.tier < 3 && s.slots[r.tier].layer == Some(RunLayer(env, r))
  }

  ghost predicate Invariant(env: Env, s: State) {
    && |s.slots| == 3
    && (forall c :: c in s.log ==> CaptureOk(env, c))
    && (forall i :: 0 <= i < 3 && !InWindow(s, i) ==> SlotOk(env, s.slots[i], i, s.log))
    && (s.run.Some? ==> RunOk(env, s.run.value, s.log) && LayerInPlace(env, s))
  }

  // ---------------------------------------------------------------- what equal keys mean

  lemma IdentityNulFree(env: Env, normal: bool, p: Path, node: Node)
    requires EnvOk(env) && !node.Dir? && (node.Link? ==> NulFree(node.target))
    ensures NulFree(InstallLayer.EntryIdentity(env.hash, normal, p, node))
  {}

  lemma InventoriesNulFree(env: Env, t: Tree)
    requires EnvOk(env) && Hosted(t)
    ensures InventoryNulFree(InstallLayer.InventoryOf(env.hash, t))
    ensures InventoryNulFree(InstallLayer.NormalInventoryOf(env.hash, t))
  {
    ListingNulFree(env, t, false);
    ListingNulFree(env, t, true);
  }

  lemma ListingNulFree(env: Env, t: Tree, normal: bool)
    requires EnvOk(env) && Hosted(t)
    requires forall p :: p in InstallLayer.Listing(env.hash, normal, t) ==> GoodPath(p)
    ensures InventoryNulFree(InstallLayer.Named(InstallLayer.Listing(env.hash, normal, t)))
  {
    var listing := InstallLayer.Listing(env.hash, normal, t);
    var named := InstallLayer.Named(listing);
    forall s | s in named ensures NulFree(s) && NulFree(named[s]) {
      var p := Parts(s);
      assert p in listing && s == Posix(p) && named[s] == listing[p];
      IdentityNulFree(env, normal, p, t[p]);
      assert GoodPath(p);
      assert forall i :: 0 <= i < |p| ==> GoodName(p[i]);
      JoinFree(p, '/', NUL);
    }
  }

  /** Equal keys cover equal inventories and equal inputs. */
  lemma EqualKeys(env: Env, tier: nat, a: Tree, b: Tree, x: Keyed, y: Keyed)
    requires EnvOk(env) && Hosted(a) && Hosted(b) && AllNulFree(x.files) && AllNulFree(y.files)
    ensures KeyOf(env, tier, a, x) == KeyOf(env, tier, b, y) <==>
              x == y && KeyedInventory(env, tier, a) == KeyedInventory(env, tier, b)
  {
    InventoriesNulFree(env, a);
    InventoriesNulFree(env, b);
    InventoryStreamInjective(KeyedInventory(env, tier, a), KeyedInventory(env, tier, b));
    IndexedStreamInjective(x.files, y.files);
  }

  lemma ManifestPath()
    ensures Parts("manifest.json") == InstallLayer.MANIFEST && Posix(InstallLayer.MANIFEST) == "manifest.json"
    ensures GoodPath(InstallLayer.MANIFEST)
  {
    var m := InstallLayer.MANIFEST;
    assert GoodName(m[0]);
    PartsOfPosix(m);
  }

  /** Two inventories that agree but for the manifest. */
  predicate SameOffManifest(a: Inventory, b: Inventory) {
    a.Keys == b.Keys && forall s :: s in a && s != "manifest.json" ==> a[s] == b[s]
  }

  /** The normalised inventory forgets the manifest at most. */
  lemma NormalSame(env: Env, a: Tree, b: Tree)
    requires IsTree(a) && IsTree(b)
    requires InstallLayer.NormalInventoryOf(env.hash, a) == InstallLayer.NormalInventoryOf(env.hash, b)
    ensures SameOffManifest(InstallLayer.InventoryOf(env.hash, a), InstallLayer.InventoryOf(env.hash, b))
  {
    NormalAgrees(env, a);
    NormalAgrees(env, b);
  }

  lemma NormalAgrees(env: Env, t: Tree)
    requires IsTree(t)
    ensures SameOffManifest(InstallLayer.InventoryOf(env.hash, t), InstallLayer.NormalInventoryOf(env.hash, t))
  {
    var plain, normal := InstallLayer.Listing(env.hash, false, t), InstallLayer.Listing(env.hash, true, t);
    assert plain.Keys == normal.Keys;
    var i, n := InstallLayer.InventoryOf(env.hash, t), InstallLayer.NormalInventoryOf(env.hash, t);
    ManifestPath();
    forall s ensures s in i <==> s in n {
      if s in i { assert Posix(Parts(s)) in n; }
      if s in n { assert Posix(Parts(s)) in i; }
    }
    forall s | s in i && s != "manifest.json" ensures i[s] == n[s] {
      assert i[s] == plain[Parts(s)] && n[s] == normal[Parts(s)];
      assert Parts(s) != InstallLayer.MANIFEST;
    }
  }

  // ---------------------------------------------------------------- what a hit does

  lemma OverlayHosted(t: Tree, src: Tree, gone: set<Path>, cs: set<Path>)
    requires Hosted(t) && cs <= src.Keys && IsTree(Overlay(Without(t, gone), src, cs))
    requires forall c :: c in cs && src[c].Link? ==> NulFree(src[c].target)
    ensures Hosted(Overlay(Without(t, gone), src, cs))
  {}

  lemma MovedAt(before: Inventory, after: Inventory, l: Inventory, s: string)
    ensures var m, kept := Moved(before, after, l), s in before && s in after && before[s] == after[s];
            && (s in m <==> s in after && (kept ==> s in l))
            && (s in m ==> m[s] == if kept then l[s] else after[s])
  {}

  /** From the inventory a build started from, it moves to the one it ended with. */
  lemma MovedSelf(before: Inventory, after: Inventory)
    ensures Moved(before, after, before) == after
  {
    UpdatedSelf(before, after);
  }

  /** Equal keys of trees mean equal names. */
  lemma KeyedNames(env: Env, tier: nat, a: Tree, b: Tree)
    requires IsTree(a) && IsTree(b) && KeyedInventory(env, tier, a) == KeyedInventory(env, tier, b)
    ensures InstallLayer.InventoryOf(env.hash, a).Keys == InstallLayer.InventoryOf(env.hash, b).Keys
  {
    hide InstallLayer.NormalInventoryOf, InstallLayer.InventoryOf, IsTree;
    if tier == PORTS { NormalSame(env, a, b); }
  }

  /** Replaying what is left of a layer on a tree that lists the names its build started from. */
  lemma LayerOutcome(env: Env, layer: Tree, base: Tree, made: Tree, t: Tree, d: Delta)
    requires EnvOk(env) && Hosted(base) && Hosted(made) && InstallLayer.METADATA !in made && Hosted(t) && IsTree(layer)
    requires Remnant(layer, InstallLayer.Captured(env.hash, made, InstallLayer.InventoryOf(env.hash, base)))
    requires InstallLayer.Accepts(env.hash, env.esc, layer, d)
    requires InstallLayer.InventoryOf(env.hash, base).Keys == InstallLayer.InventoryOf(env.hash, t).Keys
    ensures d == Recorded(env.hash, made, InstallLayer.InventoryOf(env.hash, base))
    ensures InstallLayer.PathsOf(d.changed.Keys) <= layer.Keys
    ensures InstallLayer.Replayable(env.esc, t, d) && Hosted(InstallLayer.Replayed(t, layer, d))
    ensures InstallLayer.InventoryOf(env.hash, InstallLayer.Replayed(t, layer, d))
         == Moved(InstallLayer.InventoryOf(env.hash, base), InstallLayer.InventoryOf(env.hash, made),
                  InstallLayer.InventoryOf(env.hash, t))
  {
    hide InstallLayer.InventoryOf, InstallLayer.Captured, InstallLayer.Accepts, InstallLayer.Replayable, IsTree;
    hide Overlay, Without;
    var before := InstallLayer.InventoryOf(env.hash, base);
    var whole := InstallLayer.Captured(env.hash, made, before);
    RemnantReplays(env.hash, env.esc, layer, made, before, d, t);
    NoMetadataEntry(env.hash, made, before);
    CapturedCarries(env.hash, made, before);
    ReplayInventory(env.hash, env.esc, t, made, before, whole);
    OverlayHosted(t, whole, InstallLayer.RemovedPaths(d), InstallLayer.PathsOf(d.changed.Keys));
  }

  /**
   A hit replays without failing what is left of a layer captured under an equal key, and leaves
   what that build makes of the tree in front of it. Nothing is asked of the builds.
   */
  lemma HitOutcome(env: Env, slot: Slot, tier: nat, c: Capture, t: Tree, inputs: Inputs, d: Delta)
    requires EnvOk(env) && Backed(env, slot, tier, c) && Hosted(t) && inputs.Ok() && tier < 3
    requires Hits(env, slot, KeyOf(env, tier, t, KeyedInputs(inputs, tier)), d)
    ensures d == Recorded(env.hash, c.made, InstallLayer.InventoryOf(env.hash, c.base))
    ensures InstallLayer.PathsOf(d.changed.Keys) <= slot.layer.value.Keys
    ensures InstallLayer.Replayable(env.esc, t, d)
    ensures Hosted(InstallLayer.Replayed(t, slot.layer.value, d))
    ensures Follows(env, c, tier, inputs, t, InstallLayer.Replayed(t, slot.layer.value, d))
  {
    hide InstallLayer.InventoryOf, InstallLayer.Captured, InstallLayer.Accepts, InstallLayer.Replayable, IsTree;
    hide KeyOf, Remnant, KeyedInventory, InstallLayer.PathsOf, InstallLayer.Replayed, EnvOk;
    EqualKeys(env, tier, c.base, t, KeyedInputs(c.inputs, tier), KeyedInputs(inputs, tier));
    KeyedNames(env, tier, c.base, t);
    LayerOutcome(env, slot.layer.value, c.base, c.made, t, d);
  }

  /** A finished build follows itself. */
  lemma BuildFollows(env: Env, c: Capture)
    requires CaptureOk(env, c)
    ensures Follows(env, c, c.tier, c.inputs, c.base, c.made)
  {
    hide InstallLayer.InventoryOf, KeyedInventory, CaptureOk, Moved;
    MovedSelf(InstallLayer.InventoryOf(env.hash, c.base), InstallLayer.InventoryOf(env.hash, c.made));
  }

  // ---------------------------------------------------------------- every step keeps the invariant

  lemma SlotGrows(env: Env, slot: Slot, tier: nat, log: set<Capture>, more: set<Capture>)
    requires SlotOk(env, slot, tier, log)
    ensures SlotOk(env, slot, tier, log + more)
  {
    hide Backed;
    if slot.layer.Some? && slot.marker.Some? {
      var c :| c in log && Backed(env, slot, tier, c);
      assert c in log + more;
    }
  }

  lemma SlotErodes(env: Env, slot: Slot, tier: nat, log: set<Capture>, rest: Option<Tree>)
    requires SlotOk(env, slot, tier, log)
    requires rest.Some? ==> slot.layer.Some? && Remnant(rest.value, slot.layer.value)
    ensures SlotOk(env, slot.(layer := rest), tier, log)
  {
    if rest.Some? && slot.marker.Some? {
      var c :| c in log && Backed(env, slot, tier, c);
      assert Backed(env, slot.(layer := rest), tier, c);
    }
  }

  lemma UnmarkedOk(env: Env, slot: Slot, tier: nat, log: set<Capture>)
    requires slot.marker.None?
    ensures SlotOk(env, slot, tier, log)
  {}

  lemma PassedGrows(env: Env, log: set<Capture>, more: set<Capture>, tier: nat, inputs: Inputs, t: Tree, next: Tree)
    requires Passed(env, log, tier, inputs, t, next)
    ensures Passed(env, log + more, tier, inputs, t, next)
  {
    hide Follows;
    var c :| c in log && Follows(env, c, tier, inputs, t, next);
    assert c in log + more;
  }

  lemma RunGrows(env: Env, r: Run, log: set<Capture>, more: set<Capture>)
    requires RunOk(env, r, log)
    ensures RunOk(env, r, log + more)
  {
    hide Passed, Hosted;
    forall i | 0 <= i < r.tier ensures Passed(env, log + more, i, r.inputs, r.trail[i], r.trail[i + 1]) {
      PassedGrows(env, log, more, i, r.inputs, r.trail[i], r.trail[i + 1]);
    }
  }

  /** A tier passed lengthens the trail. */
  lemma OnwardOk(env: Env, r: Run, log: set<Capture>, next: Tree)
    requires RunOk(env, r, log) && r.tier < 3 && Hosted(next)
    requires Passed(env, log, r.tier, r.inputs, r.Base(), next)
    ensures RunOk(env, r.Onward(next), log)
  {
    hide Passed, Hosted;
    var q := r.Onward(next);
    forall i | 0 <= i < q.tier ensures Passed(env, log, i, q.inputs, q.trail[i], q.trail[i + 1]) {
      if i < r.tier { assert q.trail[i] == r.trail[i] && q.trail[i + 1] == r.trail[i + 1]; }
    }
  }

  /** The slot a hit reads from is backed by a logged capture. */
  lemma HitBacked(env: Env, s: State, d: Delta) returns (c: Capture)
    requires Invariant(env, s) && Active(s, Checking)
    requires Hits(env, s.slots[s.run.value.tier], RunKey(env, s.run.value), d)
    ensures c in s.log && Backed(env, s.slots[s.run.value.tier], s.run.value.tier, c)
  {
    hide EnvOk, Hosted, IsTree, KeyOf, Backed, RunOk, LayerInPlace, CaptureOk, InstallLayer.Accepts;
    var i := s.run.value.tier;
    assert !InWindow(s, i);
    assert SlotOk(env, s.slots[i], i, s.log);
    c :| c in s.log && Backed(env, s.slots[i], i, c);
  }

  /** What the invariant says of the run in progress. */
  lemma RunFacts(env: Env, s: State)
    requires Invariant(env, s) && s.run.Some?
    ensures |s.slots| == 3 && RunOk(env, s.run.value, s.log) && LayerInPlace(env, s)
    ensures forall c :: c in s.log ==> CaptureOk(env, c)
    ensures forall i :: 0 <= i < 3 && !InWindow(s, i) ==> SlotOk(env, s.slots[i], i, s.log)
  {
    hide RunOk, SlotOk, LayerInPlace, CaptureOk;
  }

  lemma BaseHosted(env: Env, r: Run, log: set<Capture>)
    requires RunOk(env, r, log)
    ensures Hosted(r.Base()) && Hosted(r.staged) && r.inputs.Ok() && (r.phase.Checking? ==> r.staged == r.Base())
  {
    hide Passed, Hosted;
  }

  lemma HitKeeps(env: Env, s: State, d: Delta, s': State)
    requires EnvOk(env) && Invariant(env, s) && Next(env, s, Hit(d), s')
    ensures Invariant(env, s')
  {
    hide EnvOk, Hosted, IsTree, InstallLayer.Captured, InstallLayer.InventoryOf, InstallLayer.Replayed, Follows, RunOk;
    hide InstallLayer.Replayable, InstallLayer.Accepts, KeyOf, SlotOk, CaptureOk, Backed, Remnant, InstallLayer.PathsOf;
    var r := s.run.value;
    RunFacts(env, s);
    var c := HitBacked(env, s, d);
    BaseHosted(env, r, s.log);
    HitOutcome(env, s.slots[r.tier], r.tier, c, r.staged, r.inputs, d);
    var next := InstallLayer.Replayed(r.staged, s.slots[r.tier].layer.value, d);
    assert Passed(env, s.log, r.tier, r.inputs, r.Base(), next);
    OnwardOk(env, r, s.log, next);
    assert forall j :: !InWindow(s', j) && !InWindow(s, j);
  }

  lemma BuildKeeps(env: Env, s: State, made: Tree, s': State)
    requires EnvOk(env) && Invariant(env, s) && Next(env, s, Build(made), s')
    ensures Invariant(env, s')
  {
    hide EnvOk, Hosted, IsTree, RunOk, KeyOf, SlotOk, Hits, Makes;
    var r := s.run.value;
    var capture := Capture(r.tier, r.inputs, r.Base(), made);
    RunFacts(env, s);
    BaseHosted(env, r, s.log);
    RunGrows(env, r, s.log, {capture});
    BuiltOk(env, r, s.log + {capture}, made);
    forall i | 0 <= i < 3 ensures SlotOk(env, s'.slots[i], i, s'.log) {
      assert !InWindow(s, i);
      SlotGrows(env, s.slots[i], i, s.log, {capture});
    }
  }

  lemma BuiltOk(env: Env, r: Run, log: set<Capture>, made: Tree)
    requires RunOk(env, r, log) && r.phase.Checking? && r.tier < 3
    requires Makes(env, r.tier, r.inputs, r.Base(), made) && Capture(r.tier, r.inputs, r.Base(), made) in log
    ensures RunOk(env, r.(staged := made, phase := Built), log)
    ensures CaptureOk(env, Capture(r.tier, r.inputs, r.Base(), made))
  {
    hide Passed, Hosted;
  }

  lemma ErodeKeeps(env: Env, s: State, rest: Option<Tree>, s': State)
    requires EnvOk(env) && Invariant(env, s) && Next(env, s, Erode(rest), s')
    ensures Invariant(env, s')
  {
    hide EnvOk, IsTree, RunOk, KeyOf, SlotOk, CaptureOk, Remnant, RunLayer, RunKey;
    var i := s.run.value.tier;
    RunFacts(env, s);
    assert !InWindow(s, i);
    SlotErodes(env, s.slots[i], i, s.log, rest);
    SlotsOk(env, s, s', i);
  }

  /** A step that changes one slot only. */
  lemma SlotsOk(env: Env, s: State, s': State, i: nat)
    requires |s.slots| == |s'.slots| == 3 && i < 3 && s'.log == s.log
    requires forall j :: 0 <= j < 3 && !InWindow(s, j) ==> SlotOk(env, s.slots[j], j, s.log)
    requires forall j :: 0 <= j < 3 && j != i ==> s'.slots[j] == s.slots[j] && !InWindow(s, j)
    requires SlotOk(env, s'.slots[i], i, s.log) || InWindow(s', i)
    ensures forall j :: 0 <= j < 3 && !InWindow(s', j) ==> SlotOk(env, s'.slots[j], j, s'.log)
  {
    hide SlotOk;
  }

  lemma PhaseOk(env: Env, r: Run, log: set<Capture>, phase: Phase)
    requires RunOk(env, r, log) && !r.phase.Checking? && !phase.Checking?
    ensures RunOk(env, r.(phase := phase), log)
  {
    hide Passed, Hosted;
  }

  lemma ReplaceKeeps(env: Env, s: State, s': State)
    requires EnvOk(env) && Invariant(env, s) && Next(env, s, Replace, s')
    ensures Invariant(env, s')
  {
    hide EnvOk, RunOk, KeyOf, SlotOk, CaptureOk, InstallLayer.Captured, InstallLayer.InventoryOf;
    var r := s.run.value;
    RunFacts(env, s);
    PhaseOk(env, r, s.log, Replaced);
    assert r.(phase := Replaced).Base() == r.Base();
    assert forall j :: !InWindow(s, j);
    assert InWindow(s', r.tier);
  }

  lemma TruncateKeeps(env: Env, s: State, s': State)
    requires EnvOk(env) && Invariant(env, s) && Next(env, s, Truncate, s')
    ensures Invariant(env, s')
  {
    hide EnvOk, RunOk, KeyOf, SlotOk, CaptureOk, InstallLayer.Captured, InstallLayer.InventoryOf;
    var r := s.run.value;
    RunFacts(env, s);
    PhaseOk(env, r, s.log, Truncated);
    assert r.(phase := Truncated).Base() == r.Base();
    UnmarkedOk(env, s'.slots[r.tier], r.tier, s.log);
    assert forall j :: InWindow(s, j) <==> j == r.tier;
  }

  /** The layer just captured, under the run's own key, is backed by the build just made. */
  lemma OwnLayerOk(env: Env, r: Run, log: set<Capture>)
    requires RunOk(env, r, log) && !r.phase.Checking? && forall c :: c in log ==> CaptureOk(env, c)
    ensures SlotOk(env, Slot(Some(RunLayer(env, r)), Some(RunKey(env, r))), r.tier, log)
    ensures Passed(env, log, r.tier, r.inputs, r.Base(), r.staged)
  {
    hide Hosted, IsTree, KeyOf, InstallLayer.Captured, InstallLayer.InventoryOf, CaptureOk, Follows;
    var c := Capture(r.tier, r.inputs, r.trail[r.tier], r.staged);
    var slot := Slot(Some(RunLayer(env, r)), Some(RunKey(env, r)));
    assert c in log && CaptureOk(env, c);
    assert Remnant(slot.layer.value, slot.layer.value);
    assert Backed(env, slot, r.tier, c);
    BuildFollows(env, c);
  }

  lemma MarkKeeps(env: Env, s: State, s': State)
    requires EnvOk(env) && Invariant(env, s) && Next(env, s, Mark, s')
    ensures Invariant(env, s')
  {
    hide EnvOk, Hosted, RunOk, KeyOf, SlotOk, CaptureOk, InstallLayer.Captured, InstallLayer.InventoryOf, Passed;
    var r := s.run.value;
    RunFacts(env, s);
    BaseHosted(env, r, s.log);
    OwnLayerOk(env, r, s.log);
    OnwardOk(env, r, s.log, r.staged);
    assert forall j :: !InWindow(s', j) && !InWindow(s, j);
  }

  /** A stop is harmless unless it leaves the new layer under another run's key. */
  lemma StopKeeps(env: Env, s: State, s': State)
    requires EnvOk(env) && Invariant(env, s) && !Harmful(env, s, Stop) && Next(env, s, Stop, s')
    ensures Invariant(env, s')
  {
    hide EnvOk, Hosted, KeyOf, SlotOk, CaptureOk, InstallLayer.Captured, InstallLayer.InventoryOf, Passed;
    var r := s.run.value;
    RunFacts(env, s);
    if r.phase.Replaced? {
      OwnLayerOk(env, r, s.log);
      var slot := s.slots[r.tier];
      if slot.marker.None? { UnmarkedOk(env, slot, r.tier, s.log); }
      assert SlotOk(env, slot, r.tier, s.log);
      assert forall j :: InWindow(s, j) <==> j == r.tier;
    } else {
      assert forall j :: !InWindow(s, j);
    }
  }

  lemma StartKeeps(env: Env, s: State, inputs: Inputs, sdk: Tree, s': State)
    requires EnvOk(env) && Invariant(env, s) && Next(env, s, Start(inputs, sdk), s')
    ensures Invariant(env, s')
  {
    hide EnvOk, Hosted, SlotOk, CaptureOk;
    assert forall j :: !InWindow(s, j) && !InWindow(s', j);
  }

  lemma StepKeeps(env: Env, s: State, step: Step, s': State)
    requires EnvOk(env) && Invariant(env, s) && !Harmful(env, s, step) && Next(env, s, step, s')
    ensures Invariant(env, s')
  {
    hide EnvOk, Invariant;
    match step
    case Start(inputs, sdk) => StartKeeps(env, s, inputs, sdk, s');
    case Hit(d) => HitKeeps(env, s, d, s');
    case Build(made) => BuildKeeps(env, s, made, s');
    case Erode(rest) => ErodeKeeps(env, s, rest, s');
    case Replace => ReplaceKeeps(env, s, s');
    case Truncate => TruncateKeeps(env, s, s');
    case Mark => MarkKeeps(env, s, s');
    case Stop => StopKeeps(env, s, s');
  }

  // ---------------------------------------------------------------- whole histories

  ghost predicate Initial(s: State) { s == State([Slot(None, None), Slot(None, None), Slot(None, None)], None, {}) }

  ghost predicate Linked(env: Env, states: seq<State>, steps: seq<Step>) {
    |states| == |steps| + 1 && forall i :: 0 <= i < |steps| ==> Next(env, states[i], steps[i], states[i + 1])
  }

  /** A history of reuse runs of one work root, from an empty cache. */
  ghost predicate History(env: Env, states: seq<State>, steps: seq<Step>) {
    Linked(env, states, steps) && Initial(states[0])
  }

  /** None of the first `n` steps stops where it leaves a layer under another run's key. */
  ghost predicate Harmless(env: Env, states: seq<State>, steps: seq<Step>, n: nat)
    requires n <= |steps| < |states|
  {
    forall i :: 0 <= i < n ==> !Harmful(env, states[i], steps[i])
  }

  lemma InitialOk(env: Env, s: State)
    requires Initial(s)
    ensures Invariant(env, s)
  {}

  lemma {:induction false} HistoryInvariant(env: Env, states: seq<State>, steps: seq<Step>, n: nat)
    requires EnvOk(env) && History(env, states, steps) && n <= |steps| && Harmless(env, states, steps, n)
    ensures Invariant(env, states[n])
  {
    hide EnvOk, Harmful, Invariant, Next, Initial;
    if n == 0 {
      InitialOk(env, states[0]);
    } else {
      HistoryInvariant(env, states, steps, n - 1);
      assert Next(env, states[n - 1], steps[n - 1], states[n]);
      StepKeeps(env, states[n - 1], steps[n - 1], states[n]);
    }
  }

  /**
   Cache safety, with nothing asked of the builds: in every history without a harmful stop, a run
   has passed each tier by a recorded build under an equal key, made of a tree that key covers.
   */
  lemma TiersAreRecorded(env: Env, states: seq<State>, steps: seq<Step>, n: nat)
    requires EnvOk(env) && History(env, states, steps) && n <= |steps| && Harmless(env, states, steps, n)
    requires states[n].run.Some?
    ensures var r := states[n].run.value;
            && r.tier <= 3 && |r.trail| == r.tier + 1 && (r.phase.Checking? ==> r.staged == r.trail[r.tier])
            && forall i :: 0 <= i < r.tier ==> Passed(env, states[n].log, i, r.inputs, r.trail[i], r.trail[i + 1])
  {
    hide EnvOk, Harmful, Passed, SlotOk, LayerInPlace, Next;
    HistoryInvariant(env, states, steps, n);
  }

  /** Every hit applies what is left of a layer captured under an equal key. */
  lemma HitsAreBacked(env: Env, states: seq<State>, steps: seq<Step>, n: nat) returns (c: Capture)
    requires EnvOk(env) && History(env, states, steps) && n < |steps| && Harmless(env, states, steps, n)
    requires steps[n].Hit?
    ensures Active(states[n], Checking) && states[n + 1].run.Some?
    ensures var r := states[n].run.value;
            && c in states[n].log && Backed(env, states[n].slots[r.tier], r.tier, c)
            && steps[n].delta == Recorded(env.hash, c.made, InstallLayer.InventoryOf(env.hash, c.base))
            && states[n + 1].run == Some(r.Onward(states[n + 1].run.value.staged))
            && r.staged == r.Base() && Follows(env, c, r.tier, r.inputs, r.staged, states[n + 1].run.value.staged)
  {
    hide EnvOk, Hosted, IsTree, KeyOf, Backed, RunOk, CaptureOk, InstallLayer.Accepts, SlotOk, Hits, Follows;
    hide InstallLayer.InventoryOf, InstallLayer.Replayable, InstallLayer.Replayed, InstallLayer.PathsOf;
    var s, d := states[n], steps[n].delta;
    assert Next(env, s, steps[n], states[n + 1]);
    hide Next;
    HistoryInvariant(env, states, steps, n);
    HitStep(env, s, d, states[n + 1]);
    RunFacts(env, s);
    c := HitBacked(env, s, d);
    var r := s.run.value;
    BaseHosted(env, r, s.log);
    HitOutcome(env, s.slots[r.tier], r.tier, c, r.staged, r.inputs, d);
  }

  lemma HitStep(env: Env, s: State, d: Delta, s': State)
    requires Next(env, s, Hit(d), s')
    ensures Active(s, Checking) && Hits(env, s.slots[s.run.value.tier], RunKey(env, s.run.value), d)
    ensures s.slots[s.run.value.tier].layer.Some?
    ensures s'.run == Some(s.run.value.Onward(
              InstallLayer.Replayed(s.run.value.staged, s.slots[s.run.value.tier].layer.value, d)))
  {
    hide KeyOf, InstallLayer.Accepts, InstallLayer.Replayable, InstallLayer.Replayed, IsTree;
  }

  /** `next` has the inventory the recorded build left, and `t` the one it started from. */
  ghost predicate Retraces(env: Env, c: Capture, t: Tree, next: Tree) {
    && InstallLayer.InventoryOf(env.hash, c.base) == InstallLayer.InventoryOf(env.hash, t)
    && InstallLayer.InventoryOf(env.hash, c.made) == InstallLayer.InventoryOf(env.hash, next)
  }

  lemma FollowsRetraces(env: Env, c: Capture, tier: nat, inputs: Inputs, t: Tree, next: Tree)
    requires Follows(env, c, tier, inputs, t, next)
    requires tier == PORTS ==> InstallLayer.InventoryOf(env.hash, c.base) == InstallLayer.InventoryOf(env.hash, t)
    ensures Retraces(env, c, t, next)
  {
    hide InstallLayer.InventoryOf, InstallLayer.NormalInventoryOf, CaptureOk, Moved;
    MovedSelf(InstallLayer.InventoryOf(env.hash, c.base), InstallLayer.InventoryOf(env.hash, c.made));
  }

  /**
   A run that hits ports, then Skia, then curl passes through the inventories of the recorded
   builds: each of the later ones started where the one before it had ended.
   */
  lemma ThreeHitsRetrace(env: Env, states: seq<State>, steps: seq<Step>, n: nat)
    returns (ports: Capture, skia: Capture, curl: Capture)
    requires EnvOk(env) && History(env, states, steps) && n + 3 <= |steps| && Harmless(env, states, steps, n + 3)
    requires steps[n].Hit? && steps[n + 1].Hit? && steps[n + 2].Hit?
    ensures {ports, skia, curl} <= states[n].log && ports.tier == PORTS && skia.tier == SKIA && curl.tier == CURL
    ensures states[n + 3].run.Some? && |states[n + 3].run.value.trail| == 4
    ensures var r := states[n + 3].run.value;
            && Follows(env, ports, PORTS, r.inputs, r.trail[0], r.trail[1])
            && Retraces(env, skia, r.trail[1], r.trail[2]) && Retraces(env, curl, r.trail[2], r.trail[3])
            && (InstallLayer.InventoryOf(env.hash, ports.base) == InstallLayer.InventoryOf(env.hash, r.trail[0]) ==>
                  && InstallLayer.InventoryOf(env.hash, skia.base) == InstallLayer.InventoryOf(env.hash, ports.made)
                  && InstallLayer.InventoryOf(env.hash, curl.base) == InstallLayer.InventoryOf(env.hash, skia.made))
  {
    hide *;
    HistoryBounds(env, states, steps);
    HarmlessPrefix(env, states, steps, n, n + 3);
    HarmlessPrefix(env, states, steps, n + 1, n + 3);
    HarmlessPrefix(env, states, steps, n + 2, n + 3);
    ports := HitsAreBacked(env, states, steps, n);
    skia := HitsAreBacked(env, states, steps, n + 1);
    curl := HitsAreBacked(env, states, steps, n + 2);
    HitKeepsLog(env, states, steps, n);
    HitKeepsLog(env, states, steps, n + 1);
    HistoryInvariant(env, states, steps, n);
    ActiveTier(states[n]);
    ShapeFacts(env, states[n]);
    ActiveTier(states[n + 2]);
    var r, q1, q2, q3 := states[n].run.value, states[n + 1].run.value, states[n + 2].run.value, states[n + 3].run.value;
    ThreeOnward(r, q1, q2, q3);
    FollowsTier(env, ports, r.tier, r.inputs, r.staged, q1.staged);
    FollowsTier(env, skia, SKIA, r.inputs, q1.staged, q2.staged);
    FollowsTier(env, curl, CURL, r.inputs, q2.staged, q3.staged);
    HitChain(env, r.inputs, ports, skia, curl, r.staged, q1.staged, q2.staged, q3.staged);
  }

  lemma HistoryBounds(env: Env, states: seq<State>, steps: seq<Step>)
    requires History(env, states, steps)
    ensures |states| == |steps| + 1
  {
    hide Next;
  }

  lemma HarmlessPrefix(env: Env, states: seq<State>, steps: seq<Step>, m: nat, n: nat)
    requires m <= n <= |steps| < |states| && Harmless(env, states, steps, n)
    ensures Harmless(env, states, steps, m)
  {
    hide Harmful;
  }

  lemma ActiveTier(s: State)
    requires Active(s, Checking)
    ensures s.run.Some? && s.run.value.tier < 3 && s.run.value.phase.Checking?
  {}

  /** A run that takes three tiers starts at the first. */
  lemma ThreeOnward(r: Run, q1: Run, q2: Run, q3: Run)
    requires q1 == r.Onward(q1.staged) && q2 == q1.Onward(q2.staged) && q3 == q2.Onward(q3.staged)
    requires q2.tier < 3 && |r.trail| == r.tier + 1 && r.trail[r.tier] == r.staged
    ensures PORTS == 0 && SKIA == 1 && CURL == 2
    ensures r.tier == 0 && q1.tier == 1 && q2.tier == 2 && r.inputs == q1.inputs == q2.inputs == q3.inputs
    ensures q3.trail == [r.staged, q1.staged, q2.staged, q3.staged] && |q3.trail| == 4
    ensures q3.trail[0] == r.staged && q3.trail[1] == q1.staged && q3.trail[2] == q2.staged && q3.trail[3] == q3.staged
  {
    assert r.trail == [r.staged];
  }

  /** Three builds that a run follows one after the other. */
  lemma HitChain(env: Env, inputs: Inputs, ports: Capture, skia: Capture, curl: Capture, t: Tree, t1: Tree, t2: Tree,
                 t3: Tree)
    requires Follows(env, ports, PORTS, inputs, t, t1)
    requires Follows(env, skia, SKIA, inputs, t1, t2) && Follows(env, curl, CURL, inputs, t2, t3)
    ensures Retraces(env, skia, t1, t2) && Retraces(env, curl, t2, t3)
    ensures InstallLayer.InventoryOf(env.hash, ports.base) == InstallLayer.InventoryOf(env.hash, t) ==>
              && InstallLayer.InventoryOf(env.hash, skia.base) == InstallLayer.InventoryOf(env.hash, ports.made)
              && InstallLayer.InventoryOf(env.hash, curl.base) == InstallLayer.InventoryOf(env.hash, skia.made)
  {
    hide Follows, Retraces, InstallLayer.InventoryOf;
    FollowsRetraces(env, skia, SKIA, inputs, t1, t2);
    FollowsRetraces(env, curl, CURL, inputs, t2, t3);
    if InstallLayer.InventoryOf(env.hash, ports.base) == InstallLayer.InventoryOf(env.hash, t) {
      FollowsRetraces(env, ports, PORTS, inputs, t, t1);
      RetracesEnds(env, ports, t, t1);
      RetracesEnds(env, skia, t1, t2);
      RetracesEnds(env, curl, t2, t3);
    }
  }

  lemma RetracesEnds(env: Env, c: Capture, t: Tree, next: Tree)
    requires Retraces(env, c, t, next)
    ensures InstallLayer.InventoryOf(env.hash, c.base) == InstallLayer.InventoryOf(env.hash, t)
    ensures InstallLayer.InventoryOf(env.hash, c.made) == InstallLayer.InventoryOf(env.hash, next)
  {
    hide InstallLayer.InventoryOf;
  }

  lemma FollowsTier(env: Env, c: Capture, tier: nat, inputs: Inputs, t: Tree, next: Tree)
    requires Follows(env, c, tier, inputs, t, next)
    ensures c.tier == tier
  {
    hide InstallLayer.InventoryOf, CaptureOk, Moved, KeyedInventory;
  }

  lemma ShapeFacts(env: Env, s: State)
    requires Invariant(env, s) && s.run.Some?
    ensures s.run.value.tier <= 3 && |s.run.value.trail| == s.run.value.tier + 1
    ensures s.run.value.phase.Checking? ==> s.run.value.trail[s.run.value.tier] == s.run.value.staged
  {
    hide Passed, SlotOk, LayerInPlace, Hosted, CaptureOk;
  }

  lemma HitKeepsLog(env: Env, states: seq<State>, steps: seq<Step>, n: nat)
    requires History(env, states, steps) && n < |steps| && steps[n].Hit?
    ensures states[n + 1].log == states[n].log
  {
    hide Active, Hits, InstallLayer.Replayable;
    assert Next(env, states[n], steps[n], states[n + 1]);
  }

  // ---------------------------------------------------------------- the cached run and the build

  /** Some tree with inventory `x` can be built by the tier into one with inventory `y`. */
  ghost predicate Builds(env: Env, tier: nat, inputs: Inputs, x: Inventory, y: Inventory) {
    exists base, made :: Makes(env, tier, inputs, base, made)
      && InstallLayer.InventoryOf(env.hash, base) == x && InstallLayer.InventoryOf(env.hash, made) == y
  }

  /**
   What the documentation of the ports key takes for granted: a build cannot tell when the
   predecessor was packaged. It may read all the rest of the manifest.
   */
  ghost predicate TimeBlind(env: Env, inputs: Inputs) {
    forall base, made, t ::
      Makes(env, PORTS, inputs, base, made) && Hosted(t)
          && KeyedInventory(env, PORTS, base) == KeyedInventory(env, PORTS, t) ==>
      Builds(env, PORTS, inputs, InstallLayer.InventoryOf(env.hash, t),
             Moved(InstallLayer.InventoryOf(env.hash, base), InstallLayer.InventoryOf(env.hash, made),
                   InstallLayer.InventoryOf(env.hash, t)))
  }

  /** Whatever the tier may build with `a`, it may build with `b`. */
  ghost predicate Alike(env: Env, tier: nat, a: Inputs, b: Inputs) {
    forall base, made :: Makes(env, tier, a, base, made) ==> Makes(env, tier, b, base, made)
  }

  /** No build recorded so far differs from the run's own in anything its key leaves out. */
  ghost predicate KeysCover(env: Env, log: set<Capture>, inputs: Inputs) {
    forall c :: c in log && KeyedInputs(c.inputs, c.tier) == KeyedInputs(inputs, c.tier) ==>
      Alike(env, c.tier, c.inputs, inputs)
  }

  lemma PassedBuilds(env: Env, log: set<Capture>, tier: nat, inputs: Inputs, t: Tree, next: Tree)
    requires TimeBlind(env, inputs) && KeysCover(env, log, inputs) && Hosted(t)
    requires Passed(env, log, tier, inputs, t, next)
    ensures Builds(env, tier, inputs, InstallLayer.InventoryOf(env.hash, t), InstallLayer.InventoryOf(env.hash, next))
  {
    hide InstallLayer.InventoryOf, InstallLayer.NormalInventoryOf, Moved, Hosted;
    var c :| c in log && Follows(env, c, tier, inputs, t, next);
    assert Alike(env, tier, c.inputs, inputs);
    assert Makes(env, tier, inputs, c.base, c.made);
    if tier != PORTS {
      FollowsRetraces(env, c, tier, inputs, t, next);
    }
  }

  /**
   Cached runs refine the slow build. In every history without a harmful stop, whatever runs came
   before: where keys cover what builds depend on, each tier a run has passed is one its own
   build could have taken, from the inventory before it to the inventory after it.
   */
  lemma CachedRunsMatchBuilds(env: Env, states: seq<State>, steps: seq<Step>, n: nat)
    requires EnvOk(env) && History(env, states, steps) && n <= |steps| && Harmless(env, states, steps, n)
    requires states[n].run.Some? && TimeBlind(env, states[n].run.value.inputs)
    requires KeysCover(env, states[n].log, states[n].run.value.inputs)
    ensures var r := states[n].run.value;
            && r.tier <= 3 && |r.trail| == r.tier + 1 && (r.phase.Checking? ==> r.staged == r.trail[r.tier])
            && forall i :: 0 <= i < r.tier ==>
                 Builds(env, i, r.inputs, InstallLayer.InventoryOf(env.hash, r.trail[i]),
                        InstallLayer.InventoryOf(env.hash, r.trail[i + 1]))
  {
    hide EnvOk, Harmful, Passed, SlotOk, LayerInPlace, Next, Builds, TimeBlind, KeysCover, Hosted;
    hide InstallLayer.InventoryOf;
    HistoryInvariant(env, states, steps, n);
    var r := states[n].run.value;
    RunFacts(env, states[n]);
    forall i | 0 <= i < r.tier
      ensures Builds(env, i, r.inputs, InstallLayer.InventoryOf(env.hash, r.trail[i]),
                     InstallLayer.InventoryOf(env.hash, r.trail[i + 1]))
    {
      PassedBuilds(env, states[n].log, i, r.inputs, r.trail[i], r.trail[i + 1]);
    }
  }

  /** Every build leaves what `f` makes of the inventory it starts from. */
  ghost predicate Repeatable(env: Env, f: (nat, Inputs, Inventory) -> Inventory) {
    forall tier, inputs, base, made :: Makes(env, tier, inputs, base, made) ==>
      InstallLayer.InventoryOf(env.hash, made) == f(tier, inputs, InstallLayer.InventoryOf(env.hash, base))
  }

  /** What repeatable builds have staged when they reach a tier. */
  ghost function Slow(f: (nat, Inputs, Inventory) -> Inventory, inputs: Inputs, inv: Inventory, tier: nat): Inventory {
    if tier == 0 then inv else f(tier - 1, inputs, Slow(f, inputs, inv, tier - 1))
  }

  /** With repeatable builds the cached run stages exactly what the uncached one would have staged. */
  lemma CachedRunsMatchSlowBuild(env: Env, f: (nat, Inputs, Inventory) -> Inventory, states: seq<State>,
                                 steps: seq<Step>, n: nat)
    requires EnvOk(env) && History(env, states, steps) && n <= |steps| && Harmless(env, states, steps, n)
    requires states[n].run.Some? && TimeBlind(env, states[n].run.value.inputs)
    requires KeysCover(env, states[n].log, states[n].run.value.inputs) && Repeatable(env, f)
    ensures var r := states[n].run.value;
            && r.tier <= 3 && |r.trail| == r.tier + 1 && (r.phase.Checking? ==> r.staged == r.trail[r.tier])
            && forall i :: 0 <= i <= r.tier ==>
                 InstallLayer.InventoryOf(env.hash, r.trail[i])
                 == Slow(f, r.inputs, InstallLayer.InventoryOf(env.hash, r.trail[0]), i)
  {
    hide EnvOk, Harmful, Next, TimeBlind, KeysCover, InstallLayer.InventoryOf, Builds, Repeatable;
    CachedRunsMatchBuilds(env, states, steps, n);
    var r := states[n].run.value;
    for i := 0 to r.tier
      invariant forall j :: 0 <= j <= i ==>
                  InstallLayer.InventoryOf(env.hash, r.trail[j])
                  == Slow(f, r.inputs, InstallLayer.InventoryOf(env.hash, r.trail[0]), j)
    {
      RepeatedBuild(env, f, i, r.inputs, InstallLayer.InventoryOf(env.hash, r.trail[i]),
                    InstallLayer.InventoryOf(env.hash, r.trail[i + 1]));
    }
  }

  lemma RepeatedBuild(env: Env, f: (nat, Inputs, Inventory) -> Inventory, tier: nat, inputs: Inputs, x: Inventory,
                      y: Inventory)
    requires Repeatable(env, f) && Builds(env, tier, inputs, x, y)
    ensures y == f(tier, inputs, x)
  {
    hide InstallLayer.InventoryOf, Makes;
  }

  // ---------------------------------------------------------------- when keys cover the builds

  /** Besides compiler and assets, a tier's build depends on its own recipe files alone. */
  ghost predicate OwnRecipes(env: Env) {
    forall tier: nat, a: Inputs, b: Inputs ::
      tier < 3 && a.Ok() && b.Ok() && a.compiler == b.compiler && a.assets == b.assets && a.files[tier] == b.files[tier]
      ==> Alike(env, tier, a, b)
  }

  /** All runs so far were given this compiler and these assets. */
  ghost predicate OneSetting(steps: seq<Step>, n: nat, compiler: string, assets: string)
    requires n <= |steps|
  {
    forall i :: 0 <= i < n && steps[i].Start? ==> Given(steps[i].inputs, compiler, assets)
  }

  predicate Given(inputs: Inputs, compiler: string, assets: string) {
    inputs.compiler == compiler && inputs.assets == assets
  }

  /** While compiler and assets stay the same, keys cover them although they do not hold them. */
  lemma OneSettingCovers(env: Env, states: seq<State>, steps: seq<Step>, n: nat, compiler: string, assets: string)
    requires EnvOk(env) && History(env, states, steps) && n <= |steps| && Harmless(env, states, steps, n)
    requires OwnRecipes(env) && OneSetting(steps, n, compiler, assets) && states[n].run.Some?
    ensures KeysCover(env, states[n].log, states[n].run.value.inputs)
  {
    hide EnvOk, Harmful, Next, OwnRecipes, CaptureOk, Alike, Given;
    HistoryInvariant(env, states, steps, n);
    SettingSeen(env, states, steps, n, compiler, assets);
    hide Invariant;
    var inputs := states[n].run.value.inputs;
    forall c | c in states[n].log && KeyedInputs(c.inputs, c.tier) == KeyedInputs(inputs, c.tier)
      ensures Alike(env, c.tier, c.inputs, inputs)
    {
      InputsOk(env, states[n], c);
      AlikeRecipes(env, c.tier, c.inputs, inputs, compiler, assets);
    }
  }

  lemma AlikeRecipes(env: Env, tier: nat, a: Inputs, b: Inputs, compiler: string, assets: string)
    requires OwnRecipes(env) && tier < 3 && a.Ok() && b.Ok() && Given(a, compiler, assets) && Given(b, compiler, assets)
    requires KeyedInputs(a, tier) == KeyedInputs(b, tier)
    ensures Alike(env, tier, a, b)
  {
    hide Alike;
  }

  lemma InputsOk(env: Env, s: State, c: Capture)
    requires Invariant(env, s) && s.run.Some? && c in s.log
    ensures c.tier < 3 && c.inputs.Ok() && s.run.value.inputs.Ok()
  {
    hide Passed, SlotOk, LayerInPlace, Hosted, Makes;
  }

  lemma {:induction false} SettingSeen(env: Env, states: seq<State>, steps: seq<Step>, n: nat, compiler: string,
                                       assets: string)
    requires History(env, states, steps) && n <= |steps| && OneSetting(steps, n, compiler, assets)
    ensures states[n].run.Some? ==> Given(states[n].run.value.inputs, compiler, assets)
    ensures forall c :: c in states[n].log ==> Given(c.inputs, compiler, assets)
  {
    hide Active, Hits, InstallLayer.Replayable, InstallLayer.Replayed, RunKey, RunLayer, Makes, Given;
    if n > 0 {
      SettingSeen(env, states, steps, n - 1, compiler, assets);
      assert Next(env, states[n - 1], steps[n - 1], states[n]);
      NextSetting(env, states[n - 1], steps[n - 1], states[n], compiler, assets);
    }
  }

  lemma NextSetting(env: Env, s: State, step: Step, s': State, compiler: string, assets: string)
    requires Next(env, s, step, s') && (step.Start? ==> Given(step.inputs, compiler, assets))
    requires s.run.Some? ==> Given(s.run.value.inputs, compiler, assets)
    requires forall c :: c in s.log ==> Given(c.inputs, compiler, assets)
    ensures s'.run.Some? ==> Given(s'.run.value.inputs, compiler, assets)
    ensures forall c :: c in s'.log ==> Given(c.inputs, compiler, assets)
  {
    hide Hits, InstallLayer.Replayable, InstallLayer.Replayed, RunKey, RunLayer, Makes, Given;
  }

  // ---------------------------------------------------------------- repacked predecessors

  /**
   A predecessor repacked at another time keeps its ports key, but after the ports tier its Skia
   key is kept only if the build wrote the manifest: later keys are taken from the plain inventory.
   */
  lemma RepackMissesLaterTiers(env: Env, sdk: Tree, repacked: Tree, staged: Tree, staged': Tree,
                               ports: Keyed, skia: Keyed)
    requires EnvOk(env) && Hosted(sdk) && Hosted(repacked) && Hosted(staged) && Hosted(staged')
    requires AllNulFree(ports.files) && AllNulFree(skia.files)
    requires KeyedInventory(env, PORTS, sdk) == KeyedInventory(env, PORTS, repacked)
    requires InstallLayer.InventoryOf(env.hash, staged')
          == Moved(InstallLayer.InventoryOf(env.hash, sdk), InstallLayer.InventoryOf(env.hash, staged),
                   InstallLayer.InventoryOf(env.hash, repacked))
    ensures KeyOf(env, PORTS, sdk, ports) == KeyOf(env, PORTS, repacked, ports)
    ensures KeyOf(env, SKIA, staged, skia) == KeyOf(env, SKIA, staged', skia) <==>
              || InstallLayer.InventoryOf(env.hash, sdk) == InstallLayer.InventoryOf(env.hash, repacked)
              || !KeepsManifest(InstallLayer.InventoryOf(env.hash, sdk), InstallLayer.InventoryOf(env.hash, staged))
  {
    hide IsTree, Hosted, KeyOf, InstallLayer.InventoryOf, InstallLayer.NormalInventoryOf, Moved, EnvOk;
    EqualKeys(env, PORTS, sdk, repacked, ports, ports);
    EqualKeys(env, SKIA, staged, staged', skia, skia);
    HostedTrees(sdk, repacked);
    NormalSame(env, sdk, repacked);
    MovedManifest(InstallLayer.InventoryOf(env.hash, sdk), InstallLayer.InventoryOf(env.hash, staged),
                  InstallLayer.InventoryOf(env.hash, repacked));
  }

  lemma HostedTrees(a: Tree, b: Tree)
    requires Hosted(a) && Hosted(b)
    ensures IsTree(a) && IsTree(b)
  {}

  predicate KeepsManifest(before: Inventory, after: Inventory) {
    "manifest.json" in before && "manifest.json" in after && before["manifest.json"] == after["manifest.json"]
  }

  lemma MovedManifest(before: Inventory, after: Inventory, l: Inventory)
    requires SameOffManifest(before, l)
    ensures Moved(before, after, l) == after <==> before == l || !KeepsManifest(before, after)
  {
    hide Moved;
    var m := Moved(before, after, l);
    forall s ensures s in m <==> s in after
             ensures s in after && (s != "manifest.json" || !KeepsManifest(before, after)) ==> m[s] == after[s]
             ensures s == "manifest.json" && KeepsManifest(before, after) ==> s in m && m[s] == l[s]
    {
      MovedAt(before, after, l, s);
    }
    if KeepsManifest(before, after) && m == after {
      assert before["manifest.json"] == l["manifest.json"];
      assert before == l;
    }
    if before == l { MovedSelf(before, after); }
  }

  /** Repacking changes the manifest's creation time and layout only: the ports key cannot see it. */
  lemma RepackKeepsPortsKey(env: Env, sdk: Tree, repacked: Tree, inputs: Keyed)
    requires IsTree(sdk) && IsTree(repacked) && sdk.Keys == repacked.Keys
    requires forall p :: p in sdk && p != InstallLayer.MANIFEST ==> sdk[p] == repacked[p]
    requires InstallLayer.MANIFEST in sdk
    requires var a, b := sdk[InstallLayer.MANIFEST], repacked[InstallLayer.MANIFEST];
             && a.File? && a.content.JsonText? && a.content.value.JObj?
             && b.File? && b.content.JsonText? && b.content.value.JObj?
             && a.content.value.fields - {"created_utc"} == b.content.value.fields - {"created_utc"}
    ensures KeyOf(env, PORTS, sdk, inputs) == KeyOf(env, PORTS, repacked, inputs)
  {
    SameListing(env, sdk, repacked);
    hide InstallLayer.Listing, InstallLayer.Named;
  }

  lemma SameListing(env: Env, sdk: Tree, repacked: Tree)
    requires sdk.Keys == repacked.Keys
    requires forall p :: p in sdk && p != InstallLayer.MANIFEST ==> sdk[p] == repacked[p]
    requires InstallLayer.MANIFEST in sdk
    requires var a, b := sdk[InstallLayer.MANIFEST], repacked[InstallLayer.MANIFEST];
             && a.File? && b.File?
             && InstallLayer.WithoutCreationTime(a.content) == InstallLayer.WithoutCreationTime(b.content)
    ensures InstallLayer.Listing(env.hash, true, sdk) == InstallLayer.Listing(env.hash, true, repacked)
  {
    hide InstallLayer.WithoutCreationTime;
    assert sdk[InstallLayer.MANIFEST].File? && !sdk[InstallLayer.MANIFEST].Dir?
        && !repacked[InstallLayer.MANIFEST].Dir?;
    var a, b := InstallLayer.Listing(env.hash, true, sdk), InstallLayer.Listing(env.hash, true, repacked);
    forall p ensures (p in a <==> p in b) && (p in a ==> a[p] == b[p]) {
      if p != InstallLayer.MANIFEST && p in sdk { assert sdk[p] == repacked[p]; }
    }
  }

  lemma ManifestListed(hash: InstallLayer.Hash, t: Tree)
    requires IsTree(t)
    ensures "manifest.json" in InstallLayer.InventoryOf(hash, t) <==> Lists(t, InstallLayer.MANIFEST)
    ensures "manifest.json" in InstallLayer.NormalInventoryOf(hash, t) <==> Lists(t, InstallLayer.MANIFEST)
    ensures Lists(t, InstallLayer.MANIFEST) ==>
              && InstallLayer.InventoryOf(hash, t)["manifest.json"]
                  == InstallLayer.Identity(hash, t[InstallLayer.MANIFEST])
              && InstallLayer.NormalInventoryOf(hash, t)["manifest.json"]
                  == InstallLayer.EntryIdentity(hash, true, InstallLayer.MANIFEST, t[InstallLayer.MANIFEST])
  {
    ManifestPath();
    hide Parts, Posix, GoodPath;
    assert InstallLayer.MANIFEST in InstallLayer.Listing(hash, false, t) <==> Lists(t, InstallLayer.MANIFEST);
    assert InstallLayer.MANIFEST in InstallLayer.Listing(hash, true, t) <==> Lists(t, InstallLayer.MANIFEST);
    TreeListings(hash, t);
  }

  lemma TreeListings(hash: InstallLayer.Hash, t: Tree)
    requires IsTree(t)
    ensures InstallLayer.Names(InstallLayer.InventoryOf(hash, t), InstallLayer.Listing(hash, false, t))
        && InstallLayer.Names(InstallLayer.NormalInventoryOf(hash, t), InstallLayer.Listing(hash, true, t))
  {}

  /** A manifest file that holds these fields. */
  predicate HoldsManifest(t: Tree, fields: map<string, Json>) {
    && InstallLayer.MANIFEST in t && t[InstallLayer.MANIFEST].File? && t[InstallLayer.MANIFEST].content.JsonText?
    && t[InstallLayer.MANIFEST].content.value == JObj(fields)
  }

  predicate EqualOffManifest(a: Tree, b: Tree) {
    a.Keys == b.Keys && forall p :: p in a && p != InstallLayer.MANIFEST ==> a[p] == b[p]
  }

  /** The digest of a manifest in canonical layout, its creation time left out and nothing else. */
  function CanonicalDigest(env: Env, fields: map<string, Json>): string {
    env.hash(JsonText(JObj(fields - {"created_utc"}), 0))
  }

  /** Between predecessors that differ in their manifests alone, all its other fields are in the ports key. */
  lemma PortsKeyCoversManifest(env: Env, a: Tree, b: Tree, f: map<string, Json>, g: map<string, Json>, inputs: Keyed)
    requires EnvOk(env) && Hosted(a) && Hosted(b) && AllNulFree(inputs.files)
    requires EqualOffManifest(a, b) && HoldsManifest(a, f) && HoldsManifest(b, g)
    ensures KeyOf(env, PORTS, a, inputs) == KeyOf(env, PORTS, b, inputs) <==>
              CanonicalDigest(env, f) == CanonicalDigest(env, g)
  {
    hide EnvOk, IsTree, KeyOf, InstallLayer.NormalInventoryOf, InstallLayer.InventoryOf, InstallLayer.Listing;
    hide InstallLayer.EntryIdentity, InstallLayer.Identity, CanonicalDigest;
    EqualKeys(env, PORTS, a, b, inputs, inputs);
    ManifestListed(env.hash, a);
    ManifestListed(env.hash, b);
    ManifestIdentity(env, a, f);
    ManifestIdentity(env, b, g);
    if CanonicalDigest(env, f) == CanonicalDigest(env, g) {
      EqualListings(env, a, b);
      SameNormalInventory(env, a, b);
    } else {
      assert ("file:" + CanonicalDigest(env, f))[5..] == CanonicalDigest(env, f);
      assert ("file:" + CanonicalDigest(env, g))[5..] == CanonicalDigest(env, g);
    }
  }

  lemma EqualListings(env: Env, a: Tree, b: Tree)
    requires EqualOffManifest(a, b) && InstallLayer.MANIFEST in a
    requires a[InstallLayer.MANIFEST].File? && b[InstallLayer.MANIFEST].File?
    requires InstallLayer.EntryIdentity(env.hash, true, InstallLayer.MANIFEST, a[InstallLayer.MANIFEST])
          == InstallLayer.EntryIdentity(env.hash, true, InstallLayer.MANIFEST, b[InstallLayer.MANIFEST])
    ensures InstallLayer.Listing(env.hash, true, a) == InstallLayer.Listing(env.hash, true, b)
  {
    hide InstallLayer.EntryIdentity;
    var x, y := InstallLayer.Listing(env.hash, true, a), InstallLayer.Listing(env.hash, true, b);
    forall p ensures (p in x <==> p in y) && (p in x ==> x[p] == y[p]) {
      if p != InstallLayer.MANIFEST && p in a { assert a[p] == b[p]; }
    }
  }

  lemma SameNormalInventory(env: Env, a: Tree, b: Tree)
    requires IsTree(a) && IsTree(b)
    requires InstallLayer.Listing(env.hash, true, a) == InstallLayer.Listing(env.hash, true, b)
    ensures InstallLayer.NormalInventoryOf(env.hash, a) == InstallLayer.NormalInventoryOf(env.hash, b)
  {
    hide InstallLayer.Listing, InstallLayer.Named;
  }

  lemma ManifestIdentity(env: Env, t: Tree, fields: map<string, Json>)
    requires HoldsManifest(t, fields)
    ensures InstallLayer.EntryIdentity(env.hash, true, InstallLayer.MANIFEST, t[InstallLayer.MANIFEST])
         == "file:" + CanonicalDigest(env, fields)
  {}
}
