/** One dependency tier of a reuse run, on the work root's own state. */
module StageBuild {
  import opened Wrappers
  import opened Trees
  import opened Framing
  import opened InstallLayer
  import opened LayerRoundTrip
  import opened LayerCache

  function WithSlot(slots: seq<Slot>, tier: nat, layer: Tree, key: Key): seq<Slot> {
    if tier < |slots| then slots[tier := Slot(Some(layer), Some(key))] else slots
  }

  /** What the tier's build leaves of a staged tree; looked at only on a miss. */
  type Builder = (nat, Tree) -> Tree

  ghost predicate BuildsWith(env: Env, inputs: Inputs, builder: Builder) {
    forall tier: nat, t :: tier < 3 && Hosted(t) ==> Makes(env, tier, inputs, t, builder(tier, t))
  }

  /** The work root between runs: the cached layers and markers, and the staged SDK. */
  class WorkRoot {
    var slots: seq<Slot>
    const staged: Directory
    ghost var log: set<Capture>

    constructor (sdk: Tree)
      ensures slots == [Slot(None, None), Slot(None, None), Slot(None, None)] && log == {}
      ensures fresh(staged) && staged.nodes == sdk
    {
      slots := [Slot(None, None), Slot(None, None), Slot(None, None)];
      log := {};
      var directory := new Directory();
      directory.nodes := sdk;
      staged := directory;
    }

    /** Every marked layer is what is left of a logged capture. */
    ghost predicate Sound(env: Env)
      reads this
    {
      |slots| == 3 && SoundSlots(env, slots, log)
    }

    /** The marker text of the tier about to run. */
    method TierKey(env: Env, tier: nat, inputs: Inputs) returns (key: Key)
      requires Hosted(staged.nodes)
      ensures key == KeyOf(env, tier, staged.nodes, KeyedInputs(inputs, tier))
    {
      var keyed := KeyedInputs(inputs, tier);
      var inventory := TreeInventory(env.hash, staged.nodes, tier == PORTS);
      var digest := InventoryFingerprint(inventory, env.sha);
      var files := Fingerprint(keyed.files, env.sha);
      key := Key(digest, keyed.compiler, files);
    }

    /** Replays the tier's layer if one stands under `key` and passes its check. */
    method TryReuse(env: Env, tier: nat, inputs: Inputs, key: Key) returns (cached: bool)
      requires EnvOk(env) && Sound(env) && Hosted(staged.nodes) && tier < 3 && inputs.Ok()
      requires key == KeyOf(env, tier, staged.nodes, KeyedInputs(inputs, tier))
      modifies staged
      ensures !cached ==> staged.nodes == old(staged.nodes)
      ensures cached <==> exists d :: Hits(env, slots[tier], key, d)
      ensures cached ==> Hosted(staged.nodes) && Passed(env, log, tier, inputs, old(staged.nodes), staged.nodes)
    {
      hide EnvOk, Hosted, IsTree, KeyOf, Backed, CaptureOk, AllNulFree, InventoryOf, Accepts, Follows;
      assert SlotOk(env, slots[tier], tier, log);
      if slots[tier].layer.None? || slots[tier].marker != Some(key) { return false; }
      ghost var c :| c in log && Backed(env, slots[tier], tier, c);
      assert IsTree(slots[tier].layer.value);
      ghost var t, log0 := staged.nodes, log;
      hide *;
      cached := ReplayMarked(env, tier, slots[tier], slots[tier].layer.value, inputs, key, c, staged);
      if cached { PassedBy(env, log0, tier, inputs, t, staged.nodes, c); }
    }

    /**
     One tier of a reuse run. Hit or miss, it ends with what a recorded build under an equal key
     makes of the staged tree, and the cache stays sound for the runs to come.
     */
    method RunTier(env: Env, tier: nat, inputs: Inputs, builder: Builder) returns (cached: bool)
      requires EnvOk(env) && Sound(env) && Hosted(staged.nodes) && tier < 3 && inputs.Ok()
      requires BuildsWith(env, inputs, builder)
      modifies this, staged
      ensures Sound(env) && Hosted(staged.nodes)
      ensures Passed(env, log, tier, inputs, old(staged.nodes), staged.nodes)
      ensures cached ==> slots == old(slots) && log == old(log)
      ensures !cached ==> staged.nodes == builder(tier, old(staged.nodes))
      ensures !cached ==> log == old(log) + {Capture(tier, inputs, old(staged.nodes), staged.nodes)}
      ensures !cached ==> slots == WithSlot(old(slots), tier,
                Captured(env.hash, staged.nodes, InventoryOf(env.hash, old(staged.nodes))),
                KeyOf(env, tier, old(staged.nodes), KeyedInputs(inputs, tier)))
    {
      hide *;
      ghost var base := staged.nodes;
      var key := TierKey(env, tier, inputs);
      cached := TryReuse(env, tier, inputs, key);
      if cached { return; }
      BuilderMakes(env, inputs, builder, tier, staged.nodes);
      var built := builder(tier, staged.nodes);
      var layer := NewLayer(env, tier, inputs, key, staged.nodes, built);
      staged.nodes := built;
      Store(env, tier, layer, key, Capture(tier, inputs, base, built));
      PassedBuild(env, log, tier, inputs, base, built);
    }

    /**
     A whole reuse run from a clean copy of its predecessor: whatever the cache holds, each of the
     three tiers is a recorded build under an equal key, and the run's own where keys cover builds.
     */
    method Run(env: Env, inputs: Inputs, sdk: Tree, builder: Builder) returns (ghost trail: seq<Tree>)
      requires EnvOk(env) && Sound(env) && inputs.Ok() && Hosted(sdk) && BuildsWith(env, inputs, builder)
      modifies this, staged
      ensures Sound(env) && Hosted(staged.nodes)
      ensures |trail| == 4 && trail[0] == sdk && trail[3] == staged.nodes
      ensures forall i :: 0 <= i < 3 ==> Passed(env, log, i, inputs, trail[i], trail[i + 1])
      ensures TimeBlind(env, inputs) && KeysCover(env, old(log), inputs) ==>
                forall i :: 0 <= i < 3 ==>
                  Builds(env, i, inputs, InventoryOf(env.hash, trail[i]), InventoryOf(env.hash, trail[i + 1]))
    {
      hide *;
      staged.nodes := sdk;
      trail := [sdk];
      var tier := 0;
      while tier < 3
        invariant tier <= 3 && Sound(env) && |trail| == tier + 1
        invariant trail[0] == sdk && trail[tier] == staged.nodes && forall i :: 0 <= i <= tier ==> Hosted(trail[i])
        invariant forall i :: 0 <= i < tier ==> Passed(env, log, i, inputs, trail[i], trail[i + 1])
        invariant KeysCover(env, old(log), inputs) ==> KeysCover(env, log, inputs)
      {
        ghost var was := log;
        var cached := RunTier(env, tier, inputs, builder);
        if !cached {
          forall i | 0 <= i < tier ensures Passed(env, log, i, inputs, trail[i], trail[i + 1]) {
            PassedGrows(env, was, {Capture(tier, inputs, trail[tier], staged.nodes)}, i, inputs, trail[i],
                trail[i + 1]);
          }
          if KeysCover(env, was, inputs) { OwnBuildCovered(env, was, inputs, Capture(tier, inputs, trail[tier],
              staged.nodes)); }
        }
        trail := trail + [staged.nodes];
        tier := tier + 1;
      }
      if TimeBlind(env, inputs) && KeysCover(env, old(log), inputs) {
        forall i | 0 <= i < 3
          ensures Builds(env, i, inputs, InventoryOf(env.hash, trail[i]), InventoryOf(env.hash, trail[i + 1]))
        {
          PassedBuilds(env, log, i, inputs, trail[i], trail[i + 1]);
        }
      }
    }

    /** Replace the layer, open the marker, write it: the three steps a stop can fall between. */
    method Store(env: Env, tier: nat, layer: Tree, key: Key, ghost capture: Capture)
      requires Sound(env) && tier < 3 && CaptureOk(env, capture) && IsTree(layer)
      requires SlotOk(env, Slot(Some(layer), Some(key)), tier, {capture})
      modifies this
      ensures Sound(env) && slots == WithSlot(old(slots), tier, layer, key) && log == old(log) + {capture}
    {
      hide SlotOk, CaptureOk, IsTree, SoundSlots;
      SlotReplaced(env, slots, tier, Slot(Some(layer), Some(key)), log, capture);
      slots := slots[tier := slots[tier].(layer := Some(layer))];
      slots := slots[tier := slots[tier].(marker := None)];
      slots := slots[tier := slots[tier].(marker := Some(key))];
      log := log + {capture};
      assert slots == old(slots)[tier := Slot(Some(layer), Some(key))];
    }
  }

  /** The layer directory of one build. */
  method NewLayer(env: Env, tier: nat, inputs: Inputs, key: Key, base: Tree, built: Tree) returns (layer: Tree)
    requires EnvOk(env) && tier < 3 && inputs.Ok()
    requires key == KeyOf(env, tier, base, KeyedInputs(inputs, tier)) && Makes(env, tier, inputs, base, built)
    ensures layer == Captured(env.hash, built, InventoryOf(env.hash, base)) && IsTree(layer)
    ensures CaptureOk(env, Capture(tier, inputs, base, built)) && Hosted(built)
    ensures SlotOk(env, Slot(Some(layer), Some(key)), tier, {Capture(tier, inputs, base, built)})
  {
    assert Resolver(env.esc);
    MadeFacts(env, tier, inputs, base, built);
    MadeIsSound(env, Capture(tier, inputs, base, built));
    hide *;
    var before := TreeInventory(env.hash, base, false);
    CapturedIsTree(env.hash, built, before);
    var directory := new Directory();
    var captured := CaptureInstallLayer(env.hash, env.esc, built, before, directory);
    layer := directory.nodes;
  }

  lemma BuilderMakes(env: Env, inputs: Inputs, builder: Builder, tier: nat, t: Tree)
    requires BuildsWith(env, inputs, builder) && tier < 3 && Hosted(t)
    ensures Makes(env, tier, inputs, t, builder(tier, t))
  {
    hide Makes, Hosted;
  }

  lemma PassedBy(env: Env, log: set<Capture>, tier: nat, inputs: Inputs, t: Tree, next: Tree, c: Capture)
    requires c in log && Follows(env, c, tier, inputs, t, next)
    ensures Passed(env, log, tier, inputs, t, next)
  {
    hide Follows;
  }

  lemma PassedBuild(env: Env, log: set<Capture>, tier: nat, inputs: Inputs, base: Tree, built: Tree)
    requires CaptureOk(env, Capture(tier, inputs, base, built)) && Capture(tier, inputs, base, built) in log
    ensures Passed(env, log, tier, inputs, base, built)
  {
    hide Follows, CaptureOk;
    BuildFollows(env, Capture(tier, inputs, base, built));
  }

  lemma OwnBuildCovered(env: Env, log: set<Capture>, inputs: Inputs, own: Capture)
    requires KeysCover(env, log, inputs) && own.inputs == inputs
    ensures KeysCover(env, log + {own}, inputs)
  {
    hide Makes;
  }

  ghost predicate SoundSlots(env: Env, slots: seq<Slot>, log: set<Capture>) {
    && |slots| == 3
    && (forall c :: c in log ==> CaptureOk(env, c))
    && (forall i :: 0 <= i < 3 ==>
          SlotOk(env, slots[i], i, log) && (slots[i].layer.Some? ==> IsTree(slots[i].layer.value)))
  }

  lemma SlotReplaced(env: Env, slots: seq<Slot>, tier: nat, slot: Slot, log: set<Capture>, capture: Capture)
    requires SoundSlots(env, slots, log) && tier < 3 && CaptureOk(env, capture)
    requires SlotOk(env, slot, tier, {capture}) && slot.layer.Some? && IsTree(slot.layer.value)
    ensures SoundSlots(env, slots[tier := slot], log + {capture})
  {
    hide SlotOk, IsTree, CaptureOk;
    var updated := slots[tier := slot];
    forall i | 0 <= i < 3 ensures SlotOk(env, updated[i], i, log + {capture}) {
      if i == tier {
        SlotGrows(env, slot, tier, {capture}, log);
        assert {capture} + log == log + {capture};
      } else {
        SlotGrows(env, slots[i], i, log, {capture});
      }
    }
  }

  /** The layer under a matching marker: checked, then replayed. */
  method ReplayMarked(env: Env, tier: nat, ghost slot: Slot, layer: Tree, inputs: Inputs, key: Key, ghost c: Capture,
                      staged: Directory)
    returns (cached: bool)
    requires EnvOk(env) && Hosted(staged.nodes) && inputs.Ok() && tier < 3
    requires slot == Slot(Some(layer), Some(key)) && IsTree(layer) && Backed(env, slot, tier, c)
    requires key == KeyOf(env, tier, staged.nodes, KeyedInputs(inputs, tier))
    modifies staged
    ensures !cached ==> staged.nodes == old(staged.nodes)
    ensures cached <==> exists d :: Hits(env, slot, key, d)
    ensures cached ==> Hosted(staged.nodes) && Follows(env, c, tier, inputs, old(staged.nodes), staged.nodes)
  {
    ghost var t := staged.nodes;
    assert Resolver(env.esc) && IsTree(t);
    hide *;
    var verdict := InstallLayerValid(env.hash, env.esc, layer);
    if verdict != Good {
      NoHit(env, slot, key);
      return false;
    }
    ghost var d := HitFrom(env, slot, key);
    HitOutcome(env, slot, tier, c, t, inputs, d);
    var r := ApplyInstallLayer(env.hash, env.esc, layer, staged);
    AcceptsUnique(env.hash, env.esc, layer, d, r.value);
    cached := true;
  }

  lemma NoHit(env: Env, slot: Slot, key: Key)
    requires slot.layer.Some? && !Valid(env.hash, env.esc, slot.layer.value)
    ensures !exists d :: Hits(env, slot, key, d)
  {}

  lemma HitFrom(env: Env, slot: Slot, key: Key) returns (d: LayerCache.Delta)
    requires slot.layer.Some? && slot.marker == Some(key) && IsTree(slot.layer.value)
    requires Valid(env.hash, env.esc, slot.layer.value)
    ensures Hits(env, slot, key, d) && Accepts(env.hash, env.esc, slot.layer.value, d)
  {
    d :| Accepts(env.hash, env.esc, slot.layer.value, d);
  }

  lemma MadeIsSound(env: Env, c: Capture)
    requires c.tier < 3 && c.inputs.Ok() && Makes(env, c.tier, c.inputs, c.base, c.made)
    ensures CaptureOk(env, c)
    ensures SlotOk(env, Slot(Some(Captured(env.hash, c.made, InventoryOf(env.hash, c.base))),
                             Some(KeyOf(env, c.tier, c.base, KeyedInputs(c.inputs, c.tier)))), c.tier, {c})
  {
    hide Captured, InventoryOf, KeyOf, Makes;
    var slot := Slot(Some(Captured(env.hash, c.made, InventoryOf(env.hash, c.base))),
                     Some(KeyOf(env, c.tier, c.base, KeyedInputs(c.inputs, c.tier))));
    assert Backed(env, slot, c.tier, c) && c in {c};
  }
}
