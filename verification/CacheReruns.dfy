/**
 Histories of two and three runs: what a run makes of the layers an earlier one left, tier by tier,
 for any inputs and predecessors of both.
 */
module CacheReruns {
  import opened Wrappers
  import opened Trees
  import opened Framing
  import InstallLayer
  import opened LayerRoundTrip
  import opened LayerCache
  import opened CacheLimits

  /** Inputs that the key of a tier does not tell apart. */
  predicate SameKeyed(tier: nat, j: Inputs, i: Inputs) { KeyedInputs(j, tier) == KeyedInputs(i, tier) }

  /** A predecessor's copy, and the trees the first tiers' builds made of it one after the other. */
  ghost predicate BuiltBy(env: Env, inputs: Inputs, built: seq<Tree>) {
    && 1 <= |built| <= 4 && Hosted(built[0])
    && forall m :: 0 <= m < |built| - 1 ==> Makes(env, m, inputs, built[m], built[m + 1])
  }

  /** The slot such a build leaves. */
  ghost function SlotLeft(env: Env, tier: nat, inputs: Inputs, base: Tree, made: Tree): Slot {
    Slot(Some(InstallLayer.Captured(env.hash, made, InstallLayer.InventoryOf(env.hash, base))),
         Some(KeyOf(env, tier, base, KeyedInputs(inputs, tier))))
  }

  ghost predicate LeftBy(env: Env, slots: seq<Slot>, inputs: Inputs, built: seq<Tree>) {
    && |slots| == 3 && 1 <= |built| <= 4
    && forall m :: 0 <= m < |built| - 1 ==> slots[m] == SlotLeft(env, m, inputs, built[m], built[m + 1])
  }

  /** The layer `j`'s build of a tier left is the one a run with `i` finds at `t`, and it is valid. */
  ghost predicate Reuses(env: Env, tier: nat, j: Inputs, i: Inputs, base: Tree, made: Tree, t: Tree) {
    && SameKeyed(tier, j, i) && KeyedInventory(env, tier, base) == KeyedInventory(env, tier, t)
    && LayerValid(env, base, made)
  }

  /** What a run with `i` may leave at `t`: the replayed layer, or whatever its own build makes. */
  ghost predicate Takes(env: Env, tier: nat, j: Inputs, i: Inputs, base: Tree, made: Tree, t: Tree, next: Tree) {
    if Reuses(env, tier, j, i, base, made, t) then next == Reused(env, base, made, t)
    else Makes(env, tier, i, t, next)
  }

  ghost predicate TakesAll(env: Env, j: Inputs, i: Inputs, built: seq<Tree>, taken: seq<Tree>) {
    && 1 <= |taken| <= |built| <= 4 && Hosted(taken[0])
    && forall m :: 0 <= m < |taken| - 1 ==> Takes(env, m, j, i, built[m], built[m + 1], taken[m], taken[m + 1])
  }

  ghost predicate ReusesAll(env: Env, j: Inputs, i: Inputs, built: seq<Tree>, taken: seq<Tree>) {
    && |taken| <= |built|
    && forall m :: 0 <= m < |taken| - 1 ==> Reuses(env, m, j, i, built[m], built[m + 1], taken[m])
  }

  /** Steps from one state to another, none of them a harmful stop. */
  ghost predicate Leads(env: Env, states: seq<State>, steps: seq<Step>, first: State, last: State) {
    Calm(env, states, steps) && |states| == |steps| + 1 && states[0] == first && states[|steps|] == last
  }

  lemma LeadsOn(env: Env, xs: seq<State>, ps: seq<Step>, ys: seq<State>, qs: seq<Step>, a: State, b: State, c: State)
    returns (states: seq<State>, steps: seq<Step>)
    requires Leads(env, xs, ps, a, b) && Leads(env, ys, qs, b, c)
    ensures Leads(env, states, steps, a, c) && steps == ps + qs
  {
    hide Next, Harmful;
    LinkedAppend(env, xs, ps, ys, qs);
    states, steps := xs + ys[1..], ps + qs;
  }

  /** The run of a state that has reached a tier. */
  ghost predicate AtTier(s: State, inputs: Inputs, trail: seq<Tree>) {
    && 1 <= |trail| <= 4 && |s.slots| == 3
    && s.run == Some(Run(inputs, |trail| - 1, trail, trail[|trail| - 1], Checking))
  }

  lemma StartReaches(env: Env, s: State, inputs: Inputs, sdk: Tree) returns (states: seq<State>, steps: seq<Step>)
    requires s.run.None? && |s.slots| == 3 && inputs.Ok() && Hosted(sdk)
    ensures Leads(env, states, steps, s, Started(s, inputs, sdk)) && steps == [Start(inputs, sdk)]
    ensures AtTier(Started(s, inputs, sdk), inputs, [sdk]) && Started(s, inputs, sdk).slots == s.slots
  {
    hide Hosted, Calm;
    StartCalm(env, s, inputs, sdk);
    states, steps := [s, Started(s, inputs, sdk)], [Start(inputs, sdk)];
  }

  lemma StopReaches(env: Env, s: State, inputs: Inputs, trail: seq<Tree>) returns (states: seq<State>, steps: seq<Step>)
    requires AtTier(s, inputs, trail)
    ensures Leads(env, states, steps, s, s.(run := None)) && steps == [Stop]
  {
    hide Calm;
    StopCalm(env, s);
    states, steps := [s, s.(run := None)], [Stop];
  }

  // ---------------------------------------------------------------- the first run

  lemma NothingToHit(env: Env, slot: Slot, key: Key)
    requires slot.marker != Some(key) || (slot.layer.Some? && !InstallLayer.Valid(env.hash, env.esc, slot.layer.value))
    ensures !CanHit(env, slot, key)
  {
    hide InstallLayer.Accepts;
  }

  /** One more tier built. */
  lemma BuildReaches(env: Env, s: State, inputs: Inputs, trail: seq<Tree>, made: Tree)
    returns (states: seq<State>, steps: seq<Step>, next: State)
    requires AtTier(s, inputs, trail) && |trail| < 4 && inputs.Ok()
    requires Makes(env, |trail| - 1, inputs, trail[|trail| - 1], made)
    requires !CanHit(env, s.slots[|trail| - 1],
                     KeyOf(env, |trail| - 1, trail[|trail| - 1], KeyedInputs(inputs, |trail| - 1)))
    ensures Leads(env, states, steps, s, next) && AtTier(next, inputs, trail + [made])
    ensures next.slots == s.slots[|trail| - 1 := SlotLeft(env, |trail| - 1, inputs, trail[|trail| - 1], made)]
  {
    hide Calm, Makes, Hits, KeyOf, InstallLayer.Captured, InstallLayer.InventoryOf;
    next := AfterBuild(env, s, made);
    states, steps := TierBuilt(env, s, made);
  }

  ghost predicate EmptyFrom(slots: seq<Slot>, n: nat) {
    |slots| == 3 && forall m :: n <= m < 3 ==> slots[m] == Slot(None, None)
  }

  /** A run from an empty cache builds every tier it gets to. */
  lemma {:induction false} FirstRun(env: Env, j: Inputs, built: seq<Tree>)
    returns (states: seq<State>, steps: seq<Step>, last: State)
    requires j.Ok() && BuiltBy(env, j, built)
    ensures Leads(env, states, steps, EMPTY_CACHE, last) && AtTier(last, j, built)
    ensures LeftBy(env, last.slots, j, built) && EmptyFrom(last.slots, |built| - 1)
  {
    hide Leads, Makes, Hosted, SlotLeft, KeyOf;
    if |built| == 1 {
      last := Started(EMPTY_CACHE, j, built[0]);
      states, steps := StartReaches(env, EMPTY_CACHE, j, built[0]);
      assert built == [built[0]];
    } else {
      var front, made := built[..|built| - 1], built[|built| - 1];
      assert forall m :: 0 <= m < |front| ==> front[m] == built[m];
      var xs, ps, s := FirstRun(env, j, front);
      var tier := |front| - 1;
      NothingToHit(env, s.slots[tier], KeyOf(env, tier, front[tier], KeyedInputs(j, tier)));
      var ys, qs;
      ys, qs, last := BuildReaches(env, s, j, front, made);
      states, steps := LeadsOn(env, xs, ps, ys, qs, EMPTY_CACHE, s, last);
      assert built == front + [made];
    }
  }

  // ---------------------------------------------------------------- a later run

  lemma KeyedFiles(inputs: Inputs, tier: nat)
    requires inputs.Ok() && tier < 3
    ensures AllNulFree(KeyedInputs(inputs, tier).files)
  {}

  /** One tier of a later run that reuses the layer. */
  lemma TierReused(env: Env, s: State, j: Inputs, i: Inputs, base: Tree, made: Tree, trail: seq<Tree>)
    returns (states: seq<State>, steps: seq<Step>, last: State)
    requires EnvOk(env) && j.Ok() && AtTier(s, i, trail) && |trail| < 4 && i.Ok() && Hosted(trail[|trail| - 1])
    requires Makes(env, |trail| - 1, j, base, made)
    requires s.slots[|trail| - 1] == SlotLeft(env, |trail| - 1, j, base, made)
    requires Reuses(env, |trail| - 1, j, i, base, made, trail[|trail| - 1])
    ensures Leads(env, states, steps, s, last)
    ensures AtTier(last, i, trail + [Reused(env, base, made, trail[|trail| - 1])])
    ensures last.slots == s.slots && |steps| == 1 && steps[0].Hit?
    ensures forall other, after :: !Next(env, s, Build(other), after)
  {
    hide InstallLayer.InventoryOf, InstallLayer.Captured, InstallLayer.Valid, Hosted, Makes, KeyOf, Calm, Next, EnvOk;
    hide KeyedInventory, Reused, Hits, Moved;
    var tier, t := |trail| - 1, trail[|trail| - 1];
    MadeFacts(env, tier, j, base, made);
    SameKey(env, tier, base, t, KeyedInputs(j, tier));
    HostedIsTree(t);
    KeyedNames(env, tier, base, t);
    var d, reused := LayerHit(env, s, base, made);
    last := s.(run := Some(s.run.value.Onward(reused)));
    HitCalm(env, s, d, last);
    states, steps := [s, last], [Hit(d)];
  }

  /** What a run that does not reuse the layer finds under its key. */
  lemma NotReused(env: Env, tier: nat, j: Inputs, i: Inputs, base: Tree, made: Tree, t: Tree)
    requires EnvOk(env) && tier < 3 && j.Ok() && i.Ok() && Hosted(base) && Hosted(t)
    requires !Reuses(env, tier, j, i, base, made, t)
    ensures !CanHit(env, SlotLeft(env, tier, j, base, made), KeyOf(env, tier, t, KeyedInputs(i, tier)))
  {
    hide InstallLayer.InventoryOf, InstallLayer.Captured, InstallLayer.Valid, Hosted, KeyOf, EnvOk, KeyedInventory;
    hide CanHit;
    KeyedFiles(j, tier);
    KeyedFiles(i, tier);
    EqualKeys(env, tier, base, t, KeyedInputs(j, tier), KeyedInputs(i, tier));
    NothingToHit(env, SlotLeft(env, tier, j, base, made), KeyOf(env, tier, t, KeyedInputs(i, tier)));
  }

  /** One tier of a later run, over the slot an earlier build left. */
  lemma TierTaken(env: Env, s: State, j: Inputs, i: Inputs, base: Tree, made: Tree, trail: seq<Tree>, next: Tree)
    returns (states: seq<State>, steps: seq<Step>, last: State)
    requires EnvOk(env) && j.Ok() && i.Ok() && AtTier(s, i, trail) && |trail| < 4 && Hosted(trail[|trail| - 1])
    requires Makes(env, |trail| - 1, j, base, made)
    requires s.slots[|trail| - 1] == SlotLeft(env, |trail| - 1, j, base, made)
    requires Takes(env, |trail| - 1, j, i, base, made, trail[|trail| - 1], next)
    ensures Leads(env, states, steps, s, last) && AtTier(last, i, trail + [next]) && Hosted(next)
    ensures SlotsFrom(last.slots, s.slots, |trail|)
    ensures Reuses(env, |trail| - 1, j, i, base, made, trail[|trail| - 1]) ==>
              last.slots == s.slots && |steps| == 1 && steps[0].Hit?
  {
    hide Leads, KeyOf, EnvOk, Makes, Hosted, Reuses, SlotLeft, CanHit, InstallLayer.InventoryOf, Moved, Reused;
    var tier, t := |trail| - 1, trail[|trail| - 1];
    MadeFacts(env, tier, j, base, made);
    if Reuses(env, tier, j, i, base, made, t) {
      ReusedInventory(env, tier, j, i, base, made, t);
      states, steps, last := TierReused(env, s, j, i, base, made, trail);
    } else {
      MadeFacts(env, tier, i, t, next);
      NotReused(env, tier, j, i, base, made, t);
      states, steps, last := BuildReaches(env, s, i, trail, next);
    }
  }

  /** What a replayed layer leaves. */
  lemma ReusedInventory(env: Env, tier: nat, j: Inputs, i: Inputs, base: Tree, made: Tree, t: Tree)
    requires EnvOk(env) && Makes(env, tier, j, base, made) && Hosted(t) && Reuses(env, tier, j, i, base, made, t)
    ensures Hosted(Reused(env, base, made, t))
    ensures InstallLayer.InventoryOf(env.hash, Reused(env, base, made, t))
         == Moved(InstallLayer.InventoryOf(env.hash, base), InstallLayer.InventoryOf(env.hash, made),
                  InstallLayer.InventoryOf(env.hash, t))
  {
    hide InstallLayer.InventoryOf, InstallLayer.Captured, InstallLayer.Valid, InstallLayer.Accepts, Hosted, Makes;
    hide EnvOk, KeyedInventory, InstallLayer.Replayable, InstallLayer.Replayed, InstallLayer.PathsOf, Moved, Remnant;
    var before := InstallLayer.InventoryOf(env.hash, base);
    var layer := InstallLayer.Captured(env.hash, made, before);
    MadeFacts(env, tier, j, base, made);
    HostedIsTree(t);
    KeyedNames(env, tier, base, t);
    CapturedIsTree(env.hash, made, before);
    WholeRemnant(layer);
    var d := AcceptedDelta(env, layer);
    LayerOutcome(env, layer, base, made, t, d);
  }

  ghost predicate AllHosted(trees: seq<Tree>) { forall m :: 0 <= m < |trees| ==> Hosted(trees[m]) }

  predicate SlotsFrom(a: seq<Slot>, b: seq<Slot>, n: nat) {
    |a| == |b| == 3 && forall k :: n <= k < 3 ==> a[k] == b[k]
  }

  predicate StartThenHits(steps: seq<Step>, n: nat) { |steps| == n && forall m :: 1 <= m < n ==> steps[m].Hit? }

  lemma SlotsFromStep(a: seq<Slot>, b: seq<Slot>, c: seq<Slot>, n: nat)
    requires SlotsFrom(a, b, n + 1) && SlotsFrom(b, c, n)
    ensures SlotsFrom(a, c, n + 1)
  {}

  lemma OneMoreHit(steps: seq<Step>, n: nat, hit: seq<Step>)
    requires StartThenHits(steps, n) && |hit| == 1 && hit[0].Hit?
    ensures StartThenHits(steps + hit, n + 1)
  {}

  lemma OneMoreHosted(front: seq<Tree>, next: Tree)
    requires AllHosted(front) && Hosted(next)
    ensures AllHosted(front + [next])
  {
    hide Hosted;
  }

  /** A run over the layers an earlier one left: each tier is taken as its key and its layer say. */
  lemma {:induction false} LaterRun(env: Env, s: State, j: Inputs, i: Inputs, built: seq<Tree>, taken: seq<Tree>)
    returns (states: seq<State>, steps: seq<Step>, last: State)
    requires EnvOk(env) && s.run.None? && j.Ok() && i.Ok() && BuiltBy(env, j, built) && LeftBy(env, s.slots, j, built)
    requires TakesAll(env, j, i, built, taken)
    ensures 1 <= |taken| <= |built| <= 4 && Leads(env, states, steps, s, last) && AtTier(last, i, taken)
    ensures AllHosted(taken) && SlotsFrom(last.slots, s.slots, |taken| - 1)
    ensures ReusesAll(env, j, i, built, taken) ==> last.slots == s.slots && StartThenHits(steps, |taken|)
    decreases |taken|
  {
    hide *;
    TakenBounds(env, j, i, built, taken);
    LeftBounds(env, s.slots, j, built);
    if |taken| == 1 {
      FirstTaken(env, j, i, built, taken);
      last := Started(s, i, taken[0]);
      states, steps := StartReaches(env, s, i, taken[0]);
      FirstStep(steps, s.slots);
    } else {
      var front, next := taken[..|taken| - 1], taken[|taken| - 1];
      TakenPrefix(env, s.slots, j, i, built, taken);
      var xs, ps, u := LaterRun(env, s, j, i, built, front);
      var tier := |front| - 1;
      SlotsFromAt(u.slots, s.slots, tier);
      HostedAt(front, tier);
      var ys, qs;
      ys, qs, last := TierTaken(env, u, j, i, built[tier], built[tier + 1], front, next);
      states, steps := LeadsOn(env, xs, ps, ys, qs, s, u, last);
      assert taken == front + [next];
      SlotsFromStep(last.slots, u.slots, s.slots, tier);
      OneMoreHosted(front, next);
      if ReusesAll(env, j, i, built, taken) { OneMoreHit(ps, |front|, qs); }
    }
  }

  lemma FirstStep(steps: seq<Step>, slots: seq<Slot>)
    requires |steps| == 1 && |slots| == 3
    ensures StartThenHits(steps, 1) && SlotsFrom(slots, slots, 0)
  {}

  lemma SlotsFromAt(a: seq<Slot>, b: seq<Slot>, n: nat)
    requires SlotsFrom(a, b, n) && n < 3
    ensures |a| == |b| == 3 && a[n] == b[n]
  {}

  lemma HostedAt(trees: seq<Tree>, m: nat)
    requires AllHosted(trees) && m < |trees|
    ensures Hosted(trees[m])
  {
    hide Hosted;
  }

  lemma FirstTaken(env: Env, j: Inputs, i: Inputs, built: seq<Tree>, taken: seq<Tree>)
    requires TakesAll(env, j, i, built, taken)
    ensures |taken| == 1 ==> Hosted(taken[0]) && taken == [taken[0]] && AllHosted(taken)
  {
    hide Takes, Hosted;
  }

  lemma LeftBounds(env: Env, slots: seq<Slot>, j: Inputs, built: seq<Tree>)
    requires LeftBy(env, slots, j, built)
    ensures |slots| == 3
  {
    hide SlotLeft;
  }

  lemma TakenBounds(env: Env, j: Inputs, i: Inputs, built: seq<Tree>, taken: seq<Tree>)
    requires TakesAll(env, j, i, built, taken)
    ensures 1 <= |taken| <= |built| <= 4
  {
    hide Takes, Hosted;
  }

  /** All tiers but the last, and the last. */
  lemma TakenPrefix(env: Env, slots: seq<Slot>, j: Inputs, i: Inputs, built: seq<Tree>, taken: seq<Tree>)
    requires BuiltBy(env, j, built) && LeftBy(env, slots, j, built) && TakesAll(env, j, i, built, taken) && |taken| > 1
    ensures |slots| == 3 && |taken| <= |built| <= 4
    ensures var tier, front := |taken| - 2, taken[..|taken| - 1];
            && TakesAll(env, j, i, built, front) && front[tier] == taken[tier]
            && Makes(env, tier, j, built[tier], built[tier + 1])
            && slots[tier] == SlotLeft(env, tier, j, built[tier], built[tier + 1])
            && Takes(env, tier, j, i, built[tier], built[tier + 1], front[tier], taken[tier + 1])
            && (ReusesAll(env, j, i, built, taken) ==>
                  && ReusesAll(env, j, i, built, front)
                  && Reuses(env, tier, j, i, built[tier], built[tier + 1], front[tier]))
  {
    hide Makes, Hosted, Takes, Reuses, SlotLeft;
    var front := taken[..|taken| - 1];
    assert forall m :: 0 <= m < |front| ==> front[m] == taken[m];
  }

  // ---------------------------------------------------------------- two runs

  /**
   Two runs in a row, with any inputs and predecessors: there is a history without a harmful stop
   in which the second one stages, tier by tier, what it may take of the first one's layers.
   */
  lemma TwoRuns(env: Env, j: Inputs, i: Inputs, built: seq<Tree>, taken: seq<Tree>)
    returns (states: seq<State>, steps: seq<Step>, last: State)
    requires EnvOk(env) && j.Ok() && i.Ok() && BuiltBy(env, j, built) && TakesAll(env, j, i, built, taken)
    ensures Leads(env, states, steps, EMPTY_CACHE, last) && AtTier(last, i, taken)
    ensures ReusesAll(env, j, i, built, taken) ==>
              |steps| >= |taken| && StartThenHits(steps[|steps| - |taken|..], |taken|)
    ensures forall m :: 0 <= m < |taken| - 1 && Reuses(env, m, j, i, built[m], built[m + 1], taken[m]) ==>
              InstallLayer.InventoryOf(env.hash, taken[m + 1])
              == Moved(InstallLayer.InventoryOf(env.hash, built[m]), InstallLayer.InventoryOf(env.hash, built[m + 1]),
                       InstallLayer.InventoryOf(env.hash, taken[m]))
  {
    hide Leads, Makes, Hosted, SlotLeft, EnvOk, Reuses, Next, InstallLayer.InventoryOf, Moved, Reused, EmptyFrom;
    var xs, ps, s := FirstRun(env, j, built);
    var ys, qs := StopReaches(env, s, j, built);
    var t := s.(run := None);
    xs, ps := LeadsOn(env, xs, ps, ys, qs, EMPTY_CACHE, s, t);
    ys, qs, last := LaterRun(env, t, j, i, built, taken);
    states, steps := LeadsOn(env, xs, ps, ys, qs, EMPTY_CACHE, t, last);
    forall m | 0 <= m < |taken| - 1 && Reuses(env, m, j, i, built[m], built[m + 1], taken[m])
      ensures InstallLayer.InventoryOf(env.hash, taken[m + 1])
           == Moved(InstallLayer.InventoryOf(env.hash, built[m]), InstallLayer.InventoryOf(env.hash, built[m + 1]),
                    InstallLayer.InventoryOf(env.hash, taken[m]))
    {
      ReusedInventory(env, m, j, i, built[m], built[m + 1], taken[m]);
      assert Takes(env, m, j, i, built[m], built[m + 1], taken[m], taken[m + 1]);
    }
  }

  /**
   Needed of a cache that is always right, at every tier: what one run's build made must be what
   another run's build could have made, wherever the key and the layer let the other reuse it.
   */
  lemma RightNeedsCover(env: Env, j: Inputs, i: Inputs, built: seq<Tree>, taken: seq<Tree>, tier: nat)
    requires EnvOk(env) && AlwaysRight(env) && j.Ok() && i.Ok()
    requires BuiltBy(env, j, built) && TakesAll(env, j, i, built, taken) && tier + 1 < |taken|
    requires Reuses(env, tier, j, i, built[tier], built[tier + 1], taken[tier])
    ensures Builds(env, tier, i, InstallLayer.InventoryOf(env.hash, taken[tier]),
                   Moved(InstallLayer.InventoryOf(env.hash, built[tier]), InstallLayer.InventoryOf(env.hash,
                       built[tier + 1]),
                         InstallLayer.InventoryOf(env.hash, taken[tier])))
  {
    hide Makes, Hosted, EnvOk, Reuses, Next, InstallLayer.InventoryOf, Moved, Builds, Harmless, Linked, Takes, Reused;
    var states, steps, last := TwoRuns(env, j, i, built, taken);
    assert Initial(states[0]);
    assert RunRight(env, states[|steps|]);
  }

  /**
   A stale layer, at Skia or curl. Inputs that differ in anything the tier's key leaves out, be it
   compiler, assets or earlier recipes, and that lead to the same inventory before the tier: the
   second run stages what the first one built there.
   */
  lemma StaleLayer(env: Env, j: Inputs, i: Inputs, built: seq<Tree>, taken: seq<Tree>)
    returns (states: seq<State>, steps: seq<Step>, last: State)
    requires EnvOk(env) && j.Ok() && i.Ok() && BuiltBy(env, j, built) && TakesAll(env, j, i, built, taken)
    requires 3 <= |taken| && SameKeyed(|taken| - 2, j, i)
    requires LayerValid(env, built[|taken| - 2], built[|taken| - 1])
    requires InstallLayer.InventoryOf(env.hash, built[|taken| - 2])
          == InstallLayer.InventoryOf(env.hash, taken[|taken| - 2])
    ensures Leads(env, states, steps, EMPTY_CACHE, last) && AtTier(last, i, taken)
    ensures InstallLayer.InventoryOf(env.hash, taken[|taken| - 1])
         == InstallLayer.InventoryOf(env.hash, built[|taken| - 1])
  {
    hide Makes, Hosted, EnvOk, Next, InstallLayer.InventoryOf, Moved, Takes, Reused, LayerValid, Leads, SameKeyed;
    var tier := |taken| - 2;
    states, steps, last := TwoRuns(env, j, i, built, taken);
    assert Reuses(env, tier, j, i, built[tier], built[tier + 1], taken[tier]);
    MovedSelf(InstallLayer.InventoryOf(env.hash, built[tier]), InstallLayer.InventoryOf(env.hash, built[tier + 1]));
  }

  /**
   Needed, at the ports tier: no build may tell apart predecessors, nor inputs, that share its key;
   two packagings of one predecessor do.
   */
  lemma RightNeedsTimeBlind(env: Env, j: Inputs, i: Inputs, sdk: Tree, ports: Tree, repacked: Tree)
    requires EnvOk(env) && AlwaysRight(env) && j.Ok() && i.Ok() && SameKeyed(PORTS, j, i)
    requires Makes(env, PORTS, j, sdk, ports) && LayerValid(env, sdk, ports)
    requires Hosted(repacked) && KeyedInventory(env, PORTS, sdk) == KeyedInventory(env, PORTS, repacked)
    ensures Builds(env, PORTS, i, InstallLayer.InventoryOf(env.hash, repacked),
                   Moved(InstallLayer.InventoryOf(env.hash, sdk), InstallLayer.InventoryOf(env.hash, ports),
                         InstallLayer.InventoryOf(env.hash, repacked)))
  {
    hide Makes, Hosted, EnvOk, InstallLayer.InventoryOf, Moved, Builds, Reused, AlwaysRight, SameKeyed, KeyedInventory;
    hide LayerValid;
    var built, taken := [sdk, ports], [repacked, Reused(env, sdk, ports, repacked)];
    MadeFacts(env, PORTS, j, sdk, ports);
    assert Reuses(env, PORTS, j, i, built[0], built[1], taken[0]);
    assert Takes(env, PORTS, j, i, built[0], built[1], taken[0], taken[1]);
    RightNeedsCover(env, j, i, built, taken, PORTS);
  }

  // ---------------------------------------------------------------- an undisturbed rerun

  /** What replaying all the layers of a run on its own predecessor leaves. */
  ghost function ReusedAll(env: Env, built: seq<Tree>): (taken: seq<Tree>)
    ensures |taken| == |built|
  {
    if |built| <= 1 then built
    else
      var front := ReusedAll(env, built[..|built| - 1]);
      front + [Reused(env, built[|built| - 2], built[|built| - 1], front[|built| - 2])]
  }

  lemma {:induction false} ReusedAllAt(env: Env, built: seq<Tree>, m: nat)
    requires m < |built|
    ensures m == 0 ==> ReusedAll(env, built)[m] == built[m]
    ensures m > 0 ==>
              ReusedAll(env, built)[m] == Reused(env, built[m - 1], built[m], ReusedAll(env, built)[m - 1])
    decreases |built|
  {
    hide Reused;
    if |built| > 1 && m < |built| - 1 {
      ReusedAllAt(env, built[..|built| - 1], m);
    }
  }

  lemma {:induction false} ReusedAllSame(env: Env, i: Inputs, built: seq<Tree>, m: nat)
    requires EnvOk(env) && BuiltBy(env, i, built) && m < |built|
    requires forall k :: 0 <= k < |built| - 1 ==> LayerValid(env, built[k], built[k + 1])
    ensures Hosted(ReusedAll(env, built)[m])
    ensures InstallLayer.InventoryOf(env.hash, ReusedAll(env, built)[m]) == InstallLayer.InventoryOf(env.hash, built[m])
    ensures KeyedInventory(env, m, ReusedAll(env, built)[m]) == KeyedInventory(env, m, built[m])
  {
    hide InstallLayer.InventoryOf, InstallLayer.NormalInventoryOf, Hosted, Makes, EnvOk, LayerValid, Reused, Moved;
    var taken := ReusedAll(env, built);
    ReusedAllAt(env, built, m);
    if m > 0 {
      ReusedAllSame(env, i, built, m - 1);
      assert Makes(env, m - 1, i, built[m - 1], built[m]);
      ReusedInventory(env, m - 1, i, i, built[m - 1], built[m], taken[m - 1]);
      MovedSelf(InstallLayer.InventoryOf(env.hash, built[m - 1]), InstallLayer.InventoryOf(env.hash, built[m]));
    }
  }

  /**
   What the cache is for: a rerun of a completed run, its predecessor and inputs the same, builds
   nothing. It hits all its tiers and stages the inventories the first run had staged.
   */
  lemma RerunHitsEverything(env: Env, i: Inputs, built: seq<Tree>)
    returns (states: seq<State>, steps: seq<Step>, last: State)
    requires EnvOk(env) && i.Ok() && BuiltBy(env, i, built) && |built| == 4
    requires forall k :: 0 <= k < 3 ==> LayerValid(env, built[k], built[k + 1])
    ensures Leads(env, states, steps, EMPTY_CACHE, last) && AtTier(last, i, ReusedAll(env, built))
    ensures |steps| >= 4 && StartThenHits(steps[|steps| - 4..], 4)
    ensures forall m :: 0 <= m < 4 ==>
              InstallLayer.InventoryOf(env.hash, ReusedAll(env, built)[m])
                  == InstallLayer.InventoryOf(env.hash, built[m])
  {
    hide InstallLayer.InventoryOf, Hosted, Makes, EnvOk, LayerValid, Reused, Moved, KeyedInventory, Leads;
    var taken := ReusedAll(env, built);
    forall m | 0 <= m < 4
      ensures InstallLayer.InventoryOf(env.hash, taken[m]) == InstallLayer.InventoryOf(env.hash, built[m])
      ensures Hosted(taken[m]) && KeyedInventory(env, m, taken[m]) == KeyedInventory(env, m, built[m])
    {
      ReusedAllSame(env, i, built, m);
    }
    forall m | 0 <= m < 3
      ensures Reuses(env, m, i, i, built[m], built[m + 1], taken[m])
      ensures Takes(env, m, i, i, built[m], built[m + 1], taken[m], taken[m + 1])
    {
      ReusedAllAt(env, built, m + 1);
    }
    assert ReusesAll(env, i, i, built, taken);
    states, steps, last := TwoRuns(env, i, i, built, taken);
  }

  // ---------------------------------------------------------------- a harmful stop at any tier

  lemma RunLayerIs(env: Env, r: Run, base: Tree, made: Tree)
    requires r.Base() == base && r.staged == made
    ensures RunLayer(env, r) == InstallLayer.Captured(env.hash, made, InstallLayer.InventoryOf(env.hash, base))
  {
    hide InstallLayer.Captured, InstallLayer.InventoryOf;
  }

  /** A run that reuses the earlier tiers builds the next one anew and has its layer in place. */
  lemma WindowAt(env: Env, a: Inputs, b: Inputs, built: seq<Tree>, taken: seq<Tree>, made: Tree)
    returns (states: seq<State>, steps: seq<Step>, last: State)
    requires EnvOk(env) && a.Ok() && b.Ok() && BuiltBy(env, a, built) && |taken| < |built|
    requires TakesAll(env, a, b, built, taken) && ReusesAll(env, a, b, built, taken)
    requires !SameKeyed(|taken| - 1, a, b) && Makes(env, |taken| - 1, b, taken[|taken| - 1], made)
    ensures Leads(env, states, steps, EMPTY_CACHE, last) && Harmful(env, last, Stop)
    ensures |last.slots| == 3 && LeftBy(env, last.slots, a, built[..|taken|])
    ensures last.slots[|taken| - 1]
         == Slot(Some(InstallLayer.Captured(env.hash, made, InstallLayer.InventoryOf(env.hash, taken[|taken| - 1]))),
                 Some(KeyOf(env, |taken| - 1, built[|taken| - 1], KeyedInputs(a, |taken| - 1))))
  {
    hide Makes, Hosted, EnvOk, Reuses, Takes, InstallLayer.InventoryOf, InstallLayer.Captured, KeyOf, Calm, Harmful;
    hide EmptyFrom;
    var k := |taken| - 1;
    var xs, ps, s := FirstRun(env, a, built);
    var ys, qs := StopReaches(env, s, a, built);
    var t := s.(run := None);
    xs, ps := LeadsOn(env, xs, ps, ys, qs, EMPTY_CACHE, s, t);
    var u;
    ys, qs, u := LaterRun(env, t, a, b, built, taken);
    xs, ps := LeadsOn(env, xs, ps, ys, qs, EMPTY_CACHE, t, u);
    assert u.slots[k] == t.slots[k] == SlotLeft(env, k, a, built[k], built[k + 1]);
    KeyedFiles(a, k);
    KeyedFiles(b, k);
    BuiltHosted(env, a, built, k);
    EqualKeys(env, k, built[k], taken[k], KeyedInputs(a, k), KeyedInputs(b, k));
    ys, qs := WindowEntered(env, u, made);
    last := ys[2];
    RunLayerIs(env, last.run.value, taken[k], made);
    states, steps := LeadsOn(env, xs, ps, ys, qs, EMPTY_CACHE, u, last);
  }

  lemma BuiltHosted(env: Env, j: Inputs, built: seq<Tree>, m: nat)
    requires BuiltBy(env, j, built) && m < |built|
    ensures Hosted(built[m])
  {
    if m > 0 { MadeFacts(env, m - 1, j, built[m - 1], built[m]); }
  }

  /**
   A harmful stop does its harm at every tier. After a completed tier of a run with `a`, a run with
   `b` that reuses the tiers before it stops in that tier's window; a third run, with `a` again,
   then hits that tier and stages what `b` built.
   */
  lemma StopPoisonsEveryTier(env: Env, a: Inputs, b: Inputs, built: seq<Tree>, taken: seq<Tree>, made: Tree)
    returns (states: seq<State>, steps: seq<Step>, last: State, next: Tree, n: nat)
    requires EnvOk(env) && a.Ok() && b.Ok() && BuiltBy(env, a, built) && |taken| < |built|
    requires TakesAll(env, a, b, built, taken) && ReusesAll(env, a, b, built, taken)
    requires !SameKeyed(|taken| - 1, a, b) && Makes(env, |taken| - 1, b, taken[|taken| - 1], made)
    requires KeyedInventory(env, |taken| - 1, built[|taken| - 1])
        == KeyedInventory(env, |taken| - 1, taken[|taken| - 1])
    requires LayerValid(env, taken[|taken| - 1], made)
    ensures History(env, states, steps) && n < |steps| && states[|steps|] == last
    ensures forall i :: 0 <= i < |steps| ==> (Harmful(env, states[i], steps[i]) <==> i == n)
    ensures AtTier(last, a, taken + [next])
    ensures InstallLayer.InventoryOf(env.hash, next) == InstallLayer.InventoryOf(env.hash, made)
  {
    hide Makes, Hosted, EnvOk, Reuses, Takes, InstallLayer.InventoryOf, InstallLayer.Captured, KeyOf, Harmful, Next;
    hide LeftBy, Leads, KeyedInventory, SameKeyed, Harmless, Initial;
    var xs, ps, w := WindowAt(env, a, b, built, taken, made);
    var ys, qs;
    ys, qs, last, next := PoisonedEnd(env, w, a, b, built, taken, made);
    n := |ps|;
    LeadsParts(env, xs, ps, EMPTY_CACHE, w);
    LinkedAppend(env, xs, ps, ys, qs);
    states, steps := xs + ys[1..], ps + qs;
    forall i | 0 <= i < |steps| ensures Harmful(env, states[i], steps[i]) <==> i == n {
      if i < |ps| { assert !Harmful(env, xs[i], ps[i]); }
      else { assert Harmful(env, ys[i - |ps|], qs[i - |ps|]) <==> i - |ps| == 0; }
    }
  }

  lemma LeadsParts(env: Env, states: seq<State>, steps: seq<Step>, first: State, last: State)
    requires Leads(env, states, steps, first, last)
    ensures Linked(env, states, steps) && |states| == |steps| + 1 && states[0] == first && states[|steps|] == last
    ensures forall i :: 0 <= i < |steps| ==> !Harmful(env, states[i], steps[i])
    ensures first == EMPTY_CACHE ==> Initial(states[0])
  {
    hide Next, Harmful;
  }

  /** Reuse does not depend on which of the runs with the same key it is. */
  lemma OwnReuse(env: Env, a: Inputs, b: Inputs, built: seq<Tree>, taken: seq<Tree>)
    requires TakesAll(env, a, b, built, taken) && ReusesAll(env, a, b, built, taken) && |taken| < |built|
    ensures TakesAll(env, a, a, built[..|taken|], taken) && ReusesAll(env, a, a, built[..|taken|], taken)
  {
    hide Hosted, Makes, KeyedInventory, LayerValid, Reused;
    var front := built[..|taken|];
    forall m | 0 <= m < |taken| - 1
      ensures Reuses(env, m, a, a, front[m], front[m + 1], taken[m])
          && taken[m + 1] == Reused(env, front[m], front[m + 1], taken[m])
    {
      assert Takes(env, m, a, b, built[m], built[m + 1], taken[m], taken[m + 1]);
      assert Reuses(env, m, a, b, built[m], built[m + 1], taken[m]);
      assert front[m] == built[m] && front[m + 1] == built[m + 1];
    }
  }

  lemma BuiltPrefix(env: Env, a: Inputs, built: seq<Tree>, n: nat)
    requires BuiltBy(env, a, built) && 1 <= n <= |built|
    ensures BuiltBy(env, a, built[..n])
  {
    hide Makes, Hosted;
    assert forall m :: 0 <= m < n ==> built[..n][m] == built[m];
  }

  /** From the window on: the stop, the third run up to the poisoned tier, and its hit. */
  lemma PoisonedEnd(env: Env, w: State, a: Inputs, b: Inputs, built: seq<Tree>, taken: seq<Tree>, made: Tree)
    returns (states: seq<State>, steps: seq<Step>, last: State, next: Tree)
    requires EnvOk(env) && a.Ok() && BuiltBy(env, a, built) && |taken| < |built|
    requires TakesAll(env, a, b, built, taken) && ReusesAll(env, a, b, built, taken)
    requires Makes(env, |taken| - 1, b, taken[|taken| - 1], made)
    requires KeyedInventory(env, |taken| - 1, built[|taken| - 1])
        == KeyedInventory(env, |taken| - 1, taken[|taken| - 1])
    requires LayerValid(env, taken[|taken| - 1], made)
    requires Harmful(env, w, Stop) && |w.slots| == 3 && LeftBy(env, w.slots, a, built[..|taken|])
    requires w.slots[|taken| - 1]
          == Slot(Some(InstallLayer.Captured(env.hash, made, InstallLayer.InventoryOf(env.hash, taken[|taken| - 1]))),
                  Some(KeyOf(env, |taken| - 1, built[|taken| - 1], KeyedInputs(a, |taken| - 1))))
    ensures Linked(env, states, steps) && |states| == |steps| + 1 && |steps| > 0 && states[0] == w
        && states[|steps|] == last
    ensures forall i :: 0 <= i < |steps| ==> (Harmful(env, states[i], steps[i]) <==> i == 0)
    ensures AtTier(last, a, taken + [next])
    ensures InstallLayer.InventoryOf(env.hash, next) == InstallLayer.InventoryOf(env.hash, made)
  {
    hide Makes, Hosted, EnvOk, Reuses, Takes, InstallLayer.InventoryOf, InstallLayer.Captured, Harmful, Next;
    hide LeftBy, KeyedInventory, Leads, InstallLayer.Valid, BuiltBy, KeyOf, LayerValid, ReusesAll;
    var k := |taken| - 1;
    var t := w.(run := None);
    OwnReuse(env, a, b, built, taken);
    BuiltPrefix(env, a, built, |taken|);
    HarmfulStop(env, w);
    var xs, ps, u := LaterRun(env, t, a, a, built[..|taken|], taken);
    SameKey(env, k, built[k], taken[k], KeyedInputs(a, k));
    var ys, qs;
    ys, qs, last, next := OtherLayerHit(env, u, a, b, taken, made);
    xs, ps := LeadsOn(env, xs, ps, ys, qs, t, u, last);
    LeadsParts(env, xs, ps, t, last);
    LinkedAppend(env, [w, t], [Stop], xs, ps);
    states, steps := [w, t] + xs[1..], [Stop] + ps;
    forall i | 0 <= i < |steps| ensures Harmful(env, states[i], steps[i]) <==> i == 0 {
      if i > 0 { assert !Harmful(env, xs[i - 1], ps[i - 1]); }
    }
  }

  lemma HarmfulStop(env: Env, w: State)
    requires Harmful(env, w, Stop)
    ensures Linked(env, [w, w.(run := None)], [Stop])
  {
    assert Next(env, w, Stop, w.(run := None));
  }

  lemma SameKey(env: Env, tier: nat, a: Tree, b: Tree, inputs: Keyed)
    requires KeyedInventory(env, tier, a) == KeyedInventory(env, tier, b)
    ensures KeyOf(env, tier, a, inputs) == KeyOf(env, tier, b, inputs)
  {}

  /** A run with `a` that finds `b`'s layer of the same tree under its own key. */
  lemma OtherLayerHit(env: Env, u: State, a: Inputs, b: Inputs, trail: seq<Tree>, made: Tree)
    returns (states: seq<State>, steps: seq<Step>, last: State, next: Tree)
    requires EnvOk(env) && a.Ok() && AtTier(u, a, trail) && |trail| < 4 && LayerValid(env, trail[|trail| - 1], made)
    requires Makes(env, |trail| - 1, b, trail[|trail| - 1], made)
    requires u.slots[|trail| - 1]
          == Slot(Some(InstallLayer.Captured(env.hash, made, InstallLayer.InventoryOf(env.hash, trail[|trail| - 1]))),
                  Some(KeyOf(env, |trail| - 1, trail[|trail| - 1], KeyedInputs(a, |trail| - 1))))
    ensures Leads(env, states, steps, u, last) && AtTier(last, a, trail + [next])
    ensures InstallLayer.InventoryOf(env.hash, next) == InstallLayer.InventoryOf(env.hash, made)
  {
    hide Makes, Hosted, EnvOk, InstallLayer.InventoryOf, InstallLayer.Captured, Next, Moved, InstallLayer.Valid;
    hide KeyOf, Calm;
    hide Reused;
    var t := trail[|trail| - 1];
    MadeFacts(env, |trail| - 1, b, t, made);
    var d;
    d, next := LayerHit(env, u, t, made);
    MovedSelf(InstallLayer.InventoryOf(env.hash, t), InstallLayer.InventoryOf(env.hash, made));
    last := u.(run := Some(u.run.value.Onward(next)));
    HitCalm(env, u, d, last);
    states, steps := [u, last], [Hit(d)];
  }
}
