/**
 Where the cache stages what no build of the run could have: the stop that leaves a new layer under
 another run's key, and inputs of a later tier's build that its key leaves out.
 */
module CacheLimits {
  import opened Wrappers
  import opened Trees
  import opened Framing
  import InstallLayer
  import opened LayerRoundTrip
  import opened LayerCache

  /** Steps of a work root, none of them a harmful stop. */
  ghost predicate Calm(env: Env, states: seq<State>, steps: seq<Step>) {
    Linked(env, states, steps) && Harmless(env, states, steps, |steps|)
  }

  lemma LinkedAppend(env: Env, xs: seq<State>, ps: seq<Step>, ys: seq<State>, qs: seq<Step>)
    requires Linked(env, xs, ps) && Linked(env, ys, qs) && xs[|ps|] == ys[0]
    ensures Linked(env, xs + ys[1..], ps + qs)
    ensures Harmless(env, xs, ps, |ps|) && Harmless(env, ys, qs, |qs|)
        ==> Harmless(env, xs + ys[1..], ps + qs, |ps + qs|)
    ensures forall i :: 0 <= i < |ps| + |qs| ==>
              (Harmful(env, (xs + ys[1..])[i], (ps + qs)[i])
               <==> if i < |ps| then Harmful(env, xs[i], ps[i]) else Harmful(env, ys[i - |ps|], qs[i - |ps|]))
    ensures (xs + ys[1..])[0] == xs[0] && (xs + ys[1..])[|ps + qs|] == ys[|qs|]
  {
    hide Next, Harmful;
    assert xs[|ps|] == ys[0];
    forall i | 0 <= i < |ps| + |qs|
      ensures Next(env, (xs + ys[1..])[i], (ps + qs)[i], (xs + ys[1..])[i + 1])
      ensures Harmful(env, (xs + ys[1..])[i], (ps + qs)[i])
         <==> if i < |ps| then Harmful(env, xs[i], ps[i]) else Harmful(env, ys[i - |ps|], qs[i - |ps|])
    {
      AppendedAt(xs, ps, ys, qs, i);
      if i < |ps| { assert Next(env, xs[i], ps[i], xs[i + 1]); }
      else { assert Next(env, ys[i - |ps|], qs[i - |ps|], ys[i - |ps| + 1]); }
    }
    assert |xs + ys[1..]| == |ps + qs| + 1;
  }

  lemma AppendedAt(xs: seq<State>, ps: seq<Step>, ys: seq<State>, qs: seq<Step>, i: nat)
    requires |xs| == |ps| + 1 && |ys| == |qs| + 1 && xs[|ps|] == ys[0] && i < |ps| + |qs|
    ensures |xs + ys[1..]| == |ps + qs| + 1
    ensures (ps + qs)[i] == if i < |ps| then ps[i] else qs[i - |ps|]
    ensures (xs + ys[1..])[i] == if i < |ps| then xs[i] else ys[i - |ps|]
    ensures (xs + ys[1..])[i + 1] == if i < |ps| then xs[i + 1] else ys[i - |ps| + 1]
  {}

  // ---------------------------------------------------------------- a hit on any layer under the key

  /** What replaying the whole layer of a build makes of `t`. */
  ghost function Reused(env: Env, base: Tree, made: Tree, t: Tree): Tree {
    var before := InstallLayer.InventoryOf(env.hash, base);
    InstallLayer.Replayed(t, InstallLayer.Captured(env.hash, made, before), Recorded(env.hash, made, before))
  }

  /**
   What a run gets that finds a valid layer under its key, whoever captured the layer and of
   whatever tree, as long as the names are the same: what that build makes of its own tree.
   */
  lemma LayerHit(env: Env, s: State, base: Tree, made: Tree) returns (d: Delta, next: Tree)
    requires EnvOk(env) && Active(s, Checking) && Hosted(s.run.value.staged)
    requires Hosted(base) && Hosted(made) && InstallLayer.METADATA !in made
    requires InstallLayer.InventoryOf(env.hash, base).Keys
        == InstallLayer.InventoryOf(env.hash, s.run.value.staged).Keys
    requires var before := InstallLayer.InventoryOf(env.hash, base);
             && s.slots[s.run.value.tier]
                == Slot(Some(InstallLayer.Captured(env.hash, made, before)), Some(RunKey(env, s.run.value)))
             && InstallLayer.Valid(env.hash, env.esc, InstallLayer.Captured(env.hash, made, before))
    ensures Next(env, s, Hit(d), s.(run := Some(s.run.value.Onward(next)))) && Hosted(next)
    ensures next == Reused(env, base, made, s.run.value.staged)
    ensures forall other, after :: !Next(env, s, Build(other), after)
    ensures InstallLayer.InventoryOf(env.hash, next)
         == Moved(InstallLayer.InventoryOf(env.hash, base), InstallLayer.InventoryOf(env.hash, made),
                  InstallLayer.InventoryOf(env.hash, s.run.value.staged))
  {
    hide InstallLayer.InventoryOf, InstallLayer.Captured, InstallLayer.Accepts, InstallLayer.Replayable, Remnant;
    hide KeyOf, IsTree, EnvOk, InstallLayer.Valid, InstallLayer.Replayed, InstallLayer.PathsOf, Moved, Makes, Hosted;
    var before := InstallLayer.InventoryOf(env.hash, base);
    var layer := InstallLayer.Captured(env.hash, made, before);
    d := AcceptedDelta(env, layer);
    HostedIsTree(made);
    CapturedIsTree(env.hash, made, before);
    WholeRemnant(layer);
    LayerOutcome(env, layer, base, made, s.run.value.staged, d);
    next := InstallLayer.Replayed(s.run.value.staged, layer, d);
    assert Hits(env, s.slots[s.run.value.tier], RunKey(env, s.run.value), d);
  }

  lemma AcceptedDelta(env: Env, layer: Tree) returns (d: Delta)
    requires InstallLayer.Valid(env.hash, env.esc, layer)
    ensures InstallLayer.Accepts(env.hash, env.esc, layer, d)
  {
    hide InstallLayer.Accepts;
    d :| InstallLayer.Accepts(env.hash, env.esc, layer, d);
  }

  lemma HostedIsTree(t: Tree)
    requires Hosted(t)
    ensures IsTree(t)
  {}

  lemma WholeRemnant(layer: Tree)
    ensures Remnant(layer, layer)
  {}

  // ---------------------------------------------------------------- the window

  /**
   A harmful stop in state `s` poisons its tier. In any later state `u` that reaches the tier under
   the old key, with the slot as the stop left it, the run must hit, and what it stages is what the
   interrupted run built, so it is right exactly when that is a build of its own inputs as well.
   */
  lemma StopPoisonsTier(env: Env, s: State, u: State) returns (d: Delta, next: Tree)
    requires EnvOk(env) && Invariant(env, s) && Harmful(env, s, Stop)
    requires Active(u, Checking) && u.run.value.tier == s.run.value.tier && Hosted(u.run.value.staged)
    requires u.slots[u.run.value.tier] == s.slots[u.run.value.tier]
    requires s.slots[u.run.value.tier].marker == Some(RunKey(env, u.run.value))
    requires InstallLayer.InventoryOf(env.hash, s.run.value.Base()).Keys
        == InstallLayer.InventoryOf(env.hash, u.run.value.staged).Keys
    requires InstallLayer.Valid(env.hash, env.esc, RunLayer(env, s.run.value))
    ensures Next(env, u, Hit(d), u.(run := Some(u.run.value.Onward(next)))) && Hosted(next)
    ensures forall other, after :: !Next(env, u, Build(other), after)
    ensures InstallLayer.InventoryOf(env.hash, next)
         == Moved(InstallLayer.InventoryOf(env.hash, s.run.value.Base()), InstallLayer.InventoryOf(env.hash,
             s.run.value.staged),
                  InstallLayer.InventoryOf(env.hash, u.run.value.staged))
  {
    hide InstallLayer.InventoryOf, InstallLayer.Captured, KeyOf, EnvOk, Hosted, InstallLayer.Valid, Moved, CaptureOk;
    hide SlotOk, RunOk, Next;
    var r := s.run.value;
    RunFacts(env, s);
    WindowFacts(env, r, s.log);
    assert s.slots[r.tier].layer == Some(RunLayer(env, r));
    d, next := LayerHit(env, u, r.Base(), r.staged);
  }

  lemma WindowFacts(env: Env, r: Run, log: set<Capture>)
    requires RunOk(env, r, log) && r.phase.Replaced? && forall c :: c in log ==> CaptureOk(env, c)
    ensures Hosted(r.Base()) && Hosted(r.staged) && InstallLayer.METADATA !in r.staged
  {
    hide Passed, Hosted;
    assert CaptureOk(env, Capture(r.tier, r.inputs, r.trail[r.tier], r.staged));
  }

  /**
   At the ports tier such a later state always comes about: the work root stops harmfully, and a
   run with the inputs and predecessor whose key the marker still holds is started.
   */
  lemma StopInWindowPoisonsCache(env: Env, xs: seq<State>, ps: seq<Step>, a: Inputs, sdk: Tree)
    returns (states: seq<State>, steps: seq<Step>, next: Tree)
    requires EnvOk(env) && History(env, xs, ps) && Harmless(env, xs, ps, |ps|) && Harmful(env, xs[|ps|], Stop)
    requires xs[|ps|].run.value.tier == PORTS && a.Ok() && Hosted(sdk)
    requires xs[|ps|].slots[PORTS].marker == Some(KeyOf(env, PORTS, sdk, KeyedInputs(a, PORTS)))
    requires InstallLayer.InventoryOf(env.hash, xs[|ps|].run.value.Base()).Keys
        == InstallLayer.InventoryOf(env.hash, sdk).Keys
    requires InstallLayer.Valid(env.hash, env.esc, RunLayer(env, xs[|ps|].run.value))
    ensures History(env, states, steps) && |steps| == |ps| + 3 && |states| == |xs| + 3
    ensures forall i :: 0 <= i < |steps| ==> (Harmful(env, states[i], steps[i]) <==> i == |ps|)
    ensures states[|ps| + 3].run == Some(Run(a, SKIA, [sdk, next], next, Checking)) && Hosted(next)
    ensures InstallLayer.InventoryOf(env.hash, next)
         == Moved(InstallLayer.InventoryOf(env.hash, xs[|ps|].run.value.Base()),
                  InstallLayer.InventoryOf(env.hash, xs[|ps|].run.value.staged),
                      InstallLayer.InventoryOf(env.hash, sdk))
  {
    hide InstallLayer.InventoryOf, InstallLayer.Captured, KeyOf, EnvOk, Hosted, InstallLayer.Valid, Moved, Invariant;
    hide Initial;
    hide InstallLayer.Accepts, InstallLayer.Replayable, InstallLayer.Replayed, Makes, RunKey, RunLayer;
    HistoryInvariant(env, xs, ps, |ps|);
    var s := xs[|ps|];
    var t := s.(run := None);
    var u := s.(run := Some(Run(a, PORTS, [sdk], sdk, Checking)));
    assert Next(env, s, Stop, t);
    assert Next(env, t, Start(a, sdk), u);
    FreshKey(env, a, sdk);
    var d;
    d, next := StopPoisonsTier(env, s, u);
    var v := u.(run := Some(u.run.value.Onward(next)));
    assert [sdk] + [next] == [sdk, next];
    assert Linked(env, [s, t, u, v], [Stop, Start(a, sdk), Hit(d)]);
    NotStops(env, [s, t, u, v], [Stop, Start(a, sdk), Hit(d)]);
    hide Next, Harmful, Harmless;
    LinkedAppend(env, xs, ps, [s, t, u, v], [Stop, Start(a, sdk), Hit(d)]);
    states, steps := xs + [s, t, u, v][1..], ps + [Stop, Start(a, sdk), Hit(d)];
  }

  lemma NotStops(env: Env, states: seq<State>, steps: seq<Step>)
    requires |states| == |steps| + 1 && |steps| == 3 && !steps[1].Stop? && !steps[2].Stop?
    ensures !Harmful(env, states[1], steps[1]) && !Harmful(env, states[2], steps[2])
  {}

  lemma FreshKey(env: Env, a: Inputs, sdk: Tree)
    ensures RunKey(env, Run(a, PORTS, [sdk], sdk, Checking)) == KeyOf(env, PORTS, sdk, KeyedInputs(a, PORTS))
  {
    hide KeyOf;
  }

  // ---------------------------------------------------------------- what a missed tier leaves

  /** The state after a tier was built, captured and marked. */
  ghost function AfterBuild(env: Env, s: State, made: Tree): State
    requires s.run.Some? && s.run.value.tier < |s.slots|
  {
    var r := s.run.value;
    var layer := InstallLayer.Captured(env.hash, made, InstallLayer.InventoryOf(env.hash, r.Base()));
    State(s.slots[r.tier := Slot(Some(layer), Some(RunKey(env, r)))], Some(r.Onward(made)),
          s.log + {Capture(r.tier, r.inputs, r.Base(), made)})
  }

  ghost predicate CanHit(env: Env, slot: Slot, key: Key) { exists d :: Hits(env, slot, key, d) }

  lemma TierBuilt(env: Env, s: State, made: Tree) returns (states: seq<State>, steps: seq<Step>)
    requires Active(s, Checking) && Makes(env, s.run.value.tier, s.run.value.inputs, s.run.value.staged, made)
    requires !CanHit(env, s.slots[s.run.value.tier], RunKey(env, s.run.value))
    ensures Calm(env, states, steps) && |steps| == 4 && |states| == 5
    ensures states[0] == s && states[4] == AfterBuild(env, s, made)
  {
    hide InstallLayer.Captured, InstallLayer.InventoryOf, KeyOf, InstallLayer.Accepts, Makes;
    var r := s.run.value;
    var q := r.(staged := made, phase := Built);
    var s1 := s.(run := Some(q), log := s.log + {Capture(r.tier, r.inputs, r.Base(), made)});
    var s2 := WithLayer(s1, r.tier, Some(RunLayer(env, q))).(run := Some(q.(phase := Replaced)));
    var s3 := WithMarker(s2, r.tier, None).(run := Some(q.(phase := Truncated)));
    var s4 := AfterBuild(env, s, made);
    assert Next(env, s, Build(made), s1);
    assert Next(env, s1, Replace, s2);
    assert Next(env, s2, Truncate, s3);
    assert s4.slots == s.slots[r.tier := Slot(Some(RunLayer(env, q)), Some(RunKey(env, q)))];
    assert Next(env, s3, Mark, s4);
    states, steps := [s, s1, s2, s3, s4], [Build(made), Replace, Truncate, Mark];
  }

  /** Build and capture, up to the new layer being in place under the old marker. */
  lemma WindowEntered(env: Env, s: State, made: Tree) returns (states: seq<State>, steps: seq<Step>)
    requires Active(s, Checking) && Makes(env, s.run.value.tier, s.run.value.inputs, s.run.value.staged, made)
    requires s.slots[s.run.value.tier].marker.Some?
        && s.slots[s.run.value.tier].marker.value != RunKey(env, s.run.value)
    ensures Calm(env, states, steps) && |steps| == 2 && |states| == 3 && states[0] == s
        && steps == [Build(made), Replace]
    ensures states[2].run == Some(s.run.value.(staged := made, phase := Replaced)) && Harmful(env, states[2], Stop)
    ensures var slot := Slot(Some(RunLayer(env, states[2].run.value)), s.slots[s.run.value.tier].marker);
            states[2].slots == s.slots[s.run.value.tier := slot]
  {
    hide InstallLayer.Captured, InstallLayer.InventoryOf, KeyOf, InstallLayer.Accepts, Makes;
    var r := s.run.value;
    var q := r.(staged := made, phase := Built);
    var s1 := s.(run := Some(q), log := s.log + {Capture(r.tier, r.inputs, r.Base(), made)});
    var s2 := WithLayer(s1, r.tier, Some(RunLayer(env, q))).(run := Some(q.(phase := Replaced)));
    assert Next(env, s, Build(made), s1);
    assert Next(env, s1, Replace, s2);
    states, steps := [s, s1, s2], [Build(made), Replace];
  }

  // ---------------------------------------------------------------- single steps and their histories

  ghost predicate LayerValid(env: Env, base: Tree, made: Tree) {
    var before := InstallLayer.InventoryOf(env.hash, base);
    InstallLayer.Valid(env.hash, env.esc, InstallLayer.Captured(env.hash, made, before))
  }

  ghost function Started(s: State, inputs: Inputs, sdk: Tree): State {
    s.(run := Some(Run(inputs, PORTS, [sdk], sdk, Checking)))
  }

  lemma StartCalm(env: Env, s: State, inputs: Inputs, sdk: Tree)
    requires s.run.None? && inputs.Ok() && Hosted(sdk)
    ensures Calm(env, [s, Started(s, inputs, sdk)], [Start(inputs, sdk)])
  {
    hide Hosted;
    assert Next(env, s, Start(inputs, sdk), Started(s, inputs, sdk));
  }

  lemma StopCalm(env: Env, s: State)
    requires s.run.Some? && s.run.value.phase.Checking?
    ensures Calm(env, [s, s.(run := None)], [Stop])
  {
    assert Next(env, s, Stop, s.(run := None));
  }

  lemma HitCalm(env: Env, s: State, d: Delta, next: State)
    requires Next(env, s, Hit(d), next)
    ensures Calm(env, [s, next], [Hit(d)])
  {
    hide Next;
  }

  const EMPTY_CACHE: State := State([Slot(None, None), Slot(None, None), Slot(None, None)], None, {})

  // ---------------------------------------------------------------- what a right cache takes

  /** Each tier the run has passed is one its own build could have taken. */
  ghost predicate RunRight(env: Env, s: State) {
    s.run.Some? ==>
      && |s.run.value.trail| == s.run.value.tier + 1
      && forall i :: 0 <= i < s.run.value.tier ==>
           Builds(env, i, s.run.value.inputs, InstallLayer.InventoryOf(env.hash, s.run.value.trail[i]),
                  InstallLayer.InventoryOf(env.hash, s.run.value.trail[i + 1]))
  }

  /** No history without a harmful stop ever stages a tier its run could not have built. */
  ghost predicate AlwaysRight(env: Env) {
    forall states: seq<State>, steps: seq<Step> :: Calm(env, states, steps) && Initial(states[0])
        ==> RunRight(env, states[|steps|])
  }

  /** Builds that cannot tell packaging times apart, nor inputs that share their tier's key. */
  ghost predicate KeysCoverAll(env: Env) {
    && (forall inputs: Inputs :: inputs.Ok() ==> TimeBlind(env, inputs))
    && (forall tier: nat, a: Inputs, b: Inputs ::
          tier < 3 && a.Ok() && b.Ok() && KeyedInputs(a, tier) == KeyedInputs(b, tier) ==> Alike(env, tier, a, b))
  }

  /** That is enough. */
  lemma CoveredIsRight(env: Env)
    requires EnvOk(env) && KeysCoverAll(env)
    ensures AlwaysRight(env)
  {
    hide EnvOk, KeysCoverAll, RunRight, Next, Harmful, Initial;
    forall states: seq<State>, steps: seq<Step> | Calm(env, states, steps) && Initial(states[0])
      ensures RunRight(env, states[|steps|])
    {
      if states[|steps|].run.Some? { CoveredRun(env, states, steps); } else { NoRun(env, states[|steps|]); }
    }
  }

  lemma NoRun(env: Env, s: State)
    requires s.run.None?
    ensures RunRight(env, s)
  {}

  lemma CoveredRun(env: Env, states: seq<State>, steps: seq<Step>)
    requires EnvOk(env) && KeysCoverAll(env) && Calm(env, states, steps) && Initial(states[0])
        && states[|steps|].run.Some?
    ensures RunRight(env, states[|steps|])
  {
    hide EnvOk, TimeBlind, Alike, Next, Harmful, Initial, Builds, InstallLayer.InventoryOf, Invariant;
    var s := states[|steps|];
    HistoryInvariant(env, states, steps, |steps|);
    LoggedInputsOk(env, s);
    CachedRunsMatchBuilds(env, states, steps, |steps|);
  }

  lemma LoggedInputsOk(env: Env, s: State)
    requires Invariant(env, s) && s.run.Some?
    ensures s.run.value.inputs.Ok() && forall c :: c in s.log ==> c.tier < 3 && c.inputs.Ok()
  {
    hide Invariant;
    forall c | c in s.log ensures c.tier < 3 && c.inputs.Ok() { InputsOk(env, s, c); }
    RunFacts(env, s);
    BaseHosted(env, s.run.value, s.log);
  }


}
