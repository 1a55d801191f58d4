/**
 Applying carried patches to a checkout, guarded by the hashes each patch expects before and
 after. The patch tool is a given function on the checkout's hashes.
 */
module Patches {
  import opened Wrappers

  /** Every file of the checkout and its current hash. */
  type Hashes = map<string, string>

  datatype Item = Item(file: string, before: string, after: string)

  datatype Patch = Patch(id: string, targets: set<string>, files: seq<Item>)

  /** The patch tool: the checkout it leaves and whether it reported success. */
  type Tool = (Patch, Hashes) -> (Hashes, bool)

  datatype Stop = MissingFile | WrongHash | MixedStates | ToolFailed | BadResult

  datatype Status = Pristine | Applied

  /** What a pass did: the checkout left, the patches run, the entries returned, why it stopped. */
  datatype Pass = Pass(tree: Hashes, ran: seq<string>, applied: seq<string>, stopped: Option<Stop>)

  predicate Selected(p: Patch, os: string, extra: set<string>) { os in p.targets || extra * p.targets != {} }

  predicate IsApplied(tree: Hashes, item: Item) { item.file in tree && tree[item.file] == item.after }

  predicate IsPristine(tree: Hashes, item: Item) {
    item.file in tree && tree[item.file] != item.after && tree[item.file] == item.before
  }

  /** Why the first unrecognised file stops the pass, if there is one. */
  function FirstProblem(tree: Hashes, files: seq<Item>): Option<Stop> {
    if files == [] then None
    else if files[0].file !in tree then Some(MissingFile)
    else if !IsApplied(tree, files[0]) && !IsPristine(tree, files[0]) then Some(WrongHash)
    else FirstProblem(tree, files[1..])
  }

  predicate AllApplied(tree: Hashes, files: seq<Item>) { forall i :: 0 <= i < |files| ==> IsApplied(tree, files[i]) }

  predicate AllPristine(tree: Hashes, files: seq<Item>) { forall i :: 0 <= i < |files| ==> IsPristine(tree, files[i]) }

  /** One patch of a pass. */
  function OnePatch(tool: Tool, r: Pass, p: Patch): Pass {
    if FirstProblem(r.tree, p.files).Some? then r.(stopped := FirstProblem(r.tree, p.files))
    else if p.files != [] && AllApplied(r.tree, p.files) then r.(applied := r.applied + [p.id])
    else if p.files != [] && AllPristine(r.tree, p.files) then
      var (tree, ok) := tool(p, r.tree);
      var after := r.(tree := tree, ran := r.ran + [p.id]);
      if !ok then after.(stopped := Some(ToolFailed))
      else if !AllApplied(tree, p.files) then after.(stopped := Some(BadResult))
      else after.(applied := r.applied + [p.id])
    else r.(stopped := Some(MixedStates))
  }

  /** A whole pass over the selected patches, stopping at the first problem. */
  function PassOver(tool: Tool, tree: Hashes, patches: seq<Patch>, os: string, extra: set<string>): Pass {
    if patches == [] then Pass(tree, [], [], None) else
    var last := |patches| - 1;
    var r := PassOver(tool, tree, patches[..last], os, extra);
    if r.stopped.Some? || !Selected(patches[last], os, extra) then r else OnePatch(tool, r, patches[last])
  }

  lemma {:induction false} NoProblem(tree: Hashes, files: seq<Item>)
    ensures FirstProblem(tree, files).None? <==>
              forall i :: 0 <= i < |files| ==> IsApplied(tree, files[i]) || IsPristine(tree, files[i])
  {
    if files != [] { NoProblem(tree, files[1..]); }
  }

  /** The checkout a pass works on. */
  class Checkout {
    var hashes: Hashes

    constructor (tree: Hashes)
      ensures hashes == tree
    {
      hashes := tree;
    }

    /** The state of each file a patch lists, or why one has none. */
    method States(files: seq<Item>) returns (states: seq<Status>, stopped: Option<Stop>)
      ensures stopped == FirstProblem(hashes, files)
      ensures stopped.None? ==> |states| == |files| && forall i :: 0 <= i < |files| ==>
                if states[i] == Applied then IsApplied(hashes, files[i]) else IsPristine(hashes, files[i])
    {
      states := [];
      for i := 0 to |files|
        invariant |states| == i && FirstProblem(hashes, files) == FirstProblem(hashes, files[i..])
        invariant forall j :: 0 <= j < i ==>
                    if states[j] == Applied then IsApplied(hashes, files[j]) else IsPristine(hashes, files[j])
      {
        var item := files[i];
        assert files[i..][0] == item && files[i..][1..] == files[i + 1..];
        if item.file !in hashes { return states, Some(MissingFile); }
        var current := hashes[item.file];
        if current == item.after {
          states := states + [Applied];
        } else if current == item.before {
          states := states + [Pristine];
        } else {
          return states, Some(WrongHash);
        }
      }
      stopped := None;
    }

    /** One patch: nothing is run unless every listed file is pristine. */
    method ApplyOne(tool: Tool, p: Patch, ghost r: Pass) returns (ran: bool, stopped: Option<Stop>)
      requires r.tree == hashes && r.stopped.None?
      modifies this
      ensures hashes == OnePatch(tool, r, p).tree && stopped == OnePatch(tool, r, p).stopped
      ensures OnePatch(tool, r, p).ran == if ran then r.ran + [p.id] else r.ran
      ensures stopped.None? ==> OnePatch(tool, r, p).applied == r.applied + [p.id]
      ensures stopped.Some? ==> OnePatch(tool, r, p).applied == r.applied
    {
      ran := false;
      var states;
      states, stopped := States(p.files);
      NoProblem(hashes, p.files);
      if stopped.Some? { return; }
      if states == [] || exists i :: 0 <= i < |states| && states[i] != states[0] {
        assert states != [] ==> IsApplied(hashes, p.files[0]) || IsPristine(hashes, p.files[0]);
        return ran, Some(MixedStates);
      }
      if states[0] == Pristine {
        var (tree, ok) := tool(p, hashes);
        assert IsPristine(hashes, p.files[0]);
        hashes, ran := tree, true;
        if !ok { return ran, Some(ToolFailed); }
        if !AllApplied(hashes, p.files) { return ran, Some(BadResult); }
      }
    }

    /** `apply_patches`. */
    method ApplyPatches(tool: Tool, patches: seq<Patch>, os: string, extra: set<string>)
      returns (ran: seq<string>, applied: seq<string>, stopped: Option<Stop>)
      modifies this
      ensures Pass(hashes, ran, applied, stopped) == PassOver(tool, old(hashes), patches, os, extra)
    {
      ran, applied, stopped := [], [], None;
      ghost var tree := hashes;
      var i := 0;
      while i < |patches| && stopped.None?
        invariant 0 <= i <= |patches|
        invariant Pass(hashes, ran, applied, stopped) == PassOver(tool, tree, patches[..i], os, extra)
      {
        assert patches[..i + 1][..i] == patches[..i];
        var p := patches[i];
        if Selected(p, os, extra) {
          var r;
          r, stopped := ApplyOne(tool, p, Pass(hashes, ran, applied, None));
          if r { ran := ran + [p.id]; }
          if stopped.None? { applied := applied + [p.id]; }
        }
        i := i + 1;
      }
      StoppedStays(tool, tree, patches, os, extra, i);
      assert patches[..|patches|] == patches;
    }
  }

  lemma {:induction false} StoppedStays(tool: Tool, tree: Hashes, patches: seq<Patch>, os: string,
                                        extra: set<string>, i: nat)
    requires i <= |patches| && (i < |patches| ==> PassOver(tool, tree, patches[..i], os, extra).stopped.Some?)
    ensures PassOver(tool, tree, patches[..i], os, extra) == PassOver(tool, tree, patches, os, extra)
    decreases |patches| - i
  {
    if i < |patches| {
      assert patches[..i + 1][..i] == patches[..i];
      StoppedStays(tool, tree, patches, os, extra, i + 1);
    } else {
      assert patches[..i] == patches;
    }
  }

  // ---------------------------------------------------------------- the end state of a pass

  predicate ListsFile(p: Patch, f: string) { exists i :: 0 <= i < |p.files| && p.files[i].file == f }

  /** Running a patch touches the files it lists and no others. */
  ghost predicate Framed(tool: Tool) {
    forall p, t, f :: !ListsFile(p, f) ==>
      (f in tool(p, t).0 <==> f in t) && (f in t ==> tool(p, t).0[f] == t[f])
  }

  predicate Leaves(p: Patch, f: string, hash: string) {
    exists k :: 0 <= k < |p.files| && p.files[k].file == f && p.files[k].after == hash
  }

  /** Patch `i` is selected, lists the file with this after-hash, and no later one lists it. */
  ghost predicate LastAt(patches: seq<Patch>, os: string, extra: set<string>, f: string, hash: string, i: nat) {
    && i < |patches| && Selected(patches[i], os, extra) && Leaves(patches[i], f, hash)
    && forall j :: i < j < |patches| && Selected(patches[j], os, extra) ==> !ListsFile(patches[j], f)
  }

  /** The hash the last selected patch listing the file leaves it with. */
  ghost predicate LastTo(patches: seq<Patch>, os: string, extra: set<string>, f: string, hash: string) {
    exists i :: LastAt(patches, os, extra, f, hash, i)
  }

  ghost predicate Untouched(patches: seq<Patch>, os: string, extra: set<string>, f: string) {
    forall j :: 0 <= j < |patches| && Selected(patches[j], os, extra) ==> !ListsFile(patches[j], f)
  }

  predicate SameAt(t: Hashes, u: Hashes, f: string) { (f in t <==> f in u) && (f in t ==> t[f] == u[f]) }

  lemma OnePatchFrame(tool: Tool, r: Pass, p: Patch, f: string)
    requires Framed(tool) && !ListsFile(p, f)
    ensures SameAt(OnePatch(tool, r, p).tree, r.tree, f)
  {}

  /** A patch that did not stop the pass leaves all its files at their after-hash. */
  lemma OnePatchApplied(tool: Tool, r: Pass, p: Patch)
    requires r.stopped.None? && OnePatch(tool, r, p).stopped.None?
    ensures p.files != [] && AllApplied(OnePatch(tool, r, p).tree, p.files)
  {}

  /**
   After a pass that ran through, every file is where the last selected patch listing it puts it,
   and files no selected patch lists are untouched, even where a pass stopped half way.
   */
  lemma {:induction false} PassEndState(tool: Tool, tree: Hashes, patches: seq<Patch>, os: string, extra: set<string>)
    requires Framed(tool)
    ensures var r := PassOver(tool, tree, patches, os, extra);
            && (forall f :: Untouched(patches, os, extra, f) ==> SameAt(r.tree, tree, f))
            && (r.stopped.None? ==>
                  forall f, hash :: LastTo(patches, os, extra, f, hash) ==> f in r.tree && r.tree[f] == hash)
  {
    if patches != [] {
      var last := |patches| - 1;
      var init, p := patches[..last], patches[last];
      var q := PassOver(tool, tree, init, os, extra);
      var r := PassOver(tool, tree, patches, os, extra);
      PassEndState(tool, tree, init, os, extra);
      hide OnePatch, Framed, ListsFile;
      forall f | Untouched(patches, os, extra, f) ensures SameAt(r.tree, tree, f) {
        assert forall j :: 0 <= j < last ==> init[j] == patches[j];
        assert Untouched(init, os, extra, f);
        if Selected(p, os, extra) { OnePatchFrame(tool, q, p, f); }
      }
      if r.stopped.None? {
        forall f, hash | LastTo(patches, os, extra, f, hash) ensures f in r.tree && r.tree[f] == hash {
          PassEndAt(tool, q, r, init, p, patches, os, extra, f, hash);
        }
      }
    }
  }

  lemma PassEndAt(tool: Tool, q: Pass, r: Pass, init: seq<Patch>, p: Patch, patches: seq<Patch>, os: string,
                  extra: set<string>, f: string, hash: string)
    requires Framed(tool) && patches == init + [p] && q.stopped.None? && r.stopped.None?
    requires r == if Selected(p, os, extra) then OnePatch(tool, q, p) else q
    requires forall g, h :: LastTo(init, os, extra, g, h) ==> g in q.tree && q.tree[g] == h
    requires LastTo(patches, os, extra, f, hash)
    ensures f in r.tree && r.tree[f] == hash
  {
    hide OnePatch, Framed, ListsFile, Selected;
    var last := |init|;
    var i :| LastAt(patches, os, extra, f, hash, i);
    if i == last {
      OnePatchApplied(tool, q, p);
      var k :| 0 <= k < |p.files| && p.files[k].file == f && p.files[k].after == hash;
      assert IsApplied(r.tree, p.files[k]);
    } else {
      assert forall j :: 0 <= j < last ==> init[j] == patches[j];
      assert LastAt(init, os, extra, f, hash, i);
      assert LastTo(init, os, extra, f, hash);
      assert patches[last] == p;
      if Selected(p, os, extra) { OnePatchFrame(tool, q, p, f); }
    }
  }

  // ---------------------------------------------------------------- running it again

  /** Every hash a selected patch leaves a file with is the one the last of them leaves it with. */
  ghost predicate Settled(patches: seq<Patch>, os: string, extra: set<string>) {
    forall i, k :: 0 <= i < |patches| && Selected(patches[i], os, extra) && 0 <= k < |patches[i].files| ==>
      LastTo(patches, os, extra, patches[i].files[k].file, patches[i].files[k].after)
  }

  ghost predicate AllSettled(tree: Hashes, patches: seq<Patch>, os: string, extra: set<string>) {
    forall i :: 0 <= i < |patches| && Selected(patches[i], os, extra) ==>
      patches[i].files != [] && AllApplied(tree, patches[i].files)
  }

  /** A pass runs nothing and goes through exactly when every selected patch is already applied. */
  lemma {:induction false} PassRunsNothing(tool: Tool, tree: Hashes, patches: seq<Patch>, os: string,
                                           extra: set<string>)
    ensures var r := PassOver(tool, tree, patches, os, extra);
            && (r.stopped.None? && r.ran == [] <==> AllSettled(tree, patches, os, extra))
            && (r.ran == [] ==> r.tree == tree)
  {
    if patches != [] {
      var last := |patches| - 1;
      var init, p := patches[..last], patches[last];
      var q := PassOver(tool, tree, init, os, extra);
      PassRunsNothing(tool, tree, init, os, extra);
      if q.stopped.None? { OnePatchRuns(tool, q, p); }
      hide OnePatch;
      assert AllSettled(tree, init, os, extra) <==> (forall i :: 0 <= i < last && Selected(patches[i], os, extra) ==>
          patches[i].files != [] && AllApplied(tree, patches[i].files)) by {
        assert forall i :: 0 <= i < last ==> init[i] == patches[i];
      }
    }
  }

  lemma OnePatchRuns(tool: Tool, r: Pass, p: Patch)
    requires r.stopped.None?
    ensures var s := OnePatch(tool, r, p);
            && (s.ran == r.ran || s.ran == r.ran + [p.id]) && (s.ran == r.ran ==> s.tree == r.tree)
            && (s.stopped.None? && s.ran == r.ran <==> p.files != [] && AllApplied(r.tree, p.files))
  {
    NoProblem(r.tree, p.files);
    if p.files != [] && AllApplied(r.tree, p.files) {
      assert forall i :: 0 <= i < |p.files| ==> IsApplied(r.tree, p.files[i]);
    }
  }

  /**
   Exactly when a rerun after a completed pass is the no-op the applier promises: it runs no
   patch and goes through if and only if no later patch gives a file another final hash.
   */
  lemma RerunIsNoOp(tool: Tool, tree: Hashes, patches: seq<Patch>, os: string, extra: set<string>)
    requires Framed(tool) && PassOver(tool, tree, patches, os, extra).stopped.None?
    ensures var first := PassOver(tool, tree, patches, os, extra);
            var again := PassOver(tool, first.tree, patches, os, extra);
            && (again.stopped.None? && again.ran == [] <==> Settled(patches, os, extra))
            && (Settled(patches, os, extra) ==> again.tree == first.tree)
  {
    var first := PassOver(tool, tree, patches, os, extra);
    PassEndState(tool, tree, patches, os, extra);
    PassRunsNothing(tool, first.tree, patches, os, extra);
    CompletedFiles(tool, tree, patches, os, extra);
    hide PassOver, Framed;
    SettledIffApplied(first.tree, patches, os, extra);
  }

  lemma {:induction false} CompletedFiles(tool: Tool, tree: Hashes, patches: seq<Patch>, os: string, extra: set<string>)
    requires PassOver(tool, tree, patches, os, extra).stopped.None?
    ensures forall i :: 0 <= i < |patches| && Selected(patches[i], os, extra) ==> patches[i].files != []
  {
    if patches != [] {
      var last := |patches| - 1;
      CompletedFiles(tool, tree, patches[..last], os, extra);
      assert forall i :: 0 <= i < last ==> patches[..last][i] == patches[i];
    }
  }

  lemma SettledIffApplied(tree: Hashes, patches: seq<Patch>, os: string, extra: set<string>)
    requires forall i :: 0 <= i < |patches| && Selected(patches[i], os, extra) ==> patches[i].files != []
    requires forall f, hash :: LastTo(patches, os, extra, f, hash) ==> f in tree && tree[f] == hash
    ensures AllSettled(tree, patches, os, extra) <==> Settled(patches, os, extra)
  {
    if AllSettled(tree, patches, os, extra) {
      forall i, k | 0 <= i < |patches| && Selected(patches[i], os, extra) && 0 <= k < |patches[i].files|
        ensures LastTo(patches, os, extra, patches[i].files[k].file, patches[i].files[k].after)
      {
        var f := patches[i].files[k].file;
        assert IsApplied(tree, patches[i].files[k]);
        assert ListsFile(patches[i], f);
        var hash := LastLister(patches, os, extra, f, i);
      }
    }
  }

  /** Some selected patch is the last to list a file that one of them lists. */
  lemma {:induction false} LastLister(patches: seq<Patch>, os: string, extra: set<string>, f: string, i: nat)
    returns (hash: string)
    requires i < |patches| && Selected(patches[i], os, extra) && ListsFile(patches[i], f)
    ensures LastTo(patches, os, extra, f, hash)
    decreases |patches| - i
  {
    if j :| i < j < |patches| && Selected(patches[j], os, extra) && ListsFile(patches[j], f) {
      hash := LastLister(patches, os, extra, f, j);
    } else {
      var k :| 0 <= k < |patches[i].files| && patches[i].files[k].file == f;
      hash := patches[i].files[k].after;
      assert LastAt(patches, os, extra, f, hash, i);
    }
  }

  // ---------------------------------------------------------------- disjoint patches

  /** Run on files that are all pristine, and listed once, a patch succeeds and gives them their after-hash. */
  ghost predicate Faithful(tool: Tool) {
    forall p, t :: ListedOnce(p) && AllPristine(t, p.files) ==> tool(p, t).1 && AllApplied(tool(p, t).0, p.files)
  }

  predicate ListedOnce(p: Patch) {
    forall i, j :: 0 <= i < j < |p.files| ==> p.files[i].file != p.files[j].file
  }

  ghost predicate PairwiseDisjoint(patches: seq<Patch>, os: string, extra: set<string>) {
    forall i, j, f :: 0 <= i < j < |patches| && Selected(patches[i], os, extra) && Selected(patches[j], os, extra) ==>
      !(ListsFile(patches[i], f) && ListsFile(patches[j], f))
  }

  /** Each selected patch finds its files all pristine or all applied. */
  ghost predicate Uniform(tree: Hashes, patches: seq<Patch>, os: string, extra: set<string>) {
    forall i :: 0 <= i < |patches| && Selected(patches[i], os, extra) ==>
      patches[i].files != [] && ListedOnce(patches[i])
      && (AllPristine(tree, patches[i].files) || AllApplied(tree, patches[i].files))
  }

  lemma {:induction false} DisjointPassCompletes(tool: Tool, tree: Hashes, patches: seq<Patch>, os: string,
                                                 extra: set<string>)
    requires Framed(tool) && Faithful(tool) && PairwiseDisjoint(patches, os, extra) && Uniform(tree, patches, os, extra)
    ensures PassOver(tool, tree, patches, os, extra).stopped.None?
  {
    if patches != [] {
      var last := |patches| - 1;
      var init, p := patches[..last], patches[last];
      var q := PassOver(tool, tree, init, os, extra);
      assert forall i :: 0 <= i < last ==> init[i] == patches[i];
      DisjointPassCompletes(tool, tree, init, os, extra);
      PassEndState(tool, tree, init, os, extra);
      if Selected(p, os, extra) {
        forall k | 0 <= k < |p.files| ensures SameAt(q.tree, tree, p.files[k].file) {
          assert ListsFile(p, p.files[k].file);
          assert Untouched(init, os, extra, p.files[k].file);
        }
        UniformStepCompletes(tool, tree, q, p);
      }
    }
  }

  lemma UniformStepCompletes(tool: Tool, tree: Hashes, q: Pass, p: Patch)
    requires Faithful(tool) && q.stopped.None? && p.files != [] && ListedOnce(p)
    requires AllPristine(tree, p.files) || AllApplied(tree, p.files)
    requires forall k :: 0 <= k < |p.files| ==> SameAt(q.tree, tree, p.files[k].file)
    ensures OnePatch(tool, q, p).stopped.None?
  {
    NoProblem(q.tree, p.files);
    if AllPristine(tree, p.files) {
      assert AllPristine(q.tree, p.files);
    } else {
      assert AllApplied(q.tree, p.files);
    }
  }

  /**
   Disjoint patches on a uniform checkout: one pass puts every listed file at its after-hash and
   leaves every other file alone, and a second pass runs no patch and changes nothing.
   */
  lemma DisjointPatchesSettle(tool: Tool, tree: Hashes, patches: seq<Patch>, os: string, extra: set<string>)
    requires Framed(tool) && Faithful(tool) && PairwiseDisjoint(patches, os, extra) && Uniform(tree, patches, os, extra)
    ensures var first := PassOver(tool, tree, patches, os, extra);
            var again := PassOver(tool, first.tree, patches, os, extra);
            && first.stopped.None? && AllSettled(first.tree, patches, os, extra)
            && (forall f :: Untouched(patches, os, extra, f) ==> SameAt(first.tree, tree, f))
            && again.stopped.None? && again.ran == [] && again.tree == first.tree
  {
    DisjointPassCompletes(tool, tree, patches, os, extra);
    DisjointIsSettled(patches, os, extra);
    PassEndState(tool, tree, patches, os, extra);
    RerunIsNoOp(tool, tree, patches, os, extra);
    PassRunsNothing(tool, PassOver(tool, tree, patches, os, extra).tree, patches, os, extra);
  }

  lemma DisjointIsSettled(patches: seq<Patch>, os: string, extra: set<string>)
    requires PairwiseDisjoint(patches, os, extra)
    ensures Settled(patches, os, extra)
  {
    forall i, k | 0 <= i < |patches| && Selected(patches[i], os, extra) && 0 <= k < |patches[i].files|
      ensures LastTo(patches, os, extra, patches[i].files[k].file, patches[i].files[k].after)
    {
      var f := patches[i].files[k].file;
      assert ListsFile(patches[i], f);
      assert LastAt(patches, os, extra, f, patches[i].files[k].after, i);
    }
  }

  // ---------------------------------------------------------------- stacked patches

  /** Each patch takes one file from the hash the previous one left it with. */
  ghost predicate Stacked(patches: seq<Patch>, f: string, hashes: seq<string>, os: string, extra: set<string>) {
    && |hashes| == |patches| + 1
    && forall i :: 0 <= i < |patches| ==>
         Selected(patches[i], os, extra) && patches[i].files == [Item(f, hashes[i], hashes[i + 1])]
  }

  /** From the first hash, one pass over a stack reaches the last. */
  lemma {:induction false} StackReachesTop(tool: Tool, tree: Hashes, patches: seq<Patch>, f: string,
                                           hashes: seq<string>,
                                           os: string, extra: set<string>)
    requires Faithful(tool) && Stacked(patches, f, hashes, os, extra) && f in tree && tree[f] == hashes[0]
    ensures var r := PassOver(tool, tree, patches, os, extra);
            r.stopped.None? && f in r.tree && r.tree[f] == hashes[|patches|]
  {
    if patches != [] {
      var last := |patches| - 1;
      var init, p := patches[..last], patches[last];
      assert Stacked(init, f, hashes[..|hashes| - 1], os, extra);
      StackReachesTop(tool, tree, init, f, hashes[..|hashes| - 1], os, extra);
      var q := PassOver(tool, tree, init, os, extra);
      NoProblem(q.tree, p.files);
      if hashes[last] == hashes[last + 1] {
        assert AllApplied(q.tree, p.files);
      } else {
        assert AllPristine(q.tree, p.files);
        assert ListedOnce(p);
      }
      var r := PassOver(tool, tree, patches, os, extra);
      assert r == OnePatch(tool, q, p);
      assert IsApplied(r.tree, p.files[0]);
    }
  }

  /** A further pass stops at the first patch, having changed nothing, when the top is new to it. */
  lemma {:induction false} StackRerunStops(tool: Tool, tree: Hashes, patches: seq<Patch>, f: string,
                                           hashes: seq<string>,
                                           os: string, extra: set<string>)
    requires Stacked(patches, f, hashes, os, extra) && patches != []
    requires f in tree && tree[f] != hashes[0] && tree[f] != hashes[1]
    ensures PassOver(tool, tree, patches, os, extra) == Pass(tree, [], [], Some(WrongHash))
  {
    var last := |patches| - 1;
    if last == 0 {
      assert patches[..0] == [];
      assert !IsApplied(tree, patches[0].files[0]) && !IsPristine(tree, patches[0].files[0]);
    } else {
      assert Stacked(patches[..last], f, hashes[..|hashes| - 1], os, extra);
      StackRerunStops(tool, tree, patches[..last], f, hashes[..|hashes| - 1], os, extra);
    }
  }

  // ---------------------------------------------------------------- which patches, and what one does

  /** A patch meant for this system or for one of the extra targets. */
  predicate MeantFor(p: Patch, os: string, extra: set<string>) {
    os in p.targets || exists t :: t in extra && t in p.targets
  }

  /** The identifiers of the patches meant for this host, in order. */
  function MeantIds(patches: seq<Patch>, os: string, extra: set<string>): seq<string> {
    if patches == [] then [] else
    var last := patches[|patches| - 1];
    MeantIds(patches[..|patches| - 1], os, extra) + (if MeantFor(last, os, extra) then [last.id] else [])
  }

  lemma SelectedIsMeant(p: Patch, os: string, extra: set<string>)
    ensures Selected(p, os, extra) <==> MeantFor(p, os, extra)
  {
    if t :| t in extra && t in p.targets { assert t in extra * p.targets; }
  }

  /** A completed pass has applied exactly the patches meant for the host, in order. */
  lemma {:induction false} CompletedApplies(tool: Tool, tree: Hashes, patches: seq<Patch>, os: string,
                                            extra: set<string>)
    requires PassOver(tool, tree, patches, os, extra).stopped.None?
    ensures PassOver(tool, tree, patches, os, extra).applied == MeantIds(patches, os, extra)
  {
    if patches != [] {
      CompletedApplies(tool, tree, patches[..|patches| - 1], os, extra);
      SelectedIsMeant(patches[|patches| - 1], os, extra);
    }
  }

  /** A patch meant for other hosts changes nothing, wherever it stands. */
  lemma {:induction false} OthersAreIgnored(tool: Tool, tree: Hashes, a: seq<Patch>, p: Patch, b: seq<Patch>,
                                            os: string,
                                            extra: set<string>)
    requires os !in p.targets && extra !! p.targets
    ensures PassOver(tool, tree, a + [p] + b, os, extra) == PassOver(tool, tree, a + b, os, extra)
    decreases |b|
  {
    hide OnePatch, Selected;
    SelectedIsMeant(p, os, extra);
    if b == [] {
      PassStep(tool, tree, a, p, os, extra);
      assert a + [p] + b == a + [p] && a + b == a;
    } else {
      var front, last := b[..|b| - 1], b[|b| - 1];
      OthersAreIgnored(tool, tree, a, p, front, os, extra);
      PassStep(tool, tree, a + [p] + front, last, os, extra);
      PassStep(tool, tree, a + front, last, os, extra);
      assert b == front + [last];
      assert a + [p] + b == a + [p] + front + [last] && a + b == a + front + [last];
    }
  }

  lemma PassStep(tool: Tool, tree: Hashes, front: seq<Patch>, last: Patch, os: string, extra: set<string>)
    ensures var r := PassOver(tool, tree, front, os, extra);
            PassOver(tool, tree, front + [last], os, extra)
            == if r.stopped.Some? || !Selected(last, os, extra) then r else OnePatch(tool, r, last)
  {
    hide OnePatch, Selected;
    assert (front + [last])[..|front|] == front;
  }

  /** The first file that is missing, or has neither of its two hashes. */
  predicate FirstWrong(tree: Hashes, files: seq<Item>, i: int) {
    && 0 <= i < |files| && (files[i].file in tree ==> tree[files[i].file] !in {files[i].before, files[i].after})
    && forall j :: 0 <= j < i ==> files[j].file in tree && tree[files[j].file] in {files[j].before, files[j].after}
  }

  /** What is reported is the state of that file, and nothing is where there is none. */
  lemma {:induction false} ProblemIsFirstWrong(tree: Hashes, files: seq<Item>)
    ensures FirstProblem(tree, files).None? <==> !exists i :: FirstWrong(tree, files, i)
    ensures forall i :: FirstWrong(tree, files, i) ==>
              FirstProblem(tree, files) == Some(if files[i].file in tree then WrongHash else MissingFile)
  {
    if files != [] {
      ProblemIsFirstWrong(tree, files[1..]);
      if !FirstWrong(tree, files, 0) {
        forall i | FirstWrong(tree, files, i) ensures i > 0 && FirstWrong(tree, files[1..], i - 1) {
          assert i != 0;
          FirstWrongShift(tree, files, i - 1);
        }
        forall k | FirstWrong(tree, files[1..], k) ensures FirstWrong(tree, files, k + 1) {
          FirstWrongShift(tree, files, k);
        }
      }
    }
  }

  lemma FirstWrongShift(tree: Hashes, files: seq<Item>, i: int)
    requires files != [] && !FirstWrong(tree, files, 0) && i >= 0
    ensures FirstWrong(tree, files, i + 1) <==> FirstWrong(tree, files[1..], i)
  {
    assert forall j :: 0 <= j < |files| - 1 ==> files[1..][j] == files[j + 1];
    if FirstWrong(tree, files[1..], i) {
      forall j | 0 <= j < i + 1
        ensures files[j].file in tree && tree[files[j].file] in {files[j].before, files[j].after}
      {
        if j > 0 { assert files[1..][j - 1] == files[j]; }
      }
    }
  }

  /** Every listed file has the hash the patch starts from, and that is not the one it leads to. */
  predicate AllBefore(tree: Hashes, files: seq<Item>) {
    files != [] && forall i :: 0 <= i < |files| ==>
      files[i].file in tree && tree[files[i].file] == files[i].before != files[i].after
  }

  predicate AllAfter(tree: Hashes, files: seq<Item>) {
    files != [] && forall i :: 0 <= i < |files| ==> files[i].file in tree && tree[files[i].file] == files[i].after
  }

  /** The tool is run exactly on files that are all as they were, and its word and its work both count. */
  lemma OnePatchOutcome(tool: Tool, r: Pass, p: Patch)
    requires r.stopped.None?
    ensures var s, result := OnePatch(tool, r, p), tool(p, r.tree);
            && (s.ran == r.ran + [p.id] <==> AllBefore(r.tree, p.files))
            && (AllBefore(r.tree, p.files) ==>
                  && s.tree == result.0
                  && s.stopped == if !result.1 then Some(ToolFailed)
                                  else if !AllAfter(result.0, p.files) then Some(BadResult) else None)
            && (!AllBefore(r.tree, p.files) ==>
                  s.tree == r.tree && s.ran == r.ran && (s.stopped.None? <==> AllAfter(r.tree, p.files)))
  {
    NoProblem(r.tree, p.files);
    assert AllAfter(r.tree, p.files) <==> p.files != [] && AllApplied(r.tree, p.files);
    assert AllBefore(r.tree, p.files) <==> p.files != [] && AllPristine(r.tree, p.files);
    if AllBefore(r.tree, p.files) { assert !IsApplied(r.tree, p.files[0]); }
    assert r.ran != r.ran + [p.id] by { assert |r.ran| != |r.ran + [p.id]|; }
  }
}
