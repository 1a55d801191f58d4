/**
 Small surroundings in which the cache's assumptions hold and the digest tells packaging times apart.
 A ports build that reads the target in the predecessor's manifest meets the premise on packaging
 times, one that reads the time does not, and all ways of staging a wrong build do come about.
 */
module CacheWitness {
  import opened PosixPaths
  import opened Json
  import opened Trees
  import opened Framing
  import opened InstallLayer
  import opened LayerRoundTrip
  import opened LayerCache
  import opened CacheLimits
  import opened CacheReruns

  /** A field of a manifest. */
  function Field(c: Content, name: string): string {
    if c.JsonText? && c.value.JObj? && name in c.value.fields && c.value.fields[name].JStr?
       && NulFree(c.value.fields[name].s)
    then c.value.fields[name].s else ""
  }

  /** A digest that sees target and packaging time of a manifest. */
  function Digest(c: Content): string { Field(c, "target") + "\n" + Field(c, "created_utc") }

  function TreeField(t: Tree, name: string): string {
    if MANIFEST in t && t[MANIFEST].File? then Field(t[MANIFEST].content, name) else ""
  }

  function TargetOf(t: Tree): string { TreeField(t, "target") }

  function Recipe(inputs: Inputs): string {
    if |inputs.files| > 0 && |inputs.files[0]| > 0 then inputs.files[0][0] else ""
  }

  /** Ports leave a link naming target and recipe, Skia one naming the compiler. */
  predicate LinkBuild(tier: nat, inputs: Inputs, base: Tree, made: Tree) {
    if tier == PORTS then ["p"] !in base && made == base[["p"] := Link(TargetOf(base) + Recipe(inputs))]
    else if tier == SKIA then ["s"] !in base && made == base[["s"] := Link(inputs.compiler)]
    else made == base
  }

  function SmallEnv(builds: (nat, Inputs, Tree, Tree) -> bool): Env {
    Env(Digest, text => text, (t, p) => false, builds)
  }

  function LinkEnv(): Env { SmallEnv(LinkBuild) }

  lemma SmallEnvOk(builds: (nat, Inputs, Tree, Tree) -> bool)
    ensures EnvOk(SmallEnv(builds))
  {
    hide NoLinkAbove;
  }

  lemma LinkEnvOk()
    ensures EnvOk(LinkEnv())
  {
    SmallEnvOk(LinkBuild);
  }

  /** A file or link put at the root of a tree. */
  lemma PutEntry(hash: Hash, t: Tree, c: string, node: Node)
    requires IsTree(t) && GoodName(c) && !node.Dir? && ([c] in t ==> !t[[c]].Dir?)
    ensures IsTree(t[[c] := node])
    ensures InventoryOf(hash, t[[c] := node]) == InventoryOf(hash, t)[c := Identity(hash, node)]
  {
    var r := t[[c] := node];
    assert GoodPath([c]);
    PartsOfPosix([c]);
    assert Posix([c]) == c;
    forall p, q | p in r && Above(q, p) ensures q in r && r[q].Dir? { if p == [c] { assert q == []; } }
    assert IsTree(r);
    assert Listing(hash, false, r) == Listing(hash, false, t)[[c] := Identity(hash, node)];
    ListingNames(hash, t);
    hide IsTree, GoodName, Parts, Posix, Listing, InventoryOf;
    PutNames(InventoryOf(hash, t), Listing(hash, false, t), c, Identity(hash, node));
    InventoryIs(hash, r, InventoryOf(hash, t)[c := Identity(hash, node)]);
  }

  lemma ListingNames(hash: Hash, t: Tree)
    requires IsTree(t)
    ensures Names(InventoryOf(hash, t), Listing(hash, false, t))
    ensures forall p :: p in Listing(hash, false, t) ==> Parts(Posix(p)) == p
  {
    ListedNames(hash, t);
  }

  lemma PutNames(inv: Inventory, m: map<Path, string>, c: string, id: string)
    requires Names(inv, m) && Parts(c) == [c] && Posix([c]) == c
    requires forall p :: p in m ==> Parts(Posix(p)) == p
    ensures Names(inv[c := id], m[[c] := id])
  {
    hide Parts, Posix;
  }

  lemma InventoryIs(hash: Hash, t: Tree, inv: Inventory)
    requires IsTree(t) && Names(inv, Listing(hash, false, t))
    ensures InventoryOf(hash, t) == inv
  {
    assert forall p :: p in Listing(hash, false, t) ==> GoodPath(p);
    NamesNamed(inv, Listing(hash, false, t));
    hide Names, Named;
  }

  lemma PutHosted(t: Tree, c: string, node: Node)
    requires Hosted(t) && IsTree(t[[c] := node]) && (node.Link? ==> NulFree(node.target))
    ensures Hosted(t[[c] := node])
  {}

  // ---------------------------------------------------------------- it may read the manifest

  /** `base` with the manifest of another packaging of it. */
  function Repacked(base: Tree, t: Tree): Tree {
    if Lists(base, MANIFEST) && MANIFEST in t then base[MANIFEST := t[MANIFEST]] else base
  }

  lemma SameTarget(a: Node, b: Node)
    requires !a.Dir? && !b.Dir?
    requires EntryIdentity(Digest, true, MANIFEST, a) == EntryIdentity(Digest, true, MANIFEST, b)
    ensures a.File? <==> b.File?
    ensures a.File? ==> Field(a.content, "target") == Field(b.content, "target")
  {
    var x, y := EntryIdentity(Digest, true, MANIFEST, a), EntryIdentity(Digest, true, MANIFEST, b);
    assert x[0] == y[0];
    if a.File? && b.File? {
      WithoutTime(a.content);
      WithoutTime(b.content);
      assert x[5..] == Digest(WithoutCreationTime(a.content)) && y[5..] == Digest(WithoutCreationTime(b.content));
      var s, t := Field(a.content, "target"), Field(b.content, "target");
      assert s + "\n" == t + "\n";
      assert s == (s + "\n")[..|s + "\n"| - 1];
    }
  }

  lemma WithoutTime(c: Content)
    ensures Digest(WithoutCreationTime(c)) == Field(c, "target") + "\n"
  {
    assert "target" != "created_utc" by { assert "target"[0] != "created_utc"[0]; }
  }

  /** The repacked predecessor is the other one, as far as inventories and the build can see. */
  lemma RepackedAlike(base: Tree, t: Tree)
    requires Hosted(base) && Hosted(t)
    requires NormalInventoryOf(Digest, base) == NormalInventoryOf(Digest, t)
    ensures Hosted(Repacked(base, t)) && InventoryOf(Digest, Repacked(base, t)) == InventoryOf(Digest, t)
    ensures TargetOf(Repacked(base, t)) == TargetOf(base) && Repacked(base, t).Keys == base.Keys
  {
    hide InventoryOf, NormalInventoryOf, EntryIdentity, Digest, Field;
    var env := LinkEnv();
    HostedIsTree(base);
    HostedIsTree(t);
    NormalSame(env, base, t);
    ManifestListed(Digest, base);
    ManifestListed(Digest, t);
    assert GoodName("manifest.json");
    hide IsTree, Identity;
    if Lists(base, MANIFEST) {
      assert Lists(t, MANIFEST);
      SameTarget(base[MANIFEST], t[MANIFEST]);
      PutEntry(Digest, base, "manifest.json", t[MANIFEST]);
      PutHosted(base, "manifest.json", t[MANIFEST]);
      SameOffManifestPut(InventoryOf(Digest, base), InventoryOf(Digest, t));
    } else {
      SameOffManifestPut(InventoryOf(Digest, base), InventoryOf(Digest, t));
    }
  }

  lemma SameOffManifestPut(a: Inventory, b: Inventory)
    requires SameOffManifest(a, b)
    ensures if "manifest.json" in a then a["manifest.json" := b["manifest.json"]] == b else a == b
  {}

  /** The ports build reads the manifest's target, and still cannot tell when it was packaged. */
  lemma LinkBuildTimeBlind(inputs: Inputs)
    ensures TimeBlind(LinkEnv(), inputs)
  {
    var env := LinkEnv();
    hide InventoryOf, NormalInventoryOf, Hosted, Moved, Builds, Makes, TargetOf, Recipe;
    forall base: Tree, made: Tree, t: Tree |
        Makes(env, PORTS, inputs, base, made) && Hosted(t)
            && KeyedInventory(env, PORTS, base) == KeyedInventory(env, PORTS, t)
      ensures Builds(env, PORTS, inputs, InventoryOf(env.hash, t),
                     Moved(InventoryOf(env.hash, base), InventoryOf(env.hash, made), InventoryOf(env.hash, t)))
    {
      RepackedBuild(inputs, base, made, t);
    }
  }

  lemma PortsMade(inputs: Inputs, base: Tree, made: Tree)
    requires Makes(LinkEnv(), PORTS, inputs, base, made)
    ensures var link := Link(TargetOf(base) + Recipe(inputs));
            ["p"] !in base && made == base[["p"] := link] && NulFree(link.target) && METADATA !in base
    ensures Hosted(base) && Hosted(made) && METADATA !in made
  {
    var link := Link(TargetOf(base) + Recipe(inputs));
    assert LinkBuild(PORTS, inputs, base, made);
    assert made[["p"]] == link;
  }

  lemma PortsMakes(inputs: Inputs, base: Tree, made: Tree)
    requires Hosted(base) && Hosted(made) && METADATA !in made && ["p"] !in base
    requires made == base[["p"] := Link(TargetOf(base) + Recipe(inputs))]
    ensures Makes(LinkEnv(), PORTS, inputs, base, made)
  {
    hide Hosted, TargetOf, Recipe;
    assert LinkBuild(PORTS, inputs, base, made);
  }

  lemma RepackedBuild(inputs: Inputs, base: Tree, made: Tree, t: Tree)
    requires Makes(LinkEnv(), PORTS, inputs, base, made) && Hosted(t)
    requires NormalInventoryOf(Digest, base) == NormalInventoryOf(Digest, t)
    ensures Builds(LinkEnv(), PORTS, inputs, InventoryOf(Digest, t),
                   Moved(InventoryOf(Digest, base), InventoryOf(Digest, made), InventoryOf(Digest, t)))
  {
    assert GoodName("p") && ["p"] != METADATA && ["p"] != MANIFEST;
    hide *;
    var link := Link(TargetOf(base) + Recipe(inputs));
    PortsMade(inputs, base, made);
    RepackedAlike(base, t);
    var base' := Repacked(base, t);
    var made' := base'[["p"] := link];
    HostedIsTree(base);
    HostedIsTree(base');
    PutEntry(Digest, base, "p", link);
    PutEntry(Digest, base', "p", link);
    PutHosted(base', "p", link);
    PortsMakes(inputs, base', made');
    NotListed(Digest, base, "p");
    SameNames(base, t);
    LinkHash();
    MovedOne(InventoryOf(Digest, base), InventoryOf(Digest, t), "p", Identity(Digest, link));
    MakesBuilds(LinkEnv(), PORTS, inputs, base', made');
  }

  lemma SameNames(base: Tree, t: Tree)
    requires Hosted(base) && Hosted(t) && NormalInventoryOf(Digest, base) == NormalInventoryOf(Digest, t)
    ensures InventoryOf(Digest, base).Keys == InventoryOf(Digest, t).Keys
  {
    hide InventoryOf, NormalInventoryOf, IsTree;
    HostedIsTree(base);
    HostedIsTree(t);
    KeyedNames(LinkEnv(), PORTS, base, t);
  }

  lemma NotListed(hash: Hash, t: Tree, c: string)
    requires IsTree(t) && GoodName(c) && [c] !in t
    ensures c !in InventoryOf(hash, t)
  {
    PartsOfPosix([c]);
    assert Posix([c]) == c;
    ListedNames(hash, t);
  }

  lemma MovedOne(before: Inventory, l: Inventory, c: string, id: string)
    requires before.Keys == l.Keys && c !in before
    ensures Moved(before, before[c := id], l) == l[c := id]
  {
    hide Moved;
    var u, v := Moved(before, before[c := id], l), l[c := id];
    forall s ensures s in u <==> s in v
             ensures s in v ==> u[s] == v[s]
    {
      MovedAt(before, before[c := id], l, s);
    }
  }

  lemma MakesBuilds(env: Env, tier: nat, inputs: Inputs, base: Tree, made: Tree)
    requires Makes(env, tier, inputs, base, made)
    ensures Builds(env, tier, inputs, InventoryOf(env.hash, base), InventoryOf(env.hash, made))
  {
    hide Makes, InventoryOf;
  }

  // ---------------------------------------------------------------- both ways of going wrong

  lemma EmptyHosted(hash: Hash)
    ensures IsTree(EMPTY) && Hosted(EMPTY) && METADATA !in EMPTY && InventoryOf(hash, EMPTY) == map[]
  {
    EmptyIsTree();
    hide Parts, Posix, IsTree;
    assert Listing(hash, false, EMPTY) == map[];
    InventoryIs(hash, EMPTY, map[]);
  }

  /** The tree with one link more, as the ports or the Skia build leaves it. */
  function WithLink(base: Tree, c: string, target: string): Tree { base[[c] := Link(target)] }

  lemma LinkedMade(base: Tree, c: string, target: string)
    requires Hosted(base) && METADATA !in base && c in {"p", "s"} && [c] !in base && NulFree(target)
    ensures Hosted(WithLink(base, c, target)) && METADATA !in WithLink(base, c, target)
    ensures InventoryOf(Digest, WithLink(base, c, target))
         == InventoryOf(Digest, base)[c := Identity(Digest, Link(target))]
  {
    assert GoodName("p") && GoodName("s");
    hide InventoryOf, Hosted;
    HostedIsTree(base);
    PutEntry(Digest, base, c, Link(target));
    PutHosted(base, c, Link(target));
  }

  /** Resolution never leaves a tree here, so every captured layer passes its check. */
  lemma SmallLayerValid(builds: (nat, Inputs, Tree, Tree) -> bool, base: Tree, made: Tree)
    requires Hosted(base) && Hosted(made) && METADATA !in made
    ensures LayerValid(SmallEnv(builds), base, made)
  {
    hide InventoryOf, Captured, Candidate, Recorded, Hosted, IsTree, Valid, Accepts, MetadataSurvives;
    var env := SmallEnv(builds);
    HostedIsTree(base);
    HostedIsTree(made);
    NoMetadataEntry(env.hash, made, InventoryOf(env.hash, base));
    NothingEscapes(builds);
    CapturedAccepted(env.hash, env.esc, base, made);
    NoMetadataSurvives(env.hash, made, Recorded(env.hash, made, InventoryOf(env.hash, base)));
  }

  lemma NoMetadataSurvives(hash: Hash, t: Tree, d: LayerCache.Delta)
    requires METADATA !in t
    ensures MetadataSurvives(hash, t, d)
  {}

  lemma NothingEscapes(builds: (nat, Inputs, Tree, Tree) -> bool)
    ensures Resolver(SmallEnv(builds).esc) && forall t, p :: !SmallEnv(builds).esc(t, p)
  {
    hide NoLinkAbove;
  }

  function RunInputs(compiler: string, recipe: string): Inputs { Inputs(compiler, [[recipe], [], []], "") }

  lemma RunInputsOk(compiler: string, recipe: string)
    requires NulFree(recipe)
    ensures RunInputs(compiler, recipe).Ok() && Recipe(RunInputs(compiler, recipe)) == recipe
    ensures KeyedInputs(RunInputs(compiler, recipe), PORTS) == Keyed(compiler, [recipe])
  {
    assert AllNulFree([recipe]);
  }

  lemma PortsOf(compiler: string, recipe: string)
    requires NulFree(recipe)
    ensures Makes(LinkEnv(), PORTS, RunInputs(compiler, recipe), EMPTY, WithLink(EMPTY, "p", recipe))
    ensures InventoryOf(Digest, WithLink(EMPTY, "p", recipe)) == map["p" := "symlink:" + recipe]
  {
    hide InventoryOf, Hosted, IsTree;
    RunInputsOk(compiler, recipe);
    EmptyHosted(Digest);
    LinkedMade(EMPTY, "p", recipe);
    assert "" + recipe == recipe;
    PortsMakes(RunInputs(compiler, recipe), EMPTY, WithLink(EMPTY, "p", recipe));
  }

  lemma SkiaOf(compiler: string, recipe: string)
    requires NulFree(recipe) && NulFree(compiler)
    ensures Makes(LinkEnv(), SKIA, RunInputs(compiler, recipe), WithLink(EMPTY, "p", recipe),
        WithLink(WithLink(EMPTY, "p", recipe), "s", compiler))
  {
    hide InventoryOf, Hosted, IsTree;
    PortsOf(compiler, recipe);
    MadeFacts(LinkEnv(), PORTS, RunInputs(compiler, recipe), EMPTY, WithLink(EMPTY, "p", recipe));
    LinkedMade(WithLink(EMPTY, "p", recipe), "s", compiler);
    assert LinkBuild(SKIA, RunInputs(compiler, recipe), WithLink(EMPTY, "p", recipe), WithLink(WithLink(EMPTY, "p",
        recipe), "s", compiler));
  }

  lemma LinkMade(tier: nat, inputs: Inputs, base: Tree, made: Tree)
    requires Makes(LinkEnv(), tier, inputs, base, made) && tier < CURL
    ensures IsTree(base)
    ensures var name, target := if tier == PORTS then "p" else "s",
                                if tier == PORTS then TargetOf(base) + Recipe(inputs) else inputs.compiler;
            InventoryOf(Digest, made) == InventoryOf(Digest, base)[name := "symlink:" + target]
  {
    hide InventoryOf, Hosted, TargetOf, Recipe;
    assert LinkBuild(tier, inputs, base, made);
    HostedIsTree(base);
    assert GoodName("p") && GoodName("s");
    hide IsTree, GoodName;
    if tier == PORTS { PutEntry(Digest, base, "p", Link(TargetOf(base) + Recipe(inputs))); }
    else { PutEntry(Digest, base, "s", Link(inputs.compiler)); }
  }

  lemma NoManifest(t: Tree)
    requires IsTree(t) && InventoryOf(Digest, t) == map[]
    ensures TargetOf(t) == "" && forall s :: TargetOf(t) + s == s
  {
    hide InventoryOf, IsTree;
    ManifestListed(Digest, t);
    assert forall s: string :: "" + s == s;
  }

  /** Whatever these inputs build, it lists the recipe, or the compiler. */
  lemma BuildsLink(tier: nat, inputs: Inputs, x: Inventory, y: Inventory)
    requires Builds(LinkEnv(), tier, inputs, x, y) && tier < CURL
    ensures tier == PORTS && x == map[] ==> "p" in y && y["p"] == "symlink:" + Recipe(inputs)
    ensures tier == SKIA ==> "s" in y && y["s"] == "symlink:" + inputs.compiler
  {
    hide InventoryOf, Makes, TargetOf, Recipe, IsTree;
    LinkHash();
    var base, made :| Makes(LinkEnv(), tier, inputs, base, made)
      && InventoryOf(LinkEnv().hash, base) == x && InventoryOf(LinkEnv().hash, made) == y;
    LinkMade(tier, inputs, base, made);
    if tier == PORTS && x == map[] { NoManifest(base); }
  }

  lemma WrongTier(env: Env, s: State, inputs: Inputs, trail: seq<Tree>, tier: nat)
    requires AtTier(s, inputs, trail) && tier + 1 < |trail|
    requires !Builds(env, tier, inputs, InventoryOf(env.hash, trail[tier]), InventoryOf(env.hash, trail[tier + 1]))
    ensures !RunRight(env, s)
  {
    hide Builds, InventoryOf;
  }

  lemma LinkHash()
    ensures LinkEnv().hash == Digest && LinkEnv() == SmallEnv(LinkBuild)
  {}

  lemma BuiltTwo(env: Env, j: Inputs, a: Tree, b: Tree)
    requires Makes(env, PORTS, j, a, b)
    ensures BuiltBy(env, j, [a, b]) && |[a, b]| == 2 && [a, b][0] == a && [a, b][1] == b
  {
    MadeFacts(env, PORTS, j, a, b);
    hide Makes, Hosted;
  }

  lemma BuiltThree(env: Env, j: Inputs, a: Tree, b: Tree, c: Tree)
    requires Makes(env, PORTS, j, a, b) && Makes(env, SKIA, j, b, c)
    ensures BuiltBy(env, j, [a, b, c]) && |[a, b, c]| == 3
    ensures [a, b, c][0] == a && [a, b, c][1] == b && [a, b, c][2] == c
  {
    MadeFacts(env, PORTS, j, a, b);
    hide Makes, Hosted;
  }

  lemma TakenOne(env: Env, j: Inputs, i: Inputs, built: seq<Tree>, a: Tree)
    requires Hosted(a) && 1 <= |built| <= 4
    ensures TakesAll(env, j, i, built, [a]) && ReusesAll(env, j, i, built, [a]) && |[a]| == 1 && [a][0] == a
  {
    hide Takes, Reuses, Hosted;
  }

  lemma TakenTwo(env: Env, j: Inputs, i: Inputs, a: Tree, b: Tree, x: Tree, y: Tree)
    requires Hosted(x) && Takes(env, PORTS, j, i, a, b, x, y)
    ensures TakesAll(env, j, i, [a, b], [x, y]) && |[x, y]| == 2 && [x, y][0] == x && [x, y][1] == y
  {
    hide Takes, Hosted;
  }

  lemma TakenThree(env: Env, j: Inputs, i: Inputs, a: Tree, b: Tree, c: Tree, x: Tree, y: Tree, z: Tree)
    requires Hosted(x) && Takes(env, PORTS, j, i, a, b, x, y) && Takes(env, SKIA, j, i, b, c, y, z)
    ensures TakesAll(env, j, i, [a, b, c], [x, y, z]) && |[x, y, z]| == 3
    ensures [x, y, z][0] == x && [x, y, z][1] == y && [x, y, z][2] == z
  {
    hide Takes, Hosted;
  }

  lemma TakesBuilt(env: Env, tier: nat, j: Inputs, i: Inputs, base: Tree, made: Tree, t: Tree, next: Tree)
    requires !SameKeyed(tier, j, i) && Makes(env, tier, i, t, next)
    ensures Takes(env, tier, j, i, base, made, t, next)
  {
    hide Makes, SameKeyed;
  }

  lemma TakesReused(env: Env, tier: nat, j: Inputs, i: Inputs, base: Tree, made: Tree, t: Tree)
    requires SameKeyed(tier, j, i) && LayerValid(env, base, made)
    requires KeyedInventory(env, tier, base) == KeyedInventory(env, tier, t)
    ensures Reuses(env, tier, j, i, base, made, t) && Takes(env, tier, j, i, base, made, t, Reused(env, base, made, t))
  {
    hide Makes, SameKeyed, LayerValid, KeyedInventory, Reused;
  }

  lemma KeysOf()
    ensures !SameKeyed(PORTS, RunInputs("c", "a"), RunInputs("c", "b"))
    ensures !SameKeyed(PORTS, RunInputs("j", "r"), RunInputs("i", "r"))
    ensures SameKeyed(SKIA, RunInputs("j", "r"), RunInputs("i", "r"))
    ensures forall tier, i :: SameKeyed(tier, i, i)
    ensures PORTS == 0 && SKIA == 1 && CURL == 2
    ensures NulFree("a") && NulFree("b") && NulFree("r") && NulFree("i") && NulFree("j") && NulFree("1") && NulFree("2")
  {
    assert ["a"][0] != ["b"][0] && "i"[0] != "j"[0];
    assert KeyedInputs(RunInputs("c", "a"), PORTS).files == ["a"]
        && KeyedInputs(RunInputs("c", "b"), PORTS).files == ["b"];
  }

  /** The trees of the two ports builds, and that their keys differ. */
  lemma TwoRecipes(a: Inputs, b: Inputs, ports: Tree)
    requires a == RunInputs("c", "a") && b == RunInputs("c", "b") && ports == WithLink(EMPTY, "p", "a")
    ensures a.Ok() && b.Ok() && !SameKeyed(PORTS, a, b) && BuiltBy(LinkEnv(), a, [EMPTY, ports])
    ensures TakesAll(LinkEnv(), a, b, [EMPTY, ports], [EMPTY]) && ReusesAll(LinkEnv(), a, b, [EMPTY, ports], [EMPTY])
  {
    hide *;
    KeysOf();
    RunInputsOk("c", "a");
    RunInputsOk("c", "b");
    PortsOf("c", "a");
    EmptyHosted(Digest);
    BuiltTwo(LinkEnv(), a, EMPTY, ports);
    TakenOne(LinkEnv(), a, b, [EMPTY, ports], EMPTY);
  }

  /** One harmful stop, and a later run has staged what its inputs could not have built. */
  lemma WindowCounterexample() returns (states: seq<State>, steps: seq<Step>, last: State, n: nat)
    ensures EnvOk(LinkEnv()) && (forall inputs :: TimeBlind(LinkEnv(), inputs))
    ensures History(LinkEnv(), states, steps) && n < |steps| && states[|steps|] == last
    ensures forall i :: 0 <= i < |steps| ==> (Harmful(LinkEnv(), states[i], steps[i]) <==> i == n)
    ensures !RunRight(LinkEnv(), last)
  {
    hide *;
    KeysOf();
    assert ("symlink:" + "a")[8] != ("symlink:" + "b")[8];
    var env, a, b := LinkEnv(), RunInputs("c", "a"), RunInputs("c", "b");
    forall inputs: Inputs ensures TimeBlind(env, inputs) { LinkBuildTimeBlind(inputs); }
    LinkEnvOk();
    LinkHash();
    var ports, made := WithLink(EMPTY, "p", "a"), WithLink(EMPTY, "p", "b");
    TwoRecipes(a, b, ports);
    RecipeOf("c", "a");
    PortsOf("c", "b");
    EmptyHosted(Digest);
    MadeFacts(env, PORTS, b, EMPTY, made);
    SmallLayerValid(LinkBuild, EMPTY, made);
    var next;
    states, steps, last, next, n := StopPoisonsEveryTier(env, a, b, [EMPTY, ports], [EMPTY], made);
    if Builds(env, PORTS, a, map[], InventoryOf(env.hash, next)) {
      BuildsLink(PORTS, a, map[], InventoryOf(env.hash, next));
      assert false;
    }
    assert [EMPTY] + [next] == [EMPTY, next];
    WrongTier(env, last, a, [EMPTY, next], PORTS);
  }

  lemma RecipeOf(compiler: string, recipe: string)
    ensures Recipe(RunInputs(compiler, recipe)) == recipe && RunInputs(compiler, recipe).compiler == compiler
  {}

  /** Two compilers that leave the same ports: the second one's run takes the first one's Skia. */
  lemma TwoCompilers(j: Inputs, i: Inputs, ports: Tree, skia: Tree, next: Tree)
    requires j == RunInputs("j", "r") && i == RunInputs("i", "r")
    requires ports == WithLink(EMPTY, "p", "r") && skia == WithLink(ports, "s", "j")
    requires next == Reused(LinkEnv(), ports, skia, ports)
    ensures j.Ok() && i.Ok() && BuiltBy(LinkEnv(), j, [EMPTY, ports, skia])
    ensures TakesAll(LinkEnv(), j, i, [EMPTY, ports, skia], [EMPTY, ports, next])
    ensures Reuses(LinkEnv(), SKIA, j, i, ports, skia, ports)
  {
    hide *;
    KeysOf();
    RunInputsOk("i", "r");
    RunInputsOk("j", "r");
    PortsOf("i", "r");
    PortsOf("j", "r");
    SkiaOf("j", "r");
    EmptyHosted(Digest);
    MadeFacts(LinkEnv(), SKIA, j, ports, skia);
    LinkHash();
    SmallLayerValid(LinkBuild, ports, skia);
    BuiltThree(LinkEnv(), j, EMPTY, ports, skia);
    TakesBuilt(LinkEnv(), PORTS, j, i, EMPTY, ports, EMPTY, ports);
    TakesReused(LinkEnv(), SKIA, j, i, ports, skia, ports);
    TakenThree(LinkEnv(), j, i, EMPTY, ports, skia, EMPTY, ports, next);
  }

  /** No harmful stop, and still a run stages another compiler's Skia. */
  lemma CompilerCounterexample()
    ensures EnvOk(LinkEnv()) && (forall inputs :: TimeBlind(LinkEnv(), inputs)) && !AlwaysRight(LinkEnv())
  {
    hide *;
    KeysOf();
    assert ("symlink:" + "i")[8] != ("symlink:" + "j")[8];
    var env, j, i := LinkEnv(), RunInputs("j", "r"), RunInputs("i", "r");
    forall inputs: Inputs ensures TimeBlind(env, inputs) { LinkBuildTimeBlind(inputs); }
    LinkEnvOk();
    LinkHash();
    var ports := WithLink(EMPTY, "p", "r");
    var skia := WithLink(ports, "s", "j");
    var next := Reused(env, ports, skia, ports);
    TwoCompilers(j, i, ports, skia, next);
    RecipeOf("i", "r");
    SkiaOf("j", "r");
    PortsOf("j", "r");
    MadeFacts(env, PORTS, j, EMPTY, ports);
    MadeFacts(env, SKIA, j, ports, skia);
    if AlwaysRight(env) {
      RightNeedsCover(env, j, i, [EMPTY, ports, skia], [EMPTY, ports, next], SKIA);
      MovedSelf(InventoryOf(env.hash, ports), InventoryOf(env.hash, skia));
      BuildsLink(SKIA, i, InventoryOf(env.hash, ports), InventoryOf(env.hash, skia));
      NoSkiaYet();
      LinkedMadeAt(ports, "j");
      assert false;
    }
  }

  lemma NoSkiaYet()
    ensures ["s"] !in WithLink(EMPTY, "p", "r")
  {
    assert "s"[0] != "p"[0];
  }

  lemma LinkedMadeAt(base: Tree, compiler: string)
    requires Hosted(base) && METADATA !in base && ["s"] !in base && NulFree(compiler)
    ensures "s" in InventoryOf(Digest, WithLink(base, "s", compiler))
    ensures InventoryOf(Digest, WithLink(base, "s", compiler))["s"] == "symlink:" + compiler
  {
    hide InventoryOf, Hosted;
    LinkedMade(base, "s", compiler);
  }

  // ---------------------------------------------------------------- a build that reads the time

  /** Ports leave a link naming the time the predecessor was packaged. */
  predicate StampBuild(tier: nat, inputs: Inputs, base: Tree, made: Tree) {
    tier == PORTS && ["p"] !in base && made == base[["p"] := Link(TreeField(base, "created_utc"))]
  }

  function StampEnv(): Env { SmallEnv(StampBuild) }

  function Manifest(time: string): Node { File(JsonText(JObj(map["created_utc" := JStr(time)]), 0)) }

  function Packaged(time: string): Tree { EMPTY[["manifest.json"] := Manifest(time)] }

  lemma ManifestDigest(time: string)
    requires NulFree(time)
    ensures Digest(Manifest(time).content) == "\n" + time
    ensures Digest(WithoutCreationTime(Manifest(time).content)) == "\n"
    ensures TreeField(Packaged(time), "created_utc") == time
  {
    assert "target" != "created_utc" by { assert "target"[0] != "created_utc"[0]; }
  }

  lemma PackagedTree(time: string)
    requires NulFree(time)
    ensures Hosted(Packaged(time)) && METADATA !in Packaged(time) && ["p"] !in Packaged(time)
    ensures InventoryOf(Digest, Packaged(time)) == map["manifest.json" := "file:" + ("\n" + time)]
  {
    hide InventoryOf, Hosted, Digest, Field, IsTree, Manifest, Packaged;
    EmptyHosted(Digest);
    ManifestDigest(time);
    PackagedPaths(time);
    PutEntry(Digest, EMPTY, "manifest.json", Manifest(time));
    PutHosted(EMPTY, "manifest.json", Manifest(time));
  }

  lemma PackagedPaths(time: string)
    ensures Packaged(time) == EMPTY[["manifest.json"] := Manifest(time)] && Manifest(time).File?
    ensures METADATA !in Packaged(time) && ["p"] !in Packaged(time) && GoodName("manifest.json")
  {
    assert ["manifest.json"][0][0] == 'm' && "p"[0] == 'p' && METADATA[0][0] == '.';
  }

  lemma ListingPackaged(time: string)
    requires NulFree(time)
    ensures Listing(Digest, true, Packaged(time)) == map[MANIFEST := "file:" + "\n"]
  {
    hide Digest, Field;
    ManifestDigest(time);
    assert EntryIdentity(Digest, true, MANIFEST, Manifest(time)) == "file:" + "\n";
  }

  /** Two packagings of one predecessor have one normalised inventory. */
  lemma PackagedAlike(time: string, other: string)
    requires NulFree(time) && NulFree(other)
    ensures KeyedInventory(StampEnv(), PORTS, Packaged(time)) == KeyedInventory(StampEnv(), PORTS, Packaged(other))
  {
    hide Digest, Field, Packaged, IsTree, Listing, Named;
    PackagedTree(time);
    PackagedTree(other);
    ListingPackaged(time);
    ListingPackaged(other);
  }

  lemma Stamped(i: Inputs, time: string)
    requires NulFree(time)
    ensures Makes(StampEnv(), PORTS, i, Packaged(time), WithLink(Packaged(time), "p", time))
    ensures InventoryOf(Digest, WithLink(Packaged(time), "p", time))
         == map["manifest.json" := "file:" + ("\n" + time), "p" := "symlink:" + time]
  {
    hide InventoryOf, Hosted, Digest, Field;
    ManifestDigest(time);
    PackagedTree(time);
    LinkedMade(Packaged(time), "p", time);
    assert StampBuild(PORTS, i, Packaged(time), WithLink(Packaged(time), "p", time));
  }

  lemma StampMade(inputs: Inputs, base: Tree, made: Tree)
    requires Makes(StampEnv(), PORTS, inputs, base, made)
    ensures IsTree(base)
    ensures InventoryOf(Digest, made) == InventoryOf(Digest, base)["p" := "symlink:" + TreeField(base, "created_utc")]
  {
    hide InventoryOf, Hosted, TreeField;
    assert StampBuild(PORTS, inputs, base, made);
    HostedIsTree(base);
    assert GoodName("p");
    hide IsTree, GoodName;
    PutEntry(Digest, base, "p", Link(TreeField(base, "created_utc")));
  }

  lemma TimeRead(base: Tree, time: string)
    requires IsTree(base) && (time == "1" || time == "2")
    requires InventoryOf(Digest, base) == map["manifest.json" := "file:" + ("\n" + time)]
    ensures TreeField(base, "created_utc") == time
  {
    hide InventoryOf, IsTree, Field, Identity;
    ManifestListed(Digest, base);
    ReadTime(base[MANIFEST], time);
  }

  /** A tree with such an inventory names that time in its manifest, and so does what is built of it. */
  lemma StampRead(i: Inputs, time: string, y: Inventory)
    requires time == "1" || time == "2"
    requires Builds(StampEnv(), PORTS, i, map["manifest.json" := "file:" + ("\n" + time)], y)
    ensures "p" in y && y["p"] == "symlink:" + time
  {
    hide InventoryOf, Makes, TreeField, IsTree;
    StampIs();
    var base, made :| Makes(StampEnv(), PORTS, i, base, made)
      && InventoryOf(StampEnv().hash, base) == map["manifest.json" := "file:" + ("\n" + time)]
      && InventoryOf(StampEnv().hash, made) == y;
    StampMade(i, base, made);
    TimeRead(base, time);
  }

  lemma ReadTime(manifest: Node, time: string)
    requires time == "1" || time == "2"
    requires !manifest.Dir? && Identity(Digest, manifest) == "file:" + ("\n" + time)
    ensures manifest.File? && Field(manifest.content, "created_utc") == time
  {
    hide Field;
    var id := "file:" + ("\n" + time);
    assert id[0] == 'f' && id[5..] == "\n" + time;
    IdentityInitial(manifest);
    var s, t := Field(manifest.content, "target"), Field(manifest.content, "created_utc");
    assert id[5..] == s + "\n" + t;
    OneAfterBreak(s, t, time);
  }

  lemma IdentityInitial(node: Node)
    requires !node.Dir?
    ensures Identity(Digest, node)[..1] == if node.File? then "f" else "s"
    ensures Identity(Digest, node) != "" && (Identity(Digest, node)[0] == 'f' <==> node.File?)
  {}

  lemma OneAfterBreak(s: string, t: string, x: string)
    requires s + "\n" + t == "\n" + x && |x| == 1 && x[0] != '\n'
    ensures t == x
  {
    var u := s + "\n" + t;
    assert u[|s|] == '\n' && u[1] == x[0];
    assert |s| == 0;
    assert u[1..] == t && ("\n" + x)[1..] == x;
  }

  /** Such a build fails the premise, and the cache then stages what the run could not have built. */
  lemma StampCounterexample()
    ensures EnvOk(StampEnv()) && !AlwaysRight(StampEnv()) && !TimeBlind(StampEnv(), RunInputs("c", "r"))
  {
    hide *;
    KeysOf();
    var env, i := StampEnv(), RunInputs("c", "r");
    SmallEnvOk(StampBuild);
    StampIs();
    RunInputsOk("c", "r");
    PackagedTree("1");
    PackagedTree("2");
    PackagedAlike("1", "2");
    Stamped(i, "1");
    StampMoved();
    if Builds(env, PORTS, i, InventoryOf(Digest, Packaged("2")), StampedOn("2", "1")) {
      StampRead(i, "2", StampedOn("2", "1"));
      assert false;
    }
    if TimeBlind(env, i) { BlindAt(env, i, Packaged("1"), WithLink(Packaged("1"), "p", "1"), Packaged("2")); }
    if AlwaysRight(env) {
      StampReused(i, Reused(env, Packaged("1"), WithLink(Packaged("1"), "p", "1"), Packaged("2")));
      RightNeedsCover(env, i, i, [Packaged("1"), WithLink(Packaged("1"), "p", "1")],
                      [Packaged("2"), Reused(env, Packaged("1"), WithLink(Packaged("1"), "p", "1"), Packaged("2"))],
                          PORTS);
    }
  }

  lemma StampIs()
    ensures StampEnv() == SmallEnv(StampBuild) && StampEnv().hash == Digest
  {}

  /** The second packaging with the first one's stamp: what a reused layer leaves. */
  function StampedOn(time: string, stamp: string): Inventory {
    map["manifest.json" := "file:" + ("\n" + time), "p" := "symlink:" + stamp]
  }

  lemma StampMoved()
    ensures StampedOn("2", "1")["p"] != "symlink:" + "2" && "p" in StampedOn("2", "1")
    ensures Moved(map["manifest.json" := "file:" + ("\n" + "1")], StampedOn("1", "1"),
                  map["manifest.json" := "file:" + ("\n" + "2")]) == StampedOn("2", "1")
    ensures StampedOn("1", "1") == map["manifest.json" := "file:" + ("\n" + "1"), "p" := "symlink:" + "1"]
  {
    assert ("symlink:" + "1")[8] != ("symlink:" + "2")[8];
    assert "p"[0] != "manifest.json"[0];
    MovedOne(map["manifest.json" := "file:" + ("\n" + "1")], map["manifest.json" := "file:" + ("\n" + "2")], "p",
             "symlink:" + "1");
    assert StampedOn("1", "1") == map["manifest.json" := "file:" + ("\n" + "1")]["p" := "symlink:" + "1"];
    assert StampedOn("2", "1") == map["manifest.json" := "file:" + ("\n" + "2")]["p" := "symlink:" + "1"];
  }

  lemma BlindAt(env: Env, i: Inputs, base: Tree, made: Tree, t: Tree)
    requires TimeBlind(env, i) && Makes(env, PORTS, i, base, made) && Hosted(t)
    requires KeyedInventory(env, PORTS, base) == KeyedInventory(env, PORTS, t)
    ensures Builds(env, PORTS, i, InventoryOf(env.hash, t),
                   Moved(InventoryOf(env.hash, base), InventoryOf(env.hash, made), InventoryOf(env.hash, t)))
  {
    hide InventoryOf, Moved, Builds, Makes, Hosted;
  }

  lemma StampReused(i: Inputs, next: Tree)
    requires i.Ok() && next == Reused(StampEnv(), Packaged("1"), WithLink(Packaged("1"), "p", "1"), Packaged("2"))
    ensures var made := WithLink(Packaged("1"), "p", "1");
            && BuiltBy(StampEnv(), i, [Packaged("1"), made])
            && TakesAll(StampEnv(), i, i, [Packaged("1"), made], [Packaged("2"), next])
            && Reuses(StampEnv(), PORTS, i, i, Packaged("1"), made, Packaged("2"))
  {
    hide *;
    var made := WithLink(Packaged("1"), "p", "1");
    KeysOf();
    PackagedTree("1");
    PackagedTree("2");
    PackagedAlike("1", "2");
    Stamped(i, "1");
    MadeFacts(StampEnv(), PORTS, i, Packaged("1"), made);
    StampIs();
    SmallLayerValid(StampBuild, Packaged("1"), made);
    BuiltTwo(StampEnv(), i, Packaged("1"), made);
    TakesReused(StampEnv(), PORTS, i, i, Packaged("1"), made, Packaged("2"));
    TakenTwo(StampEnv(), i, i, Packaged("1"), made, Packaged("2"), next);
  }
}
