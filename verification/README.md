# Stage build cache, audits, archive comparison and argv recorder

A Dafny model of four tools of the CRT SDK build, with proofs of what they are for.

- **Dependency install layers** (`tools/build_stage_04_gfx_media.py`). A dependency build is recorded as the
  difference between two file trees, checked, and replayed on a clean tree in place of the build. `Trees` holds the
  file trees and the pure effects of file operations, `InstallLayer` the operations themselves, `LayerRoundTrip` what
  capturing and replaying promise together. `Framing` covers the byte streams hashed into cache keys.
- **The three-tier cache** of the same file: ports, Skia and curl, chained by content keys. `LayerCache` is a step
  machine over whole histories of runs that may stop between any two steps; what a build may leave is a relation on
  trees, so builds need not be repeatable. `StageBuild` is one run as code, on the work root's own state. `CacheLimits`
  says where a run stages what it could not have built, `CacheReruns` builds the histories of two and three runs that
  show it at every tier, `CacheWitness` gives small surroundings in which it happens, and `NestedWorkRoot` is the work
  root inside the predecessor.
- **Run-path rewriting** of Mach-O files (`RunPaths`).
- **Host ABI audits and the patch applier** of `tools/build_webkit_jsc.py` (`AbiAudit`, `Patches`).
- **The source archive comparison** of `tools/compare_stage_sources.py` (`SourceArchive`, `ArchiveCompare`,
  `ArchiveEvidence`, `DeclarationDiff`).
- **The argv recorder** of `tools/cli_argv_recorder.c` (`JsonText`, `ArgvRecorder`).

`Ordering`, `PosixPaths`, `Json` and `Wrappers` hold Python's string order, `pathlib`'s reading of a path, parsed JSON
with Python's equality, and optional values. `dafny verify dfyconfig.toml` checks everything.

## How the parts hang together

Cache safety comes in three strengths, each over every history of reuse runs with any inputs and predecessors, stopped
anywhere except where the stop leaves a new layer under a marker that holds another run's key.

1. `LayerCache.TiersAreRecorded` asks nothing of the builds: each tier a run has passed is a recorded build under an
   equal key, of a tree that key covers. `LayerCache.ThreeHitsRetrace` is the case of three hits in a row.
2. `LayerCache.CachedRunsMatchBuilds`: where keys cover what builds depend on, each tier is one the run's own build
   could have taken. Two premises say so. `TimeBlind`: the ports build cannot tell when its predecessor was packaged,
   though it may read the rest of the manifest, as the source does for the target. `KeysCover`: no recorded build
   differs from the run's own in an input its key leaves out. While compiler and unhashed asset files stay the same that
   holds, where a build depends on no recipe files but its own (`LayerCache.OneSettingCovers`).
3. `LayerCache.CachedRunsMatchSlowBuild`: with repeatable builds, the staged inventories are those of the uncached run.

The premises are needed. `CacheLimits.CoveredIsRight` says they suffice for every history. `CacheReruns.RightNeedsCover`
says what a cache that is always right needs, at every tier and for any two runs: wherever key and layer let the second
run reuse what the first one built, the second one's build could have made it. The excluded stop is answered by
`CacheLimits.StopPoisonsTier` (whatever later run reaches that tier under the old key must take the interrupted run's
build) and `CacheReruns.StopPoisonsEveryTier` (such a run comes about at every tier).

The cache also does what it is for: `CacheReruns.RerunHitsEverything`, a rerun of a completed run hits all three tiers.
With the work root inside the predecessor it never hits the first one (`NestedWorkRoot.NestedNeverHits`).

All of it rests on `LayerRoundTrip.ReplayInventory` (a delta replayed on a tree listing the same names), on
`LayerCache.EqualKeys` (equal keys cover equal inventories and equal inputs, through the framing being injective), and
on `LayerRoundTrip.RemnantReplays` (a half-deleted old layer that still passes its check replays like the whole one).
`StageBuild.WorkRoot.Run` states the first two strengths of one run written as code.

Parameters stand for what the tools ask of their surroundings: the content digest (`hash`), the digest of a stream
(`sha`), the operating system's answer to whether a path's parent resolves outside a tree (`esc`; its only law is that
a path with no link above it does not), the trees a build may leave (`builds`), the tables behind `otool`,
`llvm-objdump` and file existence, the patch tool, decompression, tar parsing and JSON loading. The round trip of a
layer assumes nothing of `hash`; keys assume `sha` injective; the archive categories assume `sha` injective.

## Where the code does less than it says

- The compiler's identity is part of the ports key only, yet the Skia and curl builds get the compiler too, and asset
  files that builds read are in no key. When inputs that differ in these, or in an earlier tier's recipes, lead to the
  same inventory before a later tier, the run takes the earlier run's Skia or curl (`CacheReruns.StaleLayer` for all such
  builds, `CacheWitness.CompilerCounterexample` for one).
- With the work root inside the predecessor, as the source's comments describe its use, the ports key covers the marker
  of the run before, so no run ever reuses the ports layer (`NestedWorkRoot.NestedNeverHits`).
- A run stopped after a layer was replaced and before its marker is opened leaves the new layer under the old marker.
  That is harmless when there was no marker or it held the run's own key; otherwise a later run under the old key
  stages the wrong build (`CacheLimits.StopPoisonsTier`, `CacheReruns.StopPoisonsEveryTier`,
  `CacheLimits.StopInWindowPoisonsCache`, `CacheWitness.WindowCounterexample`).
- A captured layer is refused by its own check on every later run when a directory that lost a file became a link
  leading out of the layer: `validate_install_layer` resolves the removed file's parent inside the layer
  (`LayerRoundTrip.EscapingLinkRefused`). `LayerRoundTrip.CapturedAcceptedOnTrees` gives the exact condition on the two
  trees for resolvers that look only at the links above a path, `LayerRoundTrip.CapturedAccepted` the one on the layer
  for all others. The refusal is safe, the tier is built again.
- Metadata that is JSON but no object raises an `AttributeError`, which `install_layer_valid` does not catch
  (`InstallLayer.InstallLayerValid`, verdict `Raises`).
- Leaving out `created_utc` helps the ports key only. The Skia and curl keys are taken from the plain inventory, so a
  repack of the predecessor misses them (`LayerCache.RepackMissesLaterTiers`).
- A second pass of `apply_patches` is the no-op its comment promises exactly when no later selected patch gives a
  listed file another final hash (`Patches.RerunIsNoOp`); stacked patches stop instead (`Patches.StackRerunStops`).
- The declaration difference uses Python's `==`, for which `True`, `1` and `1.0` are equal: such a change goes unlisted
  (`DeclarationDiff.AliasedWitness`). A changed root that is not an object on both sides, as for a declaration only one
  archive has, is listed as `/`, which names the member with the empty key (`DeclarationDiff.RootIsMisnamed`).
  `DeclarationDiff.ReplayRebuildsRight` says exactly when replay is exact.
- Rewriting run paths loses an entry on some publishable file whenever a spelling of the old root is the new root, lies above it or
  below it, and only then (`RunPaths.CompleteIffUnrelated`; `RunPaths.NestedRootsLoseEntries` for one file).
- The recorder accepts a compiler path of up to 32,767 bytes. From 32,755 bytes its loops write past the command
  buffer, and at 32,754 the line fills it without a NUL (`ArgvRecorder.CommandLineFits`,
  `ArgvRecorder.Recorder.BuildCommand`).
- Contents holding NUL make two different file lists hash the same stream (`Framing.IndexedStreamCollides`).

## Model

| member | source | states |
|---|---|---|
| Framing.InventoryStreamInjective | tools/build_stage_04_gfx_media.py:386-393 | two NUL-free inventories give the same hashed bytes if and only if they are the same map |
| Framing.InventoryFingerprint | tools/build_stage_04_gfx_media.py:386-393 | the digest loop hashes exactly that stream, in sorted order |
| Framing.IndexedStreamInjective | tools/build_stage_04_gfx_media.py:330-340 | NUL-free file lists give the same hashed bytes if and only if they are the same list |
| Framing.IndexedStreamCollides | tools/build_stage_04_gfx_media.py:330-340 | contents with NUL: a family of different lists with equal streams |
| Framing.Fingerprint | tools/build_stage_04_gfx_media.py:330-340 | the digest loop hashes exactly the indexed stream |
| Framing.DigitsRead | tools/build_stage_04_gfx_media.py:336 | a position is written in decimal without leading zeros: read back, it is the position |
| Ordering.LessIsLexicographic | tools/compare_stage_sources.py:95 | the order of `sorted` on strings is lexicographic by code point, a prefix first |
| PosixPaths.UnderIsAncestor | tools/build_stage_04_gfx_media.py:151-153 | the test on path strings holds exactly when the one's components begin with the other's |
| PosixPaths.LeafOfPosix | tools/build_webkit_jsc.py:889-896 | the leaf of a path is its last component |
| Trees.OverlayStep | tools/build_stage_04_gfx_media.py:544-546 | one more copied entry extends a part-finished overlay, so the order of copies does not matter |
| Trees.OverlayIsTree | tools/build_stage_04_gfx_media.py:544-546 | copying prefix-free entries whose way is clear leaves a tree: every entry inside directories only |
| Trees.OverlayClear | tools/build_stage_04_gfx_media.py:465-468 | what stands in the way of one copy does not depend on the copies made before it |
| Trees.LeadsClear | tools/build_stage_04_gfx_media.py:537-546 | once the removals are done, only directories lie above any changed path, even where a file became a directory |
| Trees.UntouchedSurvives | tools/build_stage_04_gfx_media.py:537-546 | no removal and no copy reaches an entry that did not change |
| Trees.ReplayAt | tools/build_stage_04_gfx_media.py:537-546 | after the replay the tree lists exactly the new tree's paths, with the new node where one changed and the old one elsewhere |
| InstallLayer.TreeInventory | tools/build_stage_04_gfx_media.py:359-383 | one identity for each file and link and none for directories, the manifest without its creation time on request |
| InstallLayer.DeltaLeads | tools/build_stage_04_gfx_media.py:479-484 | recorded changes and removals lead from any tree listing the same names to the captured one |
| InstallLayer.ValidateInstallLayer | tools/build_stage_04_gfx_media.py:503-524 | succeeds exactly on layers whose every recorded entry is present, unescaped and of the recorded identity, and returns what they record |
| InstallLayer.InstallLayerValid | tools/build_stage_04_gfx_media.py:527-534 | good exactly for those layers; raises exactly for metadata that is no object |
| InstallLayer.SafeNames | tools/build_stage_04_gfx_media.py:452-462 | a name is safe exactly when it is relative, names something, has no `..` component and does not escape |
| InstallLayer.OtherFormatsRefused | tools/build_stage_04_gfx_media.py:506-507 | a layer that does not say format 2, as Python reads numbers, is refused; captured ones say 2 |
| InstallLayer.AcceptedEntries | tools/build_stage_04_gfx_media.py:511-523 | in an accepted layer every recorded name is safe, and every changed one stands there with the recorded link target or digest |
| InstallLayer.AcceptedPrefixFree | tools/build_stage_04_gfx_media.py:511-519 | entries accepted where they stand, as a captured layer's always are, never lie above one another |
| InstallLayer.Directory.RemovePath | tools/build_stage_04_gfx_media.py:445-449 | the path and everything below it are gone and nothing else |
| InstallLayer.Directory.MakeParents | tools/build_stage_04_gfx_media.py:466 | makes the ancestors, or changes nothing and fails when a file or link is above |
| InstallLayer.Directory.CopyLayerEntry | tools/build_stage_04_gfx_media.py:465-473 | succeeds exactly when only directories lie above; then the node stands at its path with nothing below it |
| InstallLayer.RemoveEntries | tools/build_stage_04_gfx_media.py:540-543 | succeeds exactly when no removal leaves the tree at its turn, and leaves the tree without all of them |
| InstallLayer.CopyEntries | tools/build_stage_04_gfx_media.py:544-546 | succeeds in any order exactly when every entry's way is clear at the start, and leaves the overlay |
| InstallLayer.ApplyInstallLayer | tools/build_stage_04_gfx_media.py:537-546 | an invalid layer leaves the tree untouched; a valid one succeeds exactly when it is replayable and leaves the replayed tree |
| InstallLayer.CaptureInstallLayer | tools/build_stage_04_gfx_media.py:476-500 | the layer becomes the changed entries with their metadata, or stays as it was when the metadata cannot be written |
| LayerRoundTrip.ReplayInventory | tools/build_stage_04_gfx_media.py:476-546 | replay on any tree listing the build's input names always goes through; changed names get the build's identity, others keep their own |
| LayerRoundTrip.LayerRoundTrip | tools/build_stage_04_gfx_media.py:476-546 | the layer captured from one tree against another, replayed on any tree with the other's inventory, gives exactly the one's inventory |
| LayerRoundTrip.CapturedAccepted | tools/build_stage_04_gfx_media.py:503-524 | a captured layer passes its check if and only if no removed path escapes inside it and a root `.layer.json` of the build kept its hash |
| LayerRoundTrip.LinksAboveRemoved | tools/build_stage_04_gfx_media.py:520-523 | on the way to a removed path the captured layer has exactly the links of the new tree |
| LayerRoundTrip.CapturedAcceptedOnTrees | tools/build_stage_04_gfx_media.py:503-524 | the same exact verdict said of the two trees, for every resolver that looks only at the links above a path |
| LayerRoundTrip.CapturedAcceptedWithoutLinks | tools/build_stage_04_gfx_media.py:503-524 | for any resolver, a captured layer passes if the new tree has no link above a removed path |
| LayerRoundTrip.RemnantReplays | tools/build_stage_04_gfx_media.py:498-500 | a half-deleted layer that still passes the check replays exactly like the whole one |
| LayerRoundTrip.EscapingLinkRefused | tools/build_stage_04_gfx_media.py:457-461 | every capture in which a directory that lost a file became a link to an absolute place is refused |
| LayerRoundTrip.EscapingLinkWitness | tools/build_stage_04_gfx_media.py:520-523 | the smallest pair of trees for which this happens |
| LayerRoundTrip.NoMetadataEntry | tools/build_stage_04_gfx_media.py:493-497 | a build that makes no root `.layer.json` can always be captured |
| LayerCache.EqualKeys | tools/build_stage_04_gfx_media.py:1134-1140 | two keys are equal if and only if the keyed inventories and all keyed inputs are |
| LayerCache.LayerOutcome | tools/build_stage_04_gfx_media.py:537-546 | what is left of a layer, replayed on any tree listing the names its build started from, never fails and moves it as the build moved its own |
| LayerCache.HitOutcome | tools/build_stage_04_gfx_media.py:1209-1211 | a hit follows a recorded build under an equal key, whatever builds do |
| LayerCache.StepKeeps | tools/build_stage_04_gfx_media.py:1152-1228 | every step but a harmful stop keeps the cache invariant |
| LayerCache.HistoryInvariant | tools/build_stage_04_gfx_media.py:1152-1304 | the invariant holds at every point of every history without a harmful stop |
| LayerCache.TiersAreRecorded | tools/build_stage_04_gfx_media.py:1152-1304 | each tier a run has passed is a recorded build under an equal key; nothing is asked of builds |
| LayerCache.CachedRunsMatchBuilds | tools/build_stage_04_gfx_media.py:1152-1304 | where keys cover what builds depend on, each tier passed is one the run's own build could have taken |
| LayerCache.CachedRunsMatchSlowBuild | tools/build_stage_04_gfx_media.py:1152-1304 | with repeatable builds besides, the run has staged exactly what the uncached one would have |
| LayerCache.HitsAreBacked | tools/build_stage_04_gfx_media.py:1152-1157 | every hit applies what is left of a layer captured under an equal key, and follows that build |
| LayerCache.ThreeHitsRetrace | tools/build_stage_04_gfx_media.py:1209-1289 | three hits in a row pass through the inventories of the recorded builds, each starting where the one before ended |
| LayerCache.OneSettingCovers | tools/build_stage_04_gfx_media.py:1137-1146 | while all runs use one compiler and the same unhashed assets, keys cover them although later ones hold neither |
| LayerCache.RepackKeepsPortsKey | tools/build_stage_04_gfx_media.py:373-380 | packaging time and layout of the manifest do not reach the ports key |
| LayerCache.PortsKeyCoversManifest | tools/build_stage_04_gfx_media.py:373-380 | of predecessors that differ in their manifests alone the ports keys are equal if and only if the manifests digest alike without `created_utc`, so every other field is covered |
| LayerCache.RepackMissesLaterTiers | tools/build_stage_04_gfx_media.py:1234-1235 | after a ports hit the Skia key of a repacked predecessor is kept if and only if its plain inventory did not change or the build wrote the manifest |
| CacheLimits.LayerHit | tools/build_stage_04_gfx_media.py:1152-1157 | a run that finds a valid layer under its key must hit, and gets what the layer's build makes of its tree |
| CacheLimits.StopPoisonsTier | tools/build_stage_04_gfx_media.py:1227-1228 | after a harmful stop, any later run reaching the tier under the old key must take the interrupted run's build |
| CacheLimits.StopInWindowPoisonsCache | tools/build_stage_04_gfx_media.py:1227-1228 | every history that stops harmfully at the ports tier continues to such a run |
| CacheLimits.CoveredIsRight | tools/build_stage_04_gfx_media.py:1137-1277 | if builds tell apart neither packaging times nor inputs with one key, no history stages a tier its run could not have built |
| CacheReruns.FirstRun | tools/build_stage_04_gfx_media.py:1209-1304 | a run from an empty cache builds every tier it gets to and leaves each one's layer under its key |
| CacheReruns.TierReused | tools/build_stage_04_gfx_media.py:1239-1247 | with an equal key and a valid layer the tier is a single hit, and no build can take its place |
| CacheReruns.NotReused | tools/build_stage_04_gfx_media.py:1239-1244 | without them no hit is possible |
| CacheReruns.LaterRun | tools/build_stage_04_gfx_media.py:1209-1304 | a run over the layers an earlier one left takes each tier as its key and layer say, and when all say reuse it is hits only and leaves the cache as it was |
| CacheReruns.TwoRuns | tools/build_stage_04_gfx_media.py:1152-1304 | for any inputs and predecessors of two runs there is a history in which the second stages, tier by tier, what it may take of the first one's layers |
| CacheReruns.RightNeedsCover | tools/build_stage_04_gfx_media.py:1137-1277 | a cache that is always right needs, at every tier, that what one run reuses of another's is what its own build could have made |
| CacheReruns.RightNeedsTimeBlind | tools/build_stage_04_gfx_media.py:1134-1140 | the case of the ports tier: no build may tell apart packaging times, nor inputs, that share its key |
| CacheReruns.StaleLayer | tools/build_stage_04_gfx_media.py:1234-1285 | inputs that differ in anything a later key leaves out and lead to one inventory: the second run stages the first one's Skia or curl |
| CacheReruns.RerunHitsEverything | tools/build_stage_04_gfx_media.py:1152-1304 | a rerun of a completed run hits all three tiers and stages the same inventories |
| CacheReruns.StopPoisonsEveryTier | tools/build_stage_04_gfx_media.py:1227-1304 | at every tier: a run stopped harmfully there, and the next run under the old key stages the interrupted run's build |
| NestedWorkRoot.MarkerIsOlder | tools/build_stage_04_gfx_media.py:1152-1156 | with the work root inside the predecessor, the marker a run finds is never its own key but that of an earlier run that found another |
| NestedWorkRoot.NestedNeverHits | tools/build_stage_04_gfx_media.py:1134-1228 | so no run reuses the ports layer, whatever the layer and however the runs before it ended |
| CacheWitness.WindowCounterexample | tools/build_stage_04_gfx_media.py:1227-1228 | a concrete history with exactly one harmful stop after which a run has staged what it could not have built |
| CacheWitness.CompilerCounterexample | tools/build_stage_04_gfx_media.py:1234-1235 | concrete surroundings in which the compiler alone makes the cache wrong, without any harmful stop |
| CacheWitness.LinkBuildTimeBlind | tools/build_stage_04_gfx_media.py:362-366 | under a digest that sees packaging times, a ports build that reads the manifest's target meets the premise on them |
| CacheWitness.StampCounterexample | tools/build_stage_04_gfx_media.py:362-366 | under the same digest a ports build that reads the packaging time fails the premise, and the cache is then wrong |
| StageBuild.WorkRoot.TierKey | tools/build_stage_04_gfx_media.py:1134-1140 | the marker text of the tier about to run |
| StageBuild.WorkRoot.TryReuse | tools/build_stage_04_gfx_media.py:1239-1247 | reuses exactly when a valid layer stands under the key, then follows a recorded build under it, else leaves the tree as it was |
| StageBuild.WorkRoot.RunTier | tools/build_stage_04_gfx_media.py:1209-1228 | hit or miss, the tier follows a recorded build under an equal key; a miss stores its own build and the cache stays sound |
| StageBuild.WorkRoot.Store | tools/build_stage_04_gfx_media.py:1226-1228 | replaces layer and marker of one tier and keeps the cache sound |
| StageBuild.WorkRoot.Run | tools/build_stage_04_gfx_media.py:1163-1304 | from any sound cache all three tiers follow recorded builds, and builds of the run's own inputs where keys cover them |
| StageBuild.NewLayer | tools/build_stage_04_gfx_media.py:1215-1227 | the captured layer is backed by the build just made, under the key just computed |
| StageBuild.ReplayMarked | tools/build_stage_04_gfx_media.py:1245-1247 | a layer under a matching marker is replayed exactly when it passes its check, and follows its build |
| RunPaths.MachOFile.DeleteRpath | tools/build_stage_04_gfx_media.py:188-190 | removes one entry that must be there and no other |
| RunPaths.MachOFile.ChangeRpath | tools/build_stage_04_gfx_media.py:192-195 | replaces an entry that must be there by one that must not |
| RunPaths.MachOFile.RewriteStale | tools/build_stage_04_gfx_media.py:150-195 | for every order of the entries each tool call is legal, no duplicate arises and the same set results |
| RunPaths.UnrelatedRootsRewritten | tools/build_stage_04_gfx_media.py:128-195 | between unrelated roots live entries stay, stale ones reach their image, none stays stale, a second pass changes nothing |
| RunPaths.CompleteIffUnrelated | tools/build_stage_04_gfx_media.py:128-195 | live entries stay and stale ones reach their image on every file published at or below the new root if and only if no old spelling is the new root, above it or below it |
| RunPaths.SpellingOrderRewritten | tools/build_stage_04_gfx_media.py:151-154 | with unrelated spellings the order of the set of old roots does not matter |
| RunPaths.EqualRootsRewritten | tools/build_stage_04_gfx_media.py:175-190 | equal roots: the file's own directory becomes `@loader_path`, all else under the root goes |
| RunPaths.NestedRootsLoseEntries | tools/build_stage_04_gfx_media.py:158-190 | nested roots: a file in a subdirectory of the new root ends with one entry where two were due |
| AbiAudit.ClassifyIsExact | tools/build_webkit_jsc.py:885-907 | a name is a violation if and only if the firewall does not allow that binary to load it |
| AbiAudit.FollowIsLoads | tools/build_webkit_jsc.py:892-906 | a name is followed exactly to the library loaded under it: the first search directory that has it, or its own place under an allowed root |
| AbiAudit.RelocatableNames | tools/build_webkit_jsc.py:895 | which names are looked up in the search directories |
| AbiAudit.LowerEquates | tools/build_webkit_jsc.py:958 | lower-casing makes equal exactly the names that differ in the case of letters at most |
| AbiAudit.ReportIs | tools/build_webkit_jsc.py:899-907 | the violations are exactly the names not allowed, each with its binary and reason |
| AbiAudit.Inspect | tools/build_webkit_jsc.py:957-969 | one image's names are followed or reported, each in order |
| AbiAudit.Audit | tools/build_webkit_jsc.py:870-973 | terminates on cyclic graphs, visits each image reachable by loading and no other, once, passes if and only if all they load is allowed, and reports exactly what is not |
| AbiAudit.ReportOrderIrrelevant | tools/build_webkit_jsc.py:876-909 | the same images visited in any order give the same violations, each as often |
| AbiAudit.RootOrderIrrelevant | tools/build_webkit_jsc.py:948-971 | order and repetition of the roots do not change the violations |
| Patches.Checkout.States | tools/build_webkit_jsc.py:244-253 | the state of every listed file, or the first reason to stop |
| Patches.Checkout.ApplyOne | tools/build_webkit_jsc.py:254-264 | runs a patch only on files that are all pristine and accepts it only with all after-hashes |
| Patches.Checkout.ApplyPatches | tools/build_webkit_jsc.py:232-265 | checkout, patches run, entries returned and stop reason are those of the specified pass |
| Patches.CompletedApplies | tools/build_webkit_jsc.py:241-265 | a completed pass has applied exactly the patches meant for the host or an extra target, in order |
| Patches.OthersAreIgnored | tools/build_webkit_jsc.py:242-243 | a patch meant for other hosts changes nothing, wherever it stands |
| Patches.ProblemIsFirstWrong | tools/build_webkit_jsc.py:245-253 | a stop names the first file that is missing or has neither of its hashes |
| Patches.OnePatchOutcome | tools/build_webkit_jsc.py:254-264 | the tool is run exactly on files all at their before-hash, and both its word and its result decide the outcome |
| Patches.PassEndState | tools/build_webkit_jsc.py:241-265 | a completed pass leaves each file where the last selected patch listing it puts it; unlisted files never change |
| Patches.PassRunsNothing | tools/build_webkit_jsc.py:254-264 | a pass completes without running anything if and only if every selected patch is already applied |
| Patches.RerunIsNoOp | tools/build_webkit_jsc.py:235-238 | a rerun does nothing if and only if no later selected patch gives a file another final hash |
| Patches.DisjointPatchesSettle | tools/build_webkit_jsc.py:235-238 | disjoint patches on uniform files: one pass reaches all after-hashes, the second runs nothing |
| Patches.StackReachesTop | tools/build_webkit_jsc.py:254-264 | a chain of patches of one file takes it from the first hash to the last in one pass |
| Patches.StackRerunStops | tools/build_webkit_jsc.py:251-253 | a further pass over such a chain stops at once and changes nothing |
| DeclarationDiff.UnescapeEscape | tools/compare_stage_sources.py:96 | decoding an escaped key gives it back, and no separator stays in it |
| DeclarationDiff.TokensOfRender | tools/compare_stage_sources.py:96 | reading a listed field as a JSON pointer (RFC 6901) gives back its keys |
| DeclarationDiff.NoChanges | tools/compare_stage_sources.py:92-104 | nothing is listed if and only if Python calls the documents equal |
| Json.PyEqIsPlain | tools/compare_stage_sources.py:104 | Python equates two documents if and only if they agree once booleans, integers and zeros are written as plain numbers |
| Json.PyEqWithoutNumbers | tools/compare_stage_sources.py:104 | documents without numbers and booleans are equated if and only if they are equal |
| DeclarationDiff.ChangesSwap | tools/compare_stage_sources.py:92-104 | comparing the other way round exchanges added with removed and left with right, field by field |
| DeclarationDiff.ChangesIndependent | tools/compare_stage_sources.py:92-104 | no listed field is another's ancestor and none is listed twice |
| DeclarationDiff.ChangesInOrder | tools/compare_stage_sources.py:95 | fields are listed in the order of their keys, level by level |
| DeclarationDiff.MergeIsRight | tools/compare_stage_sources.py:104 | left, with everything Python calls different replaced, is right up to that equality, and exactly unless aliased |
| DeclarationDiff.ReplayRebuildsRight | tools/compare_stage_sources.py:92-104 | replaying the list gives the right document if and only if both roots are objects or equal to Python, and no values differ only in ways Python ignores |
| DeclarationDiff.AliasedWitness | tools/compare_stage_sources.py:104 | a boolean replaced by the number Python equates with it goes unlisted |
| DeclarationDiff.RootIsMisnamed | tools/compare_stage_sources.py:104-126 | a changed root that is not an object on both sides is listed under the empty key, and replay never gives the right document |
| SourceArchive.DigestStream | tools/compare_stage_sources.py:20-28 | digest and size of the whole stream, or failure exactly when it is over the limit |
| SourceArchive.CanonicalNames | tools/compare_stage_sources.py:48-54 | accepted names are exactly canonical relative paths with trailing slashes |
| SourceArchive.ReadPayload | tools/compare_stage_sources.py:60-75 | an entry exactly when the payload has its declared size and a declaration fits its limit |
| SourceArchive.ReadMembers | tools/compare_stage_sources.py:45-77 | succeeds exactly when every member is sound and the sizes fit; sound members are refused for size exactly when the full sum is over the limit |
| SourceArchive.SoundMembersAre | tools/compare_stage_sources.py:45-75 | the reader accepts exactly at most 250,000 members, each a file of its declared size or a directory at a canonical path of its own, no declaration over 1 MiB |
| SourceArchive.DeclarationPaths | tools/compare_stage_sources.py:69 | among canonical paths the declarations are `stage.json` and the `.json` files below `stages/recipes` |
| SourceArchive.TotalSizeAdds | tools/compare_stage_sources.py:57 | the running size counts every member once, directories too |
| SourceArchive.ReadsInvariant | tools/compare_stage_sources.py:42-77 | the order lists the entry keys without repetition, each key canonical, within both limits |
| ArchiveCompare.ReadArchive | tools/compare_stage_sources.py:36-89 | succeeds exactly when the stream decodes within bounds, its members are sound and its declarations load, with digests, table and declarations of those bytes |
| ArchiveCompare.LoadDeclarations | tools/compare_stage_sources.py:78-82 | fails exactly when a declaration is no JSON document; else each holds the document of the member that carries it |
| ArchiveCompare.ReadFromUnique | tools/compare_stage_sources.py:42-82 | the members determine entries, order and declarations |
| ArchiveCompare.Compare | tools/compare_stage_sources.py:107-152 | category and all lists are those of the specified report |
| ArchiveCompare.CompareEntries | tools/compare_stage_sources.py:109-123 | the single pass builds the content, permission and metadata lists at once |
| ArchiveCompare.CompareDeclarations | tools/compare_stage_sources.py:124-128 | one item for every declaration that differs |
| ArchiveCompare.ListsAgreeWithSummaries | tools/compare_stage_sources.py:83-123 | the content list is empty if and only if the payload summaries agree, with permissions if and only if the portable ones do |
| ArchiveCompare.NothingDiffers | tools/compare_stage_sources.py:107-128 | an archive differs from itself in nothing |
| ArchiveCompare.CategoryAgreesWithEvidence | tools/compare_stage_sources.py:129-149 | the equalities form a chain, each category holds exactly for its place in it, and equal tar streams leave every list empty |
| ArchiveEvidence.ReportOnMembers | tools/compare_stage_sources.py:109-137 | said of the members themselves: content is empty if and only if paths, kinds, sizes and file bytes agree, permissions and metadata likewise, and the category follows |
| ArchiveEvidence.ListsAreExact | tools/compare_stage_sources.py:109-123 | the three lists hold exactly the items that are so of the two archives, each path once and in order |
| ArchiveEvidence.ReportIsExact | tools/compare_stage_sources.py:143-149 | the report's lists are those |
| ArchiveEvidence.PayloadFieldsAre | tools/compare_stage_sources.py:115 | a modified item names exactly the payload fields that differ, in order |
| ArchiveEvidence.MetaFieldsAre | tools/compare_stage_sources.py:120 | a metadata item names exactly the header fields that differ, in order |
| ArchiveEvidence.DeclarationsAreExact | tools/compare_stage_sources.py:124-128 | a declaration is listed exactly when one side lacks it or holds another document, null being as good as none |
| JsonText.QuotedReadsBack | tools/cli_argv_recorder.c:68-78 | a JSON reader takes back the bytes and stops exactly at the closing quote, whatever follows |
| JsonText.ArrayReadsBack | tools/cli_argv_recorder.c:85-95 | the emitted array, read as JSON (RFC 8259), is the argument list |
| JsonText.ArrayTextInjective | tools/cli_argv_recorder.c:85-95 | different argument lists never give the same text |
| JsonText.EscapedWellFormed | tools/cli_argv_recorder.c:71-76 | escaping keeps UTF-8 well formed (section 4 of RFC 3629) |
| JsonText.ArrayWellFormed | tools/cli_argv_recorder.c:85-95 | the text is well-formed UTF-8 whenever the arguments are |
| JsonText.EscapedLength | tools/cli_argv_recorder.c:55-58 | escaping costs at most six bytes a byte |
| ArgvRecorder.OpenedLength | tools/cli_argv_recorder.c:55-58 | the array of any arguments takes at most eighteen bytes a command-line unit, and one |
| ArgvRecorder.ArgFits | tools/cli_argv_recorder.c:90-93 | at every turn the converted argument, its comma and its quotes have room |
| ArgvRecorder.AllFit | tools/cli_argv_recorder.c:95 | the closing bracket has room |
| ArgvRecorder.Same | tools/cli_argv_recorder.c:80-83 | true exactly for equal strings |
| ArgvRecorder.Recorder.Put | tools/cli_argv_recorder.c:66 | one byte appended inside the buffer |
| ArgvRecorder.Recorder.PutEscaped | tools/cli_argv_recorder.c:71-76 | appends the escape of one byte |
| ArgvRecorder.Recorder.PutString | tools/cli_argv_recorder.c:68-78 | appends the quoted text |
| ArgvRecorder.Recorder.RecordArgs | tools/cli_argv_recorder.c:89-95 | never past the buffer; fails exactly when a conversion does, else the text is the array of all arguments but the first |
| ArgvRecorder.Recorder.BuildCommand | tools/cli_argv_recorder.c:97-101 | for every path: whether each write stays in the buffer, and what the buffer then holds, with or without a NUL |
| ArgvRecorder.CommandLineFits | tools/cli_argv_recorder.c:59-101 | the path lengths at which the line fits with its NUL, without it, and not at all |
| ArgvRecorder.CommandLineSplits | tools/cli_argv_recorder.c:97-101 | split at blanks outside quotes, the line is the compiler's path and the flag, and nothing else |
| ArgvRecorder.FlagText | tools/cli_argv_recorder.c:101 | the flag is `-print-resource-dir` |
| ArgvRecorder.ReadBack | tools/cli_argv_recorder.c:87-95 | the text written, read as JSON, is the array of the arguments after the program's name, in order |
| ArgvRecorder.Recorder.RecorderMain | tools/cli_argv_recorder.c:85-117 | builds the compiler's command exactly for the lone flag with a compiler named, and the started program splits it into path and flag; else writes a text that reads as the arguments |

## Left out

- LayerCache.CachedRunsMatchBuilds: a build that changes the root `.layer.json`, and the truncation of digests to 32 digits, are not modelled; builds are compared by the inventories they start from and leave.
- LayerCache.StepKeeps: runs without `--reuse-work-root` neither read nor write the cache and are not steps; a marker part written is a marker that matches no key.
- LayerCache.RepackKeepsPortsKey: a predecessor with a manifest that is not a JSON object stops the run in the source and is keyed by its bytes here.
- CacheReruns.RightNeedsCover: the two runs are the first of their work root; a run that stops before a tier's build ends is a history of its own.
- LayerRoundTrip.LayerRoundTrip: a build that changes a root `.layer.json` is excluded, since the layer's metadata takes its name; CapturedAccepted covers it.
- LayerRoundTrip.EscapingLinkRefused: states the refusal for links with absolute targets; CapturedAcceptedOnTrees covers every resolver that looks at the links above a path, relative ones included, and other links a target may lead through are the operating system's answer.
- InstallLayer.Directory.RemovePath: file modes, times and the retries for read-only files on Windows are not modelled.
- InstallLayer.Directory.MakeParents: a link to a directory above the path, which the source accepts, is taken as an obstruction.
- InstallLayer.Directory.CopyLayerEntry: a copy through a link that stays inside the tree, which the source makes, is taken as obstructed.
- InstallLayer.RemoveEntries: a removal through a link that stays inside the tree deletes the link's target entry in the source and nothing here.
- InstallLayer.CopyEntries: copies through links that stay inside the tree are taken as obstructed.
- InstallLayer.ApplyInstallLayer: trees and layers with links inside them above a recorded path are taken as not replayable; a tree with the captured build's names never meets one (LayerRoundTrip.ReplayInventory).
- InstallLayer.ValidateInstallLayer: an entry reached through a link inside the layer, which the source accepts, is taken as missing, and a `.layer.json` that is itself a link as unreadable.
- InstallLayer.InstallLayerValid: errors of path resolution that the handler does not name, such as the `RuntimeError` for a loop of links before Python 3.13, are not modelled; entries behind inside links count as missing.
- InstallLayer.AcceptedPrefixFree: hand-made metadata can name an entry through a link inside the layer, and the source accepts such entries above one another; here they are missing.
- InstallLayer.CaptureInstallLayer: a root `.layer.json` of the build that is a link is written through in the source; here the capture fails.
- InstallLayer.TreeInventory: equal canonical texts of the manifest are taken as equal documents, and entries are visited in any order, which the resulting map cannot tell.
- StageBuild.WorkRoot.Run: the staged copy is the predecessor itself (NestedWorkRoot has the work root inside it); a build that fails stops the run and is not modelled.
- StageBuild.WorkRoot.RunTier: the builder succeeds on every tree; a build that fails stops the run and leaves the cache as it was.
- NestedWorkRoot.NestedNeverHits: told of the marker file alone; the layers and the old staged copy that also lie inside the predecessor are among what may change freely.
- RunPaths.MachOFile.RewriteStale: one file with distinct entries, as `otool` lists them; the walk over the tree and the test for Mach-O magic numbers are not modelled.
- RunPaths.MachOFile.ChangeRpath: that the new entry is absent and the old one present is the tool's own demand, which the rewriting loop always meets.
- AbiAudit.Audit: the `known_host_libraries` and `libraries` fields, and the texts of the messages, are not modelled; names are lower-cased in ASCII.
- Patches.Checkout.ApplyPatches: the file lists beside the returned identifiers are not modelled; a file missing after the tool ran counts as a wrong result.
- DeclarationDiff.ReplayRebuildsRight: JSON `NaN`, which equals nothing, is not modelled; infinities and the negative zero are.
- ArchiveCompare.ReadArchive: which of several failures is reported is not promised; decompression, tar parsing and JSON loading are functions that may fail.
- ArchiveCompare.Compare: `same_declared_baseline` and the two summaries copied into the report are not modelled.
- ArchiveCompare.CompareEntries: a metadata item holds both members' whole headers; the report copies the differing fields.
- ArgvRecorder.CommandLineSplits: for paths without a quote, which no Windows file name has; backslashes mean nothing in the first argument, and the second has none.
- ArgvRecorder.Recorder.BuildCommand: after the first write outside the buffer C promises nothing; the model stops there and says so.
- ArgvRecorder.Recorder.RecorderMain: the last system calls and their exit codes 2, 3, 4 and 6 are not modelled; a variable longer than its buffer is outside the model, one that is unset or empty is no compiler.
- ArgvRecorder.Recorder.RecordArgs: splitting and converting the command line are given by their lengths and by holding no NUL inside; the bound of 32,767 units is the system's.
- JsonText.ArrayReadsBack: the reader is one of arrays of strings; it refuses escaped surrogates, which the writer never produces.
- The Linux audit, the acceptance gates, the phase timings, the fetch and build drivers and the public headers.
