/**
 A work root inside the predecessor SDK. The predecessor's inventory then covers the ports marker
 the last run wrote, so a run's key covers the key of the run before it.
 */
module NestedWorkRoot {
  import opened Wrappers
  import opened PosixPaths
  import opened Trees
  import opened InstallLayer
  import opened LayerCache
  import opened CacheLimits

  /** One reuse run: the predecessor it hashes, and the ports marker before and after it. */
  datatype Visit = Visit(sdk: Tree, inputs: Inputs, before: Option<Key>, after: Option<Key>)

  ghost function VisitKey(env: Env, v: Visit): Key { KeyOf(env, PORTS, v.sdk, KeyedInputs(v.inputs, PORTS)) }

  /** The marker file the predecessor holds; one that was opened and not written is empty. */
  predicate HoldsMarker(sdk: Tree, at: Path, text: Key -> string, marker: Option<Key>) {
    match marker
    case Some(key) => at in sdk && sdk[at] == File(Bytes(text(key)))
    case None => at in sdk ==> sdk[at] == File(Bytes(""))
  }

  /** A run keeps the marker, leaves it empty, or writes its own key. */
  ghost predicate VisitOk(env: Env, at: Path, text: Key -> string, v: Visit) {
    && v.inputs.Ok() && Hosted(v.sdk) && HoldsMarker(v.sdk, at, text, v.before)
    && (v.after == v.before || v.after == None || v.after == Some(VisitKey(env, v)))
  }

  /** Runs of one work root, from an empty cache; all else in the predecessor may change between them. */
  ghost predicate Visits(env: Env, at: Path, text: Key -> string, visits: seq<Visit>) {
    && (forall n :: 0 <= n < |visits| ==> VisitOk(env, at, text, visits[n]))
    && (visits != [] ==> visits[0].before == None)
    && forall n :: 0 < n < |visits| ==> visits[n].before == visits[n - 1].after
  }

  /** The digest tells marker texts apart, and from an empty file. */
  ghost predicate TellsMarkers(hash: Hash, text: Key -> string) {
    && (forall k, l :: hash(Bytes(text(k))) == hash(Bytes(text(l))) ==> k == l)
    && forall k :: hash(Bytes(text(k))) != hash(Bytes(""))
  }

  /** A marker's key is that of an earlier run that found another marker. */
  ghost predicate WrittenBefore(env: Env, visits: seq<Visit>, n: nat, p: nat) {
    p < n < |visits| && visits[n].before == Some(VisitKey(env, visits[p])) && visits[p].before != visits[n].before
  }

  /** Equal ports keys cover the same file at every path but the manifest's. */
  lemma SameEntry(env: Env, a: Visit, b: Visit, at: Path)
    requires EnvOk(env) && a.inputs.Ok() && b.inputs.Ok() && Hosted(a.sdk) && Hosted(b.sdk)
    requires VisitKey(env, a) == VisitKey(env, b) && GoodPath(at) && at != MANIFEST && Lists(a.sdk, at)
    ensures Lists(b.sdk, at) && Identity(env.hash, a.sdk[at]) == Identity(env.hash, b.sdk[at])
  {
    hide InventoryOf, NormalInventoryOf, IsTree, Identity, KeyOf, Parts, Posix, GoodPath;
    EqualKeys(env, PORTS, a.sdk, b.sdk, KeyedInputs(a.inputs, PORTS), KeyedInputs(b.inputs, PORTS));
    HostedIsTree(a.sdk);
    HostedIsTree(b.sdk);
    NormalSame(env, a.sdk, b.sdk);
    ListedNames(env.hash, a.sdk);
    ListedNames(env.hash, b.sdk);
    ManifestPath();
    assert Posix(at) in InventoryOf(env.hash, b.sdk);
  }

  lemma MarkersDiffer(env: Env, at: Path, text: Key -> string, sdk: Tree, marker: Option<Key>, key: Key, other: Tree)
    requires TellsMarkers(env.hash, text) && HoldsMarker(sdk, at, text, marker) && marker != Some(key)
    requires HoldsMarker(other, at, text, Some(key)) && Lists(sdk, at)
    ensures Identity(env.hash, sdk[at]) != Identity(env.hash, other[at])
  {
    var x, y := Identity(env.hash, sdk[at]), Identity(env.hash, other[at]);
    assert x[5..] == env.hash(sdk[at].content) && y[5..] == env.hash(Bytes(text(key)));
  }

  lemma {:induction false} MarkerIsOlder(env: Env, at: Path, text: Key -> string, visits: seq<Visit>, n: nat)
    requires EnvOk(env) && TellsMarkers(env.hash, text) && GoodPath(at) && at != MANIFEST
    requires Visits(env, at, text, visits) && n < |visits|
    ensures visits[n].before != Some(VisitKey(env, visits[n]))
    ensures visits[n].before.Some? ==> exists p :: WrittenBefore(env, visits, n, p)
  {
    hide EnvOk, TellsMarkers, GoodPath, VisitKey, HoldsMarker, Hosted;
    assert VisitOk(env, at, text, visits[n]);
    if n > 0 && visits[n].before.Some? {
      MarkerIsOlder(env, at, text, visits, n - 1);
      assert VisitOk(env, at, text, visits[n - 1]);
      var p: nat;
      if visits[n].before == Some(VisitKey(env, visits[n - 1])) {
        p := n - 1;
      } else {
        p :| WrittenBefore(env, visits, n - 1, p);
      }
      assert WrittenBefore(env, visits, n, p);
      if visits[n].before == Some(VisitKey(env, visits[n])) {
        assert VisitOk(env, at, text, visits[p]);
        Unrepeated(env, at, text, visits[p], visits[n]);
        assert false;
      }
    }
  }

  /** A run cannot find its own key, if the run with that key found another marker. */
  lemma Unrepeated(env: Env, at: Path, text: Key -> string, a: Visit, b: Visit)
    requires EnvOk(env) && TellsMarkers(env.hash, text) && GoodPath(at) && at != MANIFEST
    requires VisitOk(env, at, text, a) && VisitOk(env, at, text, b) && VisitKey(env, a) == VisitKey(env, b)
    requires a.before != b.before
    ensures b.before != Some(VisitKey(env, b))
  {
    hide EnvOk, TellsMarkers, VisitKey, Hosted, Identity, GoodPath;
    if b.before == Some(VisitKey(env, b)) {
      SameEntry(env, b, a, at);
      MarkersDiffer(env, at, text, a.sdk, a.before, VisitKey(env, b), b.sdk);
      assert false;
    }
  }

  /**
   With the work root inside the predecessor no run ever reuses the ports layer, whatever the
   layer and however the runs before it ended: the marker it finds is never its own key.
   */
  lemma NestedNeverHits(env: Env, at: Path, text: Key -> string, visits: seq<Visit>, n: nat, layer: Option<Tree>)
    requires EnvOk(env) && TellsMarkers(env.hash, text) && GoodPath(at) && at != MANIFEST
    requires Visits(env, at, text, visits) && n < |visits|
    ensures !CanHit(env, Slot(layer, visits[n].before), VisitKey(env, visits[n]))
  {
    hide EnvOk, TellsMarkers, GoodPath, VisitKey, Visits, Accepts;
    MarkerIsOlder(env, at, text, visits, n);
  }
}
