/**
 The host ABI audits of a macOS or Windows build: a worklist search over the libraries that
 binaries load, with every name classified on the way. Tool output, file existence and path
 resolution are given as finite tables and a function.
 */
module AbiAudit {
  import opened Wrappers
  import opened PosixPaths

  datatype Host =
    | MacOS(listing: map<string, seq<string>>, existing: set<string>, resolve: string -> string,
            search: seq<string>, allowed: seq<string>)
    | Windows(listing: map<string, seq<string>>, existing: set<string>, resolve: string -> string,
              search: seq<string>, system: set<string>, media: set<string>)

  /** The names the tool prints for an image; it prints none for a file it cannot read. */
  function Names(h: Host, image: string): seq<string> {
    if image in h.listing then h.listing[image] else []
  }

  datatype Kind = NotFound | HostLibrary

  datatype Violation = Violation(user: string, name: string, kind: Kind)

  datatype Finding = Fine | Known | Follow(image: string) | Bad(kind: Kind)

  const MAC_SYSTEM: set<string> := {"/usr/lib/libSystem.B.dylib"}

  const MAC_MEDIA: set<string> := {
    "/System/Library/Frameworks/AudioToolbox.framework/Versions/A/AudioToolbox",
    "/System/Library/Frameworks/VideoToolbox.framework/Versions/A/VideoToolbox",
    "/System/Library/Frameworks/CoreVideo.framework/Versions/A/CoreVideo",
    "/System/Library/Frameworks/CoreMedia.framework/Versions/A/CoreMedia",
    "/System/Library/Frameworks/CoreFoundation.framework/Versions/A/CoreFoundation",
    "/System/Library/Frameworks/AVFoundation.framework/Versions/A/AVFoundation",
    "/System/Library/Frameworks/Foundation.framework/Versions/C/Foundation",
    "/usr/lib/libobjc.A.dylib"}

  function LowerChar(c: char): char { if 'A' <= c <= 'Z' then c - 'A' + 'a' else c }

  /** `str.lower` on ASCII names. */
  function Lower(s: string): string { seq(|s|, i requires 0 <= i < |s| => LowerChar(s[i])) }

  /** Directory `i` has the leaf and none before it does. */
  predicate FirstAt(existing: set<string>, search: seq<string>, leaf: string, i: int) {
    && 0 <= i < |search| && search[i] + "/" + leaf in existing
    && forall j :: 0 <= j < i ==> search[j] + "/" + leaf !in existing
  }

  /** Two letters that differ in case at most. */
  predicate SameLetter(a: char, b: char) {
    a == b || ('A' <= a <= 'Z' && b as int == a as int + 32) || ('A' <= b <= 'Z' && a as int == b as int + 32)
  }

  /** Lower-casing makes equal exactly the names that differ in the case of letters at most. */
  lemma LowerEquates(s: string, t: string)
    ensures Lower(s) == Lower(t) <==> |s| == |t| && forall i :: 0 <= i < |s| ==> SameLetter(s[i], t[i])
    ensures forall c :: c in Lower(s) ==> !('A' <= c <= 'Z')
  {
    assert forall i :: 0 <= i < |s| ==> Lower(s)[i] == LowerChar(s[i]);
    assert forall i :: 0 <= i < |t| ==> Lower(t)[i] == LowerChar(t[i]);
  }

  /** The first search directory that has the leaf. */
  function Find(existing: set<string>, search: seq<string>, leaf: string): (r: Option<string>)
    ensures r.None? <==> forall i :: 0 <= i < |search| ==> search[i] + "/" + leaf !in existing
    ensures r.Some? ==> exists i :: FirstAt(existing, search, leaf, i) && r.value == search[i] + "/" + leaf
  {
    if search == [] then None
    else if search[0] + "/" + leaf in existing then
      assert FirstAt(existing, search, leaf, 0);
      Some(search[0] + "/" + leaf)
    else
      var r := Find(existing, search[1..], leaf);
      assert r.Some? ==> exists i :: FirstAt(existing, search, leaf, i) && r.value == search[i] + "/" + leaf by {
        if r.Some? {
          var i :| FirstAt(existing, search[1..], leaf, i) && r.value == search[1..][i] + "/" + leaf;
          assert forall j :: 1 <= j <= i + 1 ==> search[j] == search[1..][j - 1];
          assert FirstAt(existing, search, leaf, i + 1);
        }
      }
      r
  }

  predicate Relocatable(name: string) { "@rpath/" <= name || "@loader_path/" <= name || "@executable_path/" <= name }

  lemma RelocatableNames(name: string)
    ensures Relocatable(name) <==>
              exists rest :: name in {"@rpath/" + rest, "@loader_path/" + rest, "@executable_path/" + rest}
  {
    if "@rpath/" <= name { assert name == "@rpath/" + name[|"@rpath/"|..]; }
    if "@loader_path/" <= name { assert name == "@loader_path/" + name[|"@loader_path/"|..]; }
    if "@executable_path/" <= name { assert name == "@executable_path/" + name[|"@executable_path/"|..]; }
  }

  /** How the audit treats one name loaded by one binary. */
  function Classify(h: Host, binary: string, name: string): Finding {
    match h
    case MacOS(_, existing, resolve, search, allowed) =>
      if name == "" || name in MAC_SYSTEM then Fine
      else if LeafName(binary) == "libcrtmedia.dylib" && name in MAC_MEDIA then Known
      else if Relocatable(name) then
        var found := Find(existing, search, LeafName(name));
        if found.None? then Bad(NotFound) else Follow(resolve(found.value))
      else if exists i :: 0 <= i < |allowed| && Under(allowed[i], resolve(name)) then Follow(resolve(name))
      else Bad(HostLibrary)
    case Windows(_, existing, resolve, search, system, media) =>
      var lowered := Lower(name);
      var found := Find(existing, search, name);
      if found.Some? then Follow(resolve(found.value))
      else if Lower(LeafName(binary)) == "libcrtmedia.dll" && lowered in media then Known
      else if lowered in system || ("api-ms-win-" <= lowered && !("api-ms-win-crt-" <= lowered)) then Fine
      else Bad(HostLibrary)
  }

  // ---------------------------------------------------------------- the declarative side

  /** Some search directory of the CRT SDK, the ICU or the build tree has the leaf. */
  predicate Provided(h: Host, leaf: string) {
    exists i :: 0 <= i < |h.search| && h.search[i] + "/" + leaf in h.existing
  }

  /** A name the firewall lets a binary load. */
  predicate Allowed(h: Host, binary: string, name: string) {
    match h
    case MacOS(_, _, resolve, _, allowed) =>
      || name == "" || name == "/usr/lib/libSystem.B.dylib"
      || (LeafName(binary) == "libcrtmedia.dylib" && name in MAC_MEDIA)
      || (Relocatable(name) && Provided(h, LeafName(name)))
      || (!Relocatable(name) && exists i :: 0 <= i < |allowed| && Under(allowed[i], resolve(name)))
    case Windows(_, _, _, _, system, media) =>
      || Provided(h, name)
      || Lower(name) in system
      || ("api-ms-win-" <= Lower(name) && !("api-ms-win-crt-" <= Lower(name)))
      || (Lower(LeafName(binary)) == "libcrtmedia.dll" && Lower(name) in media)
  }

  /** What is said of a name that is not allowed. */
  function KindOf(h: Host, name: string): Kind { if h.MacOS? && Relocatable(name) then NotFound else HostLibrary }

  lemma ClassifyIsExact(h: Host, binary: string, name: string)
    ensures Classify(h, binary, name).Bad? <==> !Allowed(h, binary, name)
    ensures Classify(h, binary, name).Bad? ==> Classify(h, binary, name).kind == KindOf(h, name)
  {
    hide LeafName, Lower, Under, FirstAt;
  }

  /** The library a binary loads under a name, where the audit goes on to look at it. */
  ghost predicate Loads(h: Host, binary: string, name: string, image: string) {
    match h
    case MacOS(_, existing, resolve, search, allowed) =>
      && name != "" && name != "/usr/lib/libSystem.B.dylib"
      && !(LeafName(binary) == "libcrtmedia.dylib" && name in MAC_MEDIA)
      && (if Relocatable(name)
          then exists i :: FirstAt(existing, search, LeafName(name), i)
                           && image == resolve(search[i] + "/" + LeafName(name))
          else image == resolve(name) && exists i :: 0 <= i < |allowed| && Under(allowed[i], image))
    case Windows(_, existing, resolve, search, _, _) =>
      exists i :: FirstAt(existing, search, name, i) && image == resolve(search[i] + "/" + name)
  }

  lemma FirstIsOne(existing: set<string>, search: seq<string>, leaf: string, i: int)
    requires FirstAt(existing, search, leaf, i)
    ensures Find(existing, search, leaf) == Some(search[i] + "/" + leaf)
  {
    var r := Find(existing, search, leaf);
    assert r.Some?;
    var k :| FirstAt(existing, search, leaf, k) && r.value == search[k] + "/" + leaf;
    assert i == k;
  }

  /** A name is followed exactly to the library the binary loads under it. */
  lemma FollowIsLoads(h: Host, binary: string, name: string, image: string)
    ensures Classify(h, binary, name) == Follow(image) <==> Loads(h, binary, name, image)
  {
    hide LeafName, Lower, Under, Find;
    if Loads(h, binary, name, image) {
      match h
      case MacOS(_, existing, _, search, _) =>
        if Relocatable(name) {
          var i :| FirstAt(existing, search, LeafName(name), i) && image == h.resolve(search[i] + "/" + LeafName(name));
          FirstIsOne(existing, search, LeafName(name), i);
        }
      case Windows(_, existing, _, search, _, _) =>
        var i :| FirstAt(existing, search, name, i) && image == h.resolve(search[i] + "/" + name);
        FirstIsOne(existing, search, name, i);
    }
  }

  /** One image loads another under some name. */
  ghost predicate Edge(h: Host, a: string, b: string) {
    exists i :: 0 <= i < |Names(h, a)| && Loads(h, a, Names(h, a)[i], b)
  }

  ghost predicate IsPath(h: Host, p: seq<string>) {
    |p| > 0 && forall i :: 0 <= i < |p| - 1 ==> Edge(h, p[i], p[i + 1])
  }

  /** A chain of loaded libraries leads from one of the roots to the image. */
  ghost predicate Reachable(h: Host, roots: seq<string>, image: string) {
    exists p :: IsPath(h, p) && p[0] in roots && p[|p| - 1] == image
  }

  lemma ReachableStep(h: Host, roots: seq<string>, a: string, b: string)
    requires Reachable(h, roots, a) && Edge(h, a, b)
    ensures Reachable(h, roots, b)
  {
    hide Edge;
    var p :| IsPath(h, p) && p[0] in roots && p[|p| - 1] == a;
    var q := p + [b];
    forall i | 0 <= i < |q| - 1 ensures Edge(h, q[i], q[i + 1]) {
      if i < |p| - 1 { assert Edge(h, p[i], p[i + 1]); }
    }
    assert IsPath(h, q) && q[0] in roots && q[|q| - 1] == b;
  }

  lemma ReachableRoot(h: Host, roots: seq<string>, image: string)
    requires image in roots
    ensures Reachable(h, roots, image)
  {
    assert IsPath(h, [image]);
  }

  ghost predicate Closed(h: Host, s: set<string>) { forall a, b :: a in s && Edge(h, a, b) ==> b in s }

  lemma {:induction false} ClosedHoldsPath(h: Host, s: set<string>, p: seq<string>)
    requires Closed(h, s) && IsPath(h, p) && p[0] in s
    ensures p[|p| - 1] in s
  {
    if |p| > 1 {
      hide Edge;
      assert Edge(h, p[0], p[1]);
      var q := p[1..];
      assert forall i :: 0 <= i < |q| - 1 ==> Edge(h, p[i + 1], p[i + 2]) ==> Edge(h, q[i], q[i + 1]);
      ClosedHoldsPath(h, s, q);
    }
  }

  lemma ClosedHoldsReachable(h: Host, roots: seq<string>, s: set<string>)
    requires Closed(h, s) && forall r :: r in roots ==> r in s
    ensures forall image :: Reachable(h, roots, image) ==> image in s
  {
    forall image | Reachable(h, roots, image) ensures image in s {
      var p :| IsPath(h, p) && p[0] in roots && p[|p| - 1] == image;
      ClosedHoldsPath(h, s, p);
    }
  }

  // ---------------------------------------------------------------- one image

  /** The libraries one image makes the search follow. */
  function Follows(h: Host, binary: string, names: seq<string>): seq<string> {
    if names == [] then [] else
    var last := |names| - 1;
    var f := Classify(h, binary, names[last]);
    Follows(h, binary, names[..last]) + (if f.Follow? then [f.image] else [])
  }

  function ViolationsOf(h: Host, binary: string, names: seq<string>): seq<Violation> {
    if names == [] then [] else
    var last := |names| - 1;
    var f := Classify(h, binary, names[last]);
    ViolationsOf(h, binary, names[..last]) + (if f.Bad? then [Violation(LeafName(binary), names[last], f.kind)] else [])
  }

  lemma {:induction false} FollowsAre(h: Host, binary: string, names: seq<string>)
    ensures forall x :: x in Follows(h, binary, names) <==>
              exists i :: 0 <= i < |names| && Classify(h, binary, names[i]) == Follow(x)
  {
    hide Classify;
    if names != [] {
      var last := |names| - 1;
      FollowsAre(h, binary, names[..last]);
      forall x ensures x in Follows(h, binary, names) <==>
                         exists i :: 0 <= i < |names| && Classify(h, binary, names[i]) == Follow(x) {
        if x in Follows(h, binary, names[..last]) {
          var i :| 0 <= i < last && Classify(h, binary, names[..last][i]) == Follow(x);
          assert names[i] == names[..last][i];
        }
        if i :| 0 <= i < |names| && Classify(h, binary, names[i]) == Follow(x) {
          if i < last { assert names[..last][i] == names[i]; }
        }
      }
    }
  }

  lemma {:induction false} NoViolations(h: Host, binary: string, names: seq<string>)
    ensures ViolationsOf(h, binary, names) == [] <==> forall i :: 0 <= i < |names| ==> Allowed(h, binary, names[i])
  {
    hide Classify, Allowed, LeafName;
    if names != [] {
      var last := |names| - 1;
      NoViolations(h, binary, names[..last]);
      ClassifyIsExact(h, binary, names[last]);
      assert forall i :: 0 <= i < last ==> names[..last][i] == names[i];
    }
  }

  /** What is reported of one image: each name it may not load, with the reason. */
  lemma {:induction false} ViolationsAre(h: Host, binary: string, names: seq<string>, v: Violation)
    ensures v in ViolationsOf(h, binary, names) <==>
              exists n :: n in names && !Allowed(h, binary, n) && v == Violation(LeafName(binary), n, KindOf(h, n))
  {
    hide Classify, Allowed, LeafName, KindOf;
    if names != [] {
      var last := |names| - 1;
      ViolationsAre(h, binary, names[..last], v);
      ClassifyIsExact(h, binary, names[last]);
      assert names == names[..last] + [names[last]];
    }
  }

  /** Everything reported for the images visited, in order. */
  function Report(h: Host, visited: seq<string>): seq<Violation> {
    if visited == [] then [] else
    var last := |visited| - 1;
    Report(h, visited[..last]) + ViolationsOf(h, visited[last], Names(h, visited[last]))
  }

  lemma {:induction false} ReportEmpty(h: Host, visited: seq<string>)
    ensures Report(h, visited) == [] <==>
              forall b, n :: b in visited && n in Names(h, b) ==> Allowed(h, b, n)
  {
    hide Allowed, ViolationsOf, Names;
    if visited != [] {
      var last := |visited| - 1;
      ReportEmpty(h, visited[..last]);
      NoViolations(h, visited[last], Names(h, visited[last]));
      assert visited == visited[..last] + [visited[last]];
    }
  }

  lemma {:induction false} ReportIs(h: Host, visited: seq<string>, v: Violation)
    ensures v in Report(h, visited) <==> exists b :: b in visited && Reports(h, b, v)
  {
    hide Allowed, ViolationsOf, Names, LeafName, KindOf, Reports;
    if visited != [] {
      var last := |visited| - 1;
      ReportIs(h, visited[..last], v);
      ReportsAre(h, visited[last], v);
      assert visited == visited[..last] + [visited[last]];
    }
  }

  /** Image `b` loads, under some name, a library it may not. */
  predicate Reports(h: Host, b: string, v: Violation) {
    exists n :: n in Names(h, b) && !Allowed(h, b, n) && v == Violation(LeafName(b), n, KindOf(h, n))
  }

  lemma ReportsAre(h: Host, b: string, v: Violation)
    ensures v in ViolationsOf(h, b, Names(h, b)) <==> Reports(h, b, v)
  {
    hide Allowed, ViolationsOf, Names, LeafName, KindOf;
    ViolationsAre(h, b, Names(h, b), v);
  }

  /** Every image the search can ever meet. */
  function Universe(h: Host, roots: seq<string>): set<string> {
    (set r | r in roots) +
    (set b, i | b in h.listing.Keys && 0 <= i < |h.listing[b]| && Classify(h, b, h.listing[b][i]).Follow? ::
       Classify(h, b, h.listing[b][i]).image)
  }

  lemma EdgeInUniverse(h: Host, roots: seq<string>, a: string, b: string)
    requires Edge(h, a, b)
    ensures b in Universe(h, roots)
  {
    hide Classify, Loads;
    var i :| 0 <= i < |Names(h, a)| && Loads(h, a, Names(h, a)[i], b);
    FollowIsLoads(h, a, Names(h, a)[i], b);
    assert h.listing[a][i] == Names(h, a)[i];
  }

  predicate Distinct(s: seq<string>) { forall i, j :: 0 <= i < j < |s| ==> s[i] != s[j] }

  /** The names of one image: libraries to follow join the worklist, the rest is judged at once. */
  method Inspect(h: Host, binary: string, pending0: seq<string>, violations0: seq<Violation>)
    returns (pending: seq<string>, violations: seq<Violation>)
    ensures pending == pending0 + Follows(h, binary, Names(h, binary))
    ensures violations == violations0 + ViolationsOf(h, binary, Names(h, binary))
  {
    hide Classify, LeafName;
    pending, violations := pending0, violations0;
    var names := Names(h, binary);
    for i := 0 to |names|
      invariant pending == pending0 + Follows(h, binary, names[..i])
      invariant violations == violations0 + ViolationsOf(h, binary, names[..i])
    {
      assert names[..i + 1][..i] == names[..i];
      match Classify(h, binary, names[i])
      case Follow(image) => pending := pending + [image];
      case Bad(kind) => violations := violations + [Violation(LeafName(binary), names[i], kind)];
      case _ =>
    }
    assert names[..|names|] == names;
  }

  /**
   The audit: it terminates on every finite graph, cyclic or not, inspects every reachable image
   once and no other, and passes exactly when all they load is allowed.
   */
  method Audit(h: Host, binaries: seq<string>)
    returns (ok: bool, violations: seq<Violation>, ghost visited: seq<string>)
    ensures Distinct(visited) && forall b :: b in visited <==> Reachable(h, binaries, b)
    ensures violations == Report(h, visited) && (ok <==> violations == [])
    ensures ok <==> forall b, n :: Reachable(h, binaries, b) && n in Names(h, b) ==> Allowed(h, b, n)
    ensures forall v :: v in violations <==> exists b :: Reachable(h, binaries, b) && Reports(h, b, v)
  {
    var pending, seen: set<string> := binaries, {};
    violations, visited := [], [];
    hide Classify, Allowed, LeafName, Edge, Reachable, Names, Follows, ViolationsOf, Universe, Reports;
    forall r | r in binaries ensures Reachable(h, binaries, r) && r in Universe(h, binaries) {
      RootInUniverse(h, binaries, r);
      ReachableRoot(h, binaries, r);
    }
    while pending != []
      invariant Distinct(visited) && (forall b :: b in seen <==> b in visited)
      invariant forall b :: b in pending || b in seen ==> b in Universe(h, binaries) && Reachable(h, binaries, b)
      invariant forall r :: r in binaries ==> r in seen || r in pending
      invariant forall a, b :: a in seen && Edge(h, a, b) ==> b in seen || b in pending
      invariant violations == Report(h, visited)
      decreases Universe(h, binaries) - seen, |pending|
    {
      var binary := pending[|pending| - 1];
      ghost var before := pending;
      pending := pending[..|pending| - 1];
      assert before == pending + [binary];
      if binary in seen { continue; }
      seen := seen + {binary};
      ghost var rest := pending;
      pending, violations := Inspect(h, binary, pending, violations);
      FollowedEdges(h, binaries, binary);
      visited := visited + [binary];
      assert visited[..|visited| - 1] + [binary] == visited;
    }
    assert Closed(h, seen);
    ClosedHoldsReachable(h, binaries, seen);
    ReportEmpty(h, visited);
    forall v ensures v in violations <==> exists b :: b in visited && Reports(h, b, v) { ReportIs(h, visited, v); }
    hide Reports;
    ok := violations == [];
  }

  lemma RootInUniverse(h: Host, roots: seq<string>, r: string)
    requires r in roots
    ensures r in Universe(h, roots)
  {
    hide Classify;
  }

  lemma FollowsEdges(h: Host, binary: string)
    ensures forall b :: Edge(h, binary, b) <==>
              exists i :: 0 <= i < |Names(h, binary)| && Classify(h, binary, Names(h, binary)[i]) == Follow(b)
  {
    hide Classify, Loads, Names;
    forall i, b | 0 <= i < |Names(h, binary)|
      ensures Classify(h, binary, Names(h, binary)[i]) == Follow(b) <==> Loads(h, binary, Names(h, binary)[i], b)
    {
      FollowIsLoads(h, binary, Names(h, binary)[i], b);
    }
  }

  lemma FollowedEdges(h: Host, roots: seq<string>, binary: string)
    requires Reachable(h, roots, binary)
    ensures forall b :: b in Follows(h, binary, Names(h, binary)) <==> Edge(h, binary, b)
    ensures forall b :: Edge(h, binary, b) ==> Reachable(h, roots, b) && b in Universe(h, roots)
  {
    FollowsAre(h, binary, Names(h, binary));
    FollowsEdges(h, binary);
    forall b | Edge(h, binary, b) ensures Reachable(h, roots, b) && b in Universe(h, roots) {
      ReachableStep(h, roots, binary, b);
      EdgeInUniverse(h, roots, binary, b);
    }
    hide Classify, Names, Reachable, Universe, Follows;
  }

  // ---------------------------------------------------------------- order

  function Reported(h: Host, b: string): multiset<Violation> { multiset(ViolationsOf(h, b, Names(h, b))) }

  lemma ReportSnoc(h: Host, visited: seq<string>, b: string)
    ensures Report(h, visited + [b]) == Report(h, visited) + ViolationsOf(h, b, Names(h, b))
  {
    hide ViolationsOf, Names;
    assert (visited + [b])[..|visited|] == visited;
  }

  lemma SpliceBeforeLast(s: seq<string>, k: nat)
    requires k < |s| - 1
    ensures var last := |s| - 1;
            && s[..last][..k] == s[..k] && s[..last][k] == s[k]
            && s[..k] + s[k + 1..] == s[..k] + s[..last][k + 1..] + [s[last]]
  {}

  /** Taking one visited image out removes exactly its own violations. */
  lemma {:induction false} ReportWithout(h: Host, visited: seq<string>, k: nat)
    requires k < |visited|
    ensures multiset(Report(h, visited))
        == multiset(Report(h, visited[..k] + visited[k + 1..])) + Reported(h, visited[k])
  {
    hide ViolationsOf, Names;
    var last := |visited| - 1;
    if k == last {
      assert visited[..k] + visited[k + 1..] == visited[..last];
    } else {
      ReportWithout(h, visited[..last], k);
      var short := visited[..k] + visited[..last][k + 1..];
      SpliceBeforeLast(visited, k);
      ReportSnoc(h, short, visited[last]);
    }
  }

  lemma SameWithout(front: seq<string>, last: string, w: seq<string>, k: nat, rest: seq<string>)
    requires Distinct(front + [last]) && Distinct(w) && (forall b :: b in front + [last] <==> b in w)
    requires k < |w| && w[k] == last && rest == w[..k] + w[k + 1..]
    ensures Distinct(rest) && forall b :: b in front <==> b in rest
  {
    forall b ensures b in rest <==> b in w && b != last {
      if b in w && b != last {
        var i :| 0 <= i < |w| && w[i] == b;
        assert rest[if i < k then i else i - 1] == b;
      }
    }
    forall b ensures b in front <==> b in front + [last] && b != last {
      if b in front {
        var i :| 0 <= i < |front| && front[i] == b;
        assert (front + [last])[i] == b && (front + [last])[|front|] == last;
      }
    }
  }

  lemma HasMember(w: seq<string>)
    ensures w == [] || exists b :: b in w
  {
    if w != [] { assert w[0] in w; }
  }

  /** The same images visited in another order give the same violations, each as often. */
  lemma {:induction false} ReportOrderIrrelevant(h: Host, v: seq<string>, w: seq<string>)
    requires Distinct(v) && Distinct(w) && forall b :: b in v <==> b in w
    ensures multiset(Report(h, v)) == multiset(Report(h, w))
    decreases |v|
  {
    hide ViolationsOf, Names;
    if v == [] {
      HasMember(w);
    } else {
      var last := |v| - 1;
      assert v[last] in w;
      var k :| 0 <= k < |w| && w[k] == v[last];
      var rest := w[..k] + w[k + 1..];
      assert v == v[..last] + [v[last]];
      SameWithout(v[..last], v[last], w, k, rest);
      ReportWithout(h, w, k);
      ReportOrderIrrelevant(h, v[..last], rest);
    }
  }

  /** The verdict and its violations do not depend on the order or repetition of the roots. */
  lemma RootOrderIrrelevant(h: Host, roots: seq<string>, other: seq<string>, v: seq<string>, w: seq<string>)
    requires forall r :: r in roots <==> r in other
    requires Distinct(v) && forall b :: b in v <==> Reachable(h, roots, b)
    requires Distinct(w) && forall b :: b in w <==> Reachable(h, other, b)
    ensures multiset(Report(h, v)) == multiset(Report(h, w))
  {
    assert forall b :: Reachable(h, roots, b) <==> Reachable(h, other, b);
    ReportOrderIrrelevant(h, v, w);
  }
}
