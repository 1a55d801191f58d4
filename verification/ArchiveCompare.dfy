/** The comparison of two source-stage archives and the category it reports. */
module ArchiveCompare {
  import opened Wrappers
  import opened Ordering
  import opened Json
  import opened SourceArchive
  import DeclarationDiff

  type Entries = map<string, Entry>

  /** What reading an archive yields. */
  datatype Archive = Archive(archiveSha: string, tarSha: string, entries: Entries, order: seq<string>,
                             declarations: map<string, Json>)

  datatype ContentChange =
    | Added(path: string, right: Entry)
    | Removed(path: string, left: Entry)
    | Modified(path: string, fields: seq<string>, left: Entry, right: Entry)

  datatype ModeChange = ModeChange(path: string, left: int, right: int)

  datatype MetaChange = MetaChange(path: string, fields: seq<string>, left: Meta, right: Meta)

  datatype DeclarationChange = DeclarationChange(path: string, fields: seq<DeclarationDiff.Change>)

  datatype Category = Identical | CompressionOnly | PayloadDifference | PermissionDifference | TarContainerOnly

  datatype Report = Report(category: Category, content: seq<ContentChange>, permissions: seq<ModeChange>,
                           metadata: seq<MetaChange>, declarations: seq<DeclarationChange>, sameOrder: bool)

  // ---------------------------------------------------------------- canonical summaries

  datatype PayloadItem = PayloadItem(path: string, kind: Kind, size: nat, sha: Option<string>)

  datatype PortableItem = PortableItem(item: PayloadItem, mode: int)

  /** The payload of an archive: every member's type, size and digest, by path. */
  function Payload(e: Entries): seq<PayloadItem> { PayloadOf(e, Sorted(e.Keys)) }

  function PayloadOf(e: Entries, keys: seq<string>): (r: seq<PayloadItem>)
    requires forall k :: k in keys ==> k in e
    ensures |r| == |keys|
    ensures forall i :: 0 <= i < |r| ==> r[i] == PayloadItem(keys[i], e[keys[i]].kind, e[keys[i]].size, e[keys[i]].sha)
  {
    seq(|keys|, i requires 0 <= i < |keys| =>
      assert keys[i] in keys; PayloadItem(keys[i], e[keys[i]].kind, e[keys[i]].size, e[keys[i]].sha))
  }

  /** The portable members: the payload with each member's mode. */
  function Portable(e: Entries): seq<PortableItem> { PortableOf(e, Sorted(e.Keys)) }

  function PortableOf(e: Entries, keys: seq<string>): (r: seq<PortableItem>)
    requires forall k :: k in keys ==> k in e
    ensures |r| == |keys|
    ensures forall i :: 0 <= i < |r| ==> r[i] == PortableItem(PayloadOf(e, keys)[i], e[keys[i]].mode)
  {
    seq(|keys|, i requires 0 <= i < |keys| => assert keys[i] in keys; PortableItem(PayloadOf(e, keys)[i],
        e[keys[i]].mode))
  }

  predicate SamePayloadAt(a: Entry, b: Entry) { a.kind == b.kind && a.size == b.size && a.sha == b.sha }

  ghost predicate SamePayload(l: Entries, r: Entries) {
    l.Keys == r.Keys && forall k :: k in l ==> SamePayloadAt(l[k], r[k])
  }

  lemma PayloadEqual(l: Entries, r: Entries)
    ensures Payload(l) == Payload(r) <==> SamePayload(l, r)
  {
    var kl, kr := Sorted(l.Keys), Sorted(r.Keys);
    assert (forall k :: k in kl <==> k in l) && (forall k :: k in kr <==> k in r);
    assert l.Keys == r.Keys ==> kl == kr;
    if kl == kr { SortedInjective(l.Keys, r.Keys); }
    hide Sorted, PayloadOf;
    PayloadOfEqual(l, kl, r, kr);
  }

  lemma PayloadOfEqual(l: Entries, kl: seq<string>, r: Entries, kr: seq<string>)
    requires (forall k :: k in kl ==> k in l) && forall k :: k in kr ==> k in r
    ensures PayloadOf(l, kl) == PayloadOf(r, kr) <==> kl == kr && forall k :: k in kl ==> SamePayloadAt(l[k], r[k])
  {
    var pl, pr := PayloadOf(l, kl), PayloadOf(r, kr);
    if pl == pr {
      assert forall i :: 0 <= i < |kl| ==> kl[i] == pl[i].path && kr[i] == pr[i].path;
      assert kl == kr;
      forall k | k in kl ensures SamePayloadAt(l[k], r[k]) {
        var i :| 0 <= i < |kl| && kl[i] == k;
        assert pl[i] == pr[i];
      }
    }
    if kl == kr && forall k :: k in kl ==> SamePayloadAt(l[k], r[k]) {
      forall i | 0 <= i < |kl| ensures pl[i] == pr[i] {
        assert kl[i] in kl;
      }
    }
  }

  lemma PortableEqual(l: Entries, r: Entries)
    ensures Portable(l) == Portable(r) <==> SamePayload(l, r) && forall k :: k in l ==> l[k].mode == r[k].mode
  {
    var kl, kr := Sorted(l.Keys), Sorted(r.Keys);
    PayloadEqual(l, r);
    assert (forall k :: k in kl <==> k in l) && (forall k :: k in kr <==> k in r);
    assert l.Keys == r.Keys ==> kl == kr;
    hide Sorted, PayloadOf, PortableOf;
    PayloadOfEqual(l, kl, r, kr);
    PortableOfEqual(l, kl, r, kr);
  }

  lemma PortableOfEqual(l: Entries, kl: seq<string>, r: Entries, kr: seq<string>)
    requires (forall k :: k in kl ==> k in l) && forall k :: k in kr ==> k in r
    ensures PortableOf(l, kl) == PortableOf(r, kr) <==>
              PayloadOf(l, kl) == PayloadOf(r, kr) && kl == kr && forall k :: k in kl ==> l[k].mode == r[k].mode
  {
    var pl, pr := PortableOf(l, kl), PortableOf(r, kr);
    PayloadOfEqual(l, kl, r, kr);
    hide PortableOf;
    if pl == pr {
      assert forall i :: 0 <= i < |kl| ==> PayloadOf(l, kl)[i] == pl[i].item && PayloadOf(r, kr)[i] == pr[i].item;
      assert PayloadOf(l, kl) == PayloadOf(r, kr);
      forall k | k in kl ensures l[k].mode == r[k].mode {
        var i :| 0 <= i < |kl| && kl[i] == k;
        assert pl[i] == pr[i];
      }
    }
    if PayloadOf(l, kl) == PayloadOf(r, kr) && kl == kr && forall k :: k in kl ==> l[k].mode == r[k].mode {
      forall i | 0 <= i < |kl| ensures pl[i] == pr[i] { assert kl[i] in kl; }
    }
  }

  // ---------------------------------------------------------------- the pairwise lists

  function PayloadFields(a: Entry, b: Entry): (r: seq<string>)
    ensures r == [] <==> SamePayloadAt(a, b)
  {
    (if a.kind != b.kind then ["type"] else []) + (if a.size != b.size then ["size"] else [])
    + (if a.sha != b.sha then ["sha256"] else [])
  }

  function MetaFields(a: Meta, b: Meta): (r: seq<string>)
    ensures r == [] <==> a == b
  {
    (if a.uid != b.uid then ["uid"] else []) + (if a.gid != b.gid then ["gid"] else [])
    + (if a.uname != b.uname then ["uname"] else []) + (if a.gname != b.gname then ["gname"] else [])
    + (if a.mtime != b.mtime then ["mtime"] else []) + (if a.pax != b.pax then ["pax_headers"] else [])
  }

  function ContentAt(l: Entries, r: Entries, name: string): seq<ContentChange>
    requires name in l || name in r
  {
    if name !in l then [Added(name, r[name])]
    else if name !in r then [Removed(name, l[name])]
    else if PayloadFields(l[name], r[name]) != [] then
      [Modified(name, PayloadFields(l[name], r[name]), l[name], r[name])]
    else []
  }

  function ModeAt(l: Entries, r: Entries, name: string): seq<ModeChange> {
    if name in l && name in r
        && l[name].mode != r[name].mode then [ModeChange(name, l[name].mode, r[name].mode)] else []
  }

  function MetaAt(l: Entries, r: Entries, name: string): seq<MetaChange> {
    if name in l && name in r && MetaFields(l[name].meta, r[name].meta) != [] then
      [MetaChange(name, MetaFields(l[name].meta, r[name].meta), l[name].meta, r[name].meta)]
    else []
  }

  function Held(d: map<string, Json>, name: string): Json { if name in d then d[name] else JNull }

  function DeclarationAt(l: map<string, Json>, r: map<string, Json>, name: string): seq<DeclarationChange> {
    var changes := DeclarationDiff.Changes(Held(l, name), Held(r, name), "");
    if changes != [] then [DeclarationChange(name, changes)] else []
  }

  /** One list per name, joined. */
  function Gather<T>(names: seq<string>, f: string --> seq<T>): seq<T>
    requires forall k :: k in names ==> f.requires(k)
  {
    if names == [] then [] else
    var last := |names| - 1;
    assert names[last] in names;
    Gather(names[..last], f) + f(names[last])
  }

  lemma {:induction false} GatherEmpty<T>(names: seq<string>, f: string --> seq<T>)
    requires forall k :: k in names ==> f.requires(k)
    ensures Gather(names, f) == [] <==> forall k :: k in names ==> f(k) == []
  {
    if names != [] {
      var last := |names| - 1;
      assert names == names[..last] + [names[last]];
      GatherEmpty(names[..last], f);
    }
  }

  function Content(l: Entries, r: Entries, names: seq<string>): seq<ContentChange>
    requires forall k :: k in names ==> k in l || k in r
  {
    Gather(names, k requires k in l || k in r => ContentAt(l, r, k))
  }

  function Permissions(l: Entries, r: Entries, names: seq<string>): seq<ModeChange> {
    Gather(names, k => ModeAt(l, r, k))
  }

  function Metadata(l: Entries, r: Entries, names: seq<string>): seq<MetaChange> {
    Gather(names, k => MetaAt(l, r, k))
  }

  function Declarations(l: map<string, Json>, r: map<string, Json>, names: seq<string>): seq<DeclarationChange> {
    Gather(names, k => DeclarationAt(l, r, k))
  }

  function CategoryOf(exact: bool, tarEqual: bool, content: seq<ContentChange>,
                      permissions: seq<ModeChange>): Category {
    if exact then Identical
    else if tarEqual then CompressionOnly
    else if content != [] then PayloadDifference
    else if permissions != [] then PermissionDifference
    else TarContainerOnly
  }

  function ReportOf(l: Archive, r: Archive): Report {
    var names := Sorted(l.entries.Keys + r.entries.Keys);
    var content, permissions := Content(l.entries, r.entries, names), Permissions(l.entries, r.entries, names);
    Report(CategoryOf(l.archiveSha == r.archiveSha, l.tarSha == r.tarSha, content, permissions),
           content, permissions, Metadata(l.entries, r.entries, names),
           Declarations(l.declarations, r.declarations, Sorted(l.declarations.Keys + r.declarations.Keys)),
           l.order == r.order)
  }

  lemma GatherSnoc<T>(names: seq<string>, i: nat, f: string --> seq<T>)
    requires i < |names| && forall k :: k in names ==> f.requires(k)
    ensures Gather(names[..i + 1], f) == Gather(names[..i], f) + f(names[i])
  {
    assert names[..i + 1][..i] == names[..i];
  }

  /** `compare`: one pass over the members of both archives, one over their declarations. */
  method Compare(l: Archive, r: Archive) returns (report: Report)
    ensures report == ReportOf(l, r)
  {
    var names := Sorted(l.entries.Keys + r.entries.Keys);
    var declared := Sorted(l.declarations.Keys + r.declarations.Keys);
    assert (forall k :: k in names ==> k in l.entries || k in r.entries);
    var content, permissions, metadata := CompareEntries(l.entries, r.entries, names);
    var declarations := CompareDeclarations(l.declarations, r.declarations, declared);
    report := Report(CategoryOf(l.archiveSha == r.archiveSha, l.tarSha == r.tarSha, content, permissions),
                     content, permissions, metadata, declarations, l.order == r.order);
  }

  method CompareEntries(l: Entries, r: Entries, names: seq<string>)
    returns (content: seq<ContentChange>, permissions: seq<ModeChange>, metadata: seq<MetaChange>)
    requires forall k :: k in names ==> k in l || k in r
    ensures content == Content(l, r, names) && permissions == Permissions(l, r, names)
        && metadata == Metadata(l, r, names)
  {
    content, permissions, metadata := [], [], [];
    hide PayloadFields, MetaFields;
    for i := 0 to |names|
      invariant content == Content(l, r, names[..i])
      invariant permissions == Permissions(l, r, names[..i]) && metadata == Metadata(l, r, names[..i])
    {
      var name := names[i];
      GatherSnoc(names, i, k requires k in l || k in r => ContentAt(l, r, k));
      GatherSnoc(names, i, k => ModeAt(l, r, k));
      GatherSnoc(names, i, k => MetaAt(l, r, k));
      if name !in l || name !in r {
        content := content + [if name !in l then Added(name, r[name]) else Removed(name, l[name])];
        continue;
      }
      var a, b := l[name], r[name];
      var fields := PayloadFields(a, b);
      if fields != [] { content := content + [Modified(name, fields, a, b)]; }
      if a.mode != b.mode { permissions := permissions + [ModeChange(name, a.mode, b.mode)]; }
      fields := MetaFields(a.meta, b.meta);
      if fields != [] { metadata := metadata + [MetaChange(name, fields, a.meta, b.meta)]; }
    }
    assert names[..|names|] == names;
  }

  method CompareDeclarations(l: map<string, Json>, r: map<string, Json>, names: seq<string>)
    returns (declarations: seq<DeclarationChange>)
    ensures declarations == Declarations(l, r, names)
  {
    declarations := [];
    for i := 0 to |names|
      invariant declarations == Declarations(l, r, names[..i])
    {
      GatherSnoc(names, i, k => DeclarationAt(l, r, k));
      var changes := DeclarationDiff.Changes(Held(l, names[i]), Held(r, names[i]), "");
      if changes != [] { declarations := declarations + [DeclarationChange(names[i], changes)]; }
    }
    assert names[..|names|] == names;
  }

  // ---------------------------------------------------------------- agreement

  /** The pairwise lists are empty exactly when the canonical summaries agree. */
  lemma ListsAgreeWithSummaries(l: Entries, r: Entries)
    ensures var names := Sorted(l.Keys + r.Keys);
            && (Content(l, r, names) == [] <==> Payload(l) == Payload(r))
            && (Content(l, r, names) == [] && Permissions(l, r, names) == [] <==> Portable(l) == Portable(r))
  {
    var names := Sorted(l.Keys + r.Keys);
    assert forall k :: k in names <==> k in l || k in r;
    PayloadEqual(l, r);
    PortableEqual(l, r);
    hide Sorted, Payload, Portable, PayloadFields;
    ContentEmpty(l, r, names);
    PermissionsEmpty(l, r, names);
  }

  lemma ContentEmpty(l: Entries, r: Entries, names: seq<string>)
    requires forall k :: k in names <==> k in l || k in r
    ensures Content(l, r, names) == [] <==> SamePayload(l, r)
  {
    GatherEmpty(names, k requires k in l || k in r => ContentAt(l, r, k));
    hide PayloadFields, Gather;
    if forall k :: k in names ==> ContentAt(l, r, k) == [] {
      forall k ensures k in l <==> k in r {
        if k in l || k in r { assert k in names && ContentAt(l, r, k) == []; }
      }
      assert l.Keys == r.Keys;
      forall k | k in l ensures SamePayloadAt(l[k], r[k]) { assert k in names; }
    }
    if SamePayload(l, r) {
      forall k | k in names ensures ContentAt(l, r, k) == [] {
        assert k in l.Keys && k in r.Keys;
      }
    }
  }

  lemma PermissionsEmpty(l: Entries, r: Entries, names: seq<string>)
    requires forall k :: k in names <==> k in l || k in r
    ensures Permissions(l, r, names) == [] <==> forall k :: k in l && k in r ==> l[k].mode == r[k].mode
  {
    GatherEmpty(names, k => ModeAt(l, r, k));
    hide Gather;
    if forall k :: k in names ==> ModeAt(l, r, k) == [] {
      forall k | k in l && k in r ensures l[k].mode == r[k].mode { assert k in names; }
    }
  }

  /** Comparing an archive's contents with themselves lists nothing. */
  lemma NothingDiffers(a: Archive)
    ensures var report := ReportOf(a, a);
            report.content == [] && report.permissions == [] && report.metadata == [] && report.declarations == []
            && report.sameOrder
  {
    hide Sorted;
    EntriesAlike(a.entries, Sorted(a.entries.Keys + a.entries.Keys));
    DeclarationsAlike(a.declarations, Sorted(a.declarations.Keys + a.declarations.Keys));
  }

  lemma EntriesAlike(e: Entries, names: seq<string>)
    requires forall k :: k in names ==> k in e
    ensures Content(e, e, names) == [] && Permissions(e, e, names) == [] && Metadata(e, e, names) == []
  {
    GatherEmpty(names, k requires k in e || k in e => ContentAt(e, e, k));
    GatherEmpty(names, k => ModeAt(e, e, k));
    GatherEmpty(names, k => MetaAt(e, e, k));
  }

  lemma DeclarationsAlike(d: map<string, Json>, names: seq<string>)
    ensures Declarations(d, d, names) == []
  {
    GatherEmpty(names, k => DeclarationAt(d, d, k));
    forall k ensures DeclarationAt(d, d, k) == [] {
      PyEqReflexive(Held(d, k));
      DeclarationDiff.NoChanges(Held(d, k), Held(d, k), "");
    }
  }

  ghost predicate Injective(sha: string -> string) { forall a, b :: sha(a) == sha(b) ==> a == b }

  /** The document a declaration's bytes hold. */
  predicate Loads(load: string -> Option<Json>, declarations: map<string, Json>, m: Member) {
    m.kind == File && IsDeclaration(m.name) ==> m.name in declarations && load(m.data) == Some(declarations[m.name])
  }

  /** An archive read from these members, within the limits. */
  ghost predicate ReadFrom(a: Archive, members: seq<Member>, sha: string -> string, load: string -> Option<Json>) {
    && Reads(sha, members, Contents(a.entries, a.order, a.declarations.Keys, TotalSize(members)))
    && forall i :: 0 <= i < |members| ==> Loads(load, a.declarations, members[i])
  }

  /** Members determine everything read from them. */
  lemma ReadFromUnique(a: Archive, b: Archive, members: seq<Member>, sha: string -> string,
                       load: string -> Option<Json>)
    requires ReadFrom(a, members, sha, load) && ReadFrom(b, members, sha, load)
    ensures a.entries == b.entries && a.order == b.order && a.declarations == b.declarations
  {
    hide SoundMember, KeyOf, IsDeclaration;
    forall k | k in a.entries ensures k in b.entries && a.entries[k] == b.entries[k] {
      var i :| 0 <= i < |members| && a.order[i] == k;
      assert Records(sha, a.entries, members[i]) && Records(sha, b.entries, members[i]);
    }
    forall k | k in b.entries ensures k in a.entries {
      var i :| 0 <= i < |members| && b.order[i] == k;
      assert Records(sha, a.entries, members[i]);
    }
    forall k | k in a.declarations ensures k in b.declarations && a.declarations[k] == b.declarations[k] {
      var i :| 0 <= i < |members| && members[i].kind == File && IsDeclaration(members[i].name) && members[i].name == k;
      assert Loads(load, a.declarations, members[i]) && Loads(load, b.declarations, members[i]);
    }
  }

  /** Every declaration among the members is a JSON document. */
  predicate AllLoad(load: string -> Option<Json>, members: seq<Member>) {
    forall i :: 0 <= i < |members| && members[i].kind == File && IsDeclaration(members[i].name)
        ==> load(members[i].data).Some?
  }

  /** What an archive's bytes must be for it to be read. */
  ghost predicate Readable(bytes: string, unpack: string -> Option<string>, parse: string -> Option<seq<Member>>,
                           load: string -> Option<Json>) {
    && unpack(bytes).Some? && |unpack(bytes).value| <= MAX_UNPACKED_BYTES
    && parse(unpack(bytes).value).Some?
    && var members := parse(unpack(bytes).value).value;
    && (forall i :: 0 <= i < |members| ==> SoundMember(members, i))
    && TotalSize(members) <= MAX_UNPACKED_BYTES && AllLoad(load, members)
  }

  /**
   `read_archive`, with decompression, tar parsing and JSON loading as given functions that may
   fail: both digests, the member loop, then a second pass that loads the declarations.
   */
  method ReadArchive(bytes: string, sha: string -> string, unpack: string -> Option<string>,
                     parse: string -> Option<seq<Member>>, load: string -> Option<Json>)
    returns (r: Result<Archive>)
    ensures r.Ok? <==> Readable(bytes, unpack, parse, load)
    ensures r.Ok? ==> r.value.archiveSha == sha(bytes) && r.value.tarSha == sha(unpack(bytes).value)
    ensures r.Ok? ==> ReadFrom(r.value, parse(unpack(bytes).value).value, sha, load)
  {
    hide Reads, SoundMember, TotalSize, AllLoad, Loads;
    var archive := DigestStream(bytes, None, sha);
    if unpack(bytes).None? { return Err(NotDecodable); }
    var tar := DigestStream(unpack(bytes).value, Some(MAX_UNPACKED_BYTES), sha);
    if tar.Err? { return Err(tar.failure); }
    if parse(unpack(bytes).value).None? { return Err(NotTar); }
    var members := parse(unpack(bytes).value).value;
    var read := ReadMembers(members, sha);
    if read.Err? { return Err(read.failure); }
    var c := read.value;
    var declarations := LoadDeclarations(members, c, sha, load);
    if declarations.Err? { return Err(declarations.failure); }
    ContentsAre(sha, members, c);
    r := Ok(Archive(archive.value.0, tar.value.0, c.entries, c.order, declarations.value));
  }

  lemma ContentsAre(sha: string -> string, members: seq<Member>, c: Contents)
    requires Reads(sha, members, c)
    ensures c == Contents(c.entries, c.order, c.declarations, TotalSize(members))
  {
    hide SoundMember;
  }

  /** The second pass: it fails exactly when some declaration is no JSON document. */
  method LoadDeclarations(members: seq<Member>, c: Contents, sha: string -> string, load: string -> Option<Json>)
    returns (r: Result<map<string, Json>>)
    requires Reads(sha, members, c)
    ensures r.Ok? <==> AllLoad(load, members)
    ensures r.Ok? ==> r.value.Keys == c.declarations
    ensures r.Ok? ==> forall i :: 0 <= i < |members| ==> Loads(load, r.value, members[i])
  {
    hide IsDeclaration, KeyOf, CanonicalName, PayloadSound, Reads, SoundMember;
    var declarations: map<string, Json> := map k | k in c.declarations :: JNull;
    for n := 0 to |members|
      invariant declarations.Keys == c.declarations
      invariant forall i :: 0 <= i < n ==> Loads(load, declarations, members[i])
    {
      DeclaredOnce(sha, members, c, n);
      if members[n].name in declarations {
        var document := load(members[n].data);
        if document.None? { return Err(NotJson); }
        declarations := declarations[members[n].name := document.value];
      }
    }
    r := Ok(declarations);
  }

  /** A declaration's name belongs to one member only. */
  lemma DeclaredOnce(sha: string -> string, members: seq<Member>, c: Contents, n: nat)
    requires Reads(sha, members, c) && n < |members|
    ensures forall i :: 0 <= i < n ==> members[i].name != members[n].name
    ensures members[n].name in c.declarations <==> members[n].kind == File && IsDeclaration(members[n].name)
  {
    hide IsDeclaration, KeyOf, CanonicalName, PayloadSound, Records;
    assert SoundMember(members, n);
    if members[n].name in c.declarations {
      var i :| 0 <= i < |members| && members[i].kind == File && IsDeclaration(members[i].name)
          && members[i].name == members[n].name;
      assert SoundMember(members, i);
    }
  }

  /**
   The category says what the evidence says: each one holds exactly when the finest equality that
   fails is the one it names, and equal tar streams leave every list empty.
   */
  lemma CategoryAgreesWithEvidence(l: Archive, r: Archive, lb: string, rb: string, sha: string -> string,
                                   unpack: string -> Option<string>, parse: string -> Option<seq<Member>>,
                                   load: string -> Option<Json>)
    requires Injective(sha) && Readable(lb, unpack, parse, load) && Readable(rb, unpack, parse, load)
    requires l.archiveSha == sha(lb) && l.tarSha == sha(unpack(lb).value)
    requires r.archiveSha == sha(rb) && r.tarSha == sha(unpack(rb).value)
    requires ReadFrom(l, parse(unpack(lb).value).value, sha, load)
        && ReadFrom(r, parse(unpack(rb).value).value, sha, load)
    ensures var report, tarEqual := ReportOf(l, r), unpack(lb) == unpack(rb);
            var payload, portable := Payload(l.entries) == Payload(r.entries), Portable(l.entries)
                == Portable(r.entries);
            && (lb == rb ==> tarEqual) && (tarEqual ==> portable) && (portable ==> payload)
            && (report.category == Identical <==> lb == rb)
            && (report.category == CompressionOnly <==> lb != rb && tarEqual)
            && (report.category == PayloadDifference <==> !payload)
            && (report.category == PermissionDifference <==> payload && !portable)
            && (report.category == TarContainerOnly <==> !tarEqual && portable)
            && (tarEqual ==> report.content == [] && report.permissions == [] && report.metadata == []
                             && report.declarations == [] && report.sameOrder)
  {
    hide Payload, Portable, ReadFrom, Content, Permissions, Metadata, Declarations;
    ListsAgreeWithSummaries(l.entries, r.entries);
    if unpack(lb) == unpack(rb) {
      ReadFromUnique(l, r, parse(unpack(lb).value).value, sha, load);
      NothingDiffers(l);
    }
  }
}
