/** What the comparison's report holds, item by item, and what it says of the archives' members. */
module ArchiveEvidence {
  import opened Wrappers
  import opened Ordering
  import opened Json
  import opened SourceArchive
  import opened ArchiveCompare
  import DeclarationDiff

  // ---------------------------------------------------------------- what the lists hold

  lemma {:induction false} GatherHas<T>(names: seq<string>, f: string --> seq<T>, x: T)
    requires forall k :: k in names ==> f.requires(k)
    ensures x in Gather(names, f) <==> exists k :: k in names && x in f(k)
  {
    if names != [] {
      var last := |names| - 1;
      GatherHas(names[..last], f, x);
      assert names == names[..last] + [names[last]];
    }
  }

  /** Items under some of the names, in their order, no two under one name. */
  ghost predicate InOrder<T>(g: seq<T>, names: seq<string>, path: T -> string) {
    && (forall i :: 0 <= i < |g| ==> path(g[i]) in names)
    && forall i, j :: 0 <= i < j < |g| ==> Less(path(g[i]), path(g[j]))
  }

  lemma InOrderStep<T>(front: seq<T>, names: seq<string>, path: T -> string, name: string, more: seq<T>)
    requires InOrder(front, names, path) && |more| <= 1 && (more != [] ==> path(more[0]) == name)
    requires forall k :: k in names ==> Less(k, name)
    ensures InOrder(front + more, names + [name], path)
  {
    hide Less;
    var g := front + more;
    forall i | 0 <= i < |g| ensures path(g[i]) in names + [name] && (i < |front| ==> path(g[i]) in names) {
      if i < |front| { assert g[i] == front[i]; }
    }
    forall i, j | 0 <= i < j < |g| ensures Less(path(g[i]), path(g[j])) {
      assert g[i] == front[i];
      if j < |front| { assert g[j] == front[j]; } else { assert g[j] == more[0]; }
    }
  }

  /** One item for a name at most, under that name: the list is in the order of the names. */
  lemma {:induction false} GatherOrdered<T>(names: seq<string>, f: string --> seq<T>, path: T -> string)
    requires forall k :: k in names ==> f.requires(k)
    requires forall k :: k in names ==> |f(k)| <= 1 && (f(k) != [] ==> path(f(k)[0]) == k)
    requires forall i, j :: 0 <= i < j < |names| ==> Less(names[i], names[j])
    ensures InOrder(Gather(names, f), names, path)
  {
    hide Less, InOrder;
    if names == [] {
      NoneInOrder(names, path);
    } else {
      var last := |names| - 1;
      var front := names[..last];
      assert names == front + [names[last]];
      GatherOrdered(front, f, path);
      forall k | k in front ensures Less(k, names[last]) {
        var i :| 0 <= i < last && names[i] == k;
      }
      InOrderStep(Gather(front, f), front, path, names[last], f(names[last]));
    }
  }

  lemma NoneInOrder<T>(names: seq<string>, path: T -> string)
    ensures InOrder([], names, path)
  {}

  /** The place of a payload field in the report. */
  function PayloadRank(field: string): int {
    if field == "type" then 1 else if field == "size" then 2 else if field == "sha256" then 3 else 0
  }

  predicate PayloadDiffers(field: string, a: Entry, b: Entry) {
    || (field == "type" && a.kind != b.kind) || (field == "size" && a.size != b.size)
    || (field == "sha256" && a.sha != b.sha)
  }

  function MetaRank(field: string): int {
    if field == "uid" then 1 else if field == "gid" then 2 else if field == "uname" then 3
    else if field == "gname" then 4 else if field == "mtime" then 5 else if field == "pax_headers" then 6 else 0
  }

  predicate MetaDiffers(field: string, a: Meta, b: Meta) {
    || (field == "uid" && a.uid != b.uid) || (field == "gid" && a.gid != b.gid)
    || (field == "uname" && a.uname != b.uname) || (field == "gname" && a.gname != b.gname)
    || (field == "mtime" && a.mtime != b.mtime) || (field == "pax_headers" && a.pax != b.pax)
  }

  /** Exactly the fields that differ, each once, in a fixed order. */
  ghost predicate ListsFields(fields: seq<string>, differs: string -> bool, rank: string -> int) {
    && (forall f :: f in fields <==> differs(f))
    && forall i, j :: 0 <= i < j < |fields| ==> rank(fields[i]) < rank(fields[j])
  }

  lemma PayloadFieldsAre(a: Entry, b: Entry)
    ensures ListsFields(PayloadFields(a, b), f => PayloadDiffers(f, a, b), PayloadRank)
  {
    var r := PayloadFields(a, b);
    forall f ensures f in r <==> PayloadDiffers(f, a, b) {}
  }

  ghost predicate Ranked(fields: seq<string>, listed: set<string>, rank: string -> int, top: int) {
    && (forall f :: f in fields <==> f in listed) && (forall f :: f in fields ==> rank(f) <= top)
    && forall i, j :: 0 <= i < j < |fields| ==> rank(fields[i]) < rank(fields[j])
  }

  lemma OneMoreField(fields: seq<string>, listed: set<string>, rank: string -> int, top: int, field: string,
                     differs: bool)
    returns (more: seq<string>, now: set<string>)
    requires Ranked(fields, listed, rank, top) && rank(field) == top + 1
    ensures more == fields + If(differs, field) && now == listed + (if differs then {field} else {})
    ensures Ranked(more, now, rank, top + 1)
  {
    more, now := fields + If(differs, field), listed + (if differs then {field} else {});
    assert differs ==> more[|fields|] == field;
    forall f ensures f in more <==> f in now {
      if f in fields { var i :| 0 <= i < |fields| && fields[i] == f; assert more[i] == f; }
    }
    forall i, j | 0 <= i < j < |more| ensures rank(more[i]) < rank(more[j]) {
      assert more[i] == fields[i];
    }
  }

  function If(differs: bool, field: string): seq<string> { if differs then [field] else [] }

  lemma MetaFieldsAre(a: Meta, b: Meta)
    ensures ListsFields(MetaFields(a, b), f => MetaDiffers(f, a, b), MetaRank)
  {
    MetaRanks();
    hide MetaRank, MetaFields, MetaDiffers, Ranked, If, ListsFields;
    NoFields(MetaRank);
    var r1, s1 := OneMoreField([], {}, MetaRank, 0, "uid", a.uid != b.uid);
    var r2, s2 := OneMoreField(r1, s1, MetaRank, 1, "gid", a.gid != b.gid);
    var r3, s3 := OneMoreField(r2, s2, MetaRank, 2, "uname", a.uname != b.uname);
    var r4, s4 := OneMoreField(r3, s3, MetaRank, 3, "gname", a.gname != b.gname);
    var r5, s5 := OneMoreField(r4, s4, MetaRank, 4, "mtime", a.mtime != b.mtime);
    var r6, s6 := OneMoreField(r5, s5, MetaRank, 5, "pax_headers", a.pax != b.pax);
    MetaFieldsSum(a, b);
    assert r6 == MetaFields(a, b) by { assert [] + If(a.uid != b.uid, "uid") == If(a.uid != b.uid, "uid"); }
    forall f ensures f in s6 <==> MetaDiffers(f, a, b) { MetaDiffersIs(f, a, b); }
    RankedLists(r6, s6, f => MetaDiffers(f, a, b), MetaRank, 6);
  }

  lemma NoFields(rank: string -> int)
    ensures Ranked([], {}, rank, 0)
  {}

  lemma RankedLists(fields: seq<string>, listed: set<string>, differs: string -> bool, rank: string -> int, top: int)
    requires Ranked(fields, listed, rank, top) && forall f :: f in listed <==> differs(f)
    ensures ListsFields(fields, differs, rank)
  {}

  lemma MetaFieldsSum(a: Meta, b: Meta)
    ensures MetaFields(a, b) == If(a.uid != b.uid, "uid") + If(a.gid != b.gid, "gid") + If(a.uname != b.uname, "uname")
                                + If(a.gname != b.gname, "gname") + If(a.mtime != b.mtime, "mtime")
                                + If(a.pax != b.pax, "pax_headers")
  {}

  lemma MetaDiffersIs(f: string, a: Meta, b: Meta)
    ensures MetaDiffers(f, a, b) <==>
              f in (if a.uid != b.uid then {"uid"} else {}) + (if a.gid != b.gid then {"gid"} else {})
                   + (if a.uname != b.uname then {"uname"} else {}) + (if a.gname != b.gname then {"gname"} else {})
                   + (if a.mtime != b.mtime then {"mtime"} else {}) + (if a.pax != b.pax then {"pax_headers"} else {})
  {}

  lemma MetaRanks()
    ensures MetaRank("uid") == 1 && MetaRank("gid") == 2 && MetaRank("uname") == 3
    ensures MetaRank("gname") == 4 && MetaRank("mtime") == 5 && MetaRank("pax_headers") == 6
  {
    assert "uid"[0] != "gid"[0] && |"uname"| == 5 && |"gname"| == 5 && "uname"[0] != "gname"[0];
    assert |"mtime"| == 5 && "mtime"[0] == 'm' && |"pax_headers"| == 11 && |"uid"| == 3 && |"gid"| == 3;
  }

  /** A content item that says what is so of its path in the two archives. */
  ghost predicate TrueContent(l: Entries, r: Entries, c: ContentChange) {
    match c
    case Added(path, right) => path !in l && path in r && right == r[path]
    case Removed(path, left) => path in l && path !in r && left == l[path]
    case Modified(path, fields, left, right) =>
      && path in l && path in r && left == l[path] && right == r[path]
      && fields != [] && fields == PayloadFields(left, right)
  }

  ghost predicate TrueMode(l: Entries, r: Entries, c: ModeChange) {
    && c.path in l && c.path in r && c.left == l[c.path].mode && c.right == r[c.path].mode && c.left != c.right
  }

  ghost predicate TrueMeta(l: Entries, r: Entries, c: MetaChange) {
    && c.path in l && c.path in r && c.left == l[c.path].meta && c.right == r[c.path].meta
    && c.fields != [] && c.fields == MetaFields(c.left, c.right)
  }

  /** The lists hold exactly the items that are so, each path once and in order. */
  lemma ListsAreExact(l: Entries, r: Entries)
    ensures var names := Sorted(l.Keys + r.Keys);
            && (forall c :: c in Content(l, r, names) <==> TrueContent(l, r, c))
            && (forall c :: c in Permissions(l, r, names) <==> TrueMode(l, r, c))
            && (forall c :: c in Metadata(l, r, names) <==> TrueMeta(l, r, c))
            && InOrder(Content(l, r, names), names, (c: ContentChange) => c.path)
            && InOrder(Permissions(l, r, names), names, (c: ModeChange) => c.path)
            && InOrder(Metadata(l, r, names), names, (c: MetaChange) => c.path)
  {
    var names := Sorted(l.Keys + r.Keys);
    assert forall k :: k in names <==> k in l || k in r;
    hide Sorted, Less;
    ContentIsExact(l, r, names);
    ModesAreExact(l, r, names);
    MetaIsExact(l, r, names);
  }

  lemma ContentIsExact(l: Entries, r: Entries, names: seq<string>)
    requires forall k :: k in names <==> k in l || k in r
    requires forall i, j :: 0 <= i < j < |names| ==> Less(names[i], names[j])
    ensures forall c :: c in Content(l, r, names) <==> TrueContent(l, r, c)
    ensures InOrder(Content(l, r, names), names, (c: ContentChange) => c.path)
  {
    hide PayloadFields, Less, Gather, InOrder;
    GatherOrdered(names, k requires k in l || k in r => ContentAt(l, r, k), (c: ContentChange) => c.path);
    forall c: ContentChange ensures c in Content(l, r, names) <==> TrueContent(l, r, c) {
      GatherHas(names, k requires k in l || k in r => ContentAt(l, r, k), c);
      if TrueContent(l, r, c) { assert c.path in names && c in ContentAt(l, r, c.path); }
    }
  }

  lemma ModesAreExact(l: Entries, r: Entries, names: seq<string>)
    requires forall k :: k in names <==> k in l || k in r
    requires forall i, j :: 0 <= i < j < |names| ==> Less(names[i], names[j])
    ensures forall c :: c in Permissions(l, r, names) <==> TrueMode(l, r, c)
    ensures InOrder(Permissions(l, r, names), names, (c: ModeChange) => c.path)
  {
    hide Less, Gather, InOrder;
    GatherOrdered(names, k => ModeAt(l, r, k), (c: ModeChange) => c.path);
    forall c: ModeChange ensures c in Permissions(l, r, names) <==> TrueMode(l, r, c) {
      GatherHas(names, k => ModeAt(l, r, k), c);
      if TrueMode(l, r, c) { assert c.path in names && c in ModeAt(l, r, c.path); }
    }
  }

  lemma MetaIsExact(l: Entries, r: Entries, names: seq<string>)
    requires forall k :: k in names <==> k in l || k in r
    requires forall i, j :: 0 <= i < j < |names| ==> Less(names[i], names[j])
    ensures forall c :: c in Metadata(l, r, names) <==> TrueMeta(l, r, c)
    ensures InOrder(Metadata(l, r, names), names, (c: MetaChange) => c.path)
  {
    hide MetaFields, Less, Gather, InOrder;
    GatherOrdered(names, k => MetaAt(l, r, k), (c: MetaChange) => c.path);
    forall c: MetaChange ensures c in Metadata(l, r, names) <==> TrueMeta(l, r, c) {
      GatherHas(names, k => MetaAt(l, r, k), c);
      if TrueMeta(l, r, c) { assert c.path in names && c in MetaAt(l, r, c.path); }
    }
  }

  /** A declaration is listed exactly when one side lacks it, or holds another document; a null is as good as none. */
  lemma DeclarationsAreExact(l: map<string, Json>, r: map<string, Json>)
    ensures var names := Sorted(l.Keys + r.Keys);
            && (forall k :: (exists c :: c in Declarations(l, r, names) && c.path == k) <==>
                  || (k in l && k in r && !PyEq(l[k], r[k]))
                  || (k in l && k !in r && l[k] != JNull) || (k !in l && k in r && r[k] != JNull))
            && (forall c :: c in Declarations(l, r, names) ==> c.fields == DeclarationDiff.Changes(
                  if c.path in l then l[c.path] else JNull, if c.path in r then r[c.path] else JNull, ""))
            && InOrder(Declarations(l, r, names), names, (c: DeclarationChange) => c.path)
  {
    var names := Sorted(l.Keys + r.Keys);
    assert forall k :: k in names <==> k in l || k in r;
    hide Sorted, Less, Gather, InOrder, DeclarationDiff.Changes, Declarations, PyEq, DeclarationAt;
    DeclarationsHave(l, r, names);
    forall k
      ensures (exists c :: c in Declarations(l, r, names) && c.path == k) <==>
                || (k in l && k in r && !PyEq(l[k], r[k]))
                || (k in l && k !in r && l[k] != JNull) || (k !in l && k in r && r[k] != JNull)
    {
      DeclarationListed(l, r, k);
    }
    forall c | c in Declarations(l, r, names)
      ensures c.fields == DeclarationDiff.Changes(Held(l, c.path), Held(r, c.path), "")
    {
      DeclarationFields(l, r, c);
    }
  }

  lemma DeclarationFields(l: map<string, Json>, r: map<string, Json>, c: DeclarationChange)
    requires c in DeclarationAt(l, r, c.path)
    ensures c.fields == DeclarationDiff.Changes(Held(l, c.path), Held(r, c.path), "")
  {
    hide DeclarationDiff.Changes, Held;
  }

  /** When the item of one name is there. */
  lemma DeclarationListed(l: map<string, Json>, r: map<string, Json>, k: string)
    ensures (exists c :: c in DeclarationAt(l, r, k) && c.path == k) <==> !PyEq(Held(l, k), Held(r, k))
    ensures k in l && k in r ==> (PyEq(Held(l, k), Held(r, k)) <==> PyEq(l[k], r[k]))
    ensures k in l && k !in r ==> (PyEq(Held(l, k), Held(r, k)) <==> l[k] == JNull)
    ensures k !in l && k in r ==> (PyEq(Held(l, k), Held(r, k)) <==> r[k] == JNull)
    ensures k !in l && k !in r ==> PyEq(Held(l, k), Held(r, k))
  {
    hide DeclarationDiff.Changes, PyEq;
    DeclarationDiff.NoChanges(Held(l, k), Held(r, k), "");
    NullAlone(Held(l, k));
    NullAlone(Held(r, k));
    PyEqReflexive(JNull);
    var c := DeclarationChange(k, DeclarationDiff.Changes(Held(l, k), Held(r, k), ""));
    if !PyEq(Held(l, k), Held(r, k)) { assert c in DeclarationAt(l, r, k); }
  }

  lemma NullAlone(v: Json)
    ensures PyEq(v, JNull) <==> v == JNull
    ensures PyEq(JNull, v) <==> v == JNull
  {}

  lemma DeclarationsHave(l: map<string, Json>, r: map<string, Json>, names: seq<string>)
    requires forall i, j :: 0 <= i < j < |names| ==> Less(names[i], names[j])
    ensures forall c :: c in Declarations(l, r, names) <==> c.path in names && c in DeclarationAt(l, r, c.path)
    ensures InOrder(Declarations(l, r, names), names, (c: DeclarationChange) => c.path)
  {
    hide Less, Gather, InOrder, DeclarationDiff.Changes, Held;
    GatherOrdered(names, k => DeclarationAt(l, r, k), (c: DeclarationChange) => c.path);
    forall c: DeclarationChange
      ensures c in Declarations(l, r, names) <==> c.path in names && c in DeclarationAt(l, r, c.path)
    {
      GatherHas(names, k => DeclarationAt(l, r, k), c);
    }
  }

  // ---------------------------------------------------------------- the category, on the members

  /** The paths the members are stored under. */
  function PathsOf(members: seq<Member>): set<string> { set i | 0 <= i < |members| :: KeyOf(members[i].name) }

  ghost predicate OnePath(ms: seq<Member>, ns: seq<Member>, i: int, j: int) {
    0 <= i < |ms| && 0 <= j < |ns| && KeyOf(ms[i].name) == KeyOf(ns[j].name)
  }

  /** The same paths, and under each the same kind, size and, for a file, the same bytes. */
  ghost predicate SameContents(ms: seq<Member>, ns: seq<Member>) {
    && PathsOf(ms) == PathsOf(ns)
    && forall i, j :: OnePath(ms, ns, i, j) ==>
         && ms[i].kind == ns[j].kind && ms[i].size == ns[j].size && (ms[i].kind == File ==> ms[i].data == ns[j].data)
  }

  ghost predicate SameModes(ms: seq<Member>, ns: seq<Member>) {
    forall i, j :: OnePath(ms, ns, i, j) ==> ms[i].mode == ns[j].mode
  }

  /** The same owner, group, time and extended headers wherever both have the path. */
  ghost predicate SameMetadata(ms: seq<Member>, ns: seq<Member>) {
    forall i, j :: OnePath(ms, ns, i, j) ==>
      var a, b := ms[i].meta, ns[j].meta;
      && a.uid == b.uid && a.gid == b.gid && a.uname == b.uname && a.gname == b.gname
      && a.mtime == b.mtime && a.pax == b.pax
  }

  /** The table holds exactly the members' entries, each under its member's path. */
  ghost predicate EntriesOf(e: Entries, members: seq<Member>, sha: string -> string) {
    && e.Keys == PathsOf(members)
    && forall i :: 0 <= i < |members| ==>
         KeyOf(members[i].name) in e && e[KeyOf(members[i].name)] == EntryOf(sha, members[i])
  }

  lemma EntryMember(a: Archive, members: seq<Member>, sha: string -> string, load: string -> Option<Json>)
    requires ReadFrom(a, members, sha, load)
    ensures EntriesOf(a.entries, members, sha)
  {
    hide SoundMember, KeyOf, IsDeclaration, EntryOf;
    assert forall i :: 0 <= i < |members| ==> Records(sha, a.entries, members[i]);
    forall k ensures k in a.entries <==> k in PathsOf(members) {
      if k in a.entries {
        var i :| 0 <= i < |a.order| && a.order[i] == k;
        assert KeyOf(members[i].name) == k;
      }
    }
  }

  /** Entries under one key agree exactly when their members do. */
  lemma MembersAgree(l: Entries, r: Entries, ms: seq<Member>, ns: seq<Member>, sha: string -> string,
                     same: (Entry, Entry) -> bool)
    requires EntriesOf(l, ms, sha) && EntriesOf(r, ns, sha)
    ensures (forall k :: k in l && k in r ==> same(l[k], r[k])) <==>
              forall i, j :: OnePath(ms, ns, i, j) ==> same(EntryOf(sha, ms[i]), EntryOf(sha, ns[j]))
  {
    hide KeyOf, EntryOf;
    if forall i, j :: OnePath(ms, ns, i, j) ==> same(EntryOf(sha, ms[i]), EntryOf(sha, ns[j])) {
      forall k | k in l && k in r ensures same(l[k], r[k]) {
        assert k in PathsOf(ms) && k in PathsOf(ns);
        var i :| 0 <= i < |ms| && KeyOf(ms[i].name) == k;
        var j :| 0 <= j < |ns| && KeyOf(ns[j].name) == k;
        assert OnePath(ms, ns, i, j);
      }
    }
    if forall k :: k in l && k in r ==> same(l[k], r[k]) {
      forall i, j | OnePath(ms, ns, i, j) ensures same(EntryOf(sha, ms[i]), EntryOf(sha, ns[j])) {
        assert KeyOf(ms[i].name) in l && KeyOf(ms[i].name) in r;
      }
    }
  }

  predicate SameModeAt(a: Entry, b: Entry) { a.mode == b.mode }

  predicate SameMetaAt(a: Entry, b: Entry) { a.meta == b.meta }

  /** Entries agree in payload exactly when the members agree in kind, size and, for files, bytes. */
  lemma EntryPayload(sha: string -> string, a: Member, b: Member)
    requires Injective(sha)
    ensures SamePayloadAt(EntryOf(sha, a), EntryOf(sha, b)) <==>
              a.kind == b.kind && a.size == b.size && (a.kind == File ==> a.data == b.data)
  {}

  lemma PayloadOnMembers(l: Entries, r: Entries, ms: seq<Member>, ns: seq<Member>, sha: string -> string)
    requires Injective(sha) && EntriesOf(l, ms, sha) && EntriesOf(r, ns, sha)
    ensures SamePayload(l, r) <==> SameContents(ms, ns)
  {
    MembersAgree(l, r, ms, ns, sha, SamePayloadAt);
    hide KeyOf, EntryOf, SamePayloadAt, Injective, OnePath;
    forall i, j | 0 <= i < |ms| && 0 <= j < |ns|
      ensures SamePayloadAt(EntryOf(sha, ms[i]), EntryOf(sha, ns[j])) <==>
                && ms[i].kind == ns[j].kind && ms[i].size == ns[j].size
                && (ms[i].kind == File ==> ms[i].data == ns[j].data)
    {
      EntryPayload(sha, ms[i], ns[j]);
    }
    OnePathBounds(ms, ns);
    assert SamePayload(l, r) <==> l.Keys == r.Keys && forall k :: k in l && k in r ==> SamePayloadAt(l[k], r[k]);
  }

  lemma OnePathBounds(ms: seq<Member>, ns: seq<Member>)
    ensures forall i, j :: OnePath(ms, ns, i, j) ==> 0 <= i < |ms| && 0 <= j < |ns|
  {
    hide KeyOf;
  }

  lemma ModesOnMembers(l: Entries, r: Entries, ms: seq<Member>, ns: seq<Member>, sha: string -> string)
    requires EntriesOf(l, ms, sha) && EntriesOf(r, ns, sha)
    ensures (forall k :: k in l && k in r ==> l[k].mode == r[k].mode) <==> SameModes(ms, ns)
    ensures (forall k :: k in l && k in r ==> l[k].meta == r[k].meta) <==> SameMetadata(ms, ns)
  {
    MembersAgree(l, r, ms, ns, sha, SameModeAt);
    MembersAgree(l, r, ms, ns, sha, SameMetaAt);
    OnePathBounds(ms, ns);
    hide KeyOf, OnePath;
    assert forall k :: k in l && k in r ==> (SameModeAt(l[k], r[k]) <==> l[k].mode == r[k].mode);
    assert forall k :: k in l && k in r ==> (SameMetaAt(l[k], r[k]) <==> l[k].meta == r[k].meta);
  }

  lemma ReportParts(l: Archive, r: Archive)
    ensures var report, names := ReportOf(l, r), Sorted(l.entries.Keys + r.entries.Keys);
            && (forall k :: k in names <==> k in l.entries || k in r.entries)
            && report.content == Content(l.entries, r.entries, names)
            && report.permissions == Permissions(l.entries, r.entries, names)
            && report.metadata == Metadata(l.entries, r.entries, names)
            && report.declarations == Declarations(l.declarations, r.declarations,
                                                   Sorted(l.declarations.Keys + r.declarations.Keys))
            && (report.sameOrder <==> l.order == r.order)
            && report.category == CategoryOf(l.archiveSha == r.archiveSha, l.tarSha == r.tarSha, report.content,
                                             report.permissions)
  {
    hide Content, Permissions, Metadata, Declarations;
  }

  /** What the report says, said of the members of the two archives themselves. */
  lemma ReportOnMembers(l: Archive, r: Archive, ms: seq<Member>, ns: seq<Member>, sha: string -> string,
                        load: string -> Option<Json>)
    requires Injective(sha) && ReadFrom(l, ms, sha, load) && ReadFrom(r, ns, sha, load)
    ensures var report := ReportOf(l, r);
            && (report.content == [] <==> SameContents(ms, ns))
            && (report.permissions == [] <==> SameModes(ms, ns))
            && (report.metadata == [] <==> SameMetadata(ms, ns))
            && (report.sameOrder <==>
                  |ms| == |ns| && forall i :: 0 <= i < |ms| ==> KeyOf(ms[i].name) == KeyOf(ns[i].name))
            && (report.category == PayloadDifference <==>
                  l.archiveSha != r.archiveSha && l.tarSha != r.tarSha && !SameContents(ms, ns))
            && (report.category == PermissionDifference <==>
                  l.archiveSha != r.archiveSha && l.tarSha != r.tarSha && SameContents(ms, ns) && !SameModes(ms, ns))
  {
    hide Sorted, ReadFrom, SameContents, SameModes, SameMetadata, EntriesOf, ReportOf, Content, Permissions, Metadata;
    hide SamePayload;
    ReportParts(l, r);
    EntryMember(l, ms, sha, load);
    EntryMember(r, ns, sha, load);
    var names := Sorted(l.entries.Keys + r.entries.Keys);
    PayloadOnMembers(l.entries, r.entries, ms, ns, sha);
    ModesOnMembers(l.entries, r.entries, ms, ns, sha);
    ContentEmpty(l.entries, r.entries, names);
    PermissionsEmpty(l.entries, r.entries, names);
    MetadataEmpty(l.entries, r.entries, names);
    OrderOnMembers(l, r, ms, ns, sha, load);
  }

  lemma OrderOnMembers(l: Archive, r: Archive, ms: seq<Member>, ns: seq<Member>, sha: string -> string,
                       load: string -> Option<Json>)
    requires ReadFrom(l, ms, sha, load) && ReadFrom(r, ns, sha, load)
    ensures l.order == r.order <==>
              |ms| == |ns| && forall i :: 0 <= i < |ms| ==> KeyOf(ms[i].name) == KeyOf(ns[i].name)
  {
    hide SoundMember, KeyOf, IsDeclaration, Records;
    assert |l.order| == |ms| && |r.order| == |ns|;
    assert (forall i :: 0 <= i < |ms| ==> l.order[i] == KeyOf(ms[i].name))
        && forall i :: 0 <= i < |ns| ==> r.order[i] == KeyOf(ns[i].name);
  }

  /** The report's three lists hold exactly the items that are so of the two archives. */
  lemma ReportIsExact(l: Archive, r: Archive)
    ensures var report := ReportOf(l, r);
            && (forall c :: c in report.content <==> TrueContent(l.entries, r.entries, c))
            && (forall c :: c in report.permissions <==> TrueMode(l.entries, r.entries, c))
            && (forall c :: c in report.metadata <==> TrueMeta(l.entries, r.entries, c))
            && (forall i, j :: 0 <= i < j < |report.content| ==> Less(report.content[i].path, report.content[j].path))
  {
    hide Sorted, Content, Permissions, Metadata, Declarations, ReportOf, TrueContent, TrueMode, TrueMeta, Less;
    ReportParts(l, r);
    ListsAreExact(l.entries, r.entries);
    var g := Content(l.entries, r.entries, Sorted(l.entries.Keys + r.entries.Keys));
    var path := (c: ContentChange) => c.path;
    forall i, j | 0 <= i < j < |g| ensures Less(g[i].path, g[j].path) {
      assert Less(path(g[i]), path(g[j]));
    }
  }

  lemma MetadataEmpty(l: Entries, r: Entries, names: seq<string>)
    requires forall k :: k in names <==> k in l || k in r
    ensures Metadata(l, r, names) == [] <==> forall k :: k in l && k in r ==> l[k].meta == r[k].meta
  {
    GatherEmpty(names, k => MetaAt(l, r, k));
    hide Gather, MetaFields;
    if forall k :: k in names ==> MetaAt(l, r, k) == [] {
      forall k | k in l && k in r ensures l[k].meta == r[k].meta { assert k in names; }
    }
  }
}
