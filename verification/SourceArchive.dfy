/** Reading a source-stage archive member by member, within its limits. */
module SourceArchive {
  import opened Wrappers
  import opened PosixPaths

  const MAX_MEMBERS: nat := 250000
  const MAX_UNPACKED_BYTES: nat := 2 * 1024 * 1024 * 1024
  const MAX_JSON_BYTES: nat := 1024 * 1024
  const BLOCK: nat := 1024 * 1024

  datatype Kind = File | Directory | Other

  datatype Meta = Meta(uid: int, gid: int, uname: string, gname: string, mtime: int, pax: map<string, string>)

  /** A tar member: its header, and the bytes that can be read for it. */
  datatype Member = Member(name: string, kind: Kind, mode: int, size: nat, meta: Meta, data: string)

  datatype Entry = Entry(kind: Kind, mode: int, size: nat, meta: Meta, sha: Option<string>)

  datatype Failure =
    | TooLong | TooManyMembers | UnsafeName | NotCanonical | NotFileOrDirectory | PayloadTooLarge | Truncated
    | OversizedDeclaration | NotDecodable | NotTar | NotJson

  datatype Result<T> = Ok(value: T) | Err(failure: Failure)

  /** `digest_stream`: blocks are hashed until the stream ends or passes its limit. */
  method DigestStream(data: string, limit: Option<nat>, sha: string -> string) returns (r: Result<(string, nat)>)
    ensures r == if limit.Some? && |data| > limit.value then Err(TooLong) else Ok((sha(data), |data|))
  {
    var hashed, size := "", 0;
    while size < |data|
      invariant size <= |data| && hashed == data[..size]
      invariant limit.Some? ==> size <= limit.value
    {
      var block := data[size..if size + BLOCK < |data| then size + BLOCK else |data|];
      if limit.Some? && size + |block| > limit.value { return Err(TooLong); }
      hashed := hashed + block;
      size := size + |block|;
    }
    assert data[..|data|] == data;
    r := Ok((sha(hashed), size));
  }

  // ---------------------------------------------------------------- names

  /** `str.rstrip('/')`. */
  function RStrip(s: string): string {
    if s != "" && s[|s| - 1] == '/' then RStrip(s[..|s| - 1]) else s
  }

  predicate SafeName(name: string) {
    && Parts(name) != [] && !Absolute(name) && '\\' !in name && ".." !in Parts(name) && ':' !in Parts(name)[0]
  }

  /** `as_posix` of the member's path: the key it is recorded under. */
  function KeyOf(name: string): string { Posix(Parts(name)) }

  predicate CanonicalName(name: string) { SafeName(name) && KeyOf(name) == RStrip(name) }

  /** A relative path with no empty, `.` or `..` component. */
  predicate CanonicalPath(p: Path) {
    && p != [] && ':' !in p[0]
    && forall i :: 0 <= i < |p| ==> p[i] != "" && p[i] != "." && p[i] != ".." && '/' !in p[i] && '\\' !in p[i]
  }

  function Slashes(n: nat): string { if n == 0 then "" else Slashes(n - 1) + "/" }

  lemma {:induction false} RStripSlashes(s: string)
    ensures exists n: nat :: s == RStrip(s) + Slashes(n)
  {
    if s != "" && s[|s| - 1] == '/' {
      RStripSlashes(s[..|s| - 1]);
      var n: nat :| s[..|s| - 1] == RStrip(s[..|s| - 1]) + Slashes(n);
      assert s == s[..|s| - 1] + "/";
      assert s == RStrip(s) + Slashes(n + 1);
    } else {
      assert s == RStrip(s) + Slashes(0);
    }
  }

  lemma {:induction false} RStripOf(s: string, n: nat)
    requires s != "" && s[|s| - 1] != '/'
    ensures RStrip(s + Slashes(n)) == s
  {
    if n == 0 {
      assert s + Slashes(0) == s;
    } else {
      RStripOf(s, n - 1);
      assert s + Slashes(n) == s + Slashes(n - 1) + "/";
      RStripSlash(s + Slashes(n - 1));
    }
  }

  lemma RStripSlash(s: string)
    ensures RStrip(s + "/") == RStrip(s)
  {
    assert (s + "/")[..|s|] == s;
  }

  lemma {:induction false} DropDotsAppend(a: Path, b: Path)
    ensures DropDots(a + b) == DropDots(a) + DropDots(b)
  {
    if a == [] {
      assert a + b == b;
    } else {
      assert (a + b)[1..] == a[1..] + b;
      DropDotsAppend(a[1..], b);
    }
  }

  lemma {:induction false} SplitTail(s: string)
    ensures Split(s + "/", '/') == Split(s, '/') + [""]
  {
    if s == "" {
      assert s + "/" == "/" && "/"[1..] == "";
    } else {
      SplitTail(s[1..]);
      assert (s + "/")[1..] == s[1..] + "/";
    }
  }

  lemma {:induction false} PartsOfSlashed(s: string, n: nat)
    ensures Parts(s + Slashes(n)) == Parts(s)
  {
    if n == 0 {
      assert s + Slashes(0) == s;
    } else {
      PartsOfSlashed(s, n - 1);
      assert s + Slashes(n) == s + Slashes(n - 1) + "/";
      SplitTail(s + Slashes(n - 1));
      DropDotsAppend(Split(s + Slashes(n - 1), '/'), [""]);
    }
  }

  lemma CanonicalParts(p: Path)
    requires CanonicalPath(p)
    ensures Parts(Posix(p)) == p && !Absolute(Posix(p)) && '\\' !in Posix(p)
    ensures Posix(p) != "" && Posix(p)[|Posix(p)| - 1] != '/'
  {
    SplitJoin(p, '/');
    DropDotsId(p);
    JoinFree(p, '/', '\\');
    assert p[0][0] != '/' by { assert p[0] != "" && '/' !in p[0]; }
    LastOfJoin(p);
  }

  lemma {:induction false} LastOfJoin(p: Path)
    requires p != [] && forall i :: 0 <= i < |p| ==> p[i] != "" && '/' !in p[i]
    ensures Posix(p) != "" && Posix(p)[|Posix(p)| - 1] != '/'
  {
    if |p| == 1 {
      assert p[0][|p[0]| - 1] in p[0];
    } else {
      LastOfJoin(p[1..]);
      assert Posix(p) == p[0] + "/" + Posix(p[1..]);
    }
  }

  /** Accepted names are exactly canonical relative paths, with or without trailing slashes. */
  lemma CanonicalNames(name: string)
    ensures CanonicalName(name) <==> exists p, n: nat :: CanonicalPath(p) && name == Posix(p) + Slashes(n)
    ensures CanonicalName(name) ==> CanonicalPath(Parts(name)) && KeyOf(name) == Posix(Parts(name))
  {
    if CanonicalName(name) {
      var p := Parts(name);
      PartsFree(name, '\\');
      assert forall i :: 0 <= i < |p| ==> p[i] in p;
      assert CanonicalPath(p);
      RStripSlashes(name);
      var n: nat :| name == RStrip(name) + Slashes(n);
      assert name == Posix(p) + Slashes(n);
    }
    if p, n: nat :| CanonicalPath(p) && name == Posix(p) + Slashes(n) {
      CanonicalParts(p);
      PartsOfSlashed(Posix(p), n);
      RStripOf(Posix(p), n);
      SlashesFree(n);
      assert !Absolute(name) by { assert name[0] == Posix(p)[0]; }
    }
  }

  lemma {:induction false} SlashesFree(n: nat)
    ensures '\\' !in Slashes(n)
  {
    if n > 0 { SlashesFree(n - 1); }
  }

  lemma {:induction false} SplitFree(s: string, sep: char, bad: char)
    requires bad !in s
    ensures forall i :: 0 <= i < |Split(s, sep)| ==> bad !in Split(s, sep)[i]
  {
    if s != "" { SplitFree(s[1..], sep, bad); }
  }

  lemma PartsFree(s: string, bad: char)
    requires bad !in s
    ensures forall i :: 0 <= i < |Parts(s)| ==> bad !in Parts(s)[i]
  {
    SplitFree(s, '/', bad);
    forall i | 0 <= i < |Parts(s)| ensures bad !in Parts(s)[i] {
      assert Parts(s)[i] in Split(s, '/');
    }
  }

  // ---------------------------------------------------------------- members

  predicate IsDeclaration(name: string) {
    name == "stage.json" || ("stages/recipes/" <= name && |name| >= 5 && name[|name| - 5..] == ".json")
  }

  function EntryOf(sha: string -> string, m: Member): Entry {
    Entry(m.kind, m.mode, m.size, m.meta, if m.kind == File then Some(sha(m.data)) else None)
  }

  function TotalSize(members: seq<Member>): nat {
    if members == [] then 0 else TotalSize(members[..|members| - 1]) + members[|members| - 1].size
  }

  function Keys(members: seq<Member>): (r: seq<string>)
    ensures |r| == |members| && forall i :: 0 <= i < |r| ==> r[i] == KeyOf(members[i].name)
  {
    seq(|members|, i requires 0 <= i < |members| => KeyOf(members[i].name))
  }

  predicate PayloadSound(m: Member) {
    m.kind == File ==> |m.data| == m.size && (IsDeclaration(m.name) ==> m.size <= MAX_JSON_BYTES)
  }

  /** Everything a member must satisfy but the bound on the running size. */
  predicate SoundMember(members: seq<Member>, i: nat)
    requires i < |members|
  {
    var m := members[i];
    && i < MAX_MEMBERS && CanonicalName(m.name) && (forall j :: 0 <= j < i ==> KeyOf(members[j].name) != KeyOf(m.name))
    && m.kind != Other && PayloadSound(m)
  }

  datatype Contents = Contents(entries: map<string, Entry>, order: seq<string>, declarations: set<string>, total: nat)

  predicate Records(sha: string -> string, entries: map<string, Entry>, m: Member) {
    KeyOf(m.name) in entries && entries[KeyOf(m.name)] == EntryOf(sha, m)
  }

  /** What the reader holds after some members: an order and a table that agree, within the limits. */
  ghost predicate Reads(sha: string -> string, members: seq<Member>, c: Contents) {
    && c.order == Keys(members) && c.total == TotalSize(members) <= MAX_UNPACKED_BYTES && |members| <= MAX_MEMBERS
    && (forall i :: 0 <= i < |members| ==> SoundMember(members, i))
    && (forall k :: k in c.entries <==> k in c.order)
    && (forall i :: 0 <= i < |members| ==> Records(sha, c.entries, members[i]))
    && c.declarations == set i | 0 <= i < |members| && members[i].kind == File
        && IsDeclaration(members[i].name) :: members[i].name
  }

  lemma {:induction false} TotalGrows(members: seq<Member>, i: nat)
    requires i <= |members|
    ensures TotalSize(members[..i]) <= TotalSize(members)
    decreases |members| - i
  {
    if i < |members| {
      assert members[..i + 1][..i] == members[..i];
      TotalGrows(members, i + 1);
    } else {
      assert members[..i] == members;
    }
  }

  lemma SoundPrefix(members: seq<Member>, n: nat, i: nat)
    requires i < n <= |members|
    ensures SoundMember(members[..n], i) <==> SoundMember(members, i)
  {
    hide CanonicalName, KeyOf, IsDeclaration;
    assert forall j :: 0 <= j < n ==> members[..n][j] == members[j];
  }

  /** One more member read. */
  lemma ReadsStep(sha: string -> string, members: seq<Member>, n: nat, c: Contents)
    requires n < |members| && Reads(sha, members[..n], c) && SoundMember(members, n)
    requires c.total + members[n].size <= MAX_UNPACKED_BYTES
    ensures var m := members[n];
            Reads(sha, members[..n + 1],
                  Contents(c.entries[KeyOf(m.name) := EntryOf(sha, m)], c.order + [KeyOf(m.name)],
                           if m.kind == File
                               && IsDeclaration(m.name) then c.declarations + {m.name} else c.declarations,
                           c.total + m.size))
  {
    hide CanonicalName, IsDeclaration, KeyOf;
    var m := members[n];
    var more := members[..n + 1];
    assert more[..n] == members[..n] && more[n] == m;
    forall i | 0 <= i <= n ensures SoundMember(more, i) {
      SoundPrefix(members, n + 1, i);
      if i < n { SoundPrefix(members, n, i); }
    }
    assert Keys(more) == Keys(members[..n]) + [KeyOf(m.name)];
    assert forall i :: 0 <= i < n ==> KeyOf(more[i].name) != KeyOf(m.name) && more[i] == members[..n][i];
    assert KeyOf(m.name) in c.order + [KeyOf(m.name)];
  }

  /**
   The member loop of `read_archive`. It succeeds exactly when every member is sound and the sizes
   add up to no more than the limit; sound members are refused for their size alone, and then
   exactly when the whole sum is over it.
   */
  method ReadMembers(members: seq<Member>, sha: string -> string) returns (r: Result<Contents>)
    ensures r.Ok?
        <==> (forall i :: 0 <= i < |members| ==> SoundMember(members, i)) && TotalSize(members) <= MAX_UNPACKED_BYTES
    ensures r.Ok? ==> Reads(sha, members, r.value)
    ensures (forall i :: 0 <= i < |members| ==> SoundMember(members, i)) ==>
              (r == Err(PayloadTooLarge) <==> TotalSize(members) > MAX_UNPACKED_BYTES)
  {
    hide SafeName, KeyOf, RStrip, Reads, TotalSize, EntryOf, IsDeclaration, PayloadSound;
    var c := Contents(map[], [], {}, 0);
    ReadsNothing(sha, members);
    for n := 0 to |members|
      invariant Reads(sha, members[..n], c)
      invariant forall i :: 0 <= i < n ==> SoundMember(members, i)
    {
      var m := members[n];
      TotalStep(members, n);
      ReadsBounds(sha, members[..n], c);
      assert SoundMember(members, n) ==> n < MAX_MEMBERS;
      if |c.order| >= MAX_MEMBERS { return Err(TooManyMembers); }
      if !SafeName(m.name) { return Err(UnsafeName); }
      var key := KeyOf(m.name);
      NewKey(sha, members, n, c);
      if key != RStrip(m.name) || key in c.entries { return Err(NotCanonical); }
      if m.kind == Other { return Err(NotFileOrDirectory); }
      if c.total + m.size > MAX_UNPACKED_BYTES { return Err(PayloadTooLarge); }
      var payload := ReadPayload(m, sha);
      if payload.Err? { return Err(payload.failure); }
      ReadsStep(sha, members, n, c);
      c := Contents(c.entries[key := payload.value], c.order + [key],
                    if m.kind == File && IsDeclaration(m.name) then c.declarations + {m.name} else c.declarations,
                    c.total + m.size);
    }
    assert members[..|members|] == members;
    ReadsBounds(sha, members, c);
    r := Ok(c);
  }

  /** The bytes of one member, against its header. */
  method ReadPayload(m: Member, sha: string -> string) returns (r: Result<Entry>)
    requires m.kind != Other && m.size <= MAX_UNPACKED_BYTES
    ensures r.Ok? <==> PayloadSound(m)
    ensures r.Ok? ==> r.value == EntryOf(sha, m)
    ensures r.Err? ==> r.failure != PayloadTooLarge
  {
    var entry := Entry(m.kind, m.mode, m.size, m.meta, None);
    if m.kind == File {
      var digest := DigestStream(m.data, Some(MAX_UNPACKED_BYTES), sha);
      if digest.Err? { return Err(TooLong); }
      if digest.value.1 != m.size { return Err(Truncated); }
      entry := entry.(sha := Some(digest.value.0));
      if IsDeclaration(m.name) && m.size > MAX_JSON_BYTES { return Err(OversizedDeclaration); }
    }
    r := Ok(entry);
  }

  lemma ReadsNothing(sha: string -> string, members: seq<Member>)
    ensures Reads(sha, members[..0], Contents(map[], [], {}, 0))
  {}

  lemma ReadsBounds(sha: string -> string, members: seq<Member>, c: Contents)
    requires Reads(sha, members, c)
    ensures c.total == TotalSize(members) <= MAX_UNPACKED_BYTES && |c.order| == |members| <= MAX_MEMBERS
  {
    hide SoundMember, KeyOf;
  }

  lemma TotalStep(members: seq<Member>, n: nat)
    requires n < |members|
    ensures TotalSize(members[..n]) + members[n].size <= TotalSize(members)
  {
    assert members[..n + 1][..n] == members[..n];
    TotalGrows(members, n + 1);
  }

  lemma NewKey(sha: string -> string, members: seq<Member>, n: nat, c: Contents)
    requires n < |members| && Reads(sha, members[..n], c)
    ensures |c.order| == n
    ensures KeyOf(members[n].name) in c.entries
        <==> exists j :: 0 <= j < n && KeyOf(members[j].name) == KeyOf(members[n].name)
  {
    hide SoundMember, KeyOf;
    assert forall j :: 0 <= j < n ==> members[..n][j] == members[j];
  }

  /** What a successful read guarantees of its own listing. */
  lemma ReadsInvariant(sha: string -> string, members: seq<Member>, c: Contents)
    requires Reads(sha, members, c)
    ensures forall i, j :: 0 <= i < j < |c.order| ==> c.order[i] != c.order[j]
    ensures c.entries.Keys == set k | k in c.order
    ensures forall k :: k in c.entries ==> exists p :: CanonicalPath(p) && k == Posix(p)
    ensures |c.order| <= MAX_MEMBERS && c.total <= MAX_UNPACKED_BYTES
  {
    forall k | k in c.entries ensures exists p :: CanonicalPath(p) && k == Posix(p) {
      var i :| 0 <= i < |members| && c.order[i] == k;
      assert SoundMember(members, i);
      CanonicalNames(members[i].name);
    }
    forall i, j | 0 <= i < j < |c.order| ensures c.order[i] != c.order[j] {
      assert SoundMember(members, j);
    }
  }

  // ---------------------------------------------------------------- what the reader accepts, by paths

  /** `stage.json`, or a `.json` file somewhere below `stages/recipes`. */
  predicate DeclarationPath(p: Path) {
    p == ["stage.json"]
    || (|p| >= 3 && p[0] == "stages" && p[1] == "recipes"
        && |p[|p| - 1]| >= 5 && p[|p| - 1][|p[|p| - 1]| - 5..] == ".json")
  }

  lemma {:induction false} JoinFront(p: Path)
    requires |p| > 1
    ensures Posix(p) == Posix(p[..|p| - 1]) + "/" + p[|p| - 1]
  {
    JoinConcat(p[..|p| - 1], [p[|p| - 1]], '/');
    assert p == p[..|p| - 1] + [p[|p| - 1]];
  }

  lemma JsonSuffix(p: Path)
    requires CanonicalPath(p)
    ensures var s, last := Posix(p), p[|p| - 1];
            |s| >= 5 && s[|s| - 5..] == ".json" <==> |last| >= 5 && last[|last| - 5..] == ".json"
  {
    var s, last := Posix(p), p[|p| - 1];
    if |p| > 1 {
      JoinFront(p);
      assert s[|s| - |last|..] == last && s[|s| - |last| - 1] == '/';
      if |last| >= 5 {
        assert s[|s| - 5..] == last[|last| - 5..];
      } else if |s| >= 5 {
        var end := s[|s| - 5..];
        assert end[4 - |last|] == '/';
        assert '/' in end && '/' !in ".json";
      }
    } else {
      assert s == last;
    }
  }

  lemma RecipePrefix(p: Path)
    requires CanonicalPath(p)
    ensures "stages/recipes/" <= Posix(p) <==> |p| >= 3 && p[0] == "stages" && p[1] == "recipes"
  {
    hide Split, Join;
    var head := ["stages", "recipes"];
    RecipeHead();
    SplitJoin(p, '/');
    if "stages/recipes/" <= Posix(p) {
      var rest := Posix(p)[15..];
      assert Posix(p) == "stages/recipes" + ['/'] + rest;
      SplitConcat("stages/recipes", rest, '/');
      assert p == head + Split(rest, '/');
    }
    if |p| >= 3 && p[0] == "stages" && p[1] == "recipes" {
      assert p == head + p[2..];
      JoinConcat(head, p[2..], '/');
      assert Posix(p) == "stages/recipes" + "/" + Posix(p[2..]);
      assert Posix(p)[..15] == "stages/recipes/";
    }
  }

  lemma RecipeHead()
    ensures Join(["stages", "recipes"], '/') == "stages/recipes"
    ensures Split("stages/recipes", '/') == ["stages", "recipes"]
  {
    assert ["stages", "recipes"][1..] == ["recipes"];
    SplitJoin(["stages", "recipes"], '/');
  }

  lemma StagePath(p: Path)
    requires CanonicalPath(p)
    ensures Posix(p) == "stage.json" <==> p == ["stage.json"]
  {
    SplitJoin(p, '/');
    SplitJoin(["stage.json"], '/');
    assert Posix(["stage.json"]) == "stage.json";
  }

  /** Among canonical names the declarations are exactly those paths. */
  lemma DeclarationPaths(p: Path)
    requires CanonicalPath(p)
    ensures IsDeclaration(Posix(p)) <==> DeclarationPath(p)
  {
    assert p != [];
    hide Split, Join, Posix, CanonicalPath;
    JsonSuffix(p);
    RecipePrefix(p);
    StagePath(p);
  }

  /** A member stored under a canonical path, with or without trailing slashes. */
  ghost predicate StoredAt(m: Member, p: Path) {
    CanonicalPath(p) && exists n: nat :: m.name == Posix(p) + Slashes(n)
  }

  lemma StoredOnce(m: Member, p: Path)
    requires StoredAt(m, p)
    ensures CanonicalName(m.name) && Parts(m.name) == p && KeyOf(m.name) == Posix(p)
  {
    var n: nat :| m.name == Posix(p) + Slashes(n);
    CanonicalNames(m.name);
    CanonicalParts(p);
    PartsOfSlashed(Posix(p), n);
  }

  lemma CanonicalIsStored(m: Member)
    requires CanonicalName(m.name)
    ensures StoredAt(m, Parts(m.name))
  {
    CanonicalNames(m.name);
    var p, n: nat :| CanonicalPath(p) && m.name == Posix(p) + Slashes(n);
    assert StoredAt(m, p);
    StoredOnce(m, p);
  }

  /** What is asked of one member by itself. */
  ghost predicate MemberFits(m: Member) {
    && (exists p :: StoredAt(m, p)) && m.kind in {File, Directory}
    && (m.kind == File ==>
          && |m.data| == m.size
          && (forall p :: CanonicalPath(p) && m.name == Posix(p) && DeclarationPath(p) ==> m.size <= 1_048_576))
  }

  /** Two members are never stored under one path. */
  ghost predicate StoredApart(members: seq<Member>) {
    forall i, j, p :: 0 <= i < j < |members| ==> !(StoredAt(members[i], p) && StoredAt(members[j], p))
  }

  lemma FitsIs(m: Member)
    ensures MemberFits(m) <==> CanonicalName(m.name) && m.kind != Other && PayloadSound(m)
  {
    if CanonicalName(m.name) { CanonicalIsStored(m); }
    if p :| StoredAt(m, p) { StoredOnce(m, p); }
    forall p | CanonicalPath(p) && m.name == Posix(p) ensures IsDeclaration(m.name) <==> DeclarationPath(p) {
      DeclarationPaths(p);
    }
    if CanonicalName(m.name) && IsDeclaration(m.name) {
      DeclaredIsExact(m.name);
    }
  }

  /** A declaration's name has no slash at its end. */
  lemma DeclaredIsExact(name: string)
    requires CanonicalName(name) && IsDeclaration(name)
    ensures CanonicalPath(Parts(name)) && name == Posix(Parts(name))
  {
    CanonicalNames(name);
    assert name[|name| - 1] == 'e' || name[|name| - 1] == 'n' by {
      if name != "stage.json" { assert name[|name| - 5..][4] == 'n'; }
    }
    assert RStrip(name) == name;
  }

  /** Every member is acceptable to the reader exactly when each fits, no two share a path, and they are few enough. */
  lemma SoundMembersAre(members: seq<Member>)
    ensures (forall i :: 0 <= i < |members| ==> SoundMember(members, i)) <==>
              |members| <= 250_000 && StoredApart(members) && forall i :: 0 <= i < |members| ==> MemberFits(members[i])
  {
    hide CanonicalName, StoredAt, KeyOf, PayloadSound, MemberFits;
    forall i | 0 <= i < |members|
      ensures MemberFits(members[i]) <==>
                CanonicalName(members[i].name) && members[i].kind != Other && PayloadSound(members[i])
    {
      FitsIs(members[i]);
    }
    if forall i :: 0 <= i < |members| ==> SoundMember(members, i) {
      forall i, j, p | 0 <= i < j < |members| ensures !(StoredAt(members[i], p) && StoredAt(members[j], p)) {
        assert SoundMember(members, i) && SoundMember(members, j);
        SamePath(members[i], members[j]);
      }
      if members != [] { assert SoundMember(members, |members| - 1); }
      forall i | 0 <= i < |members| ensures MemberFits(members[i]) { assert SoundMember(members, i); }
    }
    if StoredApart(members) && |members| <= 250_000 && forall i :: 0 <= i < |members| ==> MemberFits(members[i]) {
      forall i | 0 <= i < |members| ensures SoundMember(members, i) {
        forall j | 0 <= j < i ensures KeyOf(members[j].name) != KeyOf(members[i].name) {
          SamePath(members[j], members[i]);
        }
      }
    }
  }

  lemma SamePath(a: Member, b: Member)
    requires CanonicalName(a.name) && CanonicalName(b.name)
    ensures KeyOf(a.name) == KeyOf(b.name) <==> exists p :: StoredAt(a, p) && StoredAt(b, p)
  {
    CanonicalIsStored(a);
    CanonicalIsStored(b);
    StoredOnce(a, Parts(a.name));
    StoredOnce(b, Parts(b.name));
    CanonicalParts(Parts(a.name));
    CanonicalParts(Parts(b.name));
    if p :| StoredAt(a, p) && StoredAt(b, p) {
      StoredOnce(a, p);
      StoredOnce(b, p);
    }
  }

  /** The running size counts every member once, directories too. */
  lemma {:induction false} TotalSizeAdds(a: seq<Member>, b: seq<Member>)
    ensures TotalSize(a + b) == TotalSize(a) + TotalSize(b)
    ensures |b| == 1 ==> TotalSize(b) == b[0].size
    decreases |b|
  {
    if b == [] {
      assert a + b == a;
    } else {
      var front := b[..|b| - 1];
      TotalSizeAdds(a, front);
      assert (a + b)[..|a + b| - 1] == a + front;
    }
  }
}
