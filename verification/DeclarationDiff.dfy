/**
 The structural difference of two stage declarations, listed by JSON pointer, and what a reader
 gets who replays the list on the left document.
 */
module DeclarationDiff {
  import opened Ordering
  import opened PosixPaths
  import opened Json

  // ---------------------------------------------------------------- pointers (RFC 6901)

  /** `str.replace` of one character. */
  function Replace(s: string, c: char, text: string): string {
    if s == "" then "" else (if s[0] == c then text else [s[0]]) + Replace(s[1..], c, text)
  }

  function Escape(key: string): string { Replace(Replace(key, '~', "~0"), '/', "~1") }

  /** A pointer reader's decoding of one token. */
  function Unescape(s: string): string {
    if |s| < 2 then s
    else if s[0] == '~' && s[1] == '0' then "~" + Unescape(s[2..])
    else if s[0] == '~' && s[1] == '1' then "/" + Unescape(s[2..])
    else [s[0]] + Unescape(s[1..])
  }

  lemma {:induction false} ReplaceAppend(a: string, b: string, c: char, text: string)
    ensures Replace(a + b, c, text) == Replace(a, c, text) + Replace(b, c, text)
  {
    if a == "" {
      assert a + b == b;
    } else {
      assert (a + b)[1..] == a[1..] + b;
      ReplaceAppend(a[1..], b, c, text);
    }
  }

  function EscapeChar(c: char): string { if c == '~' then "~0" else if c == '/' then "~1" else [c] }

  lemma EscapeStep(key: string)
    requires key != ""
    ensures Escape(key) == EscapeChar(key[0]) + Escape(key[1..])
  {
    var once := if key[0] == '~' then "~0" else [key[0]];
    ReplaceAppend(once, Replace(key[1..], '~', "~0"), '/', "~1");
    assert once[1..] == "" || (once[1..] == "0" && "0"[1..] == "");
  }

  lemma {:induction false} UnescapeEscape(key: string)
    ensures Unescape(Escape(key)) == key
    ensures '/' !in Escape(key)
  {
    if key != "" {
      EscapeStep(key);
      UnescapeEscape(key[1..]);
      var e := Escape(key);
      if key[0] == '~' || key[0] == '/' {
        assert e[2..] == Escape(key[1..]);
      } else {
        assert e[1..] == Escape(key[1..]);
      }
    }
  }

  /** The pointer of a chain of keys. */
  function Render(path: seq<string>): string {
    if path == [] then "" else Render(path[..|path| - 1]) + "/" + Escape(path[|path| - 1])
  }

  lemma RenderDeeper(path: seq<string>, key: string)
    ensures Render(path + [key]) == Render(path) + "/" + Escape(key)
  {
    assert (path + [key])[..|path|] == path;
  }

  function UnescapeAll(tokens: seq<string>): (r: seq<string>)
    ensures |r| == |tokens| && forall i :: 0 <= i < |r| ==> r[i] == Unescape(tokens[i])
  {
    seq(|tokens|, i requires 0 <= i < |tokens| => Unescape(tokens[i]))
  }

  /** The chain of keys a pointer names. */
  function Tokens(field: string): seq<string> {
    if field == "" then [] else UnescapeAll(Split(field[1..], '/'))
  }

  function EscapeAll(path: seq<string>): (r: seq<string>)
    ensures |r| == |path| && forall i :: 0 <= i < |r| ==> r[i] == Escape(path[i])
  {
    seq(|path|, i requires 0 <= i < |path| => Escape(path[i]))
  }

  lemma {:induction false} JoinSnoc(p: seq<string>, last: string)
    requires p != []
    ensures Join(p + [last], '/') == Join(p, '/') + "/" + last
  {
    if |p| == 1 {
      assert (p + [last])[1..] == [last];
    } else {
      assert (p + [last])[1..] == p[1..] + [last];
      JoinSnoc(p[1..], last);
    }
  }

  lemma EscapeAllSnoc(front: seq<string>, last: string)
    ensures EscapeAll(front + [last]) == EscapeAll(front) + [Escape(last)]
  {
    hide Escape;
  }

  lemma {:induction false} RenderIsJoin(path: seq<string>)
    requires path != []
    ensures Render(path) == "/" + Join(EscapeAll(path), '/')
  {
    hide Escape, EscapeAll, Join;
    var front, last := path[..|path| - 1], path[|path| - 1];
    EscapeAllSnoc(front, last);
    assert path == front + [last];
    if front == [] {
      JoinOne(path, last);
      assert Render(path) == Render(front) + "/" + Escape(last);
    } else {
      RenderIsJoin(front);
      JoinSnoc(EscapeAll(front), Escape(last));
      assert Render(path) == "/" + (Join(EscapeAll(front), '/') + "/" + Escape(last));
    }
  }

  lemma JoinOne(path: seq<string>, last: string)
    requires path == [last]
    ensures Join(EscapeAll(path), '/') == Escape(last)
  {
    hide Escape;
  }

  /** Reading a rendered pointer gives back the keys, whatever characters they hold. */
  lemma TokensOfRender(path: seq<string>)
    ensures Tokens(Render(path)) == path
  {
    if path != [] {
      RenderIsJoin(path);
      forall i | 0 <= i < |path| ensures '/' !in EscapeAll(path)[i] && Unescape(EscapeAll(path)[i]) == path[i] {
        UnescapeEscape(path[i]);
      }
      SplitJoin(EscapeAll(path), '/');
      assert Render(path)[1..] == Join(EscapeAll(path), '/');
    }
  }

  // ---------------------------------------------------------------- the difference

  datatype Change =
    | Added(field: string, right: Json)
    | Removed(field: string, left: Json)
    | Modified(field: string, left: Json, right: Json)

  /** `declaration_changes`. */
  function Changes(left: Json, right: Json, prefix: string): seq<Change>
    decreases left, 1, 0
  {
    if left.JObj? && right.JObj? then
      FieldChanges(left, right, Sorted(left.fields.Keys + right.fields.Keys), prefix)
    else if PyEq(left, right) then []
    else [Modified(if prefix != "" then prefix else "/", left, right)]
  }

  function FieldChanges(left: Json, right: Json, keys: seq<string>, prefix: string): seq<Change>
    requires left.JObj? && right.JObj? && forall k :: k in keys ==> k in left.fields || k in right.fields
    decreases left, 0, |keys|
  {
    if keys == [] then [] else
    KeyChanges(left, right, keys[0], prefix + "/" + Escape(keys[0])) + FieldChanges(left, right, keys[1..], prefix)
  }

  /** What one key contributes. */
  function KeyChanges(left: Json, right: Json, key: string, field: string): seq<Change>
    requires left.JObj? && right.JObj? && (key in left.fields || key in right.fields)
    decreases left, 0, 0
  {
    if key !in left.fields then [Added(field, right.fields[key])]
    else if key !in right.fields then [Removed(field, left.fields[key])]
    else Changes(left.fields[key], right.fields[key], field)
  }

  lemma {:induction false} NoChanges(left: Json, right: Json, prefix: string)
    ensures Changes(left, right, prefix) == [] <==> PyEq(left, right)
    decreases left, 1, 0
  {
    hide FieldChanges, Escape;
    if left.JObj? && right.JObj? {
      var keys := Sorted(left.fields.Keys + right.fields.Keys);
      NoFieldChanges(left, right, keys, prefix);
      ObjectsEqual(left, right, keys);
    }
  }

  lemma ObjectsEqual(left: Json, right: Json, keys: seq<string>)
    requires left.JObj? && right.JObj? && forall k :: k in keys <==> k in left.fields || k in right.fields
    ensures PyEq(left, right) <==>
              forall k :: k in keys ==> k in left.fields && k in right.fields && PyEq(left.fields[k], right.fields[k])
  {
    if forall k :: k in keys ==> k in left.fields && k in right.fields {
      assert forall k :: k in left.fields <==> k in keys;
      assert left.fields.Keys == right.fields.Keys;
    }
  }

  lemma {:induction false} NoFieldChanges(left: Json, right: Json, keys: seq<string>, prefix: string)
    requires left.JObj? && right.JObj? && forall k :: k in keys ==> k in left.fields || k in right.fields
    ensures FieldChanges(left, right, keys, prefix) == [] <==>
              forall k :: k in keys ==> k in left.fields && k in right.fields && PyEq(left.fields[k], right.fields[k])
    decreases left, 0, |keys|
  {
    if keys != [] {
      var key := keys[0];
      if key in left.fields && key in right.fields {
        NoChanges(left.fields[key], right.fields[key], prefix + "/" + Escape(key));
      }
      NoFieldChanges(left, right, keys[1..], prefix);
      assert keys == [key] + keys[1..];
    }
  }

  function Swap(c: Change): Change {
    match c
    case Added(f, x) => Removed(f, x)
    case Removed(f, x) => Added(f, x)
    case Modified(f, l, r) => Modified(f, r, l)
  }

  function SwapAll(cs: seq<Change>): seq<Change> { seq(|cs|, i requires 0 <= i < |cs| => Swap(cs[i])) }

  lemma SwapAppend(a: seq<Change>, b: seq<Change>)
    ensures SwapAll(a + b) == SwapAll(a) + SwapAll(b)
  {}

  /** Comparing the other way round lists the same fields with added and removed exchanged. */
  lemma {:induction false} ChangesSwap(left: Json, right: Json, prefix: string)
    ensures Changes(right, left, prefix) == SwapAll(Changes(left, right, prefix))
    decreases left, 1, 0
  {
    if left.JObj? && right.JObj? {
      assert left.fields.Keys + right.fields.Keys == right.fields.Keys + left.fields.Keys;
      FieldChangesSwap(left, right, Sorted(left.fields.Keys + right.fields.Keys), prefix);
    } else {
      PyEqSymmetric(left, right);
    }
  }

  lemma {:induction false} FieldChangesSwap(left: Json, right: Json, keys: seq<string>, prefix: string)
    requires left.JObj? && right.JObj? && forall k :: k in keys ==> k in left.fields || k in right.fields
    ensures FieldChanges(right, left, keys, prefix) == SwapAll(FieldChanges(left, right, keys, prefix))
    decreases left, 0, |keys|
  {
    if keys != [] {
      var key := keys[0];
      var field := prefix + "/" + Escape(key);
      FieldChangesSwap(left, right, keys[1..], prefix);
      var rest := FieldChanges(left, right, keys[1..], prefix);
      if key !in left.fields {
        SwapAppend([Added(field, right.fields[key])], rest);
      } else if key !in right.fields {
        SwapAppend([Removed(field, left.fields[key])], rest);
      } else {
        ChangesSwap(left.fields[key], right.fields[key], field);
        SwapAppend(Changes(left.fields[key], right.fields[key], field), rest);
      }
    }
  }

  // ---------------------------------------------------------------- replaying it

  /** Puts `x` at the place a chain of keys names. */
  function Put(v: Json, path: seq<string>, x: Json): Json
    decreases |path|
  {
    if path == [] then x
    else if !v.JObj? then v
    else JObj(v.fields[path[0] := Put(if path[0] in v.fields then v.fields[path[0]] else JNull, path[1..], x)])
  }

  /** Deletes what a chain of keys names. */
  function Drop(v: Json, path: seq<string>): Json
    decreases |path|
  {
    if path == [] || !v.JObj? || path[0] !in v.fields then v
    else if |path| == 1 then JObj(v.fields - {path[0]})
    else JObj(v.fields[path[0] := Drop(v.fields[path[0]], path[1..])])
  }

  function ApplyAt(v: Json, c: Change, path: seq<string>): Json {
    match c
    case Added(_, x) => Put(v, path, x)
    case Removed(_, _) => Drop(v, path)
    case Modified(_, _, x) => Put(v, path, x)
  }

  /** What a reader of the report does: every listed field is set or deleted, in turn. */
  function Replay(v: Json, cs: seq<Change>): Json {
    if cs == [] then v else
    var last := |cs| - 1;
    ApplyAt(Replay(v, cs[..last]), cs[last], Tokens(cs[last].field))
  }

  /** Replaying below the place `base` names, with fields still counted from the root. */
  function ReplayBelow(v: Json, cs: seq<Change>, depth: nat): Json {
    if cs == [] then v else
    var last := |cs| - 1;
    var path := Tokens(cs[last].field);
    ApplyAt(ReplayBelow(v, cs[..last], depth), cs[last], if depth <= |path| then path[depth..] else [])
  }

  lemma {:induction false} ReplayBelowAppend(v: Json, a: seq<Change>, b: seq<Change>, depth: nat)
    ensures ReplayBelow(v, a + b, depth) == ReplayBelow(ReplayBelow(v, a, depth), b, depth)
  {
    if b == [] {
      assert a + b == a;
    } else {
      assert (a + b)[..|a + b| - 1] == a + b[..|b| - 1];
      ReplayBelowAppend(v, a, b[..|b| - 1], depth);
    }
  }

  lemma {:induction false} ReplayIsBelow(v: Json, cs: seq<Change>)
    ensures Replay(v, cs) == ReplayBelow(v, cs, 0)
  {
    if cs != [] {
      ReplayIsBelow(v, cs[..|cs| - 1]);
      assert Tokens(cs[|cs| - 1].field)[0..] == Tokens(cs[|cs| - 1].field);
    }
  }

  /** The change is listed at or below the place `base` names; a deletion strictly below. */
  predicate ListedBelow(c: Change, base: seq<string>) {
    var path := Tokens(c.field);
    && |base| <= |path| && path[..|base|] == base
    && (c.Removed? ==> |base| < |path|)
  }

  /** What the replay makes of the left document: the right one, up to values Python calls equal. */
  function Merge(left: Json, right: Json): Json
    decreases left
  {
    if left.JObj? && right.JObj? then
      JObj(map k | k in right.fields ::
        if k in left.fields then Merge(left.fields[k], right.fields[k]) else right.fields[k])
    else if PyEq(left, right) then left else right
  }

  /** What the merged document holds under a key of the right one. */
  function MergedAt(left: Json, right: Json, k: string): Json
    requires left.JObj? && right.JObj? && k in right.fields
  {
    if k in left.fields then Merge(left.fields[k], right.fields[k]) else right.fields[k]
  }

  lemma {:induction false} ChangesBelow(left: Json, right: Json, path: seq<string>)
    requires path != [] || (left.JObj? && right.JObj?)
    ensures forall c :: c in Changes(left, right, Render(path)) ==> ListedBelow(c, path)
    decreases left, 1, 0
  {
    TokensOfRender(path);
    if left.JObj? && right.JObj? {
      FieldChangesBelow(left, right, Sorted(left.fields.Keys + right.fields.Keys), path);
    } else if !PyEq(left, right) {
      RenderIsJoin(path);
    }
  }

  lemma {:induction false} FieldChangesBelow(left: Json, right: Json, keys: seq<string>, path: seq<string>)
    requires left.JObj? && right.JObj? && forall k :: k in keys ==> k in left.fields || k in right.fields
    ensures forall c :: c in FieldChanges(left, right, keys, Render(path)) ==> ListedBelow(c, path)
    decreases left, 0, |keys|
  {
    if keys != [] {
      var key := keys[0];
      var deeper := path + [key];
      RenderDeeper(path, key);
      TokensOfRender(deeper);
      FieldChangesBelow(left, right, keys[1..], path);
      if key in left.fields && key in right.fields {
        ChangesBelow(left.fields[key], right.fields[key], deeper);
        forall c | c in Changes(left.fields[key], right.fields[key], Render(deeper)) ensures ListedBelow(c, path) {
          assert Tokens(c.field)[..|deeper|] == deeper;
          assert Tokens(c.field)[..|deeper|][..|path|] == path;
        }
      }
    }
  }

  /** Changes listed below one key only change what that key holds. */
  lemma {:induction false} ReplayUnderKey(m: map<string, Json>, key: string, cs: seq<Change>, path: seq<string>)
    requires key in m && forall c :: c in cs ==> ListedBelow(c, path + [key])
    ensures ReplayBelow(JObj(m), cs, |path|) == JObj(m[key := ReplayBelow(m[key], cs, |path| + 1)])
  {
    hide Tokens, ApplyAt;
    if cs == [] {
      assert m[key := m[key]] == m;
    } else {
      var last := |cs| - 1;
      ReplayUnderKey(m, key, cs[..last], path);
      var c := cs[last];
      assert c in cs && ListedBelow(c, path + [key]);
      TokensBelow(Tokens(c.field), path, key);
      var inner := ReplayBelow(m[key], cs[..last], |path| + 1);
      UnderKeyStep(m[key := inner], key, c, Tokens(c.field)[|path|..]);
      assert m[key := inner][key := ApplyAt(inner, c, Tokens(c.field)[|path| + 1..])]
          == m[key := ApplyAt(inner, c, Tokens(c.field)[|path| + 1..])];
    }
  }

  lemma TokensBelow(tokens: seq<string>, path: seq<string>, key: string)
    requires |path| + 1 <= |tokens| && tokens[..|path| + 1] == path + [key]
    ensures tokens[|path|..][0] == key && tokens[|path|..][1..] == tokens[|path| + 1..]
  {
    assert tokens[|path|] == tokens[..|path| + 1][|path|];
  }

  lemma ReplaySingle(v: Json, c: Change, depth: nat)
    requires depth <= |Tokens(c.field)|
    ensures ReplayBelow(v, [c], depth) == ApplyAt(v, c, Tokens(c.field)[depth..])
  {
    hide Tokens, ApplyAt;
    assert [c][..0] == [];
  }

  lemma UnderKeyStep(m: map<string, Json>, key: string, c: Change, path: seq<string>)
    requires path != [] && path[0] == key && key in m && (c.Removed? ==> |path| > 1)
    ensures ApplyAt(JObj(m), c, path) == JObj(m[key := ApplyAt(m[key], c, path[1..])])
  {}

  lemma {:induction false} ReplayMerges(left: Json, right: Json, path: seq<string>)
    requires path != [] || (left.JObj? && right.JObj?)
    ensures ReplayBelow(left, Changes(left, right, Render(path)), |path|) == Merge(left, right)
    decreases left, 1, 0
  {
    if left.JObj? && right.JObj? {
      hide FieldChanges, Tokens, Render, ReplayBelow;
      var keys := Sorted(left.fields.Keys + right.fields.Keys);
      SortedDistinct(left.fields.Keys + right.fields.Keys);
      var m := ReplayFields(left, right, keys, path, left.fields);
      MergedFields(left, right, keys, m);
    } else if !PyEq(left, right) {
      RenderIsJoin(path);
      TokensOfRender(path);
      hide Tokens, Render, Escape;
      ReplaySingle(left, Modified(Render(path), left, right), |path|);
      assert path[|path|..] == [];
    }
  }

  lemma MergedFields(left: Json, right: Json, keys: seq<string>, m: map<string, Json>)
    requires left.JObj? && right.JObj? && forall k :: k in keys <==> k in left.fields || k in right.fields
    requires Brought(left, right, keys, left.fields, m)
    ensures Merge(left, right) == JObj(m)
  {
    assert Merge(left, right).fields == m;
  }

  /** `n` is `m` with the given keys as the right side has them. */
  ghost predicate Brought(left: Json, right: Json, keys: seq<string>, m: map<string, Json>, n: map<string, Json>)
    requires left.JObj? && right.JObj?
  {
    && (forall k :: k !in keys ==> (k in n <==> k in m) && (k in m ==> n[k] == m[k]))
    && (forall k :: k in keys ==> (k in n <==> k in right.fields)
                                  && (k in n && k in right.fields ==> n[k] == MergedAt(left, right, k)))
  }

  lemma BroughtNone(left: Json, right: Json, m: map<string, Json>)
    requires left.JObj? && right.JObj?
    ensures Brought(left, right, [], m, m)
  {}

  lemma BroughtOne(left: Json, right: Json, key: string, m: map<string, Json>, step: map<string, Json>)
    requires left.JObj? && right.JObj?
    requires step == if key in right.fields then m[key := MergedAt(left, right, key)] else m - {key}
    ensures Brought(left, right, [key], m, step)
  {
    hide MergedAt;
  }

  /** The keys still to come hold what they held. */
  lemma BroughtOthers(left: Json, right: Json, keys: seq<string>, m: map<string, Json>, step: map<string, Json>)
    requires left.JObj? && right.JObj? && keys != [] && Brought(left, right, [keys[0]], m, step)
    requires forall i, j :: 0 <= i < j < |keys| ==> keys[i] != keys[j]
    ensures keys[0] !in keys[1..]
    ensures forall k :: k in keys[1..] ==> (k in step <==> k in m) && (k in m ==> step[k] == m[k])
  {
    hide MergedAt;
  }

  lemma BroughtStep(left: Json, right: Json, keys: seq<string>, m: map<string, Json>, step: map<string, Json>,
                    n: map<string, Json>)
    requires left.JObj? && right.JObj? && keys != [] && keys[0] !in keys[1..]
    requires Brought(left, right, [keys[0]], m, step) && Brought(left, right, keys[1..], step, n)
    ensures Brought(left, right, keys, m, n)
  {
    hide MergedAt;
    assert forall k :: k in keys <==> k == keys[0] || k in keys[1..];
  }

  /** The keys of `keys` brought to the right side, one by one, the others left as they are. */
  lemma {:induction false} ReplayFields(left: Json, right: Json, keys: seq<string>, path: seq<string>, m: map<string,
                                        Json>)
    returns (n: map<string, Json>)
    requires left.JObj? && right.JObj? && forall k :: k in keys ==> k in left.fields || k in right.fields
    requires forall i, j :: 0 <= i < j < |keys| ==> keys[i] != keys[j]
    requires forall k :: k in keys ==> (k in m <==> k in left.fields) && (k in m ==> m[k] == left.fields[k])
    ensures ReplayBelow(JObj(m), FieldChanges(left, right, keys, Render(path)), |path|) == JObj(n)
    ensures Brought(left, right, keys, m, n)
    decreases left, 0, |keys| + 1
  {
    hide Tokens, Render, Escape, KeyChanges, Brought;
    if keys == [] {
      n := m;
      BroughtNone(left, right, m);
    } else {
      var key := keys[0];
      RenderDeeper(path, key);
      var first := KeyChanges(left, right, key, Render(path + [key]));
      ReplayBelowAppend(JObj(m), first, FieldChanges(left, right, keys[1..], Render(path)), |path|);
      var step := ReplayFirst(left, right, key, path, m);
      hide FieldChanges, ReplayBelow;
      BroughtOthers(left, right, keys, m, step);
      n := ReplayFields(left, right, keys[1..], path, step);
      BroughtStep(left, right, keys, m, step, n);
    }
  }

  lemma PutOne(m: map<string, Json>, key: string, x: Json)
    ensures Put(JObj(m), [key], x) == JObj(m[key := x])
  {
    assert [key][1..] == [];
    assert Put(if key in m then m[key] else JNull, [key][1..], x) == x;
  }

  /** One key brought to the right side. */
  lemma {:induction false} ReplayFirst(left: Json, right: Json, key: string, path: seq<string>, m: map<string, Json>)
    returns (step: map<string, Json>)
    requires left.JObj? && right.JObj? && (key in left.fields || key in right.fields)
    requires (key in m <==> key in left.fields) && (key in m ==> m[key] == left.fields[key])
    ensures ReplayBelow(JObj(m), KeyChanges(left, right, key, Render(path + [key])), |path|) == JObj(step)
    ensures Brought(left, right, [key], m, step)
    decreases left, 0, 0
  {
    hide Tokens, Render, Escape, Brought, ReplayBelow, FieldChanges;
    var deeper := path + [key];
    var first := KeyChanges(left, right, key, Render(deeper));
    TokensOfRender(deeper);
    assert deeper[|path|..] == [key] && [key][1..] == [];
    if key in left.fields && key in right.fields {
      hide Changes, Merge;
      ChangesBelow(left.fields[key], right.fields[key], deeper);
      ReplayUnderKey(m, key, first, path);
      ReplayMerges(left.fields[key], right.fields[key], deeper);
      step := m[key := MergedAt(left, right, key)];
    } else {
      assert first == [first[0]];
      ReplaySingle(JObj(m), first[0], |path|);
      if key in right.fields {
        PutOne(m, key, right.fields[key]);
        step := m[key := right.fields[key]];
      } else {
        step := m - {key};
      }
    }
    BroughtOne(left, right, key, m, step);
  }

  /** Somewhere both documents hold values that differ, though Python calls them equal. */
  predicate Aliased(left: Json, right: Json)
    decreases left
  {
    if left.JObj? && right.JObj? then
      exists k :: k in left.fields && k in right.fields && Aliased(left.fields[k], right.fields[k])
    else PyEq(left, right) && left != right
  }

  lemma {:induction false} MergeIsRight(left: Json, right: Json)
    ensures PyEq(Merge(left, right), right)
    ensures Merge(left, right) == right <==> !Aliased(left, right)
    decreases left
  {
    if left.JObj? && right.JObj? {
      var m := Merge(left, right).fields;
      forall k | k in right.fields
        ensures PyEq(m[k], right.fields[k])
        ensures m[k] == right.fields[k] <==> !(k in left.fields && Aliased(left.fields[k], right.fields[k]))
      {
        if k in left.fields { MergeIsRight(left.fields[k], right.fields[k]); }
        else { PyEqReflexive(right.fields[k]); }
      }
      assert m.Keys == right.fields.Keys;
    } else {
      PyEqReflexive(right);
    }
  }

  predicate BothObjects(left: Json, right: Json) { left.JObj? && right.JObj? }

  /**
   Exactly when replaying the listed changes on the left document rebuilds the right one: the
   roots are objects or equal to Python, and no value differs only in ways Python ignores.
   */
  lemma ReplayRebuildsRight(left: Json, right: Json)
    ensures PyEq(Replay(left, Changes(left, right, "")), right) <==> BothObjects(left, right) || PyEq(left, right)
    ensures Replay(left, Changes(left, right, "")) == right <==>
              !Aliased(left, right) && (BothObjects(left, right) || PyEq(left, right))
  {
    if BothObjects(left, right) {
      assert Render([]) == "";
      ReplayIsBelow(left, Changes(left, right, ""));
      ReplayMerges(left, right, []);
      MergeIsRight(left, right);
    } else if PyEq(left, right) {
      assert Changes(left, right, "") == [];
    } else {
      RootIsMisnamed(left, right);
      PyEqReflexive(right);
    }
  }

  /** A boolean replaced by the number Python equates with it goes unlisted. */
  lemma AliasedWitness()
    ensures var l, r := JObj(map["dirty" := JBool(true)]), JObj(map["dirty" := JInt(1)]);
            l != r && Changes(l, r, "") == [] && Aliased(l, r)
  {
    var l, r := JObj(map["dirty" := JBool(true)]), JObj(map["dirty" := JInt(1)]);
    assert l.fields["dirty"] != r.fields["dirty"];
    assert PyEq(l.fields["dirty"], r.fields["dirty"]);
    assert forall k :: k in l.fields ==> k == "dirty";
    assert PyEq(l, r);
    NoChanges(l, r, "");
    assert "dirty" in l.fields && "dirty" in r.fields && Aliased(l.fields["dirty"], r.fields["dirty"]);
  }

  /**
   A changed root that is not an object on both sides, as for a declaration only one archive has,
   is listed as the member with the empty name, and replay sets that member or nothing.
   */
  lemma RootIsMisnamed(left: Json, right: Json)
    requires !BothObjects(left, right) && !PyEq(left, right)
    ensures Changes(left, right, "") == [Modified("/", left, right)] && Tokens("/") == [""]
    ensures Replay(left, Changes(left, right, "")) == if left.JObj? then JObj(left.fields["" := right]) else left
    ensures !PyEq(Replay(left, Changes(left, right, "")), right)
  {
    var cs := Changes(left, right, "");
    assert cs == [Modified("/", left, right)];
    assert "/"[1..] == "";
    assert cs[..0] == [];
    assert [""][1..] == [];
    if left.JObj? {
      assert Put(if "" in left.fields then left.fields[""] else JNull, [""][1..], right) == right;
      assert Put(left, [""], right) == JObj(left.fields["" := right]);
    }
  }

  // ---------------------------------------------------------------- no field under another

  predicate Comparable(a: seq<string>, b: seq<string>) { a <= b || b <= a }

  ghost predicate Independent(cs: seq<Change>) {
    forall i, j :: 0 <= i < j < |cs| ==> !Comparable(Tokens(cs[i].field), Tokens(cs[j].field))
  }

  lemma IndependentAppend(a: seq<Change>, b: seq<Change>)
    requires Independent(a) && Independent(b)
    requires forall x, y :: x in a && y in b ==> !Comparable(Tokens(x.field), Tokens(y.field))
    ensures Independent(a + b)
  {}

  /** No listed field is another's ancestor, and none is listed twice. */
  lemma {:induction false} ChangesIndependent(left: Json, right: Json, path: seq<string>)
    requires path != [] || (left.JObj? && right.JObj?)
    ensures Independent(Changes(left, right, Render(path)))
    decreases left, 1, 0
  {
    if left.JObj? && right.JObj? {
      SortedDistinct(left.fields.Keys + right.fields.Keys);
      FieldChangesIndependent(left, right, Sorted(left.fields.Keys + right.fields.Keys), path);
    }
  }

  /** Each listed field goes through one of the given keys. */
  predicate Through(c: Change, path: seq<string>, keys: seq<string>) {
    var t := Tokens(c.field);
    |t| > |path| && t[..|path|] == path && t[|path|] in keys
  }

  lemma {:induction false} FieldChangesIndependent(left: Json, right: Json, keys: seq<string>, path: seq<string>)
    requires left.JObj? && right.JObj? && forall k :: k in keys ==> k in left.fields || k in right.fields
    requires forall i, j :: 0 <= i < j < |keys| ==> keys[i] != keys[j]
    ensures Independent(FieldChanges(left, right, keys, Render(path)))
    ensures forall c :: c in FieldChanges(left, right, keys, Render(path)) ==> Through(c, path, keys)
    decreases left, 0, |keys|
  {
    hide Tokens, Render, Escape, Changes, Comparable;
    if keys != [] {
      var key := keys[0];
      var deeper := path + [key];
      RenderDeeper(path, key);
      TokensOfRender(deeper);
      var rest := FieldChanges(left, right, keys[1..], Render(path));
      var first := KeyChanges(left, right, key, Render(deeper));
      FieldChangesIndependent(left, right, keys[1..], path);
      if key in left.fields && key in right.fields {
        ChangesIndependent(left.fields[key], right.fields[key], deeper);
        ChangesBelow(left.fields[key], right.fields[key], deeper);
      }
      forall c | c in first ensures Through(c, path, [key]) {
        assert Tokens(c.field)[..|deeper|] == deeper;
        assert Tokens(c.field)[..|deeper|][..|path|] == path && Tokens(c.field)[..|deeper|][|path|] == key;
      }
      forall x, y | x in first && y in rest ensures !Comparable(Tokens(x.field), Tokens(y.field)) {
        ThroughDifferentKeys(x, y, path, key, keys[1..]);
      }
      IndependentAppend(first, rest);
    }
  }

  lemma ThroughDifferentKeys(x: Change, y: Change, path: seq<string>, key: string, others: seq<string>)
    requires Through(x, path, [key]) && Through(y, path, others) && key !in others
    ensures !Comparable(Tokens(x.field), Tokens(y.field))
  {}

  // ---------------------------------------------------------------- order

  /** `a` comes first where the two chains of keys first part. */
  predicate Before(a: seq<string>, b: seq<string>) {
    exists k :: 0 <= k < |a| && k < |b| && a[..k] == b[..k] && Less(a[k], b[k])
  }

  ghost predicate InOrder(cs: seq<Change>) {
    forall i, j :: 0 <= i < j < |cs| ==> Before(Tokens(cs[i].field), Tokens(cs[j].field))
  }

  lemma InOrderAppend(a: seq<Change>, b: seq<Change>)
    requires InOrder(a) && InOrder(b)
    requires forall x, y :: x in a && y in b ==> Before(Tokens(x.field), Tokens(y.field))
    ensures InOrder(a + b)
  {
    hide Before, Tokens;
  }

  /** Fields are listed in the order of their keys, level by level. */
  lemma {:induction false} ChangesInOrder(left: Json, right: Json, path: seq<string>)
    requires path != [] || (left.JObj? && right.JObj?)
    ensures InOrder(Changes(left, right, Render(path)))
    decreases left, 1, 0
  {
    hide Before, Tokens, Render, FieldChanges, Less;
    if left.JObj? && right.JObj? {
      SortedDistinct(left.fields.Keys + right.fields.Keys);
      FieldChangesInOrder(left, right, Sorted(left.fields.Keys + right.fields.Keys), path);
    }
  }

  lemma {:induction false} FieldChangesInOrder(left: Json, right: Json, keys: seq<string>, path: seq<string>)
    requires left.JObj? && right.JObj? && forall k :: k in keys ==> k in left.fields || k in right.fields
    requires forall i, j :: 0 <= i < j < |keys| ==> keys[i] != keys[j] && Less(keys[i], keys[j])
    ensures InOrder(FieldChanges(left, right, keys, Render(path)))
    decreases left, 0, |keys|
  {
    hide Tokens, Render, Escape, Changes, Before, Less, Through;
    if keys != [] {
      var key := keys[0];
      var deeper := path + [key];
      RenderDeeper(path, key);
      var rest := FieldChanges(left, right, keys[1..], Render(path));
      var first := KeyChanges(left, right, key, Render(deeper));
      FieldChangesInOrder(left, right, keys[1..], path);
      FieldChangesIndependent(left, right, keys[1..], path);
      FieldChangesIndependent(left, right, [key], path);
      FieldChangesOne(left, right, key, path);
      if key in left.fields && key in right.fields { ChangesInOrder(left.fields[key], right.fields[key], deeper); }
      forall x, y | x in first && y in rest ensures Before(Tokens(x.field), Tokens(y.field)) {
        assert Through(x, path, [key]) && Through(y, path, keys[1..]);
        ThroughInOrder(x, y, path, key, keys[1..]);
      }
      InOrderAppend(first, rest);
    }
  }

  lemma FieldChangesOne(left: Json, right: Json, key: string, path: seq<string>)
    requires left.JObj? && right.JObj? && (key in left.fields || key in right.fields)
    ensures FieldChanges(left, right, [key], Render(path)) == KeyChanges(left, right, key, Render(path + [key]))
  {
    hide Render, Escape, KeyChanges;
    RenderDeeper(path, key);
    assert [key][1..] == [];
  }

  lemma ThroughInOrder(x: Change, y: Change, path: seq<string>, key: string, others: seq<string>)
    requires Through(x, path, [key]) && Through(y, path, others) && forall k :: k in others ==> Less(key, k)
    ensures Before(Tokens(x.field), Tokens(y.field))
  {
    hide Tokens, Less;
    var a, b := Tokens(x.field), Tokens(y.field);
    assert a[..|path|] == b[..|path|] && Less(a[|path|], b[|path|]);
  }
}
