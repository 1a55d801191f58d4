/**
 The byte streams hashed into cache keys: NUL-terminated fields, for an inventory
 in sorted order and for a list of files with their positions.
 Text stands for its UTF-8 bytes, which is an injective encoding.
 */
module Framing {
  import opened Ordering
  import opened PosixPaths

  const NUL := '\0'

  predicate NulFree(s: string) { NUL !in s }

  predicate AllNulFree(fields: seq<string>) { forall i :: 0 <= i < |fields| ==> NulFree(fields[i]) }

  /** Every field followed by a NUL. */
  function Frame(fields: seq<string>): string {
    if fields == [] then "" else fields[0] + [NUL] + Frame(fields[1..])
  }

  lemma {:induction false} FrameAppend(a: seq<string>, b: seq<string>)
    ensures Frame(a + b) == Frame(a) + Frame(b)
  {
    if a == [] {
      assert a + b == b;
    } else {
      assert (a + b)[1..] == a[1..] + b;
      FrameAppend(a[1..], b);
    }
  }

  lemma FramePair(x: string, y: string)
    ensures Frame([x, y]) == x + [NUL] + y + [NUL]
  {
    assert [x, y][1..] == [y] && [y][1..] == [];
    assert Frame([y]) == y + [NUL] + "";
    assert Frame([x, y]) == x + [NUL] + Frame([y]);
  }

  /** A reader that splits at NULs gets the fields back. */
  lemma {:induction false} FrameSplits(fields: seq<string>)
    requires AllNulFree(fields)
    ensures Split(Frame(fields), NUL) == fields + [""]
  {
    if fields != [] {
      FrameSplits(fields[1..]);
      SplitHead(fields[0], Frame(fields[1..]), NUL);
      assert [fields[0]] + (fields[1..] + [""]) == fields + [""];
    }
  }

  lemma FrameInjective(a: seq<string>, b: seq<string>)
    requires AllNulFree(a) && AllNulFree(b) && Frame(a) == Frame(b)
    ensures a == b
  {
    FrameSplits(a);
    FrameSplits(b);
    assert a == (a + [""])[..|a + [""]| - 1];
    assert b == (b + [""])[..|b + [""]| - 1];
  }

  // ---------------------------------------------------------------- inventories

  type Inventory = map<string, string>

  predicate InventoryNulFree(inv: Inventory) {
    forall k :: k in inv ==> NulFree(k) && NulFree(inv[k])
  }

  /** Path and identity of each listed key, in turn. */
  function ItemFields(inv: Inventory, keys: seq<string>): (r: seq<string>)
    requires forall i :: 0 <= i < |keys| ==> keys[i] in inv
  {
    if keys == [] then [] else [keys[0], inv[keys[0]]] + ItemFields(inv, keys[1..])
  }

  /** The stream hashed for an inventory. */
  function InventoryStream(inv: Inventory): string {
    Frame(ItemFields(inv, Sorted(inv.Keys)))
  }

  /** The hashed bytes determine the inventory. */
  lemma InventoryStreamInjective(a: Inventory, b: Inventory)
    requires InventoryNulFree(a) && InventoryNulFree(b)
    ensures InventoryStream(a) == InventoryStream(b) <==> a == b
  {
    if InventoryStream(a) == InventoryStream(b) {
      var ka, kb := Sorted(a.Keys), Sorted(b.Keys);
      ItemFieldsNulFree(a, ka);
      ItemFieldsNulFree(b, kb);
      FrameInjective(ItemFields(a, ka), ItemFields(b, kb));
      ItemFieldsInjective(a, ka, b, kb);
      SortedInjective(a.Keys, b.Keys);
      forall k | k in a ensures a[k] == b[k] {
        assert k in ka;
      }
    }
  }

  lemma {:induction false} ItemFieldsInjective(a: Inventory, ka: seq<string>, b: Inventory, kb: seq<string>)
    requires forall i :: 0 <= i < |ka| ==> ka[i] in a
    requires forall i :: 0 <= i < |kb| ==> kb[i] in b
    requires ItemFields(a, ka) == ItemFields(b, kb)
    ensures ka == kb
    ensures forall k :: k in ka ==> a[k] == b[k]
  {
    if ka != [] && kb != [] {
      var fa, fb := ItemFields(a, ka), ItemFields(b, kb);
      assert ka[0] == fa[0] == fb[0] == kb[0] && a[ka[0]] == fa[1] == fb[1] == b[kb[0]];
      assert ItemFields(a, ka[1..]) == fa[2..] && ItemFields(b, kb[1..]) == fb[2..];
      ItemFieldsInjective(a, ka[1..], b, kb[1..]);
      assert ka == [ka[0]] + ka[1..] && kb == [kb[0]] + kb[1..];
    }
  }

  lemma {:induction false} ItemFieldsNulFree(inv: Inventory, keys: seq<string>)
    requires InventoryNulFree(inv) && forall i :: 0 <= i < |keys| ==> keys[i] in inv
    ensures AllNulFree(ItemFields(inv, keys))
  {
    if keys != [] { ItemFieldsNulFree(inv, keys[1..]); }
  }

  lemma {:induction false} ItemFieldsSnoc(inv: Inventory, keys: seq<string>, last: string)
    requires last in inv && forall i :: 0 <= i < |keys| ==> keys[i] in inv
    ensures ItemFields(inv, keys + [last]) == ItemFields(inv, keys) + [last, inv[last]]
  {
    if keys == [] {
      assert keys + [last] == [last] && [last][1..] == [];
    } else {
      assert (keys + [last])[1..] == keys[1..] + [last];
      ItemFieldsSnoc(inv, keys[1..], last);
    }
  }

  lemma StreamStep(inv: Inventory, keys: seq<string>, i: nat)
    requires i < |keys| && forall j :: 0 <= j < |keys| ==> keys[j] in inv
    ensures Frame(ItemFields(inv, keys[..i + 1]))
         == Frame(ItemFields(inv, keys[..i])) + (keys[i] + [NUL] + inv[keys[i]] + [NUL])
  {
    ItemFieldsSnoc(inv, keys[..i], keys[i]);
    assert keys[..i + 1] == keys[..i] + [keys[i]];
    FrameAppend(ItemFields(inv, keys[..i]), [keys[i], inv[keys[i]]]);
    FramePair(keys[i], inv[keys[i]]);
  }

  /** `inventory_fingerprint`: the loop feeds the digest exactly that stream. */
  method InventoryFingerprint(inv: Inventory, sha: string -> string) returns (r: string)
    ensures r == sha(InventoryStream(inv))
  {
    var stream, keys := "", Sorted(inv.Keys);
    assert forall j :: 0 <= j < |keys| ==> keys[j] in keys && keys[j] in inv;
    assert InventoryStream(inv) == Frame(ItemFields(inv, keys)) && Frame(ItemFields(inv, keys[..0])) == "";
    hide *;
    var i := 0;
    while i < |keys|
      invariant 0 <= i <= |keys|
      invariant stream == Frame(ItemFields(inv, keys[..i]))
    {
      StreamStep(inv, keys, i);
      stream := stream + (keys[i] + [NUL] + inv[keys[i]] + [NUL]);
      i := i + 1;
    }
    assert keys[..i] == keys;
    r := sha(stream);
  }

  // ---------------------------------------------------------------- ordered file lists

  /** `str(n)` of a list position. */
  function Digits(n: nat): (r: string)
    ensures r != "" && NulFree(r)
  {
    var d := ["0", "1", "2", "3", "4", "5", "6", "7", "8", "9"];
    if n < 10 then d[n] else Digits(n / 10) + d[n % 10]
  }

  function IndexedFields(contents: seq<string>): seq<string> {
    if contents == [] then [] else
    var last := |contents| - 1;
    IndexedFields(contents[..last]) + [Digits(last), contents[last]]
  }

  /** The stream hashed for an ordered list of file contents. */
  function IndexedStream(contents: seq<string>): string { Frame(IndexedFields(contents)) }

  lemma IndexedStreamInjective(a: seq<string>, b: seq<string>)
    requires AllNulFree(a) && AllNulFree(b)
    ensures IndexedStream(a) == IndexedStream(b) <==> a == b
  {
    if IndexedStream(a) == IndexedStream(b) {
      IndexedFieldsNulFree(a);
      IndexedFieldsNulFree(b);
      FrameInjective(IndexedFields(a), IndexedFields(b));
      IndexedFieldsInjective(a, b);
    }
  }

  lemma {:induction false} IndexedFieldsInjective(a: seq<string>, b: seq<string>)
    requires IndexedFields(a) == IndexedFields(b)
    ensures a == b
  {
    if a != [] && b != [] {
      var fa, fb := IndexedFields(a), IndexedFields(b);
      var i, j := |a| - 1, |b| - 1;
      assert a[i] == fa[|fa| - 1] && b[j] == fb[|fb| - 1];
      assert IndexedFields(a[..i]) == fa[..|fa| - 2] && IndexedFields(b[..j]) == fb[..|fb| - 2];
      IndexedFieldsInjective(a[..i], b[..j]);
      assert a == a[..i] + [a[i]] && b == b[..j] + [b[j]];
    }
  }

  lemma {:induction false} IndexedFieldsNulFree(a: seq<string>)
    requires AllNulFree(a)
    ensures AllNulFree(IndexedFields(a))
  {
    if a != [] { IndexedFieldsNulFree(a[..|a| - 1]); }
  }

  /** Contents that hold NUL can move the boundary between two files: a whole family of collisions. */
  lemma IndexedStreamCollides(x: string, y: string, z: string)
    ensures var cut := [NUL] + "1" + [NUL];
            IndexedStream([x, y + cut + z]) == IndexedStream([x + cut + y, z])
    ensures var cut := [NUL] + "1" + [NUL];
            [x, y + cut + z] != [x + cut + y, z]
  {
    var cut := [NUL] + "1" + [NUL];
    var a, b := [x, y + cut + z], [x + cut + y, z];
    IndexedPair(a[0], a[1]);
    IndexedPair(b[0], b[1]);
    assert IndexedStream(a) == "0" + [NUL] + x + cut + y + cut + z + [NUL];
    assert IndexedStream(b) == "0" + [NUL] + x + cut + y + cut + z + [NUL];
    assert |a[0]| != |b[0]|;
  }

  lemma IndexedPair(x: string, y: string)
    ensures IndexedStream([x, y]) == "0" + [NUL] + x + [NUL] + "1" + [NUL] + y + [NUL]
  {
    assert [x, y][..1] == [x] && [x][..0] == [];
    assert IndexedFields([x]) == [Digits(0), x];
    FrameAppend([Digits(0), x], [Digits(1), y]);
    FramePair(Digits(0), x);
    FramePair(Digits(1), y);
    assert IndexedFields([x, y]) == [Digits(0), x] + [Digits(1), y];
  }

  /** `fingerprint`: positions and contents, each NUL-terminated. */
  method Fingerprint(contents: seq<string>, sha: string -> string) returns (r: string)
    ensures r == sha(IndexedStream(contents))
  {
    var stream := "";
    for index := 0 to |contents|
      invariant stream == Frame(IndexedFields(contents[..index]))
    {
      FrameAppend(IndexedFields(contents[..index]), [Digits(index), contents[index]]);
      assert contents[..index + 1][..index] == contents[..index];
      FramePair(Digits(index), contents[index]);
      stream := stream + Digits(index) + [NUL];
      stream := stream + contents[index] + [NUL];
    }
    assert contents[..|contents|] == contents;
    r := sha(stream);
  }

  /** The number a string of decimal digits is read as. */
  function ReadDecimal(s: string): int {
    if s == "" then 0 else 10 * ReadDecimal(s[..|s| - 1]) + (s[|s| - 1] as int - '0' as int)
  }

  /** A position is written in decimal, without leading zeros. */
  lemma {:induction false} DigitsRead(n: nat)
    ensures ReadDecimal(Digits(n)) == n && (n > 0 ==> Digits(n)[0] != '0')
    ensures forall c :: c in Digits(n) ==> '0' <= c <= '9'
  {
    if n >= 10 {
      DigitsRead(n / 10);
      var s := Digits(n);
      assert s[..|s| - 1] == Digits(n / 10);
    } else {
      assert Digits(n)[..0] == "";
    }
  }
}
