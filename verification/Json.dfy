/** JSON documents as `json.loads` returns them, with Python's equality on them. */
module Json {

  datatype Json =
    | JNull
    | JBool(b: bool)
    | JInt(n: int)
    | JFloat(r: real)
    | JNegativeZero
    | JInfinity(negative: bool)
    | JStr(s: string)
    | JArr(items: seq<Json>)
    | JObj(fields: map<string, Json>)

  predicate Numeric(v: Json) { v.JBool? || v.JInt? || v.JFloat? || v.JNegativeZero? }

  /** The value Python compares: `True == 1 == 1.0`, `0.0 == -0.0`. */
  function Value(v: Json): real
    requires Numeric(v)
  {
    match v
    case JBool(b) => if b then 1.0 else 0.0
    case JInt(n) => n as real
    case JFloat(r) => r
    case JNegativeZero => 0.0
  }

  /** Python's `==` on two parsed documents. */
  predicate PyEq(a: Json, b: Json) {
    if Numeric(a) && Numeric(b) then Value(a) == Value(b)
    else if a.JArr? && b.JArr? then
      |a.items| == |b.items| && forall i :: 0 <= i < |a.items| ==> PyEq(a.items[i], b.items[i])
    else if a.JObj? && b.JObj? then
      a.fields.Keys == b.fields.Keys && forall k :: k in a.fields ==> PyEq(a.fields[k], b.fields[k])
    else a == b
  }

  lemma {:induction false} PyEqReflexive(a: Json)
    ensures PyEq(a, a)
  {
    match a
    case JArr(items) => forall i | 0 <= i < |items| ensures PyEq(items[i], items[i]) { PyEqReflexive(items[i]); }
    case JObj(fields) => forall k | k in fields ensures PyEq(fields[k], fields[k]) { PyEqReflexive(fields[k]); }
    case _ =>
  }

  lemma {:induction false} PyEqSymmetric(a: Json, b: Json)
    ensures PyEq(a, b) <==> PyEq(b, a)
  {
    if a.JArr? && b.JArr? && |a.items| == |b.items| {
      forall i | 0 <= i < |a.items| ensures PyEq(a.items[i], b.items[i]) <==> PyEq(b.items[i], a.items[i]) {
        PyEqSymmetric(a.items[i], b.items[i]);
      }
    } else if a.JObj? && b.JObj? && a.fields.Keys == b.fields.Keys {
      forall k | k in a.fields ensures PyEq(a.fields[k], b.fields[k]) <==> PyEq(b.fields[k], a.fields[k]) {
        PyEqSymmetric(a.fields[k], b.fields[k]);
      }
    }
  }

  // ---------------------------------------------------------------- what Python equates

  /** The document with every number and boolean written as a plain number. */
  function Plain(v: Json): Json {
    match v
    case JBool(b) => JFloat(if b then 1.0 else 0.0)
    case JInt(n) => JFloat(n as real)
    case JNegativeZero => JFloat(0.0)
    case JArr(items) => JArr(seq(|items|, i requires 0 <= i < |items| => Plain(items[i])))
    case JObj(fields) => JObj(map k | k in fields :: Plain(fields[k]))
    case _ => v
  }

  /** Python equates exactly the documents that agree once numbers are written alike. */
  lemma {:induction false} PyEqIsPlain(a: Json, b: Json)
    ensures PyEq(a, b) <==> Plain(a) == Plain(b)
  {
    if a.JArr? && b.JArr? {
      forall i | 0 <= i < |a.items| && i < |b.items| ensures PyEq(a.items[i], b.items[i])
          <==> Plain(a).items[i] == Plain(b).items[i] {
        PyEqIsPlain(a.items[i], b.items[i]);
      }
      assert |Plain(a).items| == |a.items| && |Plain(b).items| == |b.items|;
    } else if a.JObj? && b.JObj? {
      forall k | k in a.fields && k in b.fields ensures PyEq(a.fields[k], b.fields[k])
          <==> Plain(a).fields[k] == Plain(b).fields[k] {
        PyEqIsPlain(a.fields[k], b.fields[k]);
      }
      assert Plain(a).fields.Keys == a.fields.Keys && Plain(b).fields.Keys == b.fields.Keys;
      if a.fields.Keys == b.fields.Keys && forall k :: k in a.fields ==> PyEq(a.fields[k], b.fields[k]) {
        assert Plain(a).fields == Plain(b).fields;
      }
    }
  }

  /** A document that holds no number and no boolean. */
  predicate NoNumbers(v: Json) {
    match v
    case JArr(items) => forall i :: 0 <= i < |items| ==> NoNumbers(items[i])
    case JObj(fields) => forall k :: k in fields ==> NoNumbers(fields[k])
    case _ => !Numeric(v)
  }

  lemma {:induction false} PlainOfNoNumbers(v: Json)
    requires NoNumbers(v)
    ensures Plain(v) == v
  {
    match v
    case JArr(items) =>
      forall i | 0 <= i < |items| ensures Plain(items[i]) == items[i] { PlainOfNoNumbers(items[i]); }
      assert Plain(v).items == items;
    case JObj(fields) =>
      forall k | k in fields ensures Plain(fields[k]) == fields[k] { PlainOfNoNumbers(fields[k]); }
      assert Plain(v).fields == fields;
    case _ =>
  }

  /** Without numbers and booleans, Python's equality is equality. */
  lemma PyEqWithoutNumbers(a: Json, b: Json)
    requires NoNumbers(a) && NoNumbers(b)
    ensures PyEq(a, b) <==> a == b
  {
    PyEqIsPlain(a, b);
    PlainOfNoNumbers(a);
    PlainOfNoNumbers(b);
  }
}
