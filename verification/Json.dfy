/** JSON values as Python reads them: numbers keep their type, and dictionaries are walked in key
    order. */
module Json {
  import opened Wrappers
  import opened KeyOrder

  datatype Json =
    | Null
    | Bool(b: bool)
    | Int(i: int)
    | Real(r: real)
    | Str(s: string)
    | Arr(elements: seq<Json>)
    | Obj(fields: map<string, Json>)

  type Record = map<string, Json>

  // ---- strict and loose equality ---------------------------------------------------------------

  predicate SameType(a: Json, b: Json) {
    match a
    case Null => b.Null?
    case Bool(_) => b.Bool?
    case Int(_) => b.Int?
    case Real(_) => b.Real?
    case Str(_) => b.Str?
    case Arr(_) => b.Arr?
    case Obj(_) => b.Obj?
  }

  predicate IsNumber(a: Json) { a.Bool? || a.Int? || a.Real? }

  function NumberOf(a: Json): real
    requires IsNumber(a)
  {
    match a
    case Bool(b) => if b then 1.0 else 0.0
    case Int(i) => i as real
    case Real(r) => r
  }

  /** Python's `==`, under which `1`, `1.0` and `True` are the same. */
  predicate LooseEq(a: Json, b: Json) {
    if IsNumber(a) && IsNumber(b) then NumberOf(a) == NumberOf(b)
    else if a.Arr? && b.Arr? then
      |a.elements| == |b.elements|
      && forall k :: 0 <= k < |a.elements| ==> LooseEq(a.elements[k], b.elements[k])
    else if a.Obj? && b.Obj? then
      a.fields.Keys == b.fields.Keys && forall k :: k in a.fields ==> LooseEq(a.fields[k], b.fields[k])
    else a == b
  }

  lemma {:induction false} LooseReflexive(a: Json)
    ensures LooseEq(a, a)
  {
    match a
    case Arr(es) => forall k | 0 <= k < |es| { LooseReflexive(es[k]); }
    case Obj(m) => forall k | k in m { LooseReflexive(m[k]); }
    case _ =>
  }

  /** The value with every number, truth values included, written as a real. */
  function Plain(a: Json): Json {
    match a
    case Bool(b) => Real(if b then 1.0 else 0.0)
    case Int(i) => Real(i as real)
    case Arr(es) => Arr(seq(|es|, k requires 0 <= k < |es| => Plain(es[k])))
    case Obj(m) => Obj(map k | k in m :: Plain(m[k]))
    case _ => a
  }

  /** Loosely equal values are those that read the same once numbers are. */
  lemma {:induction false} LooseExact(a: Json, b: Json)
    ensures LooseEq(a, b) <==> Plain(a) == Plain(b)
  {
    if a.Arr? && b.Arr? {
      var p, q := Plain(a).elements, Plain(b).elements;
      if |p| == |q| {
        forall k | 0 <= k < |p| ensures LooseEq(a.elements[k], b.elements[k]) <==> p[k] == q[k] {
          LooseExact(a.elements[k], b.elements[k]);
        }
        assert p == q <==> forall k :: 0 <= k < |p| ==> p[k] == q[k];
      }
    } else if a.Obj? && b.Obj? {
      var p, q := Plain(a).fields, Plain(b).fields;
      assert p.Keys == a.fields.Keys && q.Keys == b.fields.Keys;
      if p.Keys == q.Keys {
        forall k | k in p ensures LooseEq(a.fields[k], b.fields[k]) <==> p[k] == q[k] {
          LooseExact(a.fields[k], b.fields[k]);
        }
        assert p == q <==> forall k :: k in p ==> p[k] == q[k];
      }
    }
  }

  lemma {:induction false} LooseTransitive(a: Json, b: Json, c: Json)
    requires LooseEq(a, b) && LooseEq(b, c)
    ensures LooseEq(a, c)
  {
    match a
    case Arr(es) =>
      forall k | 0 <= k < |es| ensures LooseEq(es[k], c.elements[k]) {
        LooseTransitive(es[k], b.elements[k], c.elements[k]);
      }
    case Obj(m) =>
      forall k | k in m ensures LooseEq(m[k], c.fields[k]) { LooseTransitive(m[k], b.fields[k], c.fields[k]); }
    case _ =>
  }

  // ---- the first difference --------------------------------------------------------------------

  datatype Step = Key(name: string) | At(index: nat)

  /** Where a difference lies; `[]` is the values themselves. */
  type Path = seq<Step>

  function Under(step: Step, p: Option<Path>): Option<Path> {
    match p
    case None => None
    case Some(path) => Some([step] + path)
  }

  function FirstDifference(a: Json, b: Json): Option<Path>
    decreases a, 1, 0
  {
    if !SameType(a, b) then Some([])
    else
      match a
      case Obj(m) => FirstAmongKeys(a, b, SortedKeys(m.Keys + b.fields.Keys))
      case Arr(es) => if |es| != |b.elements| then Some([]) else FirstAmongElements(a, b, 0)
      case _ => if a == b then None else Some([])
  }

  function FirstAmongKeys(a: Json, b: Json, keys: seq<string>): Option<Path>
    requires a.Obj? && b.Obj?
    decreases a, 0, |keys|
  {
    if keys == [] then None
    else
      var k := keys[0];
      if k !in a.fields || k !in b.fields then Some([Key(k)])
      else
        var d := FirstDifference(a.fields[k], b.fields[k]);
        if d.Some? then Under(Key(k), d) else FirstAmongKeys(a, b, keys[1..])
  }

  function FirstAmongElements(a: Json, b: Json, from: nat): Option<Path>
    requires a.Arr? && b.Arr? && from <= |a.elements| == |b.elements|
    decreases a, 0, |a.elements| - from
  {
    if from == |a.elements| then None
    else
      var d := FirstDifference(a.elements[from], b.elements[from]);
      if d.Some? then Under(At(from), d) else FirstAmongElements(a, b, from + 1)
  }

  /** The values differ at `p` itself, and agree on everything walked before `p`. */
  ghost predicate DiffersFirst(a: Json, b: Json, p: Path)
    decreases p
  {
    if p == [] then
      !SameType(a, b) || (a.Arr? && |a.elements| != |b.elements|) || (!a.Arr? && !a.Obj? && a != b)
    else
      match p[0]
      case Key(k) =>
        && a.Obj? && b.Obj?
        && (forall j :: j in a.fields.Keys + b.fields.Keys && LexLe(j, k) && j != k ==>
              j in a.fields && j in b.fields && a.fields[j] == b.fields[j])
        && (if k in a.fields && k in b.fields then DiffersFirst(a.fields[k], b.fields[k], p[1..])
            else (k in a.fields || k in b.fields) && |p| == 1)
      case At(i) =>
        && a.Arr? && b.Arr? && i < |a.elements| == |b.elements|
        && a.elements[..i] == b.elements[..i]
        && DiffersFirst(a.elements[i], b.elements[i], p[1..])
  }

  /** No difference is reported exactly for equal values, types included; a reported one is real
      and is the first. */
  lemma {:induction false} FirstDifferenceExact(a: Json, b: Json)
    ensures FirstDifference(a, b) == None <==> a == b
    ensures forall p :: FirstDifference(a, b) == Some(p) ==> DiffersFirst(a, b, p)
    decreases a, 1, 0
  {
    if SameType(a, b) {
      match a
      case Obj(m) =>
        var all := m.Keys + b.fields.Keys;
        AmongKeysExact(a, b, SortedKeys(all));
        if FirstDifference(a, b) == None {
          assert forall k :: k in m ==> k in SortedKeys(all);
          assert forall k :: k in b.fields ==> k in SortedKeys(all);
          assert m == b.fields;
        }
      case Arr(es) =>
        if |es| == |b.elements| {
          AmongElementsExact(a, b, 0);
        }
      case _ =>
    }
  }

  lemma {:induction false} AmongKeysExact(a: Json, b: Json, keys: seq<string>)
    requires a.Obj? && b.Obj?
    requires forall i, j :: 0 <= i < j < |keys| ==> LexLe(keys[i], keys[j]) && keys[i] != keys[j]
    requires forall k :: k in keys ==> k in a.fields || k in b.fields
    requires forall k :: k in a.fields.Keys + b.fields.Keys && k !in keys ==>
               k in a.fields && k in b.fields && a.fields[k] == b.fields[k]
    ensures FirstAmongKeys(a, b, keys) == None <==> a == b
    ensures forall p :: FirstAmongKeys(a, b, keys) == Some(p) ==> DiffersFirst(a, b, p)
    decreases a, 0, |keys|
  {
    if keys == [] {
      assert a.fields == b.fields;
    } else {
      var k := keys[0];
      KeysBefore(a, b, keys);
      if k in a.fields && k in b.fields {
        FirstDifferenceExact(a.fields[k], b.fields[k]);
        if FirstDifference(a.fields[k], b.fields[k]) == None { AmongKeysExact(a, b, keys[1..]); }
      }
    }
  }

  /** What is below the first remaining key has been walked already. */
  lemma KeysBefore(a: Json, b: Json, keys: seq<string>)
    requires a.Obj? && b.Obj? && keys != []
    requires forall i, j :: 0 <= i < j < |keys| ==> LexLe(keys[i], keys[j]) && keys[i] != keys[j]
    ensures forall j :: LexLe(j, keys[0]) && j != keys[0] ==> j !in keys
  {
    forall j | LexLe(j, keys[0]) && j != keys[0] ensures j !in keys {
      if j in keys {
        var n :| 0 <= n < |keys| && keys[n] == j;
        assert n > 0;
        LexAntisymmetric(j, keys[0]);
        assert false;
      }
    }
  }

  lemma SamePrefix(a: seq<Json>, b: seq<Json>, n: nat)
    requires n < |a| && n < |b| && a[..n] == b[..n] && a[n] == b[n]
    ensures a[..n + 1] == b[..n + 1]
  {
    assert a[..n + 1] == a[..n] + [a[n]] && b[..n + 1] == b[..n] + [b[n]];
  }

  lemma {:induction false} AmongElementsExact(a: Json, b: Json, from: nat)
    requires a.Arr? && b.Arr? && from <= |a.elements| == |b.elements|
    requires a.elements[..from] == b.elements[..from]
    ensures FirstAmongElements(a, b, from) == None <==> a == b
    ensures forall p :: FirstAmongElements(a, b, from) == Some(p) ==> DiffersFirst(a, b, p)
    decreases a, 0, |a.elements| - from
  {
    if from == |a.elements| {
      assert a.elements == b.elements;
    } else {
      FirstDifferenceExact(a.elements[from], b.elements[from]);
      if FirstDifference(a.elements[from], b.elements[from]) == None {
        SamePrefix(a.elements, b.elements, from);
        AmongElementsExact(a, b, from + 1);
      }
    }
  }
}
