/** Parsed JSON documents, Python's `==` on them, and `first_difference` of scripts/a9-release-claim.py. Keys and
    strings are values of any type. */
module Json {
  import opened Results

  datatype Json<K, S> =
    | Null | Bool(b: bool) | Int(n: int) | Str(s: S) | Arr(items: seq<Json<K, S>>) | Obj(fields: map<K, Json<K, S>>)

  function BoolAsInt(b: bool): int { if b then 1 else 0 }

  /** Python's `==`, for which True is 1 and False is 0 at any depth. */
  predicate PyEqual<K(==), S(==)>(a: Json<K, S>, b: Json<K, S>)
    decreases a
  {
    match a
    case Null => b.Null?
    case Str(s) => b.Str? && b.s == s
    case Bool(x) => (b.Bool? && b.b == x) || (b.Int? && b.n == BoolAsInt(x))
    case Int(n) => (b.Int? && b.n == n) || (b.Bool? && n == BoolAsInt(b.b))
    case Arr(items) => b.Arr? && |b.items| == |items| && forall i :: 0 <= i < |items| ==> PyEqual(items[i], b.items[i])
    case Obj(fields) =>
      b.Obj? && b.fields.Keys == fields.Keys && forall k :: k in fields ==> PyEqual(fields[k], b.fields[k])
  }

  predicate SameType<K, S>(a: Json<K, S>, b: Json<K, S>) {
    match a
    case Null => b.Null?
    case Bool(_) => b.Bool?
    case Int(_) => b.Int?
    case Str(_) => b.Str?
    case Arr(_) => b.Arr?
    case Obj(_) => b.Obj?
  }

  /** Types are compared down to the lists, and inside lists only Python's `==` is. */
  predicate Matching<K(==), S(==)>(a: Json<K, S>, b: Json<K, S>)
    decreases a
  {
    if a.Obj? && b.Obj? then
      a.fields.Keys == b.fields.Keys && forall k :: k in a.fields ==> Matching(a.fields[k], b.fields[k])
    else SameType(a, b) && PyEqual(a, b)
  }

  /** What `first_difference` answers None for. */
  predicate NoDifference<K(==), S(==)>(expected: Json<K, S>, actual: Json<K, S>) { Matching(expected, actual) }

  /** `first_difference`, as the path of keys to it. Which of several differences is named is left open. */
  method FirstDifference<K(==), S(==)>(expected: Json<K, S>, actual: Json<K, S>) returns (r: Option<seq<K>>)
    ensures r.None? <==> NoDifference(expected, actual)
    decreases expected
  {
    if !expected.Obj? || !actual.Obj? {
      return if SameType(expected, actual) && PyEqual(expected, actual) then None else Some([]);
    }
    var keys := expected.fields.Keys + actual.fields.Keys;
    while keys != {}
      invariant keys <= expected.fields.Keys + actual.fields.Keys
      invariant forall k :: k in expected.fields.Keys + actual.fields.Keys && k !in keys ==>
        k in expected.fields && k in actual.fields && Matching(expected.fields[k], actual.fields[k])
      decreases keys
    {
      var k :| k in keys;
      if k !in expected.fields || k !in actual.fields {
        return Some([k]);
      }
      var found := FirstDifference(expected.fields[k], actual.fields[k]);
      if found.Some? {
        return Some([k] + found.value);
      }
      keys := keys - {k};
    }
    return None;
  }

  // ---------- when no difference means the same document ----------

  /** Nothing in it that a value of another type equals: no truth value, no 0 and no 1, at any depth. */
  predicate Plain<K, S>(a: Json<K, S>)
    decreases a
  {
    match a
    case Bool(_) => false
    case Int(n) => n != 0 && n != 1
    case Arr(items) => forall i :: 0 <= i < |items| ==> Plain(items[i])
    case Obj(fields) => forall k :: k in fields ==> Plain(fields[k])
    case _ => true
  }

  /** Only plain values below any list. */
  predicate Clear<K, S>(a: Json<K, S>)
    decreases a
  {
    match a
    case Arr(items) => forall i :: 0 <= i < |items| ==> Plain(items[i])
    case Obj(fields) => forall k :: k in fields ==> Clear(fields[k])
    case _ => true
  }

  lemma {:induction false} PlainIsSame<K, S>(a: Json<K, S>, b: Json<K, S>)
    requires Plain(a) && PyEqual(a, b)
    ensures a == b
    decreases a
  {
    match a {
      case Obj(fields) =>
        forall k | k in fields ensures fields[k] == b.fields[k] {
          PlainIsSame(fields[k], b.fields[k]);
        }
        assert fields == b.fields;
      case Arr(items) =>
        forall i | 0 <= i < |items| ensures items[i] == b.items[i] {
          PlainIsSame(items[i], b.items[i]);
        }
        assert items == b.items;
      case _ =>
    }
  }

  /** Clear documents match only themselves. */
  lemma {:induction false} ClearIsSame<K, S>(a: Json<K, S>, b: Json<K, S>)
    requires Clear(a) && Matching(a, b)
    ensures a == b
    decreases a
  {
    match a {
      case Obj(fields) =>
        forall k | k in fields ensures fields[k] == b.fields[k] {
          ClearIsSame(fields[k], b.fields[k]);
        }
        assert fields == b.fields;
      case Arr(items) =>
        forall i | 0 <= i < |items| ensures items[i] == b.items[i] {
          PlainIsSame(items[i], b.items[i]);
        }
        assert items == b.items;
      case _ =>
    }
  }

  lemma {:induction false} EqualsItself<K, S>(a: Json<K, S>)
    ensures PyEqual(a, a)
    decreases a
  {
    match a {
      case Obj(fields) =>
        forall k | k in fields ensures PyEqual(fields[k], fields[k]) {
          EqualsItself(fields[k]);
        }
      case Arr(items) =>
        forall i | 0 <= i < |items| ensures PyEqual(items[i], items[i]) {
          EqualsItself(items[i]);
        }
      case _ =>
    }
  }

  lemma {:induction false} MatchesItself<K, S>(a: Json<K, S>)
    ensures Matching(a, a)
    decreases a
  {
    match a {
      case Obj(fields) =>
        forall k | k in fields ensures Matching(fields[k], fields[k]) {
          MatchesItself(fields[k]);
        }
      case _ => EqualsItself(a);
    }
  }

  /** A different document that Python calls equal. */
  lemma {:induction false} Twin<K, S>(a: Json<K, S>) returns (b: Json<K, S>)
    requires !Plain(a)
    ensures PyEqual(a, b) && a != b && (a.Arr? ==> b.Arr?)
    decreases a
  {
    match a {
      case Bool(x) => b := Int(BoolAsInt(x));
      case Int(n) => b := Bool(n == 1);
      case Arr(items) =>
        var i :| 0 <= i < |items| && !Plain(items[i]);
        var twin := Twin(items[i]);
        b := Arr(items[i := twin]);
        forall j | 0 <= j < |items| ensures PyEqual(items[j], b.items[j]) {
          EqualsItself(items[j]);
        }
        assert a.items[i] != b.items[i];
      case Obj(fields) =>
        var k :| k in fields && !Plain(fields[k]);
        var twin := Twin(fields[k]);
        b := Obj(fields[k := twin]);
        forall j | j in fields ensures PyEqual(fields[j], b.fields[j]) {
          EqualsItself(fields[j]);
        }
        assert a.fields[k] != b.fields[k];
    }
  }

  /** A different document in which no difference is found. */
  lemma {:induction false} Confused<K, S>(a: Json<K, S>) returns (b: Json<K, S>)
    requires !Clear(a)
    ensures Matching(a, b) && a != b
    decreases a
  {
    match a {
      case Arr(items) =>
        b := Twin(a);
      case Obj(fields) =>
        var k :| k in fields && !Clear(fields[k]);
        var other := Confused(fields[k]);
        b := Obj(fields[k := other]);
        forall j | j in fields ensures Matching(fields[j], b.fields[j]) {
          MatchesItself(fields[j]);
        }
        assert a.fields[k] != b.fields[k];
    }
  }

  /** No difference means the same document exactly for the clear ones: those with no truth value, 0 or 1 below a
      list. */
  lemma SameExactlyWhenClear<K(!new), S(!new)>(a: Json<K, S>)
    ensures Clear(a) <==> forall b :: NoDifference(a, b) ==> a == b
  {
    if Clear(a) {
      forall b | NoDifference(a, b) ensures a == b {
        ClearIsSame(a, b);
      }
    } else {
      var b := Confused(a);
      assert NoDifference(a, b);
    }
  }

  /** The shortest example: inside a list, true passes for 1. */
  lemma ListsConfuseTypes<K, S>()
    ensures NoDifference<K, S>(Arr([Bool(true)]), Arr([Int(1)]))
  {
    var a: Json<K, S>, b: Json<K, S> := Arr([Bool(true)]), Arr([Int(1)]);
    assert PyEqual(a.items[0], b.items[0]);
  }
}
