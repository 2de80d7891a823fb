/**
 The JavaScript values that documents of the store are made of, the
 truthiness test the page applies to them, and the set-union update
 (`arrayUnion`) the store applies to array fields.
 */
module Values {

  /** A JavaScript value as it appears in a stored document or in session data.
      Numbers are abstracted to integers. */
  datatype Value =
    | Undefined
    | Null
    | Bool(b: bool)
    | Num(n: int)
    | Str(s: string)
    | Arr(elems: seq<Value>)
    | Obj(fields: map<string, Value>)

  /** A stored record: field name to value. */
  type Doc = map<string, Value>

  /** `d.k`: the value of field `k`, or `undefined` when the record has no such field. */
  function Field(d: Doc, k: string): Value
  {
    if k in d then d[k] else Undefined
  }

  /** `v.k` for a value that is not `null` or `undefined`: only objects have own fields. */
  function Member(v: Value, k: string): Value
  {
    match v
    case Obj(m) => Field(m, k)
    case _ => Undefined
  }

  /** JavaScript truthiness: `undefined`, `null`, `false`, `0` and `""` are falsy. */
  predicate Truthy(v: Value)
  {
    match v
    case Undefined => false
    case Null => false
    case Bool(b) => b
    case Num(n) => n != 0
    case Str(s) => s != ""
    case Arr(_) => true
    case Obj(_) => true
  }

  /** True iff `v` is an array holding `e`. */
  predicate Holds(v: Value, e: Value)
  {
    v.Arr? && e in v.elems
  }

  /** True iff no element occurs twice in `xs`. */
  predicate NoDuplicates(xs: seq<Value>)
  {
    forall i, j :: 0 <= i < j < |xs| ==> xs[i] != xs[j]
  }

  /**
   The value a field holds after a set-union update adding `e` to it:
   an array keeps its elements in order and gains `e` at the end only
   when `e` is absent; a field that is absent or not an array becomes
   the one-element array `[e]`.
   */
  function ArrayUnion(current: Value, e: Value): (r: Value)
    ensures Holds(r, e)
    ensures current.Arr? ==> current.elems <= r.elems
    ensures forall x :: Holds(r, x) ==> x == e || Holds(current, x)
    ensures Holds(current, e) ==> r == current
    ensures |r.elems| <= (if current.Arr? then |current.elems| else 0) + 1
  {
    match current
    case Arr(xs) => if e in xs then current else Arr(xs + [e])
    case _ => Arr([e])
  }

  /** Adding an element a second time changes nothing. */
  lemma ArrayUnionIdempotent(current: Value, e: Value)
    ensures ArrayUnion(ArrayUnion(current, e), e) == ArrayUnion(current, e)
  {
  }

  /** A set-union update never introduces a duplicate. */
  lemma ArrayUnionNoDuplicates(current: Value, e: Value)
    requires current.Arr? ==> NoDuplicates(current.elems)
    ensures NoDuplicates(ArrayUnion(current, e).elems)
  {
  }
}
