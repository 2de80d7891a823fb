/**
 An abstract key-value document store: collection name to an ordered
 list of documents, each addressed by the value used as its id. The
 order of a collection is the order in which a listing returns it.
 */
module DocStore {
  import opened Wrappers
  import opened Values

  /** One stored document: its id and its record. */
  datatype Snap = Snap(id: Value, data: Doc)

  /** A collection in listing order. */
  type Collection = seq<Snap>

  datatype Store = Store(collections: map<string, Collection>)

  /** The documents of a collection; a collection never written to is empty. */
  function Col(s: Store, name: string): Collection
  {
    if name in s.collections then s.collections[name] else []
  }

  /** The position of the first document whose id is `key`, if any. */
  function Find(c: Collection, key: Value): (r: Option<nat>)
    ensures r.Some? ==> r.value < |c| && c[r.value].id == key
    ensures r.Some? ==> forall j :: 0 <= j < r.value ==> c[j].id != key
    ensures r.None? <==> forall j :: 0 <= j < |c| ==> c[j].id != key
  {
    if |c| == 0 then None
    else if c[0].id == key then Some(0)
    else
      match Find(c[1..], key)
      case None => None
      case Some(i) => Some(i + 1)
  }

  /** `getDoc`: the record stored under `key`, or `None` when no document has that id. */
  function Get(c: Collection, key: Value): (r: Option<Doc>)
    ensures r.None? <==> forall j :: 0 <= j < |c| ==> c[j].id != key
    ensures r.Some? ==> exists j :: 0 <= j < |c| && c[j] == Snap(key, r.value)
  {
    match Find(c, key)
    case None => None
    case Some(i) => Some(c[i].data)
  }

  /** A record after `updateDoc(ref, {field: arrayUnion(e)})`: only `field` changes. */
  function AddToField(d: Doc, field: string, e: Value): (r: Doc)
    ensures r.Keys == d.Keys + {field}
    ensures Holds(r[field], e)
    ensures r[field] == ArrayUnion(Field(d, field), e)
    ensures forall k :: k in d && k != field ==> r[k] == d[k]
  {
    d[field := ArrayUnion(Field(d, field), e)]
  }

  /** The record a successful update starts from: the stored one, or an empty record. */
  function Current(c: Collection, key: Value): Doc
  {
    match Get(c, key)
    case Some(d) => d
    case None => map[]
  }

  /**
   A successful set-union update of `field` in the document `key`.
   The document is updated in place; when the collection has no such
   document a new one is appended holding only the updated field.
   */
  function UnionField(c: Collection, key: Value, field: string, e: Value): (r: Collection)
    ensures Get(r, key) == Some(AddToField(Current(c, key), field, e))
    ensures forall k :: k != key ==> Get(r, k) == Get(c, k)
    ensures |r| == |c| + (if Get(c, key).Some? then 0 else 1)
    ensures forall j :: 0 <= j < |c| ==> r[j].id == c[j].id
  {
    match Find(c, key)
    case Some(i) =>
      var r := c[i := Snap(key, AddToField(c[i].data, field, e))];
      FindAfterReplace(c, i, Snap(key, AddToField(c[i].data, field, e)));
      r
    case None =>
      var r := c + [Snap(key, AddToField(map[], field, e))];
      FindAfterAppend(c, Snap(key, AddToField(map[], field, e)));
      r
  }

  /** Replacing a document by one with the same id moves no id. */
  lemma {:induction false} FindAfterReplace(c: Collection, i: nat, s: Snap)
    requires i < |c| && c[i].id == s.id
    ensures forall k :: Find(c[i := s], k) == Find(c, k)
  {
    forall k
      ensures Find(c[i := s], k) == Find(c, k)
    {
      FindUnderSameIds(c, c[i := s], k);
    }
  }

  /** Find depends only on the ids of the collection. */
  lemma {:induction false} FindUnderSameIds(c: Collection, c': Collection, k: Value)
    requires |c| == |c'|
    requires forall j :: 0 <= j < |c| ==> c[j].id == c'[j].id
    ensures Find(c', k) == Find(c, k)
  {
    if |c| > 0 && c[0].id != k {
      FindUnderSameIds(c[1..], c'[1..], k);
    }
  }

  /** Appending a document does not change where the existing ids are found. */
  lemma {:induction false} FindAfterAppend(c: Collection, s: Snap)
    ensures forall k :: Find(c, k).Some? ==> Find(c + [s], k) == Find(c, k)
    ensures Find(c, s.id).None? ==> Find(c + [s], s.id) == Some(|c|)
    ensures forall k :: k != s.id && Find(c, k).None? ==> Find(c + [s], k).None?
  {
    forall k
      ensures Find(c, k).Some? ==> Find(c + [s], k) == Find(c, k)
      ensures k == s.id && Find(c, k).None? ==> Find(c + [s], k) == Some(|c|)
      ensures k != s.id && Find(c, k).None? ==> Find(c + [s], k).None?
    {
      FindAppendOne(c, s, k);
    }
  }

  lemma FindAppendOne(c: Collection, s: Snap, k: Value)
    ensures Find(c, k).Some? ==> Find(c + [s], k) == Find(c, k)
    ensures k == s.id && Find(c, k).None? ==> Find(c + [s], k) == Some(|c|)
    ensures k != s.id && Find(c, k).None? ==> Find(c + [s], k).None?
  {
    if Find(c, k).Some? {
      FindAppendFound(c, s, k);
    } else if k == s.id {
      var c' := c + [s];
      assert c'[|c|].id == k;
      assert forall j :: 0 <= j < |c| ==> c'[j] == c[j];
    } else {
      assert forall j :: 0 <= j < |c| ==> (c + [s])[j] == c[j];
    }
  }

  lemma FindAppendFound(c: Collection, s: Snap, k: Value)
    requires Find(c, k).Some?
    ensures Find(c + [s], k) == Find(c, k)
  {
    var c' := c + [s];
    var i := Find(c, k).value;
    assert c'[i].id == k;
    var r := Find(c', k).value;
    assert r <= i;
    assert c'[r] == c[r];
  }

  /** `updateDoc(doc(db, coll, key), {field: arrayUnion(e)})` when the store accepts it. */
  function UpdateDoc(s: Store, coll: string, key: Value, field: string, e: Value): (r: Store)
    ensures Get(Col(r, coll), key) == Some(AddToField(Current(Col(s, coll), key), field, e))
    ensures forall k :: k != key ==> Get(Col(r, coll), k) == Get(Col(s, coll), k)
    ensures forall other :: other != coll ==> Col(r, other) == Col(s, other)
  {
    Store(s.collections[coll := UnionField(Col(s, coll), key, field, e)])
  }

  /** Repeating a successful update changes nothing more. */
  lemma UnionFieldIdempotent(c: Collection, key: Value, field: string, e: Value)
    ensures UnionField(UnionField(c, key, field, e), key, field, e) == UnionField(c, key, field, e)
  {
    var c1 := UnionField(c, key, field, e);
    var d1 := AddToField(Current(c, key), field, e);
    assert Get(c1, key) == Some(d1);
    var i := Find(c1, key).value;
    assert c1[i].data == d1;
    ArrayUnionIdempotent(Field(Current(c, key), field), e);
    assert AddToField(d1, field, e) == d1;
    assert c1[i := Snap(key, AddToField(c1[i].data, field, e))] == c1;
  }

  /** An update already applied to a collection leaves a store holding it unchanged. */
  lemma UpdateDocAbsorbed(s: Store, c: Collection, coll: string, key: Value, field: string, e: Value)
    requires coll in s.collections && s.collections[coll] == UnionField(c, key, field, e)
    ensures UpdateDoc(s, coll, key, field, e) == s
  {
    UnionFieldIdempotent(c, key, field, e);
    assert s.collections[coll := UnionField(c, key, field, e)] == s.collections;
  }
}
