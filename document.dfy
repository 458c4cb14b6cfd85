/** The document value model: a BSON document as a tree of primitives, objects and arrays,
    together with the collator that makes index key values collation-aware. */
module Document {

  /** The BSON primitives the wildcard key generator distinguishes. Numbers are integers here. */
  datatype Primitive = Null | Undefined | Bool(b: bool) | Number(n: int) | Str(s: string)

  /** One named element of an object (a BSON field). Field names may repeat, as in BSON. */
  datatype Field = Field(name: string, value: Value)

  /** A BSON value: a leaf primitive, an embedded object (ordered fields) or an array. */
  datatype Value =
    | Scalar(p: Primitive)
    | Object(fields: seq<Field>)
    | Array(elems: seq<Value>)

  /** A whole document (a BSONObj) is the ordered field list of a top-level object. */
  type Doc = seq<Field>

  /** The collator the generator borrows: None is the null collator (simple binary comparison);
      Some(f) maps a string to its comparison key under the collator's locale rules. */
  type Collator = Option<string -> string>

  datatype Option<T> = None | Some(value: T)

  /** True of an object or array that holds no element. */
  predicate IsEmptyContainer(v: Value)
  {
    (v.Object? && v.fields == []) || (v.Array? && v.elems == [])
  }

  /** The comparison key of one primitive: only strings are affected by a collator. */
  function CollationKey(p: Primitive, c: Collator): (k: Primitive)
    ensures !p.Str? ==> k == p
    ensures p.Str? ==> k.Str?
    ensures c.None? ==> k == p
  {
    match p
    case Str(s) => if c.Some? then Str(c.value(s)) else p
    case _ => p
  }

  /** The collation-aware form of a value: every string inside it replaced by its comparison key.
      This is the value that is stored in an index key. */
  function CollationAware(v: Value, c: Collator): (r: Value)
    decreases v, 1
  {
    match v
    case Scalar(p) => Scalar(CollationKey(p, c))
    case Object(fs) => Object(CollationAwareFields(fs, c))
    case Array(es) => Array(CollationAwareItems(es, c))
  }

  function CollationAwareFields(fs: seq<Field>, c: Collator): (r: seq<Field>)
    decreases fs, 0
  {
    if fs == [] then []
    else CollationAwareFields(fs[..|fs| - 1], c) + [Field(fs[|fs| - 1].name, CollationAware(fs[|fs| - 1].value, c))]
  }

  function CollationAwareItems(es: seq<Value>, c: Collator): (r: seq<Value>)
    decreases es, 0
  {
    if es == [] then []
    else CollationAwareItems(es[..|es| - 1], c) + [CollationAware(es[|es| - 1], c)]
  }

  /** The collation-aware form keeps the shape of the value: the same kind of node, the same
      number of children, the same field names, and every child mapped in place. */
  lemma {:induction false} CollationAwareKeepsShape(v: Value, c: Collator)
    ensures v.Scalar? <==> CollationAware(v, c).Scalar?
    ensures v.Object? <==> CollationAware(v, c).Object?
    ensures v.Array? <==> CollationAware(v, c).Array?
    ensures v.Object? ==> |CollationAware(v, c).fields| == |v.fields|
    ensures v.Array? ==> |CollationAware(v, c).elems| == |v.elems|
    ensures IsEmptyContainer(v) <==> IsEmptyContainer(CollationAware(v, c))
    ensures v.Object? ==> forall i :: 0 <= i < |v.fields| ==>
      CollationAware(v, c).fields[i] == Field(v.fields[i].name, CollationAware(v.fields[i].value, c))
    ensures v.Array? ==> forall i :: 0 <= i < |v.elems| ==>
      CollationAware(v, c).elems[i] == CollationAware(v.elems[i], c)
  {
    match v
    case Scalar(_) =>
    case Object(fs) =>
      CollationAwareFieldsAt(fs, c, 0);
      forall i | 0 <= i < |fs| ensures CollationAware(v, c).fields[i] == Field(fs[i].name, CollationAware(fs[i].value, c)) {
        CollationAwareFieldsAt(fs, c, i);
      }
    case Array(es) =>
      CollationAwareItemsAt(es, c, 0);
      forall i | 0 <= i < |es| ensures CollationAware(v, c).elems[i] == CollationAware(es[i], c) {
        CollationAwareItemsAt(es, c, i);
      }
  }

  lemma {:induction false} CollationAwareFieldsAt(fs: seq<Field>, c: Collator, i: nat)
    ensures |CollationAwareFields(fs, c)| == |fs|
    ensures i < |fs| ==> CollationAwareFields(fs, c)[i] == Field(fs[i].name, CollationAware(fs[i].value, c))
    decreases fs
  {
    if fs != [] {
      CollationAwareFieldsAt(fs[..|fs| - 1], c, i);
    }
  }

  lemma {:induction false} CollationAwareItemsAt(es: seq<Value>, c: Collator, i: nat)
    ensures |CollationAwareItems(es, c)| == |es|
    ensures i < |es| ==> CollationAwareItems(es, c)[i] == CollationAware(es[i], c)
    decreases es
  {
    if es != [] {
      CollationAwareItemsAt(es[..|es| - 1], c, i);
    }
  }

  /** With the null collator the collation-aware form of a value is the value itself. */
  lemma {:induction false} NullCollatorIsIdentity(v: Value)
    ensures CollationAware(v, None) == v
    decreases v, 1
  {
    match v
    case Scalar(_) =>
    case Object(fs) => NullCollatorFields(fs);
    case Array(es) => NullCollatorItems(es);
  }

  lemma {:induction false} NullCollatorFields(fs: seq<Field>)
    ensures CollationAwareFields(fs, None) == fs
    decreases fs, 0
  {
    if fs != [] {
      var n := |fs| - 1;
      NullCollatorFields(fs[..n]);
      NullCollatorIsIdentity(fs[n].value);
      assert fs == fs[..n] + [fs[n]];
    }
  }

  lemma {:induction false} NullCollatorItems(es: seq<Value>)
    ensures CollationAwareItems(es, None) == es
    decreases es, 0
  {
    if es != [] {
      var n := |es| - 1;
      NullCollatorItems(es[..n]);
      NullCollatorIsIdentity(es[n]);
      assert es == es[..n] + [es[n]];
    }
  }
}
