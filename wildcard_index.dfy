/** What a wildcard ($**) index holds for one (already projected) document, stated twice:
    once by walking the document the way the key generator does, and once by looking paths up
    in the document the way a query on a dotted path does. The two are proved to agree.

    Array elements share the path of their array: no index component is ever pushed for them,
    which is what lets one array-valued field be indexed as a multikey path. */
module WildcardIndex {
  import opened Document
  import opened FieldPaths

  /** One index entry before formatting: the path of a leaf and its collation-aware value. */
  datatype Entry = Entry(path: Path, value: Value)

  /** Everything one traversal adds: the index entries and the paths at which arrays were met. */
  datatype KeyData = KeyData(entries: set<Entry>, arrays: set<Path>)
  {
    function Union(other: KeyData): KeyData
    {
      KeyData(entries + other.entries, arrays + other.arrays)
    }
  }

  const NoKeys := KeyData({}, {})

  /** The value that stands for an empty container in its key: an empty array is indexed as
      undefined, as a regular index does; an empty object is indexed as itself. */
  function EmptyLeafValue(v: Value): Value
    requires v.Object? || v.Array?
  {
    if v.Array? then Scalar(Undefined) else v
  }

  // ---------------------------------------------------------------------------------------
  // The traversal, document-directed
  // ---------------------------------------------------------------------------------------

  /** What one element adds when it sits at 'path' inside an object (enclosingIsArray false)
      or inside an array (enclosingIsArray true). In order: an array directly inside an array
      is one key at the array's path and is not descended; any other array marks 'path'
      multikey; an empty container is one key; a non-empty container is descended; a
      primitive is one key. */
  function ElementIndex(v: Value, path: Path, enclosingIsArray: bool, c: Collator): KeyData
    decreases v, 1
  {
    match v
    case Array(es) =>
      if enclosingIsArray then KeyData({Entry(path, CollationAware(v, c))}, {})
      else if es == [] then KeyData({Entry(path, CollationAware(EmptyLeafValue(v), c))}, {path})
      else KeyData({}, {path}).Union(ItemsIndex(es, path, c))
    case Object(fs) =>
      if fs == [] then KeyData({Entry(path, CollationAware(EmptyLeafValue(v), c))}, {})
      else FieldsIndex(fs, path, c)
    case Scalar(_) => KeyData({Entry(path, CollationAware(v, c))}, {})
  }

  /** The fields of an object at 'path': each field is visited at 'path' extended by its name. */
  function FieldsIndex(fs: seq<Field>, path: Path, c: Collator): KeyData
    decreases fs, 0
  {
    if fs == [] then NoKeys
    else
      var last := fs[|fs| - 1];
      FieldsIndex(fs[..|fs| - 1], path, c).Union(ElementIndex(last.value, path + [last.name], false, c))
  }

  /** The elements of an array at 'path': each element is visited at 'path' itself. */
  function ItemsIndex(es: seq<Value>, path: Path, c: Collator): KeyData
    decreases es, 0
  {
    if es == [] then NoKeys
    else ItemsIndex(es[..|es| - 1], path, c).Union(ElementIndex(es[|es| - 1], path, true, c))
  }

  /** What one traversal of the children of an object or array at 'path' adds. */
  function ChildrenIndex(container: Value, path: Path, c: Collator): KeyData
    requires !container.Scalar?
  {
    if container.Object? then FieldsIndex(container.fields, path, c)
    else ItemsIndex(container.elems, path, c)
  }

  /** What a whole document adds: its top-level fields, visited from the empty path. */
  function DocumentIndex(doc: Doc, c: Collator): KeyData
  {
    FieldsIndex(doc, [], c)
  }

  // ---------------------------------------------------------------------------------------
  // The same index, path-directed: what a lookup of a dotted path finds in the document
  // ---------------------------------------------------------------------------------------

  /** The key value an element found at the end of a lookup contributes at its own path
      (empty when it only contributes through its children). */
  function OwnKey(v: Value, enclosingIsArray: bool, c: Collator): set<Value>
  {
    match v
    case Scalar(_) => {CollationAware(v, c)}
    case Object(fs) => if fs == [] then {CollationAware(v, c)} else {}
    case Array(es) =>
      if enclosingIsArray then {CollationAware(v, c)}
      else if es == [] then {Scalar(Undefined)}
      else {}
  }

  /** The key values the index holds for the relative path 'rest' below 'v'. A lookup walks
      the path through objects by field name and through arrays into every element, but not
      into an array that sits directly inside an array. */
  function IndexedValuesAt(v: Value, rest: Path, enclosingIsArray: bool, c: Collator): set<Value>
    decreases v, 1
  {
    (if rest == [] then OwnKey(v, enclosingIsArray, c) else {}) +
    match v
    case Scalar(_) => {}
    case Object(fs) => if rest == [] then {} else FieldValuesAt(fs, rest[0], rest[1..], c)
    case Array(es) => if enclosingIsArray then {} else ItemValuesAt(es, rest, c)
  }

  /** Lookup through the fields named 'name' of an object. */
  function FieldValuesAt(fs: seq<Field>, name: string, rest: Path, c: Collator): set<Value>
    decreases fs, 0
  {
    if fs == [] then {}
    else
      var last := fs[|fs| - 1];
      FieldValuesAt(fs[..|fs| - 1], name, rest, c) +
      (if last.name == name then IndexedValuesAt(last.value, rest, false, c) else {})
  }

  /** Lookup through every element of an array. */
  function ItemValuesAt(es: seq<Value>, rest: Path, c: Collator): set<Value>
    decreases es, 0
  {
    if es == [] then {}
    else ItemValuesAt(es[..|es| - 1], rest, c) + IndexedValuesAt(es[|es| - 1], rest, true, c)
  }

  /** The key values the index holds for a document path; the root itself holds none. */
  function DocumentValuesAt(doc: Doc, p: Path, c: Collator): set<Value>
  {
    if p == [] then {} else FieldValuesAt(doc, p[0], p[1..], c)
  }

  /** Whether a lookup of the relative path 'rest' below 'v' meets an array that is not
      directly inside another array. */
  predicate ArrayAt(v: Value, rest: Path, enclosingIsArray: bool)
    decreases v, 1
  {
    match v
    case Scalar(_) => false
    case Object(fs) => rest != [] && FieldArrayAt(fs, rest[0], rest[1..])
    case Array(es) => !enclosingIsArray && (rest == [] || ItemArrayAt(es, rest))
  }

  predicate FieldArrayAt(fs: seq<Field>, name: string, rest: Path)
    decreases fs, 0
  {
    fs != [] &&
    (FieldArrayAt(fs[..|fs| - 1], name, rest) ||
     (fs[|fs| - 1].name == name && ArrayAt(fs[|fs| - 1].value, rest, false)))
  }

  predicate ItemArrayAt(es: seq<Value>, rest: Path)
    decreases es, 0
  {
    es != [] && (ItemArrayAt(es[..|es| - 1], rest) || ArrayAt(es[|es| - 1], rest, true))
  }

  // ---------------------------------------------------------------------------------------
  // The traversal finds exactly what the lookup finds
  // ---------------------------------------------------------------------------------------

  /** An element visited at 'q' adds the entry (p, x) exactly when p extends q and a lookup of
      the rest of p below the element finds x; and it marks p multikey exactly when p extends q
      and the lookup meets an array there. */
  lemma {:induction false} ElementIndexExact(v: Value, q: Path, b: bool, c: Collator, p: Path, x: Value)
    ensures Entry(p, x) in ElementIndex(v, q, b, c).entries <==> q <= p && x in IndexedValuesAt(v, p[|q|..], b, c)
    ensures p in ElementIndex(v, q, b, c).arrays <==> q <= p && ArrayAt(v, p[|q|..], b)
    decreases v, 1
  {
    match v
    case Scalar(_) =>
      assert q <= p && p[|q|..] == [] ==> p == q;
    case Object(fs) =>
      assert q <= p && p[|q|..] == [] ==> p == q;
      if fs != [] {
        FieldsIndexExact(fs, q, c, p, x);
        if q < p {
          assert p[|q|..][0] == p[|q|] && p[|q|..][1..] == p[|q| + 1..];
        }
      }
    case Array(es) =>
      assert q <= p && p[|q|..] == [] ==> p == q;
      if !b && es != [] {
        ItemsIndexExact(es, q, c, p, x);
      }
  }

  lemma {:induction false} FieldsIndexExact(fs: seq<Field>, q: Path, c: Collator, p: Path, x: Value)
    ensures Entry(p, x) in FieldsIndex(fs, q, c).entries <==> q < p && x in FieldValuesAt(fs, p[|q|], p[|q| + 1..], c)
    ensures p in FieldsIndex(fs, q, c).arrays <==> q < p && FieldArrayAt(fs, p[|q|], p[|q| + 1..])
    decreases fs, 0
  {
    if fs != [] {
      var last := fs[|fs| - 1];
      var q' := q + [last.name];
      FieldsIndexExact(fs[..|fs| - 1], q, c, p, x);
      ElementIndexExact(last.value, q', false, c, p, x);
      assert q' <= p <==> q < p && p[|q|] == last.name by {
        if q < p && p[|q|] == last.name {
          assert p[..|q'|] == p[..|q|] + [p[|q|]];
        }
      }
      if q' <= p {
        assert p[|q'|..] == p[|q| + 1..];
      }
    }
  }

  lemma {:induction false} ItemsIndexExact(es: seq<Value>, q: Path, c: Collator, p: Path, x: Value)
    ensures Entry(p, x) in ItemsIndex(es, q, c).entries <==> q <= p && x in ItemValuesAt(es, p[|q|..], c)
    ensures p in ItemsIndex(es, q, c).arrays <==> q <= p && ItemArrayAt(es, p[|q|..])
    decreases es, 0
  {
    if es != [] {
      ItemsIndexExact(es[..|es| - 1], q, c, p, x);
      ElementIndexExact(es[|es| - 1], q, true, c, p, x);
    }
  }

  /** The key generator's contract for a whole document: the index holds (p, x) exactly when
      a lookup of the dotted path p in the document finds the key value x, and marks p
      multikey exactly when that lookup meets an array at p. In particular every leaf of the
      document gets its key, and no key names a path the document does not have. */
  lemma DocumentIndexExact(doc: Doc, c: Collator, p: Path, x: Value)
    ensures Entry(p, x) in DocumentIndex(doc, c).entries <==> x in DocumentValuesAt(doc, p, c)
    ensures p in DocumentIndex(doc, c).arrays <==> p != [] && FieldArrayAt(doc, p[0], p[1..])
  {
    FieldsIndexExact(doc, [], c, p, x);
    assert p[0..] == p;
  }
}
