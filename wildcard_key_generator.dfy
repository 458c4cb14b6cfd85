/** The wildcard ($**) key generator: it projects a document with the projection its key pattern
    and path projection determine, walks the projected document threading a mutable path,
    and inserts into two caller-owned sets one key per leaf and one multikey entry per array. */
module WildcardKeyGeneration {
  import opened Document
  import opened FieldPaths
  import opened WildcardIndex
  import opened Projection

  /** An index key { '': 'path.to.field', '': <collation-aware value> }. */
  datatype Key = Key(path: string, value: Value)

  /** A multikey entry { '': 1, '': 'path.to.array' }. */
  datatype MultikeyEntry = MultikeyEntry(marker: int, path: string)

  const kMultikeyMarker: int := 1

  function MakeKey(e: Entry): Key
  {
    Key(Dotted(e.path), e.value)
  }

  function MakeMultikey(p: Path): MultikeyEntry
  {
    MultikeyEntry(kMultikeyMarker, Dotted(p))
  }

  /** The formatted keys of a set of entries. */
  function FormatKeys(entries: set<Entry>): set<Key>
  {
    set e | e in entries :: MakeKey(e)
  }

  /** The formatted multikey entries of a set of array paths. */
  function FormatMultikeys(paths: set<Path>): set<MultikeyEntry>
  {
    set p | p in paths :: MakeMultikey(p)
  }

  lemma FormatUnion(a: KeyData, b: KeyData)
    ensures FormatKeys(a.Union(b).entries) == FormatKeys(a.entries) + FormatKeys(b.entries)
    ensures FormatMultikeys(a.Union(b).arrays) == FormatMultikeys(a.arrays) + FormatMultikeys(b.arrays)
  {
  }

  /** A caller-owned set of BSON index objects (mongo's BSONObjSet): insertion of an element
      already present changes nothing. */
  class ObjSet<T(==)> {
    var contents: set<T>

    constructor ()
      ensures contents == {}
    {
      contents := {};
    }

    method Insert(x: T)
      modifies this
      ensures contents == old(contents) + {x}
    {
      contents := contents + {x};
    }
  }

  class WildcardKeyGenerator {
    const projExec: ProjectionRule
    const collator: Collator
    const keyPattern: seq<KeyPatternField>

    /** Builds the generator around exactly the projection CreateProjectionExec returns for the
        same key pattern and path projection; the collator is borrowed, not changed. */
    constructor (keyPattern: seq<KeyPatternField>, pathProjection: seq<ProjectionField>, collator: Collator)
      requires CreateProjectionExec(keyPattern, pathProjection).Ok?
      ensures projExec == CreateProjectionExec(keyPattern, pathProjection).value
      ensures this.collator == collator && this.keyPattern == keyPattern
    {
      this.projExec := CreateProjectionExec(keyPattern, pathProjection).value;
      this.collator := collator;
      this.keyPattern := keyPattern;
    }

    /** What generateKeys adds for a document: the traversal of its projection. */
    function GeneratedIndex(inputDoc: Doc): KeyData
    {
      DocumentIndex(ApplyProjection(projExec, inputDoc), collator)
    }

    /** Projects the document and adds one key per leaf and one multikey entry per array of
        the projected document; nothing else changes, and the generator itself is constant. */
    method GenerateKeys(inputDoc: Doc, keys: ObjSet<Key>, multikeyPaths: ObjSet<MultikeyEntry>)
      modifies keys, multikeyPaths
      ensures keys.contents == old(keys.contents) + FormatKeys(GeneratedIndex(inputDoc).entries)
      ensures multikeyPaths.contents == old(multikeyPaths.contents) + FormatMultikeys(GeneratedIndex(inputDoc).arrays)
    {
      var rootPath := new FieldRef();
      TraverseWildcard(Object(ApplyProjection(projExec, inputDoc)), false, rootPath, keys, multikeyPaths);
    }

    /** Visits every element of an object or array, extending the path by the field name of
        each object field (never for an array element) and restoring it afterwards. */
    method TraverseWildcard(obj: Value, objIsArray: bool, path: FieldRef,
                            keys: ObjSet<Key>, multikeyPaths: ObjSet<MultikeyEntry>)
      requires obj.Object? || obj.Array?
      requires objIsArray == obj.Array?
      modifies path, keys, multikeyPaths
      ensures path.parts == old(path.parts)
      ensures keys.contents == old(keys.contents) + FormatKeys(ChildrenIndex(obj, old(path.parts), collator).entries)
      ensures multikeyPaths.contents == old(multikeyPaths.contents) + FormatMultikeys(ChildrenIndex(obj, old(path.parts), collator).arrays)
      decreases obj, 1
    {
      ghost var q := path.parts;
      var n := if objIsArray then |obj.elems| else |obj.fields|;
      var i := 0;
      while i < n
        invariant 0 <= i <= n
        invariant path.parts == q
        invariant keys.contents == old(keys.contents) + FormatKeys(ChildrenIndex(Take(obj, i), q, collator).entries)
        invariant multikeyPaths.contents == old(multikeyPaths.contents) + FormatMultikeys(ChildrenIndex(Take(obj, i), q, collator).arrays)
      {
        var elem: Value;
        if !objIsArray {
          path.AppendPart(obj.fields[i].name);
          elem := obj.fields[i].value;
        } else {
          elem := obj.elems[i];
        }
        TakeNext(obj, i, q, collator);
        FormatUnion(ChildrenIndex(Take(obj, i), q, collator), ElementIndex(elem, path.parts, objIsArray, collator));
        TraverseElement(elem, objIsArray, path, keys, multikeyPaths);
        if !objIsArray {
          path.RemoveLastPart();
        }
        i := i + 1;
      }
      assert Take(obj, n) == obj;
    }

    /** The switch on one element's type inside the traversal loop: an array nested in an
        array becomes one key; any other array is recorded as a multikey path and then handled
        like an object; an empty object or array becomes one key; a non-empty one is descended;
        anything else becomes one key. */
    method TraverseElement(elem: Value, objIsArray: bool, path: FieldRef,
                           keys: ObjSet<Key>, multikeyPaths: ObjSet<MultikeyEntry>)
      modifies path, keys, multikeyPaths
      ensures path.parts == old(path.parts)
      ensures keys.contents == old(keys.contents) + FormatKeys(ElementIndex(elem, old(path.parts), objIsArray, collator).entries)
      ensures multikeyPaths.contents == old(multikeyPaths.contents) + FormatMultikeys(ElementIndex(elem, old(path.parts), objIsArray, collator).arrays)
      decreases elem, 2
    {
      match elem {
        case Array(es) =>
          var nested := AddKeyForNestedArray(elem, path, objIsArray, keys);
          if !nested {
            AddMultiKey(path, multikeyPaths);
            var empty := AddKeyForEmptyLeaf(elem, path, keys);
            if !empty {
              FormatUnion(KeyData({}, {path.parts}), ItemsIndex(es, path.parts, collator));
              TraverseWildcard(elem, true, path, keys, multikeyPaths);
            }
          }
        case Object(fs) =>
          var empty := AddKeyForEmptyLeaf(elem, path, keys);
          if !empty {
            TraverseWildcard(elem, false, path, keys, multikeyPaths);
          }
        case Scalar(_) =>
          AddKey(elem, path, keys);
      }
    }

    /** Adds the key { '': dotted path, '': collation-aware elem }. */
    method AddKey(elem: Value, fullPath: FieldRef, keys: ObjSet<Key>)
      modifies keys
      ensures keys.contents == old(keys.contents) + {MakeKey(Entry(fullPath.parts, CollationAware(elem, collator)))}
    {
      keys.Insert(Key(fullPath.DottedField(), CollationAware(elem, collator)));
    }

    /** Adds the multikey entry { '': 1, '': dotted path }. */
    method AddMultiKey(fullPath: FieldRef, multikeyPaths: ObjSet<MultikeyEntry>)
      modifies multikeyPaths
      ensures multikeyPaths.contents == old(multikeyPaths.contents) + {MakeMultikey(fullPath.parts)}
    {
      multikeyPaths.Insert(MultikeyEntry(kMultikeyMarker, fullPath.DottedField()));
    }

    /** An array directly inside an array is indexed whole at the current path; returns whether
        the element was handled that way. */
    method AddKeyForNestedArray(elem: Value, fullPath: FieldRef, enclosingObjIsArray: bool, keys: ObjSet<Key>)
      returns (added: bool)
      modifies keys
      ensures added <==> enclosingObjIsArray && elem.Array?
      ensures keys.contents == old(keys.contents) +
        (if added then {MakeKey(Entry(fullPath.parts, CollationAware(elem, collator)))} else {})
    {
      if enclosingObjIsArray && elem.Array? {
        AddKey(elem, fullPath, keys);
        return true;
      }
      return false;
    }

    /** An empty object or array is indexed as one key at its path instead of vanishing;
        returns whether the element was empty. */
    method AddKeyForEmptyLeaf(elem: Value, fullPath: FieldRef, keys: ObjSet<Key>)
      returns (added: bool)
      requires elem.Object? || elem.Array?
      modifies keys
      ensures added <==> IsEmptyContainer(elem)
      ensures keys.contents == old(keys.contents) +
        (if added then {MakeKey(Entry(fullPath.parts, CollationAware(EmptyLeafValue(elem), collator)))} else {})
    {
      if IsEmptyContainer(elem) {
        AddKey(EmptyLeafValue(elem), fullPath, keys);
        return true;
      }
      return false;
    }
  }

  /** The object or array made of the first i children of a container. */
  function Take(container: Value, i: nat): (r: Value)
    requires container.Object? || container.Array?
    requires i <= (if container.Array? then |container.elems| else |container.fields|)
    ensures r.Object? == container.Object? && r.Array? == container.Array?
  {
    if container.Object? then Object(container.fields[..i]) else Array(container.elems[..i])
  }

  /** Taking one more child adds exactly that child's visit. */
  lemma TakeNext(container: Value, i: nat, q: Path, c: Collator)
    requires container.Object? || container.Array?
    requires i < (if container.Array? then |container.elems| else |container.fields|)
    ensures container.Object? ==>
      ChildrenIndex(Take(container, i + 1), q, c) ==
      ChildrenIndex(Take(container, i), q, c).Union(
        ElementIndex(container.fields[i].value, q + [container.fields[i].name], false, c))
    ensures container.Array? ==>
      ChildrenIndex(Take(container, i + 1), q, c) ==
      ChildrenIndex(Take(container, i), q, c).Union(ElementIndex(container.elems[i], q, true, c))
  {
    if container.Object? {
      assert container.fields[..i + 1][..i] == container.fields[..i];
    } else {
      assert container.elems[..i + 1][..i] == container.elems[..i];
    }
  }
}
