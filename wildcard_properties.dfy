/** Properties of the wildcard index that relate the projection, the traversal and the key
    generator: what the projection lets through, that no visited value vanishes from the
    index, that regenerating keys changes nothing, and worked examples of the edge cases. */
module WildcardProperties {
  import opened Document
  import opened FieldPaths
  import opened WildcardIndex
  import opened Projection
  import opened WildcardKeyGeneration

  // ---------------------------------------------------------------------------------------
  // Unfolding the traversal one child at a time
  // ---------------------------------------------------------------------------------------

  lemma FieldsIndexAppend(fs: seq<Field>, tail: seq<Field>, q: Path, c: Collator)
    requires |tail| <= 1
    ensures FieldsIndex(fs + tail, q, c) ==
      if tail == [] then FieldsIndex(fs, q, c)
      else FieldsIndex(fs, q, c).Union(ElementIndex(tail[0].value, q + [tail[0].name], false, c))
  {
    if tail == [] {
      assert fs + tail == fs;
    } else {
      assert (fs + tail)[..|fs|] == fs;
    }
  }

  lemma ItemsIndexAppend(es: seq<Value>, tail: seq<Value>, q: Path, c: Collator)
    requires |tail| <= 1
    ensures ItemsIndex(es + tail, q, c) ==
      if tail == [] then ItemsIndex(es, q, c)
      else ItemsIndex(es, q, c).Union(ElementIndex(tail[0], q, true, c))
  {
    if tail == [] {
      assert es + tail == es;
    } else {
      assert (es + tail)[..|es|] == es;
    }
  }

  /** Every path the traversal of an element at q records extends q. */
  lemma ElementPathsExtend(v: Value, q: Path, b: bool, c: Collator)
    ensures forall e | e in ElementIndex(v, q, b, c).entries :: q <= e.path
    ensures forall p | p in ElementIndex(v, q, b, c).arrays :: q <= p
  {
    forall e | e in ElementIndex(v, q, b, c).entries ensures q <= e.path {
      ElementIndexExact(v, q, b, c, e.path, e.value);
    }
    forall p | p in ElementIndex(v, q, b, c).arrays ensures q <= p {
      ElementIndexExact(v, q, b, c, p, v);
    }
  }

  // ---------------------------------------------------------------------------------------
  // Exclusion: nothing on or under an excluded path is indexed
  // ---------------------------------------------------------------------------------------

  /** No non-empty prefix of p (p included) is an excluded path. */
  predicate ClearOf(excluded: set<Path>, p: Path)
  {
    forall k :: 0 < k <= |p| ==> p[..k] !in excluded
  }

  lemma ClearOfExtend(excluded: set<Path>, q: Path, name: string)
    requires ClearOf(excluded, q) && q + [name] !in excluded
    ensures ClearOf(excluded, q + [name])
  {
    forall k | 0 < k <= |q| + 1 ensures (q + [name])[..k] !in excluded {
      if k <= |q| {
        assert (q + [name])[..k] == q[..k];
      } else {
        assert (q + [name])[..k] == q + [name];
      }
    }
  }

  lemma {:induction false} ExclusionElement(excluded: set<Path>, v: Value, q: Path, b: bool, c: Collator, w: Value)
    requires ClearOf(excluded, q)
    requires ProjectValue(Exclusion(excluded), v, q, b) == Some(w)
    ensures forall e | e in ElementIndex(w, q, b, c).entries :: ClearOf(excluded, e.path)
    ensures forall p | p in ElementIndex(w, q, b, c).arrays :: ClearOf(excluded, p)
    decreases v, 1
  {
    match v
    case Scalar(_) =>
    case Object(fs) =>
      ExclusionFields(excluded, fs, q, c);
    case Array(es) =>
      if !b {
        ExclusionItems(excluded, es, q, c);
      }
  }

  lemma {:induction false} ExclusionFields(excluded: set<Path>, fs: seq<Field>, q: Path, c: Collator)
    requires ClearOf(excluded, q)
    ensures forall e | e in FieldsIndex(ProjectFields(Exclusion(excluded), fs, q), q, c).entries :: ClearOf(excluded, e.path)
    ensures forall p | p in FieldsIndex(ProjectFields(Exclusion(excluded), fs, q), q, c).arrays :: ClearOf(excluded, p)
    decreases fs, 0
  {
    if fs != [] {
      var rule := Exclusion(excluded);
      var last := fs[|fs| - 1];
      var q' := q + [last.name];
      ExclusionFields(excluded, fs[..|fs| - 1], q, c);
      var kept := ProjectFields(rule, fs[..|fs| - 1], q);
      match ProjectValue(rule, last.value, q', false)
      case None =>
        FieldsIndexAppend(kept, [], q, c);
      case Some(w) =>
        ClearOfExtend(excluded, q, last.name);
        ExclusionElement(excluded, last.value, q', false, c, w);
        FieldsIndexAppend(kept, [Field(last.name, w)], q, c);
    }
  }

  lemma {:induction false} ExclusionItems(excluded: set<Path>, es: seq<Value>, q: Path, c: Collator)
    requires ClearOf(excluded, q)
    ensures forall e | e in ItemsIndex(ProjectItems(Exclusion(excluded), es, q), q, c).entries :: ClearOf(excluded, e.path)
    ensures forall p | p in ItemsIndex(ProjectItems(Exclusion(excluded), es, q), q, c).arrays :: ClearOf(excluded, p)
    decreases es, 0
  {
    if es != [] {
      var rule := Exclusion(excluded);
      var last := es[|es| - 1];
      ExclusionItems(excluded, es[..|es| - 1], q, c);
      var kept := ProjectItems(rule, es[..|es| - 1], q);
      match ProjectValue(rule, last, q, true)
      case None =>
        ItemsIndexAppend(kept, [], q, c);
      case Some(w) =>
        ExclusionElement(excluded, last, q, true, c, w);
        ItemsIndexAppend(kept, [w], q, c);
    }
  }

  /** Under an exclusion projection no key and no multikey entry names an excluded path or a
      path below one. */
  lemma ExclusionKeysAvoidExcludedPaths(excluded: set<Path>, doc: Doc, c: Collator)
    ensures forall e | e in DocumentIndex(ApplyProjection(Exclusion(excluded), doc), c).entries :: ClearOf(excluded, e.path)
    ensures forall p | p in DocumentIndex(ApplyProjection(Exclusion(excluded), doc), c).arrays :: ClearOf(excluded, p)
  {
    ExclusionFields(excluded, doc, [], c);
  }

  // ---------------------------------------------------------------------------------------
  // Exclusion: everything not on or under an excluded path is still indexed
  // ---------------------------------------------------------------------------------------

  /** A value visited at a non-root path q survives an exclusion projection when q followed by
      rest is clear of the excluded paths, and a lookup of rest below it finds at least what
      it found before, arrays included. */
  lemma {:induction false} ExclusionKeepsElement(excluded: set<Path>, v: Value, q: Path, b: bool, c: Collator, rest: Path)
    requires |q| >= 1 && ClearOf(excluded, q + rest)
    ensures ProjectValue(Exclusion(excluded), v, q, b).Some?
    ensures IndexedValuesAt(v, rest, b, c) <= IndexedValuesAt(ProjectValue(Exclusion(excluded), v, q, b).value, rest, b, c)
    ensures ArrayAt(v, rest, b) ==> ArrayAt(ProjectValue(Exclusion(excluded), v, q, b).value, rest, b)
    decreases v, 1
  {
    assert (q + rest)[..|q|] == q;
    match v
    case Scalar(_) =>
    case Object(fs) =>
      if rest != [] {
        assert q + rest == q + [rest[0]] + rest[1..];
        ExclusionKeepsFields(excluded, fs, q, c, rest[0], rest[1..]);
      }
    case Array(es) =>
      if !b {
        ExclusionKeepsItems(excluded, es, q, c, rest);
      }
  }

  lemma {:induction false} ExclusionKeepsFields(excluded: set<Path>, fs: seq<Field>, q: Path, c: Collator, name: string, rest: Path)
    requires ClearOf(excluded, q + [name] + rest)
    ensures FieldValuesAt(fs, name, rest, c) <= FieldValuesAt(ProjectFields(Exclusion(excluded), fs, q), name, rest, c)
    ensures FieldArrayAt(fs, name, rest) ==> FieldArrayAt(ProjectFields(Exclusion(excluded), fs, q), name, rest)
    decreases fs, 0
  {
    if fs != [] {
      var rule := Exclusion(excluded);
      var last := fs[|fs| - 1];
      var q' := q + [last.name];
      ExclusionKeepsFields(excluded, fs[..|fs| - 1], q, c, name, rest);
      var kept := ProjectFields(rule, fs[..|fs| - 1], q);
      if last.name == name {
        ExclusionKeepsElement(excluded, last.value, q', false, c, rest);
      }
      match ProjectValue(rule, last.value, q', false)
      case None =>
        assert kept + [] == kept;
      case Some(w) =>
        assert (kept + [Field(last.name, w)])[..|kept|] == kept;
    }
  }

  lemma {:induction false} ExclusionKeepsItems(excluded: set<Path>, es: seq<Value>, q: Path, c: Collator, rest: Path)
    requires |q| >= 1 && ClearOf(excluded, q + rest)
    ensures ItemValuesAt(es, rest, c) <= ItemValuesAt(ProjectItems(Exclusion(excluded), es, q), rest, c)
    ensures ItemArrayAt(es, rest) ==> ItemArrayAt(ProjectItems(Exclusion(excluded), es, q), rest)
    decreases es, 0
  {
    if es != [] {
      var rule := Exclusion(excluded);
      var last := es[|es| - 1];
      ExclusionKeepsItems(excluded, es[..|es| - 1], q, c, rest);
      ExclusionKeepsElement(excluded, last, q, true, c, rest);
      var kept := ProjectItems(rule, es[..|es| - 1], q);
      var w := ProjectValue(rule, last, q, true).value;
      assert (kept + [w])[..|kept|] == kept;
    }
  }

  /** Under an exclusion projection every key and multikey path of the input document that is
      not on or under an excluded path is still generated: exclusion removes the excluded
      subtrees and nothing else. */
  lemma ExclusionKeepsEverythingElse(excluded: set<Path>, doc: Doc, c: Collator)
    ensures forall e | e in DocumentIndex(doc, c).entries && ClearOf(excluded, e.path) ::
      e in DocumentIndex(ApplyProjection(Exclusion(excluded), doc), c).entries
    ensures forall p | p in DocumentIndex(doc, c).arrays && ClearOf(excluded, p) ::
      p in DocumentIndex(ApplyProjection(Exclusion(excluded), doc), c).arrays
  {
    var projected := ApplyProjection(Exclusion(excluded), doc);
    forall e | e in DocumentIndex(doc, c).entries && ClearOf(excluded, e.path)
      ensures e in DocumentIndex(projected, c).entries
    {
      var p := e.path;
      DocumentIndexExact(doc, c, p, e.value);
      DocumentIndexExact(projected, c, p, e.value);
      assert [] + [p[0]] + p[1..] == p;
      ExclusionKeepsFields(excluded, doc, [], c, p[0], p[1..]);
    }
    forall p | p in DocumentIndex(doc, c).arrays && ClearOf(excluded, p)
      ensures p in DocumentIndex(projected, c).arrays
    {
      DocumentIndexExact(doc, c, p, Scalar(Null));
      DocumentIndexExact(projected, c, p, Scalar(Null));
      assert [] + [p[0]] + p[1..] == p;
      ExclusionKeepsFields(excluded, doc, [], c, p[0], p[1..]);
    }
  }

  // ---------------------------------------------------------------------------------------
  // Inclusion: every key lies inside an included subtree; arrays met on the way down to one
  // are the only other paths recorded
  // ---------------------------------------------------------------------------------------

  predicate OnIncludedPath(included: set<Path>, p: Path)
  {
    Covered(included, p) || Leading(included, p)
  }

  lemma {:induction false} InclusionElement(included: set<Path>, v: Value, q: Path, b: bool, c: Collator, w: Value)
    requires ProjectValue(Inclusion(included), v, q, b) == Some(w)
    ensures forall e | e in ElementIndex(w, q, b, c).entries :: Covered(included, e.path)
    ensures forall p | p in ElementIndex(w, q, b, c).arrays :: OnIncludedPath(included, p)
    decreases v, 1
  {
    if Covered(included, q) {
      var root :| root in included && root <= q;
      ElementPathsExtend(w, q, b, c);
      forall e | e in ElementIndex(w, q, b, c).entries ensures Covered(included, e.path) {
        assert root <= e.path;
      }
      forall p | p in ElementIndex(w, q, b, c).arrays ensures OnIncludedPath(included, p) {
        assert root <= p;
      }
    } else {
      match v
      case Scalar(_) =>
      case Object(fs) =>
        InclusionFields(included, fs, q, c);
      case Array(es) =>
        InclusionItems(included, es, q, c);
    }
  }

  lemma {:induction false} InclusionFields(included: set<Path>, fs: seq<Field>, q: Path, c: Collator)
    ensures forall e | e in FieldsIndex(ProjectFields(Inclusion(included), fs, q), q, c).entries :: Covered(included, e.path)
    ensures forall p | p in FieldsIndex(ProjectFields(Inclusion(included), fs, q), q, c).arrays :: OnIncludedPath(included, p)
    decreases fs, 0
  {
    if fs != [] {
      var rule := Inclusion(included);
      var last := fs[|fs| - 1];
      var q' := q + [last.name];
      InclusionFields(included, fs[..|fs| - 1], q, c);
      var kept := ProjectFields(rule, fs[..|fs| - 1], q);
      match ProjectValue(rule, last.value, q', false)
      case None =>
        FieldsIndexAppend(kept, [], q, c);
      case Some(w) =>
        InclusionElement(included, last.value, q', false, c, w);
        FieldsIndexAppend(kept, [Field(last.name, w)], q, c);
    }
  }

  lemma {:induction false} InclusionItems(included: set<Path>, es: seq<Value>, q: Path, c: Collator)
    ensures forall e | e in ItemsIndex(ProjectItems(Inclusion(included), es, q), q, c).entries :: Covered(included, e.path)
    ensures forall p | p in ItemsIndex(ProjectItems(Inclusion(included), es, q), q, c).arrays :: OnIncludedPath(included, p)
    decreases es, 0
  {
    if es != [] {
      var rule := Inclusion(included);
      var last := es[|es| - 1];
      InclusionItems(included, es[..|es| - 1], q, c);
      var kept := ProjectItems(rule, es[..|es| - 1], q);
      match ProjectValue(rule, last, q, true)
      case None =>
        ItemsIndexAppend(kept, [], q, c);
      case Some(w) =>
        InclusionElement(included, last, q, true, c, w);
        ItemsIndexAppend(kept, [w], q, c);
    }
  }

  /** A path inside an included subtree either has its own prefix q inside one, or q is a
      proper prefix leading to one. */
  lemma CoveredSplit(included: set<Path>, q: Path, rest: Path)
    requires Covered(included, q + rest)
    ensures Covered(included, q) || (rest != [] && Leading(included, q))
  {
    var root :| root in included && root <= q + rest;
    if |root| <= |q| {
      assert root == (q + rest)[..|root|] == q[..|root|];
      assert root <= q;
    } else {
      assert q == (q + rest)[..|q|] == root[..|q|];
      assert q < root;
    }
  }

  /** A lookup at a path inside an included subtree finds in the projected value whatever
      it found in the value itself, arrays included; in particular the value survives. */
  lemma {:induction false} InclusionKeepsElement(included: set<Path>, v: Value, q: Path, b: bool, c: Collator, rest: Path, x: Value)
    requires Covered(included, q + rest)
    requires x in IndexedValuesAt(v, rest, b, c) || ArrayAt(v, rest, b)
    ensures ProjectValue(Inclusion(included), v, q, b).Some?
    ensures x in IndexedValuesAt(v, rest, b, c) ==>
      x in IndexedValuesAt(ProjectValue(Inclusion(included), v, q, b).value, rest, b, c)
    ensures ArrayAt(v, rest, b) ==> ArrayAt(ProjectValue(Inclusion(included), v, q, b).value, rest, b)
    decreases v, 1
  {
    match v
    case Scalar(_) =>
      assert q + rest == q;
    case Object(fs) =>
      if !Covered(included, q) {
        CoveredSplit(included, q, rest);
        assert q + rest == q + [rest[0]] + rest[1..];
        InclusionKeepsFields(included, fs, q, c, rest[0], rest[1..], x);
      }
    case Array(es) =>
      if !Covered(included, q) {
        CoveredSplit(included, q, rest);
        InclusionKeepsItems(included, es, q, c, rest, x);
      }
  }

  lemma {:induction false} InclusionKeepsFields(included: set<Path>, fs: seq<Field>, q: Path, c: Collator, name: string, rest: Path, x: Value)
    requires Covered(included, q + [name] + rest)
    requires x in FieldValuesAt(fs, name, rest, c) || FieldArrayAt(fs, name, rest)
    ensures ProjectFields(Inclusion(included), fs, q) != []
    ensures x in FieldValuesAt(fs, name, rest, c) ==> x in FieldValuesAt(ProjectFields(Inclusion(included), fs, q), name, rest, c)
    ensures FieldArrayAt(fs, name, rest) ==> FieldArrayAt(ProjectFields(Inclusion(included), fs, q), name, rest)
    decreases fs, 0
  {
    var rule := Inclusion(included);
    var init := fs[..|fs| - 1];
    var last := fs[|fs| - 1];
    var kept := ProjectFields(rule, init, q);
    if x in FieldValuesAt(init, name, rest, c) || FieldArrayAt(init, name, rest) {
      InclusionKeepsFields(included, init, q, c, name, rest, x);
    }
    if last.name == name && (x in IndexedValuesAt(last.value, rest, false, c) || ArrayAt(last.value, rest, false)) {
      InclusionKeepsElement(included, last.value, q + [last.name], false, c, rest, x);
    }
    match ProjectValue(rule, last.value, q + [last.name], false)
    case None =>
      assert kept + [] == kept;
    case Some(w) =>
      assert (kept + [Field(last.name, w)])[..|kept|] == kept;
  }

  lemma {:induction false} InclusionKeepsItems(included: set<Path>, es: seq<Value>, q: Path, c: Collator, rest: Path, x: Value)
    requires Covered(included, q + rest)
    requires x in ItemValuesAt(es, rest, c) || ItemArrayAt(es, rest)
    ensures ProjectItems(Inclusion(included), es, q) != []
    ensures x in ItemValuesAt(es, rest, c) ==> x in ItemValuesAt(ProjectItems(Inclusion(included), es, q), rest, c)
    ensures ItemArrayAt(es, rest) ==> ItemArrayAt(ProjectItems(Inclusion(included), es, q), rest)
    decreases es, 0
  {
    var rule := Inclusion(included);
    var init := es[..|es| - 1];
    var last := es[|es| - 1];
    var kept := ProjectItems(rule, init, q);
    if x in ItemValuesAt(init, rest, c) || ItemArrayAt(init, rest) {
      InclusionKeepsItems(included, init, q, c, rest, x);
    }
    if x in IndexedValuesAt(last, rest, true, c) || ArrayAt(last, rest, true) {
      InclusionKeepsElement(included, last, q, true, c, rest, x);
    }
    match ProjectValue(rule, last, q, true)
    case None =>
      assert kept + [] == kept;
    case Some(w) =>
      assert (kept + [w])[..|kept|] == kept;
  }

  /** Under an inclusion projection every key and multikey path of the input document that
      lies on or under an included path is still generated. */
  lemma InclusionKeepsCovered(included: set<Path>, doc: Doc, c: Collator)
    ensures forall e | e in DocumentIndex(doc, c).entries && Covered(included, e.path) ::
      e in DocumentIndex(ApplyProjection(Inclusion(included), doc), c).entries
    ensures forall p | p in DocumentIndex(doc, c).arrays && Covered(included, p) ::
      p in DocumentIndex(ApplyProjection(Inclusion(included), doc), c).arrays
  {
    var projected := ApplyProjection(Inclusion(included), doc);
    forall e | e in DocumentIndex(doc, c).entries && Covered(included, e.path)
      ensures e in DocumentIndex(projected, c).entries
    {
      var p := e.path;
      DocumentIndexExact(doc, c, p, e.value);
      DocumentIndexExact(projected, c, p, e.value);
      assert [] + [p[0]] + p[1..] == p;
      InclusionKeepsFields(included, doc, [], c, p[0], p[1..], e.value);
    }
    forall p | p in DocumentIndex(doc, c).arrays && Covered(included, p)
      ensures p in DocumentIndex(projected, c).arrays
    {
      DocumentIndexExact(doc, c, p, Scalar(Null));
      DocumentIndexExact(projected, c, p, Scalar(Null));
      assert [] + [p[0]] + p[1..] == p;
      InclusionKeepsFields(included, doc, [], c, p[0], p[1..], Scalar(Null));
    }
  }

  /** Under an inclusion projection an array that holds a key inside an included subtree is
      kept as an array, so its path stays multikey, and that key is still generated below it. */
  lemma InclusionKeepsLeadingArrayMultikey(included: set<Path>, v: Value, q: Path, c: Collator, rest: Path, x: Value)
    requires v.Array? && Covered(included, q + rest)
    requires x in IndexedValuesAt(v, rest, false, c)
    ensures ProjectValue(Inclusion(included), v, q, false).Some?
    ensures ProjectValue(Inclusion(included), v, q, false).value.Array?
    ensures q in ElementIndex(ProjectValue(Inclusion(included), v, q, false).value, q, false, c).arrays
    ensures Entry(q + rest, x) in ElementIndex(ProjectValue(Inclusion(included), v, q, false).value, q, false, c).entries
  {
    InclusionKeepsElement(included, v, q, false, c, rest, x);
    var w := ProjectValue(Inclusion(included), v, q, false).value;
    ElementIndexExact(w, q, false, c, q, x);
    assert q[|q|..] == [];
    ElementIndexExact(w, q, false, c, q + rest, x);
    assert (q + rest)[|q|..] == rest;
  }

  /** Under an inclusion projection every key lies inside an included subtree, and every
      multikey path lies inside one or on the way down to one. */
  lemma InclusionKeysStayOnIncludedPaths(included: set<Path>, doc: Doc, c: Collator)
    ensures forall e | e in DocumentIndex(ApplyProjection(Inclusion(included), doc), c).entries :: Covered(included, e.path)
    ensures forall p | p in DocumentIndex(ApplyProjection(Inclusion(included), doc), c).arrays :: OnIncludedPath(included, p)
  {
    InclusionFields(included, doc, [], c);
  }

  /** A "<prefix>.$**" key pattern projects the document onto the subtree at prefix: every key
      lies in that subtree, and every multikey path lies in it or on the way down to it; and
      every key and multikey path the document has in that subtree is generated. */
  lemma SubtreeKeyPatternIndexesOnlyItsSubtree(prefix: string, direction: int, doc: Doc, c: Collator)
    ensures CreateProjectionExec([KeyPatternField(prefix + kSubtreeSuffix, direction)], []) == Ok(Inclusion({Split(prefix)}))
    ensures forall e | e in DocumentIndex(ApplyProjection(Inclusion({Split(prefix)}), doc), c).entries ::
      Split(prefix) <= e.path
    ensures forall p | p in DocumentIndex(ApplyProjection(Inclusion({Split(prefix)}), doc), c).arrays ::
      Split(prefix) <= p || p < Split(prefix)
    ensures forall e | e in DocumentIndex(doc, c).entries && Split(prefix) <= e.path ::
      e in DocumentIndex(ApplyProjection(Inclusion({Split(prefix)}), doc), c).entries
    ensures forall p | p in DocumentIndex(doc, c).arrays && Split(prefix) <= p ::
      p in DocumentIndex(ApplyProjection(Inclusion({Split(prefix)}), doc), c).arrays
  {
    var root := Split(prefix);
    SubtreeSuffixRoundTrip(prefix);
    InclusionKeysStayOnIncludedPaths({root}, doc, c);
    InclusionKeepsCovered({root}, doc, c);
    forall p: Path | root <= p ensures Covered({root}, p) {
      assert root in {root};
    }
  }

  // ---------------------------------------------------------------------------------------
  // Every key path is a path of the input document
  // ---------------------------------------------------------------------------------------

  /** A lookup of the relative path rest below v reaches some value: through objects by field
      name, through arrays into every element, but not into an array inside an array. */
  predicate Reaches(v: Value, rest: Path, enclosingIsArray: bool)
    decreases v, 1
  {
    rest == [] ||
    match v
    case Scalar(_) => false
    case Object(fs) => FieldReaches(fs, rest[0], rest[1..])
    case Array(es) => !enclosingIsArray && ItemReaches(es, rest)
  }

  predicate FieldReaches(fs: seq<Field>, name: string, rest: Path)
    decreases fs, 0
  {
    fs != [] &&
    (FieldReaches(fs[..|fs| - 1], name, rest) ||
     (fs[|fs| - 1].name == name && Reaches(fs[|fs| - 1].value, rest, false)))
  }

  predicate ItemReaches(es: seq<Value>, rest: Path)
    decreases es, 0
  {
    es != [] && (ItemReaches(es[..|es| - 1], rest) || Reaches(es[|es| - 1], rest, true))
  }

  /** p names a field of the document, possibly through arrays. */
  predicate DocReaches(doc: Doc, p: Path)
  {
    p != [] && FieldReaches(doc, p[0], p[1..])
  }

  /** Whatever a lookup finds, or any array it meets, is somewhere the lookup reaches. */
  lemma {:induction false} LookupReaches(v: Value, rest: Path, b: bool, c: Collator, x: Value)
    requires x in IndexedValuesAt(v, rest, b, c) || ArrayAt(v, rest, b)
    ensures Reaches(v, rest, b)
    decreases v, 1
  {
    if rest != [] {
      match v
      case Scalar(_) =>
      case Object(fs) => FieldLookupReaches(fs, rest[0], rest[1..], c, x);
      case Array(es) => ItemLookupReaches(es, rest, c, x);
    }
  }

  lemma {:induction false} FieldLookupReaches(fs: seq<Field>, name: string, rest: Path, c: Collator, x: Value)
    requires x in FieldValuesAt(fs, name, rest, c) || FieldArrayAt(fs, name, rest)
    ensures FieldReaches(fs, name, rest)
    decreases fs, 0
  {
    var last := fs[|fs| - 1];
    if x in FieldValuesAt(fs[..|fs| - 1], name, rest, c) || FieldArrayAt(fs[..|fs| - 1], name, rest) {
      FieldLookupReaches(fs[..|fs| - 1], name, rest, c, x);
    } else {
      LookupReaches(last.value, rest, false, c, x);
    }
  }

  lemma {:induction false} ItemLookupReaches(es: seq<Value>, rest: Path, c: Collator, x: Value)
    requires x in ItemValuesAt(es, rest, c) || ItemArrayAt(es, rest)
    ensures ItemReaches(es, rest)
    decreases es, 0
  {
    if x in ItemValuesAt(es[..|es| - 1], rest, c) || ItemArrayAt(es[..|es| - 1], rest) {
      ItemLookupReaches(es[..|es| - 1], rest, c, x);
    } else {
      LookupReaches(es[|es| - 1], rest, true, c, x);
    }
  }

  /** The projection only removes parts of a value: whatever a lookup reaches in the
      projected value it reaches in the value itself. */
  lemma {:induction false} ProjectionReachesBack(rule: ProjectionRule, v: Value, q: Path, b: bool, w: Value, rest: Path)
    requires ProjectValue(rule, v, q, b) == Some(w) && Reaches(w, rest, b)
    ensures Reaches(v, rest, b)
    decreases v, 1
  {
    if rest != [] && w != v {
      match v
      case Scalar(_) =>
      case Object(fs) => ProjectedFieldsReachBack(rule, fs, q, rest[0], rest[1..]);
      case Array(es) => ProjectedItemsReachBack(rule, es, q, rest);
    }
  }

  lemma {:induction false} ProjectedFieldsReachBack(rule: ProjectionRule, fs: seq<Field>, q: Path, name: string, rest: Path)
    requires FieldReaches(ProjectFields(rule, fs, q), name, rest)
    ensures FieldReaches(fs, name, rest)
    decreases fs, 0
  {
    var last := fs[|fs| - 1];
    var kept := ProjectFields(rule, fs[..|fs| - 1], q);
    match ProjectValue(rule, last.value, q + [last.name], false)
    case None =>
      assert kept + [] == kept;
      ProjectedFieldsReachBack(rule, fs[..|fs| - 1], q, name, rest);
    case Some(w) =>
      assert (kept + [Field(last.name, w)])[..|kept|] == kept;
      if FieldReaches(kept, name, rest) {
        ProjectedFieldsReachBack(rule, fs[..|fs| - 1], q, name, rest);
      } else {
        ProjectionReachesBack(rule, last.value, q + [last.name], false, w, rest);
      }
  }

  lemma {:induction false} ProjectedItemsReachBack(rule: ProjectionRule, es: seq<Value>, q: Path, rest: Path)
    requires ItemReaches(ProjectItems(rule, es, q), rest)
    ensures ItemReaches(es, rest)
    decreases es, 0
  {
    var last := es[|es| - 1];
    var kept := ProjectItems(rule, es[..|es| - 1], q);
    match ProjectValue(rule, last, q, true)
    case None =>
      assert kept + [] == kept;
      ProjectedItemsReachBack(rule, es[..|es| - 1], q, rest);
    case Some(w) =>
      assert (kept + [w])[..|kept|] == kept;
      if ItemReaches(kept, rest) {
        ProjectedItemsReachBack(rule, es[..|es| - 1], q, rest);
      } else {
        ProjectionReachesBack(rule, last, q, true, w, rest);
      }
  }

  /** Whatever the projection, every key path and every multikey path the generator records
      is a path of the input document. */
  lemma ProjectedKeyPathsExist(rule: ProjectionRule, doc: Doc, c: Collator)
    ensures forall e | e in DocumentIndex(ApplyProjection(rule, doc), c).entries :: DocReaches(doc, e.path)
    ensures forall p | p in DocumentIndex(ApplyProjection(rule, doc), c).arrays :: DocReaches(doc, p)
  {
    var projected := ApplyProjection(rule, doc);
    forall e | e in DocumentIndex(projected, c).entries ensures DocReaches(doc, e.path) {
      var p := e.path;
      DocumentIndexExact(projected, c, p, e.value);
      FieldLookupReaches(projected, p[0], p[1..], c, e.value);
      ProjectedFieldsReachBack(rule, doc, [], p[0], p[1..]);
    }
    forall p | p in DocumentIndex(projected, c).arrays ensures DocReaches(doc, p) {
      DocumentIndexExact(projected, c, p, Scalar(Null));
      FieldLookupReaches(projected, p[0], p[1..], c, Scalar(Null));
      ProjectedFieldsReachBack(rule, doc, [], p[0], p[1..]);
    }
  }

  /** A lookup that reaches a path reaches every prefix of it on the way. */
  lemma {:induction false} ReachesPrefix(v: Value, rest: Path, b: bool, k: nat)
    requires k <= |rest| && Reaches(v, rest, b)
    ensures Reaches(v, rest[..k], b)
    decreases v, 1
  {
    if k > 0 {
      assert rest[..k][0] == rest[0] && rest[..k][1..] == rest[1..][..k - 1];
      match v
      case Scalar(_) =>
      case Object(fs) => FieldReachesPrefix(fs, rest[0], rest[1..], k - 1);
      case Array(es) => ItemReachesPrefix(es, rest, k);
    }
  }

  lemma {:induction false} FieldReachesPrefix(fs: seq<Field>, name: string, rest: Path, k: nat)
    requires k <= |rest| && FieldReaches(fs, name, rest)
    ensures FieldReaches(fs, name, rest[..k])
    decreases fs, 0
  {
    if FieldReaches(fs[..|fs| - 1], name, rest) {
      FieldReachesPrefix(fs[..|fs| - 1], name, rest, k);
    } else {
      ReachesPrefix(fs[|fs| - 1].value, rest, false, k);
    }
  }

  lemma {:induction false} ItemReachesPrefix(es: seq<Value>, rest: Path, k: nat)
    requires k <= |rest| && ItemReaches(es, rest)
    ensures ItemReaches(es, rest[..k])
    decreases es, 0
  {
    if ItemReaches(es[..|es| - 1], rest) {
      ItemReachesPrefix(es[..|es| - 1], rest, k);
    } else {
      ReachesPrefix(es[|es| - 1], rest, true, k);
    }
  }

  /** Every array the traversal records has a key at its path or below it. */
  lemma {:induction false} ArraysLeadToKeys(v: Value, q: Path, b: bool, c: Collator)
    ensures forall p | p in ElementIndex(v, q, b, c).arrays ::
      exists e :: e in ElementIndex(v, q, b, c).entries && p <= e.path
    decreases v, 1
  {
    match v
    case Scalar(_) =>
    case Object(fs) =>
      if fs != [] { FieldArraysLeadToKeys(fs, q, c); }
    case Array(es) =>
      if !b && es != [] {
        ItemArraysLeadToKeys(es, q, c);
        ElementLeavesKey(v, q, b, c);
      }
  }

  lemma {:induction false} FieldArraysLeadToKeys(fs: seq<Field>, q: Path, c: Collator)
    ensures forall p | p in FieldsIndex(fs, q, c).arrays ::
      exists e :: e in FieldsIndex(fs, q, c).entries && p <= e.path
    decreases fs, 0
  {
    if fs != [] {
      var last := fs[|fs| - 1];
      FieldArraysLeadToKeys(fs[..|fs| - 1], q, c);
      ArraysLeadToKeys(last.value, q + [last.name], false, c);
    }
  }

  lemma {:induction false} ItemArraysLeadToKeys(es: seq<Value>, q: Path, c: Collator)
    ensures forall p | p in ItemsIndex(es, q, c).arrays ::
      exists e :: e in ItemsIndex(es, q, c).entries && p <= e.path
    decreases es, 0
  {
    if es != [] {
      ItemArraysLeadToKeys(es[..|es| - 1], q, c);
      ArraysLeadToKeys(es[|es| - 1], q, true, c);
    }
  }

  /** Under a "<prefix>.$**" key pattern a key is generated only if the document has a field
      at prefix. */
  lemma SubtreeKeysNeedTheSubtree(prefix: string, doc: Doc, c: Collator)
    ensures DocumentIndex(ApplyProjection(Inclusion({Split(prefix)}), doc), c).entries != {} ==>
      DocReaches(doc, Split(prefix))
  {
    var root := Split(prefix);
    var index := DocumentIndex(ApplyProjection(Inclusion({root}), doc), c);
    DottedSplit(prefix);
    InclusionKeysStayOnIncludedPaths({root}, doc, c);
    ProjectedKeyPathsExist(Inclusion({root}), doc, c);
    if index.entries != {} {
      var e :| e in index.entries;
      var p := e.path;
      assert Covered({root}, p) && DocReaches(doc, p);
      var r :| r in {root} && r <= p;
      assert p[..|root|] == root;
      assert p[1..][..|root| - 1] == root[1..];
      FieldReachesPrefix(doc, p[0], p[1..], |root| - 1);
    }
  }

  /** A "<prefix>.$**" key pattern on a document that has no field at prefix generates no key
      and no multikey path. */
  lemma MissingSubtreeIndexesNothing(prefix: string, doc: Doc, c: Collator)
    requires !DocReaches(doc, Split(prefix))
    ensures DocumentIndex(ApplyProjection(Inclusion({Split(prefix)}), doc), c) == NoKeys
  {
    var projected := ApplyProjection(Inclusion({Split(prefix)}), doc);
    SubtreeKeysNeedTheSubtree(prefix, doc, c);
    FieldArraysLeadToKeys(projected, [], c);
  }

  // ---------------------------------------------------------------------------------------
  // "$**" with no path projection indexes the whole document
  // ---------------------------------------------------------------------------------------

  lemma {:induction false} ExcludeNothingKeepsValue(v: Value, q: Path, b: bool)
    ensures ProjectValue(Exclusion({}), v, q, b) == Some(v)
    decreases v, 1
  {
    match v
    case Scalar(_) =>
    case Object(fs) => ExcludeNothingKeepsFields(fs, q);
    case Array(es) => if !b { ExcludeNothingKeepsItems(es, q); }
  }

  lemma {:induction false} ExcludeNothingKeepsFields(fs: seq<Field>, q: Path)
    ensures ProjectFields(Exclusion({}), fs, q) == fs
    decreases fs, 0
  {
    if fs != [] {
      var n := |fs| - 1;
      ExcludeNothingKeepsFields(fs[..n], q);
      ExcludeNothingKeepsValue(fs[n].value, q + [fs[n].name], false);
      assert fs == fs[..n] + [Field(fs[n].name, fs[n].value)];
    }
  }

  lemma {:induction false} ExcludeNothingKeepsItems(es: seq<Value>, q: Path)
    ensures ProjectItems(Exclusion({}), es, q) == es
    decreases es, 0
  {
    if es != [] {
      var n := |es| - 1;
      ExcludeNothingKeepsItems(es[..n], q);
      ExcludeNothingKeepsValue(es[n], q, true);
      assert es == es[..n] + [es[n]];
    }
  }

  /** The key pattern { "$**": d } with an empty path projection projects nothing away: the
      generator indexes the input document as it is. */
  lemma WholeDocumentWildcard(direction: int, doc: Doc, c: Collator)
    ensures CreateProjectionExec([KeyPatternField(kWildcardField, direction)], []) == Ok(Exclusion({}))
    ensures DocumentIndex(ApplyProjection(Exclusion({}), doc), c) == DocumentIndex(doc, c)
  {
    assert !HasSubtreeSuffix(kWildcardField);
    ExcludeNothingKeepsFields(doc, []);
  }

  // ---------------------------------------------------------------------------------------
  // No visited value vanishes from the index
  // ---------------------------------------------------------------------------------------

  /** Every element the traversal visits leaves at least one key at its path or below it: an
      empty object or array is indexed rather than dropped, and a non-empty container always
      has a descendant that is. */
  lemma {:induction false} ElementLeavesKey(v: Value, q: Path, b: bool, c: Collator)
    ensures exists e :: e in ElementIndex(v, q, b, c).entries && q <= e.path
    decreases v, 1
  {
    match v
    case Scalar(_) =>
      assert Entry(q, CollationAware(v, c)) in ElementIndex(v, q, b, c).entries;
    case Object(fs) =>
      if fs == [] {
        assert Entry(q, CollationAware(EmptyLeafValue(v), c)) in ElementIndex(v, q, b, c).entries;
      } else {
        var last := fs[|fs| - 1];
        ElementLeavesKey(last.value, q + [last.name], false, c);
        var e :| e in ElementIndex(last.value, q + [last.name], false, c).entries && q + [last.name] <= e.path;
        assert e in FieldsIndex(fs, q, c).entries;
        assert q <= e.path by { assert e.path[..|q|] == (q + [last.name])[..|q|]; }
      }
    case Array(es) =>
      if b {
        assert Entry(q, CollationAware(v, c)) in ElementIndex(v, q, b, c).entries;
      } else if es == [] {
        assert Entry(q, CollationAware(EmptyLeafValue(v), c)) in ElementIndex(v, q, b, c).entries;
      } else {
        ElementLeavesKey(es[|es| - 1], q, true, c);
        var e :| e in ElementIndex(es[|es| - 1], q, true, c).entries && q <= e.path;
        assert e in ItemsIndex(es, q, c).entries;
      }
  }

  /** Every field of a document leaves at least one key at its path or below it. */
  lemma {:induction false} EveryFieldIsIndexed(doc: Doc, c: Collator, i: nat)
    requires i < |doc|
    ensures exists e :: e in DocumentIndex(doc, c).entries && [doc[i].name] <= e.path
    decreases |doc|
  {
    var n := |doc| - 1;
    if i == n {
      ElementLeavesKey(doc[n].value, [] + [doc[n].name], false, c);
      assert [] + [doc[n].name] == [doc[n].name];
    } else {
      EveryFieldIsIndexed(doc[..n], c, i);
      assert doc[..n][i] == doc[i];
    }
  }

  // ---------------------------------------------------------------------------------------
  // The dotted key format loses nothing on documents whose field names hold no '.'
  // ---------------------------------------------------------------------------------------

  predicate NamesDotFree(v: Value)
    decreases v, 1
  {
    match v
    case Scalar(_) => true
    case Object(fs) => FieldNamesDotFree(fs)
    case Array(es) => ItemNamesDotFree(es)
  }

  predicate FieldNamesDotFree(fs: seq<Field>)
    decreases fs, 0
  {
    fs == [] ||
    (FieldNamesDotFree(fs[..|fs| - 1]) && '.' !in fs[|fs| - 1].name && NamesDotFree(fs[|fs| - 1].value))
  }

  predicate ItemNamesDotFree(es: seq<Value>)
    decreases es, 0
  {
    es == [] || (ItemNamesDotFree(es[..|es| - 1]) && NamesDotFree(es[|es| - 1]))
  }

  lemma DotFreeExtend(q: Path, name: string)
    requires DotFree(q) && '.' !in name
    ensures DotFree(q + [name])
  {
    forall i | 0 <= i < |q| + 1 ensures '.' !in (q + [name])[i] {
      if i < |q| { assert (q + [name])[i] == q[i]; }
    }
  }

  /** The paths the traversal records are made of field names of the document. */
  lemma {:induction false} ElementPathsDotFree(v: Value, q: Path, b: bool, c: Collator)
    requires DotFree(q) && NamesDotFree(v)
    ensures forall e | e in ElementIndex(v, q, b, c).entries :: DotFree(e.path)
    ensures forall p | p in ElementIndex(v, q, b, c).arrays :: DotFree(p)
    decreases v, 1
  {
    match v
    case Scalar(_) =>
    case Object(fs) => FieldsPathsDotFree(fs, q, c);
    case Array(es) => ItemsPathsDotFree(es, q, c);
  }

  lemma {:induction false} FieldsPathsDotFree(fs: seq<Field>, q: Path, c: Collator)
    requires DotFree(q) && FieldNamesDotFree(fs)
    ensures forall e | e in FieldsIndex(fs, q, c).entries :: DotFree(e.path)
    ensures forall p | p in FieldsIndex(fs, q, c).arrays :: DotFree(p)
    decreases fs, 0
  {
    if fs != [] {
      var last := fs[|fs| - 1];
      FieldsPathsDotFree(fs[..|fs| - 1], q, c);
      DotFreeExtend(q, last.name);
      ElementPathsDotFree(last.value, q + [last.name], false, c);
    }
  }

  lemma {:induction false} ItemsPathsDotFree(es: seq<Value>, q: Path, c: Collator)
    requires DotFree(q) && ItemNamesDotFree(es)
    ensures forall e | e in ItemsIndex(es, q, c).entries :: DotFree(e.path)
    ensures forall p | p in ItemsIndex(es, q, c).arrays :: DotFree(p)
    decreases es, 0
  {
    if es != [] {
      ItemsPathsDotFree(es[..|es| - 1], q, c);
      ElementPathsDotFree(es[|es| - 1], q, true, c);
    }
  }

  /** The projection introduces no field name, so the names of a projected value stay free of dots. */
  lemma {:induction false} ProjectionKeepsNamesDotFree(rule: ProjectionRule, v: Value, q: Path, b: bool, w: Value)
    requires NamesDotFree(v) && ProjectValue(rule, v, q, b) == Some(w)
    ensures NamesDotFree(w)
    decreases v, 1
  {
    match v
    case Scalar(_) =>
    case Object(fs) => ProjectedFieldsDotFree(rule, fs, q);
    case Array(es) => if !b { ProjectedItemsDotFree(rule, es, q); }
  }

  lemma {:induction false} ProjectedFieldsDotFree(rule: ProjectionRule, fs: seq<Field>, q: Path)
    requires FieldNamesDotFree(fs)
    ensures FieldNamesDotFree(ProjectFields(rule, fs, q))
    decreases fs, 0
  {
    if fs != [] {
      var last := fs[|fs| - 1];
      var kept := ProjectFields(rule, fs[..|fs| - 1], q);
      ProjectedFieldsDotFree(rule, fs[..|fs| - 1], q);
      match ProjectValue(rule, last.value, q + [last.name], false)
      case None =>
        assert kept + [] == kept;
      case Some(w) =>
        ProjectionKeepsNamesDotFree(rule, last.value, q + [last.name], false, w);
        assert (kept + [Field(last.name, w)])[..|kept|] == kept;
    }
  }

  lemma {:induction false} ProjectedItemsDotFree(rule: ProjectionRule, es: seq<Value>, q: Path)
    requires ItemNamesDotFree(es)
    ensures ItemNamesDotFree(ProjectItems(rule, es, q))
    decreases es, 0
  {
    if es != [] {
      var last := es[|es| - 1];
      var kept := ProjectItems(rule, es[..|es| - 1], q);
      ProjectedItemsDotFree(rule, es[..|es| - 1], q);
      match ProjectValue(rule, last, q, true)
      case None =>
        assert kept + [] == kept;
      case Some(w) =>
        ProjectionKeepsNamesDotFree(rule, last, q, true, w);
        assert (kept + [w])[..|kept|] == kept;
    }
  }

  /** What generateKeys inserts, in its own format: for a document whose field names hold no
      '.', the key { '': 'p', '': x } is generated exactly when a lookup of the path p in the
      projected document finds the key value x, and the entry { '': 1, '': 'p' } exactly when
      that lookup meets an array at p. */
  lemma GeneratedKeysExact(gen: WildcardKeyGenerator, inputDoc: Doc, p: Path, x: Value)
    requires FieldNamesDotFree(inputDoc)
    requires |p| >= 1 && DotFree(p)
    ensures Key(Dotted(p), x) in FormatKeys(gen.GeneratedIndex(inputDoc).entries) <==>
      x in DocumentValuesAt(ApplyProjection(gen.projExec, inputDoc), p, gen.collator)
    ensures MakeMultikey(p) in FormatMultikeys(gen.GeneratedIndex(inputDoc).arrays) <==>
      FieldArrayAt(ApplyProjection(gen.projExec, inputDoc), p[0], p[1..])
  {
    var projected := ApplyProjection(gen.projExec, inputDoc);
    var index := gen.GeneratedIndex(inputDoc);
    ProjectedFieldsDotFree(gen.projExec, inputDoc, []);
    FieldsPathsDotFree(projected, [], gen.collator);
    DocumentIndexExact(projected, gen.collator, p, x);
    if Key(Dotted(p), x) in FormatKeys(index.entries) {
      var e :| e in index.entries && MakeKey(e) == Key(Dotted(p), x);
      DocumentIndexExact(projected, gen.collator, e.path, e.value);
      DottedInjective(e.path, p);
    }
    if MakeMultikey(p) in FormatMultikeys(index.arrays) {
      var a :| a in index.arrays && MakeMultikey(a) == MakeMultikey(p);
      DocumentIndexExact(projected, gen.collator, a, x);
      DottedInjective(a, p);
    }
  }

  // ---------------------------------------------------------------------------------------
  // Regenerating keys into the same sets changes nothing
  // ---------------------------------------------------------------------------------------

  /** Keys and multikey entries are sets: generating the keys of a document a second time
      into the same sets leaves them as the first call did. */
  method GenerateKeysTwice(gen: WildcardKeyGenerator, inputDoc: Doc,
                           keys: ObjSet<Key>, multikeyPaths: ObjSet<MultikeyEntry>)
    modifies keys, multikeyPaths
    ensures keys.contents == old(keys.contents) + FormatKeys(gen.GeneratedIndex(inputDoc).entries)
    ensures multikeyPaths.contents == old(multikeyPaths.contents) + FormatMultikeys(gen.GeneratedIndex(inputDoc).arrays)
  {
    gen.GenerateKeys(inputDoc, keys, multikeyPaths);
    ghost var keysOnce, multikeyOnce := keys.contents, multikeyPaths.contents;
    gen.GenerateKeys(inputDoc, keys, multikeyPaths);
    assert keys.contents == keysOnce && multikeyPaths.contents == multikeyOnce;
  }

  // ---------------------------------------------------------------------------------------
  // Worked examples
  // ---------------------------------------------------------------------------------------

  function Num(n: int): Value { Scalar(Number(n)) }

  /** A one-field document or object is its field's visit. */
  lemma SingleField(name: string, v: Value, q: Path, c: Collator)
    ensures FieldsIndex([Field(name, v)], q, c) == ElementIndex(v, q + [name], false, c)
  {
    assert [Field(name, v)][..0] == [];
  }

  /** { a: { b: [1, 2, { c: 3 }] } }: keys (a.b, 1), (a.b, 2), (a.b.c, 3); multikey a.b. */
  lemma ExampleArrayOfMixedElements()
    ensures DocumentIndex([Field("a", Object([Field("b", Array([Num(1), Num(2), Object([Field("c", Num(3))])]))]))], None) ==
      KeyData({Entry(["a", "b"], Num(1)), Entry(["a", "b"], Num(2)), Entry(["a", "b", "c"], Num(3))}, {["a", "b"]})
  {
    var inner := Object([Field("c", Num(3))]);
    var elems := [Num(1), Num(2), inner];
    var ab: Path := ["a", "b"];
    SingleField("a", Object([Field("b", Array(elems))]), [], None);
    assert [] + ["a"] == ["a"];
    SingleField("b", Array(elems), ["a"], None);
    assert ["a"] + ["b"] == ab;
    SingleField("c", Num(3), ab, None);
    assert ab + ["c"] == ["a", "b", "c"];
    assert elems[..2] == [Num(1), Num(2)] && elems[..2][..1] == [Num(1)] && [Num(1)][..0] == [];
    assert ItemsIndex([Num(1)], ab, None) == KeyData({Entry(ab, Num(1))}, {});
    assert ItemsIndex([Num(1), Num(2)], ab, None) == KeyData({Entry(ab, Num(1)), Entry(ab, Num(2))}, {});
    assert ElementIndex(inner, ab, true, None) == KeyData({Entry(["a", "b", "c"], Num(3))}, {});
    assert ItemsIndex(elems, ab, None) == KeyData({Entry(ab, Num(1)), Entry(ab, Num(2)), Entry(["a", "b", "c"], Num(3))}, {});
  }

  /** { arr: [[1, 2], "x"] }: the nested array is one key at arr, beside "x"; multikey arr. */
  lemma ExampleNestedArray()
    ensures DocumentIndex([Field("arr", Array([Array([Num(1), Num(2)]), Scalar(Str("x"))]))], None) ==
      KeyData({Entry(["arr"], Array([Num(1), Num(2)])), Entry(["arr"], Scalar(Str("x")))}, {["arr"]})
  {
    var nested := Array([Num(1), Num(2)]);
    var elems := [nested, Scalar(Str("x"))];
    SingleField("arr", Array(elems), [], None);
    assert [] + ["arr"] == ["arr"];
    var x := Scalar(Str("x"));
    NullCollatorIsIdentity(nested);
    NullCollatorIsIdentity(x);
    assert ElementIndex(nested, ["arr"], true, None) == KeyData({Entry(["arr"], nested)}, {});
    assert ElementIndex(x, ["arr"], true, None) == KeyData({Entry(["arr"], x)}, {});
    assert elems[..1] == [nested] && [nested][..0] == [];
    assert ItemsIndex([nested], ["arr"], None) == KeyData({Entry(["arr"], nested)}, {});
    assert ItemsIndex(elems, ["arr"], None) == KeyData({Entry(["arr"], nested), Entry(["arr"], Scalar(Str("x")))}, {});
  }

  /** { a: {} } and { a: [] }: one key at a each, the empty object itself and undefined; only
      the empty array marks a multikey. */
  lemma ExampleEmptyContainers()
    ensures DocumentIndex([Field("a", Object([]))], None) == KeyData({Entry(["a"], Object([]))}, {})
    ensures DocumentIndex([Field("a", Array([]))], None) == KeyData({Entry(["a"], Scalar(Undefined))}, {["a"]})
  {
    SingleField("a", Object([]), [], None);
    SingleField("a", Array([]), [], None);
    assert [] + ["a"] == ["a"];
    NullCollatorIsIdentity(Object([]));
  }

  /** The path projection { a: 1 } under { "$**": 1 } compiles to the inclusion of a. */
  lemma CompileInclusionOfA()
    ensures CreateProjectionExec([KeyPatternField(kWildcardField, 1)], [ProjectionField("a", true)]) == Ok(Inclusion({["a"]}))
  {
    var pathProjection := [ProjectionField("a", true)];
    assert Split("a") == ["a"];
    assert ProjectedPaths(pathProjection, true) == {["a"]};
    assert ProjectedPaths(pathProjection, false) == {};
    assert !HasSubtreeSuffix(kWildcardField);
  }

  /** The path projection { a: 1 } under { "$**": 1 } applied to { a: 1, z: [9] }: it
      compiles to the inclusion of a, which yields the key (a, 1) only and no multikey path. */
  lemma ExampleInclusionProjection()
    ensures CreateProjectionExec([KeyPatternField(kWildcardField, 1)], [ProjectionField("a", true)]) == Ok(Inclusion({["a"]}))
    ensures DocumentIndex(ApplyProjection(Inclusion({["a"]}), [Field("a", Num(1)), Field("z", Array([Num(9)]))]), None) ==
      KeyData({Entry(["a"], Num(1))}, {})
  {
    CompileInclusionOfA();
    var doc := [Field("a", Num(1)), Field("z", Array([Num(9)]))];
    var rule := Inclusion({["a"]});
    assert [] + ["a"] == ["a"] && [] + ["z"] == ["z"];
    assert Covered({["a"]}, ["a"]) by { assert ["a"] <= ["a"]; }
    assert !(["a"] <= ["z"]) && !(["z"] < ["a"]) by { assert ["z"][0] != ["a"][0]; }
    assert !Covered({["a"]}, ["z"]) && !Leading({["a"]}, ["z"]);
    assert ProjectValue(rule, Num(1), ["a"], false) == Some(Num(1));
    assert ProjectValue(rule, Array([Num(9)]), ["z"], false) == None;
    assert ProjectFields(rule, doc[..1], []) == [Field("a", Num(1))];
    assert doc[..1] == [Field("a", Num(1))] && doc[..1][..0] == [];
    assert ApplyProjection(rule, doc) == [Field("a", Num(1))];
    SingleField("a", Num(1), [], None);
  }

  /** The key pattern { "a.b.$**": 1 } compiles to the inclusion of a.b. */
  lemma CompileSubtreeOfAB()
    ensures CreateProjectionExec([KeyPatternField("a.b.$**", 1)], []) == Ok(Inclusion({["a", "b"]}))
  {
    assert Dotted(["a", "b"]) == "a.b";
    assert DotFree(["a", "b"]);
    SplitDotted(["a", "b"]);
    assert "a.b" + kSubtreeSuffix == "a.b.$**";
    SubtreeSuffixRoundTrip("a.b");
  }

  /** The key pattern { "a.b.$**": 1 } on { a: { c: 1 } } and on { a: [1] }: the subtree a.b
      is missing, so neither document generates a key or a multikey path. */
  lemma ExampleMissingSubtree()
    ensures CreateProjectionExec([KeyPatternField("a.b.$**", 1)], []) == Ok(Inclusion({["a", "b"]}))
    ensures DocumentIndex(ApplyProjection(Inclusion({["a", "b"]}), [Field("a", Object([Field("c", Num(1))]))]), None) == NoKeys
    ensures DocumentIndex(ApplyProjection(Inclusion({["a", "b"]}), [Field("a", Array([Num(1)]))]), None) == NoKeys
  {
    var objDoc := [Field("a", Object([Field("c", Num(1))]))];
    var arrDoc := [Field("a", Array([Num(1)]))];
    assert Dotted(["a", "b"]) == "a.b";
    assert DotFree(["a", "b"]);
    SplitDotted(["a", "b"]);
    assert "a.b" + kSubtreeSuffix == "a.b.$**";
    SubtreeKeyPatternIndexesOnlyItsSubtree("a.b", 1, objDoc, None);
    assert objDoc[..0] == [] && arrDoc[..0] == [] && [Field("c", Num(1))][..0] == [] && [Num(1)][..0] == [];
    assert !Reaches(Object([Field("c", Num(1))]), ["b"], false);
    assert !DocReaches(objDoc, ["a", "b"]);
    assert !Reaches(Array([Num(1)]), ["b"], false);
    assert !DocReaches(arrDoc, ["a", "b"]);
    MissingSubtreeIndexesNothing("a.b", objDoc, None);
    MissingSubtreeIndexesNothing("a.b", arrDoc, None);
  }

  /** Under the inclusion of a.b, { a: [{ b: 1 }] } is kept as it is: the array on the way
      down to a.b survives because its element does. */
  lemma ProjectArrayOnTheWayToAB()
    ensures ApplyProjection(Inclusion({["a", "b"]}), [Field("a", Array([Object([Field("b", Num(1))])]))]) ==
      [Field("a", Array([Object([Field("b", Num(1))])]))]
  {
    var rule := Inclusion({["a", "b"]});
    var inner := Object([Field("b", Num(1))]);
    var doc := [Field("a", Array([inner]))];
    var ab: Path := ["a", "b"];
    assert [] + ["a"] == ["a"] && ["a"] + ["b"] == ab;
    assert Covered({ab}, ab) by { assert ab <= ab; }
    assert !Covered({ab}, ["a"]) by { assert !(ab <= ["a"]); }
    assert Leading({ab}, ["a"]) by { assert ["a"] < ab; }
    assert ProjectValue(rule, Num(1), ab, false) == Some(Num(1));
    assert [Field("b", Num(1))][..0] == [] && [inner][..0] == [] && doc[..0] == [];
    assert ProjectFields(rule, [Field("b", Num(1))], ["a"]) == [Field("b", Num(1))];
    assert ProjectValue(rule, inner, ["a"], true) == Some(inner);
    assert ProjectItems(rule, [inner], ["a"]) == [inner];
    assert ProjectValue(rule, Array([inner]), ["a"], false) == Some(Array([inner]));
  }

  /** The key pattern { "a.b.$**": 1 } on { a: [{ b: 1 }] }: the key (a.b, 1), and a stays
      multikey because the array at a leads to the subtree. */
  lemma ExampleSubtreeUnderArray()
    ensures CreateProjectionExec([KeyPatternField("a.b.$**", 1)], []) == Ok(Inclusion({["a", "b"]}))
    ensures DocumentIndex(ApplyProjection(Inclusion({["a", "b"]}), [Field("a", Array([Object([Field("b", Num(1))])]))]), None) ==
      KeyData({Entry(["a", "b"], Num(1))}, {["a"]})
  {
    CompileSubtreeOfAB();
    ProjectArrayOnTheWayToAB();
    var inner := Object([Field("b", Num(1))]);
    var ab: Path := ["a", "b"];
    SingleField("a", Array([inner]), [], None);
    assert [] + ["a"] == ["a"];
    SingleField("b", Num(1), ["a"], None);
    assert ["a"] + ["b"] == ab;
    assert ElementIndex(Num(1), ab, false, None) == KeyData({Entry(ab, Num(1))}, {});
    assert ElementIndex(inner, ["a"], true, None) == KeyData({Entry(ab, Num(1))}, {});
    assert [inner][..0] == [];
    assert ItemsIndex([inner], ["a"], None) == KeyData({Entry(ab, Num(1))}, {});
  }

  /** { a: ["x", { b: "y" }] } under a collator f: every string key value is f's comparison
      key, at a and at a.b, and a is multikey. */
  lemma ExampleCollatedKeys(f: string -> string)
    ensures DocumentIndex([Field("a", Array([Scalar(Str("x")), Object([Field("b", Scalar(Str("y")))])]))], Some(f)) ==
      KeyData({Entry(["a"], Scalar(Str(f("x")))), Entry(["a", "b"], Scalar(Str(f("y"))))}, {["a"]})
  {
    var c: Collator := Some(f);
    var x := Scalar(Str("x"));
    var inner := Object([Field("b", Scalar(Str("y")))]);
    var elems := [x, inner];
    var ab: Path := ["a", "b"];
    SingleField("a", Array(elems), [], c);
    assert [] + ["a"] == ["a"];
    SingleField("b", Scalar(Str("y")), ["a"], c);
    assert ["a"] + ["b"] == ab;
    assert ElementIndex(x, ["a"], true, c) == KeyData({Entry(["a"], Scalar(Str(f("x"))))}, {});
    assert ElementIndex(inner, ["a"], true, c) == KeyData({Entry(ab, Scalar(Str(f("y"))))}, {});
    assert elems[..1] == [x] && [x][..0] == [];
    assert ItemsIndex([x], ["a"], c) == KeyData({Entry(["a"], Scalar(Str(f("x"))))}, {});
  }
}
