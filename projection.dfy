/** The wildcard projection: how the key pattern and the path projection of a $** index
    determine which parts of a document are indexed, and how that projection is applied.
    The projection is modelled as a plain inclusion or exclusion filter on dotted paths. */
module Projection {
  import opened Document
  import opened FieldPaths

  /** The suffix that marks a key-pattern field as rooting the index at a subtree. */
  const kSubtreeSuffix: string := ".$**"

  /** The key-pattern field that indexes the whole document. */
  const kWildcardField: string := "$**"

  /** One field of the key pattern, e.g. { "a.b.$**": 1 }. */
  datatype KeyPatternField = KeyPatternField(field: string, direction: int)

  /** One field of the path projection, e.g. { "a.b": 1 } (include) or { "a.b": 0 } (exclude). */
  datatype ProjectionField = ProjectionField(path: string, keep: bool)

  /** The compiled projection: keep only what lies on or under the listed paths, or drop
      exactly what lies on or under them. */
  datatype ProjectionRule = Inclusion(paths: set<Path>) | Exclusion(paths: set<Path>)

  datatype SpecError =
    | NotSingleWildcardField      // the key pattern is not exactly one "$**" or "<path>.$**" field
    | SubtreeWithPathProjection   // a subtree key pattern combined with a path projection
    | MixedInclusionExclusion     // the path projection mixes inclusion and exclusion

  datatype Result<T> = Ok(value: T) | Err(error: SpecError)

  predicate HasSubtreeSuffix(field: string)
  {
    |field| >= |kSubtreeSuffix| && field[|field| - |kSubtreeSuffix|..] == kSubtreeSuffix
  }

  /** The subtree prefix of a "<path>.$**" key-pattern field. */
  function StripSubtreeSuffix(field: string): (prefix: string)
    requires HasSubtreeSuffix(field)
    ensures prefix + kSubtreeSuffix == field
  {
    field[..|field| - |kSubtreeSuffix|]
  }

  /** Appending the suffix to a path and stripping it again gives back the path. */
  lemma SubtreeSuffixRoundTrip(prefix: string)
    ensures HasSubtreeSuffix(prefix + kSubtreeSuffix)
    ensures StripSubtreeSuffix(prefix + kSubtreeSuffix) == prefix
  {
    var f := prefix + kSubtreeSuffix;
    assert f[|f| - |kSubtreeSuffix|..] == kSubtreeSuffix;
  }

  /** The paths of the path-projection fields marked include (keep) or exclude (!keep). */
  function ProjectedPaths(pathProjection: seq<ProjectionField>, keep: bool): set<Path>
  {
    set f | f in pathProjection && f.keep == keep :: Split(f.path)
  }

  /** The paths of all path-projection fields. */
  function AllProjectedPaths(pathProjection: seq<ProjectionField>): set<Path>
  {
    set i | 0 <= i < |pathProjection| :: Split(pathProjection[i].path)
  }

  /** Builds the projection a $** index uses, from its key pattern and path projection.
      A "<path>.$**" key pattern includes exactly that subtree; "$**" uses the path projection,
      and an empty path projection excludes nothing. */
  function CreateProjectionExec(keyPattern: seq<KeyPatternField>, pathProjection: seq<ProjectionField>): (r: Result<ProjectionRule>)
    // only a single "$**" or "<path>.$**" field is accepted
    ensures r.Ok? ==> |keyPattern| == 1 && (keyPattern[0].field == kWildcardField || HasSubtreeSuffix(keyPattern[0].field))
    // a subtree key pattern takes no path projection and includes exactly its prefix
    ensures |keyPattern| == 1 && HasSubtreeSuffix(keyPattern[0].field) ==>
      r == (if pathProjection == [] then Ok(Inclusion({Split(StripSubtreeSuffix(keyPattern[0].field))}))
            else Err(SubtreeWithPathProjection))
    // "$**" alone indexes the whole document
    ensures |keyPattern| == 1 && keyPattern[0].field == kWildcardField && pathProjection == [] ==> r == Ok(Exclusion({}))
    // an inclusion always names at least one path, so it never empties every document
    ensures r.Ok? && r.value.Inclusion? ==> r.value.paths != {}
  {
    if |keyPattern| != 1 then Err(NotSingleWildcardField)
    else
      var root := keyPattern[0].field;
      if HasSubtreeSuffix(root) then
        if pathProjection != [] then Err(SubtreeWithPathProjection)
        else Ok(Inclusion({Split(StripSubtreeSuffix(root))}))
      else if root != kWildcardField then Err(NotSingleWildcardField)
      else if pathProjection == [] then Ok(Exclusion({}))
      else
        var included := ProjectedPaths(pathProjection, true);
        var excluded := ProjectedPaths(pathProjection, false);
        if included != {} && excluded != {} then Err(MixedInclusionExclusion)
        else if included != {} then Ok(Inclusion(included))
        else Ok(Exclusion(excluded))
  }

  /** Some listed path is a prefix of (or equal to) q: q lies in an included subtree. */
  predicate Covered(paths: set<Path>, q: Path)
  {
    exists p :: p in paths && p <= q
  }

  /** q is a proper prefix of some listed path: q leads towards an included subtree. */
  predicate Leading(paths: set<Path>, q: Path)
  {
    exists p :: p in paths && q < p
  }

  /** The projection of a value found at path q (inArray: it is an element of an array at q),
      or None when the projection drops it. Under inclusion a covered value is kept whole, a
      container leading to an included path is kept with its children projected as long as
      some child survives, and all else is dropped: a subtree missing from the document leaves
      nothing behind. Under exclusion a value at an excluded path is dropped and all else is
      kept, containers with their children projected. An array directly inside an array is
      not descended by the projection. */
  function ProjectValue(rule: ProjectionRule, v: Value, q: Path, inArray: bool): (r: Option<Value>)
    // a surviving value keeps its kind: an array stays an array, and so on
    ensures r.Some? ==> (r.value.Scalar? <==> v.Scalar?) && (r.value.Object? <==> v.Object?) && (r.value.Array? <==> v.Array?)
    decreases v, 1
  {
    match rule
    case Inclusion(paths) =>
      if Covered(paths, q) then Some(v)
      else if !Leading(paths, q) then None
      else (match v
        case Scalar(_) => None
        case Object(fs) =>
          var kept := ProjectFields(rule, fs, q);
          if kept == [] then None else Some(Object(kept))
        case Array(es) =>
          if inArray then None
          else
            var kept := ProjectItems(rule, es, q);
            if kept == [] then None else Some(Array(kept)))
    case Exclusion(paths) =>
      if q in paths then None
      else (match v
        case Scalar(_) => Some(v)
        case Object(fs) => Some(Object(ProjectFields(rule, fs, q)))
        case Array(es) => if inArray then Some(v) else Some(Array(ProjectItems(rule, es, q))))
  }

  /** The surviving fields of an object at path q, in their original order. */
  function ProjectFields(rule: ProjectionRule, fs: seq<Field>, q: Path): seq<Field>
    decreases fs, 0
  {
    if fs == [] then []
    else
      var last := fs[|fs| - 1];
      ProjectFields(rule, fs[..|fs| - 1], q) +
      match ProjectValue(rule, last.value, q + [last.name], false)
      case Some(w) => [Field(last.name, w)]
      case None => []
  }

  /** The surviving elements of an array at path q, in their original order. */
  function ProjectItems(rule: ProjectionRule, es: seq<Value>, q: Path): seq<Value>
    decreases es, 0
  {
    if es == [] then []
    else
      ProjectItems(rule, es[..|es| - 1], q) +
      match ProjectValue(rule, es[|es| - 1], q, true)
      case Some(w) => [w]
      case None => []
  }

  /** The projected document the key generator walks. */
  function ApplyProjection(rule: ProjectionRule, doc: Doc): Doc
  {
    ProjectFields(rule, doc, [])
  }

  /** With the key pattern { "$**": d } a non-empty path projection decides the rule: all
      fields included gives an inclusion of their paths, all excluded an exclusion of their
      paths, and a mix of the two is refused. */
  lemma WildcardPathProjectionModes(direction: int, pathProjection: seq<ProjectionField>)
    requires pathProjection != []
    ensures var r := CreateProjectionExec([KeyPatternField(kWildcardField, direction)], pathProjection);
      && ((forall i :: 0 <= i < |pathProjection| ==> pathProjection[i].keep) ==>
            r == Ok(Inclusion(AllProjectedPaths(pathProjection))))
      && ((forall i :: 0 <= i < |pathProjection| ==> !pathProjection[i].keep) ==>
            r == Ok(Exclusion(AllProjectedPaths(pathProjection))))
      && (r.Err? <==>
            (exists i, j :: 0 <= i < |pathProjection| && 0 <= j < |pathProjection| && pathProjection[i].keep && !pathProjection[j].keep))
  {
    var pp := pathProjection;
    assert !HasSubtreeSuffix(kWildcardField);
    assert pp[0] in pp;
    if forall i :: 0 <= i < |pp| ==> pp[i].keep {
      ProjectedPathsUniform(pp, true);
      ProjectedPathsNone(pp, false);
    }
    if forall i :: 0 <= i < |pp| ==> !pp[i].keep {
      ProjectedPathsUniform(pp, false);
      ProjectedPathsNone(pp, true);
    }
    if exists i, j :: 0 <= i < |pp| && 0 <= j < |pp| && pp[i].keep && !pp[j].keep {
      var i, j :| 0 <= i < |pp| && 0 <= j < |pp| && pp[i].keep && !pp[j].keep;
      assert pp[i] in pp && pp[j] in pp;
      assert Split(pp[i].path) in ProjectedPaths(pp, true) && Split(pp[j].path) in ProjectedPaths(pp, false);
    } else if exists i :: 0 <= i < |pp| && pp[i].keep {
      var i :| 0 <= i < |pp| && pp[i].keep;
      assert pp[i] in pp && Split(pp[i].path) in ProjectedPaths(pp, true);
      ProjectedPathsNone(pp, false);
    } else {
      ProjectedPathsNone(pp, true);
    }
  }

  lemma ProjectedPathsUniform(pp: seq<ProjectionField>, keep: bool)
    requires forall i :: 0 <= i < |pp| ==> pp[i].keep == keep
    ensures ProjectedPaths(pp, keep) == AllProjectedPaths(pp)
  {
    forall x | x in AllProjectedPaths(pp) ensures x in ProjectedPaths(pp, keep) {
      var i :| 0 <= i < |pp| && x == Split(pp[i].path);
      assert pp[i] in pp;
    }
    forall x | x in ProjectedPaths(pp, keep) ensures x in AllProjectedPaths(pp) {
      var f :| f in pp && f.keep == keep && x == Split(f.path);
      var i :| 0 <= i < |pp| && pp[i] == f;
    }
  }

  lemma ProjectedPathsNone(pp: seq<ProjectionField>, keep: bool)
    requires forall i :: 0 <= i < |pp| ==> pp[i].keep != keep
    ensures ProjectedPaths(pp, keep) == {}
  {
    forall f | f in pp ensures f.keep != keep {
      var i :| 0 <= i < |pp| && pp[i] == f;
    }
  }
}
