# Wildcard ($**) index key generation

This project models MongoDB's wildcard index key generator, `WildcardKeyGenerator`.

A `$**` index is defined by two things:
- a key pattern: either `{"$**": d}` or `{"<path>.$**": d}`;
- an optional path projection that includes or excludes dotted paths.

To index a document, the generator does three things:
1. It projects the document with the projection that the key pattern and path projection determine.
2. It walks the projected document, threading a mutable field path through the walk.
3. It inserts into two caller-owned sets:
   - one key `{'': 'path.to.field', '': <collation-aware value>}` per leaf;
   - one entry `{'': 1, '': 'path.to.array'}` per array it meets.

Files and modules:
- `document.dfy` (`Document`): BSON values (primitives, objects, arrays) and the collation-aware rewriting of a value.
- `field_ref.dfy` (`FieldPaths`): paths, their dotted rendering and splitting, and the mutable `FieldRef`.
- `projection.dfy` (`Projection`):
  - `createProjectionExec`;
  - the `.$**` suffix;
  - the inclusion/exclusion projection and how it is applied to a document.
- `wildcard_index.dfy` (`WildcardIndex`): the index a document produces, defined twice and proved equal:
  - once by walking the document as the generator does (`DocumentIndex`);
  - once by looking dotted paths up in the document (`DocumentValuesAt`, `FieldArrayAt`).
- `wildcard_key_generator.dfy` (`WildcardKeyGeneration`):
  - the `WildcardKeyGenerator` class;
  - its imperative traversal over a `FieldRef` and two `ObjSet`s;
  - proof that it inserts exactly the formatted `DocumentIndex` of the projected document.
- `wildcard_properties.dfy` (`WildcardProperties`):
  - what inclusion and exclusion projections let into the index;
  - the whole-document case;
  - that the formatted keys are exactly the lookup results;
  - idempotence;
  - worked examples.

Modelling decisions:
- **Array elements share their array's path.** No index component is pushed for an element. This follows the dotted key format, in which an array field is one multikey path.
- **The order of the checks follows the helper names.** For each element:
  1. An array directly inside an array becomes one key holding the whole array. It is not descended, and it does not mark a path multikey of its own. It shares its enclosing array's path, and that enclosing array has already marked that path multikey. So the multikey paths are the same as if the nested array had marked its path too.
  2. Any other array is first marked multikey.
  3. An empty object or array becomes one key.
  4. A non-empty container is descended.
  5. A primitive becomes one key.
- **An empty array is marked multikey.** The generator's contract says one entry is added for each array encountered. An empty array is encountered, so it gets one.
- **Key values of empty containers.** An empty array's key value is `undefined`, as in a regular index. An empty object's key value is the empty object.
- **Collation.** The collator is `None` (no collation, the identity) or a function on strings. Collation-aware values map every string inside a value through it.

## Model

| member | source | states |
|---|---|---|
| Projection.StripSubtreeSuffix | src/mongo/db/index/wildcard_key_generator.h:44 | The prefix of a `<path>.$**` field, followed by `.$**`, is the field again. |
| Projection.SubtreeSuffixRoundTrip | src/mongo/db/index/wildcard_key_generator.h:44 | Appending `.$**` to any path gives a subtree field, and stripping the suffix gives back the path. |
| Projection.CreateProjectionExec | src/mongo/db/index/wildcard_key_generator.h:51-52 | It succeeds only for a key pattern of a single `$**` or `<path>.$**` field. A subtree key pattern gives the inclusion of exactly its prefix path, and fails if a path projection is also given. `{"$**": d}` with no path projection excludes nothing. An inclusion it returns always names at least one path. |
| Projection.ProjectValue | src/mongo/db/index/wildcard_key_generator.h:58-60 | A value that survives the projection keeps its kind: an array stays an array, an object an object, a primitive a primitive. |
| Projection.WildcardPathProjectionModes | src/mongo/db/index/wildcard_key_generator.h:46-52 | For `{"$**": d}` with a non-empty path projection, `createProjectionExec` behaves as follows. All fields included gives an inclusion of exactly their paths. All fields excluded gives an exclusion of exactly their paths. It fails exactly when both kinds are present. |
| WildcardProperties.SubtreeKeyPatternIndexesOnlyItsSubtree | src/mongo/db/index/wildcard_key_generator.h:44-52 | `{"<prefix>.$**": d}` with no path projection yields an inclusion of the prefix path. Every key then lies under the prefix. Every multikey path lies under it or on the way down to it. Every key and multikey path the document has under the prefix is generated. |
| WildcardProperties.SubtreeKeysNeedTheSubtree | src/mongo/db/index/wildcard_key_generator.h:44-52 | Under `{"<prefix>.$**": d}`, a key is generated only if the document has a field at the prefix. |
| WildcardProperties.MissingSubtreeIndexesNothing | src/mongo/db/index/wildcard_key_generator.h:44-52 | Under `{"<prefix>.$**": d}`, a document with no field at the prefix generates no key and no multikey path. |
| WildcardProperties.WholeDocumentWildcard | src/mongo/db/index/wildcard_key_generator.h:46-52 | `{"$**": d}` with no path projection yields a projection that leaves every document unchanged, so the whole document is indexed. |
| WildcardProperties.ExclusionKeysAvoidExcludedPaths | src/mongo/db/index/wildcard_key_generator.h:58-60 | Under an exclusion projection, no key and no multikey path lies on or under an excluded path. |
| WildcardProperties.InclusionKeysStayOnIncludedPaths | src/mongo/db/index/wildcard_key_generator.h:58-60 | Under an inclusion projection, every key lies on or under an included path. Every multikey path lies under one or on the way down to one. |
| WildcardProperties.InclusionKeepsCovered | src/mongo/db/index/wildcard_key_generator.h:58-65 | Under an inclusion projection, every key and multikey path of the input document that lies on or under an included path is still generated. |
| WildcardProperties.InclusionKeepsLeadingArrayMultikey | src/mongo/db/index/wildcard_key_generator.h:58-62 | Under an inclusion projection, an array that holds a value inside an included path is kept as an array. Its path stays multikey, and the value's key below it is still generated. |
| WildcardProperties.ExclusionKeepsEverythingElse | src/mongo/db/index/wildcard_key_generator.h:58-65 | Under an exclusion projection, every key and multikey path of the input document that is not on or under an excluded path is still generated. |
| WildcardProperties.ProjectedKeyPathsExist | src/mongo/db/index/wildcard_key_generator.h:58-65 | Whatever the projection, every generated key path and multikey path is a path of the input document. |
| WildcardProperties.ArraysLeadToKeys | src/mongo/db/index/wildcard_key_generator.h:58-65 | Every array recorded as a multikey path has a key at its path or below it. |
| WildcardKeyGeneration.WildcardKeyGenerator.constructor | src/mongo/db/index/wildcard_key_generator.h:54-56 | The generator's projection is exactly what `createProjectionExec` returns for the same key pattern and path projection. The collator and key pattern are kept as given. |
| WildcardKeyGeneration.WildcardKeyGenerator.GenerateKeys | src/mongo/db/index/wildcard_key_generator.h:58-66 | It adds to `keys` exactly the formatted entries of the projected document's index, and to `multikeyPaths` exactly its formatted array paths. Nothing else changes. |
| WildcardKeyGeneration.WildcardKeyGenerator.TraverseWildcard | src/mongo/db/index/wildcard_key_generator.h:69-74 | Visiting the children of an object or array adds exactly their index entries and array paths. The `FieldRef` is left as it was found. |
| WildcardKeyGeneration.WildcardKeyGenerator.TraverseElement | src/mongo/db/index/wildcard_key_generator.h:69-85 | Handling one element adds exactly that element's index entries and array paths, and restores the `FieldRef`. |
| WildcardKeyGeneration.WildcardKeyGenerator.AddKey | src/mongo/db/index/wildcard_key_generator.h:76-78 | It inserts the key (dotted path, collation-aware value), and only that key. |
| WildcardKeyGeneration.WildcardKeyGenerator.AddMultiKey | src/mongo/db/index/wildcard_key_generator.h:76-77 | It inserts the entry (1, dotted path), and only that entry. |
| WildcardKeyGeneration.WildcardKeyGenerator.AddKeyForNestedArray | src/mongo/db/index/wildcard_key_generator.h:80-84 | It returns true exactly when the element is an array inside an array. In that case it adds the one key for the whole array; otherwise it adds nothing. |
| WildcardKeyGeneration.WildcardKeyGenerator.AddKeyForEmptyLeaf | src/mongo/db/index/wildcard_key_generator.h:85 | It returns true exactly when the object or array is empty. In that case it adds the one key for it; otherwise it adds nothing. |
| WildcardIndex.ElementIndexExact | src/mongo/db/index/wildcard_key_generator.h:58-65 | An element visited at path q adds the entry (p, x) exactly when two things hold: p extends q, and a lookup of the rest of p below the element finds x. It marks p multikey exactly when that lookup meets an array. |
| WildcardIndex.DocumentIndexExact | src/mongo/db/index/wildcard_key_generator.h:58-65 | A document's index holds (p, x) exactly when a lookup of p in the document finds x, and marks p exactly when the lookup meets an array at p. So no leaf is missed, no key is invented, and non-arrays are never marked multikey. |
| WildcardProperties.GeneratedKeysExact | src/mongo/db/index/wildcard_key_generator.h:58-65 | For documents whose field names hold no `.`, the generated key `{'': 'p', '': x}` is present exactly when a lookup of p in the projected document finds x. The entry `{'': 1, '': 'p'}` is present exactly when that lookup meets an array. |
| WildcardProperties.ElementLeavesKey | src/mongo/db/index/wildcard_key_generator.h:58-62 | Every element adds at least one key at or below its own path. An empty container does not vanish. |
| WildcardProperties.EveryFieldIsIndexed | src/mongo/db/index/wildcard_key_generator.h:58-62 | Every top-level field of a document has a key at or below its path. |
| WildcardProperties.GenerateKeysTwice | src/mongo/db/index/wildcard_key_generator.h:66 | Generating the keys of a document twice into the same sets leaves them as after the first call. |
| WildcardProperties.ExampleArrayOfMixedElements | src/mongo/db/index/wildcard_key_generator.h:58-65 | For `{a: {b: [1, 2, {c: 3}]}}`: keys `a.b`=1, `a.b`=2 and `a.b.c`=3, with `a.b` multikey. |
| WildcardProperties.ExampleNestedArray | src/mongo/db/index/wildcard_key_generator.h:80-84 | For `{arr: [[1, 2], "x"]}`: keys `arr`=[1, 2] and `arr`="x", with only `arr` multikey. |
| WildcardProperties.ExampleEmptyContainers | src/mongo/db/index/wildcard_key_generator.h:85 | `{a: {}}` gives the key `a`={}. `{a: []}` gives the key `a`=undefined and marks `a` multikey. |
| WildcardProperties.ExampleInclusionProjection | src/mongo/db/index/wildcard_key_generator.h:46-60 | The path projection `{a: 1}` under `{"$**": 1}` compiles to the inclusion of `a`. Applied to `{a: 1, z: [9]}`, it gives only the key `a`=1 and no multikey path. |
| WildcardProperties.ExampleMissingSubtree | src/mongo/db/index/wildcard_key_generator.h:44-60 | Under `{"a.b.$**": 1}`, neither `{a: {c: 1}}` nor `{a: [1]}` generates a key or a multikey path. |
| WildcardProperties.ExampleSubtreeUnderArray | src/mongo/db/index/wildcard_key_generator.h:44-62 | Under `{"a.b.$**": 1}`, `{a: [{b: 1}]}` gives the key `a.b`=1 and marks `a` multikey. |
| WildcardProperties.ExampleCollatedKeys | src/mongo/db/index/wildcard_key_generator.h:58-62 | With a collator f, `{a: ["x", {b: "y"}]}` gives the keys `a`=f("x") and `a.b`=f("y"), and marks `a` multikey. |
| FieldPaths.DottedSplit | src/mongo/db/index/wildcard_key_generator.h:58-65 | Splitting any string at its dots and joining the parts again gives the string back. |
| FieldPaths.SplitDotted | src/mongo/db/index/wildcard_key_generator.h:58-65 | Splitting the dotted rendering of a non-empty path whose components hold no dot gives the path back. |
| FieldPaths.DottedInjective | src/mongo/db/index/wildcard_key_generator.h:58-65 | Distinct non-empty dot-free paths have distinct dotted renderings, so the key format loses no path the generator records. |
| FieldPaths.FieldRef.AppendPart | src/mongo/db/index/wildcard_key_generator.h:69-74 | The path gains exactly the given component at its end. |
| FieldPaths.FieldRef.RemoveLastPart | src/mongo/db/index/wildcard_key_generator.h:69-74 | The path loses exactly its last component. |
| Document.CollationAwareKeepsShape | src/mongo/db/index/wildcard_key_generator.h:58-61 | Collation-aware rewriting keeps a value's kind, its number of fields or elements, and whether it is empty. Each field keeps its name and each child is mapped in place. |
| Document.NullCollatorIsIdentity | src/mongo/db/index/wildcard_key_generator.h:58-61 | With no collator, a collation-aware value is the value itself. |

## Left out

- The aggregation projection engine (`ProjectionExecAgg`) is not part of this model. The projection is a plain inclusion/exclusion filter on paths:
  - an included path keeps its whole subtree;
  - under inclusion, a container on the way down to an included path is kept if and only if some child survives. It keeps its kind, so an array on the way stays multikey. A missing subtree leaves nothing behind;
  - an excluded path drops its subtree;
  - an array directly inside an array is not descended.
- The default exclusion of `_id` under `{"$**": d}` is not modelled. The whole-document wildcard excludes nothing.
- The collator is not part of this model. Collation is a function on strings, applied to every string inside a key value. Locale rules are foreign code.
- BSON byte layout, other BSON types (floating point, dates, binary and so on) and the `BSONObjSet` comparator are not modelled. Keys and multikey entries are mathematical sets of tuples.
- Key-size and nesting-depth limits appear nowhere in the generator's interface, so no such errors are modelled.
- The error behaviour of `createProjectionExec` is represented as three `Result` errors: a key pattern that is not a single `$**` or `<path>.$**` field, a subtree key pattern with a path projection, and a path projection that mixes inclusion and exclusion. Which exception the real code raises, and its message, are not modelled.
- The key pattern's direction value is carried but never used.
- WildcardProperties.GeneratedKeysExact: this requires field names without `.`. A dotted field name in a stored document would render the same as a nested path.
