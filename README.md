# Apache Atlas: DSL result shaping and legacy mutation results, in Dafny

This project models two pieces of Apache Atlas's repository module and proves properties of them.

**DSL execution in `TraversalBasedExecutor`.** Before a DSL query is translated, its text gets
explicit pagination. If it contains neither `limit` nor `offset` as a substring (case-sensitive),
` limit <limit> offset <offset>` is appended. If it then contains `limit` but not `offset`,
` offset 0` is appended. The translator, the traversal compiler and the traversal itself are
given as one function. The entity retriever is another function. Running the traversal gives a
vertex list and a grouped vertex map. A non-empty list is used first. Otherwise the map is used,
and an empty map returns the empty envelope. Without a select clause, each non-null vertex
becomes one entity header appended to the search-result envelope, in order. With a select
clause, the answer records the input handed to `SelectClauseProjections`. The envelope records
the original query text, not the rewritten one.

**Legacy results in `AtlasInstanceConverter`.** The V1-to-V2 conversions throw
`TYPE_NAME_INVALID` when the type registry has no type of that name and category. For
`toAtlasEntities(String[])` this is the first unknown entry. `getReferenceables` fills an
array of the input's size in order. `getGuids` projects headers to GUIDs, or returns null for
a null or empty list. `toCreateUpdateEntitiesResult` maps an entity-mutation response to the
legacy result. Each operation with a non-empty header list writes the GUIDs of that list,
reversed, into its slot (`OP_CREATED`, `OP_UPDATED` or `OP_DELETED`). The caller's list is
reversed in place, so a second call sees the original order again.

Files:
- `wrappers.dfy`: `Option` (Java's null) and `Result` (a value, or the exception thrown).
- `instances.dfy`: the entity header both parts share.
- `limit_offset.dfy`: the pagination rewrite, Java's `String.contains` and `%d`.
- `traversal_based_executor.dfy`: the envelope class, the executor class and the result shaping.
- `atlas_instance_converter.dfy`: the registry guards, array filling, `getGuids` and the
  mutation-response mapping, with the response's header lists as objects reversed in place.

## Model

| member | source | states |
|---|---|---|
| `LimitOffset.ContainsIffOccurs` | repository/src/main/java/org/apache/atlas/query/executors/TraversalBasedExecutor.java:123 | the keyword test holds exactly when the keyword occurs at some position of the text (a substring test, not a token test) |
| `LimitOffset.DecimalString` | repository/src/main/java/org/apache/atlas/query/executors/TraversalBasedExecutor.java:44 | the `%d` text of a non-negative number is a non-empty string of decimal digits without a leading zero |
| `LimitOffset.ParseDecimalString` | repository/src/main/java/org/apache/atlas/query/executors/TraversalBasedExecutor.java:44 | reading the `%d` digits back gives the number, so the clause carries the parameter exactly |
| `LimitOffset.ClauseHasKeywords` | repository/src/main/java/org/apache/atlas/query/executors/TraversalBasedExecutor.java:42-44 | the default clause ` limit %d offset %d` contains both keywords |
| `LimitOffset.WithLimitOffsetCases` | repository/src/main/java/org/apache/atlas/query/executors/TraversalBasedExecutor.java:122-132 | neither keyword: the result is the query plus ` limit L offset O`; `limit` without `offset`: the query plus ` offset 0`; `offset` present: the query unchanged |
| `LimitOffset.WithLimitOffsetExtends` | repository/src/main/java/org/apache/atlas/query/executors/TraversalBasedExecutor.java:122-132 | the query is a prefix of the rewritten text, and the rewritten text always contains `offset` |
| `LimitOffset.WithLimitOffsetIdempotent` | repository/src/main/java/org/apache/atlas/query/executors/TraversalBasedExecutor.java:122-132 | rewriting the rewritten text changes nothing, whatever parameters the second rewrite gets |
| `LimitOffset.WithLimitOffsetChanges` | repository/src/main/java/org/apache/atlas/query/executors/TraversalBasedExecutor.java:122-131 | the text is left unchanged exactly when it already contains `offset` |
| `LimitOffset.BareQueryExample` | repository/src/main/java/org/apache/atlas/query/executors/TraversalBasedExecutor.java:123-125 | `Table` with limit 25 and offset 0 becomes `Table limit 25 offset 0` |
| `LimitOffset.UpperCaseLimitExample` | repository/src/main/java/org/apache/atlas/query/executors/TraversalBasedExecutor.java:123-125 | the test is case-sensitive: `DataSet LIMIT 10` still gets the default clause |
| `LimitOffset.LimitOnlyExample` | repository/src/main/java/org/apache/atlas/query/executors/TraversalBasedExecutor.java:127-129 | `Table limit 10` only gains ` offset 0`, whatever the parameters |
| `LimitOffset.SubstringMatchExample` | repository/src/main/java/org/apache/atlas/query/executors/TraversalBasedExecutor.java:122-129 | `limit` inside a quoted value counts as the keyword, so only ` offset 0` is added |
| `TraversalBasedExecutor.SearchResult.constructor` | repository/src/main/java/org/apache/atlas/query/executors/TraversalBasedExecutor.java:59 | a new envelope records the query text and kind and holds no entities |
| `TraversalBasedExecutor.SearchResult.AddEntity` | repository/src/main/java/org/apache/atlas/query/executors/TraversalBasedExecutor.java:102 | adding an entity appends it after the existing ones |
| `TraversalBasedExecutor.Executor.constructor` | repository/src/main/java/org/apache/atlas/query/executors/TraversalBasedExecutor.java:51-55 | the executor keeps the collaborators it is given |
| `TraversalBasedExecutor.Executor.Execute` | repository/src/main/java/org/apache/atlas/query/executors/TraversalBasedExecutor.java:58-72 | a translation error is passed on; otherwise a non-empty vertex list decides the answer and the map is not used; an empty list defers to the map; an envelope is fresh and records the original query text and the DSL kind; the translator gets the rewritten text |
| `TraversalBasedExecutor.Executor.SearchResultOfList` | repository/src/main/java/org/apache/atlas/query/executors/TraversalBasedExecutor.java:74-78 | with a select clause, the select projection of the list and the envelope untouched; without one, the envelope with the list's headers appended |
| `TraversalBasedExecutor.Executor.SearchResultOfMap` | repository/src/main/java/org/apache/atlas/query/executors/TraversalBasedExecutor.java:80-94 | an empty map returns the envelope untouched; with a select clause, the select projection of the map; otherwise every group's headers appended, group after group |
| `TraversalBasedExecutor.Executor.ProcessVertices` | repository/src/main/java/org/apache/atlas/query/executors/TraversalBasedExecutor.java:96-106 | returns the same envelope, whose old entries are kept and followed by the headers of the vertices, nulls skipped |
| `TraversalBasedExecutor.PresentMembers` | repository/src/main/java/org/apache/atlas/query/executors/TraversalBasedExecutor.java:97-101 | the vertices that get a header are exactly the non-null ones |
| `TraversalBasedExecutor.PresentCount` | repository/src/main/java/org/apache/atlas/query/executors/TraversalBasedExecutor.java:97-101 | the number of non-null vertices is the number of vertices minus the nulls among them |
| `TraversalBasedExecutor.PresentAppend` | repository/src/main/java/org/apache/atlas/query/executors/TraversalBasedExecutor.java:97-101 | skipping nulls distributes over concatenation |
| `TraversalBasedExecutor.HeadersArePresentMapped` | repository/src/main/java/org/apache/atlas/query/executors/TraversalBasedExecutor.java:96-106 | the i-th appended header is the retriever's header of the i-th non-null vertex, in iteration order |
| `TraversalBasedExecutor.HeadersCount` | repository/src/main/java/org/apache/atlas/query/executors/TraversalBasedExecutor.java:96-106 | one row per non-null vertex |
| `TraversalBasedExecutor.HeadersAppend` | repository/src/main/java/org/apache/atlas/query/executors/TraversalBasedExecutor.java:89-91 | processing two vertex collections one after the other appends the headers of their concatenation |
| `TraversalBasedExecutor.GroupedHeadersFlatten` | repository/src/main/java/org/apache/atlas/query/executors/TraversalBasedExecutor.java:89-93 | without a select clause, the grouped answer's entities are the headers of all groups' vertices concatenated in the map's iteration order |
| `TraversalBasedExecutor.GroupedHeadersCount` | repository/src/main/java/org/apache/atlas/query/executors/TraversalBasedExecutor.java:89-93 | the grouped answer has one row per non-null vertex over all groups |
| `AtlasInstanceConverter.HeaderList.Reverse` | repository/src/main/java/org/apache/atlas/repository/converters/AtlasInstanceConverter.java:233 | the list is reversed in place |
| `AtlasInstanceConverter.ReversedAt` | repository/src/main/java/org/apache/atlas/repository/converters/AtlasInstanceConverter.java:233 | reversal keeps the length and puts element `n-1-k` at position `k` |
| `AtlasInstanceConverter.ReversedTwice` | repository/src/main/java/org/apache/atlas/repository/converters/AtlasInstanceConverter.java:233 | reversing twice restores the list |
| `AtlasInstanceConverter.GuidsReversed` | repository/src/main/java/org/apache/atlas/repository/converters/AtlasInstanceConverter.java:233-234 | the GUIDs of the reversed list are the list's GUIDs reversed |
| `AtlasInstanceConverter.SlotsWrittenSpec` | repository/src/main/java/org/apache/atlas/repository/converters/AtlasInstanceConverter.java:228-258 | a slot is set exactly when some visited operation with a non-empty list writes it, and then holds the reversed GUIDs of such a list; otherwise it is left as it was |
| `AtlasInstanceConverter.EntityResultSlots` | repository/src/main/java/org/apache/atlas/repository/converters/AtlasInstanceConverter.java:228-258 | `OP_CREATED` is set iff CREATE's list is non-empty and holds its GUIDs reversed; likewise `OP_DELETED` for DELETE; `OP_UPDATED` is set iff UPDATE's or PARTIAL_UPDATE's list is non-empty and holds the reversed GUIDs of one of them |
| `AtlasInstanceConverter.AfterReversalTwice` | repository/src/main/java/org/apache/atlas/repository/converters/AtlasInstanceConverter.java:233-254 | the in-place reversal of two calls restores the caller's lists |
| `AtlasInstanceConverter.SecondCallOriginalOrder` | repository/src/main/java/org/apache/atlas/repository/converters/AtlasInstanceConverter.java:228-258 | a second call on the same response stores the CREATE and DELETE GUIDs in their original order |
| `AtlasInstanceConverter.Converter.constructor` | repository/src/main/java/org/apache/atlas/repository/converters/AtlasInstanceConverter.java:63-67 | the converter keeps the registry and format converters it is given |
| `AtlasInstanceConverter.Converter.ToAtlasClassification` | repository/src/main/java/org/apache/atlas/repository/converters/AtlasInstanceConverter.java:117-128 | fails with `TYPE_NAME_INVALID` (CLASSIFICATION, the name) iff the registry has no classification type of that name; otherwise the conversion with that type |
| `AtlasInstanceConverter.Converter.ToAtlasEntity` | repository/src/main/java/org/apache/atlas/repository/converters/AtlasInstanceConverter.java:130-144 | fails with `TYPE_NAME_INVALID` (ENTITY, the name) iff the registry has no entity type of that name; otherwise the entity converted with a fresh, empty context, which then holds only it |
| `AtlasInstanceConverter.Converter.ToAtlasEntities` | repository/src/main/java/org/apache/atlas/repository/converters/AtlasInstanceConverter.java:169-194 | fails iff some parsed entry has an unknown entity type, naming the first such entry; on success one entity per entry, in order, entry i converted with entries 0..i-1 already in the shared context, so the first entry is converted as `toAtlasEntity` converts it alone |
| `AtlasInstanceConverter.Converter.GetReferenceables` | repository/src/main/java/org/apache/atlas/repository/converters/AtlasInstanceConverter.java:69-84 | a fresh array of the input's size whose entry i is entity i converted with all the entities in the context |
| `AtlasInstanceConverter.Converter.GetGuids` | repository/src/main/java/org/apache/atlas/repository/converters/AtlasInstanceConverter.java:269-280 | null iff the list is null or empty; otherwise as long as the list, entry i the GUID of header i |
| `AtlasInstanceConverter.Converter.VisitEntry` | repository/src/main/java/org/apache/atlas/repository/converters/AtlasInstanceConverter.java:229-257 | one switch case: a non-empty list of a handled operation is reversed in place and its GUIDs stored in the slot; every other list and slot is unchanged |
| `AtlasInstanceConverter.Converter.VisitEntries` | repository/src/main/java/org/apache/atlas/repository/converters/AtlasInstanceConverter.java:228-260 | the loop over the entries in iteration order sets the slots the specification function gives and reverses the handled lists |
| `AtlasInstanceConverter.Converter.ToCreateUpdateEntitiesResult` | repository/src/main/java/org/apache/atlas/repository/converters/AtlasInstanceConverter.java:212-267 | null iff the response is null; the GUID mapping is set iff there are GUID assignments; the entity result is set iff there are mutated entities and then holds the slots written; the caller's lists end up reversed |

## Left out

- The DSL translator, the clause compiler and the traversal run (`AtlasDSL.Translator`, `GremlinClauseToTraversalTranslator`, `getAtlasVertexList`, `getAtlasVertexMap`) are one given function from the rewritten text, offset and limit to a translated query or an error. Their source is not part of this model.
- `QueryParams.getNormalizedParams` is a given function to non-negative limit and offset; its defaults and clamping are not modelled.
- `SelectClauseProjections.usingList` and `usingMap` are not modelled. The answer records only that their result, built from the given vertices or groups, is returned instead of the envelope.
- The entity retriever is a total function. The store errors it can throw are not modelled.
- `AtlasSearchResult.addEntity` is modelled as an unconditional append to an envelope that starts empty. Its source is not part of this model. If it drops an earlier header with the same GUID, `TraversalBasedExecutor.HeadersCount` and `TraversalBasedExecutor.GroupedHeadersCount` (one row per non-null vertex) hold only for vertices with distinct GUIDs.
- `String.format` is modelled as ASCII decimal digits, as in a locale with Western digits.
- A null vertex list, null grouped map, null mutated-entities map or null GUID-assignment map is modelled as an empty one, which is how the code treats them.
- `AtlasInstanceConverter.Converter.ToCreateUpdateEntitiesResult`: requires that no two operations share one list object. The response builds one list per operation; a shared list would be reversed once per operation, and that is not modelled.
- `AtlasInstanceConverter.EntityResultSlots`: says only that `OP_UPDATED` holds the GUIDs of UPDATE or of PARTIAL_UPDATE. Which one wins depends on `EntityResult.set` and on the map's iteration order.
- The `PURGE` operation kind is modelled as an operation without a case in the switch. The enum's source is not part of this model.
- The format converters (`fromV1ToV2`, `fromV2ToV1`) and `AtlasType.fromV1Json` are given functions. The entities a conversion adds to the `ConverterContext` besides the converted one are not modelled, and neither are JSON parse failures. The format converters are total functions here, so they never throw.
- `AtlasInstanceConverter.Converter.ToAtlasClassification`: fails only on the registry guard; a failure thrown by the classification converter itself is not modelled, because that converter is given as a total function.
- `AtlasInstanceConverter.Converter.ToAtlasEntity`: fails only on the registry guard; a failure thrown by the entity converter is not modelled, for the same reason.
- `AtlasInstanceConverter.Converter.ToAtlasEntities`: fails only on the registry guard of some entry; a failure thrown by the entity converter or by `AtlasType.fromV1Json` is not modelled, for the same reason.
- `AtlasInstanceConverter.Converter.GetReferenceables`: always succeeds; a failure thrown by the V2-to-V1 entity converter is not modelled, for the same reason.
- `getReferenceable` passes the registry's `getType` result to the converter as an optional type. What `getType` does for an unknown name is not modelled.
- `getReferenceable` (three overloads), `getTrait`, `toAtlasEntities(List)` and `fromV1toV2Entity` are not modelled. They are plain calls of the format converters with no guard.
- Logging, debug output and dependency-injection annotations.
- The notification deserialisation test exercises JSON serialisation through classes that are not part of this model.
