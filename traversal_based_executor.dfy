/** The DSL execution path of TraversalBasedExecutor: the pagination rewrite, translation and
    traversal (collaborators given as functions), and the shaping of the traversal's output into
    a search-result envelope. */
module TraversalBasedExecutor {
  import opened Wrappers
  import opened Instances
  import opened LimitOffset

  /** A graph vertex, known by its id. */
  datatype Vertex = Vertex(id: int)

  /** One entry of the grouped traversal output (a Map<String, Collection<AtlasVertex>>): the
      group key and its vertices, null ones included, in the collection's order. */
  datatype Group = Group(key: string, vertices: seq<Option<Vertex>>)

  /** Normalised query parameters: both present and never negative. */
  datatype QueryParams = QueryParams(limit: nat, offset: nat)

  /** The query kinds a search result can record (AtlasSearchResult.AtlasQueryType). */
  datatype QueryType = Dsl | FullText | Gremlin | Basic | Attribute | Relationship

  /** The exception a failed translation or compilation throws. */
  datatype QueryError = QueryError(message: string)

  /** What running the compiled traversal yields: the vertex list and the grouped vertex map,
      the map's entries in its iteration order. */
  datatype Traversal = Traversal(vertexList: seq<Option<Vertex>>, vertexMap: seq<Group>)

  /** A translated DSL query (GremlinQuery) together with the traversal it was compiled to. */
  datatype GremlinQuery = GremlinQuery(hasValidSelectClause: bool, traversal: Traversal)

  /** The search-result envelope (AtlasSearchResult): it records the query text and kind it
      was created for, and accumulates entity headers. */
  class SearchResult {
    const queryText: string
    const queryType: QueryType
    var entities: seq<EntityHeader>

    constructor (queryText: string, queryType: QueryType)
      ensures this.queryText == queryText && this.queryType == queryType
      ensures entities == []
    {
      this.queryText := queryText;
      this.queryType := queryType;
      entities := [];
    }

    /** addEntity: appends one header at the end. */
    method AddEntity(header: EntityHeader)
      modifies this
      ensures entities == old(entities) + [header]
    {
      entities := entities + [header];
    }
  }

  /** What execute returns: the envelope it created, or what SelectClauseProjections builds
      from the given vertices (usingList) or groups (usingMap). */
  datatype SearchAnswer =
    | Envelope(result: SearchResult)
    | UsingList(query: GremlinQuery, vertices: seq<Option<Vertex>>)
    | UsingMap(query: GremlinQuery, groups: seq<Group>)

  /** The headers processVertices appends for `vertices`: walking them in order, one header per
      non-null vertex. */
  function Headers(retriever: Vertex -> EntityHeader, vertices: seq<Option<Vertex>>): seq<EntityHeader>
  {
    if vertices == [] then []
    else
      var last := vertices[|vertices| - 1];
      Headers(retriever, vertices[..|vertices| - 1]) + (if last.Some? then [retriever(last.value)] else [])
  }

  /** The non-null vertices of `vertices`, in order. */
  function Present(vertices: seq<Option<Vertex>>): seq<Vertex>
  {
    if vertices == [] then []
    else (if vertices[0].Some? then [vertices[0].value] else []) + Present(vertices[1..])
  }

  /** The vertices of all groups, concatenated in the map's iteration order. */
  function Flatten(groups: seq<Group>): seq<Option<Vertex>>
  {
    if groups == [] then [] else Flatten(groups[..|groups| - 1]) + groups[|groups| - 1].vertices
  }

  /** The headers the grouped branch appends: processVertices on each group in turn. */
  function GroupedHeaders(retriever: Vertex -> EntityHeader, groups: seq<Group>): seq<EntityHeader>
  {
    if groups == [] then []
    else GroupedHeaders(retriever, groups[..|groups| - 1]) + Headers(retriever, groups[|groups| - 1].vertices)
  }

  lemma {:induction false} PresentAppend(a: seq<Option<Vertex>>, b: seq<Option<Vertex>>)
    ensures Present(a + b) == Present(a) + Present(b)
  {
    if a != [] {
      assert (a + b)[1..] == a[1..] + b;
      PresentAppend(a[1..], b);
    } else {
      assert a + b == b;
    }
  }

  /** The non-null vertices are exactly those that occur wrapped in Some. */
  lemma {:induction false} PresentMembers(vertices: seq<Option<Vertex>>, v: Vertex)
    ensures v in Present(vertices) <==> Some(v) in vertices
  {
    if vertices != [] {
      PresentMembers(vertices[1..], v);
      assert vertices == [vertices[0]] + vertices[1..];
    }
  }

  /** There are as many non-null vertices as vertices minus the nulls among them. */
  lemma {:induction false} PresentCount(vertices: seq<Option<Vertex>>)
    ensures |Present(vertices)| == |vertices| - multiset(vertices)[None]
  {
    if vertices != [] {
      PresentCount(vertices[1..]);
      assert vertices == [vertices[0]] + vertices[1..];
    }
  }

  /** processVertices appends, in order, the retriever's header of each non-null vertex. */
  lemma {:induction false} HeadersArePresentMapped(retriever: Vertex -> EntityHeader, vertices: seq<Option<Vertex>>)
    ensures |Headers(retriever, vertices)| == |Present(vertices)|
    ensures forall i :: 0 <= i < |Present(vertices)| ==>
              Headers(retriever, vertices)[i] == retriever(Present(vertices)[i])
  {
    if vertices != [] {
      var init, last := vertices[..|vertices| - 1], vertices[|vertices| - 1];
      HeadersArePresentMapped(retriever, init);
      assert vertices == init + [last];
      PresentAppend(init, [last]);
      assert Present([last]) == (if last.Some? then [last.value] else []) + Present([]);
    }
  }

  /** Row count: one header per non-null vertex. */
  lemma HeadersCount(retriever: Vertex -> EntityHeader, vertices: seq<Option<Vertex>>)
    ensures |Headers(retriever, vertices)| == |vertices| - multiset(vertices)[None]
  {
    HeadersArePresentMapped(retriever, vertices);
    PresentCount(vertices);
  }

  lemma {:induction false} HeadersAppend(retriever: Vertex -> EntityHeader, a: seq<Option<Vertex>>, b: seq<Option<Vertex>>)
    ensures Headers(retriever, a + b) == Headers(retriever, a) + Headers(retriever, b)
    decreases |b|
  {
    if b == [] {
      assert a + b == a;
    } else {
      var init := b[..|b| - 1];
      assert (a + b)[..|a + b| - 1] == a + init;
      assert (a + b)[|a + b| - 1] == b[|b| - 1];
      HeadersAppend(retriever, a, init);
    }
  }

  /** Grouped branch without a select clause: the headers are those of the concatenation of all
      groups' vertices, in the map's iteration order. */
  lemma {:induction false} GroupedHeadersFlatten(retriever: Vertex -> EntityHeader, groups: seq<Group>)
    ensures GroupedHeaders(retriever, groups) == Headers(retriever, Flatten(groups))
  {
    if groups != [] {
      var init := groups[..|groups| - 1];
      GroupedHeadersFlatten(retriever, init);
      HeadersAppend(retriever, Flatten(init), groups[|groups| - 1].vertices);
    }
  }

  /** Grouped row count: one header per non-null vertex over all groups. */
  lemma GroupedHeadersCount(retriever: Vertex -> EntityHeader, groups: seq<Group>)
    ensures |GroupedHeaders(retriever, groups)| == |Flatten(groups)| - multiset(Flatten(groups))[None]
  {
    GroupedHeadersFlatten(retriever, groups);
    HeadersCount(retriever, Flatten(groups));
  }

  /** The DSL executor. Its collaborators are the given functions: the parameter normaliser, the
      translator together with the traversal compiler and runner, and the entity retriever. */
  class Executor {
    /** QueryParams.getNormalizedParams(limit, offset). */
    const normalize: (int, int) -> QueryParams
    /** Translation of the query text against the type registry with the given offset and limit,
        compilation to a traversal, and running it: the translated query, or the error thrown. */
    const translate: (string, nat, nat) -> Result<GremlinQuery, QueryError>
    /** EntityGraphRetriever.toAtlasEntityHeaderWithClassifications. */
    const retriever: Vertex -> EntityHeader

    constructor (normalize: (int, int) -> QueryParams,
                 translate: (string, nat, nat) -> Result<GremlinQuery, QueryError>,
                 retriever: Vertex -> EntityHeader)
      ensures this.normalize == normalize && this.translate == translate && this.retriever == retriever
    {
      this.normalize := normalize;
      this.translate := translate;
      this.retriever := retriever;
    }

    /** toTraversal: the translator sees the rewritten text and the normalised offset and limit. */
    function ToTraversal(query: string, limit: int, offset: int): Result<GremlinQuery, QueryError>
    {
      var params := normalize(limit, offset);
      translate(WithLimitOffset(query, params.limit, params.offset), params.offset, params.limit)
    }

    /** The envelope was created for dslQuery as a DSL query and holds exactly `entities`. */
    ghost predicate IsEnvelope(a: SearchAnswer, dslQuery: string, entities: seq<EntityHeader>)
      reads if a.Envelope? then {a.result} else {}
    {
      a.Envelope? && a.result.queryText == dslQuery && a.result.queryType == Dsl
      && a.result.entities == entities
    }

    /** What execute answers for the translated query q: a non-empty vertex list is used first;
        otherwise the grouped map, and an empty map gives the empty envelope. */
    ghost predicate IsAnswer(q: GremlinQuery, dslQuery: string, a: SearchAnswer)
      reads if a.Envelope? then {a.result} else {}
    {
      var list, groups := q.traversal.vertexList, q.traversal.vertexMap;
      if |list| > 0 then
        if q.hasValidSelectClause then a == UsingList(q, list)
        else IsEnvelope(a, dslQuery, Headers(retriever, list))
      else if |groups| == 0 then IsEnvelope(a, dslQuery, [])
      else if q.hasValidSelectClause then a == UsingMap(q, groups)
      else IsEnvelope(a, dslQuery, GroupedHeaders(retriever, groups))
    }

    /** execute: the envelope records the original query text, not the rewritten one. */
    method Execute(dslQuery: string, limit: int, offset: int) returns (r: Result<SearchAnswer, QueryError>)
      ensures r.Success? && r.value.Envelope? ==> fresh(r.value.result)
      ensures ToTraversal(dslQuery, limit, offset).Failure? ==>
                r == Failure(ToTraversal(dslQuery, limit, offset).error)
      ensures ToTraversal(dslQuery, limit, offset).Success? ==>
                r.Success? && IsAnswer(ToTraversal(dslQuery, limit, offset).value, dslQuery, r.value)
    {
      var ret := new SearchResult(dslQuery, Dsl);
      var translated := ToTraversal(dslQuery, limit, offset);
      if translated.Failure? {
        return Failure(translated.error);
      }
      var query := translated.value;
      var resultList := query.traversal.vertexList;
      var answer;
      if |resultList| > 0 {
        answer := SearchResultOfList(ret, query, resultList);
      } else {
        answer := SearchResultOfMap(ret, query, query.traversal.vertexMap);
      }
      return Success(answer);
    }

    /** getSearchResult over the vertex list. */
    method SearchResultOfList(ret: SearchResult, query: GremlinQuery, resultList: seq<Option<Vertex>>)
      returns (answer: SearchAnswer)
      modifies ret
      ensures query.hasValidSelectClause ==> answer == UsingList(query, resultList) && unchanged(ret)
      ensures !query.hasValidSelectClause ==>
                answer == Envelope(ret) && ret.entities == old(ret.entities) + Headers(retriever, resultList)
    {
      if query.hasValidSelectClause {
        return UsingList(query, resultList);
      }
      var processed := ProcessVertices(ret, resultList);
      return Envelope(processed);
    }

    /** getSearchResult over the grouped map: an empty map returns the envelope untouched. */
    method SearchResultOfMap(ret: SearchResult, query: GremlinQuery, resultMap: seq<Group>)
      returns (answer: SearchAnswer)
      modifies ret
      ensures resultMap == [] ==> answer == Envelope(ret) && unchanged(ret)
      ensures resultMap != [] && query.hasValidSelectClause ==>
                answer == UsingMap(query, resultMap) && unchanged(ret)
      ensures resultMap != [] && !query.hasValidSelectClause ==>
                answer == Envelope(ret) && ret.entities == old(ret.entities) + GroupedHeaders(retriever, resultMap)
    {
      if resultMap == [] {
        return Envelope(ret);
      }
      if query.hasValidSelectClause {
        return UsingMap(query, resultMap);
      }
      for i := 0 to |resultMap|
        invariant ret.entities == old(ret.entities) + GroupedHeaders(retriever, resultMap[..i])
      {
        assert resultMap[..i + 1][..i] == resultMap[..i];
        var _ := ProcessVertices(ret, resultMap[i].vertices);
      }
      assert resultMap[..|resultMap|] == resultMap;
      return Envelope(ret);
    }

    /** processVertices: appends one header per non-null vertex, in order, skipping nulls;
        the entries already in the envelope stay as they were. */
    method ProcessVertices(ret: SearchResult, vertices: seq<Option<Vertex>>) returns (result: SearchResult)
      modifies ret
      ensures result == ret
      ensures ret.entities == old(ret.entities) + Headers(retriever, vertices)
    {
      for i := 0 to |vertices|
        invariant ret.entities == old(ret.entities) + Headers(retriever, vertices[..i])
      {
        assert vertices[..i + 1][..i] == vertices[..i];
        if vertices[i].None? {
          continue;
        }
        ret.AddEntity(retriever(vertices[i].value));
      }
      assert vertices[..|vertices|] == vertices;
      return ret;
    }
  }
}
