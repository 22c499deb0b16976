/** AtlasInstanceConverter: the type-name guards in front of the V1-to-V2 format conversions,
    the filling of the V1 array in getReferenceables, and the mapping of an entity-mutation
    response to the legacy create/update result. The format converters, the JSON parser and the
    type registry's lookups are given as functions and maps. */
module AtlasInstanceConverter {
  import opened Wrappers
  import opened Instances

  /** The categories of registered types (TypeCategory). */
  datatype TypeCategory =
    | Primitive | ObjectIdType | Enum | Struct | Classification | Entity | Array | Map
    | Relationship | BusinessMetadata

  /** A registered type: its name and its category. */
  datatype AtlasType = AtlasType(name: string, category: TypeCategory)

  /** A V1 struct, such as a trait instance. */
  datatype V1Struct = V1Struct(typeName: string, values: map<string, string>)

  /** A V1 entity instance. */
  datatype Referenceable = Referenceable(id: string, typeName: string, values: map<string, string>)

  /** A V2 classification instance. */
  datatype AtlasClassification = AtlasClassification(typeName: string, attributes: map<string, string>)

  /** A V2 entity instance. */
  datatype AtlasEntity = AtlasEntity(guid: string, typeName: string, attributes: map<string, string>)

  /** The entities a conversion context collected (AtlasEntitiesWithExtInfo), in the order added. */
  datatype EntitiesWithExtInfo = EntitiesWithExtInfo(entities: seq<AtlasEntity>)

  /** The exception thrown by the guards: AtlasErrorCode.TYPE_NAME_INVALID with the expected
      category and the offending type name. */
  datatype AtlasError = TypeNameInvalid(category: TypeCategory, typeName: string)

  /** The kinds of entity mutation (EntityMutations.EntityOperation). */
  datatype EntityOperation = Create | Update | PartialUpdate | Delete | Purge

  /** The result slots of the legacy EntityResult: OP_CREATED, OP_UPDATED and OP_DELETED. */
  datatype Slot = OpCreated | OpUpdated | OpDeleted

  /** The legacy GUID mapping, wrapping the response's GUID assignments. */
  datatype GuidMapping = GuidMapping(guidAssignments: map<string, string>)

  /** The legacy entity result: the GUID list stored in each slot that was set. */
  datatype EntityResult = EntityResult(entities: map<Slot, seq<string>>)

  /** The legacy create/update result; null fields are None. */
  datatype CreateUpdateEntitiesResult =
    CreateUpdateEntitiesResult(guidMapping: Option<GuidMapping>, entityResult: Option<EntityResult>)

  /** A mutable list of entity headers held by a mutation response (an ArrayList). */
  class HeaderList {
    var items: seq<EntityHeader>

    constructor (items: seq<EntityHeader>)
      ensures this.items == items
    {
      this.items := items;
    }

    /** Collections.reverse: reverses the list in place. */
    method Reverse()
      modifies this
      ensures items == Reversed(old(items))
    {
      items := Reversed(items);
    }
  }

  /** An entity-mutation response: the header list of each operation (a null list is null) and
      the order in which the map's entries are iterated, plus the GUID assignments. */
  datatype MutationResponse = MutationResponse(
    mutatedEntities: map<EntityOperation, HeaderList?>,
    iterationOrder: seq<EntityOperation>,
    guidAssignments: map<string, string>)
  {
    /** The iteration order lists every key of the map exactly once, and no two operations share
        one list object. */
    ghost predicate Valid()
    {
      && (forall op :: op in mutatedEntities <==> op in iterationOrder)
      && (forall i, j :: 0 <= i < j < |iterationOrder| ==> iterationOrder[i] != iterationOrder[j])
      && (forall a, b :: a in mutatedEntities && b in mutatedEntities && a != b && mutatedEntities[a] != null
            ==> mutatedEntities[a] != mutatedEntities[b])
    }

    /** The list objects the response holds. */
    ghost function Lists(): set<HeaderList?>
    {
      set op | op in mutatedEntities && mutatedEntities[op] != null :: mutatedEntities[op]
    }

    /** The current contents of each non-null list, by operation. */
    ghost function Contents(): map<EntityOperation, seq<EntityHeader>>
      reads Lists()
    {
      map op | op in mutatedEntities && mutatedEntities[op] != null :: mutatedEntities[op].items
    }
  }

  /** The sequence in reverse order. */
  function Reversed<T>(s: seq<T>): seq<T>
  {
    if s == [] then [] else Reversed(s[1..]) + [s[0]]
  }

  lemma {:induction false} ReversedAt<T>(s: seq<T>)
    ensures |Reversed(s)| == |s|
    ensures forall k :: 0 <= k < |s| ==> Reversed(s)[k] == s[|s| - 1 - k]
  {
    if s != [] {
      ReversedAt(s[1..]);
    }
  }

  /** Reversing twice restores the original order. */
  lemma ReversedTwice<T>(s: seq<T>)
    ensures Reversed(Reversed(s)) == s
  {
    ReversedAt(s);
    ReversedAt(Reversed(s));
  }

  /** The GUIDs of the headers, in order. */
  function Guids(headers: seq<EntityHeader>): seq<string>
  {
    seq(|headers|, i requires 0 <= i < |headers| => headers[i].guid)
  }

  /** Projecting to GUIDs commutes with reversal. */
  lemma GuidsReversed(headers: seq<EntityHeader>)
    ensures Guids(Reversed(headers)) == Reversed(Guids(headers))
  {
    ReversedAt(headers);
    ReversedAt(Guids(headers));
  }

  /** The result slot an operation's case in the switch writes; Purge has no case. */
  function SlotOf(op: EntityOperation): Option<Slot>
  {
    match op
    case Create => Some(OpCreated)
    case Update => Some(OpUpdated)
    case PartialUpdate => Some(OpUpdated)
    case Delete => Some(OpDeleted)
    case Purge => None
  }

  /** Operation op, whose list held `contents` before the call, writes `slot`. */
  predicate Writes(op: EntityOperation, contents: map<EntityOperation, seq<EntityHeader>>, slot: Slot)
  {
    SlotOf(op) == Some(slot) && op in contents && |contents[op]| > 0
  }

  /** The slots set while the entries are visited in `order`, starting from `slots`: each
      operation with a non-empty list stores the GUIDs of its reversed list in its slot. */
  function SlotsWritten(order: seq<EntityOperation>, contents: map<EntityOperation, seq<EntityHeader>>,
                        slots: map<Slot, seq<string>>): map<Slot, seq<string>>
  {
    if order == [] then slots
    else
      var op := order[0];
      SlotsWritten(order[1..], contents, NextSlots(op, contents, slots))
  }

  /** The lists' contents after the call: the lists of operations the switch handles are reversed
      (an empty one stays empty), the others are left as they were. */
  function AfterReversal(contents: map<EntityOperation, seq<EntityHeader>>): map<EntityOperation, seq<EntityHeader>>
  {
    map op | op in contents :: if SlotOf(op).Some? then Reversed(contents[op]) else contents[op]
  }

  /** The contents once the operations in `visited` have been handled. */
  function PartlyReversed(contents: map<EntityOperation, seq<EntityHeader>>, visited: seq<EntityOperation>)
    : map<EntityOperation, seq<EntityHeader>>
  {
    map op | op in contents :: if op in visited && SlotOf(op).Some? then Reversed(contents[op]) else contents[op]
  }

  /** The contents once the entry of `op` has been visited: its list is reversed when the
      switch has a case for it. */
  function ReverseEntry(contents: map<EntityOperation, seq<EntityHeader>>, op: EntityOperation)
    : map<EntityOperation, seq<EntityHeader>>
  {
    if op in contents && SlotOf(op).Some? then contents[op := Reversed(contents[op])] else contents
  }

  /** The slots once the entry of `op` has been visited. */
  function NextSlots(op: EntityOperation, contents: map<EntityOperation, seq<EntityHeader>>,
                     slots: map<Slot, seq<string>>): map<Slot, seq<string>>
  {
    if SlotOf(op).Some? && Writes(op, contents, SlotOf(op).value)
    then slots[SlotOf(op).value := Guids(Reversed(contents[op]))]
    else slots
  }

  lemma PartlyReversedStep(contents: map<EntityOperation, seq<EntityHeader>>, visited: seq<EntityOperation>,
                           op: EntityOperation, slots: map<Slot, seq<string>>)
    requires op !in visited
    ensures ReverseEntry(PartlyReversed(contents, visited), op) == PartlyReversed(contents, visited + [op])
    ensures NextSlots(op, PartlyReversed(contents, visited), slots) == NextSlots(op, contents, slots)
  {
  }

  lemma SlotsWrittenStep(order: seq<EntityOperation>, i: nat, contents: map<EntityOperation, seq<EntityHeader>>,
                         slots: map<Slot, seq<string>>)
    requires i < |order|
    ensures SlotsWritten(order[i..], contents, slots)
            == SlotsWritten(order[i + 1..], contents, NextSlots(order[i], contents, slots))
  {
    assert order[i..][0] == order[i] && order[i..][1..] == order[i + 1..];
  }

  /** In an order without repetitions, entry i is visited for the first time at step i. */
  lemma FirstVisit(order: seq<EntityOperation>, i: nat)
    requires i < |order|
    requires forall j, k :: 0 <= j < k < |order| ==> order[j] != order[k]
    ensures order[i] !in order[..i]
    ensures order[..i + 1] == order[..i] + [order[i]]
  {
  }

  lemma PartlyReversedAll(contents: map<EntityOperation, seq<EntityHeader>>, order: seq<EntityOperation>)
    requires forall op :: op in contents ==> op in order
    ensures PartlyReversed(contents, order) == AfterReversal(contents)
  {
  }

  /** A slot is set exactly when some visited operation with a non-empty list writes it, and then
      it holds the reversed GUIDs of such an operation's list; otherwise it keeps its old state. */
  lemma {:induction false} SlotsWrittenSpec(order: seq<EntityOperation>, contents: map<EntityOperation, seq<EntityHeader>>,
                                            slots: map<Slot, seq<string>>, slot: Slot)
    ensures (forall op :: op in order ==> !Writes(op, contents, slot)) ==>
              (slot in SlotsWritten(order, contents, slots) <==> slot in slots)
              && (slot in slots ==> SlotsWritten(order, contents, slots)[slot] == slots[slot])
    ensures (exists op :: op in order && Writes(op, contents, slot)) ==>
              slot in SlotsWritten(order, contents, slots)
              && exists op :: op in order && Writes(op, contents, slot)
                              && SlotsWritten(order, contents, slots)[slot] == Guids(Reversed(contents[op]))
  {
    if order != [] {
      var op := order[0];
      var next := NextSlots(op, contents, slots);
      SlotsWrittenSpec(order[1..], contents, next, slot);
      assert forall o :: o in order <==> o == op || o in order[1..];
    }
  }

  /** What the legacy entity result holds, slot by slot: OP_CREATED comes only from CREATE and
      OP_DELETED only from DELETE; OP_UPDATED from UPDATE or PARTIAL_UPDATE; each holds the GUIDs
      of its list in reverse order. */
  lemma EntityResultSlots(order: seq<EntityOperation>, contents: map<EntityOperation, seq<EntityHeader>>)
    requires forall op :: op in contents ==> op in order
    ensures var r := SlotsWritten(order, contents, map[]);
      && (OpCreated in r <==> Writes(Create, contents, OpCreated))
      && (OpCreated in r ==> r[OpCreated] == Reversed(Guids(contents[Create])))
      && (OpDeleted in r <==> Writes(Delete, contents, OpDeleted))
      && (OpDeleted in r ==> r[OpDeleted] == Reversed(Guids(contents[Delete])))
      && (OpUpdated in r <==> Writes(Update, contents, OpUpdated) || Writes(PartialUpdate, contents, OpUpdated))
      && (OpUpdated in r ==>
            (Writes(Update, contents, OpUpdated) && r[OpUpdated] == Reversed(Guids(contents[Update])))
            || (Writes(PartialUpdate, contents, OpUpdated) && r[OpUpdated] == Reversed(Guids(contents[PartialUpdate]))))
  {
    SlotsWrittenSpec(order, contents, map[], OpCreated);
    SlotsWrittenSpec(order, contents, map[], OpDeleted);
    SlotsWrittenSpec(order, contents, map[], OpUpdated);
    if Create in contents {
      GuidsReversed(contents[Create]);
    }
    if Delete in contents {
      GuidsReversed(contents[Delete]);
    }
    if Update in contents {
      GuidsReversed(contents[Update]);
    }
    if PartialUpdate in contents {
      GuidsReversed(contents[PartialUpdate]);
    }
  }

  /** The in-place reversal undoes itself: after a second call the lists are back in their
      original order. */
  lemma AfterReversalTwice(contents: map<EntityOperation, seq<EntityHeader>>)
    ensures AfterReversal(AfterReversal(contents)) == contents
  {
    forall op | op in contents
      ensures AfterReversal(AfterReversal(contents))[op] == contents[op]
    {
      ReversedTwice(contents[op]);
    }
  }

  /** A second call on the same response, which sees the lists reversed by the first, stores the
      GUIDs of CREATE and DELETE in their original order. */
  lemma SecondCallOriginalOrder(order: seq<EntityOperation>, contents: map<EntityOperation, seq<EntityHeader>>)
    requires forall op :: op in contents ==> op in order
    ensures var r := SlotsWritten(order, AfterReversal(contents), map[]);
      && (OpCreated in r ==> Create in contents && r[OpCreated] == Guids(contents[Create]))
      && (OpDeleted in r ==> Delete in contents && r[OpDeleted] == Guids(contents[Delete]))
  {
    var after := AfterReversal(contents);
    EntityResultSlots(order, after);
    if Create in contents {
      ReversedTwice(Guids(contents[Create]));
      GuidsReversed(contents[Create]);
    }
    if Delete in contents {
      ReversedTwice(Guids(contents[Delete]));
      GuidsReversed(contents[Delete]);
    }
  }

  /** The instance converter over a type registry. The V1/V2 format converters and the V1 JSON
      parser are given as functions. */
  class Converter {
    /** The type registry: each registered type by name. */
    const types: map<string, AtlasType>
    /** The classification format converter, V1 to V2. */
    const classificationFromV1: (V1Struct, AtlasType) -> AtlasClassification
    /** The entity format converter, V1 to V2: the referenceable, its entity type, and the
        entities already in the conversion context. */
    const entityFromV1: (Referenceable, AtlasType, seq<AtlasEntity>) -> AtlasEntity
    /** The entity format converter, V2 to V1: the entity, the registry's type for its name, and
        the entities of the conversion context. */
    const entityToV1: (AtlasEntity, Option<AtlasType>, seq<AtlasEntity>) -> Referenceable
    /** AtlasType.fromV1Json for Referenceable. */
    const parseV1Json: string -> Referenceable

    constructor (types: map<string, AtlasType>,
                 classificationFromV1: (V1Struct, AtlasType) -> AtlasClassification,
                 entityFromV1: (Referenceable, AtlasType, seq<AtlasEntity>) -> AtlasEntity,
                 entityToV1: (AtlasEntity, Option<AtlasType>, seq<AtlasEntity>) -> Referenceable,
                 parseV1Json: string -> Referenceable)
      ensures this.types == types && this.classificationFromV1 == classificationFromV1
      ensures this.entityFromV1 == entityFromV1 && this.entityToV1 == entityToV1
      ensures this.parseV1Json == parseV1Json
    {
      this.types := types;
      this.classificationFromV1 := classificationFromV1;
      this.entityFromV1 := entityFromV1;
      this.entityToV1 := entityToV1;
      this.parseV1Json := parseV1Json;
    }

    /** typeRegistry.getType: the registered type of that name, of any category. */
    function TypeByName(name: string): Option<AtlasType>
    {
      if name in types then Some(types[name]) else None
    }

    /** The registry holds a classification type of that name. */
    predicate IsClassificationType(name: string)
    {
      name in types && types[name].category == Classification
    }

    /** The registry holds an entity type of that name. */
    predicate IsEntityType(name: string)
    {
      name in types && types[name].category == Entity
    }

    /** toAtlasClassification: throws TYPE_NAME_INVALID unless the struct's type name is a
        registered classification type, and converts otherwise. */
    function ToAtlasClassification(classification: V1Struct): (r: Result<AtlasClassification, AtlasError>)
      ensures r.Failure? <==> !IsClassificationType(classification.typeName)
      ensures r.Failure? ==> r.error == TypeNameInvalid(Classification, classification.typeName)
      ensures r.Success? ==> r.value == classificationFromV1(classification, types[classification.typeName])
    {
      if !IsClassificationType(classification.typeName) then
        Failure(TypeNameInvalid(Classification, classification.typeName))
      else
        Success(classificationFromV1(classification, types[classification.typeName]))
    }

    /** toAtlasEntity: throws TYPE_NAME_INVALID unless the type name is a registered entity type;
        otherwise converts with a fresh, empty context, which then holds the one converted entity. */
    function ToAtlasEntity(referenceable: Referenceable): (r: Result<EntitiesWithExtInfo, AtlasError>)
      ensures r.Failure? <==> !IsEntityType(referenceable.typeName)
      ensures r.Failure? ==> r.error == TypeNameInvalid(Entity, referenceable.typeName)
      ensures r.Success? ==> r.value.entities == [entityFromV1(referenceable, types[referenceable.typeName], [])]
    {
      if !IsEntityType(referenceable.typeName) then
        Failure(TypeNameInvalid(Entity, referenceable.typeName))
      else
        Success(EntitiesWithExtInfo([entityFromV1(referenceable, types[referenceable.typeName], [])]))
    }

    /** toAtlasEntities(String[]): parses every entry, then converts them in order with one shared
        context and throws on the first whose type name is not a registered entity type. On
        success entry i is converted with the entries before it already in the context, so the
        first entry is converted exactly as toAtlasEntity converts it alone. */
    method ToAtlasEntities(jsonEntities: seq<string>) returns (r: Result<EntitiesWithExtInfo, AtlasError>)
      ensures r.Failure? <==> exists i :: 0 <= i < |jsonEntities| && !IsEntityType(parseV1Json(jsonEntities[i]).typeName)
      ensures r.Failure? ==>
                exists i :: 0 <= i < |jsonEntities| && !IsEntityType(parseV1Json(jsonEntities[i]).typeName)
                  && (forall j :: 0 <= j < i ==> IsEntityType(parseV1Json(jsonEntities[j]).typeName))
                  && r.error == TypeNameInvalid(Entity, parseV1Json(jsonEntities[i]).typeName)
      ensures r.Success? ==>
                |r.value.entities| == |jsonEntities|
                && (forall i :: 0 <= i < |jsonEntities| ==>
                      IsEntityType(parseV1Json(jsonEntities[i]).typeName)
                      && r.value.entities[i] == entityFromV1(parseV1Json(jsonEntities[i]),
                                                             types[parseV1Json(jsonEntities[i]).typeName],
                                                             r.value.entities[..i]))
                && (|jsonEntities| > 0 ==>
                      ToAtlasEntity(parseV1Json(jsonEntities[0])) == Success(EntitiesWithExtInfo([r.value.entities[0]])))
    {
      var referenceables := new Referenceable[|jsonEntities|];
      for i := 0 to |jsonEntities|
        invariant forall k :: 0 <= k < i ==> referenceables[k] == parseV1Json(jsonEntities[k])
      {
        referenceables[i] := parseV1Json(jsonEntities[i]);
      }
      var context: seq<AtlasEntity> := [];
      for i := 0 to referenceables.Length
        invariant |context| == i
        invariant forall k :: 0 <= k < i ==> IsEntityType(referenceables[k].typeName)
        invariant forall k :: 0 <= k < i ==>
                    context[k] == entityFromV1(referenceables[k], types[referenceables[k].typeName], context[..k])
      {
        var referenceable := referenceables[i];
        if !IsEntityType(referenceable.typeName) {
          return Failure(TypeNameInvalid(Entity, referenceable.typeName));
        }
        var next := context + [entityFromV1(referenceable, types[referenceable.typeName], context)];
        assert forall k :: 0 <= k <= i ==> next[..k] == context[..k];
        context := next;
      }
      return Success(EntitiesWithExtInfo(context));
    }

    /** getReferenceables: an array of the input's size, entry i the V1 form of entity i, each
        converted with all the entities in the conversion context. */
    method GetReferenceables(entities: seq<AtlasEntity>) returns (ret: array<Referenceable>)
      ensures fresh(ret)
      ensures ret.Length == |entities|
      ensures forall i :: 0 <= i < |entities| ==>
                ret[i] == entityToV1(entities[i], TypeByName(entities[i].typeName), entities)
    {
      ret := new Referenceable[|entities|];
      var context: seq<AtlasEntity> := [];
      for i := 0 to |entities|
        invariant context == entities[..i]
      {
        context := context + [entities[i]];
      }
      assert context == entities;
      for i := 0 to |entities|
        invariant forall k :: 0 <= k < i ==>
                    ret[k] == entityToV1(entities[k], TypeByName(entities[k].typeName), entities)
      {
        ret[i] := entityToV1(entities[i], TypeByName(entities[i].typeName), context);
      }
    }

    /** getGuids: null for a null or empty list; otherwise the GUID of each header, in order. */
    method GetGuids(entities: Option<seq<EntityHeader>>) returns (ret: Option<seq<string>>)
      ensures ret.None? <==> entities.None? || entities.value == []
      ensures ret.Some? ==>
                |ret.value| == |entities.value|
                && forall i :: 0 <= i < |ret.value| ==> ret.value[i] == entities.value[i].guid
    {
      if entities.None? || entities.value == [] {
        return None;
      }
      var guids: seq<string> := [];
      for i := 0 to |entities.value|
        invariant |guids| == i
        invariant forall k :: 0 <= k < i ==> guids[k] == entities.value[k].guid
      {
        guids := guids + [entities.value[i].guid];
      }
      return Some(guids);
    }

    /** One iteration of the loop over the map's entries: the switch case of `op` fetches the
        operation's list and, when it is non-empty, reverses it in place and stores the GUIDs of
        the reversed list in the operation's slot; a null or empty list, or an operation without
        a case, changes nothing. */
    method VisitEntry(response: MutationResponse, op: EntityOperation, slots: map<Slot, seq<string>>)
      returns (updated: map<Slot, seq<string>>)
      requires response.Valid() && op in response.mutatedEntities
      modifies response.Lists()
      ensures response.Contents() == ReverseEntry(old(response.Contents()), op)
      ensures updated == NextSlots(op, old(response.Contents()), slots)
    {
      updated := slots;
      var list := response.mutatedEntities[op];
      if SlotOf(op).Some? && list != null && list.items != [] {
        ghost var previous := response.Contents();
        list.Reverse();
        var guids := GetGuids(Some(list.items));
        assert guids.value == Guids(list.items);
        updated := slots[SlotOf(op).value := guids.value];
        forall o | o in previous
          ensures response.Contents()[o] == ReverseEntry(previous, op)[o]
        {
          if o != op {
            assert response.mutatedEntities[o] != list;
          }
        }
      }
    }

    /** The loop over the map's entries, in iteration order, filling a fresh entity result. */
    method VisitEntries(response: MutationResponse) returns (slots: map<Slot, seq<string>>)
      requires response.Valid()
      modifies response.Lists()
      ensures slots == SlotsWritten(response.iterationOrder, old(response.Contents()), map[])
      ensures response.Contents() == AfterReversal(old(response.Contents()))
    {
      ghost var before := response.Contents();
      var order := response.iterationOrder;
      slots := map[];
      assert before == PartlyReversed(before, order[..0]);
      for i := 0 to |order|
        invariant SlotsWritten(order[i..], before, slots) == SlotsWritten(order, before, map[])
        invariant response.Contents() == PartlyReversed(before, order[..i])
      {
        var op := order[i];
        SlotsWrittenStep(order, i, before, slots);
        FirstVisit(order, i);
        PartlyReversedStep(before, order[..i], op, slots);
        slots := VisitEntry(response, op, slots);
      }
      assert order[..|order|] == order;
      PartlyReversedAll(before, order);
    }

    /** toCreateUpdateEntitiesResult: null exactly for a null response. The GUID mapping is set
        when there are GUID assignments, the entity result when there are mutated entities; each
        operation's non-empty list is reversed in place and its GUIDs stored in its slot. */
    method ToCreateUpdateEntitiesResult(response: Option<MutationResponse>)
      returns (ret: Option<CreateUpdateEntitiesResult>)
      requires response.Some? ==> response.value.Valid()
      modifies if response.Some? then response.value.Lists() else {}
      ensures ret.None? <==> response.None?
      ensures response.Some? ==>
                ret.value.guidMapping ==
                  (if response.value.guidAssignments != map[]
                   then Some(GuidMapping(response.value.guidAssignments)) else None)
      ensures response.Some? ==>
                ret.value.entityResult ==
                  (if response.value.mutatedEntities != map[]
                   then Some(EntityResult(SlotsWritten(response.value.iterationOrder, old(response.value.Contents()), map[])))
                   else None)
      ensures response.Some? ==>
                response.value.Contents() ==
                  (if response.value.mutatedEntities != map[]
                   then AfterReversal(old(response.value.Contents()))
                   else old(response.value.Contents()))
    {
      if response.None? {
        return None;
      }
      var resp := response.value;
      var guidMapping := if resp.guidAssignments != map[] then Some(GuidMapping(resp.guidAssignments)) else None;
      var entityResult := None;
      if resp.mutatedEntities != map[] {
        var slots := VisitEntries(resp);
        entityResult := Some(EntityResult(slots));
      }
      return Some(CreateUpdateEntitiesResult(guidMapping, entityResult));
    }
  }
}
