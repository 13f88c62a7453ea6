/** The record projectors of the generator: each source collection is turned
    into a sequence of output objects, one per source value, built by an
    object literal with `||` defaults and `...(x && { k: x })` optional keys;
    materials, language and collision shapes are passed through. */
module Projectors {
  import opened JsValues

  /** `Object.values(xs).map(project)`: the map fails with a TypeError as soon
      as a record is undefined or null, since each projector starts by
      reading a property of its record. */
  function MapRecords(values: seq<JsVal>, project: JsVal -> JsVal): (r: Result<seq<JsVal>>)
    ensures r.Ok? <==> forall i | 0 <= i < |values| :: !Nullish(values[i])
    ensures r.Ok? ==>
              |r.value| == |values| &&
              forall i | 0 <= i < |values| :: r.value[i] == project(values[i])
  {
    if values == [] then Ok([])
    else if Nullish(values[0]) then Err(TypeError)
    else
      match MapRecords(values[1..], project)
      case Err(e) =>
        assert exists i | 0 <= i < |values[1..]| :: Nullish(values[1..][i]);
        Err(e)
      case Ok(rest) => Ok([project(values[0])] + rest)
  }

  /** `out` is the projection of the collection `source` record by record:
      one record per value of the collection, in order. */
  predicate RecordsOf(out: seq<JsVal>, source: JsVal, project: JsVal -> JsVal) {
    && ValuesOf(source).Ok?
    && |out| == |ValuesOf(source).value|
    && forall i | 0 <= i < |out| :: out[i] == project(ValuesOf(source).value[i])
  }

  /** `Object.values(data.<key>).map(project)`: it succeeds exactly when the
      dataset, the collection and every value in the collection are
      non-nullish, and then yields one record per value, in order. */
  function ProjectCollection(data: JsVal, key: string, project: JsVal -> JsVal): (r: Result<seq<JsVal>>)
    ensures r.Ok? <==>
              && !Nullish(data)
              && !Nullish(Field(data, key))
              && forall i | 0 <= i < |ValuesOf(Field(data, key)).value| ::
                   !Nullish(ValuesOf(Field(data, key)).value[i])
    ensures r.Ok? ==> RecordsOf(r.value, Field(data, key), project)
  {
    if Nullish(data) then Err(TypeError)
    else
      match ValuesOf(Field(data, key))
      case Err(e) => Err(e)
      case Ok(values) => MapRecords(values, project)
  }

  /** `v.k` when it is truthy, otherwise the default `d`: the meaning of a
      `v.k || d` property. */
  function FieldOr(v: JsVal, k: string, d: JsVal): JsVal {
    var x := Field(v, k);
    if Truthy(x) then x else d
  }

  /** FieldOr is the `||` of the read and the default. */
  lemma FieldOrIsOr(v: JsVal, k: string, d: JsVal)
    ensures FieldOr(v, k, d) == Or(Field(v, k), d)
  {
  }

  /** An object literal whose property keys are all distinct evaluates to
      exactly its property list, in order. */
  function Literal(entries: seq<Prop>): (r: seq<Prop>)
    requires Distinct(Keys(entries))
    ensures r == entries
  {
    assert Keys([]) + Keys(entries) == Keys(entries);
    PutAll([], entries)
  }

  /** The keys every item record has, in literal order. */
  const ItemKeys: seq<string> := ["id", "displayName", "name", "stackSize"]

  /** The always-present properties of an item record. */
  function ItemBase(item: JsVal): seq<Prop> {
    [Prop("id", Field(item, "id")),
     Prop("displayName", Field(item, "displayName")),
     Prop("name", Field(item, "name")),
     Prop("stackSize", FieldOr(item, "stackSize", Num(64.0)))]
  }

  /** The properties of an item record as the literal describes them: four
      always-present keys, then each optional key whose source value is
      truthy. */
  function ItemProps(item: JsVal): seq<Prop> {
    ItemBase(item)
    + OptionalProp("maxDurability", Field(item, "maxDurability"))
    + OptionalProp("repairWith", Field(item, "repairWith"))
    + OptionalProp("enchantCategories", Field(item, "enchantCategories"))
  }

  /** One entry of `items.json`, as a value. */
  function ItemRecord(item: JsVal): JsVal {
    Obj(ItemProps(item))
  }

  /** The projector `item => ({ ... })` of `items.json`: the object literal,
      evaluated definition by definition, is exactly ItemRecord. */
  function ItemLiteral(item: JsVal): (r: JsVal)
    ensures r == ItemRecord(item)
  {
    var md := Field(item, "maxDurability");
    var rw := Field(item, "repairWith");
    var ec := Field(item, "enchantCategories");
    var entries := [
      Prop("id", Field(item, "id")),
      Prop("displayName", Field(item, "displayName")),
      Prop("name", Field(item, "name")),
      Prop("stackSize", Or(Field(item, "stackSize"), Num(64.0)))];
    KeysPointwise(entries, ItemKeys);
    KeyListsDistinct();
    var base := Literal(entries);
    var p1 := SpreadIfTruthy(base, "maxDurability", md);
    ItemOptionalKeysFresh(md, rw);
    var p2 := SpreadIfTruthy(p1, "repairWith", rw);
    var p3 := SpreadIfTruthy(p2, "enchantCategories", ec);
    Obj(p3)
  }

  /** None of the optional keys of an item record is already present when
      its spread is evaluated. */
  lemma ItemOptionalKeysFresh(md: JsVal, rw: JsVal)
    ensures "maxDurability" !in ItemKeys
    ensures "repairWith" !in ItemKeys + OptionalKey("maxDurability", md)
    ensures "enchantCategories" !in
              ItemKeys + OptionalKey("maxDurability", md) + OptionalKey("repairWith", rw)
  {
  }

  /** The always-present properties of a block record, before the optional
      `harvestTools`, as the source's defaults give them. */
  function BlockBase(block: JsVal): seq<Prop> {
    [Prop("id", Field(block, "id")),
     Prop("displayName", Field(block, "displayName")),
     Prop("name", Field(block, "name")),
     Prop("hardness", FieldOr(block, "hardness", Num(0.0))),
     Prop("resistance", FieldOr(block, "resistance", Num(0.0))),
     Prop("minStateId", Field(block, "minStateId")),
     Prop("maxStateId", Field(block, "maxStateId")),
     Prop("states", FieldOr(block, "states", Arr([]))),
     Prop("drops", FieldOr(block, "drops", Arr([]))),
     Prop("diggable", Bool(Field(block, "diggable") != Bool(false))),
     Prop("transparent", FieldOr(block, "transparent", Bool(false))),
     Prop("filterLight", FieldOr(block, "filterLight", Num(0.0))),
     Prop("emitLight", FieldOr(block, "emitLight", Num(0.0))),
     Prop("boundingBox", FieldOr(block, "boundingBox", Str("block"))),
     Prop("stackSize", FieldOr(block, "stackSize", Num(64.0))),
     Prop("material", FieldOr(block, "material", Str("default")))]
  }

  /** The properties of a block record: the base, then `harvestTools` when
      truthy, then `defaultState`. */
  function BlockProps(block: JsVal): seq<Prop> {
    BlockBase(block)
    + OptionalProp("harvestTools", Field(block, "harvestTools"))
    + [Prop("defaultState", FieldOr(block, "defaultState", Field(block, "minStateId")))]
  }

  /** The keys of a block record before the optional `harvestTools`. */
  const BlockKeys: seq<string> :=
    ["id", "displayName", "name", "hardness", "resistance", "minStateId",
     "maxStateId", "states", "drops", "diggable", "transparent", "filterLight",
     "emitLight", "boundingBox", "stackSize", "material"]

  /** The base of a block record has the keys BlockKeys. */
  lemma BlockBaseKeys(block: JsVal)
    ensures Keys(BlockBase(block)) == BlockKeys
  {
    KeysPointwise(BlockBase(block), BlockKeys);
  }

  /** The two keys that follow the base of a block record are new, whether
      or not `harvestTools` is added. */
  lemma BlockLaterKeysFresh(h: JsVal)
    ensures "harvestTools" !in BlockKeys
    ensures "defaultState" !in BlockKeys + OptionalKey("harvestTools", h)
  {
    if Truthy(h) {
      assert "defaultState" !in BlockKeys + ["harvestTools"];
    } else {
      assert BlockKeys + OptionalKey("harvestTools", h) == BlockKeys;
    }
  }

  /** One entry of `blocks.json`, as a value. */
  function BlockRecord(block: JsVal): JsVal {
    Obj(BlockProps(block))
  }

  /** The projector `block => ({ ... })` of `blocks.json`: the object
      literal, evaluated definition by definition, is exactly BlockRecord. */
  function BlockLiteral(block: JsVal): (r: JsVal)
    ensures r == BlockRecord(block)
  {
    var entries := [
      Prop("id", Field(block, "id")),
      Prop("displayName", Field(block, "displayName")),
      Prop("name", Field(block, "name")),
      Prop("hardness", Or(Field(block, "hardness"), Num(0.0))),
      Prop("resistance", Or(Field(block, "resistance"), Num(0.0))),
      Prop("minStateId", Field(block, "minStateId")),
      Prop("maxStateId", Field(block, "maxStateId")),
      Prop("states", Or(Field(block, "states"), Arr([]))),
      Prop("drops", Or(Field(block, "drops"), Arr([]))),
      // `block.diggable !== false`: strict inequality with the primitive false
      Prop("diggable", Bool(Field(block, "diggable") != Bool(false))),
      Prop("transparent", Or(Field(block, "transparent"), Bool(false))),
      Prop("filterLight", Or(Field(block, "filterLight"), Num(0.0))),
      Prop("emitLight", Or(Field(block, "emitLight"), Num(0.0))),
      Prop("boundingBox", Or(Field(block, "boundingBox"), Str("block"))),
      Prop("stackSize", Or(Field(block, "stackSize"), Num(64.0))),
      Prop("material", Or(Field(block, "material"), Str("default")))];
    assert entries == BlockBase(block);
    BlockBaseKeys(block);
    KeyListsDistinct();
    BlockLaterKeysFresh(Field(block, "harvestTools"));
    var base := Literal(entries);
    var p1 := SpreadIfTruthy(base, "harvestTools", Field(block, "harvestTools"));
    var p2 := Put(p1, "defaultState", Or(Field(block, "defaultState"), Field(block, "minStateId")));
    Obj(p2)
  }

  /** The keys of an entity record, in literal order. */
  const EntityKeys: seq<string> :=
    ["id", "internalId", "name", "displayName", "width", "height", "type", "category"]

  /** The properties of an entity record, in literal order. */
  function EntityProps(entity: JsVal): seq<Prop> {
    [Prop("id", Field(entity, "id")),
     Prop("internalId", Field(entity, "id")),
     Prop("name", Field(entity, "name")),
     Prop("displayName", Field(entity, "displayName")),
     Prop("width", FieldOr(entity, "width", Num(0.6))),
     Prop("height", FieldOr(entity, "height", Num(1.8))),
     Prop("type", FieldOr(entity, "type", Str("unknown"))),
     Prop("category", FieldOr(entity, "category", Str("UNKNOWN")))]
  }

  /** One entry of `entities.json`, as a value. */
  function EntityRecord(entity: JsVal): JsVal {
    Obj(EntityProps(entity))
  }

  /** The projector `entity => ({ ... })` of `entities.json`: the object
      literal, evaluated definition by definition, is exactly EntityRecord. */
  function EntityLiteral(entity: JsVal): (r: JsVal)
    ensures r == EntityRecord(entity)
  {
    var entries := [
      Prop("id", Field(entity, "id")),
      Prop("internalId", Field(entity, "id")),
      Prop("name", Field(entity, "name")),
      Prop("displayName", Field(entity, "displayName")),
      Prop("width", Or(Field(entity, "width"), Num(0.6))),
      Prop("height", Or(Field(entity, "height"), Num(1.8))),
      Prop("type", Or(Field(entity, "type"), Str("unknown"))),
      Prop("category", Or(Field(entity, "category"), Str("UNKNOWN")))];
    KeysPointwise(entries, EntityKeys);
    KeyListsDistinct();
    Obj(Literal(entries))
  }

  /** No record literal names a key twice: neither among its fixed keys
      nor counting the optional keys and `defaultState` that follow them. */
  lemma KeyListsDistinct()
    ensures Distinct(ItemKeys) && Distinct(BlockKeys) && Distinct(EntityKeys)
    ensures Distinct(ItemKeys + ["maxDurability", "repairWith", "enchantCategories"])
    ensures Distinct(BlockKeys + ["harvestTools", "defaultState"])
  {
    DistinctIfEachNew(ItemKeys + ["maxDurability", "repairWith", "enchantCategories"]);
    DistinctIfEachNew(BlockKeys + ["harvestTools", "defaultState"]);
    DistinctIfEachNew(EntityKeys);
    assert ItemKeys == (ItemKeys + ["maxDurability", "repairWith", "enchantCategories"])[..4];
    assert BlockKeys == (BlockKeys + ["harvestTools", "defaultState"])[..16];
  }

  /** `data.<key> || {}` for materials, language and collision shapes:
      reading the key of a nullish dataset throws; otherwise the source
      value when it is truthy, else the empty object, never a falsy value. */
  function Passthrough(data: JsVal, key: string): (r: Result<JsVal>)
    ensures r.Err? <==> Nullish(data)
    ensures r.Ok? && Truthy(Field(data, key)) ==> r.value == Field(data, key)
    ensures r.Ok? && !Truthy(Field(data, key)) ==> r.value == Obj([])
    ensures r.Ok? ==> Truthy(r.value)
  {
    if Nullish(data) then Err(TypeError) else Ok(Or(Field(data, key), Obj([])))
  }
}
