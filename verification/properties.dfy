/** What the projectors promise about each output record, read back through
    property lookups: which keys appear and in what order, and what each key
    holds. */
module ProjectorProperties {
  import opened JsValues
  import opened Projectors

  /** An item record has `id`, `displayName`, `name`, `stackSize` in that
      order, then those optional keys whose source value is truthy, in the
      literal's order. */
  lemma ItemKeyOrder(item: JsVal)
    ensures Keys(ItemProps(item)) == ItemKeys
              + OptionalKey("maxDurability", Field(item, "maxDurability"))
              + OptionalKey("repairWith", Field(item, "repairWith"))
              + OptionalKey("enchantCategories", Field(item, "enchantCategories"))
  {
    var md := Field(item, "maxDurability");
    var rw := Field(item, "repairWith");
    var ec := Field(item, "enchantCategories");
    var base := ItemBase(item);
    KeysPointwise(base, ItemKeys);
    var o1 := OptionalProp("maxDurability", md);
    var o2 := OptionalProp("repairWith", rw);
    var o3 := OptionalProp("enchantCategories", ec);
    KeysAppend(o1, []);
    KeysAppend(o2, []);
    KeysAppend(o3, []);
    KeysAppend(base, o1);
    KeysAppend(base + o1, o2);
    KeysAppend(base + o1 + o2, o3);
  }

  /** No key of an item record appears twice. */
  lemma ItemKeysDistinct(item: JsVal)
    ensures Distinct(Keys(ItemProps(item)))
  {
    var md := Field(item, "maxDurability");
    var rw := Field(item, "repairWith");
    var ec := Field(item, "enchantCategories");
    ItemKeyOrder(item);
    KeyListsDistinct();
    var ks1 := ItemKeys + OptionalKey("maxDurability", md);
    var ks2 := ks1 + OptionalKey("repairWith", rw);
    DistinctWithOptional(ItemKeys, "maxDurability", md);
    DistinctWithOptional(ks1, "repairWith", rw);
    DistinctWithOptional(ks2, "enchantCategories", ec);
  }

  /** An optional key `k` of record `r`: present exactly when the source
      value is truthy, and then holding it; absent keys read as undefined. */
  predicate OptionalField(r: seq<Prop>, source: JsVal, k: string) {
    && (k in Keys(r) <==> Truthy(Field(source, k)))
    && Lookup(r, k) == if Truthy(Field(source, k)) then Field(source, k) else Undefined
  }

  /** A key of the base of an item record reads as the base gives it: the
      optional keys that follow never shadow it. */
  lemma ItemBaseLookup(item: JsVal, i: nat)
    requires i < 4
    ensures Lookup(ItemProps(item), ItemKeys[i]) == ItemBase(item)[i].value
  {
    var md := Field(item, "maxDurability");
    var rw := Field(item, "repairWith");
    var ec := Field(item, "enchantCategories");
    var base := ItemBase(item);
    var p1 := base + OptionalProp("maxDurability", md);
    var p2 := p1 + OptionalProp("repairWith", rw);
    var k := ItemKeys[i];
    KeysPointwise(base, ItemKeys);
    KeyListsDistinct();
    assert base[i].key == k by {
      assert Keys(base)[i] == base[i].key;
    }
    LookupDistinct(base, i);
    OptionalOtherKey(p2, "enchantCategories", ec, k);
    OptionalOtherKey(p1, "repairWith", rw, k);
    OptionalOtherKey(base, "maxDurability", md, k);
  }

  /** Item fields: the identity fields are copied and `stackSize` falls back
      to 64 when falsy (so a source `0` becomes 64). The optional keys are
      ItemOptionalFields. */
  lemma ItemFields(item: JsVal)
    ensures var r := ItemProps(item);
            && Lookup(r, "id") == Field(item, "id")
            && Lookup(r, "displayName") == Field(item, "displayName")
            && Lookup(r, "name") == Field(item, "name")
    ensures var s := Field(item, "stackSize");
            Lookup(ItemProps(item), "stackSize") == if Truthy(s) then s else Num(64.0)
    ensures Field(item, "stackSize") == Num(0.0) ==>
              Lookup(ItemProps(item), "stackSize") == Num(64.0)
  {
    ItemBaseLookup(item, 0);
    ItemBaseLookup(item, 1);
    ItemBaseLookup(item, 2);
    ItemBaseLookup(item, 3);
  }

  /** The three optional keys of an item record. */
  lemma ItemOptionalFields(item: JsVal)
    ensures OptionalField(ItemProps(item), item, "maxDurability")
    ensures OptionalField(ItemProps(item), item, "repairWith")
    ensures OptionalField(ItemProps(item), item, "enchantCategories")
  {
    var md := Field(item, "maxDurability");
    var rw := Field(item, "repairWith");
    var ec := Field(item, "enchantCategories");
    var base := ItemBase(item);
    var p1 := base + OptionalProp("maxDurability", md);
    var p2 := p1 + OptionalProp("repairWith", rw);
    ItemOptionalKeysFresh(md, rw);
    KeysPointwise(base, ItemKeys);
    KeysAppend(base, OptionalProp("maxDurability", md));
    KeysAppend(p1, OptionalProp("repairWith", rw));
    OptionalOwnKey(p2, "enchantCategories", ec);
    OptionalOtherKey(p2, "enchantCategories", ec, "repairWith");
    OptionalOwnKey(p1, "repairWith", rw);
    OptionalOtherKey(p2, "enchantCategories", ec, "maxDurability");
    OptionalOtherKey(p1, "repairWith", rw, "maxDurability");
    OptionalOwnKey(base, "maxDurability", md);
  }

  /** A block record has the sixteen defaulted keys in literal order, then
      `harvestTools` when its source value is truthy, then `defaultState`. */
  lemma BlockKeyOrder(block: JsVal)
    ensures Keys(BlockProps(block)) == BlockKeys
              + OptionalKey("harvestTools", Field(block, "harvestTools"))
              + ["defaultState"]
  {
    var ht := Field(block, "harvestTools");
    var opt := OptionalProp("harvestTools", ht);
    var last := [Prop("defaultState", FieldOr(block, "defaultState", Field(block, "minStateId")))];
    BlockBaseKeys(block);
    KeyListsDistinct();
    BlockLaterKeysFresh(Field(block, "harvestTools"));
    KeysAppend(opt, []);
    KeysAppend(last, []);
    KeysAppend(BlockBase(block), opt);
    KeysAppend(BlockBase(block) + opt, last);
  }

  /** No key of a block record appears twice. */
  lemma BlockKeysDistinct(block: JsVal)
    ensures Distinct(Keys(BlockProps(block)))
  {
    var ht := Field(block, "harvestTools");
    BlockKeyOrder(block);
    BlockBaseKeys(block);
    KeyListsDistinct();
    BlockLaterKeysFresh(Field(block, "harvestTools"));
    var ks := BlockKeys + OptionalKey("harvestTools", ht);
    DistinctWithOptional(BlockKeys, "harvestTools", ht);
    DistinctAppend(ks, "defaultState");
  }

  /** A key of the base of a block record reads as the base gives it. */
  lemma BlockBaseLookup(block: JsVal, i: nat)
    requires i < 16
    ensures Lookup(BlockProps(block), BlockKeys[i]) == BlockBase(block)[i].value
  {
    var b := BlockBase(block);
    var opt := OptionalProp("harvestTools", Field(block, "harvestTools"));
    var last := [Prop("defaultState", FieldOr(block, "defaultState", Field(block, "minStateId")))];
    BlockBaseKeys(block);
    KeyListsDistinct();
    BlockLaterKeysFresh(Field(block, "harvestTools"));
    assert b[i].key == BlockKeys[i] by {
      assert Keys(b)[i] == b[i].key;
    }
    LookupDistinct(b, i);
    KeysAppend(b, opt);
    LookupAppend(b + opt, last, BlockKeys[i]);
    LookupAppend(b, opt, BlockKeys[i]);
  }

  /** Block fields: `diggable` is false exactly when the source value is the
      boolean false, and true otherwise; `defaultState` falls back to
      `minStateId` when falsy (so a source `0` yields `minStateId`);
      `harvestTools` is present exactly when truthy, and then equals it. */
  lemma BlockFlags(block: JsVal)
    ensures var d := Lookup(BlockProps(block), "diggable");
            && (d == Bool(false) <==> Field(block, "diggable") == Bool(false))
            && (d == Bool(true) <==> Field(block, "diggable") != Bool(false))
    ensures var s := Field(block, "defaultState");
            Lookup(BlockProps(block), "defaultState") ==
              if Truthy(s) then s else Field(block, "minStateId")
    ensures Field(block, "defaultState") == Num(0.0) ==>
              Lookup(BlockProps(block), "defaultState") == Field(block, "minStateId")
    ensures OptionalField(BlockProps(block), block, "harvestTools")
  {
    var b := BlockBase(block);
    var h := Field(block, "harvestTools");
    var opt := OptionalProp("harvestTools", h);
    var last := [Prop("defaultState", FieldOr(block, "defaultState", Field(block, "minStateId")))];
    BlockBaseLookup(block, 9);
    BlockBaseKeys(block);
    KeyListsDistinct();
    BlockLaterKeysFresh(Field(block, "harvestTools"));
    BlockKeyOrder(block);
    KeysAppend(b, opt);
    LookupAppend(b + opt, last, "defaultState");
    if Truthy(h) {
      assert Keys(b + opt)[16] == "harvestTools";
      assert "harvestTools" !in Keys(b);
      LookupAppend(b + opt, last, "harvestTools");
      LookupAppend(b, opt, "harvestTools");
      assert opt == [Prop("harvestTools", h)];
      assert Lookup(opt, "harvestTools") == h;
    } else {
      LookupAbsent(BlockProps(block), "harvestTools");
    }
  }

  /** Block identity and state-range fields are copied. */
  lemma BlockIdentity(block: JsVal)
    ensures var r := BlockProps(block);
            && Lookup(r, "id") == Field(block, "id")
            && Lookup(r, "displayName") == Field(block, "displayName")
            && Lookup(r, "name") == Field(block, "name")
            && Lookup(r, "minStateId") == Field(block, "minStateId")
            && Lookup(r, "maxStateId") == Field(block, "maxStateId")
  {
    BlockBaseLookup(block, 0);
    BlockBaseLookup(block, 1);
    BlockBaseLookup(block, 2);
    BlockBaseLookup(block, 5);
    BlockBaseLookup(block, 6);
  }

  /** Block defaults, first half: hardness, resistance, filterLight and
      emitLight fall back to 0, `states` and `drops` to the empty array. */
  lemma BlockNumericDefaults(block: JsVal)
    ensures var r := BlockProps(block);
            && Lookup(r, "hardness") == FieldOr(block, "hardness", Num(0.0))
            && Lookup(r, "resistance") == FieldOr(block, "resistance", Num(0.0))
            && Lookup(r, "filterLight") == FieldOr(block, "filterLight", Num(0.0))
            && Lookup(r, "emitLight") == FieldOr(block, "emitLight", Num(0.0))
            && Lookup(r, "states") == FieldOr(block, "states", Arr([]))
            && Lookup(r, "drops") == FieldOr(block, "drops", Arr([]))
  {
    BlockBaseLookup(block, 3);
    BlockBaseLookup(block, 4);
    BlockBaseLookup(block, 7);
    BlockBaseLookup(block, 8);
    BlockBaseLookup(block, 11);
    BlockBaseLookup(block, 12);
  }

  /** Block defaults, second half: `transparent` falls back to false,
      `boundingBox` to "block", `stackSize` to 64, `material` to "default". */
  lemma BlockOtherDefaults(block: JsVal)
    ensures var r := BlockProps(block);
            && Lookup(r, "transparent") == FieldOr(block, "transparent", Bool(false))
            && Lookup(r, "boundingBox") == FieldOr(block, "boundingBox", Str("block"))
            && Lookup(r, "stackSize") == FieldOr(block, "stackSize", Num(64.0))
            && Lookup(r, "material") == FieldOr(block, "material", Str("default"))
  {
    BlockBaseLookup(block, 10);
    BlockBaseLookup(block, 13);
    BlockBaseLookup(block, 14);
    BlockBaseLookup(block, 15);
  }

  /** An entity record has its eight keys in literal order, none twice. */
  lemma EntityKeyOrder(entity: JsVal)
    ensures Keys(EntityProps(entity)) == EntityKeys
    ensures Distinct(Keys(EntityProps(entity)))
  {
    KeysPointwise(EntityProps(entity), EntityKeys);
    KeyListsDistinct();
  }

  /** Each key of an entity record reads as the literal gives it. */
  lemma EntityLookup(entity: JsVal, i: nat)
    requires i < 8
    ensures Lookup(EntityProps(entity), EntityKeys[i]) == EntityProps(entity)[i].value
  {
    var r := EntityProps(entity);
    EntityKeyOrder(entity);
    assert r[i].key == EntityKeys[i] by {
      assert Keys(r)[i] == r[i].key;
    }
    LookupDistinct(r, i);
  }

  /** Entity fields: `internalId` always equals `id`; `width`, `height`,
      `type` and `category` fall back to 0.6, 1.8, "unknown" and "UNKNOWN"
      when falsy. */
  lemma EntityFields(entity: JsVal)
    ensures var r := EntityProps(entity);
            && Lookup(r, "id") == Field(entity, "id")
            && Lookup(r, "internalId") == Lookup(r, "id")
            && Lookup(r, "name") == Field(entity, "name")
            && Lookup(r, "displayName") == Field(entity, "displayName")
            && Lookup(r, "width") == FieldOr(entity, "width", Num(0.6))
            && Lookup(r, "height") == FieldOr(entity, "height", Num(1.8))
            && Lookup(r, "type") == FieldOr(entity, "type", Str("unknown"))
            && Lookup(r, "category") == FieldOr(entity, "category", Str("UNKNOWN"))
  {
    EntityLookup(entity, 0);
    EntityLookup(entity, 1);
    EntityLookup(entity, 2);
    EntityLookup(entity, 3);
    EntityLookup(entity, 4);
    EntityLookup(entity, 5);
    EntityLookup(entity, 6);
    EntityLookup(entity, 7);
  }
}
