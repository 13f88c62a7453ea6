# Minecraft data generator — a verified model of its record-shaping core

The generator `script/generate_minecraft_data.js` picks a game version and loads that version's dataset from the `minecraft-data` package. It then writes six JSON files: `items.json`, `blocks.json`, `entities.json`, `materials.json`, `language.json` and `blockCollisionShapes.json`.

Its logic lives in plain JavaScript expressions, and this project models them:

- **Version resolution.** `process.argv[2] || supported[supported.length - 1]`, followed by an exact `includes` check. An unsupported version ends the run with status 1 before anything is written.
- **Three record projectors.** `Object.values(collection).map(record => ({ ... }))`, where each object literal fills defaults with `||` and adds optional keys with `...(x && { k: x })`.
- **Three passthroughs.** `data.x || {}`.
- **The run order.** The output directory is set up, then the six projections are computed and written one after another inside one `try`. The first error stops the run with status 1 and leaves the files already written in place.

The JavaScript semantics the code relies on are modelled explicitly, in module `JsValues`:

- ToBoolean (section 7.1.2 of ECMA-262), as `Truthy`;
- the `||` and `&&` operators (section 13.13 of ECMA-262), as `Or` and `And`;
- property reads, where reading a property of `undefined` or `null` throws a TypeError;
- ordinary objects, as ordered property lists;
- object-literal evaluation, as CreateDataProperty: a repeated key keeps its place and takes the new value, and a new key goes at the end;
- spread, and `Object.values`.

Modules, one per file:

- `js_values.dfy` — `JsValues`: values, truthiness, `||`/`&&`, property lists, `Put`/`PutAll`/spread, `Field`, `ValuesOf`, and the lookup lemmas.
- `projectors.dfy` — `Projectors`:
  - `MapRecords` / `ProjectCollection` (the `Object.values(...).map(...)` pipeline);
  - for each record kind, a declarative record (`ItemRecord`, `BlockRecord`, `EntityRecord`) and the literal's step-by-step evaluation (`ItemLiteral`, `BlockLiteral`, `EntityLiteral`), proved equal to it;
  - `Passthrough`.
- `properties.dfy` — `ProjectorProperties`: key order, key uniqueness and the value of every key of each record kind.
- `versions.dfy` — `Versions`: argument, latest entry, `includes`, selection and the version check.
- `generator.dfy` — `Generator`:
  - the output directory;
  - the six steps and the write-until-error sequence, and a whole run;
  - the end-to-end consequences: nothing is written for an unsupported version, record counts, the one-item example, and missing materials.

Three consequences of the code as written, which the model follows:

- **Empty version argument.** The usage comment at lines 11-12 of `script/generate_minecraft_data.js` says the latest version is used when no version is specified. An empty-string argument is falsy too, so it also selects the latest version (`Versions.SelectVersion`, `Versions.LatestVersion`).
- **`stackSize` default.** `item.stackSize || 64` replaces every falsy value with 64, including `0`, `""` and `false`, not only a missing one (`ProjectorProperties.ItemFields`).
- **Dataset without `blocks`.** A dataset whose `items` project without error but that has no `blocks` writes `items.json` and then exits with status 1, because `Object.values(undefined)` throws on the missing `blocks` collection (`Generator.StickDataset`); without `items` as well, nothing is written.

## Model

| member | source | states |
|---|---|---|
| JsValues.Or | script/generate_minecraft_data.js:72-86 | `a \|\| b` yields the left operand when it is truthy (ToBoolean, `Truthy`) and the right one otherwise; the result is truthy iff either operand is |
| JsValues.And | script/generate_minecraft_data.js:60-62 | `a && b` yields the left operand when it is falsy (ToBoolean, `Truthy`) and the right one otherwise; the result is truthy iff both operands are |
| JsValues.Spread | script/generate_minecraft_data.js:60-62 | `...src` in a literal adds nothing for a falsy value, never removes a key, and for an object whose keys are all new appends exactly its properties in order |
| JsValues.Put | script/generate_minecraft_data.js:55-63 | defining a property keeps the key list when the key exists and appends the key otherwise; a new key's property goes at the end |
| JsValues.PutLookup | script/generate_minecraft_data.js:55-63 | after a definition, that key reads as the new value and every other key reads as before |
| JsValues.PutKeepsKeysDistinct | script/generate_minecraft_data.js:55-63 | defining a property never duplicates a key |
| JsValues.PutAll | script/generate_minecraft_data.js:55-63 | copying properties keeps the existing keys; with no repeated key the result is the two lists one after the other |
| JsValues.SpreadIfTruthy | script/generate_minecraft_data.js:60-62 | `...(v && { k: v })` adds exactly the property `k: v` when `v` is truthy and nothing otherwise |
| JsValues.OptionalOwnKey | script/generate_minecraft_data.js:60-62 | after that spread a new key `k` is present iff `v` is truthy, and then reads as `v`, else as undefined |
| JsValues.OptionalOtherKey | script/generate_minecraft_data.js:60-62 | that spread leaves every other key's presence and value unchanged |
| JsValues.FieldReadsFirst | script/generate_minecraft_data.js:56-62 | reading `v.k` (`Field`) gives undefined when `k` is not an own key or `v` is not an object, and otherwise the value of the first property carrying `k` |
| JsValues.LookupAbsent | script/generate_minecraft_data.js:56-62 | a key that is not an own key reads as undefined |
| JsValues.LookupFirst | script/generate_minecraft_data.js:56-62 | a read finds the first property carrying the key |
| JsValues.LookupAppend | script/generate_minecraft_data.js:56-62 | a read of a concatenation finds the first list's value when the key is there, else reads the second list |
| JsValues.LookupDistinct | script/generate_minecraft_data.js:56-62 | in a list without repeated keys every property reads back its own value |
| JsValues.ValuesOf | script/generate_minecraft_data.js:55 | `Object.values` throws exactly on undefined and null; an object gives its values in property order, an array its elements, a string one entry per Unicode scalar value (see "Left out") |
| Projectors.MapRecords | script/generate_minecraft_data.js:55 | the map succeeds iff no source value is nullish, and then has one output per input, the i-th output built from the i-th input |
| Projectors.ProjectCollection | script/generate_minecraft_data.js:55 | `Object.values(data.key).map(project)` (`Generator.Items`, `Generator.Blocks`, `Generator.Entities`) succeeds iff the dataset, the collection and each of its values are non-nullish, and then holds one record per value of the collection, the i-th built from the i-th value |
| Projectors.Literal | script/generate_minecraft_data.js:55-63 | an object literal whose keys are all distinct evaluates to exactly its property list, in order |
| Projectors.ItemLiteral | script/generate_minecraft_data.js:55-63 | evaluating the item literal (defaults, then three conditional spreads) gives exactly the record `ItemRecord` |
| Projectors.BlockLiteral | script/generate_minecraft_data.js:68-87 | evaluating the block literal (sixteen properties, a conditional spread, then `defaultState`) gives exactly the record `BlockRecord` |
| Projectors.EntityLiteral | script/generate_minecraft_data.js:92-101 | evaluating the entity literal gives exactly the record `EntityRecord` |
| Projectors.KeyListsDistinct | script/generate_minecraft_data.js:55-101 | none of the three literals names a key twice: the item keys with `maxDurability`, `repairWith`, `enchantCategories`, the sixteen block keys with `harvestTools` and `defaultState`, and the eight entity keys are each free of repeats |
| Projectors.Passthrough | script/generate_minecraft_data.js:106-116 | `data.x \|\| {}` throws iff the dataset is nullish; otherwise it is the source value when truthy, else the empty object, and never falsy |
| ProjectorProperties.ItemKeyOrder | script/generate_minecraft_data.js:55-63 | an item record has `id`, `displayName`, `name`, `stackSize` in that order, then the truthy optional keys in literal order |
| ProjectorProperties.ItemKeysDistinct | script/generate_minecraft_data.js:55-63 | no key of an item record appears twice |
| ProjectorProperties.ItemBaseLookup | script/generate_minecraft_data.js:56-59 | each of the four leading keys of an item record reads as the literal gives it; the optional keys after it never shadow it |
| ProjectorProperties.ItemOptionalFields | script/generate_minecraft_data.js:60-62 | each of `maxDurability`, `repairWith`, `enchantCategories` is present iff its source value is truthy, and then equals it; otherwise it reads as undefined |
| ProjectorProperties.ItemFields | script/generate_minecraft_data.js:56-62 | identity fields are copied; `stackSize` is the source value if truthy, else 64 (so 0 becomes 64) |
| ProjectorProperties.BlockKeyOrder | script/generate_minecraft_data.js:68-87 | a block record has the sixteen defaulted keys in order, then `harvestTools` iff truthy, then `defaultState` |
| ProjectorProperties.BlockKeysDistinct | script/generate_minecraft_data.js:68-87 | no key of a block record appears twice |
| ProjectorProperties.BlockBaseLookup | script/generate_minecraft_data.js:69-84 | each of the sixteen leading keys reads as the literal gives it |
| ProjectorProperties.BlockFlags | script/generate_minecraft_data.js:78-86 | `diggable` is false iff the source value is exactly `false`, else true; `defaultState` is the source value when truthy, else `minStateId` (so 0 yields `minStateId`); `harvestTools` is present iff truthy, and then equals it |
| ProjectorProperties.BlockIdentity | script/generate_minecraft_data.js:69-75 | `id`, `displayName`, `name`, `minStateId`, `maxStateId` are copied from the source |
| ProjectorProperties.BlockNumericDefaults | script/generate_minecraft_data.js:72-81 | hardness, resistance, filterLight, emitLight default to 0, states and drops to `[]` |
| ProjectorProperties.BlockOtherDefaults | script/generate_minecraft_data.js:79-84 | transparent defaults to false, boundingBox to "block", stackSize to 64, material to "default" |
| ProjectorProperties.EntityKeyOrder | script/generate_minecraft_data.js:92-101 | an entity record has its eight keys in literal order, none twice |
| ProjectorProperties.EntityLookup | script/generate_minecraft_data.js:93-100 | each key of an entity record reads as the literal gives it |
| ProjectorProperties.EntityFields | script/generate_minecraft_data.js:93-100 | `internalId` always equals `id`; width, height, type, category are the source value when truthy, else 0.6, 1.8, "unknown", "UNKNOWN" |
| Versions.Includes | script/generate_minecraft_data.js:38 | `includes` holds iff the value is a string equal to a listed version |
| Versions.SelectVersion | script/generate_minecraft_data.js:31-33 | a non-empty argument is used unchanged; no argument or an empty one selects the last listed version, or undefined when the list is empty |
| Versions.Resolve | script/generate_minecraft_data.js:31-42 | the check passes iff the selected value is a listed version, and then yields it; otherwise it reports the rejected value and the full list |
| Versions.ExplicitVersion | script/generate_minecraft_data.js:31-42 | a non-empty requested version is accepted iff it is listed, and then used unchanged |
| Versions.LatestVersion | script/generate_minecraft_data.js:33-38 | with no or an empty argument and a non-empty list, the latest version is accepted |
| Versions.EmptyListRejects | script/generate_minecraft_data.js:33-38 | with an empty supported list every run is rejected |
| Versions.NoPrefixMatch | script/generate_minecraft_data.js:38 | an illustration of `ExplicitVersion`: a proper prefix of a listed version that is not itself listed is rejected |
| Generator.OutputDir | script/generate_minecraft_data.js:48 | a non-empty `OUTPUT_DIR` is used; an unset or empty one gives `./game_assets` |
| Generator.Steps | script/generate_minecraft_data.js:53-117 | the six steps carry the six output names in source order |
| Generator.WriteUntilError | script/generate_minecraft_data.js:44-139 | files are written in step order while steps succeed, each with its step's value; the first failing step stops the sequence |
| Generator.Generate | script/generate_minecraft_data.js:44-139 | after the version check the directory is set; exit status is 0 iff all six files are written, else 1; every written file holds its step's value; when a file is missing, the step that should have written it failed |
| Generator.GenerateStages | script/generate_minecraft_data.js:53-117 | each record file is written iff its projection and all earlier ones succeed; the run succeeds iff all three projections (`Items`, `Blocks`, `Entities`) do; once the items projection succeeds the three passthroughs cannot fail |
| Generator.GenerateContents | script/generate_minecraft_data.js:64-117 | the files hold the item, block and entity records, each as one array (`AsArray`), then the values of the three passthroughs |
| Generator.Run | script/generate_minecraft_data.js:31-139 | an unsupported version gives status 1, no directory and no file; a supported one runs the generation on that version's dataset; status 0 iff the version is supported and all three projections succeed; files carry the output names in order |
| Generator.UnsupportedWritesNothing | script/generate_minecraft_data.js:38-50 | a non-empty unlisted version exits with status 1 before the directory is created or any file is written |
| Generator.SuccessfulRunCardinality | script/generate_minecraft_data.js:55-102 | a successful run writes six files, and each record file has exactly one record per value of its source collection, the i-th record built from the i-th value |
| Generator.DefaultRunLoadsLatest | script/generate_minecraft_data.js:31-45 | with no argument and a non-empty list, the latest version's dataset is generated |
| Generator.MissingMaterialsWritesEmpty | script/generate_minecraft_data.js:106-107 | in a successful run, a dataset without `materials` writes the empty object to `materials.json` |
| Generator.StickItem | script/generate_minecraft_data.js:55-63 | `{id: 1, name: "stick", displayName: "Stick"}` becomes `{id: 1, displayName: "Stick", name: "stick", stackSize: 64}` |
| Generator.SingleItem | script/generate_minecraft_data.js:55 | a one-item collection projects to that item's record alone |
| Generator.StickDataset | script/generate_minecraft_data.js:53-88 | a dataset holding only that item writes `items.json` with exactly that record and then exits with status 1, since `blocks` is missing |

## Left out

- File system work is not modelled: `existsSync`/`mkdirSync` (lines 49-50), `path.join`, the `writeFileSync` calls, and the directory listing and size report (lines 122-127, with its floating-point division and `Math.round`). A write is recorded as a file name and the value serialized into it; creating the directory is recorded as the directory being set in the outcome.
- Console output (lines 35-36, 39-40, the progress lines, 119-134) and `process.exit` are not modelled; the exit status is a field of the outcome.
- `process.argv[2]` and `process.env.OUTPUT_DIR` are parameters.
- The `minecraft-data` package (lines 28, 32, 45) is not part of this model: the supported-version list is a parameter and the dataset loader is a function parameter.
- Generator.Run: a loader that throws is not modelled; the loader is total. A nullish dataset is modelled, and its first property read fails as in the source.
- Generator.WriteUntilError: only the TypeError of reading a property of, or calling `Object.values` on, `undefined`/`null` is modelled as a failure. Write errors, serialization errors and other exceptions that the `try` (lines 44, 136-139) would also turn into status 1 are not.
- `JSON.stringify` pretty-printing is not modelled; the model stops at the value that is serialized. Serialization drops properties whose value is undefined and writes NaN as `null`, so a file can lack a key that the model's record has (for example `id` of a source item without one).
- JsValues.JsVal: numbers are exact reals plus a separate NaN. Infinity, `-0` (merged with `0`) and floating-point precision are not represented; the code does no arithmetic on them.
- JsValues.ValuesOf: a string gives one entry per Unicode scalar value (a Dafny `char`), where `Object.values` gives one per UTF-16 code unit, so a string with characters outside the Basic Multilingual Plane yields fewer values in the model. The generator's collections are objects, never strings.
- JsValues.Field: reads on non-objects give undefined and there is no prototype chain. That is exact for the keys the projectors read, none of which is an inherited property, but not for reads in general.
- JsValues.JsVal: an `Obj` whose property list repeats a key stands for no JavaScript value. Reads then find the first occurrence, and `ValuesOf` would give one value per property. The model only builds objects with distinct keys (`ItemKeysDistinct`, `BlockKeysDistinct`, `EntityKeyOrder`); a dataset is taken as given.
- JsValues.JsVal: an object's property list is taken as its enumeration order. JavaScript lists integer-like keys first; none of the record keys is integer-like, so the literal order is the enumeration order.
- JsValues.Spread: only objects and falsy values are spread, which are the only cases the code produces. Spreading other truthy primitives is not modelled.
- Getters, proxies and array holes are not modelled.
