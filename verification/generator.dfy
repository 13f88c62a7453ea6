/** The run of the generator as a value: the version check, then the six
    projections in their fixed order, each followed by the write of its file.
    The dataset loader and the environment are parameters; a file write is
    recorded as the file name with the value that is serialized into it. */
module Generator {
  import opened JsValues
  import opened Projectors
  import opened Versions

  /** A file written into the output directory, with the value that is
      serialized into it. */
  datatype FileWrite = FileWrite(name: string, contents: JsVal)

  /** How a run ends: its exit status, the output directory if the run got
      as far as creating it, and the files written, in order. */
  datatype RunOutcome = RunOutcome(exitCode: int, outputDir: Option<string>, written: seq<FileWrite>)

  /** The output files, in the order in which they are written. */
  const OutputNames: seq<string> :=
    ["items.json", "blocks.json", "entities.json",
     "materials.json", "language.json", "blockCollisionShapes.json"]

  /** `process.env.OUTPUT_DIR || './game_assets'`: an unset or empty variable
      selects the default. */
  function OutputDir(env: Option<string>): (dir: string)
    ensures env.Some? && env.value != "" ==> dir == env.value
    ensures (env.None? || env.value == "") ==> dir == "./game_assets"
  {
    var v := Or(if env.Some? then Str(env.value) else Undefined, Str("./game_assets"));
    assert v.Str?;
    v.s
  }

  /** The written files carry the output names in order. */
  predicate NamedInOrder(written: seq<FileWrite>) {
    && |written| <= |OutputNames|
    && forall i | 0 <= i < |written| :: written[i].name == OutputNames[i]
  }

  /** The items, blocks and entities projections of a dataset. Each maps
      the record value that its object literal is proved to evaluate to
      (Projectors.ItemLiteral and its siblings). */
  function Items(data: JsVal): Result<seq<JsVal>> {
    ProjectCollection(data, "items", ItemRecord)
  }

  function Blocks(data: JsVal): Result<seq<JsVal>> {
    ProjectCollection(data, "blocks", BlockRecord)
  }

  function Entities(data: JsVal): Result<seq<JsVal>> {
    ProjectCollection(data, "entities", EntityRecord)
  }

  /** One step of the generation: the file it writes and the value that is
      serialized into it, or the error its projection throws. */
  datatype Step = Step(name: string, value: Result<JsVal>)

  /** A record projection as the array that is written. */
  function AsArray(records: Result<seq<JsVal>>): Result<JsVal> {
    match records
    case Ok(rs) => Ok(Arr(rs))
    case Err(e) => Err(e)
  }

  /** The six steps, in source order. */
  function Steps(data: JsVal): (steps: seq<Step>)
    ensures |steps| == |OutputNames|
    ensures forall i | 0 <= i < |steps| :: steps[i].name == OutputNames[i]
  {
    [Step("items.json", AsArray(Items(data))),
     Step("blocks.json", AsArray(Blocks(data))),
     Step("entities.json", AsArray(Entities(data))),
     Step("materials.json", Passthrough(data, "materials")),
     Step("language.json", Passthrough(data, "language")),
     Step("blockCollisionShapes.json", Passthrough(data, "blockCollisionShapes"))]
  }

  /** Running the steps in order inside one `try`: each step's file is
      written as soon as its value is computed, and the first step that
      throws ends the sequence; the files written before it stay written. */
  function WriteUntilError(steps: seq<Step>): (w: seq<FileWrite>)
    ensures |w| <= |steps|
    ensures forall i | 0 <= i < |w| ::
              steps[i].value.Ok? && w[i] == FileWrite(steps[i].name, steps[i].value.value)
    ensures |w| < |steps| ==> steps[|w|].value.Err?
  {
    if steps == [] then []
    else
      match steps[0].value
      case Err(_) => []
      case Ok(v) => [FileWrite(steps[0].name, v)] + WriteUntilError(steps[1..])
  }

  /** Everything after the version check: the output directory exists from
      here on; the steps run in order, and the run ends with status 0 if all
      six files were written and with status 1 if a step threw. */
  function Generate(data: JsVal, dir: string): (r: RunOutcome)
    ensures r.outputDir == Some(dir)
    ensures NamedInOrder(r.written)
    ensures r.exitCode == 0 || r.exitCode == 1
    ensures r.exitCode == 0 <==> |r.written| == |OutputNames|
    ensures forall i | 0 <= i < |r.written| ::
              Steps(data)[i].value == Ok(r.written[i].contents)
    ensures |r.written| < |OutputNames| ==> Steps(data)[|r.written|].value.Err?
  {
    var written := WriteUntilError(Steps(data));
    RunOutcome(if |written| == |OutputNames| then 0 else 1, Some(dir), written)
  }

  /** How far a run gets: `items.json` is written exactly when the items
      projection succeeds, each later record file exactly when its
      projection and all earlier ones succeed, and the run succeeds exactly
      when all three do: the passthroughs throw only on a
      nullish dataset, which the items projection has already rejected. */
  lemma {:induction false} GenerateStages(data: JsVal, dir: string)
    ensures var r := Generate(data, dir);
            && (|r.written| > 0 <==> Items(data).Ok?)
            && (|r.written| > 1 <==> Items(data).Ok? && Blocks(data).Ok?)
            && (|r.written| > 2 <==> Items(data).Ok? && Blocks(data).Ok? && Entities(data).Ok?)
            && (r.exitCode == 0 <==> Items(data).Ok? && Blocks(data).Ok? && Entities(data).Ok?)
            && (|r.written| > 2 ==> |r.written| == 6)
  {
    var r := Generate(data, dir);
    var steps := Steps(data);
    var n := |r.written|;
    if Items(data).Ok? {
      assert steps[3].value.Ok? && steps[4].value.Ok? && steps[5].value.Ok?;
    }
    if n < 6 {
      assert steps[n].value.Err?;
    }
    if n > 0 {
      assert steps[0].value.Ok?;
    }
    if n > 1 {
      assert steps[1].value.Ok?;
    }
    if n > 2 {
      assert steps[2].value.Ok?;
    }
  }

  /** What each written file holds: the three record arrays, then the three
      passthroughs. */
  lemma {:induction false} GenerateContents(data: JsVal, dir: string)
    ensures var w := Generate(data, dir).written;
            && (|w| > 0 ==> w[0].contents == Arr(Items(data).value))
            && (|w| > 1 ==> w[1].contents == Arr(Blocks(data).value))
            && (|w| > 2 ==> w[2].contents == Arr(Entities(data).value))
            && (|w| == 6 ==>
                  && Passthrough(data, "materials") == Ok(w[3].contents)
                  && Passthrough(data, "language") == Ok(w[4].contents)
                  && Passthrough(data, "blockCollisionShapes") == Ok(w[5].contents))
  {
    var w := Generate(data, dir).written;
    var steps := Steps(data);
    if |w| > 0 {
      assert steps[0].value == Ok(w[0].contents);
    }
    if |w| > 1 {
      assert steps[1].value == Ok(w[1].contents);
    }
    if |w| > 2 {
      assert steps[2].value == Ok(w[2].contents);
    }
    if |w| == 6 {
      assert steps[3].value == Ok(w[3].contents);
      assert steps[4].value == Ok(w[4].contents);
      assert steps[5].value == Ok(w[5].contents);
    }
  }

  /** A whole run: `arg` is the command-line argument, `available` the
      supported-version list, `load` the dataset loader and `env` the
      `OUTPUT_DIR` variable. */
  function Run(arg: Option<string>, available: seq<string>, load: string -> JsVal,
               env: Option<string>): (r: RunOutcome)
    ensures Resolve(arg, available).Unsupported? ==> r == RunOutcome(1, None, [])
    ensures Resolve(arg, available).Supported? ==>
              r == Generate(load(Resolve(arg, available).version), OutputDir(env))
    ensures r.outputDir.None? <==> Resolve(arg, available).Unsupported?
    ensures r.exitCode == 0 <==>
              && Resolve(arg, available).Supported?
              && var data := load(Resolve(arg, available).version);
                 Items(data).Ok? && Blocks(data).Ok? && Entities(data).Ok?
    ensures NamedInOrder(r.written)
  {
    match Resolve(arg, available)
    case Unsupported(_, _) => RunOutcome(1, None, [])
    case Supported(version) =>
      GenerateStages(load(version), OutputDir(env));
      Generate(load(version), OutputDir(env))
  }

  /** An unsupported version ends the run with status 1 before the output
      directory is created or any file is written. */
  lemma {:induction false} UnsupportedWritesNothing(v: string, available: seq<string>,
                                                   load: string -> JsVal, env: Option<string>)
    requires v != "" && v !in available
    ensures var r := Run(Some(v), available, load, env);
            r.exitCode == 1 && r.outputDir.None? && r.written == []
  {
    ExplicitVersion(v, available);
  }

  /** A successful run writes all six files, and each of the three record
      files holds exactly one record per value of its source collection,
      the i-th record built from the i-th value. */
  lemma {:induction false} SuccessfulRunCardinality(arg: Option<string>, available: seq<string>,
                                                   load: string -> JsVal, env: Option<string>)
    requires Run(arg, available, load, env).exitCode == 0
    ensures var r := Run(arg, available, load, env);
            var data := load(Resolve(arg, available).version);
            && |r.written| == 6
            && r.written[0].contents.Arr?
            && RecordsOf(r.written[0].contents.elems, Field(data, "items"), ItemRecord)
            && r.written[1].contents.Arr?
            && RecordsOf(r.written[1].contents.elems, Field(data, "blocks"), BlockRecord)
            && r.written[2].contents.Arr?
            && RecordsOf(r.written[2].contents.elems, Field(data, "entities"), EntityRecord)
  {
    var data := load(Resolve(arg, available).version);
    GenerateContents(data, OutputDir(env));
  }

  /** With no requested version and a non-empty supported list, the version
      check passes and the latest version's dataset is loaded. */
  lemma {:induction false} DefaultRunLoadsLatest(available: seq<string>, load: string -> JsVal,
                                                env: Option<string>)
    requires available != []
    ensures Run(None, available, load, env) ==
              Generate(load(available[|available| - 1]), OutputDir(env))
  {
    LatestVersion(None, available);
  }

  /** A dataset without a `materials` entry yields the empty mapping in
      `materials.json`. */
  lemma {:induction false} MissingMaterialsWritesEmpty(data: JsVal, dir: string)
    requires data.Obj? && "materials" !in Keys(data.props)
    requires Generate(data, dir).exitCode == 0
    ensures Generate(data, dir).written[3] == FileWrite("materials.json", Obj([]))
  {
    LookupAbsent(data.props, "materials");
    GenerateContents(data, dir);
  }

  /** The minimal one-item dataset gives the single record
      `{id: 1, displayName: "Stick", name: "stick", stackSize: 64}`. */
  lemma {:induction false} StickItem()
    ensures ItemRecord(StickSource) == StickRecord
  {
    var item := StickSource;
    LookupAbsent(item.props, "stackSize");
    LookupAbsent(item.props, "maxDurability");
    LookupAbsent(item.props, "repairWith");
    LookupAbsent(item.props, "enchantCategories");
  }

  /** The item `{id: 1, name: "stick", displayName: "Stick"}`. */
  const StickSource: JsVal :=
    Obj([Prop("id", Num(1.0)), Prop("name", Str("stick")), Prop("displayName", Str("Stick"))])

  /** The record StickItem describes. */
  const StickRecord: JsVal :=
    Obj([Prop("id", Num(1.0)), Prop("displayName", Str("Stick")),
         Prop("name", Str("stick")), Prop("stackSize", Num(64.0))])

  /** A dataset whose `items` collection holds a single item projects to
      that item's record alone. */
  lemma {:induction false} SingleItem(data: JsVal, key: string, item: JsVal)
    requires data.Obj? && !Nullish(item)
    requires Field(data, "items") == Obj([Prop(key, item)])
    ensures Items(data) == Ok([ItemRecord(item)])
  {
    var values := ValuesOf(Field(data, "items")).value;
    assert |values| == 1 && values[0] == item;
    var items := MapRecords(values, ItemRecord);
    assert items.Ok? && |items.value| == 1 && items.value[0] == ItemRecord(item);
    assert items.value == [ItemRecord(item)];
  }

  /** For such a dataset without a `blocks` collection, `items.json` is
      written with exactly the one record, and the run then stops with
      status 1, because reading the missing collection throws. */
  lemma {:induction false} StickDataset(data: JsVal, key: string, dir: string)
    requires data.Obj? && "blocks" !in Keys(data.props)
    requires Field(data, "items") == Obj([Prop(key, StickSource)])
    ensures var r := Generate(data, dir);
            && r.exitCode == 1
            && r.written == [FileWrite("items.json", Arr([StickRecord]))]
  {
    SingleItem(data, key, StickSource);
    StickItem();
    LookupAbsent(data.props, "blocks");
    assert Blocks(data).Err?;
    GenerateContents(data, dir);
  }
}
