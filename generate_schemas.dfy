/**
 The schema-generation run (src/scripts/generate-schemas.ts): for every
 dataset folder, gather the sample records, hand them to the schema
 inferrer, stamp the draft-07 identifier on the result and write
 `schemas/<folder>.json`.
 */
module GenerateSchemas {
  import opened Json
  import opened Files

  const Draft07: string := "http://json-schema.org/draft-07/schema#"

  // ---------------------------------------------------------------------
  // readAllJsonFiles

  /** `typeof v === 'object'`, which is also true of null. */
  predicate TypeofObject(v: JsonValue) {
    v.JNull? || v.JArray? || v.JObject?
  }

  /** The records one parsed file adds: an array all its elements, a truthy object itself, anything else nothing. */
  function Samples(json: JsonValue): seq<JsonValue> {
    if json.JArray? then json.items
    else if Truthy(json) && TypeofObject(json) then [json]
    else []
  }

  /** What one listed entry adds; reading a `.json` entry that cannot be read throws. */
  function EntrySamples(file: FileEntry): Result<seq<JsonValue>> {
    if !EndsWith(file.name, ".json") then Ok([])
    else
      match file.content
      case Unreadable => Fatal(file.name)
      case Malformed => Ok([])
      case Parsed(json) => Ok(Samples(json))
  }

  /** Sequencing two steps that may throw: the first exception wins, otherwise the outputs are concatenated. */
  function Then(a: Result<seq<JsonValue>>, b: Result<seq<JsonValue>>): Result<seq<JsonValue>> {
    match a
    case Fatal(n) => Fatal(n)
    case Ok(x) =>
      match b
      case Fatal(m) => Fatal(m)
      case Ok(y) => Ok(x + y)
  }

  /** The records of a listing: file order, then order within each file. */
  function Records(files: seq<FileEntry>): Result<seq<JsonValue>> {
    if |files| == 0 then Ok([])
    else Then(Records(files[..|files| - 1]), EntrySamples(files[|files| - 1]))
  }

  function FolderRecords(dir: Folder): Result<seq<JsonValue>> {
    match dir.listing
    case Missing => Fatal(dir.name)
    case Listed(files) => Records(files)
  }

  /** `readAllJsonFiles`: the loop that pushes every file's records onto `all`. */
  method ReadAllJsonFiles(dir: Folder) returns (r: Result<seq<JsonValue>>)
    ensures r == FolderRecords(dir)
  {
    if dir.listing.Missing? {
      return Fatal(dir.name);
    }
    var files := dir.listing.entries;
    var all: seq<JsonValue> := [];
    for i := 0 to |files|
      invariant Records(files[..i]) == Ok(all)
    {
      var file := files[i];
      assert files[..i + 1][..i] == files[..i];
      assert Records(files[..i + 1]) == Then(Records(files[..i]), EntrySamples(file));
      assert all + [] == all;
      if !EndsWith(file.name, ".json") {
        continue;
      }
      match file.content {
        case Unreadable =>
          RecordsAppend(files[..i + 1], files[i + 1..]);
          assert files[..i + 1] + files[i + 1..] == files;
          return Fatal(file.name);
        case Malformed =>
        case Parsed(json) =>
          if json.JArray? {
            all := all + json.items;
          } else if Truthy(json) && TypeofObject(json) {
            all := all + [json];
          }
      }
    }
    assert files[..|files|] == files;
    return Ok(all);
  }

  /** Reading two listings one after the other: records in order, or the first exception. */
  lemma {:induction false} RecordsAppend(a: seq<FileEntry>, b: seq<FileEntry>)
    ensures Records(a + b) == Then(Records(a), Records(b))
    decreases |b|
  {
    if |b| == 0 {
      assert a + b == a;
      if Records(a).Ok? {
        assert Records(a).value + [] == Records(a).value;
      }
    } else {
      var b' := b[..|b| - 1];
      assert (a + b)[..|a + b| - 1] == a + b';
      assert (a + b)[|a + b| - 1] == b[|b| - 1];
      assert Records(b) == Then(Records(b'), EntrySamples(b[|b| - 1]));
      RecordsAppend(a, b');
      ThenAssociative(Records(a), Records(b'), EntrySamples(b[|b| - 1]));
    }
  }

  lemma ThenAssociative(x: Result<seq<JsonValue>>, y: Result<seq<JsonValue>>, z: Result<seq<JsonValue>>)
    ensures Then(Then(x, y), z) == Then(x, Then(y, z))
  {
    if x.Ok? && y.Ok? && z.Ok? {
      assert (x.value + y.value) + z.value == x.value + (y.value + z.value);
    }
  }

  /** One `.json` file contributes the elements of a top-level array, a top-level object, or nothing. */
  lemma SingleFileRecords(file: FileEntry)
    requires EndsWith(file.name, ".json") && file.content.Parsed?
    ensures file.content.value.JArray? ==> Records([file]) == Ok(file.content.value.items)
    ensures file.content.value.JObject? ==> Records([file]) == Ok([file.content.value])
    ensures !file.content.value.JArray? && !file.content.value.JObject? ==> Records([file]) == Ok([])
  {
    assert [file][..0] == [];
    assert Records([file]) == Then(Ok([]), EntrySamples(file));
    assert [] + Samples(file.content.value) == Samples(file.content.value);
  }

  /** The run gets past a listing exactly when no `.json` entry of it is unreadable. */
  lemma {:induction false} RecordsOk(files: seq<FileEntry>)
    ensures Records(files).Ok? <==>
      forall i :: 0 <= i < |files| && EndsWith(files[i].name, ".json") ==> files[i].content != Unreadable
  {
    if |files| > 0 {
      var init := files[..|files| - 1];
      RecordsOk(init);
      assert forall i :: 0 <= i < |init| ==> init[i] == files[i];
    }
  }

  /** x is a top-level object of a parsed `.json` file, or an element of a top-level array of one. */
  predicate Contributes(file: FileEntry, x: JsonValue) {
    && EndsWith(file.name, ".json")
    && file.content.Parsed?
    && ((file.content.value.JArray? && x in file.content.value.items)
        || (file.content.value.JObject? && x == file.content.value))
  }

  /** The records are exactly what the `.json` files contribute; scalars, null and unparsable files add nothing. */
  lemma {:induction false} RecordsMembers(files: seq<FileEntry>, x: JsonValue)
    requires Records(files).Ok?
    ensures x in Records(files).value <==> exists i :: 0 <= i < |files| && Contributes(files[i], x)
  {
    if |files| > 0 {
      var init := files[..|files| - 1];
      var last := files[|files| - 1];
      RecordsMembers(init, x);
      assert forall i :: 0 <= i < |init| ==> init[i] == files[i];
      assert x in EntrySamples(last).value <==> Contributes(last, x);
      if x in Records(files).value && x !in Records(init).value {
        assert Contributes(files[|files| - 1], x);
      }
    }
  }

  // ---------------------------------------------------------------------
  // formatSchemaForValidation

  /**
   `target.$schema = Draft07` in strict-mode code. An object gains the
   property, or has it overwritten where it stands. On an array the
   assignment succeeds but JSON.stringify never shows it. On null or a
   primitive it throws a TypeError (None).
   */
  function SetSchemaProperty(target: JsonValue): (r: Option<JsonValue>)
    ensures r.None? <==> !(target.JObject? || target.JArray?)
    ensures target.JArray? ==> r == Some(target)
    ensures target.JObject? ==> r.Some? && r.value.JObject?
    ensures target.JObject? ==> Lookup(r.value.fields, "$schema") == Some(JString(Draft07))
    ensures target.JObject? ==> forall k :: k != "$schema" ==> Lookup(r.value.fields, k) == Lookup(target.fields, k)
  {
    match target
    case JObject(fields) => Some(JObject(Assign(fields, "$schema", JString(Draft07))))
    case JArray(_) => Some(target)
    case _ => None
  }

  lemma SetSchemaPropertyIdempotent(target: JsonValue)
    requires SetSchemaProperty(target).Some?
    ensures SetSchemaProperty(SetSchemaProperty(target).value) == SetSchemaProperty(target)
  {
    if target.JObject? {
      AssignIdempotent(target.fields, "$schema", JString(Draft07));
    }
  }

  /** The single definition, when `definitions` is truthy, of object type and has exactly one key. */
  function SoleDefinition(defs: JsonValue): (r: Option<JsonValue>)
    ensures r.Some? <==> (defs.JObject? && |defs.fields| == 1) || (defs.JArray? && |defs.items| == 1)
    ensures defs.JObject? && |defs.fields| == 1 ==> r == Some(defs.fields[0].1)
    ensures defs.JArray? && |defs.items| == 1 ==> r == Some(defs.items[0])
  {
    if !(Truthy(defs) && TypeofObject(defs)) then None
    else
      match defs
      case JObject(fields) => if |fields| == 1 then Some(fields[0].1) else None
      case JArray(items) => if |items| == 1 then Some(items[0]) else None
      case _ => None
  }

  /** `definitions` with its single definition replaced, under the same key. */
  function WithSoleDefinition(defs: JsonValue, def: JsonValue): (r: JsonValue)
    requires SoleDefinition(defs).Some?
    ensures SoleDefinition(r) == Some(def)
  {
    match defs
    case JObject(fields) => JObject([(fields[0].0, def)])
    case JArray(_) => JArray([def])
  }

  /**
   Lines 58-64 on the root's properties: when `definitions` holds exactly one
   definition, `$schema` is set on it, in place; otherwise nothing changes.
   None when that assignment throws.
   */
  function StampDefinitions(root: seq<(string, JsonValue)>): (r: Option<seq<(string, JsonValue)>>)
    ensures r.Some? ==> Keys(r.value) == Keys(root)
    ensures r.Some? ==> forall k :: k != "definitions" ==> Lookup(r.value, k) == Lookup(root, k)
  {
    match Lookup(root, "definitions")
    case None => Some(root)
    case Some(defs) =>
      match SoleDefinition(defs)
      case None => Some(root)
      case Some(def) =>
        match SetSchemaProperty(def)
        case None => None
        case Some(stamped) => Some(Assign(root, "definitions", WithSoleDefinition(defs, stamped)))
  }

  /** `definitions` holds exactly one definition, and it is null or a primitive, on which setting `$schema` throws. */
  predicate SoleDefinitionThrows(root: seq<(string, JsonValue)>) {
    match Lookup(root, "definitions")
    case None => false
    case Some(defs) =>
      SoleDefinition(defs).Some? && !(SoleDefinition(defs).value.JObject? || SoleDefinition(defs).value.JArray?)
  }

  /**
   The tree `formatSchemaForValidation` serialises: `$schema` set on the
   root, and on the sole definition when there is exactly one; the
   definitions stay where they are. None when an assignment throws.
   */
  function StampSchema(schema: JsonValue): (r: Option<JsonValue>)
    ensures schema.JArray? ==> r == Some(schema)
    ensures !(schema.JObject? || schema.JArray?) ==> r.None?
    ensures schema.JObject? && r.Some? ==> r.value.JObject?
    ensures schema.JObject? && r.Some? ==> Lookup(r.value.fields, "$schema") == Some(JString(Draft07))
    ensures schema.JObject? && r.Some? ==>
      forall k :: k != "$schema" && k != "definitions" ==> Lookup(r.value.fields, k) == Lookup(schema.fields, k)
    ensures schema.JObject? && r.Some? ==>
      Keys(r.value.fields) == Keys(Assign(schema.fields, "$schema", JString(Draft07)))
    ensures schema.JObject? ==> (r.None? <==> SoleDefinitionThrows(schema.fields))
  {
    match SetSchemaProperty(schema)
    case None => None
    case Some(root) =>
      if !root.JObject? then Some(root)
      else
        match StampDefinitions(root.fields)
        case None => None
        case Some(fields) => Some(JObject(fields))
  }

  /** With exactly one definition, that definition is stamped too, and stays under its key in `definitions`. */
  lemma StampSoleDefinition(schema: JsonValue, name: string, def: JsonValue)
    requires schema.JObject? && def.JObject?
    requires Lookup(schema.fields, "definitions") == Some(JObject([(name, def)]))
    ensures StampSchema(schema).Some?
    ensures var r := StampSchema(schema).value;
      exists stamped: JsonValue ::
        && Lookup(r.fields, "definitions") == Some(JObject([(name, stamped)]))
        && stamped.JObject?
        && Lookup(stamped.fields, "$schema") == Some(JString(Draft07))
        && forall k :: k != "$schema" ==> Lookup(stamped.fields, k) == Lookup(def.fields, k)
  {
    var root := SetSchemaProperty(schema).value;
    var defs := JObject([(name, def)]);
    assert Lookup(root.fields, "definitions") == Some(defs);
    assert SoleDefinition(defs) == Some(def);
    var stamped := SetSchemaProperty(def).value;
    assert WithSoleDefinition(defs, stamped) == JObject([(name, stamped)]);
    var fields := Assign(root.fields, "definitions", JObject([(name, stamped)]));
    assert StampDefinitions(root.fields) == Some(fields);
    assert Lookup(fields, "definitions") == Some(JObject([(name, stamped)]));
  }

  /** With `definitions` an array of one object, that object is stamped in place, as element 0. */
  lemma StampSoleArrayDefinition(schema: JsonValue, def: JsonValue)
    requires schema.JObject? && def.JObject?
    requires Lookup(schema.fields, "definitions") == Some(JArray([def]))
    ensures StampSchema(schema).Some?
    ensures var r := StampSchema(schema).value;
      exists stamped: JsonValue ::
        && Lookup(r.fields, "definitions") == Some(JArray([stamped]))
        && stamped.JObject?
        && Lookup(stamped.fields, "$schema") == Some(JString(Draft07))
        && forall k :: k != "$schema" ==> Lookup(stamped.fields, k) == Lookup(def.fields, k)
  {
    var root := SetSchemaProperty(schema).value;
    var defs := JArray([def]);
    assert Lookup(root.fields, "definitions") == Some(defs);
    assert SoleDefinition(defs) == Some(def);
    var stamped := SetSchemaProperty(def).value;
    assert WithSoleDefinition(defs, stamped) == JArray([stamped]);
    var fields := Assign(root.fields, "definitions", JArray([stamped]));
    assert StampDefinitions(root.fields) == Some(fields);
    assert Lookup(fields, "definitions") == Some(JArray([stamped]));
  }

  /** Unless there is exactly one definition, `definitions` is left as it was. */
  lemma DefinitionsUntouched(schema: JsonValue)
    requires schema.JObject?
    requires match Lookup(schema.fields, "definitions") case None => true case Some(defs) => SoleDefinition(defs).None?
    ensures StampSchema(schema).Some?
    ensures Lookup(StampSchema(schema).value.fields, "definitions") == Lookup(schema.fields, "definitions")
  {
    var root := SetSchemaProperty(schema).value;
    assert Lookup(root.fields, "definitions") == Lookup(schema.fields, "definitions");
  }

  lemma StampDefinitionsIdempotent(root: seq<(string, JsonValue)>)
    requires StampDefinitions(root).Some?
    ensures StampDefinitions(StampDefinitions(root).value) == StampDefinitions(root)
  {
    var defs := Lookup(root, "definitions");
    if defs.Some? && SoleDefinition(defs.value).Some? {
      var def := SoleDefinition(defs.value).value;
      var stamped := SetSchemaProperty(def).value;
      var w := WithSoleDefinition(defs.value, stamped);
      var b := Assign(root, "definitions", w);
      assert StampDefinitions(root) == Some(b);
      assert Lookup(b, "definitions") == Some(w);
      assert SoleDefinition(w) == Some(stamped);
      SetSchemaPropertyIdempotent(def);
      assert WithSoleDefinition(w, stamped) == w;
      AssignIdempotent(root, "definitions", w);
    }
  }

  /** Stamping the definitions leaves an already stamped `$schema` property as it is. */
  lemma StampDefinitionsKeepsSchema(root: seq<(string, JsonValue)>)
    requires "$schema" in Keys(root) && Overwrite(root, "$schema", JString(Draft07)) == root
    requires StampDefinitions(root).Some?
    ensures Assign(StampDefinitions(root).value, "$schema", JString(Draft07)) == StampDefinitions(root).value
  {
    var defs := Lookup(root, "definitions");
    if defs.Some? && SoleDefinition(defs.value).Some? {
      var def := SoleDefinition(defs.value).value;
      var w := WithSoleDefinition(defs.value, SetSchemaProperty(def).value);
      assert StampDefinitions(root) == Some(Overwrite(root, "definitions", w));
      OverwriteCommute(root, "definitions", w, "$schema", JString(Draft07));
    }
  }

  /** Stamping an already stamped schema changes nothing. */
  lemma StampSchemaIdempotent(schema: JsonValue)
    requires StampSchema(schema).Some?
    ensures StampSchema(StampSchema(schema).value) == StampSchema(schema)
  {
    if schema.JObject? {
      var a := Assign(schema.fields, "$schema", JString(Draft07));
      AssignIdempotent(schema.fields, "$schema", JString(Draft07));
      assert "$schema" in Keys(a);
      var b := StampDefinitions(a).value;
      assert StampSchema(schema) == Some(JObject(b));
      StampDefinitionsKeepsSchema(a);
      assert SetSchemaProperty(JObject(b)) == Some(JObject(b));
      StampDefinitionsIdempotent(a);
    }
  }

  /**
   `formatSchemaForValidation`: parse the inferred schema text, stamp it and
   pretty-print it; None when parsing or an assignment throws. `parse` is
   JSON.parse, `pretty` is `JSON.stringify(_, null, 2)`.
   */
  function FormatSchemaForValidation(
    rawSchema: string, parse: string -> Option<JsonValue>, pretty: JsonValue -> string): Option<string>
  {
    match parse(rawSchema)
    case None => None
    case Some(schemaObj) =>
      match StampSchema(schemaObj)
      case None => None
      case Some(stamped) => Some(pretty(stamped))
  }

  /**
   When the stamped schema survives printing and parsing, formatting the
   formatted text gives it back unchanged.
   */
  lemma FormatIdempotent(rawSchema: string, parse: string -> Option<JsonValue>, pretty: JsonValue -> string)
    requires FormatSchemaForValidation(rawSchema, parse, pretty).Some?
    requires var stamped := StampSchema(parse(rawSchema).value).value; parse(pretty(stamped)) == Some(stamped)
    ensures var once := FormatSchemaForValidation(rawSchema, parse, pretty).value;
      FormatSchemaForValidation(once, parse, pretty) == Some(once)
  {
    var stamped := StampSchema(parse(rawSchema).value).value;
    assert parse(pretty(stamped)) == Some(stamped);
    StampSchemaIdempotent(parse(rawSchema).value);
  }

  // ---------------------------------------------------------------------
  // generateSchemasForAllFolders

  datatype SchemaWrite = SchemaWrite(file: string, text: string)

  /** The run so far: files written, and whether it is still going. */
  datatype SchemaRun = SchemaRun(writes: seq<SchemaWrite>, completed: bool)

  /**
   What one folder yields: None when it has no records (skipped), otherwise
   `<folder>.json` holding the formatted schema, or the raw inferred text
   when formatting throws. `infer` is the quicktype call; None when it throws.
   */
  function FolderSchema(
    dir: Folder, infer: (string, seq<JsonValue>) -> Option<string>,
    parse: string -> Option<JsonValue>, pretty: JsonValue -> string): Result<Option<SchemaWrite>>
  {
    match FolderRecords(dir)
    case Fatal(n) => Fatal(n)
    case Ok(items) =>
      if |items| == 0 then Ok(None)
      else
        match infer(dir.name, items)
        case None => Fatal(dir.name)
        case Some(raw) =>
          Ok(Some(SchemaWrite(dir.name + ".json",
            match FormatSchemaForValidation(raw, parse, pretty)
            case Some(formatted) => formatted + "\n"
            case None => raw + "\n")))
  }

  /** The folder reads without an exception and has at least one record. */
  predicate HasRecords(dir: Folder) {
    FolderRecords(dir).Ok? && FolderRecords(dir).value != []
  }

  /**
   A folder without records is skipped; a failure to read it or to infer its
   schema is fatal; otherwise `<folder>.json` is written with the formatted
   schema, or with the raw inferred text when formatting throws.
   */
  lemma FolderSchemaFacts(
    dir: Folder, infer: (string, seq<JsonValue>) -> Option<string>,
    parse: string -> Option<JsonValue>, pretty: JsonValue -> string)
    ensures var r := FolderSchema(dir, infer, parse, pretty);
      && (FolderRecords(dir) == Ok([]) ==> r == Ok(None))
      && (FolderRecords(dir).Fatal? ==> r.Fatal?)
      && (HasRecords(dir) ==> (r.Fatal? <==> infer(dir.name, FolderRecords(dir).value).None?))
      && (HasRecords(dir) && r.Ok? ==> r.value.Some?)
      && (r.Ok? && r.value.Some? ==>
           && FolderRecords(dir).Ok? && FolderRecords(dir).value != []
           && infer(dir.name, FolderRecords(dir).value).Some?
           && var raw := infer(dir.name, FolderRecords(dir).value).value;
              r.value.value == SchemaWrite(dir.name + ".json",
                match FormatSchemaForValidation(raw, parse, pretty)
                case Some(formatted) => formatted + "\n"
                case None => raw + "\n"))
  {
  }

  /** The run over the first |folders| folders; the first exception ends it. */
  function GenerateRun(
    folders: seq<Folder>, infer: (string, seq<JsonValue>) -> Option<string>,
    parse: string -> Option<JsonValue>, pretty: JsonValue -> string): SchemaRun
  {
    if |folders| == 0 then SchemaRun([], true)
    else
      var prev := GenerateRun(folders[..|folders| - 1], infer, parse, pretty);
      if !prev.completed then prev
      else
        match FolderSchema(folders[|folders| - 1], infer, parse, pretty)
        case Fatal(_) => SchemaRun(prev.writes, false)
        case Ok(None) => prev
        case Ok(Some(w)) => SchemaRun(prev.writes + [w], true)
  }

  lemma {:induction false} GenerateRunStops(
    folders: seq<Folder>, n: nat, infer: (string, seq<JsonValue>) -> Option<string>,
    parse: string -> Option<JsonValue>, pretty: JsonValue -> string)
    requires n <= |folders|
    requires !GenerateRun(folders[..n], infer, parse, pretty).completed
    ensures GenerateRun(folders, infer, parse, pretty) == GenerateRun(folders[..n], infer, parse, pretty)
    decreases |folders| - n
  {
    if n == |folders| {
      assert folders[..n] == folders;
    } else {
      assert folders[..n + 1][..n] == folders[..n];
      GenerateRunStops(folders, n + 1, infer, parse, pretty);
    }
  }

  /**
   `generateSchemasForAllFolders`. Returns the files written, in order, and
   whether the run completed; an exception ends the run after the files
   already written.
   */
  method GenerateSchemasForAllFolders(
    root: seq<RootEntry>, infer: (string, seq<JsonValue>) -> Option<string>,
    parse: string -> Option<JsonValue>, pretty: JsonValue -> string)
    returns (writes: seq<SchemaWrite>, completed: bool)
    ensures SchemaRun(writes, completed) == GenerateRun(DataFolders(root), infer, parse, pretty)
  {
    var folders := DataFolders(root);
    writes := [];
    for i := 0 to |folders|
      invariant GenerateRun(folders[..i], infer, parse, pretty) == SchemaRun(writes, true)
    {
      var folder := folders[i];
      assert folders[..i + 1][..i] == folders[..i];
      var items := ReadAllJsonFiles(folder);
      if items.Fatal? {
        GenerateRunStops(folders, i + 1, infer, parse, pretty);
        return writes, false;
      }
      if |items.value| == 0 {
        continue;
      }
      var rawSchema := infer(folder.name, items.value);
      if rawSchema.None? {
        GenerateRunStops(folders, i + 1, infer, parse, pretty);
        return writes, false;
      }
      var outputFile := folder.name + ".json";
      var schemaObj := FormatSchemaForValidation(rawSchema.value, parse, pretty);
      if schemaObj.Some? {
        writes := writes + [SchemaWrite(outputFile, schemaObj.value + "\n")];
        continue;
      }
      writes := writes + [SchemaWrite(outputFile, rawSchema.value + "\n")];
    }
    assert folders[..|folders|] == folders;
    completed := true;
  }

  /** Folder i yields the schema file w. */
  predicate WrittenFor(
    folders: seq<Folder>, i: int, infer: (string, seq<JsonValue>) -> Option<string>,
    parse: string -> Option<JsonValue>, pretty: JsonValue -> string, w: SchemaWrite)
  {
    0 <= i < |folders| && FolderSchema(folders[i], infer, parse, pretty) == Ok(Some(w))
  }

  /** One step of a completed run: the folder's schema file, if any, is appended. */
  lemma GenerateStep(
    folders: seq<Folder>, infer: (string, seq<JsonValue>) -> Option<string>,
    parse: string -> Option<JsonValue>, pretty: JsonValue -> string)
    requires |folders| > 0 && GenerateRun(folders, infer, parse, pretty).completed
    ensures var prev := GenerateRun(folders[..|folders| - 1], infer, parse, pretty);
      var r := FolderSchema(folders[|folders| - 1], infer, parse, pretty);
      && prev.completed && r.Ok?
      && (r.value.Some? ==> GenerateRun(folders, infer, parse, pretty).writes == prev.writes + [r.value.value])
      && (r.value.None? ==> GenerateRun(folders, infer, parse, pretty).writes == prev.writes)
  {
  }

  /**
   In a completed run, every folder with records yields its `<folder>.json`
   schema file, and that file is written.
   */
  lemma {:induction false} FolderSchemaWritten(
    folders: seq<Folder>, infer: (string, seq<JsonValue>) -> Option<string>,
    parse: string -> Option<JsonValue>, pretty: JsonValue -> string, i: nat)
    requires GenerateRun(folders, infer, parse, pretty).completed
    requires i < |folders| && HasRecords(folders[i])
    ensures exists w ::
      && WrittenFor(folders, i, infer, parse, pretty, w)
      && w.file == folders[i].name + ".json"
      && w in GenerateRun(folders, infer, parse, pretty).writes
  {
    var last := |folders| - 1;
    GenerateStep(folders, infer, parse, pretty);
    if i < last {
      assert folders[..last][i] == folders[i];
      FolderSchemaWritten(folders[..last], infer, parse, pretty, i);
      var w :|
        && WrittenFor(folders[..last], i, infer, parse, pretty, w)
        && w.file == folders[i].name + ".json"
        && w in GenerateRun(folders[..last], infer, parse, pretty).writes;
      assert WrittenFor(folders, i, infer, parse, pretty, w);
    } else {
      assert i == last;
      FolderSchemaFacts(folders[i], infer, parse, pretty);
      var w := FolderSchema(folders[i], infer, parse, pretty).value.value;
      assert WrittenFor(folders, i, infer, parse, pretty, w);
    }
  }

  /** The schema file a folder yields is written. */
  lemma {:induction false} WriteIsFolderSchema(
    folders: seq<Folder>, infer: (string, seq<JsonValue>) -> Option<string>,
    parse: string -> Option<JsonValue>, pretty: JsonValue -> string, i: nat, w: SchemaWrite)
    requires GenerateRun(folders, infer, parse, pretty).completed
    requires WrittenFor(folders, i, infer, parse, pretty, w)
    ensures w in GenerateRun(folders, infer, parse, pretty).writes
  {
    var last := |folders| - 1;
    GenerateStep(folders, infer, parse, pretty);
    if i < last {
      assert folders[..last][i] == folders[i];
      WriteIsFolderSchema(folders[..last], infer, parse, pretty, i, w);
    } else {
      assert i == last;
    }
  }

  /**
   One step of any run, completed or not: the writes stay as they were, or
   the run so far completed and the folder's schema file is appended.
   */
  lemma WritesGrow(
    folders: seq<Folder>, infer: (string, seq<JsonValue>) -> Option<string>,
    parse: string -> Option<JsonValue>, pretty: JsonValue -> string)
    requires |folders| > 0
    ensures var prev := GenerateRun(folders[..|folders| - 1], infer, parse, pretty);
      var r := FolderSchema(folders[|folders| - 1], infer, parse, pretty);
      var after := GenerateRun(folders, infer, parse, pretty).writes;
      || after == prev.writes
      || (prev.completed && r.Ok? && r.value.Some? && after == prev.writes + [r.value.value])
  {
  }

  /** Every file written, by a completed or an aborted run, is the schema file of some folder. */
  lemma {:induction false} WriteComesFromFolder(
    folders: seq<Folder>, infer: (string, seq<JsonValue>) -> Option<string>,
    parse: string -> Option<JsonValue>, pretty: JsonValue -> string, w: SchemaWrite)
    returns (i: nat)
    requires w in GenerateRun(folders, infer, parse, pretty).writes
    ensures WrittenFor(folders, i, infer, parse, pretty, w)
  {
    var last := |folders| - 1;
    WritesGrow(folders, infer, parse, pretty);
    if GenerateRun(folders[..last], infer, parse, pretty).completed
      && FolderSchema(folders[last], infer, parse, pretty) == Ok(Some(w))
    {
      i := last;
    } else {
      i := WriteComesFromFolder(folders[..last], infer, parse, pretty, w);
      assert folders[..last][i] == folders[i];
    }
  }


  /**
   A completed run writes exactly the schema files its folders yield: each
   written file is `<folder>.json` of a folder with records, and every folder
   with records has its file written.
   */
  lemma WritesExactlyNonEmptyFolders(
    folders: seq<Folder>, infer: (string, seq<JsonValue>) -> Option<string>,
    parse: string -> Option<JsonValue>, pretty: JsonValue -> string, w: SchemaWrite)
    requires GenerateRun(folders, infer, parse, pretty).completed
    ensures w in GenerateRun(folders, infer, parse, pretty).writes <==>
      exists i :: WrittenFor(folders, i, infer, parse, pretty, w)
    ensures w in GenerateRun(folders, infer, parse, pretty).writes ==>
      exists i :: 0 <= i < |folders| && HasRecords(folders[i]) && w.file == folders[i].name + ".json"
    ensures forall i :: 0 <= i < |folders| && HasRecords(folders[i]) ==>
      exists v :: v in GenerateRun(folders, infer, parse, pretty).writes && v.file == folders[i].name + ".json"
  {
    if w in GenerateRun(folders, infer, parse, pretty).writes {
      var i := WriteComesFromFolder(folders, infer, parse, pretty, w);
      FolderSchemaFacts(folders[i], infer, parse, pretty);
    }
    if exists i :: WrittenFor(folders, i, infer, parse, pretty, w) {
      var i :| WrittenFor(folders, i, infer, parse, pretty, w);
      WriteIsFolderSchema(folders, infer, parse, pretty, i, w);
    }
    forall i | 0 <= i < |folders| && HasRecords(folders[i])
      ensures exists v :: v in GenerateRun(folders, infer, parse, pretty).writes && v.file == folders[i].name + ".json"
    {
      FolderSchemaWritten(folders, infer, parse, pretty, i);
    }
  }

  /** A folder without records gets no schema file, even if another folder's file name is close to its own. */
  lemma EmptyFolderNoSchema(
    folders: seq<Folder>, infer: (string, seq<JsonValue>) -> Option<string>,
    parse: string -> Option<JsonValue>, pretty: JsonValue -> string, i: nat)
    requires forall a, b :: 0 <= a < b < |folders| ==> folders[a].name != folders[b].name
    requires i < |folders| && FolderRecords(folders[i]) == Ok([])
    ensures forall w :: w in GenerateRun(folders, infer, parse, pretty).writes ==> w.file != folders[i].name + ".json"
  {
    forall w | w in GenerateRun(folders, infer, parse, pretty).writes
      ensures w.file != folders[i].name + ".json"
    {
      var j := WriteComesFromFolder(folders, infer, parse, pretty, w);
      FolderSchemaFacts(folders[i], infer, parse, pretty);
      FolderSchemaFacts(folders[j], infer, parse, pretty);
      assert j != i;
      JsonNameInjective(folders[i].name, folders[j].name);
    }
  }
}
