/**
 `validate-json`: every record of every dataset folder is checked against
 the schema `schemas/<folder>.json`. The process exits with status 1 when
 some record fails its schema or a schema does not compile, and with 0
 otherwise. The schema compiler and the validator (Ajv with `allErrors`)
 are parameters: `compiles(schema)` says whether `ajv.compile` returns,
 and `validator(schema, item)` is the error list of one validation, empty
 exactly when the item is valid.
 */
module ValidateJson {
  import opened Json
  import opened Files

  /** One Ajv error: the JSON pointer of the offending value and the message. */
  datatype ValidationError = ValidationError(instancePath: string, message: string)

  /** What the script writes to the console, one entry per line, in order. */
  datatype Line =
    | SchemaNotFound(folder: string)
    | FailedToProcess(folder: string, file: string)
    | ValidatedCount(folder: string, count: nat)
    | NoDataDirectory(folder: string)
    | ValidationErrorsIn(folder: string, file: string)
    | ErrorDetail(instancePath: string, message: string)
    | Uncaught(folder: string)
    | Completed

  /** The file names `loadJsonFiles` reads: `*.json`, except `schema.json`. */
  predicate Considered(name: string) {
    EndsWith(name, ".json") && name != "schema.json"
  }

  /** `files.filter(...)`: the considered entries, in listing order. */
  function ConsideredFiles(entries: seq<FileEntry>): seq<FileEntry> {
    if |entries| == 0 then []
    else (if Considered(entries[0].name) then [entries[0]] else []) + ConsideredFiles(entries[1..])
  }

  /** The considered files are exactly the listed ones ending in `.json` and not named `schema.json`. */
  lemma {:induction false} ConsideredFilesMembers(entries: seq<FileEntry>)
    ensures forall e :: e in ConsideredFiles(entries) <==> e in entries && Considered(e.name)
    ensures |ConsideredFiles(entries)| <= |entries|
  {
    if |entries| > 0 {
      ConsideredFilesMembers(entries[1..]);
      assert entries == [entries[0]] + entries[1..];
    }
  }

  /** Filtering the concatenation of two listings keeps the order of both parts. */
  lemma {:induction false} ConsideredFilesConcat(a: seq<FileEntry>, b: seq<FileEntry>)
    ensures ConsideredFiles(a + b) == ConsideredFiles(a) + ConsideredFiles(b)
  {
    if |a| == 0 {
      assert a + b == b;
    } else {
      var head := if Considered(a[0].name) then [a[0]] else [];
      assert (a + b)[0] == a[0];
      assert (a + b)[1..] == a[1..] + b;
      assert ConsideredFiles(a + b) == head + ConsideredFiles(a[1..] + b);
      ConsideredFilesConcat(a[1..], b);
      assert ConsideredFiles(a) == head + ConsideredFiles(a[1..]);
    }
  }

  /** A parsed file is a list of records: an array as it is, anything else as a single record. */
  function AsList(v: JsonValue): seq<JsonValue> {
    if v.JArray? then v.items else [v]
  }

  datatype FileData = FileData(file: string, data: seq<JsonValue>)

  /** The files loaded so far and the lines printed while loading them. */
  datatype Load = Load(files: seq<FileData>, log: seq<Line>)

  /** File i loads as fd: it parses, and fd holds its name and its records. */
  predicate LoadsAs(files: seq<FileEntry>, i: int, fd: FileData) {
    0 <= i < |files| && files[i].content.Parsed?
    && fd == FileData(files[i].name, AsList(files[i].content.value))
  }

  /** The loop of `loadJsonFiles` over the considered files: a file that fails is reported and omitted. */
  function LoadFiles(folder: string, files: seq<FileEntry>): Load {
    if |files| == 0 then Load([], [])
    else
      var prev := LoadFiles(folder, files[..|files| - 1]);
      var file := files[|files| - 1];
      match file.content
      case Parsed(v) => Load(prev.files + [FileData(file.name, AsList(v))], prev.log)
      case _ => Load(prev.files, prev.log + [FailedToProcess(folder, file.name)])
  }

  /** `loadJsonFiles(folder)`: an unlistable data directory gives no files and a warning. */
  function LoadJsonFilesOf(folder: string, listing: Listing): Load {
    match listing
    case Missing => Load([], [NoDataDirectory(folder)])
    case Listed(entries) =>
      var l := LoadFiles(folder, ConsideredFiles(entries));
      Load(l.files, l.log + [ValidatedCount(folder, |l.files|)])
  }

  method LoadJsonFiles(folder: string, listing: Listing) returns (files: seq<FileData>, log: seq<Line>)
    ensures Load(files, log) == LoadJsonFilesOf(folder, listing)
  {
    if listing.Missing? {
      return [], [NoDataDirectory(folder)];
    }
    var jsonFiles := ConsideredFiles(listing.entries);
    files, log := [], [];
    for i := 0 to |jsonFiles|
      invariant LoadFiles(folder, jsonFiles[..i]) == Load(files, log)
    {
      assert jsonFiles[..i + 1][..i] == jsonFiles[..i];
      var file := jsonFiles[i];
      match file.content {
        case Parsed(v) =>
          files := files + [FileData(file.name, AsList(v))];
        case _ =>
          log := log + [FailedToProcess(folder, file.name)];
      }
    }
    assert jsonFiles[..|jsonFiles|] == jsonFiles;
    log := log + [ValidatedCount(folder, |files|)];
  }

  /**
   Every file is either loaded or reported, never both: the loaded files are
   exactly the parsing ones, each with its records, in order, and every line
   printed names a failing file.
   */
  lemma {:induction false} LoadFilesFacts(folder: string, files: seq<FileEntry>, fd: FileData)
    ensures var l := LoadFiles(folder, files);
      && |l.files| + |l.log| == |files|
      && (forall k :: 0 <= k < |l.log| ==> l.log[k].FailedToProcess? && l.log[k].folder == folder)
      && (fd in l.files <==> exists i :: LoadsAs(files, i, fd))
  {
    if |files| > 0 {
      var last := |files| - 1;
      var init := files[..last];
      LoadFilesFacts(folder, init, fd);
      var before := LoadFiles(folder, init).files;
      var after := LoadFiles(folder, files).files;
      if files[last].content.Parsed? {
        assert after == before + [FileData(files[last].name, AsList(files[last].content.value))];
      } else {
        assert after == before;
      }
      if fd in after && fd !in before {
        assert LoadsAs(files, last, fd);
      }
      if exists i :: LoadsAs(init, i, fd) {
        var i :| LoadsAs(init, i, fd);
        assert init[i] == files[i];
        assert LoadsAs(files, i, fd);
      }
      if exists i :: LoadsAs(files, i, fd) {
        var i :| LoadsAs(files, i, fd);
        if i < last {
          assert init[i] == files[i];
          assert LoadsAs(init, i, fd);
        }
      }
    }
  }

  /** The files that parse, in order, each with its records. */
  function ParsedFiles(files: seq<FileEntry>): seq<FileData> {
    if |files| == 0 then []
    else
      (match files[0].content case Parsed(v) => [FileData(files[0].name, AsList(v))] case _ => [])
      + ParsedFiles(files[1..])
  }

  /** One `Failed to process` line per file that does not parse, in order. */
  function FailureLines(folder: string, files: seq<FileEntry>): seq<Line> {
    if |files| == 0 then []
    else
      (if files[0].content.Parsed? then [] else [FailedToProcess(folder, files[0].name)])
      + FailureLines(folder, files[1..])
  }

  lemma {:induction false} ParsedFilesConcat(a: seq<FileEntry>, b: seq<FileEntry>)
    ensures ParsedFiles(a + b) == ParsedFiles(a) + ParsedFiles(b)
  {
    if |a| == 0 {
      assert a + b == b;
    } else {
      var head := match a[0].content case Parsed(v) => [FileData(a[0].name, AsList(v))] case _ => [];
      assert (a + b)[0] == a[0];
      assert (a + b)[1..] == a[1..] + b;
      assert ParsedFiles(a + b) == head + ParsedFiles(a[1..] + b);
      ParsedFilesConcat(a[1..], b);
      assert ParsedFiles(a) == head + ParsedFiles(a[1..]);
    }
  }

  lemma {:induction false} FailureLinesConcat(folder: string, a: seq<FileEntry>, b: seq<FileEntry>)
    ensures FailureLines(folder, a + b) == FailureLines(folder, a) + FailureLines(folder, b)
  {
    if |a| == 0 {
      assert a + b == b;
    } else {
      var head := if a[0].content.Parsed? then [] else [FailedToProcess(folder, a[0].name)];
      assert (a + b)[0] == a[0];
      assert (a + b)[1..] == a[1..] + b;
      assert FailureLines(folder, a + b) == head + FailureLines(folder, a[1..] + b);
      FailureLinesConcat(folder, a[1..], b);
      assert FailureLines(folder, a) == head + FailureLines(folder, a[1..]);
    }
  }

  /**
   The loop splits the considered files in two, keeping their order: the
   loaded files are those that parse, and the lines printed name exactly
   the files that do not, one line each.
   */
  lemma {:induction false} LoadFilesSplit(folder: string, files: seq<FileEntry>)
    ensures LoadFiles(folder, files).files == ParsedFiles(files)
    ensures LoadFiles(folder, files).log == FailureLines(folder, files)
  {
    if |files| > 0 {
      var last := |files| - 1;
      var init := files[..last];
      var x := [files[last]];
      assert files == init + x;
      LoadFilesSplit(folder, init);
      ParsedFilesConcat(init, x);
      FailureLinesConcat(folder, init, x);
      assert x[1..] == [];
      assert ParsedFiles(x) == (match files[last].content case Parsed(v) => [FileData(files[last].name, AsList(v))] case _ => []);
      assert FailureLines(folder, x) == (if files[last].content.Parsed? then [] else [FailedToProcess(folder, files[last].name)]);
    }
  }

  /** The `Validated N JSON files` line counts the considered files that parse. */
  lemma ValidatedCountLine(folder: string, entries: seq<FileEntry>)
    ensures var l := LoadJsonFilesOf(folder, Listed(entries));
      var failed := LoadFiles(folder, ConsideredFiles(entries)).log;
      && l.log == failed + [ValidatedCount(folder, |l.files|)]
      && |l.files| == |ConsideredFiles(entries)| - |failed|
  {
    LoadFilesFacts(folder, ConsideredFiles(entries), FileData([], []));
  }

  /** The lines `for (const err of validateFn.errors)` prints. */
  function ErrorLines(errors: seq<ValidationError>): (lines: seq<Line>)
    ensures |lines| == |errors|
    ensures forall i :: 0 <= i < |errors| ==> lines[i] == ErrorDetail(errors[i].instancePath, errors[i].message)
  {
    if |errors| == 0 then []
    else
      var err := errors[|errors| - 1];
      ErrorLines(errors[..|errors| - 1]) + [ErrorDetail(err.instancePath, err.message)]
  }

  /** A found error and the lines printed so far. */
  datatype Tally = Tally(hasErrors: bool, log: seq<Line>)

  /** Validating the first |items| records of one file. */
  function CheckItems(
    folder: string, file: string, schema: JsonValue, items: seq<JsonValue>,
    validator: (JsonValue, JsonValue) -> seq<ValidationError>): Tally
  {
    if |items| == 0 then Tally(false, [])
    else
      var prev := CheckItems(folder, file, schema, items[..|items| - 1], validator);
      var errors := validator(schema, items[|items| - 1]);
      if errors == [] then prev
      else Tally(true, prev.log + [ValidationErrorsIn(folder, file)] + ErrorLines(errors))
  }

  /** Validating the records of the first |files| loaded files. */
  function CheckFiles(
    folder: string, schema: JsonValue, files: seq<FileData>,
    validator: (JsonValue, JsonValue) -> seq<ValidationError>): Tally
  {
    if |files| == 0 then Tally(false, [])
    else
      var prev := CheckFiles(folder, schema, files[..|files| - 1], validator);
      var file := files[|files| - 1];
      var t := CheckItems(folder, file.file, schema, file.data, validator);
      Tally(prev.hasErrors || t.hasErrors, prev.log + t.log)
  }

  /** `loadSchema(folder)`: None when `schemas/<folder>.json` cannot be read or parsed. */
  function LoadSchema(schemas: Listing, folder: string): Option<JsonValue> {
    match ReadEntry(schemas, folder + ".json")
    case Parsed(v) => Some(v)
    case _ => None
  }

  /** The script validates a folder whose schema loads and is truthy (`if (!schema) continue`). */
  predicate UsableSchema(schemas: Listing, folder: string) {
    var schema := LoadSchema(schemas, folder);
    schema.Some? && Truthy(schema.value)
  }

  /** Far enough through the run so far, and whether it was cut short. */
  datatype Verdict = Verdict(hasErrors: bool, aborted: bool, log: seq<Line>)

  /** One pass of the folder loop of `validate`. */
  function CheckFolder(
    folder: Folder, schemas: Listing, compiles: JsonValue -> bool,
    validator: (JsonValue, JsonValue) -> seq<ValidationError>): Verdict
  {
    var schema := LoadSchema(schemas, folder.name);
    if schema.None? then Verdict(false, false, [SchemaNotFound(folder.name)])
    else if !Truthy(schema.value) then Verdict(false, false, [])
    else if !compiles(schema.value) then Verdict(false, true, [Uncaught(folder.name)])
    else
      var l := LoadJsonFilesOf(folder.name, folder.listing);
      var t := CheckFiles(folder.name, schema.value, l.files, validator);
      Verdict(t.hasErrors, false, l.log + t.log)
  }

  /** The first |folders| passes of the folder loop; a schema that does not compile ends the run. */
  function ValidateRun(
    folders: seq<Folder>, schemas: Listing, compiles: JsonValue -> bool,
    validator: (JsonValue, JsonValue) -> seq<ValidationError>): Verdict
  {
    if |folders| == 0 then Verdict(false, false, [])
    else
      var prev := ValidateRun(folders[..|folders| - 1], schemas, compiles, validator);
      if prev.aborted then prev
      else
        var v := CheckFolder(folders[|folders| - 1], schemas, compiles, validator);
        Verdict(prev.hasErrors || v.hasErrors, v.aborted, prev.log + v.log)
  }

  /** The process's exit status and its console output. */
  datatype Exit = Exit(status: int, log: seq<Line>)

  function ValidateOutcome(
    root: seq<RootEntry>, schemas: Listing, compiles: JsonValue -> bool,
    validator: (JsonValue, JsonValue) -> seq<ValidationError>): Exit
  {
    var v := ValidateRun(DataFolders(root), schemas, compiles, validator);
    if v.aborted || v.hasErrors then Exit(1, v.log)
    else Exit(0, v.log + [Completed])
  }

  lemma {:induction false} ValidateRunStops(
    folders: seq<Folder>, n: nat, schemas: Listing, compiles: JsonValue -> bool,
    validator: (JsonValue, JsonValue) -> seq<ValidationError>)
    requires n <= |folders| && ValidateRun(folders[..n], schemas, compiles, validator).aborted
    ensures ValidateRun(folders, schemas, compiles, validator) == ValidateRun(folders[..n], schemas, compiles, validator)
    decreases |folders| - n
  {
    if n == |folders| {
      assert folders[..n] == folders;
    } else {
      assert folders[..n + 1][..n] == folders[..n];
      ValidateRunStops(folders, n + 1, schemas, compiles, validator);
    }
  }

  /**
   The loop over one file's records in `validate`: each record that fails
   prints a header naming the file, then one line per error.
   */
  method ValidateItems(
    folder: string, file: string, schema: JsonValue, data: seq<JsonValue>,
    validator: (JsonValue, JsonValue) -> seq<ValidationError>)
    returns (hasErrors: bool, log: seq<Line>)
    ensures Tally(hasErrors, log) == CheckItems(folder, file, schema, data, validator)
  {
    hasErrors, log := false, [];
    for i := 0 to |data|
      invariant CheckItems(folder, file, schema, data[..i], validator) == Tally(hasErrors, log)
    {
      assert data[..i + 1][..i] == data[..i];
      var errors := validator(schema, data[i]);
      if errors != [] {
        hasErrors := true;
        log := log + [ValidationErrorsIn(folder, file)];
        ghost var header := log;
        for e := 0 to |errors|
          invariant log == header + ErrorLines(errors[..e])
        {
          assert errors[..e + 1][..e] == errors[..e];
          log := log + [ErrorDetail(errors[e].instancePath, errors[e].message)];
        }
        assert errors[..|errors|] == errors;
      }
    }
    assert data[..|data|] == data;
  }

  /** The loop over a folder's loaded files in `validate`. */
  method ValidateFiles(
    folder: string, schema: JsonValue, filesData: seq<FileData>,
    validator: (JsonValue, JsonValue) -> seq<ValidationError>)
    returns (hasErrors: bool, log: seq<Line>)
    ensures Tally(hasErrors, log) == CheckFiles(folder, schema, filesData, validator)
  {
    hasErrors, log := false, [];
    for j := 0 to |filesData|
      invariant CheckFiles(folder, schema, filesData[..j], validator) == Tally(hasErrors, log)
    {
      assert filesData[..j + 1][..j] == filesData[..j];
      var fileErrors, fileLog := ValidateItems(folder, filesData[j].file, schema, filesData[j].data, validator);
      hasErrors := hasErrors || fileErrors;
      log := log + fileLog;
    }
    assert filesData[..|filesData|] == filesData;
  }

  /** The run over one more folder, when the run so far is not aborted. */
  lemma ValidateRunNext(
    folders: seq<Folder>, k: nat, schemas: Listing, compiles: JsonValue -> bool,
    validator: (JsonValue, JsonValue) -> seq<ValidationError>)
    requires k < |folders| && !ValidateRun(folders[..k], schemas, compiles, validator).aborted
    ensures var prev := ValidateRun(folders[..k], schemas, compiles, validator);
      var v := CheckFolder(folders[k], schemas, compiles, validator);
      ValidateRun(folders[..k + 1], schemas, compiles, validator)
        == Verdict(prev.hasErrors || v.hasErrors, v.aborted, prev.log + v.log)
  {
    assert folders[..k + 1][..k] == folders[..k];
  }

  /**
   One pass of the folder loop of `validate`: load the schema, skip the
   folder without a usable one, compile it (a failure aborts the run), then
   load and validate the folder's files.
   */
  method ValidateFolder(
    folder: Folder, schemas: Listing, compiles: JsonValue -> bool,
    validator: (JsonValue, JsonValue) -> seq<ValidationError>)
    returns (hasErrors: bool, aborted: bool, log: seq<Line>)
    ensures Verdict(hasErrors, aborted, log) == CheckFolder(folder, schemas, compiles, validator)
  {
    var schema := LoadSchema(schemas, folder.name);
    if schema.None? {
      return false, false, [SchemaNotFound(folder.name)];
    }
    if !Truthy(schema.value) {
      return false, false, [];
    }
    if !compiles(schema.value) {
      return false, true, [Uncaught(folder.name)];
    }
    var filesData, loadLog := LoadJsonFiles(folder.name, folder.listing);
    var fileErrors, filesLog := ValidateFiles(folder.name, schema.value, filesData, validator);
    return fileErrors, false, loadLog + filesLog;
  }

  /** `validate()` together with the top-level `catch` and `process.exit`. */
  method Validate(
    root: seq<RootEntry>, schemas: Listing, compiles: JsonValue -> bool,
    validator: (JsonValue, JsonValue) -> seq<ValidationError>)
    returns (status: int, log: seq<Line>)
    ensures Exit(status, log) == ValidateOutcome(root, schemas, compiles, validator)
  {
    var folders := DataFolders(root);
    var hasErrors := false;
    log := [];
    for k := 0 to |folders|
      invariant ValidateRun(folders[..k], schemas, compiles, validator) == Verdict(hasErrors, false, log)
    {
      ValidateRunNext(folders, k, schemas, compiles, validator);
      var folderErrors, aborted, folderLog := ValidateFolder(folders[k], schemas, compiles, validator);
      hasErrors := hasErrors || folderErrors;
      log := log + folderLog;
      if aborted {
        ValidateRunStops(folders, k + 1, schemas, compiles, validator);
        return 1, log;
      }
    }
    assert folders[..|folders|] == folders;
    if hasErrors {
      return 1, log;
    }
    return 0, log + [Completed];
  }

  /** Record i of items fails the schema. */
  predicate InvalidItem(schema: JsonValue, items: seq<JsonValue>, i: int,
    validator: (JsonValue, JsonValue) -> seq<ValidationError>)
  {
    0 <= i < |items| && validator(schema, items[i]) != []
  }

  /**
   A file's records are reported exactly when one of them fails, and a file
   whose records all pass prints nothing.
   */
  lemma {:induction false} CheckItemsFacts(
    folder: string, file: string, schema: JsonValue, items: seq<JsonValue>,
    validator: (JsonValue, JsonValue) -> seq<ValidationError>)
    ensures var t := CheckItems(folder, file, schema, items, validator);
      && (t.hasErrors <==> exists i :: InvalidItem(schema, items, i, validator))
      && (t.log == [] <==> !t.hasErrors)
  {
    if |items| > 0 {
      var last := |items| - 1;
      var init := items[..last];
      CheckItemsFacts(folder, file, schema, init, validator);
      if validator(schema, items[last]) != [] {
        assert InvalidItem(schema, items, last, validator);
      }
      if exists i :: InvalidItem(schema, init, i, validator) {
        var i :| InvalidItem(schema, init, i, validator);
        assert init[i] == items[i];
        assert InvalidItem(schema, items, i, validator);
      }
      if exists i :: InvalidItem(schema, items, i, validator) {
        var i :| InvalidItem(schema, items, i, validator);
        if i < last {
          assert init[i] == items[i];
          assert InvalidItem(schema, init, i, validator);
        }
      }
    }
  }

  /** Error k of record i is printed as the line `  - <instancePath> <message>`. */
  predicate ReportsError(schema: JsonValue, items: seq<JsonValue>, i: int, k: int,
    validator: (JsonValue, JsonValue) -> seq<ValidationError>, line: Line)
  {
    0 <= i < |items| && 0 <= k < |validator(schema, items[i])|
    && line == ErrorDetail(validator(schema, items[i])[k].instancePath, validator(schema, items[i])[k].message)
  }

  /**
   Every error Ajv reports for every record of the file is printed, and
   nothing else is printed but the header naming the file.
   */
  lemma {:induction false} CheckItemsLines(
    folder: string, file: string, schema: JsonValue, items: seq<JsonValue>,
    validator: (JsonValue, JsonValue) -> seq<ValidationError>, line: Line)
    ensures var log := CheckItems(folder, file, schema, items, validator).log;
      line in log <==>
        (line == ValidationErrorsIn(folder, file) && exists i :: InvalidItem(schema, items, i, validator))
        || exists i, k :: ReportsError(schema, items, i, k, validator, line)
  {
    CheckItemsFacts(folder, file, schema, items, validator);
    if |items| > 0 {
      var last := |items| - 1;
      var init := items[..last];
      var errors := validator(schema, items[last]);
      CheckItemsLines(folder, file, schema, init, validator, line);
      CheckItemsFacts(folder, file, schema, init, validator);
      var before := CheckItems(folder, file, schema, init, validator).log;
      var after := CheckItems(folder, file, schema, items, validator).log;
      assert after == before || after == before + [ValidationErrorsIn(folder, file)] + ErrorLines(errors);
      if exists i, k :: ReportsError(schema, init, i, k, validator, line) {
        var i, k :| ReportsError(schema, init, i, k, validator, line);
        assert init[i] == items[i];
        assert ReportsError(schema, items, i, k, validator, line);
      }
      if line in ErrorLines(errors) {
        var k :| 0 <= k < |errors| && ErrorLines(errors)[k] == line;
        assert ReportsError(schema, items, last, k, validator, line);
      }
      if exists i, k :: ReportsError(schema, items, i, k, validator, line) {
        var i, k :| ReportsError(schema, items, i, k, validator, line);
        if i < last {
          assert init[i] == items[i];
          assert ReportsError(schema, init, i, k, validator, line);
        } else {
          assert ErrorLines(errors)[k] == line;
        }
      }
    }
  }

  /** Some record of the loaded file fd fails the schema. */
  ghost predicate FileHasInvalidItem(schema: JsonValue, fd: FileData,
    validator: (JsonValue, JsonValue) -> seq<ValidationError>)
  {
    exists i :: InvalidItem(schema, fd.data, i, validator)
  }

  /** Loaded file j has a failing record. */
  ghost predicate InvalidFile(schema: JsonValue, files: seq<FileData>, j: int,
    validator: (JsonValue, JsonValue) -> seq<ValidationError>)
  {
    0 <= j < |files| && FileHasInvalidItem(schema, files[j], validator)
  }

  /** A folder's files report an error exactly when some record of some file fails. */
  lemma {:induction false} CheckFilesErrors(
    folder: string, schema: JsonValue, files: seq<FileData>,
    validator: (JsonValue, JsonValue) -> seq<ValidationError>)
    ensures CheckFiles(folder, schema, files, validator).hasErrors <==>
      exists j :: InvalidFile(schema, files, j, validator)
  {
    if |files| > 0 {
      var last := |files| - 1;
      var init := files[..last];
      CheckFilesErrors(folder, schema, init, validator);
      CheckItemsFacts(folder, files[last].file, schema, files[last].data, validator);
      if CheckItems(folder, files[last].file, schema, files[last].data, validator).hasErrors {
        assert InvalidFile(schema, files, last, validator);
      }
      if exists j :: InvalidFile(schema, init, j, validator) {
        var j :| InvalidFile(schema, init, j, validator);
        assert init[j] == files[j];
        assert InvalidFile(schema, files, j, validator);
      }
      if exists j :: InvalidFile(schema, files, j, validator) {
        var j :| InvalidFile(schema, files, j, validator);
        if j < last {
          assert init[j] == files[j];
          assert InvalidFile(schema, init, j, validator);
        }
      }
    }
  }

  /** The folder's schema is validated against, and Ajv refuses to compile it. */
  predicate CompileFails(folder: Folder, schemas: Listing, compiles: JsonValue -> bool) {
    UsableSchema(schemas, folder.name) && !compiles(LoadSchema(schemas, folder.name).value)
  }

  /** Some record of some loaded file fails the schema. */
  ghost predicate SomeFileInvalid(schema: JsonValue, files: seq<FileData>,
    validator: (JsonValue, JsonValue) -> seq<ValidationError>)
  {
    exists j :: InvalidFile(schema, files, j, validator)
  }

  /** The folder's schema compiles, and a record of one of its loaded files fails it. */
  ghost predicate FolderFails(folder: Folder, schemas: Listing, compiles: JsonValue -> bool,
    validator: (JsonValue, JsonValue) -> seq<ValidationError>)
  {
    UsableSchema(schemas, folder.name) && compiles(LoadSchema(schemas, folder.name).value)
    && SomeFileInvalid(LoadSchema(schemas, folder.name).value,
      LoadJsonFilesOf(folder.name, folder.listing).files, validator)
  }

  /**
   One folder: it aborts the run exactly when its schema does not compile,
   and reports errors exactly when one of its records fails. A folder
   without a usable schema is skipped: a missing or unparsable schema
   prints one warning, a falsy one nothing.
   */
  lemma CheckFolderFacts(folder: Folder, schemas: Listing, compiles: JsonValue -> bool,
    validator: (JsonValue, JsonValue) -> seq<ValidationError>)
    ensures var v := CheckFolder(folder, schemas, compiles, validator);
      && (v.aborted <==> CompileFails(folder, schemas, compiles))
      && (v.hasErrors <==> FolderFails(folder, schemas, compiles, validator))
      && (!UsableSchema(schemas, folder.name) ==>
           v.log == if LoadSchema(schemas, folder.name).None? then [SchemaNotFound(folder.name)] else [])
  {
    var schema := LoadSchema(schemas, folder.name);
    if UsableSchema(schemas, folder.name) && compiles(schema.value) {
      CheckFilesErrors(folder.name, schema.value, LoadJsonFilesOf(folder.name, folder.listing).files, validator);
    }
  }

  /** Folder k of the run has a schema that does not compile. */
  predicate CompileFailsAt(folders: seq<Folder>, k: int, schemas: Listing, compiles: JsonValue -> bool) {
    0 <= k < |folders| && CompileFails(folders[k], schemas, compiles)
  }

  /** Folder k of the run has a failing record. */
  ghost predicate FolderFailsAt(folders: seq<Folder>, k: int, schemas: Listing, compiles: JsonValue -> bool,
    validator: (JsonValue, JsonValue) -> seq<ValidationError>)
  {
    0 <= k < |folders| && FolderFails(folders[k], schemas, compiles, validator)
  }

  /** One pass of the run, on aborting: the run is aborted once a folder aborts it. */
  lemma AbortStep(
    folders: seq<Folder>, schemas: Listing, compiles: JsonValue -> bool,
    validator: (JsonValue, JsonValue) -> seq<ValidationError>)
    requires |folders| > 0
    ensures ValidateRun(folders, schemas, compiles, validator).aborted <==>
      ValidateRun(folders[..|folders| - 1], schemas, compiles, validator).aborted
      || CheckFolder(folders[|folders| - 1], schemas, compiles, validator).aborted
  {
  }

  /** A folder whose usable schema does not compile aborts the run. */
  lemma {:induction false} CompileFailureAborts(
    folders: seq<Folder>, schemas: Listing, compiles: JsonValue -> bool,
    validator: (JsonValue, JsonValue) -> seq<ValidationError>, k: nat)
    requires CompileFailsAt(folders, k, schemas, compiles)
    ensures ValidateRun(folders, schemas, compiles, validator).aborted
  {
    var last := |folders| - 1;
    AbortStep(folders, schemas, compiles, validator);
    if k < last {
      assert folders[..last][k] == folders[k];
      CompileFailureAborts(folders[..last], schemas, compiles, validator, k);
    } else {
      assert k == last;
      CheckFolderFacts(folders[last], schemas, compiles, validator);
    }
  }

  /** A run is only aborted by a folder whose usable schema does not compile. */
  lemma {:induction false} AbortComesFromFolder(
    folders: seq<Folder>, schemas: Listing, compiles: JsonValue -> bool,
    validator: (JsonValue, JsonValue) -> seq<ValidationError>) returns (k: nat)
    requires ValidateRun(folders, schemas, compiles, validator).aborted
    ensures CompileFailsAt(folders, k, schemas, compiles)
  {
    var last := |folders| - 1;
    AbortStep(folders, schemas, compiles, validator);
    CheckFolderFacts(folders[last], schemas, compiles, validator);
    if CheckFolder(folders[last], schemas, compiles, validator).aborted {
      k := last;
    } else {
      k := AbortComesFromFolder(folders[..last], schemas, compiles, validator);
      assert folders[..last][k] == folders[k];
    }
  }

  /** The run aborts exactly when some folder's usable schema does not compile. */
  lemma RunAborts(
    folders: seq<Folder>, schemas: Listing, compiles: JsonValue -> bool,
    validator: (JsonValue, JsonValue) -> seq<ValidationError>)
    ensures ValidateRun(folders, schemas, compiles, validator).aborted <==>
      exists k :: CompileFailsAt(folders, k, schemas, compiles)
  {
    if ValidateRun(folders, schemas, compiles, validator).aborted {
      var k := AbortComesFromFolder(folders, schemas, compiles, validator);
    }
    if exists k :: CompileFailsAt(folders, k, schemas, compiles) {
      var k :| CompileFailsAt(folders, k, schemas, compiles);
      CompileFailureAborts(folders, schemas, compiles, validator, k);
    }
  }

  /** One pass of a run that is not aborted: the folder's errors join those found before it. */
  lemma RunStep(
    folders: seq<Folder>, schemas: Listing, compiles: JsonValue -> bool,
    validator: (JsonValue, JsonValue) -> seq<ValidationError>)
    requires |folders| > 0 && !ValidateRun(folders, schemas, compiles, validator).aborted
    ensures var prev := ValidateRun(folders[..|folders| - 1], schemas, compiles, validator);
      && !prev.aborted
      && ValidateRun(folders, schemas, compiles, validator).hasErrors ==
           (prev.hasErrors || CheckFolder(folders[|folders| - 1], schemas, compiles, validator).hasErrors)
  {
  }

  /** A folder with a failing record makes a run that is not aborted find errors. */
  lemma {:induction false} FailingFolderFound(
    folders: seq<Folder>, schemas: Listing, compiles: JsonValue -> bool,
    validator: (JsonValue, JsonValue) -> seq<ValidationError>, k: nat)
    requires !ValidateRun(folders, schemas, compiles, validator).aborted
    requires FolderFailsAt(folders, k, schemas, compiles, validator)
    ensures ValidateRun(folders, schemas, compiles, validator).hasErrors
  {
    var last := |folders| - 1;
    RunStep(folders, schemas, compiles, validator);
    if k < last {
      assert folders[..last][k] == folders[k];
      FailingFolderFound(folders[..last], schemas, compiles, validator, k);
    } else {
      assert k == last;
      CheckFolderFacts(folders[last], schemas, compiles, validator);
    }
  }

  /** The errors a run that is not aborted finds come from a folder with a failing record. */
  lemma {:induction false} ErrorsComeFromFolder(
    folders: seq<Folder>, schemas: Listing, compiles: JsonValue -> bool,
    validator: (JsonValue, JsonValue) -> seq<ValidationError>) returns (k: nat)
    requires !ValidateRun(folders, schemas, compiles, validator).aborted
    requires ValidateRun(folders, schemas, compiles, validator).hasErrors
    ensures FolderFailsAt(folders, k, schemas, compiles, validator)
  {
    var last := |folders| - 1;
    RunStep(folders, schemas, compiles, validator);
    CheckFolderFacts(folders[last], schemas, compiles, validator);
    if CheckFolder(folders[last], schemas, compiles, validator).hasErrors {
      k := last;
    } else {
      k := ErrorsComeFromFolder(folders[..last], schemas, compiles, validator);
      assert folders[..last][k] == folders[k];
    }
  }

  /** A run that is not aborted finds errors exactly when some folder has a failing record. */
  lemma RunFindsErrors(
    folders: seq<Folder>, schemas: Listing, compiles: JsonValue -> bool,
    validator: (JsonValue, JsonValue) -> seq<ValidationError>)
    requires !ValidateRun(folders, schemas, compiles, validator).aborted
    ensures ValidateRun(folders, schemas, compiles, validator).hasErrors <==>
      exists k :: FolderFailsAt(folders, k, schemas, compiles, validator)
  {
    if ValidateRun(folders, schemas, compiles, validator).hasErrors {
      var k := ErrorsComeFromFolder(folders, schemas, compiles, validator);
    }
    if exists k :: FolderFailsAt(folders, k, schemas, compiles, validator) {
      var k :| FolderFailsAt(folders, k, schemas, compiles, validator);
      FailingFolderFound(folders, schemas, compiles, validator, k);
    }
  }

  /**
   The process exits with 0, printing the success line last, exactly when
   every dataset folder's usable schema compiles and every record loaded
   for it passes; otherwise it exits with 1.
   */
  lemma ExitStatus(
    root: seq<RootEntry>, schemas: Listing, compiles: JsonValue -> bool,
    validator: (JsonValue, JsonValue) -> seq<ValidationError>)
    ensures var e := ValidateOutcome(root, schemas, compiles, validator);
      && (e.status == 0 || e.status == 1)
      && (e.status == 0 <==> forall f :: f in DataFolders(root) ==>
            !CompileFails(f, schemas, compiles) && !FolderFails(f, schemas, compiles, validator))
      && (e.status == 0 ==> e.log[|e.log| - 1] == Completed)
  {
    var folders := DataFolders(root);
    RunAborts(folders, schemas, compiles, validator);
    if !ValidateRun(folders, schemas, compiles, validator).aborted {
      RunFindsErrors(folders, schemas, compiles, validator);
    }
    if exists f :: f in folders && (CompileFails(f, schemas, compiles) || FolderFails(f, schemas, compiles, validator)) {
      var f :| f in folders && (CompileFails(f, schemas, compiles) || FolderFails(f, schemas, compiles, validator));
      var k :| 0 <= k < |folders| && folders[k] == f;
      assert CompileFailsAt(folders, k, schemas, compiles) || FolderFailsAt(folders, k, schemas, compiles, validator);
    }
  }
}
