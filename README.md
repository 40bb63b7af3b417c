# open-data pipeline scripts, modelled in Dafny

The open-data repository publishes datasets kept as JSON files under `data/<folder>/`. Three batch scripts process them:

- `generate-schemas` infers one JSON Schema per dataset folder and writes it to `schemas/<folder>.json`. Before writing, it stamps the draft-07 `$schema` identifier on the schema.
- `generate-api` publishes one artifact `api/<folder>.json` per non-empty folder. The schema directory is treated as one more dataset. An artifact holds the records, their count, a SHA-1 hash of their compact serialisation and a timestamp. `api/index.json` maps each artifact's file name to that metadata and the artifact's public URL.
- `validate-json` checks every record against its folder's schema. The process exits with status 1 when a record fails.

The model covers the deterministic logic around the library calls. Each script reads the folder listing its own way, and the model keeps each script's rules and failure behaviour. It also covers schema stamping, the publish loop with its index, and the validation loops with their exit status.

Some operations are not modelled; they appear as plain parameters with no definition:

- schema inference (quicktype);
- JSON text parsing and printing;
- SHA-1;
- the clock;
- the Ajv schema compiler and validator.

The file store is a value: a directory listing maps each name to what reading and parsing it yields (`Files.Listing`).

Files:

- `json.dfy`: JSON values. Objects keep their property order, and the file models JavaScript truthiness, property lookup and property assignment.
- `files.dfy`: listings, folders, and the dataset-folder filter the three scripts share.
- `generate_schemas.dfy`: `generate-schemas`.
- `generate_api.dfy`: `generate-api`.
- `validate_json.dfy`: `validate-json`.

Loops become methods. Each method is proved equal to a function over prefixes of its input, and the lemmas state properties of those functions.

Some source functions are modelled by plain Dafny functions whose properties are stated in lemmas, so their table rows name the lemmas:

- `getDataFolders` / `getFolders` is `Files.DataFolders` (rows `Files.DataFoldersMembers`, `Files.DataFoldersConcat`).
- `formatSchemaForValidation` is `GenerateSchemas.FormatSchemaForValidation` (rows `GenerateSchemas.StampSchema`, `GenerateSchemas.FormatIdempotent`).
- `loadFolderData` is `GenerateApi.LoadFolderData` (row `GenerateApi.FolderDataFacts`).
- `generateIndexEntry` is `GenerateApi.GenerateIndexEntry` (row `GenerateApi.EntryMatchesArtifact`).
- `loadSchema` is `ValidateJson.LoadSchema` (row `ValidateJson.CheckFolderFacts`).

The model follows what the code does. Some of that behaviour is worth stating plainly, because a reader of the code could expect otherwise:

- `formatSchemaForValidation` only stamps `$schema` on the sole definition. It does not promote that definition to the root, although the comment at src/scripts/generate-schemas.ts line 57 says it does.
- `generate-schemas` reads every `.json` entry, `schema.json` included; only `generate-api` and `validate-json` skip that name.
- In `generate-api`, a file that cannot be read or parsed ends the whole run. The index is then never written, but artifacts written before stay.
- `generate-schemas` drops top-level scalars and null silently. `validate-json` wraps them as single records.
- Schema inference is entirely quicktype's; the scripts add no inference of their own.
- In `generate-schemas`, a `.json` entry that cannot be read ends the run, because `readFile` is outside the `try`. A file that does not parse is only skipped.

## Model

| member | source | states |
|---|---|---|
| Json.Lookup | src/scripts/generate-schemas.ts:58-61 | `obj[k]` is undefined exactly when no property is named k; otherwise it is the value of a property named k |
| Json.Assign | src/scripts/generate-api.ts:82 | after `obj[k] = v`, k maps to v and every other property keeps its value. An existing key keeps its place; a new key that is not an array index goes after all others |
| Json.AssignIdempotent | src/scripts/generate-schemas.ts:55 | assigning the same value to the same property twice equals assigning it once |
| Json.AssignKeepsKeysDistinct | src/scripts/generate-api.ts:82 | keyed assignment never creates a second property with the same name |
| Files.DataFoldersMembers | src/scripts/generate-schemas.ts:9-12 | the folders are exactly the directory entries of `data/`; plain files are dropped |
| Files.DataFoldersConcat | src/scripts/generate-schemas.ts:9-12 | the filter keeps listing order: filtering two parts of a listing gives the first part's folders followed by the second's |
| Files.ReadEntry | src/scripts/validate-json.ts:18-19 | reading a listed name yields the content of the first entry of that name. A read that yields content found an entry of that name, and an unlistable directory yields nothing readable |
| Files.JsonNameInjective | src/scripts/generate-schemas.ts:72 | distinct folder names give distinct `<folder>.json` output names |
| GenerateSchemas.ReadAllJsonFiles | src/scripts/generate-schemas.ts:14-32 | the push loop computes the folder's records: file order, then in-file order. It throws on an unlistable folder or an unreadable `.json` entry |
| GenerateSchemas.RecordsAppend | src/scripts/generate-schemas.ts:17-30 | reading a listing in two parts gives the first part's records followed by the second's, or the first exception |
| GenerateSchemas.SingleFileRecords | src/scripts/generate-schemas.ts:21-26 | an array contributes all its elements unfiltered, an object contributes itself, anything else contributes nothing |
| GenerateSchemas.RecordsOk | src/scripts/generate-schemas.ts:18-19 | the read succeeds exactly when no entry ending in `.json` is unreadable. `schema.json` is not excluded |
| GenerateSchemas.RecordsMembers | src/scripts/generate-schemas.ts:17-29 | a value is a record exactly when some parsed `.json` file has it as its top-level object or as an element of its top-level array. Unparsable files, scalars and null add nothing |
| GenerateSchemas.SetSchemaProperty | src/scripts/generate-schemas.ts:55 | in strict mode, `$schema` assignment throws on null or a primitive. On an array it is invisible. An object gets `$schema` = draft-07 with every other key unchanged |
| GenerateSchemas.SetSchemaPropertyIdempotent | src/scripts/generate-schemas.ts:55 | stamping a stamped value changes nothing |
| GenerateSchemas.SoleDefinition | src/scripts/generate-schemas.ts:58-61 | a sole definition exists exactly when `definitions` is an object with one key or an array with one element, and it is the value under that key or that element |
| GenerateSchemas.StampDefinitions | src/scripts/generate-schemas.ts:58-64 | stamping the definitions keeps the root's keys in order and changes no root key other than `definitions` |
| GenerateSchemas.StampSchema | src/scripts/generate-schemas.ts:53-64 | the root gets `$schema` = draft-07 and keeps every other key except `definitions`. Its keys are those of the assignment, and an array root is unchanged. An object root throws exactly when its sole definition is null or a primitive; any other root that is not an object or array throws |
| GenerateSchemas.StampSoleDefinition | src/scripts/generate-schemas.ts:58-63 | a single object definition is stamped and stays under its own key in `definitions`. It is not moved to the root |
| GenerateSchemas.StampSoleArrayDefinition | src/scripts/generate-schemas.ts:58-63 | when `definitions` is an array of one object, that object is stamped and stays in place as element 0 |
| GenerateSchemas.DefinitionsUntouched | src/scripts/generate-schemas.ts:58-64 | with no definitions, or not exactly one, `definitions` is left as it was |
| GenerateSchemas.StampDefinitionsIdempotent | src/scripts/generate-schemas.ts:58-64 | stamping the definitions twice is the same as once |
| GenerateSchemas.StampSchemaIdempotent | src/scripts/generate-schemas.ts:53-64 | stamping a stamped schema changes nothing |
| GenerateSchemas.FormatIdempotent | src/scripts/generate-schemas.ts:53-66 | when the stamped schema survives printing and parsing, formatting already formatted text gives it back unchanged |
| GenerateSchemas.FolderSchemaFacts | src/scripts/generate-schemas.ts:70-88 | a folder with no records gets no file, and a read failure is fatal. A folder with records fails exactly when inference throws, and otherwise gets a file. That file is `<folder>.json` holding the formatted schema plus a newline, or the raw inferred text plus a newline when formatting throws |
| GenerateSchemas.GenerateRunStops | src/scripts/generate-schemas.ts:92-95 | after an exception no later folder is processed |
| GenerateSchemas.GenerateSchemasForAllFolders | src/scripts/generate-schemas.ts:67-90 | the folder loop writes the files of the run model in order and reports whether it completed |
| GenerateSchemas.GenerateStep | src/scripts/generate-schemas.ts:68-89 | when the run so far completed, one more folder either writes its one schema file or writes nothing, and the run goes on |
| GenerateSchemas.WritesGrow | src/scripts/generate-schemas.ts:70-89 | in any run, one more folder either leaves the writes as they were or, after a completed run, appends that folder's schema file |
| GenerateSchemas.FolderSchemaWritten | src/scripts/generate-schemas.ts:70-88 | in a completed run, every folder with records has its `<folder>.json` schema file written |
| GenerateSchemas.WriteIsFolderSchema | src/scripts/generate-schemas.ts:70-88 | in a completed run, the schema file a folder yields is among the writes |
| GenerateSchemas.WriteComesFromFolder | src/scripts/generate-schemas.ts:70-88 | in any run, completed or ended by an exception, every file written is the schema file of some folder |
| GenerateSchemas.WritesExactlyNonEmptyFolders | src/scripts/generate-schemas.ts:70-89 | a completed run writes exactly the schema files its folders yield. Every written file is `<folder>.json` of a folder with records, and every folder with records has its file written |
| GenerateSchemas.EmptyFolderNoSchema | src/scripts/generate-schemas.ts:75-78 | in any run, completed or ended by an exception, a folder without records gets no schema file (folder names are distinct, as a directory listing gives them) |
| GenerateApi.GlobbedMembers | src/scripts/generate-api.ts:25-26 | glob returns exactly the `.json` entries whose names do not start with a dot |
| GenerateApi.KeptMembers | src/scripts/generate-api.ts:29 | exactly the globbed files not named `schema.json` are read |
| GenerateApi.ReadJsonFiles | src/scripts/generate-api.ts:24-34 | the push loop yields one entry per kept file, or throws at the first file that cannot be read or parsed. A missing folder yields none |
| GenerateApi.EntriesStop | src/scripts/generate-api.ts:30 | after `readJson` throws, no later file changes the outcome |
| GenerateApi.OneRecordPerFile | src/scripts/generate-api.ts:28-33 | reading succeeds exactly when every kept file parses. Each kept file is then exactly one entry, in order, with arrays not flattened |
| GenerateApi.FolderDataFacts | src/scripts/generate-api.ts:40-45 | the count is the number of kept files. Two folders whose kept files have the same contents in the same order get equal data and hash, whatever the file names |
| GenerateApi.UnitedJson | src/scripts/generate-api.ts:47-53 | the artifact has exactly the properties lastUpdated, contentHash, count and data, in that order |
| GenerateApi.EntryMatchesArtifact | src/scripts/generate-api.ts:58-65 | the index entry's timestamp, hash and count are the artifact's, and count is the number of records. The URL is the API base + name + `.json`, and the hash does not depend on the timestamp |
| GenerateApi.Generate | src/scripts/generate-api.ts:67-86 | the loop over the data folders, then `schemas`, writes the artifacts of the run model in order. It writes the index only when no exception occurred |
| GenerateApi.PublishRunStops | src/scripts/generate-api.ts:88-91 | after an exception no later folder is published |
| GenerateApi.PublishRunNext | src/scripts/generate-api.ts:73-82 | after a completed run, a folder that loads is skipped when it has no records, and otherwise appends its artifact and assigns its index entry with its own clock reading |
| GenerateApi.PublishStep | src/scripts/generate-api.ts:74-82 | an empty folder changes nothing. A published folder appends its artifact and assigns its index entry |
| GenerateApi.IndexKeysStep | src/scripts/generate-api.ts:74-82 | one more folder keeps every index key and adds `<name>.json` exactly when the folder is published |
| GenerateApi.PublishedFolderIndexed | src/scripts/generate-api.ts:73-82 | every published folder has its `<name>.json` key in the index |
| GenerateApi.IndexKeyFromFolder | src/scripts/generate-api.ts:73-82 | every index key is `<name>.json` of some published folder |
| GenerateApi.IndexKeys | src/scripts/generate-api.ts:71-85 | the index keys are exactly `<name>.json` of the published folders; empty folders have no entry |
| GenerateApi.IndexKeysDistinct | src/scripts/generate-api.ts:71-82 | the index never holds the same key twice |
| GenerateApi.IndexEntryOfLastFolder | src/scripts/generate-api.ts:73-82 | a published folder's entry is the one built from it, with its own clock reading, unless a later published folder of the same name overwrites it |
| GenerateApi.SchemasEntryWins | src/scripts/generate-api.ts:70-82 | the schema directory is processed last, so its `schemas.json` entry wins over a data folder named `schemas` |
| GenerateApi.ArtifactsStep | src/scripts/generate-api.ts:74-81 | one folder adds its own artifact exactly when it is published |
| GenerateApi.ArtifactsAppend | src/scripts/generate-api.ts:74-81 | in a completed run, a published folder appends its artifact and any other folder leaves the artifacts as they were |
| GenerateApi.ArtifactsGrow | src/scripts/generate-api.ts:73-81 | in any run, one more folder either leaves the artifacts as they were or, after a completed run, appends the artifact of that published folder |
| GenerateApi.PublishedFolderHasArtifact | src/scripts/generate-api.ts:73-81 | every published folder has its artifact written, with its own timestamp |
| GenerateApi.ArtifactComesFromFolder | src/scripts/generate-api.ts:73-81 | in any run, completed or ended by an exception, every artifact written is that of a published folder; an empty folder gets none |
| GenerateApi.ClockIndependent | src/scripts/generate-api.ts:73-85 | the clock decides only timestamps: runs with different clocks complete alike, write the same artifacts apart from `lastUpdated`, and index the same keys |
| ValidateJson.ConsideredFilesMembers | src/scripts/validate-json.ts:31 | the considered files are exactly those ending in `.json` and not named `schema.json` |
| ValidateJson.ConsideredFilesConcat | src/scripts/validate-json.ts:31 | the filter keeps listing order: filtering two parts of a listing gives the first part's files followed by the second's |
| ValidateJson.LoadJsonFiles | src/scripts/validate-json.ts:27-50 | the push loop loads each considered file that parses as its list of records. It reports each failure and ends with the count line. A missing data directory gives no files and a warning |
| ValidateJson.LoadFilesFacts | src/scripts/validate-json.ts:33-43 | one file, one outcome: the loaded files and the failure lines together number the considered files. Every line is a failure of this folder. The loaded files are exactly the parsing ones, an array as it is and anything else as a single record |
| ValidateJson.LoadFilesSplit | src/scripts/validate-json.ts:33-43 | in listing order, the loaded files are the considered files that parse, and the lines printed are one failure line naming each file that does not |
| ValidateJson.ValidatedCountLine | src/scripts/validate-json.ts:44 | the count line gives the number of considered files minus the failures |
| ValidateJson.ErrorLines | src/scripts/validate-json.ts:71-73 | one line per reported error, in order, with its instance path and message |
| ValidateJson.ValidateItems | src/scripts/validate-json.ts:66-75 | the item loop of one file computes its verdict and the lines it prints |
| ValidateJson.ValidateFiles | src/scripts/validate-json.ts:65-76 | the file loop of one folder computes its verdict and lines |
| ValidateJson.ValidateFolder | src/scripts/validate-json.ts:58-77 | one pass of the folder loop: schema lookup, compile, load and validation of the files, with the verdict and lines of the run model |
| ValidateJson.Validate | src/scripts/validate-json.ts:52-89 | the folder loop with the exit-status decision produces the status and console output of the run model |
| ValidateJson.ValidateRunStops | src/scripts/validate-json.ts:62 | after a schema fails to compile, no later folder is validated |
| ValidateJson.ValidateRunNext | src/scripts/validate-json.ts:58-77 | a folder processed after a run that is not aborted adds its errors and lines to those before it and decides whether the run aborts |
| ValidateJson.CheckItemsFacts | src/scripts/validate-json.ts:66-75 | every item is validated, with no short-circuit. A file has errors exactly when some item fails, and a file whose items all pass prints nothing |
| ValidateJson.CheckItemsLines | src/scripts/validate-json.ts:68-73 | every error of every failing item is printed. Nothing else is printed but the header naming the file, which appears exactly when some item fails |
| ValidateJson.CheckFilesErrors | src/scripts/validate-json.ts:65-76 | a folder's files have errors exactly when some item of some loaded file fails |
| ValidateJson.CheckFolderFacts | src/scripts/validate-json.ts:16-25 | a folder aborts exactly when its usable schema does not compile, and has errors exactly when one of its items fails. A missing or unparsable schema prints one warning; a falsy one is skipped silently |
| ValidateJson.AbortStep | src/scripts/validate-json.ts:58-62 | one more folder aborts a run that was not aborted exactly when its usable schema fails to compile |
| ValidateJson.CompileFailureAborts | src/scripts/validate-json.ts:58-62 | a folder whose usable schema fails to compile aborts the run |
| ValidateJson.AbortComesFromFolder | src/scripts/validate-json.ts:58-62 | an aborted run has some folder whose usable schema fails to compile |
| ValidateJson.RunAborts | src/scripts/validate-json.ts:58-62 | the run aborts exactly when some folder's usable schema fails to compile |
| ValidateJson.RunStep | src/scripts/validate-json.ts:58-77 | in a run that is not aborted, each folder's errors join those found before it |
| ValidateJson.FailingFolderFound | src/scripts/validate-json.ts:58-77 | a folder with a failing item sets `hasErrors` |
| ValidateJson.ErrorsComeFromFolder | src/scripts/validate-json.ts:58-77 | `hasErrors` is only set by a folder with a failing item |
| ValidateJson.RunFindsErrors | src/scripts/validate-json.ts:56-77 | unless aborted, `hasErrors` ends true exactly when some item of some folder with a usable schema fails |
| ValidateJson.ExitStatus | src/scripts/validate-json.ts:79-89 | the status is 0 or 1. It is 0 exactly when every usable schema compiles and every loaded item passes, and then the success line comes last |

## Left out

- Assign: a new key goes after all others only for a key that is not an array index; JavaScript lists array-index keys (`"0"`, `"1"`, ...) first. The scripts only assign `$schema`, `definitions` and `<name>.json`, none of which is an array index. `Lookup` likewise sees own properties only, while `obj[k]` in JavaScript also finds inherited names such as `constructor`; the scripts only look up `definitions` and keys they assigned themselves.
- Samples: `all.push(...json)` in `generate-schemas` spreads an array into call arguments. An array longer than the engine's argument limit makes it throw, and that file is then skipped with the invalid-JSON warning. The model always adds every element, because that limit depends on the engine.
- The three scripts expect `data/` to be listable. If it cannot, each script stops before reading any dataset; `generate-api` has already created `api/` by then (`ensureDir` at src/scripts/generate-api.ts line 68). That failure is not modelled.
- `ensureDir`, `outputFile` and `writeFile` are not modelled as I/O. The files a run writes are its result values. Write failures are not modelled. In `generate-schemas`, a failed write of the formatted text (line 82) is caught and falls back to writing the raw text, while a failed raw write (line 86) ends the run. In `generate-api`, any failed write (lines 37, 55 and 85) ends the run.
- The order of directory listings and of glob results is taken to be the listing order given as input. Neither `readdir` nor glob promises an order.
- Only two things of glob's matching are modelled: the `.json` suffix and that `*` skips names starting with a dot. Two others are not. The folder path goes into the glob pattern unescaped (src/scripts/generate-api.ts line 25), so a folder name holding `*`, `?`, `[`, `{`, `(` or `!` matches a different set of files, possibly in another folder. And glob matches case-insensitively by default on macOS and Windows, so `X.JSON` is read there too.
- The `schema.json` test in `generate-api` compares full paths. It is modelled as a test on the file name.
- A dataset folder named `index` would have its artifact overwritten by `api/index.json`. The model returns artifacts and the index as separate results and does not model that overwrite.
- Schema inference (quicktype), JSON text parsing and printing, SHA-1 and the clock are parameters with no definition. Nothing is required of them, except that `FormatIdempotent` requires the stamped schema to survive printing and parsing.
- Ajv is two parameters: whether a schema compiles, and the error list of one validation. An item is valid exactly when its list is empty, and the `errors || []` fallback is covered by that. Compiling is taken to depend on the schema alone. The script uses one Ajv instance for the whole run (src/scripts/validate-json.ts line 6), and each compile registers the schema's `$id` in it. That registry is not modelled: a later schema repeating an `$id` may fail to compile, or a `$ref` to an earlier folder's `$id` may resolve, because of the folders compiled before it.
- Console output of `generate-schemas` and `generate-api` is not modelled. `validate-json`'s lines are modelled as values without their text, and a failed file's error message is not kept.
- Exceptions are modelled as the run stopping: a `Fatal` result, `completed = false`, or an aborted verdict. The exception object is not kept.
- JavaScript numbers are reals, and the artifact count is written as the number of records.
- The scripts' `await`s run one after the other, so concurrency is not modelled.
- src/scripts/generate-exchange-rates.ts is not part of this model. It reads an environment variable, fetches from a network API and writes a file, with no logic of its own.
