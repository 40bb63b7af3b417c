/**
 The publish run (src/scripts/generate-api.ts): every dataset folder, and
 then the schema directory as one more dataset, becomes an artifact
 `api/<name>.json` holding its records, their count, a hash of their compact
 serialisation and a timestamp; an index maps each artifact's file name to
 that metadata and the artifact's public URL.
 */
module GenerateApi {
  import opened Json
  import opened Files

  const ApiBase: string := "https://pontos-cc.github.io/open-data/api/"

  /** The basename of the schema directory, the last folder published. */
  const SchemaDirName: string := "schemas"

  // ---------------------------------------------------------------------
  // readJsonFiles

  /** The names `glob(folder + '/' + '*.json')` matches: `*` never matches a leading dot. */
  predicate GlobMatches(name: string) {
    EndsWith(name, ".json") && !(|name| > 0 && name[0] == '.')
  }

  /** The entries glob returns, in listing order. */
  function Globbed(entries: seq<FileEntry>): seq<FileEntry> {
    if |entries| == 0 then []
    else (if GlobMatches(entries[0].name) then [entries[0]] else []) + Globbed(entries[1..])
  }

  /** Glob returns exactly the listed `.json` entries whose names do not start with a dot. */
  lemma {:induction false} GlobbedMembers(entries: seq<FileEntry>)
    ensures forall f :: f in Globbed(entries) <==> f in entries && GlobMatches(f.name)
  {
    if |entries| > 0 {
      GlobbedMembers(entries[1..]);
      assert entries == [entries[0]] + entries[1..];
    }
  }

  /** The globbed files whose content is published: all but `schema.json`. */
  function Kept(files: seq<FileEntry>): seq<FileEntry> {
    if |files| == 0 then []
    else Kept(files[..|files| - 1]) + (if files[|files| - 1].name != "schema.json" then [files[|files| - 1]] else [])
  }

  /** Exactly the globbed files not named `schema.json` are kept. */
  lemma {:induction false} KeptMembers(files: seq<FileEntry>)
    ensures forall f :: f in Kept(files) <==> f in files && f.name != "schema.json"
  {
    if |files| > 0 {
      KeptMembers(files[..|files| - 1]);
      assert files == files[..|files| - 1] + [files[|files| - 1]];
    }
  }

  /** The records of the first |files| globbed files; `readJson` throws on a file it cannot read or parse. */
  function Entries(files: seq<FileEntry>): Result<seq<JsonValue>> {
    if |files| == 0 then Ok([])
    else
      var prev := Entries(files[..|files| - 1]);
      var file := files[|files| - 1];
      if prev.Fatal? || file.name == "schema.json" then prev
      else
        match file.content
        case Parsed(content) => Ok(prev.value + [content])
        case _ => Fatal(file.name)
  }

  /** A missing folder globs to nothing. */
  function FolderEntries(listing: Listing): Result<seq<JsonValue>> {
    match listing
    case Missing => Ok([])
    case Listed(entries) => Entries(Globbed(entries))
  }

  /** `readJsonFiles`: the loop that pushes each globbed file's content onto `data`. */
  method ReadJsonFiles(listing: Listing) returns (r: Result<seq<JsonValue>>)
    ensures r == FolderEntries(listing)
  {
    if listing.Missing? {
      return Ok([]);
    }
    var files := Globbed(listing.entries);
    var data: seq<JsonValue> := [];
    for i := 0 to |files|
      invariant Entries(files[..i]) == Ok(data)
    {
      var file := files[i];
      assert files[..i + 1][..i] == files[..i];
      if file.name == "schema.json" {
        continue;
      }
      if !file.content.Parsed? {
        assert Entries(files[..i + 1]) == Fatal(file.name);
        EntriesStop(files, i + 1);
        return Fatal(file.name);
      }
      assert Entries(files[..i + 1]) == Ok(data + [file.content.value]);
      data := data + [file.content.value];
    }
    assert files[..|files|] == files;
    return Ok(data);
  }

  lemma {:induction false} EntriesStop(files: seq<FileEntry>, n: nat)
    requires n <= |files| && Entries(files[..n]).Fatal?
    ensures Entries(files) == Entries(files[..n])
    decreases |files| - n
  {
    if n == |files| {
      assert files[..n] == files;
    } else {
      assert files[..n + 1][..n] == files[..n];
      EntriesStop(files, n + 1);
    }
  }

  /**
   Reading succeeds exactly when every kept file parses, and then each kept
   file is one record, in order: an array is not flattened.
   */
  lemma {:induction false} OneRecordPerFile(files: seq<FileEntry>)
    ensures Entries(files).Ok? <==> forall f :: f in Kept(files) ==> f.content.Parsed?
    ensures Entries(files).Ok? ==>
      && |Entries(files).value| == |Kept(files)|
      && forall i :: 0 <= i < |Kept(files)| ==> Entries(files).value[i] == Kept(files)[i].content.value
  {
    if |files| > 0 {
      var init := files[..|files| - 1];
      OneRecordPerFile(init);
    }
  }

  // ---------------------------------------------------------------------
  // loadFolderData, generateUnitedJson, generateIndexEntry

  datatype FolderData = FolderData(data: seq<JsonValue>, hash: string, count: nat)

  /** `stringify` is compact JSON.stringify and `sha1` the hex SHA-1 digest. */
  function FolderDataOf(data: seq<JsonValue>, stringify: JsonValue -> string, sha1: string -> string): FolderData {
    FolderData(data, sha1(stringify(JArray(data))), |data|)
  }

  /** `loadFolderData`: the folder's records, their count and the hash of their serialisation. */
  function LoadFolderData(listing: Listing, stringify: JsonValue -> string, sha1: string -> string): Result<FolderData> {
    match FolderEntries(listing)
    case Fatal(n) => Fatal(n)
    case Ok(data) => Ok(FolderDataOf(data, stringify, sha1))
  }

  /**
   The count is the number of `*.json` files other than `schema.json`, and
   the hash is a function of the record list alone: two folders with the
   same records have the same hash, whatever their file names.
   */
  lemma FolderDataFacts(
    l1: Listing, l2: Listing, stringify: JsonValue -> string, sha1: string -> string)
    requires LoadFolderData(l1, stringify, sha1).Ok? && l1.Listed?
    ensures LoadFolderData(l1, stringify, sha1).value.count == |Kept(Globbed(l1.entries))|
    ensures l2.Listed? && SameContents(Kept(Globbed(l2.entries)), Kept(Globbed(l1.entries))) ==>
      LoadFolderData(l2, stringify, sha1) == LoadFolderData(l1, stringify, sha1)
  {
    var k1 := Kept(Globbed(l1.entries));
    OneRecordPerFile(Globbed(l1.entries));
    if l2.Listed? && SameContents(Kept(Globbed(l2.entries)), k1) {
      var k2 := Kept(Globbed(l2.entries));
      forall f | f in k2 ensures f.content.Parsed? {
        var i :| 0 <= i < |k2| && k2[i] == f;
        assert k1[i] in k1;
      }
      OneRecordPerFile(Globbed(l2.entries));
      var e1 := Entries(Globbed(l1.entries)).value;
      var e2 := Entries(Globbed(l2.entries)).value;
      forall i | 0 <= i < |e1| ensures e2[i] == e1[i] {
        assert k2[i].content == k1[i].content;
      }
      assert e2 == e1;
    }
  }

  /** Two file lists with the same contents in the same order, whatever their names. */
  predicate SameContents(a: seq<FileEntry>, b: seq<FileEntry>) {
    |a| == |b| && forall i :: 0 <= i < |a| ==> a[i].content == b[i].content
  }

  /** `generateUnitedJson`: the artifact document. */
  function UnitedJson(folderData: FolderData, lastUpdated: string): (r: JsonValue)
    ensures r.JObject? && Keys(r.fields) == ["lastUpdated", "contentHash", "count", "data"]
  {
    JObject([
      ("lastUpdated", JString(lastUpdated)),
      ("contentHash", JString(folderData.hash)),
      ("count", JNumber(folderData.count as real)),
      ("data", JArray(folderData.data))])
  }

  datatype IndexEntry = IndexEntry(lastUpdated: string, count: nat, contentHash: string, url: string)

  function GenerateIndexEntry(filename: string, lastUpdated: string, count: nat, hash: string): IndexEntry {
    IndexEntry(lastUpdated, count, hash, ApiBase + filename + ".json")
  }

  /**
   The index entry carries the artifact's timestamp, count and hash; the
   count is the number of records in the artifact; and the artifact's hash
   does not depend on the timestamp.
   */
  lemma EntryMatchesArtifact(
    listing: Listing, filename: string, lastUpdated: string, other: string,
    stringify: JsonValue -> string, sha1: string -> string)
    requires LoadFolderData(listing, stringify, sha1).Ok?
    ensures var fd := LoadFolderData(listing, stringify, sha1).value;
      var e := GenerateIndexEntry(filename, lastUpdated, fd.count, fd.hash);
      && UnitedJson(fd, lastUpdated).fields == [
           ("lastUpdated", JString(e.lastUpdated)),
           ("contentHash", JString(e.contentHash)),
           ("count", JNumber(e.count as real)),
           ("data", JArray(fd.data))]
      && e.count == |fd.data|
      && e.url == ApiBase + filename + ".json"
      && UnitedJson(fd, other).fields[1..] == UnitedJson(fd, lastUpdated).fields[1..]
  {
  }

  // ---------------------------------------------------------------------
  // generate

  /** The run so far: artifacts written in order, the index being built, and whether the run is still going. */
  datatype Publish = Publish(artifacts: seq<(string, JsonValue)>, index: seq<(string, IndexEntry)>, completed: bool)

  /** Whether a folder is published: it reads without an exception and has at least one record. */
  predicate NonEmpty(folder: Folder) {
    FolderEntries(folder.listing).Ok? && FolderEntries(folder.listing).value != []
  }

  /**
   The loop over the first |folders| folders: an empty folder is skipped,
   any other gets an artifact and its index entry, overwriting an earlier
   entry of the same name. `now(i)` is the clock read for folder i.
   */
  function PublishRun(
    folders: seq<Folder>, stringify: JsonValue -> string, sha1: string -> string, now: nat -> string): Publish
  {
    if |folders| == 0 then Publish([], [], true)
    else
      var prev := PublishRun(folders[..|folders| - 1], stringify, sha1, now);
      var folder := folders[|folders| - 1];
      if !prev.completed then prev
      else
        match LoadFolderData(folder.listing, stringify, sha1)
        case Fatal(_) => Publish(prev.artifacts, prev.index, false)
        case Ok(fd) =>
          if fd.count == 0 then prev
          else
            var lastUpdated := now(|folders| - 1);
            var filename := folder.name;
            Publish(
              prev.artifacts + [(filename + ".json", UnitedJson(fd, lastUpdated))],
              Assign(prev.index, filename + ".json", GenerateIndexEntry(filename, lastUpdated, fd.count, fd.hash)),
              true)
  }

  /** The data folders, then the schema directory. */
  function PublishedFolders(root: seq<RootEntry>, schemas: Listing): seq<Folder> {
    DataFolders(root) + [Folder(SchemaDirName, schemas)]
  }

  lemma {:induction false} PublishRunStops(
    folders: seq<Folder>, n: nat, stringify: JsonValue -> string, sha1: string -> string, now: nat -> string)
    requires n <= |folders| && !PublishRun(folders[..n], stringify, sha1, now).completed
    ensures PublishRun(folders, stringify, sha1, now) == PublishRun(folders[..n], stringify, sha1, now)
    decreases |folders| - n
  {
    if n == |folders| {
      assert folders[..n] == folders;
    } else {
      assert folders[..n + 1][..n] == folders[..n];
      PublishRunStops(folders, n + 1, stringify, sha1, now);
    }
  }

  /**
   `generate`: the artifacts written, in order, and the index written to
   `api/index.json`, or None when an exception ended the run first.
   */
  method Generate(
    root: seq<RootEntry>, schemas: Listing,
    stringify: JsonValue -> string, sha1: string -> string, now: nat -> string)
    returns (artifacts: seq<(string, JsonValue)>, written: Option<seq<(string, IndexEntry)>>)
    ensures var p := PublishRun(PublishedFolders(root, schemas), stringify, sha1, now);
      artifacts == p.artifacts && written == (if p.completed then Some(p.index) else None)
  {
    var folders := DataFolders(root);
    folders := folders + [Folder(SchemaDirName, schemas)];
    var index: seq<(string, IndexEntry)> := [];
    artifacts := [];
    for i := 0 to |folders|
      invariant PublishRun(folders[..i], stringify, sha1, now) == Publish(artifacts, index, true)
    {
      var folder := folders[i];
      var data := ReadJsonFiles(folder.listing);
      if data.Fatal? {
        assert folders[..i + 1][..i] == folders[..i];
        PublishRunStops(folders, i + 1, stringify, sha1, now);
        return artifacts, None;
      }
      var folderData := FolderDataOf(data.value, stringify, sha1);
      assert LoadFolderData(folder.listing, stringify, sha1) == Ok(folderData);
      PublishRunNext(folders, i, stringify, sha1, now);
      if folderData.count == 0 {
        continue;
      }
      var lastUpdated := now(i);
      var filename := folder.name;
      artifacts := artifacts + [(filename + ".json", UnitedJson(folderData, lastUpdated))];
      index := Assign(index, filename + ".json", GenerateIndexEntry(filename, lastUpdated, folderData.count, folderData.hash));
    }
    assert folders[..|folders|] == folders;
    written := Some(index);
  }

  /** An artifact without its first property, `lastUpdated`. */
  function Untimed(a: (string, JsonValue)): (string, JsonValue) {
    match a.1
    case JObject(fields) => (a.0, JObject(if |fields| == 0 then fields else fields[1..]))
    case _ => a
  }

  function UntimedAll(artifacts: seq<(string, JsonValue)>): seq<(string, JsonValue)> {
    if |artifacts| == 0 then []
    else UntimedAll(artifacts[..|artifacts| - 1]) + [Untimed(artifacts[|artifacts| - 1])]
  }

  /**
   The clock only decides timestamps: two runs over the same folders with
   different clocks complete alike, write the same artifacts apart from
   `lastUpdated` (same names, hashes, counts and data) and index the same keys.
   */
  lemma {:induction false} ClockIndependent(
    folders: seq<Folder>, stringify: JsonValue -> string, sha1: string -> string, now1: nat -> string, now2: nat -> string)
    ensures var p1 := PublishRun(folders, stringify, sha1, now1);
      var p2 := PublishRun(folders, stringify, sha1, now2);
      && p1.completed == p2.completed
      && UntimedAll(p1.artifacts) == UntimedAll(p2.artifacts)
      && Keys(p1.index) == Keys(p2.index)
  {
    if |folders| > 0 {
      var init := folders[..|folders| - 1];
      ClockIndependent(init, stringify, sha1, now1, now2);
      var q1 := PublishRun(init, stringify, sha1, now1);
      var q2 := PublishRun(init, stringify, sha1, now2);
      var folder := folders[|folders| - 1];
      if q1.completed && LoadFolderData(folder.listing, stringify, sha1).Ok? {
        var fd := LoadFolderData(folder.listing, stringify, sha1).value;
        if fd.count != 0 {
          var name := folder.name + ".json";
          var a1 := (name, UnitedJson(fd, now1(|folders| - 1)));
          var a2 := (name, UnitedJson(fd, now2(|folders| - 1)));
          assert Untimed(a1) == Untimed(a2);
          assert (q1.artifacts + [a1])[..|q1.artifacts|] == q1.artifacts;
          assert (q2.artifacts + [a2])[..|q2.artifacts|] == q2.artifacts;
          assert UntimedAll(q1.artifacts + [a1]) == UntimedAll(q1.artifacts) + [Untimed(a1)];
          assert UntimedAll(q2.artifacts + [a2]) == UntimedAll(q2.artifacts) + [Untimed(a2)];
        }
      }
    }
  }

  /** The run over one more folder that loads, after a run that completed. */
  lemma PublishRunNext(
    folders: seq<Folder>, i: nat, stringify: JsonValue -> string, sha1: string -> string, now: nat -> string)
    requires i < |folders| && PublishRun(folders[..i], stringify, sha1, now).completed
    requires LoadFolderData(folders[i].listing, stringify, sha1).Ok?
    ensures var prev := PublishRun(folders[..i], stringify, sha1, now);
      var fd := LoadFolderData(folders[i].listing, stringify, sha1).value;
      var name := folders[i].name;
      PublishRun(folders[..i + 1], stringify, sha1, now) ==
        if fd.count == 0 then prev
        else Publish(
          prev.artifacts + [(name + ".json", UnitedJson(fd, now(i)))],
          Assign(prev.index, name + ".json", GenerateIndexEntry(name, now(i), fd.count, fd.hash)),
          true)
  {
    assert folders[..i + 1][..i] == folders[..i];
  }

  /** One step of the run: a published folder adds its key, any other folder adds nothing. */
  lemma PublishStep(
    folders: seq<Folder>, stringify: JsonValue -> string, sha1: string -> string, now: nat -> string)
    requires |folders| > 0 && PublishRun(folders, stringify, sha1, now).completed
    ensures var prev := PublishRun(folders[..|folders| - 1], stringify, sha1, now);
      var folder := folders[|folders| - 1];
      var p := PublishRun(folders, stringify, sha1, now);
      && prev.completed
      && (!NonEmpty(folder) ==> p == prev)
      && (NonEmpty(folder) ==>
           var fd := LoadFolderData(folder.listing, stringify, sha1).value;
           && p.index == Assign(prev.index, folder.name + ".json",
                GenerateIndexEntry(folder.name, now(|folders| - 1), fd.count, fd.hash))
           && p.artifacts == prev.artifacts + [(folder.name + ".json", UnitedJson(fd, now(|folders| - 1)))])
  {
  }

  /** Folder i is published under the file name k. */
  predicate PublishedAs(folders: seq<Folder>, i: int, k: string) {
    0 <= i < |folders| && NonEmpty(folders[i]) && k == folders[i].name + ".json"
  }

  /** One step of the run, on index keys: the keys so far stay, and a published folder adds its own. */
  lemma IndexKeysStep(
    folders: seq<Folder>, stringify: JsonValue -> string, sha1: string -> string, now: nat -> string)
    requires |folders| > 0 && PublishRun(folders, stringify, sha1, now).completed
    ensures var before := Keys(PublishRun(folders[..|folders| - 1], stringify, sha1, now).index);
      var after := Keys(PublishRun(folders, stringify, sha1, now).index);
      var key := folders[|folders| - 1].name + ".json";
      && PublishRun(folders[..|folders| - 1], stringify, sha1, now).completed
      && (forall k :: k in before ==> k in after)
      && (NonEmpty(folders[|folders| - 1]) ==> key in after)
      && (forall k :: k in after ==> k in before || (NonEmpty(folders[|folders| - 1]) && k == key))
  {
    PublishStep(folders, stringify, sha1, now);
  }

  /** A published folder's file name is a key of the index. */
  lemma {:induction false} PublishedFolderIndexed(
    folders: seq<Folder>, stringify: JsonValue -> string, sha1: string -> string, now: nat -> string, i: nat)
    requires PublishRun(folders, stringify, sha1, now).completed
    requires i < |folders| && NonEmpty(folders[i])
    ensures folders[i].name + ".json" in Keys(PublishRun(folders, stringify, sha1, now).index)
  {
    var last := |folders| - 1;
    IndexKeysStep(folders, stringify, sha1, now);
    if i < last {
      assert folders[..last][i] == folders[i];
      PublishedFolderIndexed(folders[..last], stringify, sha1, now, i);
    } else {
      assert i == last;
    }
  }

  /** Every index key is the file name of a published folder. */
  lemma {:induction false} IndexKeyFromFolder(
    folders: seq<Folder>, stringify: JsonValue -> string, sha1: string -> string, now: nat -> string, k: string)
    returns (i: nat)
    requires PublishRun(folders, stringify, sha1, now).completed
    requires k in Keys(PublishRun(folders, stringify, sha1, now).index)
    ensures PublishedAs(folders, i, k)
  {
    var last := |folders| - 1;
    IndexKeysStep(folders, stringify, sha1, now);
    if PublishedAs(folders, last, k) {
      i := last;
    } else {
      i := IndexKeyFromFolder(folders[..last], stringify, sha1, now, k);
      assert folders[..last][i] == folders[i];
    }
  }

  /** The index keys are exactly `<name>.json` for the published folders. */
  lemma IndexKeys(
    folders: seq<Folder>, stringify: JsonValue -> string, sha1: string -> string, now: nat -> string, k: string)
    requires PublishRun(folders, stringify, sha1, now).completed
    ensures k in Keys(PublishRun(folders, stringify, sha1, now).index) <==> exists i :: PublishedAs(folders, i, k)
  {
    if k in Keys(PublishRun(folders, stringify, sha1, now).index) {
      var i := IndexKeyFromFolder(folders, stringify, sha1, now, k);
    }
    if exists i :: PublishedAs(folders, i, k) {
      var i :| PublishedAs(folders, i, k);
      PublishedFolderIndexed(folders, stringify, sha1, now, i);
    }
  }

  /** No key appears twice in the index. */
  lemma {:induction false} IndexKeysDistinct(
    folders: seq<Folder>, stringify: JsonValue -> string, sha1: string -> string, now: nat -> string)
    requires PublishRun(folders, stringify, sha1, now).completed
    ensures DistinctKeys(PublishRun(folders, stringify, sha1, now).index)
  {
    if |folders| > 0 {
      var init := folders[..|folders| - 1];
      var folder := folders[|folders| - 1];
      PublishStep(folders, stringify, sha1, now);
      IndexKeysDistinct(init, stringify, sha1, now);
      if NonEmpty(folder) {
        var fd := LoadFolderData(folder.listing, stringify, sha1).value;
        AssignKeepsKeysDistinct(PublishRun(init, stringify, sha1, now).index, folder.name + ".json",
          GenerateIndexEntry(folder.name, now(|folders| - 1), fd.count, fd.hash));
      }
    }
  }

  /**
   A published folder's entry is the one built from it, with its own clock
   reading, unless a later published folder has the same name and so
   overwrites it.
   */
  lemma {:induction false} IndexEntryOfLastFolder(
    folders: seq<Folder>, stringify: JsonValue -> string, sha1: string -> string, now: nat -> string, i: nat)
    requires PublishRun(folders, stringify, sha1, now).completed
    requires i < |folders| && NonEmpty(folders[i])
    requires forall j :: i < j < |folders| && NonEmpty(folders[j]) ==> folders[j].name != folders[i].name
    ensures var fd := LoadFolderData(folders[i].listing, stringify, sha1).value;
      Lookup(PublishRun(folders, stringify, sha1, now).index, folders[i].name + ".json")
        == Some(GenerateIndexEntry(folders[i].name, now(i), fd.count, fd.hash))
  {
    var init := folders[..|folders| - 1];
    var folder := folders[|folders| - 1];
    if i < |folders| - 1 {
      assert init[i] == folders[i];
      IndexEntryOfLastFolder(init, stringify, sha1, now, i);
      if NonEmpty(folder) {
        JsonNameInjective(folder.name, folders[i].name);
      }
    }
  }

  /**
   The schema directory is published last, so when it has records its
   entry `schemas.json` is the one built from it, even when a data folder is
   also named `schemas`.
   */
  lemma SchemasEntryWins(
    root: seq<RootEntry>, schemas: Listing, stringify: JsonValue -> string, sha1: string -> string, now: nat -> string)
    requires PublishRun(PublishedFolders(root, schemas), stringify, sha1, now).completed
    requires NonEmpty(Folder(SchemaDirName, schemas))
    ensures var fd := LoadFolderData(schemas, stringify, sha1).value;
      Lookup(PublishRun(PublishedFolders(root, schemas), stringify, sha1, now).index, SchemaDirName + ".json")
        == Some(GenerateIndexEntry(SchemaDirName, now(|DataFolders(root)|), fd.count, fd.hash))
  {
    var folders := PublishedFolders(root, schemas);
    IndexEntryOfLastFolder(folders, stringify, sha1, now, |folders| - 1);
  }

  /** Folder i is published, and a is its artifact. */
  predicate ArtifactAt(
    folders: seq<Folder>, i: int, a: (string, JsonValue), stringify: JsonValue -> string, sha1: string -> string, now: nat -> string)
  {
    0 <= i < |folders| && NonEmpty(folders[i]) && a == ArtifactOf(folders[i], i, stringify, sha1, now)
  }

  /** One step of the run, on artifacts: the last folder adds its own artifact if it is published. */
  lemma ArtifactsStep(
    folders: seq<Folder>, stringify: JsonValue -> string, sha1: string -> string, now: nat -> string,
    a: (string, JsonValue))
    requires |folders| > 0 && PublishRun(folders, stringify, sha1, now).completed
    ensures PublishRun(folders[..|folders| - 1], stringify, sha1, now).completed
    ensures a in PublishRun(folders, stringify, sha1, now).artifacts <==>
      a in PublishRun(folders[..|folders| - 1], stringify, sha1, now).artifacts
      || ArtifactAt(folders, |folders| - 1, a, stringify, sha1, now)
  {
    var last := |folders| - 1;
    ArtifactsAppend(folders, stringify, sha1, now);
    var before := PublishRun(folders[..last], stringify, sha1, now).artifacts;
    var after := PublishRun(folders, stringify, sha1, now).artifacts;
    if NonEmpty(folders[last]) {
      var x := ArtifactOf(folders[last], last, stringify, sha1, now);
      assert after == before + [x];
      assert ArtifactAt(folders, last, a, stringify, sha1, now) <==> a == x;
      assert a in after <==> a in before || a == x;
    } else {
      assert after == before;
      assert !ArtifactAt(folders, last, a, stringify, sha1, now);
    }
  }

  /** One step of a completed run, on artifacts alone. */
  lemma ArtifactsAppend(
    folders: seq<Folder>, stringify: JsonValue -> string, sha1: string -> string, now: nat -> string)
    requires |folders| > 0 && PublishRun(folders, stringify, sha1, now).completed
    ensures var prev := PublishRun(folders[..|folders| - 1], stringify, sha1, now);
      var folder := folders[|folders| - 1];
      var after := PublishRun(folders, stringify, sha1, now).artifacts;
      && prev.completed
      && (!NonEmpty(folder) ==> after == prev.artifacts)
      && (NonEmpty(folder) ==>
           after == prev.artifacts + [(folder.name + ".json",
             UnitedJson(LoadFolderData(folder.listing, stringify, sha1).value, now(|folders| - 1)))])
  {
  }

  /** Folder i of a prefix is published with artifact a exactly when it is in the whole sequence. */
  lemma ArtifactAtPrefix(
    folders: seq<Folder>, n: nat, i: int, a: (string, JsonValue),
    stringify: JsonValue -> string, sha1: string -> string, now: nat -> string)
    requires n <= |folders| && i < n
    ensures ArtifactAt(folders[..n], i, a, stringify, sha1, now) <==> ArtifactAt(folders, i, a, stringify, sha1, now)
  {
    if 0 <= i {
      assert folders[..n][i] == folders[i];
    }
  }

  /** Every published folder has its artifact written, with its own clock reading. */
  lemma {:induction false} PublishedFolderHasArtifact(
    folders: seq<Folder>, stringify: JsonValue -> string, sha1: string -> string, now: nat -> string, i: nat)
    requires PublishRun(folders, stringify, sha1, now).completed
    requires i < |folders| && NonEmpty(folders[i])
    ensures ArtifactOf(folders[i], i, stringify, sha1, now) in PublishRun(folders, stringify, sha1, now).artifacts
  {
    var last := |folders| - 1;
    var a := ArtifactOf(folders[i], i, stringify, sha1, now);
    ArtifactsStep(folders, stringify, sha1, now, a);
    if i < last {
      PublishedFolderHasArtifact(folders[..last], stringify, sha1, now, i);
      ArtifactAtPrefix(folders, last, i, a, stringify, sha1, now);
    }
  }

  /**
   One step of any run, completed or not: the artifacts stay as they were,
   or the run so far completed and the folder, published, appends its own.
   */
  lemma ArtifactsGrow(
    folders: seq<Folder>, stringify: JsonValue -> string, sha1: string -> string, now: nat -> string)
    requires |folders| > 0
    ensures var prev := PublishRun(folders[..|folders| - 1], stringify, sha1, now);
      var folder := folders[|folders| - 1];
      var after := PublishRun(folders, stringify, sha1, now).artifacts;
      || after == prev.artifacts
      || (&& prev.completed && NonEmpty(folder)
          && after == prev.artifacts + [(folder.name + ".json",
               UnitedJson(LoadFolderData(folder.listing, stringify, sha1).value, now(|folders| - 1)))])
  {
  }

  /** Every artifact written is that of a published folder: an empty folder gets none. */
  lemma {:induction false} ArtifactComesFromFolder(
    folders: seq<Folder>, stringify: JsonValue -> string, sha1: string -> string, now: nat -> string,
    a: (string, JsonValue)) returns (i: nat)
    requires a in PublishRun(folders, stringify, sha1, now).artifacts
    ensures ArtifactAt(folders, i, a, stringify, sha1, now)
  {
    var last := |folders| - 1;
    ArtifactsGrow(folders, stringify, sha1, now);
    if PublishRun(folders[..last], stringify, sha1, now).completed && ArtifactAt(folders, last, a, stringify, sha1, now) {
      i := last;
    } else {
      i := ArtifactComesFromFolder(folders[..last], stringify, sha1, now, a);
      ArtifactAtPrefix(folders, last, i, a, stringify, sha1, now);
    }
  }

  /** The artifact folder i gets: `<name>.json` and its document, stamped with clock reading i. */
  function ArtifactOf(folder: Folder, i: nat, stringify: JsonValue -> string, sha1: string -> string, now: nat -> string): (string, JsonValue)
    requires NonEmpty(folder)
  {
    (folder.name + ".json", UnitedJson(LoadFolderData(folder.listing, stringify, sha1).value, now(i)))
  }
}
