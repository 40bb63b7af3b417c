/**
 What the three scripts see of the file store. A directory listing gives,
 for every name in it, what reading and parsing that file yields; a
 sub-directory or a file that cannot be read is `Unreadable`. Listing order
 is the order the directory enumeration returned, which the scripts keep.
 */
module Files {
  import opened Json

  /** A script's run either goes on or stops with an exception, naming what it was reading. */
  datatype Result<+T> = Ok(value: T) | Fatal(file: string)

  /**
   What reading and parsing a file yields. The reader differs between the
   scripts: `generate-api` uses fs-extra's `readJson`, which strips a UTF-8
   byte-order mark, and the other two use `readFile` and `JSON.parse`, which
   reject one. A listing passed to a script is what that script's own reader
   makes of the files.
   */
  datatype Content = Unreadable | Malformed | Parsed(value: JsonValue)

  datatype FileEntry = FileEntry(name: string, content: Content)

  /** A directory that could not be listed is `Missing`. */
  datatype Listing = Missing | Listed(entries: seq<FileEntry>)

  /** A dataset folder: its name (the directory's basename) and its listing. */
  datatype Folder = Folder(name: string, listing: Listing)

  /** One entry of `data/`, as `readdir(..., { withFileTypes: true })` reports it. */
  datatype RootEntry = Directory(folder: Folder) | NonDirectory(name: string)

  predicate EndsWith(s: string, suffix: string) {
    |suffix| <= |s| && s[|s| - |suffix|..] == suffix
  }

  /**
   `getDataFolders` / `getFolders`: the directories among the entries of the
   data root, in listing order; plain files are dropped.
   */
  function DataFolders(root: seq<RootEntry>): seq<Folder> {
    if |root| == 0 then []
    else
      (match root[0] case Directory(f) => [f] case NonDirectory(_) => [])
      + DataFolders(root[1..])
  }

  /** The folders are exactly the directory entries, and there are no more of them than entries. */
  lemma {:induction false} DataFoldersMembers(root: seq<RootEntry>)
    ensures forall f :: f in DataFolders(root) <==> Directory(f) in root
    ensures |DataFolders(root)| <= |root|
  {
    if |root| > 0 {
      DataFoldersMembers(root[1..]);
      assert root == [root[0]] + root[1..];
    }
  }

  /** Filtering the concatenation of two listings keeps the order of both parts. */
  lemma {:induction false} DataFoldersConcat(a: seq<RootEntry>, b: seq<RootEntry>)
    ensures DataFolders(a + b) == DataFolders(a) + DataFolders(b)
  {
    if |a| == 0 {
      assert a + b == b;
    } else {
      var head := match a[0] case Directory(f) => [f] case NonDirectory(_) => [];
      assert (a + b)[0] == a[0];
      assert (a + b)[1..] == a[1..] + b;
      assert DataFolders(a + b) == head + DataFolders(a[1..] + b);
      DataFoldersConcat(a[1..], b);
      assert DataFolders(a) == head + DataFolders(a[1..]);
    }
  }

  /** Entry i is the first of its listing named `name`. */
  predicate FirstNamed(entries: seq<FileEntry>, i: int, name: string) {
    0 <= i < |entries| && entries[i].name == name && forall j :: 0 <= j < i ==> entries[j].name != name
  }

  /** `readFile(dir/name)`: the content of the first entry of that name. */
  function ReadEntry(listing: Listing, name: string): (c: Content)
    ensures c != Unreadable ==> listing.Listed? && FileEntry(name, c) in listing.entries
    ensures listing.Missing? ==> c == Unreadable
    ensures listing.Listed? ==> forall i :: FirstNamed(listing.entries, i, name) ==> c == listing.entries[i].content
  {
    match listing
    case Missing => Unreadable
    case Listed(entries) => FindContent(entries, name)
  }

  function FindContent(entries: seq<FileEntry>, name: string): (c: Content)
    ensures c != Unreadable ==> FileEntry(name, c) in entries
    ensures (forall i :: 0 <= i < |entries| ==> entries[i].name != name) ==> c == Unreadable
    ensures forall i :: FirstNamed(entries, i, name) ==> c == entries[i].content
  {
    if |entries| == 0 then Unreadable
    else if entries[0].name == name then entries[0].content
    else
      var c := FindContent(entries[1..], name);
      assert forall i :: FirstNamed(entries, i, name) ==> FirstNamed(entries[1..], i - 1, name);
      c
  }

  /** Distinct folder names give distinct `<name>.json` file names. */
  lemma JsonNameInjective(a: string, b: string)
    ensures a + ".json" == b + ".json" ==> a == b
  {
    if a + ".json" == b + ".json" {
      assert a == (a + ".json")[..|a|];
      assert b == (b + ".json")[..|b|];
    }
  }
}
