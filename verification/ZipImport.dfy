/** The files of an uploaded zip archive as a tree: how each finds its parent, and the pruning of
    unreadable files and empty directories before the import. */
module ZipImport {
  import opened Sequences

  datatype Kind = CollectionKind | AssetKind | UnknownKind

  function WithoutTrailingSlash(name: string): string {
    if name != "" && name[|name| - 1] == '/' then name[..|name| - 1] else name
  }

  /** What follows the last slash. */
  function Basename(path: string): string {
    if path == "" || path[|path| - 1] == '/' then "" else Basename(path[..|path| - 1]) + [path[|path| - 1]]
  }

  function WithoutSlashesAtEnd(path: string): string {
    if path != "" && path[|path| - 1] == '/' then WithoutSlashesAtEnd(path[..|path| - 1]) else path
  }

  /** os.path.dirname: up to the last slash, without the slashes at its end unless there is nothing else. */
  function Dirname(path: string): string
    requires |Basename(path)| <= |path|
  {
    var head := path[..|path| - |Basename(path)|];
    if WithoutSlashesAtEnd(head) == "" then head else WithoutSlashesAtEnd(head)
  }

  lemma {:induction false} BasenameFits(path: string)
    ensures |Basename(path)| <= |path|
  {
    if path != "" {
      BasenameFits(path[..|path| - 1]);
    }
  }

  function DirnameOf(name: string): string {
    BasenameFits(WithoutTrailingSlash(name));
    Dirname(WithoutTrailingSlash(name))
  }

  /** Directory and last part, joined. */
  function OwnPathOf(name: string): string {
    var path := WithoutTrailingSlash(name);
    if DirnameOf(name) == "" then Basename(path) else DirnameOf(name) + "/" + Basename(path)
  }

  predicate OnlySlashes(s: string) {
    forall i :: 0 <= i < |s| ==> s[i] == '/'
  }

  /** A path without a slash at its start and without two slashes in a row before its last part. */
  predicate IsPlainPath(path: string) {
    BasenameFits(path);
    var head := path[..|path| - |Basename(path)|];
    head == "" || (|head| > 1 && head[|head| - 2] != '/')
  }

  lemma {:induction false} SlashesAtEnd(path: string)
    ensures WithoutSlashesAtEnd(path) <= path && OnlySlashes(path[|WithoutSlashesAtEnd(path)|..])
    ensures WithoutSlashesAtEnd(path) != "" ==> WithoutSlashesAtEnd(path)[|WithoutSlashesAtEnd(path)| - 1] != '/'
  {
    if path != "" && path[|path| - 1] == '/' {
      SlashesAtEnd(path[..|path| - 1]);
    }
  }

  lemma {:induction false} HeadEndsInSlash(path: string)
    ensures |Basename(path)| <= |path|
    ensures |Basename(path)| < |path| ==> path[|path| - |Basename(path)| - 1] == '/'
  {
    BasenameFits(path);
    if path != "" && path[|path| - 1] != '/' {
      HeadEndsInSlash(path[..|path| - 1]);
    }
  }

  /** The path is the directory, some slashes, and the last part. */
  lemma PathIsSplit(name: string)
    ensures forall i :: 0 <= i < |Basename(WithoutTrailingSlash(name))| ==>
                          Basename(WithoutTrailingSlash(name))[i] != '/'
    ensures var path, d := WithoutTrailingSlash(name), DirnameOf(name);
            && |d| + |Basename(path)| <= |path|
            && path == d + path[|d|..|path| - |Basename(path)|] + Basename(path)
            && OnlySlashes(path[|d|..|path| - |Basename(path)|])
            && (d != "" ==> OnlySlashes(d) || d[|d| - 1] != '/')
            && (|d| + |Basename(path)| < |path| ==> path[|path| - |Basename(path)| - 1] == '/')
            && (d == "" ==> path == Basename(path))
  {
    HeadEndsInSlash(WithoutTrailingSlash(name));
    BasenameIsSlashFree(WithoutTrailingSlash(name));
    var path, d := WithoutTrailingSlash(name), DirnameOf(name);
    BasenameFits(path);
    BasenameEnds(path);
    var head := path[..|path| - |Basename(path)|];
    SlashesAtEnd(head);
    assert path == head + Basename(path);
    assert head == d + head[|d|..];
    assert path[|d|..|path| - |Basename(path)|] == head[|d|..];
    assert WithoutSlashesAtEnd(head) == "" ==> head[|WithoutSlashesAtEnd(head)|..] == head;
  }

  /** One slash at the end changes nothing. */
  lemma TrailingSlashIsIgnored(name: string)
    requires name != "" && name[|name| - 1] != '/'
    ensures WithoutTrailingSlash(name) == name && WithoutTrailingSlash(name + "/") == name
    ensures DirnameOf(name + "/") == DirnameOf(name) && OwnPathOf(name + "/") == OwnPathOf(name)
  {
    assert (name + "/")[..|name|] == name;
  }

  /** Directory and last part, joined, are the path again exactly when the path is plain. */
  lemma PlainPathIsRebuiltIff(name: string)
    ensures OwnPathOf(name) == WithoutTrailingSlash(name) <==> IsPlainPath(WithoutTrailingSlash(name))
  {
    var path, d := WithoutTrailingSlash(name), DirnameOf(name);
    PathIsSplit(name);
    HeadEndsInSlash(path);
    BasenameEnds(path);
    var head := path[..|path| - |Basename(path)|];
    assert path == head + Basename(path) && head == d + head[|d|..];
    assert forall i :: |d| <= i < |head| ==> head[i] == path[|d|..|head|][i - |d|];
    if IsPlainPath(path) && head != "" {
      assert !OnlySlashes(d) && d != "" by {
        assert head[|head| - 2] != '/';
      }
      assert |d| == |head| - 1;
      assert head == d + "/";
    }
    if OwnPathOf(name) == path && head != "" {
      assert d != "" && |d| == |head| - 1;
      assert d[|d| - 1] == head[|head| - 2];
      assert !OnlySlashes(d) by {
        SlashesAtEnd(head);
      }
    }
  }

  lemma {:induction false} BasenameEnds(path: string)
    ensures |Basename(path)| <= |path| && path[|path| - |Basename(path)|..] == Basename(path)
  {
    BasenameFits(path);
    if path != "" && path[|path| - 1] != '/' {
      BasenameEnds(path[..|path| - 1]);
      assert path == path[..|path| - 1] + [path[|path| - 1]];
    }
  }

  /** What a file holds: a directory entry, something the spreadsheet reader accepts, a zip archive, or else. */
  datatype Contents = Directory | Spreadsheet | Archive | OtherContents

  class ImportFile {
    const name: string
    const contents: Contents
    const dirname: string
    const ownPath: string
    var parent: ImportFile?

    constructor (name: string, contents: Contents, parent: ImportFile?)
      ensures this.name == name && this.contents == contents && this.parent == parent
      ensures PathsOk()
      ensures dirname == DirnameOf(name) && ownPath == OwnPathOf(name)
    {
      this.name := name;
      this.contents := contents;
      this.parent := parent;
      var path := WithoutTrailingSlash(name);
      BasenameFits(path);
      var dirname := Dirname(path);
      this.dirname := dirname;
      this.ownPath := if dirname == "" then Basename(path) else dirname + "/" + Basename(path);
    }

    predicate IsDir() {
      contents == Directory
    }

    predicate PathsOk() {
      dirname != "" ==> |dirname| < |ownPath|
    }

    /** As its constructor leaves an entry of the archive. */
    predicate IsNewUnder(root: ImportFile)
      reads this
    {
      parent == root && PathsOk() && contents != Archive
    }

    /** The type given by `parse`. */
    function GetType(): Kind {
      match contents
      case Directory => CollectionKind
      case Archive => CollectionKind
      case Spreadsheet => AssetKind
      case OtherContents => UnknownKind
    }
  }

  /** The list without some members, in order. */
  function Minus<T>(s: seq<T>, gone: set<T>): (r: seq<T>)
    ensures forall x | x in s :: x in r <==> x !in gone
    ensures forall i | 0 <= i < |r| :: r[i] in s
    ensures |r| <= |s|
  {
    if s == [] then []
    else
      var init, last := Minus(s[..|s| - 1], gone), s[|s| - 1];
      assert s == s[..|s| - 1] + [last];
      if last in gone then init else init + [last]
  }

  /** list.remove: the list without its first x. */
  function Without<T(==)>(s: seq<T>, x: T): seq<T> {
    if s == [] then [] else if s[0] == x then s[1..] else [s[0]] + Without(s[1..], x)
  }

  lemma {:induction false} MinusConcat<T>(a: seq<T>, b: seq<T>, gone: set<T>)
    ensures Minus(a + b, gone) == Minus(a, gone) + Minus(b, gone)
    decreases b
  {
    if b == [] {
      assert a + b == a;
    } else {
      assert (a + b)[..|a + b| - 1] == a + b[..|b| - 1];
      MinusConcat(a, b[..|b| - 1], gone);
    }
  }

  lemma {:induction false} MinusNothing<T>(s: seq<T>, gone: set<T>)
    requires forall x :: x in s ==> x !in gone
    ensures Minus(s, gone) == s
  {
    if s != [] {
      MinusNothing(s[..|s| - 1], gone);
      assert s == s[..|s| - 1] + [s[|s| - 1]];
    }
  }

  lemma MinusHead<T>(s: seq<T>, gone: set<T>)
    requires s != []
    ensures Minus(s, gone) == (if s[0] in gone then [] else [s[0]]) + Minus(s[1..], gone)
  {
    assert s == [s[0]] + s[1..];
    MinusConcat([s[0]], s[1..], gone);
    assert Minus([s[0]], gone) == if s[0] in gone then [] else [s[0]];
  }

  lemma {:induction false} WithoutIsMinus<T>(s: seq<T>, x: T)
    requires Distinct(s)
    ensures Without(s, x) == Minus(s, {x})
    decreases s
  {
    if s != [] {
      MinusHead(s, {x});
      if s[0] == x {
        forall y | y in s[1..] ensures y !in {x} {
          var i :| 0 <= i < |s| - 1 && s[1..][i] == y;
          assert s[i + 1] == y;
        }
        MinusNothing(s[1..], {x});
      } else {
        WithoutIsMinus(s[1..], x);
      }
    }
  }

  lemma {:induction false} MinusMinus<T>(s: seq<T>, gone: set<T>, more: set<T>)
    ensures Minus(Minus(s, gone), more) == Minus(s, gone + more)
  {
    if s != [] {
      var init, last := s[..|s| - 1], s[|s| - 1];
      MinusMinus(init, gone, more);
      MinusConcat(Minus(init, gone), [last], more);
      assert Minus([last], more) == if last in more then [] else [last];
    }
  }

  lemma {:induction false} MinusIsDistinct<T>(s: seq<T>, gone: set<T>)
    requires Distinct(s)
    ensures Distinct(Minus(s, gone))
  {
    if s != [] {
      MinusIsDistinct(s[..|s| - 1], gone);
    }
  }

  lemma {:induction false} MinusCounts<T>(s: seq<T>, gone: set<T>)
    requires Distinct(s) && forall x :: x in gone ==> x in s
    ensures |Minus(s, gone)| == |s| - |gone|
  {
    if s == [] {
      assert gone == {};
    } else {
      var init, last := s[..|s| - 1], s[|s| - 1];
      assert s == init + [last];
      if last in gone {
        MinusSame(init, gone, gone - {last});
        MinusCounts(init, gone - {last});
      } else {
        MinusCounts(init, gone);
      }
    }
  }

  lemma {:induction false} MinusSame<T>(s: seq<T>, gone: set<T>, gone2: set<T>)
    requires forall x :: x in s ==> (x in gone <==> x in gone2)
    ensures Minus(s, gone) == Minus(s, gone2)
  {
    if s != [] {
      MinusSame(s[..|s| - 1], gone, gone2);
      assert forall x :: x in s[..|s| - 1] ==> x in s;
      assert s[|s| - 1] in s;
    }
  }

  // ---- The tree ----

  /** A file lies below the directory, at most n levels down, through directories of the list. */
  ghost predicate FileBelow(items: set<ImportFile>, d: ImportFile, n: nat)
    reads items
  {
    n > 0 && exists c :: c in items && c.parent == d && (c.IsDir() ==> FileBelow(items, c, n - 1))
  }

  ghost predicate HasFileBelow(items: set<ImportFile>, d: ImportFile)
    reads items
  {
    exists n: nat :: FileBelow(items, d, n)
  }

  /** Parents: none for the root; for another file the root or the file at its directory's path. */
  predicate WellParented(items: set<ImportFile>, root: ImportFile)
    reads items
  {
    && (root in items ==> root.parent == null)
    && !root.IsDir()
    && forall f :: f in items && f != root ==>
                     && f.PathsOk() && f.parent != null
                     && (f.parent == root || (f.dirname != "" && f.parent.ownPath == f.dirname))
  }

  ghost function Dead(items: set<ImportFile>): set<ImportFile>
    reads items
  {
    set d | d in items && d.IsDir() && !HasFileBelow(items, d)
  }

  /** Directories of the list without children there. */
  function Childless(items: seq<ImportFile>): set<ImportFile>
    reads items
  {
    set d | d in items && d.IsDir() && forall c | c in items :: c.parent != d
  }

  /** A directory whose children in the list are all dead directories is dead. */
  lemma DeadIfChildrenAre(items: set<ImportFile>, gone: set<ImportFile>, d: ImportFile)
    requires d in items && d.IsDir() && gone <= Dead(items)
    requires forall c :: c in items && c !in gone ==> c.parent != d
    ensures d in Dead(items)
  {
    forall n: nat ensures !FileBelow(items, d, n) {
      if n > 0 {
        forall c | c in items && c.parent == d ensures c.IsDir() && !FileBelow(items, c, n - 1) {
          assert c in Dead(items);
        }
      }
    }
  }

  function LongestPath(s: seq<ImportFile>): (n: nat)
    ensures forall f :: f in s ==> |f.ownPath| <= n
  {
    if s == [] then 0
    else
      var n, f := LongestPath(s[1..]), s[0];
      assert s == [f] + s[1..];
      if |f.ownPath| <= n then n else |f.ownPath|
  }

  /** When every directory still in the list has a child there, each has a file below it:
      paths grow from parent to child, so the way down cannot go on for ever. */
  lemma {:induction false} FileIsBelow(items: set<ImportFile>, s: seq<ImportFile>, root: ImportFile, d: ImportFile)
    requires WellParented(items, root) && SetOf(s) <= items && d in s && d.IsDir()
    requires Childless(s) == {}
    ensures HasFileBelow(items, d)
    decreases LongestPath(s) - |d.ownPath|
  {
    assert d !in Childless(s);
    var c :| c in s && c.parent == d;
    assert c in SetOf(s);
    assert c != root && d != root;
    if c.IsDir() {
      FileIsBelow(items, s, root, c);
      var n: nat :| FileBelow(items, c, n);
      assert FileBelow(items, d, n + 1);
    } else {
      assert FileBelow(items, d, 1);
    }
  }

  datatype Entry = Entry(filename: string, isEmpty: bool, isXls: bool) {
    predicate IsHidden() {
      var base := Basename(filename);
      base != "" && (base[0] == '.' || base[0] == '#')
    }

    function Contents(): Contents {
      if isEmpty && filename != "" && filename[|filename| - 1] == '/' then Directory
      else if isXls then Spreadsheet
      else OtherContents
    }
  }

  /** The last part of the path starts at i, with something that is no slash. */
  predicate StartsLastPart(path: string, i: int) {
    && 0 <= i < |path| && (i > 0 ==> path[i - 1] == '/')
    && forall j :: i <= j < |path| ==> path[j] != '/'
  }

  /** Hidden: the last part of the path starts with a dot or a hash. */
  lemma HiddenIff(e: Entry)
    ensures e.IsHidden() <==>
            exists i :: StartsLastPart(e.filename, i) && (e.filename[i] == '.' || e.filename[i] == '#')
  {
    var n := |e.filename| - |Basename(e.filename)|;
    LastPartIsBasename(e.filename);
    if Basename(e.filename) != "" {
      assert StartsLastPart(e.filename, n) && e.filename[n] == Basename(e.filename)[0];
    }
  }

  lemma LastPartIsBasename(path: string)
    ensures |Basename(path)| <= |path|
    ensures forall i :: StartsLastPart(path, i) <==> Basename(path) != "" && i == |path| - |Basename(path)|
    ensures Basename(path) != "" ==> path[|path| - |Basename(path)|] == Basename(path)[0]
  {
    HeadEndsInSlash(path);
    BasenameEnds(path);
    BasenameIsSlashFree(path);
    var base, n := Basename(path), |path| - |Basename(path)|;
    assert path[n..] == base;
    forall j | n <= j < |path| ensures path[j] != '/' {
      assert path[j] == base[j - n];
    }
    forall i | StartsLastPart(path, i) ensures i == n {
    }
  }

  lemma {:induction false} BasenameIsSlashFree(path: string)
    ensures forall i :: 0 <= i < |Basename(path)| ==> Basename(path)[i] != '/'
  {
    if path != "" && path[|path| - 1] != '/' {
      BasenameIsSlashFree(path[..|path| - 1]);
    }
  }

  datatype Item = Item(name: string, contents: Contents)

  /** The names of the entries that are read, in order, and what they hold: an empty entry whose name ends with a
      slash is a directory, another one that the reader of spreadsheets accepts is a spreadsheet. */
  function VisibleFiles(entries: seq<Entry>): seq<Item> {
    if entries == [] then []
    else
      var e := entries[|entries| - 1];
      VisibleFiles(entries[..|entries| - 1])
      + (if e.IsHidden() then []
         else if e.isEmpty && |e.filename| > 0 && e.filename[|e.filename| - 1] == '/' then [Item(e.filename, Directory)]
         else [Item(e.filename, if e.isXls then Spreadsheet else OtherContents)])
  }

  function NamesAndContents(files: seq<ImportFile>): seq<Item> {
    seq(|files|, i requires 0 <= i < |files| => Item(files[i].name, files[i].contents))
  }

  function Names(files: seq<ImportFile>): seq<string> {
    seq(|files|, i requires 0 <= i < |files| => files[i].name)
  }

  /** The first file of the list with the path. */
  predicate IsFirstAt(files: seq<ImportFile>, path: string, f: ImportFile) {
    exists i :: 0 <= i < |files| && files[i] == f && f.ownPath == path &&
                forall j :: 0 <= j < i ==> files[j].ownPath != path
  }

  class RootFileImport {
    const file: ImportFile
    var parsed: seq<ImportFile>
    var filesByPath: map<string, ImportFile>
    var warnings: seq<string>

    constructor (name: string, contents: Contents)
      requires contents != Directory
      ensures parsed == [file] && warnings == [] && file.parent == null && file.contents == contents
      ensures IndexOk() && fresh(file)
    {
      var f := new ImportFile(name, contents, null);
      file := f;
      parsed := [f];
      filesByPath := map["" := f][f.ownPath := f];
      warnings := [];
      new;
      assert parsed[0] == f && IsFirstAt(parsed, f.ownPath, f);
    }

    /** files_by_path gives the root for the empty path, and otherwise the first file with the path. */
    ghost predicate IndexOk()
      reads this
    {
      && "" in filesByPath && filesByPath[""] == file
      && (forall p :: p in filesByPath && p != "" ==> IsFirstAt(parsed, p, filesByPath[p]))
      && forall i :: 0 <= i < |parsed| ==> parsed[i].ownPath in filesByPath
    }

    /** The end of the constructor of ImportFile. */
    method Register(f: ImportFile)
      requires IndexOk()
      modifies this`parsed, this`filesByPath
      ensures IndexOk() && parsed == old(parsed) + [f]
    {
      if f.ownPath !in filesByPath {
        filesByPath := filesByPath[f.ownPath := f];
      }
      parsed := parsed + [f];
      forall p | p in filesByPath && p != "" ensures IsFirstAt(parsed, p, filesByPath[p]) {
        if p in old(filesByPath) {
          var i :| 0 <= i < |old(parsed)| && old(parsed)[i] == filesByPath[p] &&
                   forall j :: 0 <= j < i ==> old(parsed)[j].ownPath != p;
          assert parsed[i] == filesByPath[p];
        } else {
          assert parsed[|parsed| - 1] == filesByPath[p];
        }
      }
    }

    /** The parent meant for a file: at its directory's path when there is a file there, else the root. */
    function ParentOf(f: ImportFile): ImportFile
      reads this
    {
      if f.dirname in filesByPath then filesByPath[f.dirname] else file
    }

    /** The file object of one entry, with the root as parent. */
    method AddEntry(fileinfo: Entry) returns (inf: ImportFile)
      requires IndexOk()
      modifies this`parsed, this`filesByPath
      ensures IndexOk() && parsed == old(parsed) + [inf] && fresh(inf)
      ensures inf.name == fileinfo.filename && inf.contents == fileinfo.Contents() && inf.IsNewUnder(file)
    {
      inf := new ImportFile(fileinfo.filename, fileinfo.Contents(), file);
      Register(inf);
    }

    /** The first half of `parse` of an archive: a file object for each visible entry, with the root as parent. */
    method ReadEntries(entries: seq<Entry>) returns (infs: seq<ImportFile>)
      requires IndexOk() && parsed == [file]
      modifies this`parsed, this`filesByPath
      ensures IndexOk() && parsed == [file] + infs && Distinct(parsed)
      ensures forall f :: f in infs ==> fresh(f) && f.IsNewUnder(file)
      ensures NamesAndContents(infs) == VisibleFiles(entries)
    {
      infs := [];
      for k := 0 to |entries|
        invariant IndexOk() && parsed == [file] + infs && Distinct(parsed)
        invariant forall f :: f in infs ==> fresh(f) && f.IsNewUnder(file)
        invariant NamesAndContents(infs) == VisibleFiles(entries[..k])
      {
        var fileinfo := entries[k];
        assert entries[..k + 1][..k] == entries[..k];
        if !fileinfo.IsHidden() {
          var inf := AddEntry(fileinfo);
          DistinctAppend(old(parsed) + infs, inf);
          infs := infs + [inf];
        }
      }
      assert entries[..|entries|] == entries;
    }

    /** The second half: files that still have the root as parent look for a better one. */
    method ResolveParents(infs: seq<ImportFile>)
      requires Distinct(infs) && file !in infs && forall f :: f in infs ==> f.parent == file
      modifies SetOf(infs)
      ensures forall f :: f in infs ==> f.parent == ParentOf(f)
    {
      for k := 0 to |infs|
        invariant forall i :: 0 <= i < k ==> infs[i].parent == ParentOf(infs[i])
        invariant forall i :: k <= i < |infs| ==> infs[i].parent == file
      {
        var inf := infs[k];
        if inf.parent == file && inf.dirname in filesByPath {
          inf.parent := filesByPath[inf.dirname];
        }
      }
    }

    /** `parse` of an archive, given its entries. */
    method ParseZip(entries: seq<Entry>)
      requires file.contents == Archive && parsed == [file] && IndexOk() && file.parent == null
      modifies this`parsed, this`filesByPath
      ensures IndexOk() && Distinct(parsed) && |parsed| > 0 && parsed[0] == file
      ensures NamesAndContents(parsed[1..]) == VisibleFiles(entries)
      ensures forall f :: f in parsed && f != file ==> fresh(f) && f.parent == ParentOf(f) && f.contents != Archive
      ensures WellParented(SetOf(parsed), file) && OneArchive(parsed, file)
      ensures forall f :: f in parsed && f != file ==> f.parent in parsed
      // the parent is the first file at the directory's path, and the root if there is none
      ensures forall f :: f in parsed && f != file && f.parent != file ==> IsFirstAt(parsed, f.dirname, f.parent)
      ensures forall f, g :: f in parsed && f != file && g in parsed && f.dirname == g.ownPath != "" ==>
                               f.parent.ownPath == f.dirname
    {
      var infs := ReadEntries(entries);
      assert forall i :: 0 <= i < |infs| ==> parsed[i + 1] == infs[i];
      ResolveParents(infs);
      assert parsed[1..] == infs;
      forall f | f in SetOf(parsed) && f != file
        ensures f.PathsOk() && f.parent != null &&
                (f.parent == file || (f.dirname != "" && f.parent.ownPath == f.dirname))
      {
        assert f in infs;
      }
    }

    /** remove_invalid_assets */
    method RemoveInvalidAssets()
      requires Distinct(parsed)
      modifies this`parsed
      ensures parsed == Minus(old(parsed), Invalid(old(parsed))) && Distinct(parsed)
      ensures forall f :: f in old(parsed) ==> (f in parsed <==> f.contents != OtherContents)
    {
      var queuedForRemoval: seq<ImportFile> := [];
      for i := 0 to |parsed|
        invariant parsed == old(parsed) && SetOf(queuedForRemoval) == Invalid(parsed[..i])
      {
        assert parsed[..i + 1] == parsed[..i] + [parsed[i]];
        InvalidAppend(parsed[..i], parsed[i]);
        SetOfAppend(queuedForRemoval, parsed[i]);
        if parsed[i].GetType() == UnknownKind {
          queuedForRemoval := queuedForRemoval + [parsed[i]];
        }
      }
      assert parsed[..|parsed|] == parsed;
      MinusNothing(parsed, SetOf(queuedForRemoval[..0]));
      for i := 0 to |queuedForRemoval|
        invariant parsed == Minus(old(parsed), SetOf(queuedForRemoval[..i])) && Distinct(parsed)
      {
        RemoveNext(old(parsed), queuedForRemoval, i);
        parsed := Without(parsed, queuedForRemoval[i]);
      }
      assert queuedForRemoval[..|queuedForRemoval|] == queuedForRemoval;
    }

    /** len(get_children()) == 0 for a directory */
    method HasNoChildren(d: ImportFile) returns (empty: bool)
      requires d.IsDir()
      ensures empty <==> forall c | c in parsed :: c.parent != d
    {
      empty := true;
      for i := 0 to |parsed|
        invariant empty <==> forall j :: 0 <= j < i ==> parsed[j].parent != d
      {
        if parsed[i].parent == d {
          empty := false;
        }
      }
    }

    /** The first loop of _remove_empty_collections. */
    method FindEmptyCollections() returns (collsWithNoChildren: seq<ImportFile>)
      requires Distinct(parsed)
      ensures SetOf(collsWithNoChildren) == Childless(parsed) && Distinct(collsWithNoChildren)
    {
      collsWithNoChildren := [];
      for i := 0 to |parsed|
        invariant SetOf(collsWithNoChildren) == Childless(parsed) * SetOf(parsed[..i]) && Distinct(collsWithNoChildren)
      {
        assert parsed[..i + 1] == parsed[..i] + [parsed[i]];
        SetOfAppend(parsed[..i], parsed[i]);
        SetOfAppend(collsWithNoChildren, parsed[i]);
        assert parsed[i] !in parsed[..i];
        var empty := false;
        if parsed[i].IsDir() {
          empty := HasNoChildren(parsed[i]);
        }
        if empty {
          assert parsed[i] !in SetOf(collsWithNoChildren);
          collsWithNoChildren := collsWithNoChildren + [parsed[i]];
        }
      }
      assert parsed[..|parsed|] == parsed;
      assert Childless(parsed) <= SetOf(parsed);
    }

    /** The second loop of _remove_empty_collections. */
    method RemoveWithWarnings(collsWithNoChildren: seq<ImportFile>)
      requires Distinct(parsed)
      modifies this`parsed, this`warnings
      ensures parsed == Minus(old(parsed), SetOf(collsWithNoChildren)) && Distinct(parsed)
      ensures warnings == old(warnings) + Names(collsWithNoChildren)
    {
      MinusNothing(parsed, SetOf(collsWithNoChildren[..0]));
      for i := 0 to |collsWithNoChildren|
        invariant parsed == Minus(old(parsed), SetOf(collsWithNoChildren[..i])) && Distinct(parsed)
        invariant warnings == old(warnings) + Names(collsWithNoChildren[..i])
      {
        warnings := warnings + [collsWithNoChildren[i].name];
        RemoveNext(old(parsed), collsWithNoChildren, i);
        parsed := Without(parsed, collsWithNoChildren[i]);
      }
      assert collsWithNoChildren[..|collsWithNoChildren|] == collsWithNoChildren;
    }

    /** Where the pruning of the files `s` stands: the dead directories in `gone` are removed, each with a warning. */
    ghost predicate Pruning(s: seq<ImportFile>, gone: set<ImportFile>)
      reads this, SetOf(s)
    {
      && parsed == Minus(s, gone) && gone <= Dead(SetOf(s))
      && (forall d :: d in gone ==> d.name in warnings)
    }

    /** _remove_empty_collections: one round; true when another is due. */
    method RemoveEmptyCollectionsOnce(ghost s: seq<ImportFile>, ghost gone: set<ImportFile>)
      returns (again: bool, ghost gone2: set<ImportFile>)
      requires Distinct(s) && Pruning(s, gone)
      modifies this`parsed, this`warnings
      ensures Pruning(s, gone2)
      ensures |warnings| - |old(warnings)| == |old(parsed)| - |parsed|
      ensures if again then |parsed| < |old(parsed)| else |parsed| == |old(parsed)| && Childless(parsed) == {}
    {
      MinusIsDistinct(s, gone);
      var collsWithNoChildren := FindEmptyCollections();
      RoundIsDead(s, gone, collsWithNoChildren);
      RemoveWithWarnings(collsWithNoChildren);
      gone2 := gone + SetOf(collsWithNoChildren);
      NamesAreAdded(old(warnings), collsWithNoChildren);
      again := |collsWithNoChildren| > 0;
    }

    /** remove_empty_collections */
    method RemoveEmptyCollections()
      requires Distinct(parsed) && WellParented(SetOf(parsed), file)
      modifies this`parsed, this`warnings
      ensures Pruning(old(parsed), Dead(SetOf(old(parsed))))
      ensures |warnings| - |old(warnings)| == |old(parsed)| - |parsed|
    {
      ghost var s := parsed;
      MinusNothing(parsed, {});
      var again, gone := RemoveEmptyCollectionsOnce(s, {});
      while again
        invariant Pruning(s, gone)
        invariant !again ==> Childless(parsed) == {}
        invariant |warnings| - |old(warnings)| == |s| - |parsed|
        decreases |parsed|, again
      {
        again, gone := RemoveEmptyCollectionsOnce(s, gone);
      }
      NoMoreDead(s, gone, file);
    }

    /** Drop the unreadable files, then the directories that are left without any spreadsheet below. */
    method Prune()
      requires Distinct(parsed) && OneArchive(parsed, file) && WellParented(SetOf(parsed), file)
      requires forall f :: f in parsed && f != file ==> f.parent in parsed
      modifies this`parsed, this`warnings
      ensures parsed == Minus(old(parsed), Pruned(old(parsed), file)) && ParentsKept(parsed, file)
      ensures forall f :: f in old(parsed) ==>
                            (f in parsed <==> || f == file || f.contents == Spreadsheet
                                              || (f.contents == Directory && HasAssetBelow(SetOf(old(parsed)), f)))
    {
      RemoveInvalidAssets();
      assert SetOf(parsed) <= SetOf(old(parsed));
      RemoveEmptyCollections();
      AllPruned(old(parsed), file);
    }

    /** The import of an archive: parse, drop the unreadable files, drop the empty directories. What is
        left, in order, is the root, every spreadsheet, and every directory with a spreadsheet below it. */
    method ParseAndPrune(entries: seq<Entry>) returns (ghost all: seq<ImportFile>)
      requires file.contents == Archive && parsed == [file] && IndexOk() && file.parent == null
      modifies this`parsed, this`filesByPath, this`warnings
      ensures |all| > 0 && all[0] == file && NamesAndContents(all[1..]) == VisibleFiles(entries)
      ensures parsed == Minus(all, Pruned(all, file))
      ensures forall f :: f in all ==> (f in parsed <==> || f == file || f.contents == Spreadsheet
                                                         || (f.contents == Directory && HasAssetBelow(SetOf(all), f)))
      ensures ParentsKept(parsed, file)
    {
      ParseZip(entries);
      all := parsed;
      Prune();
    }
  }

  /** A spreadsheet lies below the directory, at most n levels down, through directories of the list. */
  ghost predicate AssetBelow(items: set<ImportFile>, d: ImportFile, n: nat)
    reads items
  {
    n > 0 && exists c :: c in items && c.parent == d &&
                         (c.contents == Spreadsheet || (c.contents == Directory && AssetBelow(items, c, n - 1)))
  }

  ghost predicate HasAssetBelow(items: set<ImportFile>, d: ImportFile)
    reads items
  {
    exists n: nat :: AssetBelow(items, d, n)
  }

  /** Everything that the import leaves out. */
  ghost function Pruned(all: seq<ImportFile>, root: ImportFile): set<ImportFile>
    reads all
  {
    set f | f in all && f != root && f.GetType() != AssetKind && !(f.IsDir() && HasAssetBelow(SetOf(all), f))
  }

  /** The files other than the root are no archives. */
  predicate OneArchive(all: seq<ImportFile>, root: ImportFile) {
    root.contents == Archive && forall f :: f in all && f != root ==> f.contents != Archive
  }

  lemma {:induction false} BelowIsAsset(all: seq<ImportFile>, root: ImportFile, d: ImportFile, n: nat)
    requires OneArchive(all, root) && WellParented(SetOf(all), root)
    ensures FileBelow(SetOf(all) - Invalid(all), d, n) <==> AssetBelow(SetOf(all), d, n)
  {
    if n > 0 {
      forall c | c in all { BelowIsAsset(all, root, c, n - 1); }
    }
  }

  /** The two steps together. */
  lemma PrunedInTwo(all: seq<ImportFile>, root: ImportFile)
    requires OneArchive(all, root) && WellParented(SetOf(all), root)
    ensures var valid := Minus(all, Invalid(all));
            Minus(valid, Dead(SetOf(valid))) == Minus(all, Pruned(all, root))
  {
    var valid := Minus(all, Invalid(all));
    var dead := Dead(SetOf(valid));
    assert SetOf(valid) == SetOf(all) - Invalid(all);
    forall d | d in all ensures d in Invalid(all) + dead <==> d in Pruned(all, root) {
      forall n: nat ensures FileBelow(SetOf(valid), d, n) <==> AssetBelow(SetOf(all), d, n) {
        BelowIsAsset(all, root, d, n);
      }
    }
    MinusMinus(all, Invalid(all), dead);
    MinusSame(all, Invalid(all) + dead, Pruned(all, root));
  }

  /** A kept file keeps its parent, unless that was an unreadable file. */
  lemma ParentSurvives(all: seq<ImportFile>, valid: seq<ImportFile>, root: ImportFile, f: ImportFile)
    requires valid == Minus(all, Invalid(all)) && WellParented(SetOf(all), root)
    requires f != root && f in Minus(valid, Dead(SetOf(valid))) && f.parent in all
    ensures f.parent in Minus(valid, Dead(SetOf(valid))) <==> f.parent.GetType() != UnknownKind
  {
    var p: ImportFile, items := f.parent, SetOf(valid);
    if p.GetType() != UnknownKind {
      assert p in valid && f in items;
      if f.IsDir() {
        assert f !in Dead(items);
        var n: nat :| FileBelow(items, f, n);
        assert FileBelow(items, p, n + 1);
      } else {
        assert FileBelow(items, p, 1);
      }
    }
  }

  lemma NamesAreAdded(names: seq<string>, files: seq<ImportFile>)
    ensures forall w :: w in names ==> w in names + Names(files)
    ensures forall f :: f in files ==> f.name in names + Names(files)
  {
    forall f | f in files ensures f.name in names + Names(files) {
      var i :| 0 <= i < |files| && files[i] == f;
      assert Names(files)[i] == f.name;
    }
  }

  lemma InvalidAppend(s: seq<ImportFile>, f: ImportFile)
    ensures Invalid(s + [f]) == Invalid(s) + if f.GetType() == UnknownKind then {f} else {}
  {
  }

  /** The parent of each file is in the list too, unless it is an unreadable file. */
  predicate ParentsKept(files: seq<ImportFile>, root: ImportFile)
    reads files
  {
    forall f :: f in files && f != root ==>
                  f.parent != null && (f.parent in files <==> f.parent.GetType() != UnknownKind)
  }

  lemma ParentsSurvive(all: seq<ImportFile>, root: ImportFile)
    requires OneArchive(all, root) && WellParented(SetOf(all), root)
    requires forall f :: f in all && f != root ==> f.parent in all
    ensures ParentsKept(Minus(all, Pruned(all, root)), root)
  {
    PrunedInTwo(all, root);
    var valid := Minus(all, Invalid(all));
    forall f | f in Minus(valid, Dead(SetOf(valid))) && f != root
      ensures f.parent != null &&
              (f.parent in Minus(valid, Dead(SetOf(valid))) <==> f.parent.GetType() != UnknownKind)
    {
      ParentSurvives(all, valid, root, f);
    }
  }

  /** What the import leaves. */
  lemma AllPruned(all: seq<ImportFile>, root: ImportFile)
    requires OneArchive(all, root) && WellParented(SetOf(all), root)
    requires forall f :: f in all && f != root ==> f.parent in all
    ensures var valid, left := Minus(all, Invalid(all)), Minus(all, Pruned(all, root));
            && Minus(valid, Dead(SetOf(valid))) == left && ParentsKept(left, root)
            && forall f :: f in all ==> (f in left <==> || f == root || f.contents == Spreadsheet
                                                        || (f.contents == Directory && HasAssetBelow(SetOf(all), f)))
  {
    PrunedInTwo(all, root);
    ParentsSurvive(all, root);
  }

  lemma DistinctAppend<T>(s: seq<T>, x: T)
    requires Distinct(s) && x !in s
    ensures Distinct(s + [x])
  {
  }

  lemma SetOfAppend<T>(s: seq<T>, x: T)
    ensures SetOf(s + [x]) == SetOf(s) + {x}
  {
  }

  /** One round of the loop removes dead directories only. */
  lemma RoundIsDead(s: seq<ImportFile>, gone: set<ImportFile>, removed: seq<ImportFile>)
    requires Distinct(s) && gone <= Dead(SetOf(s)) && Distinct(removed)
    requires SetOf(removed) == Childless(Minus(s, gone))
    ensures gone + SetOf(removed) <= Dead(SetOf(s))
    ensures Minus(Minus(s, gone), SetOf(removed)) == Minus(s, gone + SetOf(removed))
    ensures |Minus(s, gone + SetOf(removed))| == |Minus(s, gone)| - |removed|
    ensures removed == [] ==> Childless(Minus(s, gone + SetOf(removed))) == {}
  {
    forall d | d in SetOf(removed) ensures d in Dead(SetOf(s)) {
      assert d in Minus(s, gone);
      DeadIfChildrenAre(SetOf(s), gone, d);
    }
    MinusMinus(s, gone, SetOf(removed));
    MinusIsDistinct(s, gone);
    MinusCounts(Minus(s, gone), SetOf(removed));
    DistinctCounts(removed);
    if removed == [] {
      assert gone + SetOf(removed) == gone;
    }
  }

  lemma {:induction false} DistinctCounts<T>(s: seq<T>)
    requires Distinct(s)
    ensures |SetOf(s)| == |s|
  {
    if s == [] {
    } else {
      var init, last := s[..|s| - 1], s[|s| - 1];
      DistinctCounts(init);
      assert s == init + [last];
      SetOfAppend(init, last);
    }
  }

  lemma NoMoreDead(s: seq<ImportFile>, gone: set<ImportFile>, root: ImportFile)
    requires WellParented(SetOf(s), root) && gone <= Dead(SetOf(s)) && Childless(Minus(s, gone)) == {}
    ensures gone == Dead(SetOf(s))
  {
    forall d | d in Dead(SetOf(s)) ensures d in gone {
      if d !in gone {
        assert d in s;
        assert SetOf(Minus(s, gone)) <= SetOf(s);
        FileIsBelow(SetOf(s), Minus(s, gone), root, d);
      }
    }
  }

  function Invalid(items: seq<ImportFile>): set<ImportFile> {
    set f | f in items && f.GetType() == UnknownKind
  }

  /** Removing the members of a queue one by one. */
  lemma RemoveNext<T>(s: seq<T>, queue: seq<T>, i: nat)
    requires Distinct(s) && i < |queue|
    ensures Without(Minus(s, SetOf(queue[..i])), queue[i]) == Minus(s, SetOf(queue[..i + 1]))
    ensures Distinct(Minus(s, SetOf(queue[..i + 1])))
  {
    var gone, x := SetOf(queue[..i]), queue[i];
    assert SetOf(queue[..i + 1]) == gone + {x} by {
      assert queue[..i + 1] == queue[..i] + [x];
      SetOfAppend(queue[..i], x);
    }
    RemoveOne(s, gone, x);
  }

  lemma RemoveOne<T>(s: seq<T>, gone: set<T>, x: T)
    requires Distinct(s)
    ensures Without(Minus(s, gone), x) == Minus(s, gone + {x})
    ensures Distinct(Minus(s, gone + {x}))
  {
    MinusIsDistinct(s, gone);
    WithoutIsMinus(Minus(s, gone), x);
    MinusMinus(s, gone, {x});
    MinusIsDistinct(s, gone + {x});
  }
}
