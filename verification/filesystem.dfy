/** The kernel's file system for the HTML renderer (`FileSystemDefault`): the base
    directory, the table of open files keyed by handle, sizes and reads, and the MIME
    type lookup by extension. The disk is a map from full path to contents, fixed for
    the life of the model; the extension-to-MIME table is a parameter. Paths are
    already UTF-8 strings. */
module FileSystem {
  import opened Wrappers
  import opened Text

  type Byte = b: int | 0 <= b < 256

  type Disk = map<string, seq<Byte>>

  /** `ul::invalidFileHandle`, or a handle from the counter. */
  datatype Handle = InvalidHandle | FileHandle(n: nat)

  /** An open stream: the file's contents when it was opened, and whether a short read
      has put the stream into its failed state. */
  datatype Stream = Stream(contents: seq<Byte>, failed: bool)

  datatype FileSystem = FileSystem(base: string, next: nat, open: map<nat, Stream>)
  {
    /** Every open handle came from the counter. */
    ghost predicate Valid()
    {
      forall h :: h in open ==> h < next
    }
  }

  /** The constructor: an empty base directory means the executable's directory. */
  function New(base: string, exeDir: string): (fs: FileSystem)
    ensures fs.base == (if base != "" then base else exeDir)
    ensures fs.next == 0 && fs.open == map[] && fs.Valid()
  {
    FileSystem(if base != "" then base else exeDir, 0, map[])
  }

  /** `_GetRelativePath`: the base directory followed by the path, with no separator
      added. */
  function FullPath(fs: FileSystem, path: string): (r: string)
    ensures |r| == |fs.base| + |path| && fs.base <= r && r[|fs.base|..] == path
  {
    fs.base + path
  }

  /** `FileExists`: whether the full path can be opened. */
  predicate FileExists(fs: FileSystem, disk: Disk, path: string)
  {
    FullPath(fs, path) in disk
  }

  /** `OpenFile`: the invalid handle when the file cannot be opened; otherwise the next
      handle from the counter, which then advances. */
  function OpenFile(fs: FileSystem, disk: Disk, path: string): (r: (FileSystem, Handle))
    requires fs.Valid()
    ensures r.0.Valid()
    ensures !FileExists(fs, disk, path) ==> r == (fs, InvalidHandle)
    ensures FileExists(fs, disk, path) ==>
      r.1 == FileHandle(fs.next) && fs.next !in fs.open && r.0.next == fs.next + 1
      && r.0.open == fs.open[fs.next := Stream(disk[FullPath(fs, path)], false)]
      && r.0.base == fs.base
  {
    var full := FullPath(fs, path);
    if full !in disk then (fs, InvalidHandle)
    else (fs.(next := fs.next + 1, open := fs.open[fs.next := Stream(disk[full], false)]), FileHandle(fs.next))
  }

  /** Two files opened one after the other get different handles, and the first stays
      open. */
  lemma OpenHandlesDistinct(fs: FileSystem, disk: Disk, p: string, q: string)
    requires fs.Valid() && FileExists(fs, disk, p) && FileExists(fs, disk, q)
    ensures var (fs1, h1) := OpenFile(fs, disk, p);
      var (fs2, h2) := OpenFile(fs1, disk, q);
      h1 != h2 && h1.n in fs2.open && h2.n in fs2.open
  {
  }

  /** `CloseFile`: the entry goes if present, and the caller's handle becomes invalid. */
  function CloseFile(fs: FileSystem, h: Handle): (r: (FileSystem, Handle))
    requires fs.Valid()
    ensures r.0.Valid() && r.1 == InvalidHandle
    ensures h.FileHandle? ==> r.0.open.Keys == fs.open.Keys - {h.n}
    ensures h.InvalidHandle? || h.n !in fs.open ==> r.0 == fs
    ensures r.0.next == fs.next && r.0.base == fs.base
  {
    match h
    case InvalidHandle => (fs, InvalidHandle)
    case FileHandle(n) => (fs.(open := fs.open - {n}), InvalidHandle)
  }

  /** The stream behind a handle, if it is open. */
  function Lookup(fs: FileSystem, h: Handle): (r: Option<Stream>)
    ensures r.Some? <==> h.FileHandle? && h.n in fs.open
    ensures r.Some? ==> r.value == fs.open[h.n]
  {
    if h.FileHandle? && h.n in fs.open then Some(fs.open[h.n]) else None
  }

  /** `GetFileSize`: false for a handle that is not open; otherwise the position after
      seeking to the end, which a failed stream reports as -1. */
  function GetFileSize(fs: FileSystem, h: Handle): (r: Option<int>)
    ensures r.None? <==> Lookup(fs, h).None?
    ensures r.Some? && !Lookup(fs, h).value.failed ==> r.value == |Lookup(fs, h).value.contents|
    ensures r.Some? && Lookup(fs, h).value.failed ==> r.value == -1
  {
    match Lookup(fs, h)
    case None => None
    case Some(s) => Some(if s.failed then -1 else |s.contents|)
  }

  /** `ReadFromFile`: 0 for a handle that is not open; otherwise a read of up to
      `length` bytes from the start. Asking for more than the file holds reads it all
      and leaves the stream failed, after which it reads nothing. */
  function ReadFromFile(fs: FileSystem, h: Handle, length: int): (r: (FileSystem, seq<Byte>))
    requires fs.Valid()
    ensures r.0.Valid() && r.0.next == fs.next && r.0.open.Keys == fs.open.Keys
    ensures Lookup(fs, h).None? ==> r == (fs, [])
    ensures Lookup(fs, h).Some? ==>
      var s := Lookup(fs, h).value;
      (s.failed || length <= 0 ==> |r.1| == 0)
      && (!s.failed && length > 0 ==> r.1 == s.contents[..if length < |s.contents| then length else |s.contents|])
      && (r.0.open[h.n].failed <==> s.failed || length > |s.contents|)
  {
    match Lookup(fs, h)
    case None => (fs, [])
    case Some(s) =>
      if s.failed || length <= 0 then (fs, [])
      else
        var n := if length < |s.contents| then length else |s.contents|;
        (fs.(open := fs.open[h.n := s.(failed := length > |s.contents|)]), s.contents[..n])
  }

  /** Opening a file and reading exactly its size returns its contents, and the size
      stays readable. A closed handle reads nothing and has no size. */
  lemma OpenReadClose(fs: FileSystem, disk: Disk, path: string)
    requires fs.Valid() && FileExists(fs, disk, path)
    ensures var (fs1, h) := OpenFile(fs, disk, path);
      var size := GetFileSize(fs1, h);
      size == Some(|disk[FullPath(fs, path)]|)
      && ReadFromFile(fs1, h, size.value).1 == disk[FullPath(fs, path)]
      && GetFileSize(ReadFromFile(fs1, h, size.value).0, h) == size
      && GetFileSize(CloseFile(fs1, h).0, h).None?
      && ReadFromFile(CloseFile(fs1, h).0, h, size.value).1 == []
  {
  }

  /** A read past the end spoils the stream: its size then reads as -1 and the next
      read returns nothing. */
  lemma ShortReadFails(fs: FileSystem, h: Handle, length: int)
    requires fs.Valid() && Lookup(fs, h).Some? && !Lookup(fs, h).value.failed
    requires length > |Lookup(fs, h).value.contents|
    ensures var fs1 := ReadFromFile(fs, h, length).0;
      GetFileSize(fs1, h) == Some(-1) && ReadFromFile(fs1, h, length).1 == []
  {
  }

  /** The extension `GetFileMimeType` looks up: the text after the last '.', or the
      whole path when it has no '.'. */
  function Extension(path: string): (r: string)
    ensures forall i :: 0 <= i < |r| ==> r[i] != '.'
    ensures (forall i :: 0 <= i < |path| ==> path[i] != '.') ==> r == path
    ensures (exists i :: 0 <= i < |path| && path[i] == '.') ==>
      |r| < |path| && path == path[..|path| - |r| - 1] + "." + r
  {
    var r := AfterLast(path, '.');
    if |r| < |path| then
      assert path == path[..|path| - |r| - 1] + "." + r;
      r
    else
      r
  }

  /** `GetFileMimeType`: the MIME type of the extension; it always succeeds. */
  function GetFileMimeType(path: string, mimeOf: string -> string): (r: (bool, string))
    ensures r.0 && r.1 == mimeOf(Extension(path))
  {
    (true, mimeOf(Extension(path)))
  }

  /** The extension of a name followed by a dot-free extension is that extension. */
  lemma ExtensionOfSuffix(stem: string, ext: string)
    requires forall i :: 0 <= i < |ext| ==> ext[i] != '.'
    ensures Extension(stem + "." + ext) == ext
  {
    var p := stem + "." + ext;
    var j := LastIndexOf(p, '.');
    assert p[|stem|] == '.';
    assert j == |stem| by {
      assert forall k :: |stem| < k < |p| ==> p[k] == ext[k - |stem| - 1];
    }
    assert p[j + 1..] == ext;
  }
}
