/** `DirectoryHelper` (Sources/Kernel/Utility/DirectoryHelper.cpp): separator
    normalisation and the executable's directory, computed from the module path once
    and then cached. The path `GetModuleFileName` reports is a parameter; narrow and
    wide strings are both `string`. */
module DirectoryHelper {
  import opened Text

  /** `MAX_PATH`, the size of the buffers the module path is read into. */
  const MaxPath: nat := 260

  /** `NormalizePathA` / `NormalizePath`: every '\' becomes '/'. */
  function Normalize(s: string): (r: string)
    ensures |r| == |s|
    ensures forall i :: 0 <= i < |s| ==> r[i] == (if s[i] == '\\' then '/' else s[i])
    ensures forall i :: 0 <= i < |r| ==> r[i] != '\\'
    decreases |s|
  {
    if |s| == 0 then ""
    else [if s[0] == '\\' then '/' else s[0]] + Normalize(s[1..])
  }

  /** Normalising twice is normalising once, and a path without backslashes is
      already normal. */
  lemma NormalizeIdempotent(s: string)
    ensures Normalize(Normalize(s)) == Normalize(s)
    ensures (forall i :: 0 <= i < |s| ==> s[i] != '\\') ==> Normalize(s) == s
  {
  }

  /** Normalising distributes over concatenation. */
  lemma {:induction false} NormalizeAppend(a: string, b: string)
    ensures Normalize(a + b) == Normalize(a) + Normalize(b)
  {
    if |a| > 0 {
      assert (a + b)[1..] == a[1..] + b;
      NormalizeAppend(a[1..], b);
    } else {
      assert a + b == b;
    }
  }

  /** The directory part of a module path: everything before its last '/' or '\' (the
      whole path when it has neither), then '/', normalised. */
  function DirectoryOf(path: string): (r: string)
    ensures |r| >= 1 && r[|r| - 1] == '/'
    ensures forall i :: 0 <= i < |r| ==> r[i] != '\\'
    ensures LastIndexOfAny(path, {'/', '\\'}) >= 0 ==>
      r == Normalize(path[..LastIndexOfAny(path, {'/', '\\'})]) + "/"
    ensures LastIndexOfAny(path, {'/', '\\'}) < 0 ==> r == Normalize(path) + "/"
  {
    var k := LastIndexOfAny(path, {'/', '\\'});
    var dir := if k >= 0 then path[..k] else path;
    NormalizeAppend(dir, "/");
    Normalize(dir + "/")
  }

  /** The directory of a file named inside a directory is that directory, with its
      separators normalised: `C:\Games\Versus\Versus.exe` gives `C:/Games/Versus/`. */
  lemma DirectoryOfFile(dir: string, sep: char, file: string)
    requires sep == '/' || sep == '\\'
    requires forall i :: 0 <= i < |file| ==> file[i] != '/' && file[i] != '\\'
    ensures DirectoryOf(dir + [sep] + file) == Normalize(dir) + "/"
  {
    var p := dir + [sep] + file;
    assert p[|dir|] == sep;
    assert forall j :: |dir| < j < |p| ==> p[j] == file[j - |dir| - 1];
    assert LastIndexOfAny(p, {'/', '\\'}) == |dir|;
    assert p[..|dir|] == dir;
  }

  /** The two cached results; "" means not yet computed. */
  datatype Cache = Cache(narrow: string, wide: string)

  /** `GetExecutableDirectoryA`: the cached value when there is one; otherwise the
      directory of the module path as read into a `MAX_PATH` buffer (silently cut to
      `MAX_PATH - 1` characters), which is then cached. */
  function ExecutableDirectoryNarrow(c: Cache, modulePath: string): (r: (string, Cache))
    ensures c.narrow != "" ==> r == (c.narrow, c)
    ensures c.narrow == "" ==>
      var read := if |modulePath| < MaxPath then modulePath else modulePath[..MaxPath - 1];
      r.0 == DirectoryOf(read) && r.1 == c.(narrow := r.0)
  {
    if c.narrow != "" then (c.narrow, c)
    else
      var read := if |modulePath| < MaxPath then modulePath else modulePath[..MaxPath - 1];
      var dir := DirectoryOf(read);
      (dir, c.(narrow := dir))
  }

  /** `GetExecutableDirectory`: the cached value when there is one; "" without caching
      when the module path is empty or does not fit the buffer; otherwise the directory
      of the module path, which is then cached. */
  function ExecutableDirectoryWide(c: Cache, modulePath: string): (r: (string, Cache))
    ensures c.wide != "" ==> r == (c.wide, c)
    ensures c.wide == "" && (|modulePath| == 0 || |modulePath| >= MaxPath) ==> r == ("", c)
    ensures c.wide == "" && 0 < |modulePath| < MaxPath ==>
      r.0 == DirectoryOf(modulePath) && r.1 == c.(wide := r.0)
  {
    if c.wide != "" then (c.wide, c)
    else if |modulePath| == 0 || |modulePath| >= MaxPath then ("", c)
    else
      var dir := DirectoryOf(modulePath);
      (dir, c.(wide := dir))
  }

  /** Once computed, the directory is returned unchanged on later calls, whatever the
      module path then reports. A failed wide lookup is retried on the next call. */
  lemma CachedAfterFirstCall(c: Cache, p: string, q: string)
    ensures var (d, c1) := ExecutableDirectoryNarrow(c, p); ExecutableDirectoryNarrow(c1, q) == (d, c1)
    ensures 0 < |p| < MaxPath ==>
      var (d, c1) := ExecutableDirectoryWide(c, p); ExecutableDirectoryWide(c1, q) == (d, c1)
    ensures c.wide == "" && |p| == 0 ==> ExecutableDirectoryWide(c, p).1.wide == ""
  {
  }
}
