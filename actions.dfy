/**
 * The server action `uploadFiles`: make the uploads directory, then write each submitted
 * file under a generated name that keeps the original extension, and return the public
 * paths of the written files in submission order.
 */
module Actions {
  import opened Wrappers
  import opened JsStrings
  import opened Oracles

  /** A browser `File`: its original name and its bytes. */
  datatype File = File(name: string, content: seq<byte>)

  /** `join(process.cwd(), "public", "uploads")`. */
  function UploadsDir(cwd: string): string {
    PathJoin(PathJoin(cwd, "public"), "uploads")
  }

  /**
   * The text of `name` after the last `.` that stands before position `i`, through to the end
   * of `name`; all of `name` when no `.` stands before `i`.
   */
  function ScanBack(name: string, i: nat): string
    requires i <= |name|
    decreases i
  {
    if i == 0 then name
    else if name[i - 1] == '.' then name[i..]
    else ScanBack(name, i - 1)
  }

  /** `ScanBack(name, i)` starts right after a `.` (or at the start) and meets no `.` before `i`. */
  lemma {:induction false} ScanBackStart(name: string, i: nat)
    requires i <= |name|
    ensures var j := |name| - |ScanBack(name, i)|;
      && 0 <= j <= i && ScanBack(name, i) == name[j..]
      && (forall k :: j <= k < i ==> name[k] != '.')
      && (j > 0 ==> name[j - 1] == '.')
    decreases i
  {
    if i > 0 && name[i - 1] != '.' {
      ScanBackStart(name, i - 1);
    }
  }

  /** The extension the stored file keeps: the last piece of the name split at its dots. */
  function Extension(name: string): string {
    ScanBack(name, |name|)
  }

  /**
   * The extension is the text after the last `.` of the name, or the whole name when it has
   * no `.`: it holds no `.`, it ends the name, and a `.` stands right before it when the name
   * has one.
   */
  lemma ExtensionAfterLastDot(name: string)
    ensures var ext := Extension(name);
      && '.' !in ext
      && |ext| <= |name| && name[|name| - |ext|..] == ext
      && ('.' in name ==> |ext| < |name| && name[|name| - |ext| - 1] == '.')
      && ('.' !in name ==> ext == name)
  {
    ScanBackStart(name, |name|);
    var ext := Extension(name);
    var j := |name| - |ext|;
    forall m | 0 <= m < |ext|
      ensures ext[m] != '.'
    {
      assert ext[m] == name[j + m];
    }
  }

  /** The extension is exactly `name.split(".").pop()`. */
  lemma ExtensionIsPopOfSplit(name: string)
    ensures Extension(name) == Pop(Split(name, '.'))
  {
    ExtensionAfterLastDot(name);
    LastPiece(name, '.');
  }

  /** Only the last part of a double extension is kept: "a.tar.gz" keeps "gz". */
  lemma ExtensionOfDoubleExtension()
    ensures Extension("a.tar.gz") == "gz"
  {
    var n := "a.tar.gz";
    assert n[7] == 'z' && n[6] == 'g' && n[5] == '.';
    assert ScanBack(n, 8) == ScanBack(n, 6) == n[6..];
  }

  /** A name without a dot is kept whole, and a trailing dot keeps the empty extension. */
  lemma ExtensionWithoutOrAfterFinalDot()
    ensures Extension("README") == "README"
    ensures Extension("photo.") == ""
  {
    var n := "README";
    assert ScanBack(n, 6) == ScanBack(n, 3) == ScanBack(n, 0);
  }

  /** The stored file's name: the generated id, a dot, the original extension. */
  function FileName(id: string, original: string): string {
    id + "." + Extension(original)
  }

  /** The public path returned for a file stored under `FileName(id, original)`. */
  function PublicPath(id: string, original: string): string {
    "/uploads/" + FileName(id, original)
  }

  /** The text of a stored name before its extension's dot. */
  function Stem(filename: string): string
    requires '.' in filename
  {
    ExtensionAfterLastDot(filename);
    filename[..|filename| - |Extension(filename)| - 1]
  }

  /**
   * A stored name can be taken apart again: its extension is the original file's and its
   * stem is the generated id, whatever dots the id holds.
   */
  lemma {:induction false} FileNameRoundTrip(id: string, original: string)
    ensures '.' in FileName(id, original)
    ensures Extension(FileName(id, original)) == Extension(original)
    ensures Stem(FileName(id, original)) == id
  {
    var e := Extension(original);
    var s := FileName(id, original);
    ExtensionAfterLastDot(original);
    ExtensionAfterLastDot(s);
    assert s[|id|] == '.';
    var e' := Extension(s);
    assert s[|s| - |e|..] == e;
    assert e' == s[|s| - |e|..] == e;
  }

  /** Distinct ids give distinct stored names, whatever the original names are. */
  lemma FileNameInjective(id1: string, name1: string, id2: string, name2: string)
    requires id1 != id2
    ensures FileName(id1, name1) != FileName(id2, name2)
  {
    FileNameRoundTrip(id1, name1);
    FileNameRoundTrip(id2, name2);
  }

  /** Distinct ids give distinct public paths, whatever the original names are. */
  lemma PublicPathInjective(id1: string, name1: string, id2: string, name2: string)
    requires id1 != id2
    ensures PublicPath(id1, name1) != PublicPath(id2, name2)
  {
    if PublicPath(id1, name1) == PublicPath(id2, name2) {
      var p := PublicPath(id1, name1);
      assert FileName(id1, name1) == p[9..] == FileName(id2, name2);
      FileNameInjective(id1, name1, id2, name2);
    }
  }

  /** Distinct ids give distinct files on disk within one directory. */
  lemma StoredPathInjective(dir: string, id1: string, name1: string, id2: string, name2: string)
    requires id1 != id2
    ensures PathJoin(dir, FileName(id1, name1)) != PathJoin(dir, FileName(id2, name2))
  {
    if PathJoin(dir, FileName(id1, name1)) == PathJoin(dir, FileName(id2, name2)) {
      var p := PathJoin(dir, FileName(id1, name1));
      assert FileName(id1, name1) == p[|dir| + 1..] == FileName(id2, name2);
      FileNameInjective(id1, name1, id2, name2);
    }
  }

  /**
   * The paths an upload of `files` returns when the ids are drawn from `tape` starting at
   * position `start`: one per file, in submission order, file `i` under the `i`-th id drawn.
   */
  function UploadPaths(files: seq<File>, tape: nat -> string, start: nat): (paths: seq<string>)
    ensures |paths| == |files|
  {
    seq(|files|, i requires 0 <= i < |files| => PublicPath(tape(start + i), files[i].name))
  }

  /** The ids at positions `start` to `start + n - 1` of the tape are pairwise distinct. */
  ghost predicate DistinctIds(tape: nat -> string, start: nat, n: nat) {
    forall a, b :: start <= a < b < start + n ==> tape(a) != tape(b)
  }

  /** Ids drawn without repeats give pairwise distinct paths, whatever the original names. */
  lemma UploadPathsDistinct(files: seq<File>, tape: nat -> string, start: nat)
    requires DistinctIds(tape, start, |files|)
    ensures var paths := UploadPaths(files, tape, start);
      forall i, j :: 0 <= i < j < |paths| ==> paths[i] != paths[j]
  {
    var paths := UploadPaths(files, tape, start);
    forall i, j | 0 <= i < j < |paths|
      ensures paths[i] != paths[j]
    {
      assert tape(start + i) != tape(start + j);
      PublicPathInjective(tape(start + i), files[i].name, tape(start + j), files[j].name);
    }
  }

  /** The files on disk after the first `n` of `files` were written in order into `dir`, over `disk`. */
  function Written(disk: map<string, seq<byte>>, dir: string, files: seq<File>, tape: nat -> string, start: nat, n: nat)
    : map<string, seq<byte>>
    requires n <= |files|
  {
    if n == 0 then disk
    else Written(disk, dir, files, tape, start, n - 1)[PathJoin(dir, FileName(tape(start + n - 1), files[n - 1].name)) := files[n - 1].content]
  }

  /** Writing never removes a file: whatever was on disk before is still there. */
  lemma {:induction false} WrittenKeepsDisk(disk: map<string, seq<byte>>, dir: string, files: seq<File>,
                                            tape: nat -> string, start: nat, n: nat)
    requires n <= |files|
    ensures disk.Keys <= Written(disk, dir, files, tape, start, n).Keys
  {
    if n > 0 {
      WrittenKeepsDisk(disk, dir, files, tape, start, n - 1);
    }
  }

  /**
   * When the ids drawn are distinct, each of the first `n` files sits on disk under its stored
   * name with its own content; no later write overwrites it.
   */
  lemma {:induction false} WrittenStoresEach(disk: map<string, seq<byte>>, dir: string, files: seq<File>,
                                             tape: nat -> string, start: nat, n: nat, k: nat)
    requires n <= |files| && k < n && DistinctIds(tape, start, n)
    ensures var path := PathJoin(dir, FileName(tape(start + k), files[k].name));
      path in Written(disk, dir, files, tape, start, n) && Written(disk, dir, files, tape, start, n)[path] == files[k].content
  {
    if k < n - 1 {
      WrittenStoresEach(disk, dir, files, tape, start, n - 1, k);
      assert tape(start + k) != tape(start + n - 1);
      StoredPathInjective(dir, tape(start + k), files[k].name, tape(start + n - 1), files[n - 1].name);
    }
  }

  /** One pass of the loop body: draw an id, then write the file under its new name into `dir`. */
  method WriteOne(file: File, dir: string, fs: FileSystem, gen: IdGenerator) returns (ok: bool, filename: string)
    requires dir in fs.dirs
    modifies fs, gen
    ensures filename == FileName(gen.tape(old(gen.next)), file.name)
    ensures gen.next == old(gen.next) + 1 && fs.attempts == old(fs.attempts) + 1
    ensures ok == fs.succeeds(old(fs.attempts))
    ensures fs.files == if ok then old(fs.files)[PathJoin(dir, filename) := file.content] else old(fs.files)
    ensures fs.dirs == old(fs.dirs)
  {
    var extension := Extension(file.name);
    var id := gen.Next();
    filename := id + "." + extension;
    ok := fs.WriteFile(dir, filename, file.content);
  }

  /**
   * The loop of `uploadFiles` over a directory that exists: each file, in order, draws an
   * id and is written; the first failed write ends the loop with its error, and the files
   * written before it stay.
   */
  method WriteEach(files: seq<File>, dir: string, fs: FileSystem, gen: IdGenerator) returns (r: Result<seq<string>, FsError>)
    requires dir in fs.dirs
    modifies fs, gen
    ensures r.Success? <==> Run(fs.succeeds, old(fs.attempts), |files|) == |files|
    ensures r.Success? ==> gen.next == old(gen.next) + |files| && fs.attempts == old(fs.attempts) + |files|
    ensures r.Success? ==> r.value == UploadPaths(files, gen.tape, old(gen.next))
    ensures r.Failure? ==>
      var k := Run(fs.succeeds, old(fs.attempts), |files|);
      && k < |files|
      && gen.next == old(gen.next) + k + 1 && fs.attempts == old(fs.attempts) + k + 1
      && r.error == WriteFailed(PathJoin(dir, FileName(gen.tape(old(gen.next) + k), files[k].name)))
    ensures fs.files == Written(old(fs.files), dir, files, gen.tape, old(gen.next), Run(fs.succeeds, old(fs.attempts), |files|))
    ensures fs.dirs == old(fs.dirs)
  {
    var paths: seq<string> := [];
    for i := 0 to |files|
      invariant AllSucceed(fs.succeeds, old(fs.attempts), i)
      invariant gen.next == old(gen.next) + i
      invariant fs.attempts == old(fs.attempts) + i
      invariant fs.dirs == old(fs.dirs)
      invariant |paths| == i
      invariant paths == UploadPaths(files, gen.tape, old(gen.next))[..i]
      invariant fs.files == Written(old(fs.files), dir, files, gen.tape, old(gen.next), i)
    {
      var written, filename := WriteOne(files[i], dir, fs, gen);
      if !written {
        RunStops(fs.succeeds, old(fs.attempts), i, |files|);
        return Failure(WriteFailed(PathJoin(dir, filename)));
      }
      paths := paths + ["/uploads/" + filename];
    }
    RunIsAll(fs.succeeds, old(fs.attempts), |files|);
    return Success(paths);
  }

  /**
   * `uploadFiles`: the directory is made first, even for no files; then each file draws an
   * id and is written, in order. The first failing call ends the upload with its error
   * (nothing is caught), and files already written stay on disk.
   */
  method UploadFiles(files: seq<File>, fs: FileSystem, gen: IdGenerator) returns (r: Result<seq<string>, FsError>)
    modifies fs, gen
    ensures r.Success? <==> Run(fs.succeeds, old(fs.attempts), 1 + |files|) == 1 + |files|
    ensures r.Success? ==> r.value == UploadPaths(files, gen.tape, old(gen.next))
    ensures r.Success? ==> gen.next == old(gen.next) + |files| && fs.attempts == old(fs.attempts) + 1 + |files|
    ensures !fs.succeeds(old(fs.attempts)) ==> r == Failure(MkdirFailed(UploadsDir(fs.cwd)))
    ensures !fs.succeeds(old(fs.attempts)) ==> fs.attempts == old(fs.attempts) + 1 && gen.next == old(gen.next)
    ensures !fs.succeeds(old(fs.attempts)) ==> fs.dirs == old(fs.dirs) && fs.files == old(fs.files)
    ensures fs.succeeds(old(fs.attempts)) ==> fs.dirs == old(fs.dirs) + {UploadsDir(fs.cwd)}
    ensures fs.succeeds(old(fs.attempts)) && r.Failure? ==>
      var k := Run(fs.succeeds, old(fs.attempts) + 1, |files|);
      && k < |files|
      && gen.next == old(gen.next) + k + 1 && fs.attempts == old(fs.attempts) + k + 2
      && r.error == WriteFailed(PathJoin(UploadsDir(fs.cwd), FileName(gen.tape(old(gen.next) + k), files[k].name)))
    ensures fs.succeeds(old(fs.attempts)) ==>
      fs.files == Written(old(fs.files), UploadsDir(fs.cwd), files, gen.tape, old(gen.next), Run(fs.succeeds, old(fs.attempts) + 1, |files|))
  {
    var uploadsDir := UploadsDir(fs.cwd);
    var made := fs.Mkdir(uploadsDir);
    if !made {
      return Failure(MkdirFailed(uploadsDir));
    }
    r := WriteEach(files, uploadsDir, fs, gen);
  }
}
