/**
 * The foreign calls the core makes, as abstract oracles: `uuidv4` from the uuid package and
 * `mkdir` / `writeFile` from Node's fs/promises. Their randomness and failures are given up
 * front as tapes, so each operation is deterministic once its tape is fixed.
 */
module Oracles {

  newtype byte = x: int | 0 <= x < 256

  /** `uuidv4()`: each call hands out the next entry of an arbitrary tape of identifiers. */
  class IdGenerator {
    const tape: nat -> string
    var next: nat

    constructor (tape: nat -> string)
      ensures this.tape == tape && next == 0
    {
      this.tape := tape;
      next := 0;
    }

    method Next() returns (id: string)
      modifies this
      ensures id == tape(old(next))
      ensures next == old(next) + 1
    {
      id := tape(next);
      next := next + 1;
    }
  }

  /**
   * How many of the `n` operations numbered `from`, `from + 1`, ... succeed before the first
   * one that fails.
   */
  function Run(succeeds: nat -> bool, from: nat, n: nat): (k: nat)
    ensures k <= n
    decreases n
  {
    if n == 0 || !succeeds(from) then 0 else 1 + Run(succeeds, from + 1, n - 1)
  }

  /** The `n` operations numbered `from`, `from + 1`, ... all succeed. */
  ghost predicate AllSucceed(succeeds: nat -> bool, from: nat, n: nat) {
    forall j :: from <= j < from + n ==> succeeds(j)
  }

  /** The run is the successes before the first failure: all of them succeed, and the next one fails. */
  lemma {:induction false} RunIsLongestPrefix(succeeds: nat -> bool, from: nat, n: nat)
    ensures AllSucceed(succeeds, from, Run(succeeds, from, n))
    ensures Run(succeeds, from, n) < n ==> !succeeds(from + Run(succeeds, from, n))
    decreases n
  {
    if n > 0 && succeeds(from) {
      RunIsLongestPrefix(succeeds, from + 1, n - 1);
    }
  }

  /** When the first `i` of `n` operations succeed and the next one fails, the run is `i` long. */
  lemma {:induction false} RunStops(succeeds: nat -> bool, from: nat, i: nat, n: nat)
    requires i < n && AllSucceed(succeeds, from, i) && !succeeds(from + i)
    ensures Run(succeeds, from, n) == i
    decreases i
  {
    if i > 0 {
      RunStops(succeeds, from + 1, i - 1, n - 1);
    }
  }

  /** The run of successes covers all `n` operations exactly when they all succeed. */
  lemma {:induction false} RunIsAll(succeeds: nat -> bool, from: nat, n: nat)
    ensures Run(succeeds, from, n) == n <==> AllSucceed(succeeds, from, n)
    decreases n
  {
    if n > 0 && succeeds(from) {
      RunIsAll(succeeds, from + 1, n - 1);
    }
  }

  /** `m + n` operations all succeed exactly when the first `m` do and then the next `n` do. */
  lemma AllSucceedConcat(succeeds: nat -> bool, from: nat, m: nat, n: nat)
    ensures AllSucceed(succeeds, from, m + n) <==> AllSucceed(succeeds, from, m) && AllSucceed(succeeds, from + m, n)
  {
  }

  /** `path.join(dir, name)`, for a `dir` without a trailing separator. */
  function PathJoin(dir: string, name: string): string {
    dir + "/" + name
  }

  /** What a failed filesystem call rejects with. */
  datatype FsError = MkdirFailed(dir: string) | WriteFailed(path: string)

  /**
   * The part of the filesystem the upload handler touches. The `n`-th operation attempted
   * succeeds when `succeeds(n)` holds; a write into a directory that does not exist fails
   * (ENOENT) whatever the tape says.
   */
  class FileSystem {
    const cwd: string
    const succeeds: nat -> bool
    var attempts: nat
    var dirs: set<string>
    var files: map<string, seq<byte>>

    constructor (cwd: string, succeeds: nat -> bool, dirs: set<string>, files: map<string, seq<byte>>)
      ensures this.cwd == cwd && this.succeeds == succeeds
      ensures attempts == 0 && this.dirs == dirs && this.files == files
    {
      this.cwd := cwd;
      this.succeeds := succeeds;
      attempts := 0;
      this.dirs := dirs;
      this.files := files;
    }

    /** `mkdir(dir, { recursive: true })`: a directory that already exists is not an error. */
    method Mkdir(dir: string) returns (ok: bool)
      modifies this
      ensures attempts == old(attempts) + 1
      ensures ok == succeeds(old(attempts))
      ensures dirs == if ok then old(dirs) + {dir} else old(dirs)
      ensures files == old(files)
    {
      ok := succeeds(attempts);
      attempts := attempts + 1;
      if ok {
        dirs := dirs + {dir};
      }
    }

    /** `writeFile(join(dir, name), data)`: creates or overwrites the file. */
    method WriteFile(dir: string, name: string, data: seq<byte>) returns (ok: bool)
      modifies this
      ensures attempts == old(attempts) + 1
      ensures ok == (succeeds(old(attempts)) && dir in old(dirs))
      ensures files == if ok then old(files)[PathJoin(dir, name) := data] else old(files)
      ensures dirs == old(dirs)
    {
      ok := succeeds(attempts) && dir in dirs;
      attempts := attempts + 1;
      if ok {
        files := files[PathJoin(dir, name) := data];
      }
    }
  }
}
