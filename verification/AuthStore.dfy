/**
 The credential store's atomic write: temporary file, write, fsync, rename,
 fsync of the parent directory.  The environment decides the outcome of every
 system call; when its script ends the process stops there, so the contract
 speaks of every prefix of every run, and of every crash at that point.
 */
module AuthStore {
  import opened Prelude
  import opened Decimal
  import opened FileSystem

  datatype Errno = EINTR | EEXIST | EIO | EINVAL | ENOMEM | OtherError(code: int)

  /** The environment's answer to one call. */
  datatype Sys = Done | Wrote(count: nat) | Fail(error: Errno)

  /** How far the process got: stopped in the middle, or returned 0 (None) or -errno. */
  datatype Outcome = Stopped | Returned(error: Option<Errno>)

  const ATTEMPTS := 100

  function Temporary(path: string, pid: nat, attempt: nat): (name: string)
    ensures name != path
  {
    var name := path + ".tmp." + Digits(pid) + "." + Digits(attempt);
    assert |name| > |path|;
    name
  }

  predicate HasSlash(path: string) { '/' in path }

  /** The temporary names lie in the directory of the path, and no two attempts of a process share one. */
  lemma TemporariesLieBeside(path: string, pid: nat, m: nat, n: nat)
    ensures path < Temporary(path, pid, n) && !HasSlash(Temporary(path, pid, n)[|path|..])
    ensures Temporary(path, pid, m) == Temporary(path, pid, n) ==> m == n
  {
    var suffix := ".tmp." + Digits(pid) + "." + Digits(n);
    assert Temporary(path, pid, n) == path + suffix && forall i | 0 <= i < |suffix| :: suffix[i] != '/';
    if Temporary(path, pid, m) == Temporary(path, pid, n) {
      var head := path + ".tmp." + Digits(pid) + ".";
      assert Temporary(path, pid, m) == head + Digits(m) && Temporary(path, pid, n) == head + Digits(n);
      assert Temporary(path, pid, m)[|head|..] == Digits(m) && Temporary(path, pid, n)[|head|..] == Digits(n);
      DigitsInjective(m, n);
    }
  }

  // ----- the two situations the path can be in -----

  /** Files that existed at the start are untouched. */
  ghost predicate Keeps(before: Fs, fs: Fs) {
    before.next <= fs.next && forall f | f in before.files :: f in fs.files && fs.files[f] == before.files[f]
  }

  /** Directory versions since the start show the path as it was, or as this file. */
  ghost predicate Later(before: Fs, fs: Fs, path: string, file: Option<nat>) {
    && before.dirs <= fs.dirs
    && forall k | |before.dirs| <= k < |fs.dirs| ::
         Entry(fs.dirs[k], path) == Entry(Current(before), path) || (file.Some? && Entry(fs.dirs[k], path) == file)
  }

  /** No new directory version names anything but the old file under the path. */
  ghost predicate Untouched(before: Fs, fs: Fs, path: string) {
    Valid(fs) && Keeps(before, fs) && Later(before, fs, path, None)
  }

  /** The file is on disk with these contents. */
  ghost predicate Holds(fs: Fs, file: nat, data: Bytes) {
    file in fs.files && fs.files[file] == File(data, true)
  }

  /** The rename has happened: the path names a synced new file, older versions what they named before. */
  ghost predicate Installed(before: Fs, fs: Fs, path: string, file: nat, data: Bytes) {
    && Valid(fs) && Keeps(before, fs) && Holds(fs, file, data)
    && Entry(Current(fs), path) == Some(file)
    && (|fs.dirs| == 1 || Later(before, fs, path, Some(file)))
  }

  // ----- what those situations mean to a reader and after a crash -----

  /**
   The path reads as the whole old or the whole new contents; after any crash
   it is found with the whole new contents, or as a crash before the call could
   have left it.
   */
  ghost predicate OldOrNew(before: Fs, fs: Fs, path: string, data: Bytes) {
    && (Read(fs, path) == Read(before, path) || Read(fs, path) == Some(data))
    && forall r | MayBeFound(fs, path, r) :: r == Some(data) || MayBeFound(before, path, r)
  }

  /** What the names other than the path are entries for. */
  function Others(fs: Fs, path: string): Directory { Current(fs) - {path} }

  /** Beside the path there is one more name than before, for this file. */
  ghost predicate OneMore(before: Fs, fs: Fs, path: string, name: string, file: nat) {
    name !in Current(before) && name != path && Others(fs, path) == Others(before, path)[name := file]
  }

  /** Beside the path one of the 100 temporary names, which was free before, is left. */
  ghost predicate LeftBehind(before: Fs, fs: Fs, path: string, pid: nat) {
    exists n: nat | n < ATTEMPTS :: OneMore(before, fs, path, Temporary(path, pid, n), before.next)
  }

  ghost predicate StillOld(before: Fs, fs: Fs, path: string) {
    && Read(fs, path) == Read(before, path)
    && forall r :: MayBeFound(fs, path, r) <==> MayBeFound(before, path, r)
  }

  ghost predicate SurvivesCrash(fs: Fs, path: string, data: Bytes) {
    forall r | MayBeFound(fs, path, r) :: r == Some(data)
  }

  /** When the old entry and data were on disk, what may be found is what was read. */
  lemma SettledMeansOld(before: Fs, path: string, r: Option<Bytes>)
    requires Valid(before)
    requires forall k | 0 <= k < |before.dirs| :: Entry(before.dirs[k], path) == Entry(Current(before), path)
    requires path in Current(before) ==> before.files[Current(before)[path]].synced
    ensures MayBeFound(before, path, r) <==> r == Read(before, path)
  {
    MayBeFoundIff(before, path, r);
    if r == Read(before, path) {
      assert Shows(before, path, |before.dirs| - 1, r);
    } else if k :| Shows(before, path, k, r) {
      SameEntryShows(before, before, path, |before.dirs| - 1, k, r);
    }
  }

  /** A version that shows the path through the same old entry shows the same as before. */
  lemma SameEntryShows(before: Fs, fs: Fs, path: string, i: nat, k: nat, r: Option<Bytes>)
    requires Valid(before) && Valid(fs) && Keeps(before, fs) && i < |before.dirs| && k < |fs.dirs|
    requires Entry(before.dirs[i], path) == Entry(fs.dirs[k], path)
    ensures Shows(before, path, i, r) <==> Shows(fs, path, k, r)
  {
  }

  /** As long as old versions are kept, whatever might have been found before may still be found. */
  lemma OldMayBeFound(before: Fs, fs: Fs, path: string, r: Option<Bytes>)
    requires Valid(before) && Valid(fs) && Keeps(before, fs) && before.dirs <= fs.dirs
    ensures MayBeFound(before, path, r) ==> MayBeFound(fs, path, r)
  {
    MayBeFoundIff(before, path, r);
    MayBeFoundIff(fs, path, r);
    if k :| Shows(before, path, k, r) {
      SameEntryShows(before, fs, path, k, k, r);
    }
  }

  lemma NothingElseIsFound(before: Fs, fs: Fs, path: string, file: Option<nat>, r: Option<Bytes>)
    requires Valid(before) && Valid(fs) && Keeps(before, fs) && Later(before, fs, path, file)
    requires file.Some? ==> file.value in fs.files && fs.files[file.value].synced
    ensures MayBeFound(fs, path, r) ==>
              MayBeFound(before, path, r) || (file.Some? && r == Some(fs.files[file.value].data))
  {
    MayBeFoundIff(before, path, r);
    MayBeFoundIff(fs, path, r);
    if k :| Shows(fs, path, k, r) {
      var i := if k < |before.dirs| then k else |before.dirs| - 1;
      if Entry(fs.dirs[k], path) == Entry(before.dirs[i], path) {
        SameEntryShows(before, fs, path, i, k, r);
      }
    }
  }

  lemma UntouchedMeansOld(before: Fs, fs: Fs, path: string)
    requires Valid(before) && Untouched(before, fs, path)
    ensures StillOld(before, fs, path) && forall data :: OldOrNew(before, fs, path, data)
  {
    forall r ensures MayBeFound(fs, path, r) <==> MayBeFound(before, path, r) {
      OldMayBeFound(before, fs, path, r);
      NothingElseIsFound(before, fs, path, None, r);
    }
    assert Entry(Current(fs), path) == Entry(Current(before), path);
  }

  lemma InstalledMeansOldOrNew(before: Fs, fs: Fs, path: string, file: nat, data: Bytes)
    requires Valid(before) && Installed(before, fs, path, file, data)
    ensures Read(fs, path) == Some(data) && OldOrNew(before, fs, path, data)
  {
    forall r | MayBeFound(fs, path, r) ensures r == Some(data) || MayBeFound(before, path, r) {
      if |fs.dirs| == 1 {
        SyncedMeansDurable(before, fs, path, file, data);
      } else {
        NothingElseIsFound(before, fs, path, Some(file), r);
      }
    }
  }

  lemma SyncedMeansDurable(before: Fs, fs: Fs, path: string, file: nat, data: Bytes)
    requires Valid(before) && Installed(before, fs, path, file, data) && |fs.dirs| == 1
    ensures SurvivesCrash(fs, path, data)
  {
    forall r | MayBeFound(fs, path, r) ensures r == Some(data) {
      MayBeFoundIff(fs, path, r);
      var k :| Shows(fs, path, k, r);
    }
  }

  /** Without a directory sync, the new contents survive every crash only if they would have before. */
  lemma UnsyncedMayBeLost(before: Fs, fs: Fs, path: string, file: nat, data: Bytes)
    requires Valid(before) && Installed(before, fs, path, file, data) && Later(before, fs, path, Some(file))
    ensures SurvivesCrash(fs, path, data) <==> SurvivesCrash(before, path, data)
  {
    forall r ensures MayBeFound(before, path, r) ==> MayBeFound(fs, path, r) {
      OldMayBeFound(before, fs, path, r);
    }
    forall r ensures MayBeFound(fs, path, r) ==> r == Some(data) || MayBeFound(before, path, r) {
      NothingElseIsFound(before, fs, path, Some(file), r);
    }
  }

  const EMPTY: Fs := Fs([map[]], map[], 0)

  /** What a run that returns 0 makes of an empty directory when the path has no slash. */
  function Written(path: string, pid: nat, data: Bytes): Fs {
    var name := Temporary(path, pid, 0);
    var filled := Append(Create(EMPTY, name), 0, data);
    Rename(Sync(filled, 0), name, path)
  }

  /** It reads as written, and a crash may leave nothing. */
  lemma WithoutSlashMayVanish(path: string, pid: nat, data: Bytes)
    requires !HasSlash(path)
    ensures FileSystem.Valid(EMPTY) && FileSystem.Valid(Written(path, pid, data))
    ensures Read(Written(path, pid, data), path) == Some(data) && MayBeFound(Written(path, pid, data), path, None)
    ensures !SurvivesCrash(EMPTY, path, data) && !SurvivesCrash(Written(path, pid, data), path, data)
  {
    var fs := Written(path, pid, data);
    assert [] + data == data;
    MayBeFoundIff(EMPTY, path, None);
    MayBeFoundIff(fs, path, None);
    assert Shows(EMPTY, path, 0, None) && Shows(fs, path, 0, None);
  }

  // ----- reading the environment's script -----
  //
  // How far a run gets is a matter of the answers alone.  Each function below
  // says where in the script a stage has been completed, if it ever is.

  function Error(answer: Sys): Option<Errno> { if answer.Fail? then Some(answer.error) else None }

  predicate NoneFails(script: seq<Sys>, i: nat, j: nat) {
    i <= j <= |script| && forall k | i <= k < j :: !script[k].Fail?
  }

  /** An exclusive create is refused because the name is taken. */
  predicate Taken(dir: Directory, name: string, answer: Sys) {
    answer == Fail(EEXIST) || (!answer.Fail? && name in dir)
  }

  /** Where the temporary file has been opened, trying names from `attempt` on. */
  function OpenedAt(dir: Directory, path: string, pid: nat, script: seq<Sys>, i: nat, attempt: nat): (r: Option<nat>)
    ensures r.Some? ==> i < r.value <= |script|
    decreases ATTEMPTS - attempt
  {
    if attempt >= ATTEMPTS || i >= |script| then None
    else if Taken(dir, Temporary(path, pid, attempt), script[i]) then
      OpenedAt(dir, path, pid, script, i + 1, attempt + 1)
    else if script[i].Fail? then None
    else Some(i + 1)
  }

  /** Where the last of `remaining` bytes has been written: EINTR repeats, a zero write or another error does not. */
  function WrittenAt(script: seq<Sys>, i: nat, remaining: nat): (r: Option<nat>)
    ensures r.Some? ==> i <= r.value <= |script|
    decreases |script| - i
  {
    if i > |script| then None
    else if remaining == 0 then Some(i)
    else if i == |script| then None
    else if script[i] == Fail(EINTR) then WrittenAt(script, i + 1, remaining)
    else if script[i].Wrote? && script[i].count > 0 then
      WrittenAt(script, i + 1, remaining - Min(script[i].count, remaining))
    else None
  }

  /** Where fsync, close and rename have all succeeded, after the writes that start at i. */
  function InstalledAt(script: seq<Sys>, i: nat, length: nat): (r: Option<nat>)
    ensures r.Some? ==> r.value <= |script|
  {
    var written := WrittenAt(script, i, length);
    if written.None? then None
    else if NoneFails(script, written.value, written.value + 3) then
      Some(written.value + 3)
    else None
  }

  /** The same for the whole run: the allocation and the opens come first. */
  function RenamedAt(dir: Directory, path: string, pid: nat, script: seq<Sys>, length: nat): (r: Option<nat>)
    ensures r.Some? ==> r.value <= |script|
  {
    if script == [] || script[0].Fail? then None else
    var start := OpenedAt(dir, path, pid, script, 1, 0);
    if start.None? then None else InstalledAt(script, start.value, length)
  }

  /** The calls of fsync_parent: copying the path; with a slash, also opening and syncing the directory. */
  function ParentCalls(path: string): nat { if HasSlash(path) then 3 else 1 }

  /** The call at f is the first of those from i on to fail. */
  predicate FirstFailure(script: seq<Sys>, i: nat, f: nat) {
    i <= f < |script| && script[f].Fail? && forall k | i <= k < f :: !script[k].Fail?
  }

  /** Every write up to f went well or was interrupted; the one at f is an error, or wrote nothing. */
  predicate BadWrite(script: seq<Sys>, i: nat, f: int, error: Errno) {
    && i <= f < |script|
    && (forall k | i <= k < f :: script[k] == Fail(EINTR) || (script[k].Wrote? && script[k].count > 0))
    && if script[f].Fail? then error == script[f].error && error != EINTR
       else error == EIO && !(script[f].Wrote? && script[f].count > 0)
  }

  /** The first n opens, from call i on, were refused as taken. */
  predicate AllTaken(dir: Directory, path: string, pid: nat, script: seq<Sys>, i: nat, n: nat) {
    i + n <= |script| && forall k: nat | k < n :: Taken(dir, Temporary(path, pid, k), script[i + k])
  }

  /** Why no temporary file was opened: all 100 names were taken, or the last open failed otherwise. */
  predicate OpenFailed(dir: Directory, path: string, pid: nat, script: seq<Sys>, i: nat, j: nat, error: Errno) {
    || (j == i + ATTEMPTS && error == EEXIST && AllTaken(dir, path, pid, script, i, ATTEMPTS))
    || (i < j <= |script| && j <= i + ATTEMPTS && script[j - 1] == Fail(error) && error != EEXIST
        && AllTaken(dir, path, pid, script, i, j - 1 - i))
  }

  /** Why the temporary file was not filled by the calls up to the close at j - 1. */
  predicate FillFailed(script: seq<Sys>, i: nat, j: nat, length: nat, error: Errno) {
    var written := WrittenAt(script, i, length);
    if written.None? then BadWrite(script, i, j - 2, error)
    else
      && j == written.value + 2 <= |script|
      && (script[j - 2] == Fail(error) || (!script[j - 2].Fail? && script[j - 1] == Fail(error)))
  }

  /** fsync and close succeed, and the rename fails. */
  predicate RenameFailed(script: seq<Sys>, i: nat) {
    NoneFails(script, i, i + 2) && i + 2 < |script| && script[i + 2].Fail?
  }

  /** Why the file opened at i was not renamed; the last of the calls counted is the unlink. */
  predicate NotRenamed(script: seq<Sys>, i: nat, used: nat, length: nat, error: Errno) {
    var written := WrittenAt(script, i, length);
    && 2 <= used <= |script|
    && if written.Some? && RenameFailed(script, written.value) then
         used == written.value + 4 && script[used - 2] == Fail(error)
       else FillFailed(script, i, used - 1, length, error)
  }

  /**
   The call that made a run fail before the rename, and the error it gives:
   the allocation, an open, a write, or one of fsync, close and rename.
   */
  predicate FailedBefore(dir: Directory, path: string, pid: nat, script: seq<Sys>, length: nat,
                         used: nat, error: Errno)
  {
    used <= |script| && script != [] &&
    if script[0].Fail? then used == 1 && error == ENOMEM else
    var start := OpenedAt(dir, path, pid, script, 1, 0);
    if start.None? then OpenFailed(dir, path, pid, script, 1, used, error)
    else NotRenamed(script, start.value, used, length, error)
  }

  /** The one failure after the rename: a call of the parent sync, followed by the unlink. */
  predicate FailedAfter(path: string, script: seq<Sys>, renamed: nat, used: nat, error: Errno) {
    && 2 <= used <= |script| && FirstFailure(script, renamed, used - 2) && used - 2 < renamed + ParentCalls(path)
    && error == if used - 2 == renamed then ENOMEM else script[used - 2].error
  }

  /** The run returns 0: everything up to the rename went well, and so did the parent sync. */
  predicate Succeeds(dir: Directory, path: string, pid: nat, script: seq<Sys>, length: nat) {
    var renamed := RenamedAt(dir, path, pid, script, length);
    renamed.Some? && NoneFails(script, renamed.value, renamed.value + ParentCalls(path))
  }

  /** No call between i and j failed, apart from interrupted writes and taken names. */
  predicate Clean(script: seq<Sys>, i: nat, j: nat) {
    i <= j <= |script| && forall k | i <= k < j && script[k].Fail? :: script[k].error == EINTR || script[k].error == EEXIST
  }

  lemma {:induction false} OpenedIsClean(dir: Directory, path: string, pid: nat, script: seq<Sys>, i: nat, attempt: nat)
    requires OpenedAt(dir, path, pid, script, i, attempt).Some?
    ensures Clean(script, i, OpenedAt(dir, path, pid, script, i, attempt).value)
    decreases ATTEMPTS - attempt
  {
    if Taken(dir, Temporary(path, pid, attempt), script[i]) {
      OpenedIsClean(dir, path, pid, script, i + 1, attempt + 1);
    }
  }

  lemma {:induction false} WrittenIsClean(script: seq<Sys>, i: nat, remaining: nat)
    requires WrittenAt(script, i, remaining).Some?
    ensures Clean(script, i, WrittenAt(script, i, remaining).value)
    decreases |script| - i
  {
    if remaining > 0 {
      WrittenIsClean(script, i + 1,
                     if script[i] == Fail(EINTR) then remaining else remaining - Min(script[i].count, remaining));
    }
  }

  /** A run reaches the rename only over calls that all went well in the end. */
  lemma RenamedIsClean(dir: Directory, path: string, pid: nat, script: seq<Sys>, length: nat)
    requires RenamedAt(dir, path, pid, script, length).Some?
    ensures Clean(script, 0, RenamedAt(dir, path, pid, script, length).value)
  {
    OpenedIsClean(dir, path, pid, script, 1, 0);
    WrittenIsClean(script, OpenedAt(dir, path, pid, script, 1, 0).value, length);
  }

  /** From i on every call succeeds, and writes make progress. */
  predicate Kind(script: seq<Sys>, i: nat) {
    forall k | i <= k < |script| :: script[k].Wrote? && script[k].count > 0
  }

  predicate HasFreeName(fs: Fs, path: string, pid: nat) {
    exists n: nat :: n < ATTEMPTS && Temporary(path, pid, n) !in Current(fs)
  }

  lemma {:induction false} KindOpens(dir: Directory, path: string, pid: nat, script: seq<Sys>, i: nat, attempt: nat, n: nat)
    requires i <= |script| && attempt <= n < ATTEMPTS && Kind(script, i) && |script| >= i + ATTEMPTS - attempt
    requires Temporary(path, pid, n) !in dir
    ensures OpenedAt(dir, path, pid, script, i, attempt).Some?
    ensures OpenedAt(dir, path, pid, script, i, attempt).value <= i + ATTEMPTS - attempt
    decreases n - attempt
  {
    if Taken(dir, Temporary(path, pid, attempt), script[i]) {
      KindOpens(dir, path, pid, script, i + 1, attempt + 1, n);
    }
  }

  lemma {:induction false} KindWrites(script: seq<Sys>, i: nat, remaining: nat)
    requires i <= |script| && Kind(script, i) && |script| >= i + remaining
    ensures WrittenAt(script, i, remaining).Some? && WrittenAt(script, i, remaining).value <= i + remaining
    decreases remaining
  {
    if remaining > 0 {
      KindWrites(script, i + 1, remaining - Min(script[i].count, remaining));
    }
  }

  /** Whenever a name is free, calls that succeed and write something lead to a 0 return. */
  lemma KindSucceeds(fs: Fs, path: string, pid: nat, script: seq<Sys>, length: nat)
    requires Kind(script, 0) && HasFreeName(fs, path, pid)
    requires |script| >= ATTEMPTS + length + 8
    ensures Succeeds(Current(fs), path, pid, script, length)
  {
    var n: nat :| n < ATTEMPTS && Temporary(path, pid, n) !in Current(fs);
    KindOpens(Current(fs), path, pid, script, 1, 0, n);
    KindWrites(script, OpenedAt(Current(fs), path, pid, script, 1, 0).value, length);
  }

  /**
   The run gave up before the rename with its temporary file opened, and the
   last of the calls counted, the unlink, failed.
   */
  predicate UnlinkFailed(dir: Directory, path: string, pid: nat, script: seq<Sys>, length: nat, used: nat) {
    && RenamedAt(dir, path, pid, script, length).None?
    && 1 <= used <= |script| && !script[0].Fail? && OpenedAt(dir, path, pid, script, 1, 0).Some?
    && script[used - 1].Fail?
  }

  // ----- the code -----

  datatype Opening = Opened(name: string, file: nat) | Refused(error: Errno) | OpenStopped

  /** Up to 100 exclusive creates, each under another name. */
  method OpenTemporary(fs0: Fs, path: string, pid: nat, script: seq<Sys>, i: nat)
    returns (fs: Fs, j: nat, r: Opening)
    requires Valid(fs0) && i <= |script|
    ensures i <= j <= |script|
    ensures r.Opened? <==> OpenedAt(Current(fs0), path, pid, script, i, 0).Some?
    ensures r.Opened? ==>
              && OpenedAt(Current(fs0), path, pid, script, i, 0) == Some(j)
              && r.name != path && r.name !in Current(fs0) && r.file == fs0.next && fs == Create(fs0, r.name)
              && exists n: nat :: n < ATTEMPTS && r.name == Temporary(path, pid, n)
    ensures !r.Opened? ==> fs == fs0
    ensures r.Refused? ==> OpenFailed(Current(fs0), path, pid, script, i, j, r.error)
    ensures r.OpenStopped? ==> j == |script|
  {
    hide Temporary, Create;
    fs, j := fs0, i;
    for attempt := 0 to ATTEMPTS
      invariant fs == fs0 && j == i + attempt <= |script|
      invariant AllTaken(Current(fs0), path, pid, script, i, attempt)
      invariant OpenedAt(Current(fs0), path, pid, script, i, 0) == OpenedAt(Current(fs0), path, pid, script, j, attempt)
    {
      if j == |script| {
        return fs, j, OpenStopped;
      }
      var name := Temporary(path, pid, attempt);
      var answer := script[j];
      j := j + 1;
      var error := if answer.Fail? then Some(answer.error) else if name in Current(fs) then Some(EEXIST) else None;
      if error.None? {
        return Create(fs, name), j, Opened(name, fs.next);
      } else if error.value != EEXIST {
        return fs, j, Refused(error.value);
      }
    }
    r := Refused(EEXIST);
  }

  datatype Progress = Finished(error: Option<Errno>) | Halted

  /** The file holds some prefix of the data; nothing else has changed. */
  ghost predicate PartlyWritten(fs0: Fs, fs: Fs, file: nat, data: Bytes, count: nat) {
    && file in fs0.files && count <= |data| && file in fs.files
    && fs == fs0.(files := fs0.files[file := fs.files[file]])
    && fs.files[file].data == data[..count]
  }

  /** The short-write loop: EINTR repeats the call, zero bytes is EIO. */
  method WriteAll(fs0: Fs, file: nat, data: Bytes, script: seq<Sys>, i: nat)
    returns (fs: Fs, j: nat, r: Progress, ghost count: nat)
    requires file in fs0.files && fs0.files[file].data == [] && i <= |script|
    ensures i <= j <= |script|
    ensures PartlyWritten(fs0, fs, file, data, count)
    ensures r == Finished(None) <==> WrittenAt(script, i, |data|).Some?
    ensures r == Finished(None) ==> count == |data| && WrittenAt(script, i, |data|) == Some(j)
    ensures r.Finished? && r.error.Some? ==> BadWrite(script, i, j - 1, r.error.value)
    ensures r.Halted? ==> j == |script|
  {
    fs, j := fs0, i;
    var cursor, remaining := 0, |data|;
    count := 0;
    assert fs0.files == fs0.files[file := fs0.files[file]];
    while remaining > 0
      invariant i <= j <= |script| && cursor + remaining == |data| && 0 <= cursor && 0 <= remaining && count == cursor
      invariant PartlyWritten(fs0, fs, file, data, cursor)
      invariant forall k | i <= k < j :: script[k] == Fail(EINTR) || (script[k].Wrote? && script[k].count > 0)
      invariant WrittenAt(script, i, |data|) == WrittenAt(script, j, remaining)
      decreases |script| - j
    {
      if j == |script| {
        return fs, j, Halted, count;
      }
      var answer := script[j];
      j := j + 1;
      if answer == Fail(EINTR) {
        continue;
      }
      var written := if answer.Wrote? then Min(answer.count, remaining) else 0;
      if answer.Fail? || written == 0 {
        return fs, j, Finished(Some(if answer.Fail? then answer.error else EIO)), count;
      }
      fs := Append(fs, file, data[cursor..cursor + written]);
      assert data[..cursor] + data[cursor..cursor + written] == data[..cursor + written];
      cursor, remaining := cursor + written, remaining - written;
      count := cursor;
    }
    r := Finished(None);
  }

  /** What the calls of fsync_parent from i on amount to. */
  predicate ParentResult(path: string, script: seq<Sys>, i: nat, j: nat, r: Progress) {
    match r
    case Halted => i <= j == |script| < i + ParentCalls(path) && NoneFails(script, i, j)
    case Finished(None) => j == i + ParentCalls(path) && NoneFails(script, i, j)
    case Finished(Some(error)) =>
      && i < j <= i + ParentCalls(path) && j <= |script| && FirstFailure(script, i, j - 1)
      && error == if j - 1 == i then ENOMEM else script[j - 1].error
  }

  /** 0 without a slash; otherwise opening and syncing the directory may each fail. */
  method SyncParent(fs0: Fs, path: string, script: seq<Sys>, i: nat) returns (fs: Fs, j: nat, r: Progress)
    requires Valid(fs0) && i <= |script|
    ensures i <= j <= |script| && ParentResult(path, script, i, j, r)
    ensures fs == if r == Finished(None) && HasSlash(path) then SyncDirectory(fs0) else fs0
  {
    fs, j := fs0, i;
    if j == |script| {
      return fs, j, Halted;
    }
    var copy := Error(script[j]);
    j := j + 1;
    if copy.Some? {
      return fs, j, Finished(Some(ENOMEM));
    }
    if !HasSlash(path) {
      return fs, j, Finished(None);
    }
    for step := 0 to 2
      invariant fs == fs0 && j == i + 1 + step <= |script| && NoneFails(script, i, j)
    {
      if j == |script| {
        return fs, j, Halted;
      }
      var error := Error(script[j]);
      j := j + 1;
      if error.Some? {
        return fs, j, Finished(error);
      }
    }
    return SyncDirectory(fs), j, Finished(None);
  }

  /**
   The atomic write; `used` counts the calls made.  The answers alone decide
   whether the path ends up renamed, what is returned and which call is to blame.
   */
  method AtomicWrite(fs0: Fs, path: string, buffer: Bytes, length: int, pid: nat, script: seq<Sys>)
    returns (fs: Fs, out: Outcome, used: nat)
    requires Valid(fs0) && length <= |buffer|
    ensures Valid(fs) && Keeps(fs0, fs) && used <= |script|
    ensures length < 0 ==> fs == fs0 && out == Returned(Some(EINVAL))
    ensures length >= 0 ==>
              && OldOrNew(fs0, fs, path, buffer[..length])
              && (out == Returned(None) <==> Succeeds(Current(fs0), path, pid, script, length))
              && (out == Stopped ==> used == |script|)
    ensures length >= 0 && RenamedAt(Current(fs0), path, pid, script, length).None? ==> StillOld(fs0, fs, path)
    ensures length >= 0 && RenamedAt(Current(fs0), path, pid, script, length).Some? ==>
              path in Current(fs) && fs.files[Current(fs)[path]] == File(buffer[..length], true)
    ensures out == Returned(None) ==>
              (SurvivesCrash(fs, path, buffer[..length]) <==>
                 HasSlash(path) || SurvivesCrash(fs0, path, buffer[..length]))
    ensures length >= 0 && out.Returned? && out.error.Some? ==>
              match RenamedAt(Current(fs0), path, pid, script, length)
              case None => FailedBefore(Current(fs0), path, pid, script, length, used, out.error.value)
              case Some(renamed) => FailedAfter(path, script, renamed, used, out.error.value)
    ensures length >= 0 && Kind(script, 0) && HasFreeName(fs0, path, pid) && |script| >= ATTEMPTS + length + 8 ==>
              out == Returned(None)
    ensures length >= 0 && out.Returned? ==>
              if out.error.Some? && UnlinkFailed(Current(fs0), path, pid, script, length, used)
              then LeftBehind(fs0, fs, path, pid) else Others(fs, path) == Others(fs0, path)
    ensures out == Stopped ==> Others(fs, path) == Others(fs0, path) || LeftBehind(fs0, fs, path, pid)
  {
    hide OldOrNew, StillOld, SurvivesCrash, MayBeFound, InstalledAt, NotRenamed, OpenFailed, FailedAfter;
    hide Others, OneMore, LeftBehind, Temporary, HasFreeName, Kind, Create, Untouched;
    fs, used := fs0, 0;
    UntouchedMeansOld(fs0, fs, path);
    if length < 0 {
      return fs, Returned(Some(EINVAL)), used;
    }
    var data := buffer[..length];
    if Kind(script, 0) && HasFreeName(fs0, path, pid) && |script| >= ATTEMPTS + length + 8 {
      KindSucceeds(fs0, path, pid, script, length);
    }
    if script == [] {
      return fs, Stopped, used;
    }
    used := 1;
    if script[0].Fail? {
      return fs, Returned(Some(ENOMEM)), used;
    }
    var opening;
    fs, used, opening := OpenTemporary(fs, path, pid, script, used);
    if opening.OpenStopped? {
      return fs, Stopped, used;
    } else if opening.Refused? {
      return fs, Returned(Some(opening.error)), used;
    }
    CreateKeeps(fs0, path, opening.name);
    fs, out, used := WriteAndInstall(fs0, fs, path, opening.name, opening.file, data, script, used);
    OneMoreIsLeftBehind(fs0, fs, path, pid, opening.name);
  }

  /** Why the calls from i on, after the open, ended in this error. */
  predicate Blamed(path: string, script: seq<Sys>, i: nat, used: nat, length: nat, error: Errno) {
    match InstalledAt(script, i, length)
    case None => NotRenamed(script, i, used, length, error)
    case Some(renamed) => FailedAfter(path, script, renamed, used, error)
  }

  /** Everything after the open. */
  method WriteAndInstall(before: Fs, fs0: Fs, path: string, name: string, file: nat, data: Bytes,
                         script: seq<Sys>, i: nat)
    returns (fs: Fs, out: Outcome, used: nat)
    requires Valid(before) && Untouched(before, fs0, path) && file !in before.files && name != path
    requires OneMore(before, fs0, path, name, file) && name !in Current(before)
    requires file in fs0.files && fs0.files[file].data == [] && i <= |script|
    ensures Valid(fs) && Keeps(before, fs) && used <= |script| && OldOrNew(before, fs, path, data)
    ensures var renamed := InstalledAt(script, i, |data|);
            && (renamed.None? ==> StillOld(before, fs, path) && out != Returned(None))
            && (renamed.Some? ==>
                  && path in Current(fs) && fs.files[Current(fs)[path]] == File(data, true)
                  && (out == Returned(None) <==>
                        NoneFails(script, renamed.value, renamed.value + ParentCalls(path))))
    ensures out == Stopped ==> used == |script|
    ensures out == Returned(None) ==> (SurvivesCrash(fs, path, data) <==> HasSlash(path) || SurvivesCrash(before, path, data))
    ensures out.Returned? && out.error.Some? ==> Blamed(path, script, i, used, |data|, out.error.value)
    ensures out.Returned? ==>
              if out.error.Some? && InstalledAt(script, i, |data|).None? && 1 <= used && script[used - 1].Fail?
              then OneMore(before, fs, path, name, file) else Others(fs, path) == Others(before, path)
    ensures out == Stopped ==> Others(fs, path) == Others(before, path) || OneMore(before, fs, path, name, file)
  {
    hide OldOrNew, StillOld, SurvivesCrash, MayBeFound, WrittenAt, HasSlash;
    hide Others, OneMore, Untouched, Installed, Later, Keeps;
    var result, halted;
    ghost var renamed, synced := false, false;
    fs, used, result, halted := FillTemporary(before, fs0, path, name, file, data, script, i);
    if !halted && result.None? {
      fs, used, result, halted, renamed := InstallTemporary(before, fs, path, name, file, data, script, used);
      synced := !halted && result.None?;
    }
    if !halted && result.Some? {
      fs, used, halted := Discard(before, fs, path, name, file, data, script, used, renamed);
    }
    Conclude(before, fs, path, file, data, renamed, synced);
    out := if halted then Stopped else Returned(result);
  }

  /** write, fsync, close: fills the temporary file, which is synced when all of it succeeded. */
  method FillTemporary(before: Fs, fs0: Fs, path: string, name: string, file: nat, data: Bytes,
                       script: seq<Sys>, i: nat)
    returns (fs: Fs, j: nat, result: Option<Errno>, halted: bool)
    requires Valid(before) && Untouched(before, fs0, path) && file !in before.files
    requires file in fs0.files && fs0.files[file].data == [] && i <= |script|
    ensures Untouched(before, fs, path) && fs.dirs == fs0.dirs && i <= j <= |script|
    ensures OneMore(before, fs0, path, name, file) ==> OneMore(before, fs, path, name, file)
    ensures !halted && result.None? ==>
              && Holds(fs, file, data)
              && WrittenAt(script, i, |data|).Some? && j == WrittenAt(script, i, |data|).value + 2
              && NoneFails(script, j - 2, j)
    ensures !halted && result.Some? ==> j >= 1 && FillFailed(script, i, j, |data|, result.value)
    ensures halted ==> j == |script| && InstalledAt(script, i, |data|).None?
  {
    var progress;
    ghost var count;
    fs, j, progress, count := WriteAll(fs0, file, data, script, i);
    assert data[..|data|] == data;
    if progress.Halted? {
      return fs, j, None, true;
    }
    result, halted := progress.error, false;
    if result.None? {
      if j == |script| {
        return fs, j, None, true;
      }
      result := Error(script[j]);
      j := j + 1;
      if result.None? {
        fs := Sync(fs, file);
      }
    }
    if j == |script| {
      return fs, j, None, true;
    }
    if result.None? {
      result := Error(script[j]);
    }
    j := j + 1;
  }

  /** How the path stands: as before, or renamed, and then with its directory synced or not. */
  ghost predicate Stands(before: Fs, fs: Fs, path: string, file: nat, data: Bytes, renamed: bool, synced: bool) {
    if !renamed then !synced && Untouched(before, fs, path) else
    && Installed(before, fs, path, file, data)
    && if synced && HasSlash(path) then |fs.dirs| == 1 else Later(before, fs, path, Some(file))
  }

  /** rename, then the parent directory. */
  method InstallTemporary(before: Fs, fs0: Fs, path: string, name: string, file: nat, data: Bytes,
                          script: seq<Sys>, i: nat)
    returns (fs: Fs, j: nat, result: Option<Errno>, halted: bool, ghost renamed: bool)
    requires Valid(before) && Untouched(before, fs0, path) && name != path && i <= |script|
    requires OneMore(before, fs0, path, name, file) && Holds(fs0, file, data)
    ensures if renamed then Others(fs, path) == Others(before, path) else OneMore(before, fs, path, name, file)
    ensures i <= j <= |script| && renamed == (i < |script| && !script[i].Fail?)
    ensures Stands(before, fs, path, file, data, renamed, renamed && !halted && result.None?)
    ensures i == |script| ==> halted && j == i
    ensures i < |script| && script[i].Fail? ==> !halted && result == Some(script[i].error) && j == i + 1
    ensures renamed ==> i < j && ParentResult(path, script, i + 1, j, if halted then Halted else Finished(result))
  {
    fs, j, halted, renamed := fs0, i, false, false;
    if j == |script| {
      return fs, j, None, true, false;
    }
    result := Error(script[j]);
    j := j + 1;
    if result.None? {
      OneMoreNames(before, fs, path, name, file);
      RenameInstalls(before, fs, path, name, file, data);
      RenameTidies(before, fs, path, name, file);
      fs := Rename(fs, name, path);
      renamed := true;
      ghost var moved := fs;
      var synced;
      fs, j, synced := SyncParent(fs, path, script, j);
      DirectorySyncKeeps(before, moved, path, file, data);
      halted := synced.Halted?;
      result := if halted then None else synced.error;
    }
  }

  /** unlink of the temporary name, whose own result is ignored. */
  method Discard(before: Fs, fs0: Fs, path: string, name: string, file: nat, data: Bytes,
                 script: seq<Sys>, i: nat, ghost renamed: bool)
    returns (fs: Fs, j: nat, halted: bool)
    requires Valid(before) && name != path && Stands(before, fs0, path, file, data, renamed, false) && i <= |script|
    requires name !in Current(before)
    ensures Stands(before, fs, path, file, data, renamed, false)
    ensures halted == (i == |script|) && j == if halted then i else i + 1
    requires Others(fs0, path) == Others(before, path) || OneMore(before, fs0, path, name, file)
    ensures i < |script| && !script[i].Fail? ==> name !in Current(fs)
    ensures if i < |script| && !script[i].Fail? then Others(fs, path) == Others(before, path)
            else fs == fs0
  {
    fs, j, halted := fs0, i, i == |script|;
    if !halted {
      if !script[i].Fail? {
        UnlinkKeeps(before, fs, path, name, file, data, renamed);
        UnlinkTidies(before, fs, path, name, file);
        fs := Unlink(fs, name);
      }
      j := j + 1;
    }
  }

  // ----- one lemma per directory step -----

  lemma OneMoreNames(before: Fs, fs: Fs, path: string, name: string, file: nat)
    requires OneMore(before, fs, path, name, file)
    ensures name in Current(fs) && Current(fs)[name] == file
  {
    assert Others(fs, path)[name] == file;
  }

  lemma OneMoreIsLeftBehind(before: Fs, fs: Fs, path: string, pid: nat, name: string)
    requires exists n: nat :: n < ATTEMPTS && name == Temporary(path, pid, n)
    ensures OneMore(before, fs, path, name, before.next) ==> LeftBehind(before, fs, path, pid)
  {
  }

  lemma RenameTidies(before: Fs, fs: Fs, path: string, name: string, file: nat)
    requires OneMore(before, fs, path, name, file) && name in Current(fs)
    ensures Others(Rename(fs, name, path), path) == Others(before, path)
  {
    assert Others(Rename(fs, name, path), path) == Others(fs, path) - {name};
  }

  lemma UnlinkTidies(before: Fs, fs: Fs, path: string, name: string, file: nat)
    requires name !in Current(before) && name != path
    requires Others(fs, path) == Others(before, path) || OneMore(before, fs, path, name, file)
    ensures Others(Unlink(fs, name), path) == Others(before, path)
  {
    assert Others(Unlink(fs, name), path) == Others(fs, path) - {name};
  }

  lemma CreateKeeps(before: Fs, path: string, name: string)
    requires Valid(before) && name != path && name !in Current(before)
    ensures Untouched(before, Create(before, name), path)
    ensures OneMore(before, Create(before, name), path, name, before.next)
    ensures before.next !in before.files && before.next in Create(before, name).files
    ensures Create(before, name).files[before.next].data == []
  {
    assert Others(Create(before, name), path) == Others(before, path)[name := before.next];
  }

  lemma RenameInstalls(before: Fs, fs: Fs, path: string, name: string, file: nat, data: Bytes)
    requires Valid(before) && Untouched(before, fs, path) && name != path
    requires name in Current(fs) && Current(fs)[name] == file && Holds(fs, file, data)
    ensures Installed(before, Rename(fs, name, path), path, file, data)
    ensures Later(before, Rename(fs, name, path), path, Some(file))
  {
  }

  lemma DirectorySyncKeeps(before: Fs, fs: Fs, path: string, file: nat, data: Bytes)
    requires Valid(before) && Installed(before, fs, path, file, data)
    ensures Installed(before, SyncDirectory(fs), path, file, data)
  {
  }

  lemma UnlinkKeeps(before: Fs, fs: Fs, path: string, name: string, file: nat, data: Bytes, renamed: bool)
    requires Valid(before) && name != path && Stands(before, fs, path, file, data, renamed, false)
    ensures Stands(before, Unlink(fs, name), path, file, data, renamed, false)
  {
  }

  /** What the final situation means for readers and after crashes. */
  lemma Conclude(before: Fs, fs: Fs, path: string, file: nat, data: Bytes, renamed: bool, synced: bool)
    requires Valid(before) && Stands(before, fs, path, file, data, renamed, synced)
    ensures Valid(fs) && Keeps(before, fs) && OldOrNew(before, fs, path, data)
    ensures !renamed ==> StillOld(before, fs, path)
    ensures renamed ==> path in Current(fs) && fs.files[Current(fs)[path]] == File(data, true)
    ensures renamed && synced ==>
              (SurvivesCrash(fs, path, data) <==> HasSlash(path) || SurvivesCrash(before, path, data))
  {
    if !renamed {
      UntouchedMeansOld(before, fs, path);
    } else {
      InstalledMeansOldOrNew(before, fs, path, file, data);
      if synced && HasSlash(path) {
        SyncedMeansDurable(before, fs, path, file, data);
      } else if synced {
        UnsyncedMayBeLost(before, fs, path, file, data);
      }
    }
  }
}
