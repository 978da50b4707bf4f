/**
 A file system seen through crashes.  The directory keeps every version since
 it was last synced: after a crash each name may show any of them.  A file
 whose data was not synced since its last write may hold anything at all.
 */
module FileSystem {
  import opened Prelude

  type Bytes = seq<Byte>
  type Directory = map<string, nat>

  datatype File = File(data: Bytes, synced: bool)

  datatype Fs = Fs(dirs: seq<Directory>, files: map<nat, File>, next: nat)

  ghost predicate Valid(fs: Fs) {
    && |fs.dirs| >= 1
    && (forall k, name | 0 <= k < |fs.dirs| && name in fs.dirs[k] :: fs.dirs[k][name] in fs.files)
    && (forall f | f in fs.files :: f < fs.next)
  }

  function Current(fs: Fs): Directory {
    if fs.dirs == [] then map[] else fs.dirs[|fs.dirs| - 1]
  }

  function Entry(dir: Directory, name: string): Option<nat> {
    if name in dir then Some(dir[name]) else None
  }

  /** What a running process reads. */
  function Read(fs: Fs, name: string): Option<Bytes> {
    if name in Current(fs) && Current(fs)[name] in fs.files then Some(fs.files[Current(fs)[name]].data) else None
  }

  // ----- system calls that succeed -----

  function Create(fs: Fs, name: string): Fs {
    fs.(dirs := fs.dirs + [Current(fs)[name := fs.next]],
        files := fs.files[fs.next := File([], false)], next := fs.next + 1)
  }

  function Append(fs: Fs, file: nat, data: Bytes): Fs
    requires file in fs.files
  {
    fs.(files := fs.files[file := File(fs.files[file].data + data, false)])
  }

  function Sync(fs: Fs, file: nat): Fs
    requires file in fs.files
  {
    fs.(files := fs.files[file := fs.files[file].(synced := true)])
  }

  function SyncDirectory(fs: Fs): Fs {
    fs.(dirs := [Current(fs)])
  }

  function Rename(fs: Fs, from: string, to: string): Fs
    requires from in Current(fs)
  {
    fs.(dirs := fs.dirs + [(Current(fs) - {from})[to := Current(fs)[from]]])
  }

  function Unlink(fs: Fs, name: string): Fs {
    if name in Current(fs) then fs.(dirs := fs.dirs + [Current(fs) - {name}]) else fs
  }

  // ----- crashes -----

  /** Version k of the directory accounts for finding `r` under a name. */
  ghost predicate Shows(fs: Fs, name: string, k: int, r: Option<Bytes>) {
    && 0 <= k < |fs.dirs|
    && (r.Some? <==> name in fs.dirs[k])
    && (r.Some? && fs.dirs[k][name] in fs.files && fs.files[fs.dirs[k][name]].synced ==>
          r.value == fs.files[fs.dirs[k][name]].data)
  }

  ghost predicate ShowsSome(fs: Fs, name: string, r: Option<Bytes>) {
    exists k :: Shows(fs, name, k, r)
  }

  ghost function Found(image: map<string, Bytes>, name: string): Option<Bytes> {
    if name in image then Some(image[name]) else None
  }

  /** What may be found on disk after a crash. */
  ghost predicate CrashImage(fs: Fs, image: map<string, Bytes>) {
    forall name :: ShowsSome(fs, name, Found(image, name))
  }

  /** Some crash leaves `r` to be found under the name. */
  ghost predicate MayBeFound(fs: Fs, name: string, r: Option<Bytes>) {
    exists image :: CrashImage(fs, image) && Found(image, name) == r
  }

  /** For a single name, any version may be the one that survives. */
  lemma MayBeFoundIff(fs: Fs, name: string, r: Option<Bytes>)
    requires Valid(fs)
    ensures MayBeFound(fs, name, r) <==> ShowsSome(fs, name, r)
  {
    if MayBeFound(fs, name, r) {
      var image :| CrashImage(fs, image) && Found(image, name) == r;
      assert ShowsSome(fs, name, Found(image, name));
    }
    if ShowsSome(fs, name, r) {
      var k :| Shows(fs, name, k, r);
      var dir := fs.dirs[k];
      var image := map other | other in dir :: if other == name then r.value else fs.files[dir[other]].data;
      forall other ensures ShowsSome(fs, other, Found(image, other)) {
        assert Shows(fs, other, k, Found(image, other));
      }
      assert CrashImage(fs, image) && Found(image, name) == r;
    }
  }
}
