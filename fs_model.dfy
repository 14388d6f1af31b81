/**
 * The filesystem as a map from paths to nodes, and the operations the
 * converter performs on it: `exists`, `mkdir(parents=True, exist_ok=True)`,
 * `shutil.move`, `unlink` and the file write inside Pillow's `save`.
 * The empty path is the filesystem root, which always exists and is a
 * directory.
 */
module FsModel {
  import opened Wrappers
  import opened Paths

  type Bytes = seq<bv8>

  datatype Node = File(data: Bytes) | Dir

  type Fs = map<Path, Node>

  /** The `OSError` subclasses these operations raise. */
  datatype FsError =
    | FileNotFound(p: Path)
    | FileExists(p: Path)
    | IsADirectory(p: Path)
    | AlreadyExists(p: Path)

  /** `Path.exists()` */
  predicate Exists(fs: Fs, p: Path) {
    p == [] || p in fs
  }

  /** `Path.is_dir()` */
  predicate IsDir(fs: Fs, p: Path) {
    p == [] || (p in fs && fs[p].Dir?)
  }

  predicate IsFile(fs: Fs, p: Path) {
    p in fs && fs[p].File?
  }

  /** A tree: the root is not an entry and every entry sits in a directory. */
  ghost predicate WellFormed(fs: Fs) {
    [] !in fs && forall q {:trigger InDir(fs, q)} :: q in fs ==> InDir(fs, q)
  }

  /** The entry `q` sits in a directory. */
  ghost predicate InDir(fs: Fs, q: Path) {
    IsDir(fs, Parent(q))
  }

  /** No component of `p`, from the first to `p` itself, is a file. */
  ghost predicate NoFileOnPath(fs: Fs, p: Path) {
    forall k :: 0 < k <= |p| ==> !IsFile(fs, p[..k])
  }

  /** `Path.unlink()` */
  function Unlink(fs: Fs, p: Path): (r: Result<Fs, FsError>)
    ensures r.Success? <==> IsFile(fs, p)
    ensures r.Success? ==> r.value.Keys == fs.Keys - {p}
    ensures r.Success? ==> forall q :: q in r.value ==> r.value[q] == fs[q]
  {
    if p !in fs then Failure(FileNotFound(p))
    else if fs[p].Dir? then Failure(IsADirectory(p))
    else Success(fs - {p})
  }

  /** Opening `p` for writing and storing `data`: `p` must not be a
      directory and its parent must be one. */
  function Write(fs: Fs, p: Path, data: Bytes): (r: Result<Fs, FsError>)
    ensures r.Success? <==> !IsDir(fs, p) && IsDir(fs, Parent(p))
    ensures r.Success? ==> r.value.Keys == fs.Keys + {p} && r.value[p] == File(data)
    ensures r.Success? ==> forall q :: q in fs && q != p ==> r.value[q] == fs[q]
  {
    if IsDir(fs, p) then Failure(IsADirectory(p))
    else if !IsDir(fs, Parent(p)) then Failure(FileNotFound(p))
    else Success(fs[p := File(data)])
  }

  /**
   * `Path.mkdir(parents=True, exist_ok=True)`: an existing directory is
   * accepted, an existing non-directory is an error, and a missing one is
   * created after its missing parents.
   */
  function MakeDirs(fs: Fs, p: Path): (r: Result<Fs, FsError>)
    decreases |p|
    ensures r.Success? ==> IsDir(r.value, p)
    ensures r.Success? ==> forall q :: q in fs ==> q in r.value && r.value[q] == fs[q]
    ensures r.Success? ==> forall q :: q in r.value && q !in fs ==> IsPrefix(q, p) && r.value[q] == Dir
    ensures r.Failure? ==> r.error.FileExists? && IsPrefix(r.error.p, p) && IsFile(fs, r.error.p)
  {
    if Exists(fs, p) then
      if IsDir(fs, p) then Success(fs) else Failure(FileExists(p))
    else
      match MakeDirs(fs, Parent(p))
      case Failure(e) => Failure(e)
      case Success(made) => Success(made[p := Dir])
  }

  /**
   * `shutil.move(src, dst)` of a file within one filesystem: into `dst`
   * when that is a directory (refusing an existing entry of the same
   * name), otherwise onto `dst`, replacing a file there.
   */
  function Move(fs: Fs, src: Path, dst: Path): (r: Result<Fs, FsError>)
    ensures r.Success? <==>
              && IsFile(fs, src)
              && !(IsDir(fs, dst) && Exists(fs, MoveTarget(fs, src, dst)))
              && IsDir(fs, Parent(MoveTarget(fs, src, dst)))
    ensures r.Success? ==>
              MoveTarget(fs, src, dst) in r.value && r.value[MoveTarget(fs, src, dst)] == fs[src]
    ensures r.Success? && MoveTarget(fs, src, dst) != src ==> src !in r.value
    ensures r.Success? ==> forall q :: q != src && q != MoveTarget(fs, src, dst) ==>
              (q in r.value <==> q in fs) && (q in fs ==> r.value[q] == fs[q])
  {
    if src !in fs then Failure(FileNotFound(src))
    else if fs[src].Dir? then Failure(IsADirectory(src))
    else
      var target := MoveTarget(fs, src, dst);
      if IsDir(fs, dst) && Exists(fs, target) then Failure(AlreadyExists(target))
      else if !IsDir(fs, Parent(target)) then Failure(FileNotFound(target))
      else Success((fs - {src})[target := fs[src]])
  }

  /** Where `shutil.move` puts `src`: inside `dst` when that is a directory. */
  function MoveTarget(fs: Fs, src: Path, dst: Path): Path {
    if IsDir(fs, dst) then dst + [Name(src)] else dst
  }

  /** In a tree, every proper prefix of an entry is a directory. */
  lemma {:induction false} AncestorsAreDirs(fs: Fs, q: Path, k: nat)
    requires WellFormed(fs) && q in fs && k < |q|
    ensures IsDir(fs, q[..k])
    decreases |q|
  {
    var up := Parent(q);
    assert InDir(fs, q);
    if k < |up| {
      assert up in fs;
      AncestorsAreDirs(fs, up, k);
      assert up[..k] == q[..k];
    } else {
      assert up == q[..k];
    }
  }

  /** In a tree, `mkdir(parents=True, exist_ok=True)` succeeds exactly
      when no component on the way is a file. */
  lemma {:induction false} MakeDirsSucceeds(fs: Fs, p: Path)
    requires WellFormed(fs)
    ensures MakeDirs(fs, p).Success? <==> NoFileOnPath(fs, p)
    decreases |p|
  {
    if p == [] {
    } else if Exists(fs, p) {
      if IsDir(fs, p) {
        forall k | 0 < k <= |p| ensures !IsFile(fs, p[..k]) {
          if k < |p| { AncestorsAreDirs(fs, p, k); } else { assert p[..k] == p; }
        }
      } else {
        assert p[..|p|] == p;
      }
    } else {
      MakeDirsSucceeds(fs, Parent(p));
      NoFileOnPathStep(fs, p);
    }
  }

  /** No file on the way to `p` means none on the way to its parent and
      `p` itself not a file. */
  lemma NoFileOnPathStep(fs: Fs, p: Path)
    requires p != []
    ensures NoFileOnPath(fs, p) <==> NoFileOnPath(fs, Parent(p)) && !IsFile(fs, p)
  {
    var up := Parent(p);
    assert p[..|p|] == p;
    forall k | 0 < k < |p| ensures p[..k] == up[..k] { }
  }

  /** `mkdir(parents=True, exist_ok=True)` leaves a tree a tree. */
  lemma {:induction false} MakeDirsKeepsTree(fs: Fs, p: Path)
    requires WellFormed(fs) && MakeDirs(fs, p).Success?
    ensures WellFormed(MakeDirs(fs, p).value)
    decreases |p|
  {
    if !Exists(fs, p) {
      var up := Parent(p);
      MakeDirsKeepsTree(fs, up);
      var made := MakeDirs(fs, up).value;
      assert IsDir(made, up);
      assert forall q :: q in made && q !in fs ==> |q| <= |up|;
      assert p !in made;
      var r := made[p := Dir];
      assert r == MakeDirs(fs, p).value;
      forall q | q in r ensures IsDir(r, Parent(q)) {
        if q != p { assert InDir(made, q); }
      }
    }
  }

  /** A file moved onto a free path in an existing directory leaves its
      old place, arrives with its contents, and nothing else changes. */
  lemma MoveToFreePath(fs: Fs, src: Path, dst: Path)
    requires IsFile(fs, src) && !Exists(fs, dst) && IsDir(fs, Parent(dst))
    ensures Move(fs, src, dst).Success?
    ensures src !in Move(fs, src, dst).value
    ensures dst in Move(fs, src, dst).value && Move(fs, src, dst).value[dst] == fs[src]
    ensures forall q :: q != src && q != dst ==>
              (q in Move(fs, src, dst).value <==> q in fs) &&
              (q in fs ==> Move(fs, src, dst).value[q] == fs[q])
  {
  }

  /** Every operation keeps the filesystem a tree. */
  lemma UnlinkInTree(fs: Fs, p: Path)
    requires WellFormed(fs) && Unlink(fs, p).Success?
    ensures WellFormed(Unlink(fs, p).value)
  {
    var r := Unlink(fs, p).value;
    forall q | q in r ensures IsDir(r, Parent(q)) {
      assert InDir(fs, q);
    }
  }

  lemma WriteInTree(fs: Fs, p: Path, data: Bytes)
    requires WellFormed(fs) && Write(fs, p, data).Success?
    ensures WellFormed(Write(fs, p, data).value)
  {
    var r := Write(fs, p, data).value;
    forall q | q in r ensures IsDir(r, Parent(q)) {
      if q != p { assert InDir(fs, q); }
    }
  }

  lemma MoveInTree(fs: Fs, src: Path, dst: Path)
    requires WellFormed(fs) && Move(fs, src, dst).Success?
    ensures WellFormed(Move(fs, src, dst).value)
  {
    var target := MoveTarget(fs, src, dst);
    assert IsFile(fs, src) && !IsDir(fs, target) && IsDir(fs, Parent(target));
    MovedTree(fs, src, target);
  }

  /** Replacing a file `src` by an entry at a non-directory `target`
      whose parent is a directory keeps a tree. */
  lemma MovedTree(fs: Fs, src: Path, target: Path)
    requires WellFormed(fs) && IsFile(fs, src) && !IsDir(fs, target) && IsDir(fs, Parent(target))
    ensures WellFormed((fs - {src})[target := fs[src]])
  {
    var r := (fs - {src})[target := fs[src]];
    forall q | q in r ensures IsDir(r, Parent(q)) {
      if q != target {
        assert q in fs;
        assert InDir(fs, q);
      }
    }
  }

  /** Ties a state change and its reported outcome to an operation's result. */
  ghost predicate Applied(before: Fs, after: Fs, r: Result<Fs, FsError>, out: Result<(), FsError>) {
    match r
    case Success(m) => out == Success(()) && after == m
    case Failure(e) => out == Failure(e) && after == before
  }

  /** The disk a run works on. */
  class FileSystem {
    var entries: Fs

    constructor (init: Fs)
      ensures entries == init
    {
      entries := init;
    }

    method ExistsAt(p: Path) returns (b: bool)
      ensures b == Exists(entries, p)
    {
      b := p == [] || p in entries;
    }

    method MakeDirsAt(p: Path) returns (out: Result<(), FsError>)
      modifies this
      ensures Applied(old(entries), entries, MakeDirs(old(entries), p), out)
    {
      var r := MakeDirs(entries, p);
      if r.Success? { entries := r.value; out := Success(()); } else { out := Failure(r.error); }
    }

    method MoveFile(src: Path, dst: Path) returns (out: Result<(), FsError>)
      modifies this
      ensures Applied(old(entries), entries, Move(old(entries), src, dst), out)
    {
      var r := Move(entries, src, dst);
      if r.Success? { entries := r.value; out := Success(()); } else { out := Failure(r.error); }
    }

    method UnlinkAt(p: Path) returns (out: Result<(), FsError>)
      modifies this
      ensures Applied(old(entries), entries, Unlink(old(entries), p), out)
    {
      var r := Unlink(entries, p);
      if r.Success? { entries := r.value; out := Success(()); } else { out := Failure(r.error); }
    }

    method WriteAt(p: Path, data: Bytes) returns (out: Result<(), FsError>)
      modifies this
      ensures Applied(old(entries), entries, Write(old(entries), p, data), out)
    {
      var r := Write(entries, p, data);
      if r.Success? { entries := r.value; out := Success(()); } else { out := Failure(r.error); }
    }
  }
}
