/**
 * What happens to a source file after its conversion was attempted
 * (`C2W.backup_originals` and `C2W.work_originals`).
 */
module Originals {
  import opened Wrappers
  import opened Paths
  import opened FsModel
  import opened PyValues

  /** The name of the backup directory directly below the converted directory. */
  const BackupDirName: string := "img_backup"

  /** `bup_dir`: `conv_dir/img_backup`. */
  function BackupDir(convDir: Path): Path {
    convDir + [BackupDirName]
  }

  /** An exception escaping the handling of one original. */
  datatype WorkError = OnPath(pathError: PathError) | OnDisk(fsError: FsError)

  /** The disk after a step, and the exception that escaped it, if any. */
  datatype Outcome = Outcome(fs: Fs, raised: Option<WorkError>)

  /** One filesystem operation on `before`: its new state, or `before`
      and the exception it raised. */
  function Attempt(before: Fs, r: Result<Fs, FsError>): (o: Outcome)
    ensures o.raised.None? <==> r.Success?
    ensures r.Success? ==> o.fs == r.value
    ensures r.Failure? ==> o == Outcome(before, Some(OnDisk(r.error)))
  {
    match r
    case Success(after) => Outcome(after, None)
    case Failure(e) => Outcome(before, Some(OnDisk(e)))
  }

  /**
   * `bup_dir.joinpath(src_f.relative_to(conv_dir))`: the source path with
   * `img_backup` inserted right after the converted directory; a source
   * outside the converted directory makes `relative_to` raise.
   */
  function BackupDestination(convDir: Path, src: Path): (r: Result<Path, PathError>)
    ensures r.Success? <==> IsPrefix(convDir, src)
    ensures r.Failure? ==> r.error == NotRelative(src, convDir)
    ensures r.Success? ==> |r.value| == |src| + 1
    ensures r.Success? ==> r.value[..|convDir|] == convDir && r.value[|convDir|] == BackupDirName
    ensures r.Success? ==> r.value[|convDir| + 1..] == src[|convDir|..]
  {
    match RelativeTo(src, convDir)
    case Failure(e) => Failure(e)
    case Success(rel) => Success(BackupDir(convDir) + rel)
  }

  /** Two sources never share a backup destination. */
  lemma BackupDestinationInjective(convDir: Path, a: Path, b: Path)
    requires BackupDestination(convDir, a).Success? && BackupDestination(convDir, b).Success?
    requires BackupDestination(convDir, a) == BackupDestination(convDir, b)
    ensures a == b
  {
    var d := BackupDestination(convDir, a).value;
    assert a == convDir + d[|convDir| + 1..];
    assert b == convDir + d[|convDir| + 1..];
  }

  /**
   * `backup_originals`: create the destination's parent when it does not
   * exist, then move the source there.
   */
  function BackupOriginals(fs: Fs, convDir: Path, src: Path): (r: Outcome)
    ensures !IsPrefix(convDir, src) ==> r == Outcome(fs, Some(OnPath(NotRelative(src, convDir))))
  {
    match BackupDestination(convDir, src)
    case Failure(e) => Outcome(fs, Some(OnPath(e)))
    case Success(dst) =>
      var prepared := Attempt(fs, ParentPrepared(fs, Parent(dst)));
      if prepared.raised.Some? then prepared
      else Attempt(prepared.fs, Move(prepared.fs, src, dst))
  }

  /** `if not dst_par.exists(): dst_par.mkdir(parents=True, exist_ok=True)` */
  function ParentPrepared(fs: Fs, parent: Path): (r: Result<Fs, FsError>)
    ensures r.Success? ==> Exists(r.value, parent)
    ensures r.Success? ==> forall q :: q in fs ==> q in r.value && r.value[q] == fs[q]
    ensures r.Failure? ==> !Exists(fs, parent) && r.error.FileExists? && IsFile(fs, r.error.p)
  {
    if !Exists(fs, parent) then MakeDirs(fs, parent) else Success(fs)
  }

  /** In a tree, preparing a parent with no file on its way succeeds, adds
      only directories on that way, and leaves a tree. */
  lemma ParentPreparedInTree(fs: Fs, parent: Path)
    requires WellFormed(fs) && NoFileOnPath(fs, parent)
    ensures ParentPrepared(fs, parent).Success?
    ensures WellFormed(ParentPrepared(fs, parent).value) && IsDir(ParentPrepared(fs, parent).value, parent)
    ensures forall q :: q in fs ==> q in ParentPrepared(fs, parent).value && ParentPrepared(fs, parent).value[q] == fs[q]
    ensures forall q :: q in ParentPrepared(fs, parent).value && q !in fs ==>
              IsPrefix(q, parent) && ParentPrepared(fs, parent).value[q] == Dir
  {
    if !Exists(fs, parent) {
      MakeDirsSucceeds(fs, parent);
      MakeDirsKeepsTree(fs, parent);
    } else if parent != [] {
      assert parent[..|parent|] == parent;
    }
  }

  /**
   * The erase guard as written: `Path.suffix` is compared with `'webp'`,
   * without the leading dot.
   */
  predicate EraseGuard(src: Path) {
    Suffix(Name(src)) != "webp"
  }

  /** The guard never holds back a deletion: a suffix is empty or starts
      with a dot. */
  lemma EraseGuardNeverBlocks(src: Path)
    ensures EraseGuard(src)
  {
  }

  /** `work_originals`: back up, or erase when the guard lets it. */
  function WorkOriginals(fs: Fs, convDir: Path, policy: Policy, src: Path): (r: Outcome)
    ensures policy == Keep ==> r == Outcome(fs, None)
    ensures policy == Backup ==> r == BackupOriginals(fs, convDir, src)
  {
    var backedUp := if policy == Backup then BackupOriginals(fs, convDir, src) else Outcome(fs, None);
    if backedUp.raised.Some? then backedUp
    else if policy == Erase && EraseGuard(src) then Attempt(backedUp.fs, Unlink(backedUp.fs, src))
    else backedUp
  }

  /** Erasing removes the source, whatever its suffix, and nothing else. */
  lemma EraseRemovesOriginal(fs: Fs, convDir: Path, src: Path)
    requires IsFile(fs, src)
    ensures WorkOriginals(fs, convDir, Erase, src).raised.None?
    ensures WorkOriginals(fs, convDir, Erase, src).fs.Keys == fs.Keys - {src}
    ensures forall q :: q in fs && q != src ==> WorkOriginals(fs, convDir, Erase, src).fs[q] == fs[q]
  {
    EraseGuardNeverBlocks(src);
  }

  /** Erasing a missing source raises `FileNotFoundError`. */
  lemma EraseMissingFails(fs: Fs, convDir: Path, src: Path)
    requires src !in fs
    ensures WorkOriginals(fs, convDir, Erase, src) == Outcome(fs, Some(OnDisk(FileNotFound(src))))
  {
    EraseGuardNeverBlocks(src);
  }

  /**
   * Backing up moves the source to its mirrored place below `img_backup`,
   * creating the missing directories of that place, and changes nothing else.
   */
  lemma {:induction false} BackupMovesOriginal(fs: Fs, convDir: Path, src: Path)
    requires WellFormed(fs) && IsFile(fs, src) && IsPrefix(convDir, src)
    requires !Exists(fs, BackupDestination(convDir, src).value)
    requires NoFileOnPath(fs, Parent(BackupDestination(convDir, src).value))
    ensures BackupOriginals(fs, convDir, src).raised.None?
    ensures WellFormed(BackupOriginals(fs, convDir, src).fs)
    ensures src !in BackupOriginals(fs, convDir, src).fs
    ensures BackupDestination(convDir, src).value in BackupOriginals(fs, convDir, src).fs
    ensures BackupOriginals(fs, convDir, src).fs[BackupDestination(convDir, src).value] == fs[src]
    ensures forall q :: q in fs && q != src ==>
              q in BackupOriginals(fs, convDir, src).fs && BackupOriginals(fs, convDir, src).fs[q] == fs[q]
    ensures forall q :: q in BackupOriginals(fs, convDir, src).fs && q !in fs ==>
              q == BackupDestination(convDir, src).value ||
              (IsPrefix(q, Parent(BackupDestination(convDir, src).value)) && BackupOriginals(fs, convDir, src).fs[q] == Dir)
  {
    var dst := BackupDestination(convDir, src).value;
    var parent := Parent(dst);
    ParentPreparedInTree(fs, parent);
    var ready := ParentPrepared(fs, parent).value;
    assert forall q :: q in ready && q !in fs ==> |q| <= |parent|;
    assert IsFile(ready, src) && !Exists(ready, dst);
    MoveToFreePath(ready, src, dst);
    MoveInTree(ready, src, dst);
    var moved := Move(ready, src, dst).value;
    assert BackupOriginals(fs, convDir, src) == Outcome(moved, None);
  }
}
