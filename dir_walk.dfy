/**
 * The directory walk of `C2W.dirwalker`: `os.walk` from the converted
 * directory, top down, with every subdirectory named `img_backup`
 * removed from `dirs` before the walk descends.
 */
module DirWalk {
  import opened Paths
  import opened Classifier
  import opened Originals

  /** A directory: its subdirectories in listing order and its files. */
  datatype DirTree = DirTree(subdirs: seq<SubDir>, files: seq<FileMeta>)

  datatype SubDir = SubDir(name: string, tree: DirTree)

  /** One `(path, dirs, files)` triple the loop sees, as `(path, files)`. */
  datatype WalkStep = WalkStep(dir: Path, files: seq<FileMeta>)

  /** A file together with the directory it was listed in. */
  datatype Located = Located(dir: Path, file: FileMeta)

  /** `pt(path).joinpath(fln)` */
  function PathOf(l: Located): Path {
    l.dir + [l.file.name]
  }

  /** The walk from `dir` after the pruning of `img_backup`. */
  function Walk(t: DirTree, dir: Path): (r: seq<WalkStep>)
    decreases t
    ensures |r| > 0 && r[0] == WalkStep(dir, t.files)
    ensures forall k :: 0 <= k < |r| ==> IsPrefix(dir, r[k].dir)
  {
    [WalkStep(dir, t.files)] + WalkSubdirs(t.subdirs, dir)
  }

  /** The walks of the subdirectories, in order, with every one named
      `img_backup` left out. */
  function WalkSubdirs(subs: seq<SubDir>, dir: Path): (r: seq<WalkStep>)
    decreases subs
    ensures forall k :: 0 <= k < |r| ==>
              IsPrefix(dir, r[k].dir) && |dir| < |r[k].dir| && r[k].dir[|dir|] != BackupDirName
  {
    if subs == [] then []
    else
      var first := if subs[0].name == BackupDirName then [] else Walk(subs[0].tree, dir + [subs[0].name]);
      assert forall k :: 0 <= k < |first| ==> first[k].dir[..|dir| + 1] == dir + [subs[0].name];
      first + WalkSubdirs(subs[1..], dir)
  }

  /** The files of one step, in listing order. */
  function Locate(s: WalkStep): (ls: seq<Located>)
    ensures |ls| == |s.files|
    ensures forall i :: 0 <= i < |ls| ==> ls[i] == Located(s.dir, s.files[i])
  {
    seq(|s.files|, i requires 0 <= i < |s.files| => Located(s.dir, s.files[i]))
  }

  /** The files the walk's steps list, in walk order. */
  function Flatten(steps: seq<WalkStep>): seq<Located> {
    if steps == [] then [] else Locate(steps[0]) + Flatten(steps[1..])
  }

  /** Every file of the tree below `dir`, with no directory pruned. */
  function AllFiles(t: DirTree, dir: Path): seq<Located>
    decreases t
  {
    Locate(WalkStep(dir, t.files)) + AllFilesSub(t.subdirs, dir)
  }

  function AllFilesSub(subs: seq<SubDir>, dir: Path): seq<Located>
    decreases subs
  {
    if subs == [] then []
    else AllFiles(subs[0].tree, dir + [subs[0].name]) + AllFilesSub(subs[1..], dir)
  }

  /** No directory component of `l` below `base` is `img_backup`. */
  predicate OutsideBackup(l: Located, base: Path) {
    forall i :: |base| <= i < |l.dir| ==> l.dir[i] != BackupDirName
  }

  /** The files of `ls` that lie outside every `img_backup` below `base`. */
  function KeepOutside(ls: seq<Located>, base: Path): seq<Located> {
    if ls == [] then []
    else (if OutsideBackup(ls[0], base) then [ls[0]] else []) + KeepOutside(ls[1..], base)
  }

  lemma {:induction false} FlattenAppend(a: seq<WalkStep>, b: seq<WalkStep>)
    ensures Flatten(a + b) == Flatten(a) + Flatten(b)
  {
    if a != [] {
      assert (a + b)[0] == a[0] && (a + b)[1..] == a[1..] + b;
      FlattenAppend(a[1..], b);
    } else {
      assert a + b == b;
    }
  }

  lemma {:induction false} KeepAppend(a: seq<Located>, b: seq<Located>, base: Path)
    ensures KeepOutside(a + b, base) == KeepOutside(a, base) + KeepOutside(b, base)
  {
    if a != [] {
      assert (a + b)[0] == a[0] && (a + b)[1..] == a[1..] + b;
      KeepAppend(a[1..], b, base);
    } else {
      assert a + b == b;
    }
  }

  /** One more step adds its files at the end. */
  lemma FlattenSnoc(steps: seq<WalkStep>, i: nat)
    requires i < |steps|
    ensures Flatten(steps[..i + 1]) == Flatten(steps[..i]) + Locate(steps[i])
  {
    assert steps[..i + 1] == steps[..i] + [steps[i]];
    FlattenAppend(steps[..i], [steps[i]]);
    assert Flatten([steps[i]]) == Locate(steps[i]) + Flatten([]);
  }

  /** Every file found under `dir` is listed in a directory below `dir`. */
  lemma {:induction false} AllFilesBelow(t: DirTree, dir: Path)
    ensures forall l :: l in AllFiles(t, dir) ==> IsPrefix(dir, l.dir)
    decreases t, 1
  {
    AllFilesSubBelow(t.subdirs, dir);
  }

  lemma {:induction false} AllFilesSubBelow(subs: seq<SubDir>, dir: Path)
    ensures forall l :: l in AllFilesSub(subs, dir) ==> IsPrefix(dir, l.dir)
    decreases subs, 0
  {
    if subs != [] {
      var d := dir + [subs[0].name];
      AllFilesBelow(subs[0].tree, d);
      AllFilesSubBelow(subs[1..], dir);
      forall l | l in AllFiles(subs[0].tree, d) ensures IsPrefix(dir, l.dir) {
        assert IsPrefix(d, l.dir);
        assert l.dir[..|dir|] == d[..|dir|];
      }
    }
  }

  /** Below a subdirectory named `img_backup` nothing is kept. */
  lemma {:induction false} KeepNothingInBackup(ls: seq<Located>, base: Path)
    requires forall l :: l in ls ==> IsPrefix(base + [BackupDirName], l.dir)
    ensures KeepOutside(ls, base) == []
  {
    if ls != [] {
      assert ls[0].dir[|base|] == (base + [BackupDirName])[|base|];
      KeepNothingInBackup(ls[1..], base);
    }
  }

  /** Below a subdirectory of another name, keeping relative to the
      parent and relative to the subdirectory agree. */
  lemma {:induction false} KeepShift(ls: seq<Located>, base: Path, name: string)
    requires name != BackupDirName
    requires forall l :: l in ls ==> IsPrefix(base + [name], l.dir)
    ensures KeepOutside(ls, base) == KeepOutside(ls, base + [name])
  {
    if ls != [] {
      var l := ls[0];
      assert l.dir[|base|] == (base + [name])[|base|];
      assert OutsideBackup(l, base) <==> OutsideBackup(l, base + [name]);
      KeepShift(ls[1..], base, name);
    }
  }

  /** The files in the directory the walk starts from are all kept. */
  lemma {:induction false} KeepTop(ls: seq<Located>, base: Path)
    requires forall l :: l in ls ==> l.dir == base
    ensures KeepOutside(ls, base) == ls
  {
    if ls != [] {
      KeepTop(ls[1..], base);
    }
  }

  /**
   * The pruned walk lists exactly the files of the tree that do not lie
   * in an `img_backup` directory below its start, in the order of the
   * unpruned walk. The start itself is never pruned, whatever its name.
   */
  lemma {:induction false} WalkIsPrunedTree(t: DirTree, dir: Path)
    ensures Flatten(Walk(t, dir)) == KeepOutside(AllFiles(t, dir), dir)
    decreases t, 1
  {
    var top := WalkStep(dir, t.files);
    FlattenAppend([top], WalkSubdirs(t.subdirs, dir));
    assert Flatten([top]) == Locate(top) + Flatten([]);
    KeepAppend(Locate(top), AllFilesSub(t.subdirs, dir), dir);
    KeepTop(Locate(top), dir);
    WalkSubdirsIsPruned(t.subdirs, dir);
  }

  lemma {:induction false} WalkSubdirsIsPruned(subs: seq<SubDir>, dir: Path)
    ensures Flatten(WalkSubdirs(subs, dir)) == KeepOutside(AllFilesSub(subs, dir), dir)
    decreases subs, 0
  {
    if subs != [] {
      var s := subs[0];
      var d := dir + [s.name];
      var here := if s.name == BackupDirName then [] else Walk(s.tree, d);
      FlattenAppend(here, WalkSubdirs(subs[1..], dir));
      KeepAppend(AllFiles(s.tree, d), AllFilesSub(subs[1..], dir), dir);
      WalkSubdirsIsPruned(subs[1..], dir);
      AllFilesBelow(s.tree, d);
      if s.name == BackupDirName {
        KeepNothingInBackup(AllFiles(s.tree, d), dir);
      } else {
        WalkIsPrunedTree(s.tree, d);
        KeepShift(AllFiles(s.tree, d), dir, s.name);
      }
    }
  }

  /** Every file the walk lists lies below the start, outside `img_backup`. */
  lemma {:induction false} WalkAvoidsBackups(t: DirTree, dir: Path)
    ensures forall l :: l in Flatten(Walk(t, dir)) ==> IsPrefix(dir, l.dir) && OutsideBackup(l, dir)
  {
    WalkIsPrunedTree(t, dir);
    AllFilesBelow(t, dir);
    KeptAreOutside(AllFiles(t, dir), dir);
  }

  lemma {:induction false} KeptAreOutside(ls: seq<Located>, base: Path)
    ensures forall l :: l in KeepOutside(ls, base) ==> l in ls && OutsideBackup(l, base)
  {
    if ls != [] {
      KeptAreOutside(ls[1..], base);
    }
  }
}
