/**
 * What the loop of `C2W.dirwalker` computes over the files the walk
 * lists: the static list, the animated list, and how far the shared
 * counters `fle_done` and `fle_skip` move.
 */
module Scanner {
  import opened Paths
  import opened PyValues
  import opened Classifier
  import opened DirWalk
  import opened Originals

  /** The two flags the scan consults. */
  datatype Settings = Settings(recWebp: PyFlag, convAni: PyFlag)

  function VerdictOf(l: Located, s: Settings): Verdict {
    Classify(l.file, s.recWebp, s.convAni)
  }

  /** The lists built so far and the amounts added to the counters. */
  datatype Tally = Tally(img: seq<Path>, ani: seq<Path>, done: nat, skip: nat)

  /** The scan ran to the end, or stopped at a file whose probe raised. */
  datatype ScanResult = Completed(tally: Tally) | Stopped(tally: Tally, at: Path)

  const NoFiles: Tally := Tally([], [], 0, 0)

  /** One accepted, skipped or unopened file. */
  function Record(t: Tally, l: Located, v: Verdict): (r: Tally)
    ensures t.done == |t.img| + |t.ani| ==> r.done == |r.img| + |r.ani|
    ensures r.skip == t.skip + (if v == Skipped then 1 else 0)
    ensures v == Static ==> r.img == t.img + [PathOf(l)] && r.ani == t.ani
    ensures v == Animated ==> r.ani == t.ani + [PathOf(l)] && r.img == t.img
    ensures v != Static && v != Animated ==> r.img == t.img && r.ani == t.ani && r.done == t.done
  {
    match v
    case Skipped => t.(skip := t.skip + 1)
    case Static => t.(img := t.img + [PathOf(l)], done := t.done + 1)
    case Animated => t.(ani := t.ani + [PathOf(l)], done := t.done + 1)
    case Unopened => t
    case Aborted => t
  }

  /** The scan of `files`, in order. */
  function Scan(files: seq<Located>, s: Settings): (r: ScanResult)
    decreases |files|
    ensures r.tally.done == |r.tally.img| + |r.tally.ani|
    ensures r.tally.skip <= |files|
  {
    if files == [] then Completed(NoFiles)
    else
      var l := files[|files| - 1];
      match Scan(files[..|files| - 1], s)
      case Stopped(t, at) => Stopped(t, at)
      case Completed(t) =>
        if VerdictOf(l, s) == Aborted then Stopped(t, PathOf(l))
        else Completed(Record(t, l, VerdictOf(l, s)))
  }

  /** The paths of the files with verdict `v`, in scan order. */
  function PathsWhere(files: seq<Located>, v: Verdict, s: Settings): seq<Path>
    decreases |files|
  {
    if files == [] then []
    else
      PathsWhere(files[..|files| - 1], v, s)
      + (if VerdictOf(files[|files| - 1], s) == v then [PathOf(files[|files| - 1])] else [])
  }

  /** How many files have verdict `v`. */
  function CountWhere(files: seq<Located>, v: Verdict, s: Settings): nat
    decreases |files|
  {
    if files == [] then 0
    else CountWhere(files[..|files| - 1], v, s) + (if VerdictOf(files[|files| - 1], s) == v then 1 else 0)
  }

  predicate NoAbort(files: seq<Located>, s: Settings) {
    forall i :: 0 <= i < |files| ==> VerdictOf(files[i], s) != Aborted
  }

  /** The tally the scan keeps, as per-bucket filters of its input. */
  function Expected(files: seq<Located>, s: Settings): Tally {
    Tally(PathsWhere(files, Static, s), PathsWhere(files, Animated, s),
          |PathsWhere(files, Static, s)| + |PathsWhere(files, Animated, s)|,
          CountWhere(files, Skipped, s))
  }

  /**
   * A scan without a failing probe completes; its static list holds the
   * static files and its animated list the animated ones, each in scan
   * order; `fle_done` grows by the number listed and `fle_skip` by the
   * number skipped.
   */
  lemma {:induction false} ScanCompletes(files: seq<Located>, s: Settings)
    requires NoAbort(files, s)
    ensures Scan(files, s) == Completed(Expected(files, s))
    decreases |files|
  {
    if files != [] {
      var init := files[..|files| - 1];
      assert NoAbort(init, s) by {
        forall i | 0 <= i < |init| ensures VerdictOf(init[i], s) != Aborted {
          assert init[i] == files[i];
        }
      }
      ScanCompletes(init, s);
      assert VerdictOf(files[|files| - 1], s) != Aborted;
    }
  }

  /** A failing probe stops the scan at the first such file, with the
      tally of the files before it. */
  lemma {:induction false} ScanStopsAtFirstAbort(files: seq<Located>, k: nat, s: Settings)
    requires k < |files| && VerdictOf(files[k], s) == Aborted && NoAbort(files[..k], s)
    ensures Scan(files, s) == Stopped(Expected(files[..k], s), PathOf(files[k]))
    decreases |files|
  {
    var init := files[..|files| - 1];
    if k < |files| - 1 {
      assert init[..k] == files[..k];
      ScanStopsAtFirstAbort(init, k, s);
    } else {
      assert init == files[..k];
      ScanCompletes(init, s);
    }
  }

  /** A scan that stops within the first `i + 1` steps of a walk is the
      scan of the whole walk. */
  lemma StoppedWithin(steps: seq<WalkStep>, i: nat, s: Settings)
    requires i < |steps| && Scan(Flatten(steps[..i + 1]), s).Stopped?
    ensures Scan(Flatten(steps), s) == Scan(Flatten(steps[..i + 1]), s)
  {
    FlattenAppend(steps[..i + 1], steps[i + 1..]);
    assert steps[..i + 1] + steps[i + 1..] == steps;
    ScanStaysStopped(Flatten(steps[..i + 1]), Flatten(steps[i + 1..]), s);
  }

  /** The files `before + ls` split around `ls[j]`. */
  lemma SplitAround(before: seq<Located>, ls: seq<Located>, j: nat)
    requires j < |ls|
    ensures before + ls[..j + 1] == (before + ls[..j]) + [ls[j]]
    ensures before + ls == (before + ls[..j + 1]) + ls[j + 1..]
  {
    assert ls == ls[..j + 1] + ls[j + 1..];
    assert ls[..j + 1] == ls[..j] + [ls[j]];
  }

  /** One more file after a completed scan: recorded, or the stop. */
  lemma ScanOneMore(seen: seq<Located>, l: Located, s: Settings)
    requires Scan(seen, s).Completed?
    ensures Scan(seen + [l], s) ==
              if VerdictOf(l, s) == Aborted then Stopped(Scan(seen, s).tally, PathOf(l))
              else Completed(Record(Scan(seen, s).tally, l, VerdictOf(l, s)))
  {
    assert (seen + [l])[..|seen|] == seen;
  }

  /** Once stopped, the scan stays stopped whatever follows. */
  lemma {:induction false} ScanStaysStopped(a: seq<Located>, b: seq<Located>, s: Settings)
    requires Scan(a, s).Stopped?
    ensures Scan(a + b, s) == Scan(a, s)
    decreases |b|
  {
    if b == [] {
      assert a + b == a;
    } else {
      var b' := b[..|b| - 1];
      ScanStaysStopped(a, b', s);
      assert (a + b)[..|a + b| - 1] == a + b';
    }
  }

  /** The scan stops exactly when some file's probe fails. */
  lemma ScanStopsIffAbort(files: seq<Located>, s: Settings)
    ensures Scan(files, s).Stopped? <==> !NoAbort(files, s)
  {
    if NoAbort(files, s) {
      ScanCompletes(files, s);
    } else {
      var k := FirstAbort(files, s);
      ScanStopsAtFirstAbort(files, k, s);
    }
  }

  function FirstAbort(files: seq<Located>, s: Settings): (k: nat)
    requires !NoAbort(files, s)
    ensures k < |files| && VerdictOf(files[k], s) == Aborted && NoAbort(files[..k], s)
    decreases |files|
  {
    if VerdictOf(files[0], s) == Aborted then 0
    else
      var k := FirstAbort(files[1..], s);
      assert forall i :: 0 <= i < k ==> files[1..][..k][i] == files[..k + 1][i + 1];
      k + 1
  }

  /** Every scanned file lands in exactly one bucket. */
  lemma {:induction false} BucketsPartition(files: seq<Located>, s: Settings)
    requires NoAbort(files, s)
    ensures CountWhere(files, Skipped, s) + CountWhere(files, Static, s)
          + CountWhere(files, Animated, s) + CountWhere(files, Unopened, s) == |files|
    ensures |PathsWhere(files, Static, s)| == CountWhere(files, Static, s)
    ensures |PathsWhere(files, Animated, s)| == CountWhere(files, Animated, s)
    decreases |files|
  {
    if files != [] {
      var init := files[..|files| - 1];
      assert NoAbort(init, s) by {
        forall i | 0 <= i < |init| ensures VerdictOf(init[i], s) != Aborted {
          assert init[i] == files[i];
        }
      }
      BucketsPartition(init, s);
      assert VerdictOf(files[|files| - 1], s) != Aborted;
    }
  }

  /** A path is in a verdict's list exactly when a scanned file with that
      verdict has that path. */
  lemma {:induction false} PathsWhereMembers(files: seq<Located>, v: Verdict, s: Settings, p: Path)
    ensures p in PathsWhere(files, v, s) <==>
              exists i :: 0 <= i < |files| && VerdictOf(files[i], s) == v && PathOf(files[i]) == p
    decreases |files|
  {
    if files != [] {
      var init := files[..|files| - 1];
      PathsWhereMembers(init, v, s, p);
      if exists i :: 0 <= i < |init| && VerdictOf(init[i], s) == v && PathOf(init[i]) == p {
        var i :| 0 <= i < |init| && VerdictOf(init[i], s) == v && PathOf(init[i]) == p;
        assert files[i] == init[i];
      }
      if exists i :: 0 <= i < |files| && VerdictOf(files[i], s) == v && PathOf(files[i]) == p {
        var i :| 0 <= i < |files| && VerdictOf(files[i], s) == v && PathOf(files[i]) == p;
        if i < |init| { assert init[i] == files[i]; }
      }
    }
  }

  /** The files a scan of the walk lists, from the converted directory down. */
  function WalkedFiles(tree: DirTree, convDir: Path): seq<Located> {
    Flatten(Walk(tree, convDir))
  }

  /**
   * No listed file lies in a directory named `img_backup` below the
   * converted directory, so backups made by an earlier run are never
   * converted again.
   */
  lemma ListedFilesAvoidBackups(tree: DirTree, convDir: Path, s: Settings, p: Path)
    requires Scan(WalkedFiles(tree, convDir), s).Completed?
    requires p in Scan(WalkedFiles(tree, convDir), s).tally.img + Scan(WalkedFiles(tree, convDir), s).tally.ani
    ensures IsPrefix(convDir, p)
    ensures forall i :: |convDir| <= i < |p| - 1 ==> p[i] != BackupDirName
  {
    var files := WalkedFiles(tree, convDir);
    ScanStopsIffAbort(files, s);
    ScanCompletes(files, s);
    var v := if p in PathsWhere(files, Static, s) then Static else Animated;
    PathsWhereMembers(files, v, s, p);
    var i :| 0 <= i < |files| && VerdictOf(files[i], s) == v && PathOf(files[i]) == p;
    WalkAvoidsBackups(tree, convDir);
    assert files[i] in files;
  }
}
