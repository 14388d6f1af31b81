/**
 * The converter object `C2W`: its settings, the class-level counters it
 * shares with every other converter, the scan, the workers, and the run.
 */
module Convert2Webp {
  import opened Wrappers
  import opened Paths
  import opened FsModel
  import opened PyValues
  import opened Quality
  import opened CpuCount
  import opened Classifier
  import opened DirWalk
  import opened Scanner
  import opened Originals
  import opened Workers

  /** The class attribute `C2W.file_count`, one object for all converters. */
  class FileCount {
    var fleDone: nat
    var fleSkip: nat
    var fleTotal: nat

    constructor ()
      ensures fleDone == 0 && fleSkip == 0 && fleTotal == 0
    {
      fleDone, fleSkip, fleTotal := 0, 0, 0;
    }
  }

  /** The exceptions that end a run. */
  datatype RunError =
    | BackupDirExists(dir: Path)     // `FileExistsError` before the scan
    | ScanRaised(at: Path)           // the animation probe of a GIF raised
    | WorkerRaised(error: WorkError) // an exception escaped a worker

  /** What a completed run reports: the two list lengths and the pool size. */
  datatype Summary = Summary(standard: nat, animated: nat, poolSize: int)

  class C2W {
    const convDir: Path
    const recWebp: PyFlag
    const convAni: PyFlag
    const treatOrgs: Policy
    const bupDir: Path := BackupDir(convDir)
    const fileCount: FileCount
    var quali: EncoderOptions
    var qualiAni: EncoderOptions

    /**
     * The quality options for a `quali` argument and an `ani_m` flag:
     * lossless exactly for `True`, the given level for an int (0
     * included), level 80 otherwise; the animated options are the same
     * record unless `ani_m is True`, which replaces them by mixed mode.
     */
    ghost predicate QualiResolved(q: QualiArg, aniM: PyFlag)
      reads this
    {
      && (quali == Lossless <==> q == QBool(true))
      && (q.QInt? ==> quali == QualityLevel(q.n))
      && (q != QBool(true) && !q.QInt? ==> quali == QualityLevel(DefaultQuality))
      && (qualiAni == if aniM.IsTrue() then AllowMixed else quali)
    }

    constructor (convDir: Path, quali: QualiArg, aniM: PyFlag, recWebp: PyFlag, convAni: PyFlag,
                 treatOrgs: Policy, fileCount: FileCount)
      ensures this.convDir == convDir && this.recWebp == recWebp && this.convAni == convAni
      ensures this.treatOrgs == treatOrgs && this.fileCount == fileCount
      ensures bupDir == BackupDir(convDir)
      ensures QualiResolved(quali, aniM)
    {
      this.convDir := convDir;
      this.recWebp := recWebp;
      this.convAni := convAni;
      this.treatOrgs := treatOrgs;
      this.fileCount := fileCount;
      this.quali := QualityLevel(DefaultQuality);
      this.qualiAni := QualityLevel(DefaultQuality);
      new;
      SetQuali(quali, aniM);
    }

    /** `set_quali` */
    method SetQuali(q: QualiArg, aniM: PyFlag)
      modifies this`quali, this`qualiAni
      ensures QualiResolved(q, aniM)
    {
      quali := QualityLevel(DefaultQuality);
      if q == QBool(true) {
        quali := Lossless;
      } else if q.QInt? {
        quali := QualityLevel(q.n);
      }
      qualiAni := quali;
      if aniM.IsTrue() {
        qualiAni := AllowMixed;
      }
    }

    function ScanSettings(): Settings {
      Settings(recWebp, convAni)
    }

    /** The scan has reached `scan`: the counters moved from `done0` and
        `skip0` by its tally, and either the lists built so far or the
        file at which it stopped. */
    ghost predicate Reached(scan: ScanResult, img: seq<Path>, ani: seq<Path>, stoppedAt: Option<Path>,
                            done0: nat, skip0: nat)
      reads fileCount
    {
      && fileCount.fleDone == done0 + scan.tally.done
      && fileCount.fleSkip == skip0 + scan.tally.skip
      && match scan
         case Completed(t) => stoppedAt == None && t.img == img && t.ani == ani
         case Stopped(_, at) => stoppedAt == Some(at)
    }

    /**
     * `dirwalker`: the static and the animated list of the files the
     * pruned walk lists, with the counters moved as the scan specifies;
     * a probe that raises ends the scan with the counters moved for the
     * files before it.
     */
    method Dirwalker(tree: DirTree) returns (r: Result<(seq<Path>, seq<Path>), Path>)
      modifies fileCount
      ensures fileCount.fleTotal == old(fileCount.fleTotal)
      ensures var scan := Scan(WalkedFiles(tree, convDir), ScanSettings());
              && fileCount.fleDone == old(fileCount.fleDone) + scan.tally.done
              && fileCount.fleSkip == old(fileCount.fleSkip) + scan.tally.skip
              && r == match scan
                      case Completed(t) => Success((t.img, t.ani))
                      case Stopped(_, at) => Failure(at)
    {
      var convImgList: seq<Path>, convAniList: seq<Path> := [], [];
      var steps := Walk(tree, convDir);
      var i := 0;
      while i < |steps|
        invariant 0 <= i <= |steps|
        invariant fileCount.fleTotal == old(fileCount.fleTotal)
        invariant Reached(Scan(Flatten(steps[..i]), ScanSettings()), convImgList, convAniList, None,
                          old(fileCount.fleDone), old(fileCount.fleSkip))
      {
        var stoppedAt;
        stoppedAt, convImgList, convAniList :=
          ScanDir(steps[i], convImgList, convAniList, Flatten(steps[..i]), old(fileCount.fleDone), old(fileCount.fleSkip));
        FlattenSnoc(steps, i);
        if stoppedAt.Some? {
          StoppedWithin(steps, i, ScanSettings());
          return Failure(stoppedAt.value);
        }
        i := i + 1;
      }
      assert steps[..i] == steps;
      r := Success((convImgList, convAniList));
    }

    /** The inner loop of `dirwalker`, over the files of one directory the
        walk lists, after the files `before`. */
    method ScanDir(step: WalkStep, convImgList: seq<Path>, convAniList: seq<Path>,
                   ghost before: seq<Located>, ghost done0: nat, ghost skip0: nat)
      returns (stoppedAt: Option<Path>, imgList: seq<Path>, aniList: seq<Path>)
      requires Reached(Scan(before, ScanSettings()), convImgList, convAniList, None, done0, skip0)
      modifies fileCount
      ensures fileCount.fleTotal == old(fileCount.fleTotal)
      ensures Reached(Scan(before + Locate(step), ScanSettings()), imgList, aniList, stoppedAt, done0, skip0)
    {
      ghost var ls := Locate(step);
      imgList, aniList := convImgList, convAniList;
      var j := 0;
      assert before + ls[..j] == before;
      while j < |step.files|
        invariant 0 <= j <= |step.files|
        invariant fileCount.fleTotal == old(fileCount.fleTotal)
        invariant Reached(Scan(before + ls[..j], ScanSettings()), imgList, aniList, None, done0, skip0)
      {
        SplitAround(before, ls, j);
        var stop;
        stop, imgList, aniList := ScanFile(step.dir, step.files[j], imgList, aniList, before + ls[..j], done0, skip0);
        if stop {
          ScanStaysStopped(before + ls[..j + 1], ls[j + 1..], ScanSettings());
          return Some(step.dir + [step.files[j].name]), imgList, aniList;
        }
        j := j + 1;
      }
      assert ls[..j] == ls;
      stoppedAt := None;
    }

    /** The body of the inner loop of `dirwalker`, for the file `fln` of
        directory `dir`: one more step of the scan. */
    method ScanFile(dir: Path, fln: FileMeta, convImgList: seq<Path>, convAniList: seq<Path>,
                    ghost seen: seq<Located>, ghost done0: nat, ghost skip0: nat)
      returns (stop: bool, imgList: seq<Path>, aniList: seq<Path>)
      requires Reached(Scan(seen, ScanSettings()), convImgList, convAniList, None, done0, skip0)
      modifies fileCount
      ensures fileCount.fleTotal == old(fileCount.fleTotal)
      ensures stop <==> Scan(seen + [Located(dir, fln)], ScanSettings()).Stopped?
      ensures stop ==> Scan(seen + [Located(dir, fln)], ScanSettings()).at == dir + [fln.name]
      ensures stop ==> fileCount.fleDone == old(fileCount.fleDone) && fileCount.fleSkip == old(fileCount.fleSkip)
      ensures !stop ==> Reached(Scan(seen + [Located(dir, fln)], ScanSettings()), imgList, aniList, None, done0, skip0)
    {
      ghost var l := Located(dir, fln);
      ScanOneMore(seen, l, ScanSettings());
      assert VerdictOf(l, ScanSettings()) == Classify(fln, recWebp, convAni);
      imgList, aniList := convImgList, convAniList;
      var skip := SkipCheck(fln, recWebp, convAni);
      if skip.Failure? {
        return true, imgList, aniList;
      }
      stop := false;
      var srcF := dir + [fln.name];
      if skip.value {
        fileCount.fleSkip := fileCount.fleSkip + 1;
      } else if fln.openable {
        if fln.minor == "gif" && fln.animated {
          aniList := aniList + [srcF];
          fileCount.fleDone := fileCount.fleDone + 1;
        } else {
          imgList := imgList + [srcF];
          fileCount.fleDone := fileCount.fleDone + 1;
        }
      }
    }

    /** `backup_originals` */
    method BackupOriginals(fs: FileSystem, srcF: Path) returns (raised: Option<WorkError>)
      modifies fs
      ensures Originals.BackupOriginals(old(fs.entries), convDir, srcF) == Outcome(fs.entries, raised)
    {
      var rel := RelativeTo(srcF, convDir);
      if rel.Failure? {
        return Some(OnPath(rel.error));
      }
      var dstF := bupDir + rel.value;
      var dstFPar := Parent(dstF);
      var parExists := fs.ExistsAt(dstFPar);
      if !parExists {
        var made := fs.MakeDirsAt(dstFPar);
        if made.Failure? {
          return Some(OnDisk(made.error));
        }
      }
      var moved := fs.MoveFile(srcF, dstF);
      raised := if moved.Failure? then Some(OnDisk(moved.error)) else None;
    }

    /** `work_originals` */
    method WorkOriginals(fs: FileSystem, srcF: Path) returns (raised: Option<WorkError>)
      modifies fs
      ensures Originals.WorkOriginals(old(fs.entries), convDir, treatOrgs, srcF) == Outcome(fs.entries, raised)
    {
      raised := None;
      if treatOrgs == Backup {
        raised := BackupOriginals(fs, srcF);
        if raised.Some? {
          return;
        }
      }
      if treatOrgs == Erase && EraseGuard(srcF) {
        var unlinked := fs.UnlinkAt(srcF);
        if unlinked.Failure? {
          raised := Some(OnDisk(unlinked.error));
        }
      }
    }

    /** The worker shared by `mp_worker` (static) and `ani_worker` (animated). */
    method ConvertOne(fs: FileSystem, convF: Path, job: Job, encode: Encoder) returns (raised: Option<WorkError>)
      requires job.convDir == convDir && job.policy == treatOrgs
      modifies fs
      ensures Worker(old(fs.entries), convF, job, encode) == Outcome(fs.entries, raised)
    {
      var dstF := WebpPath(convF);
      if dstF.Failure? {
        return Some(OnPath(dstF.error));
      }
      var encoded := encode(Call(convF, dstF.value, job));
      if encoded.Some? {
        var saved := fs.WriteAt(dstF.value, encoded.value);
      }
      raised := None;
      if treatOrgs != Keep {
        raised := WorkOriginals(fs, convF);
      }
    }

    /** `mp_worker`: one frame, with `quali`. */
    method MpWorker(fs: FileSystem, mpConvF: Path, encode: Encoder) returns (raised: Option<WorkError>)
      modifies fs
      ensures Worker(old(fs.entries), mpConvF, StaticJob(convDir, treatOrgs, quali), encode) == Outcome(fs.entries, raised)
    {
      raised := ConvertOne(fs, mpConvF, StaticJob(convDir, treatOrgs, quali), encode);
    }

    /** `ani_worker`: every frame, with `quali_ani`. */
    method AniWorker(fs: FileSystem, convF: Path, encode: Encoder) returns (raised: Option<WorkError>)
      modifies fs
      ensures Worker(old(fs.entries), convF, AnimatedJob(convDir, treatOrgs, qualiAni), encode) == Outcome(fs.entries, raised)
    {
      raised := ConvertOne(fs, convF, AnimatedJob(convDir, treatOrgs, qualiAni), encode);
    }

    function JobFor(animated: bool): Job
      reads this
    {
      if animated then AnimatedJob(convDir, treatOrgs, qualiAni) else StaticJob(convDir, treatOrgs, quali)
    }

    /** `pool.imap_unordered` over one list, taken one file after another. */
    method RunPool(fs: FileSystem, convList: seq<Path>, animated: bool, encode: Encoder)
      returns (raised: Option<WorkError>)
      modifies fs
      ensures Dispatch(old(fs.entries), convList, JobFor(animated), encode) == Outcome(fs.entries, raised)
    {
      var job := JobFor(animated);
      var i := 0;
      while i < |convList|
        invariant 0 <= i <= |convList|
        invariant Dispatch(old(fs.entries), convList[..i], job, encode) == Outcome(fs.entries, None)
      {
        DispatchOneMore(old(fs.entries), convList, i, job, encode);
        raised := ConvertOne(fs, convList[i], job, encode);
        if raised.Some? {
          DispatchStaysRaised(old(fs.entries), convList, i + 1, job, encode);
          return;
        }
        i := i + 1;
      }
      assert convList[..i] == convList;
      raised := None;
    }

    /**
     * `conv2webp`: refuse to start when the backup directory exists;
     * otherwise scan, run the static list and then the animated one.
     */
    method Conv2Webp(fs: FileSystem, tree: DirTree, cpuCount: int, encode: Encoder)
      returns (r: Result<Summary, RunError>)
      modifies fs, fileCount
      ensures fileCount.fleTotal == old(fileCount.fleTotal)
      ensures Exists(old(fs.entries), bupDir) ==>
                && r == Failure(BackupDirExists(bupDir))
                && fs.entries == old(fs.entries)
                && fileCount.fleDone == old(fileCount.fleDone)
                && fileCount.fleSkip == old(fileCount.fleSkip)
      ensures !Exists(old(fs.entries), bupDir) ==>
                var scan := Scan(WalkedFiles(tree, convDir), ScanSettings());
                && fileCount.fleDone == old(fileCount.fleDone) + scan.tally.done
                && fileCount.fleSkip == old(fileCount.fleSkip) + scan.tally.skip
                && (scan.Stopped? ==> r == Failure(ScanRaised(scan.at)) && fs.entries == old(fs.entries))
                && (scan.Completed? ==>
                      var first := Dispatch(old(fs.entries), scan.tally.img, JobFor(false), encode);
                      var second := Dispatch(first.fs, scan.tally.ani, JobFor(true), encode);
                      if first.raised.Some? then
                        r == Failure(WorkerRaised(first.raised.value)) && fs.entries == first.fs
                      else if second.raised.Some? then
                        r == Failure(WorkerRaised(second.raised.value)) && fs.entries == second.fs
                      else
                        r == Success(Summary(|scan.tally.img|, |scan.tally.ani|, SetCpuNum(cpuCount)))
                        && fs.entries == second.fs)
    {
      var bupExists := fs.ExistsAt(bupDir);
      if bupExists {
        return Failure(BackupDirExists(bupDir));
      }
      var lists := Dirwalker(tree);
      if lists.Failure? {
        return Failure(ScanRaised(lists.error));
      }
      var (convImgList, convAniList) := lists.value;
      var mpCount := SetCpuNum(cpuCount);
      var raised := RunPool(fs, convImgList, false, encode);
      if raised.Some? {
        return Failure(WorkerRaised(raised.value));
      }
      raised := RunPool(fs, convAniList, true, encode);
      if raised.Some? {
        return Failure(WorkerRaised(raised.value));
      }
      r := Success(Summary(|convImgList|, |convAniList|, mpCount));
    }
  }
}
