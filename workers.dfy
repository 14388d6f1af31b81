/**
 * The conversion workers `C2W.mp_worker` and `C2W.ani_worker` and the
 * dispatch of a list through them, over the filesystem map. The image
 * library is an encoder function: for one `save` call it yields the
 * encoded bytes, or nothing when opening, decoding or encoding raises
 * `OSError`.
 */
module Workers {
  import opened Wrappers
  import opened Paths
  import opened FsModel
  import opened PyValues
  import opened Quality
  import opened Originals

  /** The encoder effort both workers pass (`method=3`). */
  const SaveMethod: int := 3

  /** One `ofi.save(dst_f, 'webp', **options, [save_all=True,] method=3)`. */
  datatype SaveCall = SaveCall(src: Path, dst: Path, options: EncoderOptions, saveAll: bool, effort: int)

  type Encoder = SaveCall -> Option<Bytes>

  /** What a worker needs from the converter object. */
  datatype Job = Job(convDir: Path, policy: Policy, options: EncoderOptions, saveAll: bool)

  /** The static worker's job: `quali`, one frame. */
  function StaticJob(convDir: Path, policy: Policy, quali: EncoderOptions): Job {
    Job(convDir, policy, quali, false)
  }

  /** The animated worker's job: `quali_ani`, every frame. */
  function AnimatedJob(convDir: Path, policy: Policy, qualiAni: EncoderOptions): Job {
    Job(convDir, policy, qualiAni, true)
  }

  function Call(src: Path, dst: Path, job: Job): SaveCall {
    SaveCall(src, dst, job.options, job.saveAll, SaveMethod)
  }

  /**
   * The `try` block: write the encoded image to `dst`; an `OSError` from
   * the library or from opening `dst` is caught and leaves the disk as it was.
   */
  function Convert(fs: Fs, src: Path, dst: Path, job: Job, encode: Encoder): (r: Fs)
    ensures encode(Call(src, dst, job)).None? ==> r == fs
    ensures encode(Call(src, dst, job)).Some? && Write(fs, dst, encode(Call(src, dst, job)).value).Success? ==>
              r == Write(fs, dst, encode(Call(src, dst, job)).value).value
    ensures encode(Call(src, dst, job)).Some? && Write(fs, dst, encode(Call(src, dst, job)).value).Failure? ==>
              r == fs
  {
    match encode(Call(src, dst, job))
    case None => fs
    case Some(data) =>
      match Write(fs, dst, data)
      case Success(written) => written
      case Failure(_) => fs
  }

  /**
   * A worker: the destination is the source `with_suffix('.webp')`
   * (computed before the `try`, so its `ValueError` escapes), the
   * conversion is attempted, and then, whenever a policy is set and
   * whether or not the conversion succeeded, the original is handled.
   */
  function Worker(fs: Fs, src: Path, job: Job, encode: Encoder): (r: Outcome)
    ensures Name(src) == "" ==> r == Outcome(fs, Some(OnPath(EmptyName(src))))
    ensures r.raised.None? ==> Name(src) != ""
  {
    match WebpPath(src)
    case Failure(e) => Outcome(fs, Some(OnPath(e)))
    case Success(dst) =>
      var converted := Convert(fs, src, dst, job, encode);
      if job.policy != Keep then WorkOriginals(converted, job.convDir, job.policy, src)
      else Outcome(converted, None)
  }

  /**
   * The pool run over one list, one worker after the other; the first
   * exception that escapes a worker ends the run.
   */
  function Dispatch(fs: Fs, srcs: seq<Path>, job: Job, encode: Encoder): (r: Outcome)
    decreases |srcs|
    ensures r.raised.None? ==> forall p :: p in srcs ==> Name(p) != ""
  {
    if srcs == [] then Outcome(fs, None)
    else
      var init := srcs[..|srcs| - 1];
      assert srcs == init + [srcs[|srcs| - 1]];
      var before := Dispatch(fs, init, job, encode);
      if before.raised.Some? then before
      else Worker(before.fs, srcs[|srcs| - 1], job, encode)
  }

  /** One more file: when the run so far raised nothing, its next worker
      runs on the disk the run so far left. */
  lemma DispatchOneMore(fs: Fs, srcs: seq<Path>, k: nat, job: Job, encode: Encoder)
    requires k < |srcs| && Dispatch(fs, srcs[..k], job, encode).raised.None?
    ensures Dispatch(fs, srcs[..k + 1], job, encode)
            == Worker(Dispatch(fs, srcs[..k], job, encode).fs, srcs[k], job, encode)
  {
    assert srcs[..k + 1][..k] == srcs[..k];
  }

  /** Once a worker has raised, the rest of the list is not run. */
  lemma {:induction false} DispatchStaysRaised(fs: Fs, srcs: seq<Path>, k: nat, job: Job, encode: Encoder)
    requires k <= |srcs| && Dispatch(fs, srcs[..k], job, encode).raised.Some?
    ensures Dispatch(fs, srcs, job, encode) == Dispatch(fs, srcs[..k], job, encode)
    decreases |srcs|
  {
    if k < |srcs| {
      var init := srcs[..|srcs| - 1];
      assert init[..k] == srcs[..k];
      DispatchStaysRaised(fs, init, k, job, encode);
    } else {
      assert srcs[..k] == srcs;
    }
  }

  /** With the originals kept, a successful conversion puts the encoded
      image beside the source under the `.webp` name and changes nothing else. */
  lemma KeptConversionWritesOutput(fs: Fs, src: Path, job: Job, encode: Encoder)
    requires job.policy == Keep && Name(src) != ""
    requires encode(Call(src, WebpPath(src).value, job)).Some?
    requires IsDir(fs, Parent(src)) && !IsDir(fs, WebpPath(src).value)
    ensures Worker(fs, src, job, encode).raised.None?
    ensures WebpPath(src).value in Worker(fs, src, job, encode).fs
    ensures Worker(fs, src, job, encode).fs[WebpPath(src).value] == File(encode(Call(src, WebpPath(src).value, job)).value)
    ensures Worker(fs, src, job, encode).fs.Keys == fs.Keys + {WebpPath(src).value}
    ensures forall q :: q in fs && q != WebpPath(src).value ==>
              q in Worker(fs, src, job, encode).fs && Worker(fs, src, job, encode).fs[q] == fs[q]
  {
  }

  /** With erasing, a successful conversion of a non-`.webp` source leaves
      the encoded image in place of the removed original. */
  lemma ErasedConversionKeepsOutput(fs: Fs, src: Path, job: Job, encode: Encoder)
    requires job.policy == Erase && Name(src) != "" && Suffix(Name(src)) != WebpSuffix
    requires encode(Call(src, WebpPath(src).value, job)).Some?
    requires IsFile(fs, src) && IsDir(fs, Parent(src)) && !IsDir(fs, WebpPath(src).value)
    ensures Worker(fs, src, job, encode).raised.None?
    ensures src !in Worker(fs, src, job, encode).fs
    ensures WebpPath(src).value in Worker(fs, src, job, encode).fs
    ensures Worker(fs, src, job, encode).fs[WebpPath(src).value] == File(encode(Call(src, WebpPath(src).value, job)).value)
    ensures Worker(fs, src, job, encode).fs.Keys == fs.Keys - {src} + {WebpPath(src).value}
    ensures forall q :: q in fs && q != src && q != WebpPath(src).value ==>
              q in Worker(fs, src, job, encode).fs && Worker(fs, src, job, encode).fs[q] == fs[q]
  {
    var out := WebpPath(src).value;
    WebpPathInPlace(src);
    var converted := Convert(fs, src, out, job, encode);
    assert IsFile(converted, src);
    EraseRemovesOriginal(converted, job.convDir, src);
  }

  /**
   * With backing up, a successful conversion of a non-`.webp` source found
   * by the scan (below the conversion directory, outside every
   * `img_backup`) leaves the encoded image beside the place of the original,
   * and the original at its mirrored place below `img_backup`.
   */
  lemma BackedUpConversionKeepsOutput(fs: Fs, src: Path, job: Job, encode: Encoder)
    requires job.policy == Backup && Name(src) != "" && Suffix(Name(src)) != WebpSuffix
    requires encode(Call(src, WebpPath(src).value, job)).Some?
    requires WellFormed(fs) && IsFile(fs, src) && !IsDir(fs, WebpPath(src).value)
    requires IsPrefix(job.convDir, src)
    requires forall i :: |job.convDir| <= i < |src| - 1 ==> src[i] != BackupDirName
    requires !Exists(fs, BackupDestination(job.convDir, src).value)
    requires NoFileOnPath(fs, Parent(BackupDestination(job.convDir, src).value))
    ensures Worker(fs, src, job, encode).raised.None?
    ensures WellFormed(Worker(fs, src, job, encode).fs)
    ensures src !in Worker(fs, src, job, encode).fs
    ensures WebpPath(src).value in Worker(fs, src, job, encode).fs
    ensures Worker(fs, src, job, encode).fs[WebpPath(src).value] == File(encode(Call(src, WebpPath(src).value, job)).value)
    ensures BackupDestination(job.convDir, src).value in Worker(fs, src, job, encode).fs
    ensures Worker(fs, src, job, encode).fs[BackupDestination(job.convDir, src).value] == fs[src]
    ensures forall q :: q in fs && q != src && q != WebpPath(src).value ==>
              q in Worker(fs, src, job, encode).fs && Worker(fs, src, job, encode).fs[q] == fs[q]
    ensures forall q :: q in Worker(fs, src, job, encode).fs && q !in fs ==>
              q == WebpPath(src).value || q == BackupDestination(job.convDir, src).value ||
              (IsPrefix(q, Parent(BackupDestination(job.convDir, src).value)) && Worker(fs, src, job, encode).fs[q] == Dir)
  {
    var out := WebpPath(src).value;
    var data := encode(Call(src, out, job)).value;
    var dst := BackupDestination(job.convDir, src).value;
    assert InDir(fs, src);
    WebpPathInPlace(src);
    var converted := Write(fs, out, data).value;
    assert Convert(fs, src, out, job, encode) == converted;
    WriteInTree(fs, out, data);
    OutputOffBackupPath(job.convDir, src);
    assert |dst| == |src| + 1;
    forall k | 0 < k <= |Parent(dst)| ensures !IsFile(converted, Parent(dst)[..k]) {
      if k == |Parent(dst)| { assert Parent(dst)[..k] == Parent(dst); }
    }
    BackupMovesOriginal(converted, job.convDir, src);
  }

  /** The `.webp` output of a scanned source is never the directory its
      backup goes into. */
  lemma OutputOffBackupPath(convDir: Path, src: Path)
    requires Name(src) != "" && Suffix(Name(src)) != WebpSuffix && IsPrefix(convDir, src)
    requires forall i :: |convDir| <= i < |src| - 1 ==> src[i] != BackupDirName
    ensures WebpPath(src).value != Parent(BackupDestination(convDir, src).value)
  {
    var out := WebpPath(src).value;
    var dst := BackupDestination(convDir, src).value;
    var c := |convDir|;
    if c == |src| {
      assert Parent(dst) == dst[..c] == src;
      WebpPathInPlace(src);
    } else {
      assert Parent(dst)[c] == dst[c] == BackupDirName;
      if c < |src| - 1 {
        assert out[c] == Parent(out)[c];
        assert Parent(src)[c] == src[c];
      } else {
        assert out[c] == Name(out);
        WebpNameIsNotBackupDir(Name(src));
      }
    }
  }

  /** No `.webp` name is `img_backup`. */
  lemma WebpNameIsNotBackupDir(name: string)
    ensures WebpName(name) != BackupDirName
  {
    var w := WebpName(name);
    assert w[|w| - 2] == 'b';
    assert BackupDirName[|BackupDirName| - 2] == 'u';
  }

  /** An erased original is gone even when the conversion failed and
      nothing was written: the image is lost. */
  lemma FailedConversionStillErases(fs: Fs, src: Path, job: Job, encode: Encoder)
    requires job.policy == Erase && Name(src) != "" && IsFile(fs, src)
    requires encode(Call(src, WebpPath(src).value, job)).None?
    ensures Worker(fs, src, job, encode).raised.None?
    ensures Worker(fs, src, job, encode).fs.Keys == fs.Keys - {src}
  {
    EraseRemovesOriginal(fs, job.convDir, src);
  }

  /** A backed-up original is moved even when the conversion failed. */
  lemma FailedConversionStillBacksUp(fs: Fs, src: Path, job: Job, encode: Encoder)
    requires job.policy == Backup && Name(src) != ""
    requires encode(Call(src, WebpPath(src).value, job)).None?
    ensures Worker(fs, src, job, encode) == BackupOriginals(fs, job.convDir, src)
  {
  }

  /** Re-encoding a `.webp` file with the erase policy writes the output
      over the source and then unlinks that very path: no image remains. */
  lemma ReencodedWebpIsErased(fs: Fs, src: Path, job: Job, encode: Encoder)
    requires job.policy == Erase && Name(src) != "" && Suffix(Name(src)) == WebpSuffix
    requires IsFile(fs, src) && IsDir(fs, Parent(src))
    requires encode(Call(src, src, job)).Some?
    ensures Worker(fs, src, job, encode).raised.None?
    ensures src !in Worker(fs, src, job, encode).fs
    ensures WebpPath(src).value !in Worker(fs, src, job, encode).fs
  {
    WebpPathInPlace(src);
    var converted := Convert(fs, src, src, job, encode);
    assert IsFile(converted, src);
    EraseRemovesOriginal(converted, job.convDir, src);
  }

  /**
   * With backing up, re-encoding a `.webp` source writes the new bytes over
   * the source and then moves them: `img_backup` receives the re-encoded
   * image, the original bytes are lost, and no output is left beside it.
   */
  lemma ReencodedWebpBackupHoldsOutput(fs: Fs, src: Path, job: Job, encode: Encoder)
    requires job.policy == Backup && Name(src) != "" && Suffix(Name(src)) == WebpSuffix
    requires encode(Call(src, src, job)).Some?
    requires WellFormed(fs) && IsFile(fs, src)
    requires IsPrefix(job.convDir, src)
    requires !Exists(fs, BackupDestination(job.convDir, src).value)
    requires NoFileOnPath(fs, Parent(BackupDestination(job.convDir, src).value))
    ensures Worker(fs, src, job, encode).raised.None?
    ensures src !in Worker(fs, src, job, encode).fs
    ensures WebpPath(src).value !in Worker(fs, src, job, encode).fs
    ensures BackupDestination(job.convDir, src).value in Worker(fs, src, job, encode).fs
    ensures Worker(fs, src, job, encode).fs[BackupDestination(job.convDir, src).value]
            == File(encode(Call(src, src, job)).value)
  {
    var data := encode(Call(src, src, job)).value;
    var dst := BackupDestination(job.convDir, src).value;
    assert InDir(fs, src);
    WebpPathInPlace(src);
    var converted := Write(fs, src, data).value;
    assert Convert(fs, src, src, job, encode) == converted;
    WriteInTree(fs, src, data);
    forall k | 0 < k <= |Parent(dst)| ensures !IsFile(converted, Parent(dst)[..k]) {
      assert !IsFile(fs, Parent(dst)[..k]);
    }
    BackupMovesOriginal(converted, job.convDir, src);
  }

  /** The outputs a list can produce. */
  function Outputs(srcs: seq<Path>): set<Path> {
    set s | s in srcs && Name(s) != "" :: Parent(s) + [WebpName(Name(s))]
  }

  /**
   * With the originals kept, a run over a list never removes an entry and
   * changes only the `.webp` outputs of the list's files.
   */
  lemma {:induction false} KeptDispatchTouchesOnlyOutputs(fs: Fs, srcs: seq<Path>, job: Job, encode: Encoder)
    requires job.policy == Keep
    requires forall i :: 0 <= i < |srcs| ==> Name(srcs[i]) != ""
    ensures Dispatch(fs, srcs, job, encode).raised.None?
    ensures forall q :: q in fs ==> q in Dispatch(fs, srcs, job, encode).fs
    ensures forall q :: q in Dispatch(fs, srcs, job, encode).fs && (q !in fs || Dispatch(fs, srcs, job, encode).fs[q] != fs[q]) ==>
              q in Outputs(srcs)
    decreases |srcs|
  {
    if srcs != [] {
      var init := srcs[..|srcs| - 1];
      var last := srcs[|srcs| - 1];
      KeptDispatchTouchesOnlyOutputs(fs, init, job, encode);
      var before := Dispatch(fs, init, job, encode).fs;
      var dst := WebpPath(last).value;
      var after := Dispatch(fs, srcs, job, encode).fs;
      assert after == Convert(before, last, dst, job, encode);
      ConvertTouchesOnlyOutput(before, last, dst, job, encode);
      assert forall q :: q in Outputs(init) ==> q in Outputs(srcs) by {
        forall q | q in Outputs(init) ensures q in Outputs(srcs) {
          var s :| s in init && Name(s) != "" && q == Parent(s) + [WebpName(Name(s))];
          assert s in srcs;
        }
      }
      assert dst in Outputs(srcs) by {
        assert last in srcs;
      }
    }
  }

  /** A conversion keeps every entry and changes nothing but its output. */
  lemma ConvertTouchesOnlyOutput(fs: Fs, src: Path, dst: Path, job: Job, encode: Encoder)
    ensures forall q :: q in fs ==> q in Convert(fs, src, dst, job, encode)
    ensures forall q :: q in Convert(fs, src, dst, job, encode) && q != dst ==>
              q in fs && Convert(fs, src, dst, job, encode)[q] == fs[q]
  {
  }

  /** A worker leaves a tree a tree, whether or not an exception escapes it. */
  lemma WorkerKeepsTree(fs: Fs, src: Path, job: Job, encode: Encoder)
    requires WellFormed(fs)
    ensures WellFormed(Worker(fs, src, job, encode).fs)
  {
    if Name(src) != "" {
      var dst := WebpPath(src).value;
      ConvertKeepsTree(fs, src, dst, job, encode);
      if job.policy != Keep {
        WorkOriginalsKeepsTree(Convert(fs, src, dst, job, encode), job.convDir, job.policy, src);
      }
    }
  }

  lemma ConvertKeepsTree(fs: Fs, src: Path, dst: Path, job: Job, encode: Encoder)
    requires WellFormed(fs)
    ensures WellFormed(Convert(fs, src, dst, job, encode))
  {
    var out := encode(Call(src, dst, job));
    if out.Some? && Write(fs, dst, out.value).Success? {
      WriteInTree(fs, dst, out.value);
    }
  }

  lemma WorkOriginalsKeepsTree(fs: Fs, convDir: Path, policy: Policy, src: Path)
    requires WellFormed(fs)
    ensures WellFormed(WorkOriginals(fs, convDir, policy, src).fs)
  {
    if policy == Erase {
      EraseGuardNeverBlocks(src);
      if Unlink(fs, src).Success? {
        UnlinkInTree(fs, src);
      }
    } else if policy == Backup {
      BackupKeepsTree(fs, convDir, src);
    }
  }

  lemma BackupKeepsTree(fs: Fs, convDir: Path, src: Path)
    requires WellFormed(fs)
    ensures WellFormed(BackupOriginals(fs, convDir, src).fs)
  {
    if IsPrefix(convDir, src) {
      var dst := BackupDestination(convDir, src).value;
      var parent := Parent(dst);
      var made := ParentPrepared(fs, parent);
      if made.Success? {
        if !Exists(fs, parent) {
          MakeDirsKeepsTree(fs, parent);
        }
        var moved := Move(made.value, src, dst);
        if moved.Success? {
          MoveInTree(made.value, src, dst);
          assert BackupOriginals(fs, convDir, src).fs == moved.value;
        } else {
          assert BackupOriginals(fs, convDir, src).fs == made.value;
        }
      } else {
        assert BackupOriginals(fs, convDir, src).fs == fs;
      }
    }
  }

  /** A run over a list leaves a tree a tree, however it ends. */
  lemma {:induction false} DispatchKeepsTree(fs: Fs, srcs: seq<Path>, job: Job, encode: Encoder)
    requires WellFormed(fs)
    ensures WellFormed(Dispatch(fs, srcs, job, encode).fs)
    decreases |srcs|
  {
    if srcs != [] {
      var init := srcs[..|srcs| - 1];
      DispatchKeepsTree(fs, init, job, encode);
      var before := Dispatch(fs, init, job, encode);
      if before.raised.None? {
        WorkerKeepsTree(before.fs, srcs[|srcs| - 1], job, encode);
      }
    }
  }
}
