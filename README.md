# Convert to Webp — a verified model of its decision logic

`convert2webp.py` is a mass converter: it scans a directory for images,
sorts them into a static and an animated list, converts each to WEBP with
Pillow in a process pool, and optionally erases the originals or moves them
into a mirrored `img_backup` tree. This project models the logic of the
`C2W` class in Dafny and proves what it does:

- how the quality switches become encoder options (`set_quali`);
- which files the scan skips, lists or leaves out (`skip_check`,
  `dirwalker`), and how the shared `file_count` counters move;
- the pool size (`set_cpu_num`), with Python's round-half-even in integers;
- the `.webp` destination (`with_suffix`), the backup destination
  (`relative_to` and `img_backup`), and what backing up and erasing do to a
  filesystem;
- the guard of `conv2webp` that refuses to run when `img_backup` exists,
  and the quality check `valid_nr` of the command line.

What Pillow and python-magic would report about a file (MIME type, whether
it opens, whether a GIF has several frames) is part of the file's record.
The encoder is a parameter: a function from the `save` call to the encoded
bytes, or to nothing when Pillow raises `OSError`. The CPU count is a
parameter. The disk is a map from paths (sequences of components) to
nodes, wrapped in the `FileSystem` class whose methods change it in place.

Modules, in dependency order: `Wrappers` (Option, Result), `PyValues`
(Python's `None`/`True`/`False` flags, the quality argument, the originals
policy), `Quality` (encoder options), `CpuCount`, `CommandLine`, `Paths`
(pathlib's `name`, `parent`, `suffix`, `stem`, `with_suffix`,
`relative_to`), `FsModel` (the disk and the operations on it), `Originals`
(`backup_originals`, `work_originals`), `Workers` (`mp_worker`,
`ani_worker` and the pool run as functions), `Classifier` (the per-file
decision), `DirWalk` (`os.walk` with the `img_backup` pruning), `Scanner`
(the scan as a fold over the listed files), and `Convert2Webp` (the
`FileCount` counters and the `C2W` class, whose methods are proved
against the functions of the other modules).

The model follows the code as written. Five behaviours of that code are
worth pointing out, and each is stated by a lemma:

- The erase guard compares `Path.suffix` with `'webp'`. A suffix is empty
  or starts with a dot, so the guard never blocks a deletion. In
  particular, a re-encoded `.webp` file is written over itself and then
  unlinked (`Originals.EraseGuardNeverBlocks`,
  `Workers.ReencodedWebpIsErased`).
- With backing up, a `.webp` source is its own output (`with_suffix`
  returns the same path), so the save overwrites it and `backup_originals`
  then moves the re-encoded bytes into `img_backup`. The original bytes are
  lost and no converted file stays behind
  (`Workers.ReencodedWebpBackupHoldsOutput`).
- The workers handle the original even when the conversion raised
  `OSError` and wrote nothing: after the `try`, `convert2webp.py:87-88` and
  `convert2webp.py:100-101` call `work_originals` whenever a policy is set
  (`Workers.FailedConversionStillErases`,
  `Workers.FailedConversionStillBacksUp`).
- For a GIF, the animation probe in `skip_check` opens the file outside
  the `try` of `dirwalker`. A GIF that cannot be opened therefore ends the
  whole scan with the exception; it is not skipped (`Verdict.Aborted`,
  `Scanner.ScanStopsAtFirstAbort`).
- Only directories named `img_backup` are pruned from the walk. A file
  with that name is scanned like any other.

## Model

| member | source | states |
|---|---|---|
| Convert2Webp.FileCount.constructor | python/Convert2webp/convert2webp.py:38 | the shared counters `fle_done`, `fle_skip`, `fle_total` start at zero |
| Convert2Webp.C2W.constructor | python/Convert2webp/convert2webp.py:40-46 | keeps the directory, flags and policy; `bup_dir` is `conv_dir/img_backup`; the quality options are resolved as `set_quali` specifies |
| Convert2Webp.C2W.SetQuali | python/Convert2webp/convert2webp.py:48-58 | static options are lossless exactly when `quali is True`, level `q` for an int `q` (0 included), level 80 otherwise; the animated options equal the static ones unless `ani_m is True`, which replaces them by mixed mode |
| Convert2Webp.C2W.Dirwalker | python/Convert2webp/convert2webp.py:131-171 | returns the static and the animated list of the scan of the pruned walk and moves `fle_done`/`fle_skip` by the scan's tally; leaves `fle_total` alone; a probe that raises ends it with the counters moved for the files before |
| Convert2Webp.C2W.ScanDir | python/Convert2webp/convert2webp.py:139-169 | the inner loop over one directory's files extends the scan by exactly those files, in order, or stops at the first failing probe |
| Convert2Webp.C2W.ScanFile | python/Convert2webp/convert2webp.py:140-160 | one file is skipped (`fle_skip` + 1), appended to the static or animated list (`fle_done` + 1), dropped, or stops the scan, as the scan specifies |
| Convert2Webp.C2W.BackupOriginals | python/Convert2webp/convert2webp.py:60-67 | the disk and the escaping exception are exactly those of `Originals.BackupOriginals` |
| Convert2Webp.C2W.WorkOriginals | python/Convert2webp/convert2webp.py:69-75 | the disk and the escaping exception are exactly those of `Originals.WorkOriginals` for the converter's policy |
| Convert2Webp.C2W.ConvertOne | python/Convert2webp/convert2webp.py:79-101 | the disk and the escaping exception are exactly those of `Workers.Worker` for the job |
| Convert2Webp.C2W.MpWorker | python/Convert2webp/convert2webp.py:90-101 | runs the static job (`quali`, one frame, `method=3`) as `Workers.Worker` specifies |
| Convert2Webp.C2W.AniWorker | python/Convert2webp/convert2webp.py:77-88 | runs the animated job (`quali_ani`, `save_all`, `method=3`) as `Workers.Worker` specifies |
| Convert2Webp.C2W.RunPool | python/Convert2webp/convert2webp.py:183-188 | the disk after a list is that of `Workers.Dispatch`, and the first exception raised escapes |
| Convert2Webp.C2W.Conv2Webp | python/Convert2webp/convert2webp.py:173-192 | with `img_backup` present it raises before scanning and changes neither the disk nor the counters; otherwise it scans, runs the static list, then the animated one, stopping at the first exception; the summary holds both list lengths (printed at line 180) and the pool size handed to `mp.Pool` (lines 182-183), which the program does not report: `Summary.poolSize` is the model's own addition |
| CommandLine.ValidNr | python/Convert2webp/convert2webp.py:207-212 | accepts `n` and returns it exactly when `0 <= n <= 100`, and raises the quality error otherwise |
| CpuCount.RoundQuarter | python/Convert2webp/convert2webp.py:108 | the result is `m/4` rounded to the nearest integer, ties to even |
| CpuCount.RoundHalfEvenUnique | python/Convert2webp/convert2webp.py:108 | round-half-even has one result, so `RoundQuarter` is Python's `round` of `m * 0.25` |
| CpuCount.SetCpuNum | python/Convert2webp/convert2webp.py:103-109 | 1 for at most two CPUs, otherwise `round(0.75 n)` ties to even; for more than two CPUs at least 2 and fewer than `n`; always at least 1, and at most `n` for a positive count |
| Paths.Name | python/Convert2webp/convert2webp.py:74 | `Path.name`: the last component, or empty for the root; the path is its parent followed by its name |
| Paths.Parent | python/Convert2webp/convert2webp.py:63 | the parent followed by the name is the path |
| Paths.RFind | python/Convert2webp/convert2webp.py:74 | the index of the last occurrence of the character, or -1 when there is none |
| Paths.Suffix | python/Convert2webp/convert2webp.py:74 | `Path.suffix`: empty or starting with a dot, and a tail of the name |
| Paths.Stem | python/Convert2webp/convert2webp.py:79 | the stem followed by the suffix is the name |
| Paths.WebpName | python/Convert2webp/convert2webp.py:79 | the name `with_suffix('.webp')` gives: it ends in `.webp` |
| Paths.WebpPath | python/Convert2webp/convert2webp.py:79 | `with_suffix('.webp')`: raises exactly for an empty name; otherwise the same directory and the stem with `.webp` |
| Paths.WebpNameRoundTrip | python/Convert2webp/convert2webp.py:79 | the output name has suffix `.webp` and the source's stem |
| Paths.WebpPathIdempotent | python/Convert2webp/convert2webp.py:79 | mapping an output to `.webp` again gives the same path |
| Paths.WebpPathInPlace | python/Convert2webp/convert2webp.py:79 | the output is the source itself exactly when the source's suffix is `.webp` |
| Paths.RelativeTo | python/Convert2webp/convert2webp.py:62 | `relative_to` succeeds exactly when the base is a prefix, and base plus the result is the path |
| FsModel.Unlink | python/Convert2webp/convert2webp.py:75 | removes exactly a file; a missing path or a directory raises |
| FsModel.Write | python/Convert2webp/convert2webp.py:95 | succeeds exactly when the path is not a directory and its parent is one; adds or replaces that file and nothing else |
| FsModel.MakeDirs | python/Convert2webp/convert2webp.py:66 | `mkdir(parents=True, exist_ok=True)`: the path is a directory afterwards, old entries are kept, new ones are directories on the way; a file on the way raises |
| FsModel.Move | python/Convert2webp/convert2webp.py:67 | `shutil.move` of a file: the target is `dst/name` when `dst` is a directory and `dst` otherwise; succeeds exactly when the source is a file, a directory target's entry is free, and the target's parent is a directory; afterwards the target holds the source's node, the source is gone unless it is the target, and every other entry is unchanged; a directory source is refused (see Left out) |
| FsModel.MakeDirsSucceeds | python/Convert2webp/convert2webp.py:65-66 | on a tree, creating the directories succeeds exactly when no component on the way is a file |
| FsModel.MakeDirsKeepsTree | python/Convert2webp/convert2webp.py:66 | creating directories leaves a tree a tree |
| FsModel.MoveToFreePath | python/Convert2webp/convert2webp.py:67 | a file moved to a free path in a directory leaves its place, arrives with its contents, and nothing else changes |
| FsModel.UnlinkInTree | python/Convert2webp/convert2webp.py:75 | unlinking keeps a tree a tree |
| FsModel.WriteInTree | python/Convert2webp/convert2webp.py:95 | writing keeps a tree a tree |
| FsModel.MoveInTree | python/Convert2webp/convert2webp.py:67 | moving keeps a tree a tree |
| FsModel.FileSystem.ExistsAt | python/Convert2webp/convert2webp.py:65 | reports `exists()` of the current disk |
| FsModel.FileSystem.MakeDirsAt | python/Convert2webp/convert2webp.py:66 | the disk becomes what `MakeDirs` gives, or stays as it was when that raises |
| FsModel.FileSystem.MoveFile | python/Convert2webp/convert2webp.py:67 | the disk becomes what `Move` gives, or stays as it was when that raises |
| FsModel.FileSystem.UnlinkAt | python/Convert2webp/convert2webp.py:75 | the disk becomes what `Unlink` gives, or stays as it was when that raises |
| FsModel.FileSystem.WriteAt | python/Convert2webp/convert2webp.py:95 | the disk becomes what `Write` gives, or stays as it was when that raises |
| Originals.Attempt | python/Convert2webp/convert2webp.py:65-67 | glue that commits an operation's disk or lets its exception escape on the old one; its meaning in use is stated by `Originals.BackupMovesOriginal` and `Originals.EraseRemovesOriginal` |
| Originals.BackupDestination | python/Convert2webp/convert2webp.py:62 | `conv_dir/img_backup/rel` for a source `conv_dir/rel`; raises exactly when the source is not under `conv_dir` |
| Originals.BackupDestinationInjective | python/Convert2webp/convert2webp.py:62 | two sources never share a backup destination |
| Originals.BackupOriginals | python/Convert2webp/convert2webp.py:60-67 | a source outside `conv_dir` raises before anything changes |
| Originals.ParentPrepared | python/Convert2webp/convert2webp.py:65-66 | after success the parent exists and every old entry is kept; it fails only when the parent was missing and a file blocks the way |
| Originals.ParentPreparedInTree | python/Convert2webp/convert2webp.py:65-66 | preparing the backup parent succeeds when no file is on its way, adds only directories there, and keeps a tree |
| Originals.EraseGuard | python/Convert2webp/convert2webp.py:74 | the erase guard as written, `suffix != 'webp'`; that it always holds is `Originals.EraseGuardNeverBlocks` |
| Originals.EraseGuardNeverBlocks | python/Convert2webp/convert2webp.py:74 | the guard `suffix != 'webp'` holds for every path |
| Originals.WorkOriginals | python/Convert2webp/convert2webp.py:69-75 | keep changes nothing; backup is exactly `backup_originals` |
| Originals.EraseRemovesOriginal | python/Convert2webp/convert2webp.py:74-75 | erasing removes the source, whatever its suffix, and nothing else |
| Originals.EraseMissingFails | python/Convert2webp/convert2webp.py:75 | erasing a missing source raises `FileNotFoundError` and changes nothing |
| Originals.BackupMovesOriginal | python/Convert2webp/convert2webp.py:60-67 | backing up moves the source to its mirrored place with its contents, creates the missing directories on the way, keeps a tree, and changes nothing else |
| Workers.Convert | python/Convert2webp/convert2webp.py:93-98 | the `try` block: the write's result, or the old disk when the encode or the write fails; what it means for the disk is stated by `Workers.ConvertTouchesOnlyOutput` and `Workers.ConvertKeepsTree` |
| Workers.Worker | python/Convert2webp/convert2webp.py:90-101 | a source with an empty name raises `ValueError` from `with_suffix` before anything changes, and a worker that raised nothing had a non-empty name; the successful cases are `Workers.KeptConversionWritesOutput`, `Workers.ErasedConversionKeepsOutput`, `Workers.BackedUpConversionKeepsOutput`, `Workers.ReencodedWebpIsErased` and `Workers.ReencodedWebpBackupHoldsOutput` |
| Workers.Dispatch | python/Convert2webp/convert2webp.py:183-188 | a list run one worker after another, ended by the first exception; a run that raised nothing had a non-empty name for every file |
| Workers.DispatchOneMore | python/Convert2webp/convert2webp.py:184 | while nothing has raised, the next file's worker runs on the disk the run so far left |
| Workers.DispatchStaysRaised | python/Convert2webp/convert2webp.py:184 | once a worker has raised, the rest of the list does not run |
| Workers.KeptConversionWritesOutput | python/Convert2webp/convert2webp.py:92-95 | with originals kept, a successful conversion writes the encoded image beside the source under the `.webp` name; the entries are the old ones plus the output, and every old entry but the output is unchanged |
| Workers.ErasedConversionKeepsOutput | python/Convert2webp/convert2webp.py:74-101 | with erase, a successful conversion of a non-`.webp` source leaves the encoded image at the `.webp` path and removes the source; the entries are the old ones minus the source plus the output, and every other old entry is unchanged |
| Workers.BackedUpConversionKeepsOutput | python/Convert2webp/convert2webp.py:60-101 | with backup, a successful conversion of a scanned non-`.webp` source leaves the encoded image at the `.webp` path, moves the source to its place below `img_backup` with its contents, and keeps a tree; every other old entry is unchanged, and the only new entries are the output, the destination and directories on the way to it, so nothing else changes |
| Workers.OutputOffBackupPath | python/Convert2webp/convert2webp.py:62-66 | the `.webp` output of a scanned non-`.webp` source is never the directory that receives its backup |
| Workers.FailedConversionStillErases | python/Convert2webp/convert2webp.py:96-101 | with erase, a failed conversion still removes the original |
| Workers.FailedConversionStillBacksUp | python/Convert2webp/convert2webp.py:96-101 | with backup, a failed conversion still moves the original |
| Workers.ReencodedWebpIsErased | python/Convert2webp/convert2webp.py:74-101 | with erase, re-encoding a `.webp` file leaves neither the source nor an output |
| Workers.ReencodedWebpBackupHoldsOutput | python/Convert2webp/convert2webp.py:60-101 | with backup, re-encoding a `.webp` file overwrites it in place and moves the re-encoded bytes to its `img_backup` place; neither the source nor an output stays |
| Workers.KeptDispatchTouchesOnlyOutputs | python/Convert2webp/convert2webp.py:184 | with originals kept, a list run raises nothing, removes nothing, and changes only the `.webp` outputs of its files |
| Workers.ConvertTouchesOnlyOutput | python/Convert2webp/convert2webp.py:93-98 | a conversion keeps every entry and changes only its output |
| Workers.WorkerKeepsTree | python/Convert2webp/convert2webp.py:90-101 | a worker keeps a tree a tree, whether or not an exception escapes |
| Workers.ConvertKeepsTree | python/Convert2webp/convert2webp.py:93-98 | a conversion keeps a tree a tree |
| Workers.WorkOriginalsKeepsTree | python/Convert2webp/convert2webp.py:69-75 | handling an original keeps a tree a tree |
| Workers.BackupKeepsTree | python/Convert2webp/convert2webp.py:60-67 | a backup keeps a tree a tree, whether or not it raises |
| Workers.DispatchKeepsTree | python/Convert2webp/convert2webp.py:183-188 | a list run keeps a tree a tree |
| Classifier.SkipCheck | python/Convert2webp/convert2webp.py:116-124 | skips exactly non-images, WEBP when `rec_webp is False`, and animated GIFs when `conv_ani is False`; raises exactly for a GIF that cannot be opened |
| Classifier.Classify | python/Convert2webp/convert2webp.py:139-160 | each verdict in terms of the file's record: skipped as above, animated exactly for an openable animated GIF not skipped, unopened for an image Pillow cannot open, static for every other accepted image |
| Classifier.ProbeOnlyForGif | python/Convert2webp/convert2webp.py:122 | for a file that is not a GIF, neither the animation flag nor opening affects the skip decision, and it is never animated |
| Classifier.NoneIsNotFalse | python/Convert2webp/convert2webp.py:43-44 | flags left out of the constructor are `None`, which does not skip WEBP images or animated GIFs |
| DirWalk.Walk | python/Convert2webp/convert2webp.py:135-137 | `os.walk` top-down: the first step is the directory itself with its files, and every step is at or below it |
| DirWalk.WalkSubdirs | python/Convert2webp/convert2webp.py:135-137 | the walks of the subdirectories in order; every step lies strictly below the directory, in a child not named `img_backup` |
| DirWalk.Locate | python/Convert2webp/convert2webp.py:140 | each file of a directory paired with that directory, in order |
| DirWalk.AllFilesBelow | python/Convert2webp/convert2webp.py:135 | every file under a directory has a path below it |
| DirWalk.WalkIsPrunedTree | python/Convert2webp/convert2webp.py:135-137 | the walk lists exactly the files of the tree that are not inside an `img_backup` directory below the root, in walk order |
| DirWalk.WalkAvoidsBackups | python/Convert2webp/convert2webp.py:135-137 | no listed file has an `img_backup` directory component below the root |
| Scanner.Record | python/Convert2webp/convert2webp.py:143-157 | one verdict: a skip adds one to `fle_skip`; a static or animated file is appended to its list; `fle_done` stays the number of listed files |
| Scanner.Scan | python/Convert2webp/convert2webp.py:139-160 | the scan over the listed files in order; `fle_done` is always the total length of both lists, and `fle_skip` at most the number of files |
| Scanner.ScanCompletes | python/Convert2webp/convert2webp.py:139-160 | without a failing probe the scan completes; the lists hold the static and the animated files in scan order; `fle_done` grows by their number and `fle_skip` by the number skipped |
| Scanner.ScanStopsAtFirstAbort | python/Convert2webp/convert2webp.py:122 | a failing probe ends the scan at the first such file, with the tally of the files before it |
| Scanner.ScanStaysStopped | python/Convert2webp/convert2webp.py:143 | once the scan has stopped, later files do not change it |
| Scanner.ScanStopsIffAbort | python/Convert2webp/convert2webp.py:143 | the scan stops exactly when some file's probe fails |
| Scanner.BucketsPartition | python/Convert2webp/convert2webp.py:139-160 | every scanned file lands in exactly one of skipped, static, animated, unopened; the lists are as long as their buckets |
| Scanner.PathsWhereMembers | python/Convert2webp/convert2webp.py:151-157 | a path is in a list exactly when a scanned file with that verdict has it |
| Scanner.ListedFilesAvoidBackups | python/Convert2webp/convert2webp.py:135-137 | every listed path lies under `conv_dir` and outside any `img_backup` directory below it |

## Left out

- Pillow's `Image.open`, `is_animated` and `save`: the file's record carries whether it opens and whether it is animated, and the encoder is a parameter. Both are foreign library calls.
- `ani_worker` reading `info['duration']`: a GIF without a duration raises `KeyError`, which the worker does not catch; the model's encoder stands for `OSError` only.
- A failed `save` that leaves a partial output file: the model leaves the disk unchanged, because what Pillow writes before failing is not visible here.
- `magic.from_file`: the MIME type is a field of the file's record, because the sniffing is a foreign call.
- `os.walk` order, symbolic links and errors: the scan is given a directory tree and lists it top-down, files before subdirectories. The model does not check that this tree and the `FileSystem` map describe the same disk.
- `multiprocessing.Pool`, `imap_unordered` and tqdm: the workers run one after another in list order. Each worker process has its own copy of the converter, and the model does not capture that.
- Convert2Webp.C2W.RunPool: runs the workers in order, and the first exception ends the run. In the pool, other workers may already have run or may still be running when that exception reaches the parent.
- `mp.cpu_count()`: it is the parameter `cpuCount`. Starting a pool of that size is not modelled.
- The interactive prompt on `DecompressionBombError`: for a file that is not a GIF, under either answer the file is neither listed nor counted, so it is the unopened bucket (`openable` false). For a GIF, the error comes from `Image.open` in `test_gifani` (lines 114 and 122), outside the `try`, and ends the scan; the model's `Aborted` verdict covers that.
- argparse, `check_dir_path`, `parse_args` and `main`: command-line I/O. Only the quality check `valid_nr` is modelled. `main` picks its info line only to print it; for `-q 0` it says quality 80 while the converter uses 0.
- CommandLine.ValidNr: takes the number already parsed. The `ValueError` that `int()` raises for text that is not a number is not modelled, because strings are not parsed here.
- `print` messages, including the final count line: reporting only.
- Floating point in `set_cpu_num`: `n * 0.75` is exact for any realistic CPU count, so the model uses exact integer round-half-even.
- FsModel.Move: a directory source is refused with `IsADirectory`, whereas `shutil.move` moves directories too. The program only backs up files the scan listed, so it never moves a directory.
- `shutil.move` across devices and `mkdir`'s exception classes: both are modelled as map updates. An obstacle on the way to a new directory raises one `FileExists` error.
- `Path.suffix` is modelled as in Python 3.6 through 3.13, where a name ending in a dot has no suffix.
- `get_mimetype`, `test_gifani` and the class attribute `src_f` they read: their results are fields of the file's record.
