/**
 * The per-file decision of the scan (`C2W.skip_check` and the `try`
 * block of `C2W.dirwalker`). What python-magic and Pillow would report
 * about a file is part of its record.
 */
module Classifier {
  import opened Wrappers
  import opened PyValues

  /**
   * A file as the scan sees it: its name, the MIME type python-magic
   * reports, whether Pillow can open it, and (for a GIF Pillow can open)
   * whether it has more than one frame.
   */
  datatype FileMeta = FileMeta(name: string, major: string, minor: string, animated: bool, openable: bool)

  /** `Image.open` raising inside the animation probe of `skip_check`. */
  datatype ProbeError = CannotOpen

  /**
   * `skip_check`: skip anything but an image, a WEBP image unless
   * re-encoding is not switched off, and an animated GIF when animated
   * conversion is switched off. Every GIF image is opened by the probe,
   * and a GIF that cannot be opened raises out of it.
   */
  function SkipCheck(f: FileMeta, recWebp: PyFlag, convAni: PyFlag): (r: Result<bool, ProbeError>)
    ensures r.Failure? <==> f.major == "image" && f.minor == "gif" && !f.openable
    ensures r == Success(true) <==>
              || f.major != "image"
              || (f.minor == "webp" && recWebp.IsFalse())
              || (f.minor == "gif" && f.openable && f.animated && convAni.IsFalse())
  {
    if f.major != "image" then Success(true)
    else if f.minor == "webp" && recWebp.IsFalse() then Success(true)
    else if f.minor == "gif" then
      if !f.openable then Failure(CannotOpen)
      else Success(f.animated && convAni.IsFalse())
    else Success(false)
  }

  /** Where one scanned file ends up. */
  datatype Verdict =
    | Skipped     // counted in `fle_skip`
    | Static      // appended to `conv_img_list`, counted in `fle_done`
    | Animated    // appended to `conv_ani_list`, counted in `fle_done`
    | Unopened    // `Image.open` raised in the `try`: neither listed nor counted
    | Aborted     // the probe raised: the scan ends with the exception

  /** The outcome of one iteration of the inner loop of `dirwalker`. */
  function Classify(f: FileMeta, recWebp: PyFlag, convAni: PyFlag): (v: Verdict)
    ensures v == Aborted <==> f.major == "image" && f.minor == "gif" && !f.openable
    ensures v == Skipped <==>
              || f.major != "image"
              || (f.minor == "webp" && recWebp.IsFalse())
              || (f.minor == "gif" && f.openable && f.animated && convAni.IsFalse())
    ensures v == Animated <==>
              f.major == "image" && f.minor == "gif" && f.openable && f.animated && !convAni.IsFalse()
    ensures v == Unopened <==>
              f.major == "image" && !f.openable && f.minor != "gif" && !(f.minor == "webp" && recWebp.IsFalse())
    ensures v == Static <==>
              f.major == "image" && f.openable && !(f.minor == "gif" && f.animated) &&
              !(f.minor == "webp" && recWebp.IsFalse())
  {
    match SkipCheck(f, recWebp, convAni)
    case Failure(_) => Aborted
    case Success(skip) =>
      if skip then Skipped
      else if !f.openable then Unopened
      else if f.minor == "gif" && f.animated then Animated
      else Static
  }

  /** The animation flag matters only for GIFs, and opening only for
      images that are not skipped before the probe. */
  lemma ProbeOnlyForGif(f: FileMeta, animated: bool, openable: bool, recWebp: PyFlag, convAni: PyFlag)
    requires f.minor != "gif"
    ensures SkipCheck(f, recWebp, convAni) == SkipCheck(f.(animated := animated, openable := openable), recWebp, convAni)
    ensures Classify(f, recWebp, convAni) != Animated
  {
  }

  /** `None` is not `False`: leaving the re-encode and animation flags out
      of the constructor lets WEBP images and animated GIFs through. */
  lemma NoneIsNotFalse(f: FileMeta)
    requires f.major == "image" && f.openable
    requires f.minor == "webp" || f.minor == "gif"
    ensures Classify(f, NoneFlag, NoneFlag) == if f.minor == "gif" && f.animated then Animated else Static
  {
  }
}
