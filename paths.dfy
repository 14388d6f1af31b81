/**
 * Paths as sequences of components, with the parts of `pathlib` the
 * converter uses: `name`, `parent`, `suffix`, `with_suffix('.webp')`,
 * `relative_to` and `joinpath`.
 */
module Paths {
  import opened Wrappers

  type Path = seq<string>

  /** The exceptions `with_suffix` and `relative_to` raise (`ValueError`). */
  datatype PathError = EmptyName(p: Path) | NotRelative(p: Path, base: Path)

  /** `p.name`: the last component, empty for the root. */
  function Name(p: Path): (n: string)
    ensures p == [] ==> n == ""
    ensures p != [] ==> p[..|p| - 1] + [n] == p
  {
    if p == [] then "" else p[|p| - 1]
  }

  /** `p.parent`: the root is its own parent. */
  function Parent(p: Path): (q: Path)
    ensures p != [] ==> q + [Name(p)] == p
    ensures p == [] ==> q == []
  {
    if p == [] then [] else p[..|p| - 1]
  }

  /** `str.rfind(c)`: the index of the last `c` in `s`, or -1. */
  function RFind(s: string, c: char): (i: int)
    ensures -1 <= i < |s|
    ensures 0 <= i ==> s[i] == c
    ensures forall k :: i < k < |s| ==> s[k] != c
  {
    if s == [] then -1
    else if s[|s| - 1] == c then |s| - 1
    else RFind(s[..|s| - 1], c)
  }

  /** `PurePath.suffix` (Python 3.6 to 3.13): from the last dot on, unless
      that dot opens the name or ends it. */
  function Suffix(name: string): (s: string)
    ensures s == "" || s[0] == '.'
    ensures s != "" ==> 0 < |name| - |s| && name[|name| - |s|..] == s
  {
    var i := RFind(name, '.');
    if 0 < i < |name| - 1 then name[i..] else ""
  }

  /** `PurePath.stem`: the name without its suffix. */
  function Stem(name: string): (s: string)
    ensures s + Suffix(name) == name
  {
    var i := RFind(name, '.');
    if 0 < i < |name| - 1 then name[..i] else name
  }

  const WebpSuffix: string := ".webp"

  /** The name `with_suffix('.webp')` gives a file. */
  function WebpName(name: string): (w: string)
    ensures |WebpSuffix| <= |w| && w[|w| - |WebpSuffix|..] == WebpSuffix
  {
    Stem(name) + WebpSuffix
  }

  /** `p.with_suffix('.webp')`: `ValueError` when `p` has an empty name. */
  function WebpPath(p: Path): (r: Result<Path, PathError>)
    ensures r.Failure? <==> Name(p) == ""
    ensures r.Failure? ==> r.error == EmptyName(p)
    ensures r.Success? ==> |r.value| == |p| && Parent(r.value) == Parent(p)
    ensures r.Success? ==> Name(r.value) == WebpName(Name(p))
  {
    if Name(p) == "" then Failure(EmptyName(p))
    else Success(Parent(p) + [WebpName(Name(p))])
  }

  /** The last dot of `stem + ".webp"` is the one the suffix brings. */
  lemma {:induction false} RFindAppendWebp(stem: string)
    ensures RFind(stem + WebpSuffix, '.') == |stem|
  {
    var t := stem + WebpSuffix;
    assert t[|stem|] == '.';
    assert forall k :: |stem| < k < |t| ==> t[k] != '.';
    RFindLast(t, '.', |stem|);
  }

  /** An occurrence of `c` after which there is no other is the one `RFind` finds. */
  lemma {:induction false} RFindLast(s: string, c: char, i: int)
    requires 0 <= i < |s| && s[i] == c
    requires forall k :: i < k < |s| ==> s[k] != c
    ensures RFind(s, c) == i
  {
    if i < |s| - 1 {
      RFindLast(s[..|s| - 1], c, i);
    }
  }

  /** The stem of a non-empty name is non-empty. */
  lemma StemNonEmpty(name: string)
    requires name != ""
    ensures Stem(name) != ""
  {
  }

  /** The converted name carries the `.webp` suffix and the stem of the
      source name. */
  lemma {:induction false} WebpNameRoundTrip(name: string)
    requires name != ""
    ensures Suffix(WebpName(name)) == WebpSuffix
    ensures Stem(WebpName(name)) == Stem(name)
  {
    var stem := Stem(name);
    StemNonEmpty(name);
    RFindAppendWebp(stem);
    assert (stem + WebpSuffix)[|stem|..] == WebpSuffix;
    assert (stem + WebpSuffix)[..|stem|] == stem;
  }

  /** Converting an already converted path changes nothing. */
  lemma {:induction false} WebpPathIdempotent(p: Path)
    requires Name(p) != ""
    ensures WebpPath(p).Success? && WebpPath(WebpPath(p).value) == WebpPath(p)
  {
    WebpNameRoundTrip(Name(p));
  }

  /** The output path is the source path exactly when the source already
      has the `.webp` suffix: a WEBP file is re-encoded in place. */
  lemma {:induction false} WebpPathInPlace(p: Path)
    requires Name(p) != ""
    ensures WebpPath(p).Success?
    ensures WebpPath(p).value == p <==> Suffix(Name(p)) == WebpSuffix
  {
    var name := Name(p);
    WebpNameRoundTrip(name);
    if Suffix(name) == WebpSuffix {
      assert WebpName(name) == name;
      assert Parent(p) + [name] == p;
    }
    if WebpPath(p).value == p {
      assert Name(WebpPath(p).value) == name;
    }
  }

  /** `a` is a prefix of `b`, component by component. */
  predicate IsPrefix(a: Path, b: Path) {
    |a| <= |b| && b[..|a|] == a
  }

  /** `p.relative_to(base)`: `ValueError` unless `base` is a prefix of `p`. */
  function RelativeTo(p: Path, base: Path): (r: Result<Path, PathError>)
    ensures r.Success? <==> IsPrefix(base, p)
    ensures r.Success? ==> base + r.value == p
    ensures r.Failure? ==> r.error == NotRelative(p, base)
  {
    if IsPrefix(base, p) then Success(p[|base|..]) else Failure(NotRelative(p, base))
  }
}
