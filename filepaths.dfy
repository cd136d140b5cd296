/**
 * The little of `pathlib` the core relies on. A file-system path is the
 * sequence of its parts (`Path.parts`); only `name`, `suffix`, `/` and
 * slicing of the parts are used.
 */
module FilePaths {

  type FsPath = seq<string>

  /** `Path.name`: the last part, or '' for the empty path. */
  function FileName(fs: FsPath): (r: string)
    ensures |fs| > 0 ==> r == fs[|fs| - 1]
    ensures |fs| == 0 ==> r == ""
  {
    if |fs| == 0 then "" else fs[|fs| - 1]
  }

  /** `s.rfind(c)`: the last index of `c`, or -1. */
  function LastIndexOf(s: string, c: char): (r: int)
    ensures -1 <= r < |s|
    ensures r >= 0 ==> s[r] == c && forall j :: r < j < |s| ==> s[j] != c
    ensures r == -1 ==> c !in s
  {
    if s == [] then -1
    else if s[|s| - 1] == c then |s| - 1
    else LastIndexOf(s[..|s| - 1], c)
  }

  /** `PurePath.suffix` of a name: from its last dot, unless that dot leads or ends the name. */
  function Suffix(name: string): string
  {
    var i := LastIndexOf(name, '.');
    if 0 < i < |name| - 1 then name[i..] else ""
  }

  /** A part's suffix is '.py' exactly when it ends in '.py' after at least one other character. */
  lemma PySuffixIff(name: string)
    ensures Suffix(name) == ".py" <==> |name| >= 4 && name[|name| - 3..] == ".py"
  {
    var i := LastIndexOf(name, '.');
    if |name| >= 4 && name[|name| - 3..] == ".py" {
      assert name[|name| - 3] == '.' && name[|name| - 2] == 'p' && name[|name| - 1] == 'y';
      assert i == |name| - 3;
    }
    if Suffix(name) == ".py" {
      assert 0 < i < |name| - 1 && name[i..] == ".py";
      assert |name| - i == 3;
    }
  }

  /** The suffix test used to pick out module files among tree nodes. */
  predicate IsPyFile(fs: FsPath)
  {
    Suffix(FileName(fs)) == ".py"
  }

  /** `Path(*fs.parts[:-n])` for `n > 0`: the last `n` parts dropped (Python slicing gives () when `n` exceeds the length). */
  function DropLast(fs: FsPath, n: nat): (r: FsPath)
    requires n > 0
    ensures n <= |fs| ==> r == fs[..|fs| - n]
    ensures n > |fs| ==> r == []
    ensures |r| <= |fs| && r == fs[..|r|]
  {
    if n <= |fs| then fs[..|fs| - n] else []
  }

  /** A part counts as hidden when it starts with '.'. */
  predicate IsHiddenPart(part: string)
  {
    |part| > 0 && part[0] == '.'
  }

  /** The scanning filter: a path is analysed only if none of its parts is hidden. */
  predicate IsVisible(fs: FsPath)
  {
    forall k :: 0 <= k < |fs| ==> !IsHiddenPart(fs[k])
  }
}
