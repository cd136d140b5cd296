/**
 * The dotted import path value type (`DotPath` in model.py): an immutable
 * tuple of string segments, with parsing from a dotted string, conversion from
 * a file-system path, the prefix test `is_relative_to`, `parent`, `name` and
 * concatenation with `/`.
 */
module DotPaths {
  import opened Wrappers

  const Dot: char := '.'
  const InitFile: string := "__init__.py"
  const PySuffix: string := ".py"

  /** Segments of a dotted path; equality is structural over `parts`. */
  datatype DotPath = DotPath(parts: seq<string>)

  /** The argument forms accepted by the DotPath constructor. */
  datatype PathSource =
    | NoSource                      // None
    | FromStr(s: string)            // a dotted string
    | FromSegments(segs: seq<string>) // any iterable of segments
    | FromDotPath(p: DotPath)       // another DotPath

  // ---------------------------------------------------------------------------
  // str.split and str.join on one separator character

  /** Python's `s.split(sep)`: never empty, empty pieces are kept. */
  function Split(s: string, sep: char): (r: seq<string>)
    ensures |r| >= 1
    ensures forall k :: 0 <= k < |r| ==> sep !in r[k]
  {
    if s == [] then [""]
    else
      var rest := Split(s[1..], sep);
      if s[0] == sep then [""] + rest
      else [[s[0]] + rest[0]] + rest[1..]
  }

  /** Python's `sep.join(parts)`. */
  function Join(parts: seq<string>, sep: char): string
  {
    if |parts| == 0 then ""
    else if |parts| == 1 then parts[0]
    else parts[0] + [sep] + Join(parts[1..], sep)
  }

  /** Joining what was split gives the string back. */
  lemma {:induction false} JoinSplit(s: string, sep: char)
    ensures Join(Split(s, sep), sep) == s
  {
    if s != [] {
      var rest := Split(s[1..], sep);
      JoinSplit(s[1..], sep);
      if s[0] == sep {
        assert Join([""] + rest, sep) == "" + [sep] + Join(rest, sep);
      } else {
        var r := [[s[0]] + rest[0]] + rest[1..];
        if |rest| == 1 {
          assert r == [[s[0]] + rest[0]];
        } else {
          assert r[1..] == rest[1..];
          assert Join(rest, sep) == rest[0] + [sep] + Join(rest[1..], sep);
        }
      }
    }
  }

  /** Splitting what was joined gives the parts back, when no part holds the separator. */
  lemma {:induction false} SplitJoin(parts: seq<string>, sep: char)
    requires |parts| >= 1
    requires forall k :: 0 <= k < |parts| ==> sep !in parts[k]
    ensures Split(Join(parts, sep), sep) == parts
  {
    if |parts| == 1 {
      SplitNoSep(parts[0], sep);
    } else {
      SplitJoin(parts[1..], sep);
      SplitPrefix(parts[0], Join(parts[1..], sep), sep);
    }
  }

  /** A string without the separator splits into itself. */
  lemma {:induction false} SplitNoSep(s: string, sep: char)
    requires sep !in s
    ensures Split(s, sep) == [s]
  {
    if s != [] {
      SplitNoSep(s[1..], sep);
      assert [s[0]] + s[1..] == s;
    }
  }

  /** Splitting `a + sep + b`, where `a` holds no separator, puts `a` first. */
  lemma {:induction false} SplitPrefix(a: string, b: string, sep: char)
    requires sep !in a
    ensures Split(a + [sep] + b, sep) == [a] + Split(b, sep)
  {
    if a == [] {
      assert [sep] + b == ([] + [sep] + b);
      assert ([sep] + b)[1..] == b;
    } else {
      SplitPrefix(a[1..], b, sep);
      assert (a + [sep] + b)[1..] == a[1..] + [sep] + b;
      assert [a[0]] + a[1..] == a;
    }
  }

  // ---------------------------------------------------------------------------
  // Construction

  /** `DotPath(s)` for a string: the empty string gives the empty path, any other string is split on dots. */
  function Parse(s: string): (r: DotPath)
    ensures s == "" ==> r.parts == []
    ensures s != "" ==> |r.parts| >= 1 && Join(r.parts, Dot) == s
    ensures forall k :: 0 <= k < |r.parts| ==> Dot !in r.parts[k]
  {
    if s == "" then DotPath([])
    else
      JoinSplit(s, Dot);
      DotPath(Split(s, Dot))
  }

  /** `DotPath(path)`: falsy arguments (None, '', []) give the empty path. */
  function Make(src: PathSource): (r: DotPath)
    ensures src.FromStr? ==> ToString(r) == src.s
    ensures src.FromSegments? ==> r.parts == src.segs
    ensures src.FromDotPath? ==> r == src.p
    ensures src.NoSource? ==> r.parts == []
  {
    match src
    case NoSource => DotPath([])
    case FromStr(s) => Parse(s)
    case FromSegments(segs) => if segs == [] then DotPath([]) else DotPath(segs)
    case FromDotPath(p) => DotPath(p.parts)
  }

  /** `str(p)`: the segments joined with dots. */
  function ToString(p: DotPath): string
  {
    Join(p.parts, Dot)
  }

  /** The dotted string of a path parses back to it -- except for the one-segment path `('',)`, and paths whose segments hold dots. */
  lemma ParseToString(p: DotPath)
    requires forall k :: 0 <= k < |p.parts| ==> Dot !in p.parts[k]
    requires p.parts != [""]
    ensures Parse(ToString(p)) == p
  {
    if |p.parts| > 0 {
      if |p.parts| >= 2 {
        assert Join(p.parts, Dot) == p.parts[0] + [Dot] + Join(p.parts[1..], Dot);
      }
      assert ToString(p) != "";
      SplitJoin(p.parts, Dot);
    }
  }

  /** The one-segment empty path does not survive printing and parsing. */
  lemma EmptySegmentLost()
    ensures ToString(DotPath([""])) == ""
    ensures Parse(ToString(DotPath([""]))) != DotPath([""])
  {
  }

  /** `'ab..cd'` keeps its empty middle segment. */
  lemma ParseKeepsEmptySegments()
    ensures Parse("ab..cd").parts == ["ab", "", "cd"]
  {
    SplitNoSep("cd", Dot);
    assert ".cd"[1..] == "cd";
    assert Split(".cd", Dot) == ["", "cd"];
    assert "..cd"[1..] == ".cd";
    assert Split("..cd", Dot) == ["", "", "cd"];
    assert "b..cd"[1..] == "..cd";
    assert ["", "", "cd"][1..] == ["", "cd"];
    assert Split("b..cd", Dot) == [['b'] + ""] + ["", "cd"];
    assert ['b'] + "" == "b";
    assert Split("b..cd", Dot) == ["b", "", "cd"];
    assert "ab..cd"[0] == 'a' && "ab..cd"[1..] == "b..cd";
    assert ["b", "", "cd"][1..] == ["", "cd"];
    assert ['a'] + "b" == "ab";
    assert Split("ab..cd", Dot) == [['a'] + "b"] + ["", "cd"];
  }

  // ---------------------------------------------------------------------------
  // From file-system paths (segment sequences)

  /** `s.removesuffix(suffix)`. */
  function RemoveSuffix(s: string, suffix: string): (r: string)
    ensures if suffix != "" && |suffix| <= |s| && s[|s| - |suffix|..] == suffix
            then r + suffix == s
            else r == s
  {
    if suffix != "" && |suffix| <= |s| && s[|s| - |suffix|..] == suffix
    then s[..|s| - |suffix|] else s
  }

  /** `DotPath.from_path`: a final `__init__.py` is dropped, otherwise `.py` is removed from the last component. */
  function FromPath(fs: seq<string>): (r: DotPath)
    ensures |fs| == 0 ==> r.parts == []
    ensures |fs| > 0 && fs[|fs| - 1] == InitFile ==> r.parts == fs[..|fs| - 1]
    ensures |fs| > 0 && fs[|fs| - 1] != InitFile ==>
      |r.parts| == |fs| && r.parts[..|fs| - 1] == fs[..|fs| - 1] &&
      RemoveSuffix(fs[|fs| - 1], PySuffix) == r.parts[|fs| - 1]
  {
    if |fs| == 0 then DotPath([])
    else if fs[|fs| - 1] == InitFile then DotPath(fs[..|fs| - 1])
    else DotPath(fs[..|fs| - 1] + [RemoveSuffix(fs[|fs| - 1], PySuffix)])
  }

  /** A plain module file `d/m.py` maps to `d.m`. */
  lemma FromPathModule(dir: seq<string>, m: string)
    requires m + PySuffix != InitFile
    ensures FromPath(dir + [m + PySuffix]) == DotPath(dir + [m])
  {
    var fs := dir + [m + PySuffix];
    assert fs[..|fs| - 1] == dir;
    var last := m + PySuffix;
    assert last[|last| - |PySuffix|..] == PySuffix;
    assert last[..|last| - |PySuffix|] == m;
  }

  /** A package initializer `d/__init__.py` maps to `d`. */
  lemma FromPathInit(dir: seq<string>)
    ensures FromPath(dir + [InitFile]) == DotPath(dir)
  {
    assert (dir + [InitFile])[..|dir|] == dir;
  }

  /** Inner dots stay inside one segment: `a.b/c` is `('a.b', 'c')`. */
  lemma FromPathKeepsDots()
    ensures FromPath(["a.b", "c"]).parts == ["a.b", "c"]
  {
    assert ["a.b", "c"][..1] == ["a.b"];
  }

  // ---------------------------------------------------------------------------
  // Prefix test, parent, name, concatenation

  /** `p.is_relative_to(other)`: `other`'s segments begin `p`'s. */
  predicate IsRelativeTo(p: DotPath, other: DotPath)
  {
    if |other.parts| > |p.parts| then false
    else other.parts == p.parts[..|other.parts|]
  }

  /** `is_relative_to` is exactly "p is other followed by some segments". */
  lemma IsRelativeToIff(p: DotPath, other: DotPath)
    ensures IsRelativeTo(p, other) <==> exists rest: seq<string> :: p.parts == other.parts + rest
  {
    if IsRelativeTo(p, other) {
      var rest := p.parts[|other.parts|..];
      assert p.parts == other.parts + rest;
    }
    if exists rest: seq<string> :: p.parts == other.parts + rest {
      var rest :| p.parts == other.parts + rest;
      assert p.parts[..|other.parts|] == other.parts;
    }
  }

  /** Every path is relative to itself and to the empty path; the empty path only to itself. */
  lemma IsRelativeToBasics(p: DotPath)
    ensures IsRelativeTo(p, p)
    ensures IsRelativeTo(p, DotPath([]))
    ensures IsRelativeTo(DotPath([]), p) <==> p.parts == []
  {
    assert p.parts[..|p.parts|] == p.parts;
  }

  /** A longer path is never a prefix. */
  lemma IsRelativeToLonger(p: DotPath, other: DotPath)
    requires |other.parts| > |p.parts|
    ensures !IsRelativeTo(p, other)
  {
  }

  /** `is_relative_to` is a partial order. */
  lemma IsRelativeToOrder(p: DotPath, q: DotPath, s: DotPath)
    ensures IsRelativeTo(p, q) && IsRelativeTo(q, s) ==> IsRelativeTo(p, s)
    ensures IsRelativeTo(p, q) && IsRelativeTo(q, p) ==> p == q
  {
    if IsRelativeTo(p, q) && IsRelativeTo(q, s) {
      assert p.parts[..|s.parts|] == p.parts[..|q.parts|][..|s.parts|];
    }
  }

  /** `p.parent`: the last segment dropped; the parent of the empty path is empty. */
  function Parent(p: DotPath): (r: DotPath)
    ensures |p.parts| > 0 ==> |r.parts| == |p.parts| - 1
    ensures |p.parts| == 0 ==> r.parts == []
    ensures IsRelativeTo(p, r)
  {
    if |p.parts| == 0 then DotPath([]) else DotPath(p.parts[..|p.parts| - 1])
  }

  /** `p.name`: the last segment; IndexError on the empty path. */
  function Name(p: DotPath): (r: Result<string>)
    ensures r.Err? <==> p.parts == []
    ensures r.Err? ==> r.error == IndexError
    ensures r.Ok? ==> r.value == p.parts[|p.parts| - 1]
  {
    if |p.parts| == 0 then Err(IndexError) else Ok(p.parts[|p.parts| - 1])
  }

  /** `p / q`: the segments of `p` followed by those of `q`. */
  function Div(p: DotPath, q: DotPath): (r: DotPath)
    ensures IsRelativeTo(r, p)
    ensures |r.parts| == |p.parts| + |q.parts|
    ensures r.parts[|p.parts|..] == q.parts
  {
    assert (p.parts + q.parts)[..|p.parts|] == p.parts;
    DotPath(p.parts + q.parts)
  }

  /** `p / 'x.y'`: the string operand is parsed first. */
  function DivStr(p: DotPath, s: string): (r: DotPath)
    ensures IsRelativeTo(r, p)
    ensures r.parts[|p.parts|..] == Parse(s).parts
  {
    Div(p, Parse(s))
  }

  /** `'x.y' / p` (`__rtruediv__`): the parsed string comes first. */
  function RDivStr(s: string, p: DotPath): (r: DotPath)
    ensures IsRelativeTo(r, Parse(s))
    ensures r.parts[|Parse(s).parts|..] == p.parts
  {
    Div(Parse(s), p)
  }

  /** `parent` and `name` take a path apart, `/` puts it back together. */
  lemma ParentNameDiv(p: DotPath)
    requires p.parts != []
    ensures Div(Parent(p), DotPath([Name(p).value])) == p
  {
  }

  /** Appending one segment and taking `parent`/`name` gives both pieces back. */
  lemma DivParentName(p: DotPath, s: string)
    ensures Parent(Div(p, DotPath([s]))) == p
    ensures Name(Div(p, DotPath([s]))) == Ok(s)
  {
    assert (p.parts + [s])[..|p.parts|] == p.parts;
  }

  /** `/` is associative and has the empty path as identity. */
  lemma DivMonoid(p: DotPath, q: DotPath, s: DotPath)
    ensures Div(Div(p, q), s) == Div(p, Div(q, s))
    ensures Div(p, DotPath([])) == p && Div(DotPath([]), p) == p
  {
    assert p.parts + [] == p.parts;
    assert (p.parts + q.parts) + s.parts == p.parts + (q.parts + s.parts);
  }

  /** The examples of `/`: `a.b / c`, `a / 'b'`, `'a' / b` all give `a.b(.c)`. */
  lemma DivExamples()
    ensures Div(Parse("a.b"), Parse("c")) == Parse("a.b.c")
    ensures DivStr(Parse("a"), "b") == Parse("a.b")
    ensures RDivStr("a", Parse("b")) == Parse("a.b")
  {
    SplitNoSep("a", Dot);
    SplitNoSep("b", Dot);
    SplitNoSep("c", Dot);
    SplitPrefix("a", "b", Dot);
    assert "a.b" == "a" + [Dot] + "b";
    SplitPrefix("b", "c", Dot);
    SplitPrefix("a", "b.c", Dot);
    assert "a.b.c" == "a" + [Dot] + "b.c";
    assert "b.c" == "b" + [Dot] + "c";
  }
}
