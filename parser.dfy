/**
 * Import extraction (parser.py): from the parsed units of a source tree to
 * the module tree and its import records.
 *
 * Python's `ast` is replaced by the statement shapes the extraction looks
 * at, and the file-system scan by the sequence of files it yields, each with
 * its parts and its parse result.
 */
module Parser {
  import opened Wrappers
  import opened DotPaths
  import opened FilePaths
  import opened ModuleTree

  /** `ast.alias`: an imported name and its optional `as` name. */
  datatype Alias = Alias(name: string, asName: Option<string>)

  /** The statements extraction distinguishes; `line` is the statement's `lineno`. */
  datatype Stmt =
    | Import(names: seq<Alias>, line: nat)
    | ImportFrom(source: Option<string>, names: seq<Alias>, level: nat, line: nat)
    | FunctionDef(body: seq<Stmt>)
    | Other

  /** `ast.parse` either gives a module body or raises SyntaxError. */
  datatype Parsed = Module(body: seq<Stmt>) | Unparsable

  /** One file the scan yields: its path parts (including the base's) and its parse result. */
  datatype SourceFile = SourceFile(path: FsPath, parsed: Parsed)

  /** The records extracted, in order, and the number of relative-import warnings logged. */
  datatype Collected = Collected(records: seq<ImportRecord>, warnings: nat)

  // ---------------------------------------------------------------------------
  // What extraction produces (specification)

  /** `import a.b, c as d`: one level-0 record per name, for the module's own dotted path. */
  function PlainImports(names: seq<Alias>, line: nat, inFunction: bool): (r: seq<ImportRecord>)
    ensures |r| == |names|
    ensures forall k :: 0 <= k < |r| ==>
      r[k] == ImportRecord(Parse(names[k].name), line, 0, inFunction)
  {
    if names == [] then []
    else PlainImports(names[..|names| - 1], line, inFunction)
         + [ImportRecord(Parse(names[|names| - 1].name), line, 0, inFunction)]
  }

  /** `from m import x, y`: one record per name, for `prefix` followed by the name. */
  function FromRecords(prefix: seq<string>, names: seq<Alias>, level: nat, line: nat, inFunction: bool)
    : (r: seq<ImportRecord>)
    ensures |r| == |names|
    ensures forall k :: 0 <= k < |r| ==>
      && r[k].importPath.parts == prefix + [names[k].name]
      && r[k].level == level && r[k].lineNo == line && r[k].functionImport == inFunction
  {
    if names == [] then []
    else FromRecords(prefix, names[..|names| - 1], level, line, inFunction)
         + [ImportRecord(DotPath(prefix + [names[|names| - 1].name]), line, level, inFunction)]
  }

  /** The `module` of a from-import split on dots; an absent module (`from . import x`) contributes nothing. */
  function ModuleParts(source: Option<string>): seq<string>
  {
    match source
    case None => []
    case Some(m) => Split(m, Dot)
  }

  /**
   * The anchor of a relative import at `level` from the unit at `unit`: the
   * unit's path without its last `level` segments, or None when the level
   * reaches above the top of the tree.
   */
  function Anchor(unit: DotPath, level: nat): (r: Option<DotPath>)
    ensures r.None? <==> level > |unit.parts|
    ensures r.Some? ==> IsRelativeTo(unit, r.value) && |r.value.parts| == |unit.parts| - level
  {
    if level > |unit.parts| then None else Some(DotPath(unit.parts[..|unit.parts| - level]))
  }

  /**
   * A from-import in the unit at `unit`. Level 0 is absolute. A relative
   * import is resolved against its anchor; one that overflows it logs one
   * warning and produces no record.
   */
  function FromImports(unit: DotPath, source: Option<string>, names: seq<Alias>, level: nat,
                       line: nat, inFunction: bool): (r: Collected)
    ensures level > |unit.parts| ==> r.records == [] && r.warnings == 1
    ensures level <= |unit.parts| ==> r.warnings == 0 && |r.records| == |names|
    ensures level <= |unit.parts| ==> forall k :: 0 <= k < |r.records| ==>
      && r.records[k].level == level && r.records[k].lineNo == line
      && r.records[k].functionImport == inFunction
      && r.records[k].importPath.parts ==
           (if level == 0 then [] else unit.parts[..|unit.parts| - level]) + ModuleParts(source) + [names[k].name]
  {
    if level == 0 then Collected(FromRecords(ModuleParts(source), names, 0, line, inFunction), 0)
    else match Anchor(unit, level)
      case None => Collected([], 1)
      case Some(anchor) => Collected(FromRecords(anchor.parts + ModuleParts(source), names, level, line, inFunction), 0)
  }

  function Combine(a: Collected, b: Collected): Collected
  {
    Collected(a.records + b.records, a.warnings + b.warnings)
  }

  /** The imports one statement contributes; a function body's imports are function-level. */
  function StmtImports(unit: DotPath, s: Stmt, inFunction: bool): Collected
  {
    match s
    case Import(names, line) => Collected(PlainImports(names, line, inFunction), 0)
    case ImportFrom(source, names, level, line) => FromImports(unit, source, names, level, line, inFunction)
    case FunctionDef(body) => BodyImports(unit, body, true)
    case Other => Collected([], 0)
  }

  /** The imports of a statement list, statement by statement in order. */
  function BodyImports(unit: DotPath, body: seq<Stmt>, inFunction: bool): Collected
  {
    if body == [] then Collected([], 0)
    else Combine(BodyImports(unit, body[..|body| - 1], inFunction), StmtImports(unit, body[|body| - 1], inFunction))
  }

  // ---------------------------------------------------------------------------
  // Properties of extraction

  /** Extraction is compositional: the records of `a + b` are those of `a` followed by those of `b`. */
  lemma {:induction false} BodyImportsConcat(unit: DotPath, a: seq<Stmt>, b: seq<Stmt>, inFunction: bool)
    ensures BodyImports(unit, a + b, inFunction) ==
            Combine(BodyImports(unit, a, inFunction), BodyImports(unit, b, inFunction))
    decreases |b|
  {
    if b == [] {
      assert a + b == a;
    } else {
      var b' := b[..|b| - 1];
      assert (a + b)[..|a + b| - 1] == a + b';
      assert (a + b)[|a + b| - 1] == b[|b| - 1];
      BodyImportsConcat(unit, a, b', inFunction);
    }
  }

  /** Every record found inside a function body is marked as a function-level import. */
  lemma {:induction false} FunctionBodyFlagged(unit: DotPath, body: seq<Stmt>)
    ensures forall r :: r in BodyImports(unit, body, true).records ==> r.functionImport
    decreases body
  {
    if body != [] {
      FunctionBodyFlagged(unit, body[..|body| - 1]);
      var s := body[|body| - 1];
      if s.FunctionDef? {
        FunctionBodyFlagged(unit, s.body);
      }
    }
  }

  /** A top-level statement list without function definitions yields no function-level import. */
  lemma {:induction false} TopLevelUnflagged(unit: DotPath, body: seq<Stmt>)
    requires forall k :: 0 <= k < |body| ==> !body[k].FunctionDef?
    ensures forall r :: r in BodyImports(unit, body, false).records ==> !r.functionImport
    decreases |body|
  {
    if body != [] {
      TopLevelUnflagged(unit, body[..|body| - 1]);
    }
  }

  /** A statement list with no from-import is free of warnings, and every import it has is absolute. */
  lemma {:induction false} PlainBodyAbsolute(unit: DotPath, body: seq<Stmt>, inFunction: bool)
    requires forall k :: 0 <= k < |body| ==> !body[k].ImportFrom? && !body[k].FunctionDef?
    ensures BodyImports(unit, body, inFunction).warnings == 0
    ensures forall r :: r in BodyImports(unit, body, inFunction).records ==> r.level == 0
    decreases |body|
  {
    if body != [] {
      PlainBodyAbsolute(unit, body[..|body| - 1], inFunction);
    }
  }

  /** `from .. import y` (line 1) in `a.b` imports `y` at level 2. */
  lemma RelativeToTop()
    ensures BodyImports(DotPath(["a", "b"]), [ImportFrom(None, [Alias("y", None)], 2, 1)], false)
            == Collected([ImportRecord(DotPath(["y"]), 1, 2, false)], 0)
  {
    var unit := DotPath(["a", "b"]);
    var s := ImportFrom(None, [Alias("y", None)], 2, 1);
    var c := StmtImports(unit, s, false);
    assert c.records[0].importPath.parts == [] + [] + ["y"];
    assert |c.records| == 1 && c.records[0] == ImportRecord(DotPath(["y"]), 1, 2, false);
    assert c.records == [ImportRecord(DotPath(["y"]), 1, 2, false)];
    assert [s][..0] == [];
  }

  /** `from .. import y` (line 2) in `a.b.c` imports `a.y` at level 2. */
  lemma RelativeToParent()
    ensures BodyImports(DotPath(["a", "b", "c"]), [ImportFrom(None, [Alias("y", None)], 2, 2)], false)
            == Collected([ImportRecord(DotPath(["a", "y"]), 2, 2, false)], 0)
  {
    var unit := DotPath(["a", "b", "c"]);
    var s := ImportFrom(None, [Alias("y", None)], 2, 2);
    var c := StmtImports(unit, s, false);
    assert unit.parts[..1] == ["a"];
    assert c.records[0].importPath.parts == ["a"] + [] + ["y"];
    assert |c.records| == 1 && c.records[0] == ImportRecord(DotPath(["a", "y"]), 2, 2, false);
    assert c.records == [ImportRecord(DotPath(["a", "y"]), 2, 2, false)];
    assert [s][..0] == [];
  }

  /** `from .x import y` (line 3) in `a.b` imports `a.x.y` at level 1. */
  lemma RelativeToSibling()
    ensures BodyImports(DotPath(["a", "b"]), [ImportFrom(Some("x"), [Alias("y", None)], 1, 3)], false)
            == Collected([ImportRecord(DotPath(["a", "x", "y"]), 3, 1, false)], 0)
  {
    var unit := DotPath(["a", "b"]);
    var s := ImportFrom(Some("x"), [Alias("y", None)], 1, 3);
    var c := StmtImports(unit, s, false);
    SplitNoSep("x", Dot);
    assert unit.parts[..1] == ["a"];
    assert c.records[0].importPath.parts == ["a"] + ["x"] + ["y"];
    assert |c.records| == 1 && c.records[0] == ImportRecord(DotPath(["a", "x", "y"]), 3, 1, false);
    assert c.records == [ImportRecord(DotPath(["a", "x", "y"]), 3, 1, false)];
    assert [s][..0] == [];
  }

  /** `from ... import y` in `a.b` reaches above the tree: one warning, no record. */
  lemma RelativeOverflow()
    ensures BodyImports(DotPath(["a", "b"]), [ImportFrom(None, [Alias("y", None)], 3, 1)], false)
            == Collected([], 1)
  {
    assert [ImportFrom(None, [Alias("y", None)], 3, 1)][..0] == [];
  }

  /** `import x` (line 1) records `x`, at level 0. */
  lemma PlainImportExample()
    ensures BodyImports(DotPath(["a", "b"]), [Import([Alias("x", None)], 1)], false)
            == Collected([ImportRecord(DotPath(["x"]), 1, 0, false)], 0)
  {
    var s := Import([Alias("x", None)], 1);
    var c := StmtImports(DotPath(["a", "b"]), s, false);
    ParseName("x");
    assert |c.records| == 1 && c.records[0] == ImportRecord(DotPath(["x"]), 1, 0, false);
    assert c.records == [ImportRecord(DotPath(["x"]), 1, 0, false)];
    assert [s][..0] == [];
  }

  /** `import x as y` (line 2) records `x` as well: the bound name plays no part. */
  lemma AliasedImportExample()
    ensures BodyImports(DotPath(["a", "b", "c"]), [Import([Alias("x", Some("y"))], 2)], false)
            == Collected([ImportRecord(DotPath(["x"]), 2, 0, false)], 0)
  {
    var s := Import([Alias("x", Some("y"))], 2);
    var c := StmtImports(DotPath(["a", "b", "c"]), s, false);
    ParseName("x");
    assert |c.records| == 1 && c.records[0] == ImportRecord(DotPath(["x"]), 2, 0, false);
    assert c.records == [ImportRecord(DotPath(["x"]), 2, 0, false)];
    assert [s][..0] == [];
  }

  lemma ParseName(x: string)
    requires x != "" && Dot !in x
    ensures Parse(x) == DotPath([x])
  {
    SplitNoSep(x, Dot);
  }

  // ---------------------------------------------------------------------------
  // The extraction itself

  /**
   * `_collect_imports`: the statements are visited in order and each one's
   * records are appended; a function body is visited with the function-level
   * flag set.
   */
  method CollectImports(unit: DotPath, body: seq<Stmt>, inFunction: bool)
    returns (imports: seq<ImportRecord>, warnings: nat)
    ensures Collected(imports, warnings) == BodyImports(unit, body, inFunction)
    decreases body
  {
    imports := [];
    warnings := 0;
    var k := 0;
    while k < |body|
      invariant 0 <= k <= |body|
      invariant Collected(imports, warnings) == BodyImports(unit, body[..k], inFunction)
    {
      assert body[..k + 1][..k] == body[..k];
      var more, moreWarnings := CollectStmt(unit, body[k], inFunction);
      imports := imports + more;
      warnings := warnings + moreWarnings;
      k := k + 1;
    }
    assert body[..k] == body;
  }

  /**
   * One statement of `_collect_imports`: each import name appends one
   * record; a from-import that overflows its anchor logs a warning instead.
   */
  method CollectStmt(unit: DotPath, s: Stmt, inFunction: bool)
    returns (imports: seq<ImportRecord>, warnings: nat)
    ensures Collected(imports, warnings) == StmtImports(unit, s, inFunction)
    decreases s
  {
    imports := [];
    warnings := 0;
    match s {
      case Import(names, line) =>
        imports := CollectPlain(names, line, inFunction);
      case ImportFrom(source, names, level, line) =>
        if level > |unit.parts| {
          warnings := 1;
        } else {
          var fromPath := ModuleParts(source);
          if level > 0 {
            fromPath := unit.parts[..|unit.parts| - level] + fromPath;
          }
          imports := CollectFrom(fromPath, names, level, line, inFunction);
        }
      case FunctionDef(inner) =>
        imports, warnings := CollectImports(unit, inner, true);
      case Other =>
    }
  }

  /** The loop over the names of `import a, b`: one record per name, in order. */
  method CollectPlain(names: seq<Alias>, line: nat, inFunction: bool) returns (imports: seq<ImportRecord>)
    ensures imports == PlainImports(names, line, inFunction)
  {
    imports := [];
    var j := 0;
    while j < |names|
      invariant 0 <= j <= |names|
      invariant imports == PlainImports(names[..j], line, inFunction)
    {
      assert names[..j + 1][..j] == names[..j];
      imports := imports + [ImportRecord(Parse(names[j].name), line, 0, inFunction)];
      j := j + 1;
    }
    assert names[..j] == names;
  }

  /** The loop over the names of `from m import x, y`: `fromPath` extended by each name, in order. */
  method CollectFrom(fromPath: seq<string>, names: seq<Alias>, level: nat, line: nat, inFunction: bool)
    returns (imports: seq<ImportRecord>)
    ensures imports == FromRecords(fromPath, names, level, line, inFunction)
  {
    imports := [];
    var j := 0;
    while j < |names|
      invariant 0 <= j <= |names|
      invariant imports == FromRecords(fromPath, names[..j], level, line, inFunction)
    {
      assert names[..j + 1][..j] == names[..j];
      imports := imports + [ImportRecord(DotPath(fromPath + [names[j].name]), line, level, inFunction)];
      j := j + 1;
    }
    assert names[..j] == names;
  }

  /**
   * `_get_node_path`: the module's path below the base, with a final
   * `__init__.py` dropped and `.py` removed from the last part otherwise.
   */
  method GetNodePath(basePath: FsPath, modulePath: FsPath) returns (r: DotPath)
    requires |basePath| < |modulePath| && modulePath[..|basePath|] == basePath
    ensures r == FromPath(modulePath[|basePath|..])
  {
    var nodePath := modulePath[|basePath|..];
    var last := nodePath[|nodePath| - 1];
    if last == InitFile {
      nodePath := nodePath[..|nodePath| - 1];
    } else {
      nodePath := nodePath[..|nodePath| - 1] + [RemoveSuffix(last, PySuffix)];
    }
    r := DotPath(nodePath);
  }

  // ---------------------------------------------------------------------------
  // Building the model (specification)

  /** `_walk_modules` keeps a file only if none of its path parts starts with a dot. */
  predicate Scanned(f: SourceFile)
  {
    IsVisible(f.path)
  }

  /** The file lies strictly below the base directory, as the glob yields it. */
  predicate InBase(basePath: FsPath, f: SourceFile)
  {
    |basePath| < |f.path| && f.path[..|basePath|] == basePath
  }

  predicate UnderBase(basePath: FsPath, files: seq<SourceFile>)
  {
    forall j :: 0 <= j < |files| ==> InBase(basePath, files[j])
  }

  /** The node path of a unit: its path below the base, read as a dotted path. */
  function UnitPath(basePath: FsPath, f: SourceFile): DotPath
    requires |basePath| <= |f.path|
  {
    FromPath(f.path[|basePath|..])
  }

  /**
   * The unit has a node path of its own, unless it is an empty initializer
   * directly under the base, which the scan skips before `get_or_add`.
   */
  predicate HasNodePath(basePath: FsPath, f: SourceFile)
    requires InBase(basePath, f)
  {
    UnitPath(basePath, f).parts != [] || f.parsed == Module([])
  }

  predicate IsInitFile(f: SourceFile)
  {
    FileName(f.path) == InitFile
  }

  /** What extraction finds in one unit (nothing in a unit that does not parse). */
  function UnitImports(basePath: FsPath, f: SourceFile): Collected
    requires |basePath| <= |f.path|
  {
    match f.parsed
    case Module(body) => BodyImports(UnitPath(basePath, f), body, false)
    case Unparsable => Collected([], 0)
  }

  /** The records of the scanned units whose node path is `p`, in scan order. */
  ghost function Expected(basePath: FsPath, files: seq<SourceFile>, p: DotPath): seq<ImportRecord>
    requires UnderBase(basePath, files)
  {
    if files == [] then []
    else
      var f := files[|files| - 1];
      Expected(basePath, files[..|files| - 1], p)
      + (if Scanned(f) && UnitPath(basePath, f) == p then UnitImports(basePath, f).records else [])
  }

  /** The relative-import warnings logged over the scanned units. */
  function Warnings(basePath: FsPath, files: seq<SourceFile>): nat
    requires UnderBase(basePath, files)
  {
    if files == [] then 0
    else
      var f := files[|files| - 1];
      Warnings(basePath, files[..|files| - 1]) + (if Scanned(f) then UnitImports(basePath, f).warnings else 0)
  }

  /**
   * The tree after the units `done` have been processed: the records part of
   * Recorded and the file paths NodeFilePaths describes.
   */
  ghost predicate Built(nodes: Arena, parent: seq<nat>, basePath: FsPath, done: seq<SourceFile>)
  {
    Recorded(nodes, parent, basePath, done) && NodeFilePaths(nodes, parent, basePath, done, done)
  }

  /**
   * Every scanned unit of `done` has a node path of its own and a node at
   * it, the root holder only for an empty initializer directly under the base;
   * every node holds exactly the records of the scanned units at its path,
   * in scan order, so directories without a unit of their own hold none; and
   * the node of an initializer with statements has its file path pointing at
   * `__init__.py`.
   */
  ghost predicate Recorded(nodes: Arena, parent: seq<nat>, basePath: FsPath, done: seq<SourceFile>)
  {
    && TreeShaped(nodes, parent)
    && UnderBase(basePath, done)
    && (forall j :: 0 <= j < |done| && Scanned(done[j]) ==>
          HasNodePath(basePath, done[j]) && Get(nodes, RootIndex, UnitPath(basePath, done[j])).Some?)
    && (forall n :: 1 <= n < |nodes| ==> nodes[n].imports == Expected(basePath, done, PathOf(nodes, parent, n)))
    && InitsMerged(nodes, basePath, done)
  }

  ghost predicate InitsMerged(nodes: Arena, basePath: FsPath, done: seq<SourceFile>)
    requires WellFormed(nodes) && UnderBase(basePath, done)
  {
    forall j :: 0 <= j < |done| && Scanned(done[j]) && IsInitFile(done[j])
                && done[j].parsed.Module? && done[j].parsed.body != [] ==>
      var n := Get(nodes, RootIndex, UnitPath(basePath, done[j]));
      n.Some? && FileName(nodes[n.value].filePath) == InitFile
  }

  /**
   * The first scanned unit of `files` whose node path runs through `p`: its
   * `get_or_add` is the one that created the node at `p`.
   */
  function Creator(basePath: FsPath, files: seq<SourceFile>, p: DotPath): (r: Option<nat>)
    requires UnderBase(basePath, files)
    ensures r.Some? ==> r.value < |files| && Scanned(files[r.value]) && IsRelativeTo(UnitPath(basePath, files[r.value]), p)
    decreases |files|
  {
    if files == [] then None
    else
      var pre := files[..|files| - 1];
      var f := files[|files| - 1];
      assert forall j :: 0 <= j < |pre| ==> pre[j] == files[j];
      match Creator(basePath, pre, p)
      case Some(i) => Some(i)
      case None => if Scanned(f) && IsRelativeTo(UnitPath(basePath, f), p) then Some(|files| - 1) else None
  }

  /** The file path the node at `p` was created with: its creator's, without the parts below `p`. */
  function CreatedPathAt(basePath: FsPath, files: seq<SourceFile>, p: DotPath): Option<FsPath>
    requires UnderBase(basePath, files)
  {
    match Creator(basePath, files, p)
    case None => None
    case Some(i) => Some(CreatedFilePath(files[i].path, |UnitPath(basePath, files[i]).parts| - |p.parts|))
  }

  /** An initializer with statements: its records go through `add_data_for_init_file`. */
  predicate FillsInit(f: SourceFile)
  {
    IsInitFile(f) && f.parsed.Module? && f.parsed.body != []
  }

  /** Some scanned initializer with statements among `files` has node path `p`. */
  ghost predicate InitAt(basePath: FsPath, files: seq<SourceFile>, p: DotPath)
    requires UnderBase(basePath, files)
  {
    exists j :: 0 <= j < |files| && Scanned(files[j]) && FillsInit(files[j]) && UnitPath(basePath, files[j]) == p
  }

  /**
   * The file path of the node at `p` once the units `created` have fetched
   * or created their nodes and the initializers among `inits` have been
   * added: the path it was created with, which `add_data_for_init_file`
   * points at the `__init__.py` inside it. None when no unit reaches `p`.
   */
  ghost function FilePathAt(basePath: FsPath, created: seq<SourceFile>, inits: seq<SourceFile>, p: DotPath): Option<FsPath>
    requires UnderBase(basePath, created) && UnderBase(basePath, inits)
  {
    match CreatedPathAt(basePath, created, p)
    case None => None
    case Some(fp) => Some(if InitAt(basePath, inits, p) then InitFilePath(fp) else fp)
  }

  /** Every node below the root holder has the file path FilePathAt gives for its full path. */
  ghost predicate NodeFilePaths(nodes: Arena, parent: seq<nat>, basePath: FsPath, created: seq<SourceFile>, inits: seq<SourceFile>)
    requires TreeShaped(nodes, parent) && UnderBase(basePath, created) && UnderBase(basePath, inits)
  {
    forall n :: 1 <= n < |nodes| ==>
      FilePathAt(basePath, created, inits, PathOf(nodes, parent, n)) == Some(nodes[n].filePath)
  }

  // ---------------------------------------------------------------------------
  // Building the model (proof steps)

  lemma UnderBasePrefix(basePath: FsPath, files: seq<SourceFile>, k: nat)
    requires UnderBase(basePath, files) && k <= |files|
    ensures UnderBase(basePath, files[..k])
  {
    assert forall j :: 0 <= j < k ==> files[..k][j] == files[j];
  }

  /** Units not at `p` contribute nothing to `p`. */
  lemma {:induction false} ExpectedNone(basePath: FsPath, done: seq<SourceFile>, p: DotPath)
    requires UnderBase(basePath, done)
    requires forall j :: 0 <= j < |done| && Scanned(done[j]) ==> UnitPath(basePath, done[j]) != p
    ensures Expected(basePath, done, p) == []
    decreases |done|
  {
    if done != [] {
      var pre := done[..|done| - 1];
      assert forall j :: 0 <= j < |pre| ==> pre[j] == done[j];
      ExpectedNone(basePath, pre, p);
    }
  }

  /** One more unit: its records are added at its own path and nowhere else. */
  lemma ExpectedStep(basePath: FsPath, done: seq<SourceFile>, f: SourceFile, p: DotPath)
    requires UnderBase(basePath, done) && InBase(basePath, f)
    ensures UnderBase(basePath, done + [f])
    ensures Expected(basePath, done + [f], p) == Expected(basePath, done, p)
      + (if Scanned(f) && UnitPath(basePath, f) == p then UnitImports(basePath, f).records else [])
    ensures Warnings(basePath, done + [f]) == Warnings(basePath, done)
      + (if Scanned(f) then UnitImports(basePath, f).warnings else 0)
  {
    assert (done + [f])[..|done|] == done;
    assert forall j :: 0 <= j < |done| ==> (done + [f])[j] == done[j];
  }

  /** The units already processed keep their nodes when `get_or_add` grows the tree. */
  lemma BuiltGrownLookups(a: Arena, b: Arena, basePath: FsPath, done: seq<SourceFile>)
    requires WellFormed(a) && WellFormed(b) && Grown(a, b) && UnderBase(basePath, done)
    requires forall j :: 0 <= j < |done| && Scanned(done[j]) ==> Get(a, RootIndex, UnitPath(basePath, done[j])).Some?
    requires InitsMerged(a, basePath, done)
    ensures forall j :: 0 <= j < |done| && Scanned(done[j]) ==>
      Get(b, RootIndex, UnitPath(basePath, done[j])) == Get(a, RootIndex, UnitPath(basePath, done[j]))
    ensures InitsMerged(b, basePath, done)
  {
    forall j | 0 <= j < |done| && Scanned(done[j])
      ensures Get(b, RootIndex, UnitPath(basePath, done[j])) == Get(a, RootIndex, UnitPath(basePath, done[j]))
    {
      GetGrown(a, b, RootIndex, UnitPath(basePath, done[j]));
    }
  }

  /** A node `get_or_add` created has a full path no processed unit has. */
  lemma NewNodeUnclaimed(a: Arena, pa: seq<nat>, b: Arena, pb: seq<nat>, basePath: FsPath, done: seq<SourceFile>, n: nat)
    requires WellFormed(a) && TreeShaped(b, pb) && Grown(a, b) && UnderBase(basePath, done) && |a| <= n < |b|
    requires forall j :: 0 <= j < |done| && Scanned(done[j]) ==> Get(a, RootIndex, UnitPath(basePath, done[j])).Some?
    ensures Expected(basePath, done, PathOf(b, pb, n)) == []
    ensures Get(a, RootIndex, PathOf(b, pb, n)).None?
  {
    var q := PathOf(b, pb, n);
    RootGetPathOf(b, pb, n);
    if Get(a, RootIndex, q).Some? {
      GetGrown(a, b, RootIndex, q);
      assert false;
    }
    ExpectedNone(basePath, done, q);
  }

  /** `get_or_add` keeps what the processed units established. */
  lemma BuiltAfterGetOrAdd(a: Arena, pa: seq<nat>, b: Arena, pb: seq<nat>, basePath: FsPath,
                           done: seq<SourceFile>, f: SourceFile, r: nat)
    requires Built(a, pa, basePath, done) && TreeShaped(b, pb) && InBase(basePath, f) && Scanned(f)
    requires GetOrAddResult(a, pa, b, pb, RootIndex, UnitPath(basePath, f), f.path, r)
    requires FoundAlong(a, b, RootIndex, UnitPath(basePath, f).parts)
    ensures Recorded(b, pb, basePath, done) && UnderBase(basePath, done + [f])
    ensures NodeFilePaths(b, pb, basePath, done + [f], done)
  {
    PathsAfterGetOrAdd(a, pa, b, pb, basePath, done, f);
    BuiltGrownLookups(a, b, basePath, done);
    forall n | 1 <= n < |b|
      ensures b[n].imports == Expected(basePath, done, PathOf(b, pb, n))
    {
      if n < |a| {
        PathOfGrown(a, pa, b, pb, n);
      } else {
        NewNodeUnclaimed(a, pa, b, pb, basePath, done, n);
      }
    }
  }

  /** One more unit: an existing creator stays, otherwise the unit creates the nodes along its path. */
  lemma CreatorStep(basePath: FsPath, done: seq<SourceFile>, f: SourceFile, p: DotPath)
    requires UnderBase(basePath, done) && InBase(basePath, f)
    ensures UnderBase(basePath, done + [f])
    ensures Creator(basePath, done + [f], p) ==
      if Creator(basePath, done, p).Some? then Creator(basePath, done, p)
      else if Scanned(f) && IsRelativeTo(UnitPath(basePath, f), p) then Some(|done|) else None
  {
    assert (done + [f])[..|done|] == done;
    assert forall j :: 0 <= j < |done| ==> (done + [f])[j] == done[j];
  }

  lemma CreatedPathStep(basePath: FsPath, done: seq<SourceFile>, f: SourceFile, p: DotPath)
    requires UnderBase(basePath, done) && InBase(basePath, f) && Creator(basePath, done, p).Some?
    ensures UnderBase(basePath, done + [f])
    ensures CreatedPathAt(basePath, done + [f], p) == CreatedPathAt(basePath, done, p)
  {
    CreatorStep(basePath, done, f, p);
    assert (done + [f])[Creator(basePath, done, p).value] == done[Creator(basePath, done, p).value];
  }

  /** One more unit adds an initializer at `p` exactly when it is one at `p`. */
  lemma InitAtStep(basePath: FsPath, done: seq<SourceFile>, f: SourceFile, p: DotPath)
    requires UnderBase(basePath, done) && InBase(basePath, f) && UnderBase(basePath, done + [f])
    ensures InitAt(basePath, done + [f], p) <==>
      InitAt(basePath, done, p) || (Scanned(f) && FillsInit(f) && UnitPath(basePath, f) == p)
  {
    var all := done + [f];
    assert forall j :: 0 <= j < |done| ==> all[j] == done[j];
    assert all[|done|] == f;
    if InitAt(basePath, all, p) && !(Scanned(f) && FillsInit(f) && UnitPath(basePath, f) == p) {
      var j :| 0 <= j < |all| && Scanned(all[j]) && FillsInit(all[j]) && UnitPath(basePath, all[j]) == p;
      assert j < |done| && all[j] == done[j];
    }
  }

  /** A path that does not resolve lies on no processed unit's way: it has no creator and no initializer. */
  lemma CreatorUnreached(a: Arena, basePath: FsPath, done: seq<SourceFile>, q: DotPath)
    requires WellFormed(a) && UnderBase(basePath, done)
    requires forall j :: 0 <= j < |done| && Scanned(done[j]) ==> Get(a, RootIndex, UnitPath(basePath, done[j])).Some?
    requires Get(a, RootIndex, q).None?
    ensures Creator(basePath, done, q).None? && !InitAt(basePath, done, q)
  {
    var c := Creator(basePath, done, q);
    if c.Some? {
      var u := UnitPath(basePath, done[c.value]);
      assert DotPath(u.parts[..|q.parts|]) == q;
      GetPrefix(a, RootIndex, u, |q.parts|);
    }
  }

  /** A node `get_or_add` created for `f` has `f` as its creator and no initializer yet. */
  lemma NewNodePath(a: Arena, pa: seq<nat>, b: Arena, pb: seq<nat>, basePath: FsPath,
                    done: seq<SourceFile>, f: SourceFile, n: nat)
    requires WellFormed(a) && TreeShaped(b, pb) && Grown(a, b) && UnderBase(basePath, done)
    requires forall j :: 0 <= j < |done| && Scanned(done[j]) ==> Get(a, RootIndex, UnitPath(basePath, done[j])).Some?
    requires InBase(basePath, f) && Scanned(f) && |a| <= n < |b|
    requires FoundAlong(a, b, RootIndex, UnitPath(basePath, f).parts)
    requires CreatedAlong(a, b, UnitPath(basePath, f).parts, f.path)
    ensures UnderBase(basePath, done + [f])
    ensures FilePathAt(basePath, done + [f], done, PathOf(b, pb, n)) == Some(b[n].filePath)
  {
    var unit := UnitPath(basePath, f);
    var k := n + |unit.parts| + 1 - |b|;
    var q := DotPath(unit.parts[..k]);
    assert Get(b, RootIndex, q) == Some(n) by {
      FoundAlongAt(a, b, RootIndex, unit.parts, k);
    }
    assert PathOf(b, pb, n) == q by {
      RootGetPath(b, pb, q);
    }
    assert Creator(basePath, done, q).None? && !InitAt(basePath, done, q) by {
      NewNodeUnclaimed(a, pa, b, pb, basePath, done, n);
      CreatorUnreached(a, basePath, done, q);
    }
    assert UnderBase(basePath, done + [f]) && Creator(basePath, done + [f], q) == Some(|done|) by {
      CreatorStep(basePath, done, f, q);
    }
    CreatedPathAtLast(basePath, done, f, q);
    CreatedAlongAt(a, b, unit.parts, f.path, n);
  }

  lemma CreatedPathAtLast(basePath: FsPath, done: seq<SourceFile>, f: SourceFile, q: DotPath)
    requires UnderBase(basePath, done + [f]) && Creator(basePath, done + [f], q) == Some(|done|)
    ensures CreatedPathAt(basePath, done + [f], q) == Some(CreatedFilePath(f.path, |UnitPath(basePath, f).parts| - |q.parts|))
  {
    assert (done + [f])[|done|] == f;
  }

  /** After `get_or_add` for `f`, every node has the file path its creator among `done + [f]` gave it. */
  lemma PathsAfterGetOrAdd(a: Arena, pa: seq<nat>, b: Arena, pb: seq<nat>, basePath: FsPath,
                           done: seq<SourceFile>, f: SourceFile)
    requires TreeShaped(a, pa) && TreeShaped(b, pb) && Grown(a, b) && |a| <= |pb| && pb[..|a|] == pa
    requires UnderBase(basePath, done) && InBase(basePath, f) && Scanned(f)
    requires forall j :: 0 <= j < |done| && Scanned(done[j]) ==> Get(a, RootIndex, UnitPath(basePath, done[j])).Some?
    requires NodeFilePaths(a, pa, basePath, done, done)
    requires FoundAlong(a, b, RootIndex, UnitPath(basePath, f).parts)
    requires CreatedAlong(a, b, UnitPath(basePath, f).parts, f.path)
    ensures UnderBase(basePath, done + [f])
    ensures NodeFilePaths(b, pb, basePath, done + [f], done)
  {
    CreatorStep(basePath, done, f, DotPath([]));
    OldNodesPaths(a, pa, b, pb, basePath, done, f);
    NewNodesPaths(a, pa, b, pb, basePath, done, f);
  }

  lemma OldNodesPaths(a: Arena, pa: seq<nat>, b: Arena, pb: seq<nat>, basePath: FsPath,
                      done: seq<SourceFile>, f: SourceFile)
    requires TreeShaped(a, pa) && TreeShaped(b, pb) && Grown(a, b) && |a| <= |pb| && pb[..|a|] == pa
    requires UnderBase(basePath, done) && InBase(basePath, f) && UnderBase(basePath, done + [f])
    requires NodeFilePaths(a, pa, basePath, done, done)
    ensures forall n :: 1 <= n < |a| ==> FilePathAt(basePath, done + [f], done, PathOf(b, pb, n)) == Some(b[n].filePath)
  {
    forall n | 1 <= n < |a|
      ensures FilePathAt(basePath, done + [f], done, PathOf(b, pb, n)) == Some(b[n].filePath)
    {
      OldNodePath(a, pa, b, pb, basePath, done, f, n);
    }
  }

  lemma NewNodesPaths(a: Arena, pa: seq<nat>, b: Arena, pb: seq<nat>, basePath: FsPath,
                      done: seq<SourceFile>, f: SourceFile)
    requires WellFormed(a) && TreeShaped(b, pb) && Grown(a, b)
    requires UnderBase(basePath, done) && InBase(basePath, f) && Scanned(f) && UnderBase(basePath, done + [f])
    requires forall j :: 0 <= j < |done| && Scanned(done[j]) ==> Get(a, RootIndex, UnitPath(basePath, done[j])).Some?
    requires FoundAlong(a, b, RootIndex, UnitPath(basePath, f).parts)
    requires CreatedAlong(a, b, UnitPath(basePath, f).parts, f.path)
    ensures forall n :: |a| <= n < |b| ==> FilePathAt(basePath, done + [f], done, PathOf(b, pb, n)) == Some(b[n].filePath)
  {
    forall n | |a| <= n < |b|
      ensures FilePathAt(basePath, done + [f], done, PathOf(b, pb, n)) == Some(b[n].filePath)
    {
      NewNodePath(a, pa, b, pb, basePath, done, f, n);
    }
  }

  /** A node that existed before `get_or_add` keeps its creator and its file path. */
  lemma OldNodePath(a: Arena, pa: seq<nat>, b: Arena, pb: seq<nat>, basePath: FsPath,
                    done: seq<SourceFile>, f: SourceFile, n: nat)
    requires TreeShaped(a, pa) && TreeShaped(b, pb) && Grown(a, b) && pb[..|a|] == pa && 1 <= n < |a|
    requires UnderBase(basePath, done) && InBase(basePath, f)
    requires FilePathAt(basePath, done, done, PathOf(a, pa, n)) == Some(a[n].filePath)
    ensures UnderBase(basePath, done + [f])
    ensures FilePathAt(basePath, done + [f], done, PathOf(b, pb, n)) == Some(b[n].filePath)
  {
    PathOfGrown(a, pa, b, pb, n);
    CreatedPathStep(basePath, done, f, PathOf(a, pa, n));
  }

  /** One more file, before its node is fetched, changes no node's creator: every existing node already has one. */
  lemma FilePathsKept(nodes: Arena, parent: seq<nat>, basePath: FsPath, done: seq<SourceFile>, f: SourceFile)
    requires TreeShaped(nodes, parent) && UnderBase(basePath, done) && InBase(basePath, f)
    requires NodeFilePaths(nodes, parent, basePath, done, done)
    ensures UnderBase(basePath, done + [f])
    ensures NodeFilePaths(nodes, parent, basePath, done + [f], done)
  {
    CreatorStep(basePath, done, f, DotPath([]));
    forall n | 1 <= n < |nodes|
      ensures FilePathAt(basePath, done + [f], done, PathOf(nodes, parent, n)) == Some(nodes[n].filePath)
    {
      var p := PathOf(nodes, parent, n);
      assert CreatedPathAt(basePath, done, p).Some?;
      CreatedPathStep(basePath, done, f, p);
    }
  }

  /** Adding `f`'s records: only its own node's file path can change, and only for an initializer. */
  lemma PathsAfterAdd(b: Arena, pb: seq<nat>, c: Arena, basePath: FsPath, done: seq<SourceFile>,
                      f: SourceFile, r: nat, filePath: FsPath)
    requires TreeShaped(b, pb) && TreeShaped(c, pb) && UnderBase(basePath, done) && InBase(basePath, f)
    requires UnderBase(basePath, done + [f]) && NodeFilePaths(b, pb, basePath, done + [f], done)
    requires Scanned(f) && f.parsed.Module? && f.parsed.body != []
    requires Get(b, RootIndex, UnitPath(basePath, f)) == Some(r) && 1 <= r
    requires c == b[r := b[r].(imports := b[r].imports + UnitImports(basePath, f).records, filePath := filePath)]
    requires filePath == if IsInitFile(f) then InitFilePath(b[r].filePath) else b[r].filePath
    ensures NodeFilePaths(c, pb, basePath, done + [f], done + [f])
  {
    UpdateSameShape(b, r, filePath, b[r].imports + UnitImports(basePath, f).records);
    forall n | 1 <= n < |c|
      ensures FilePathAt(basePath, done + [f], done + [f], PathOf(c, pb, n)) == Some(c[n].filePath)
    {
      PathOfSameShape(b, c, pb, n);
      PathAfterAddAt(b, pb, basePath, done, f, r, n, c[n].filePath);
    }
  }

  /** PathsAfterAdd at the node `n`, whose new file path is `fp`. */
  lemma PathAfterAddAt(b: Arena, pb: seq<nat>, basePath: FsPath, done: seq<SourceFile>, f: SourceFile, r: nat, n: nat, fp: FsPath)
    requires TreeShaped(b, pb) && UnderBase(basePath, done) && InBase(basePath, f)
    requires UnderBase(basePath, done + [f]) && 1 <= n < |b|
    requires FilePathAt(basePath, done + [f], done, PathOf(b, pb, n)) == Some(b[n].filePath)
    requires Scanned(f) && f.parsed.Module? && f.parsed.body != []
    requires Get(b, RootIndex, UnitPath(basePath, f)) == Some(r)
    requires n != r ==> fp == b[n].filePath
    requires n == r ==> fp == if IsInitFile(f) then InitFilePath(b[r].filePath) else b[r].filePath
    ensures FilePathAt(basePath, done + [f], done + [f], PathOf(b, pb, n)) == Some(fp)
  {
    var p := PathOf(b, pb, n);
    InitAtStep(basePath, done, f, p);
    if n != r {
      assert UnitPath(basePath, f) != p by {
        RootGetPathOf(b, pb, n);
      }
    } else {
      RootGetPath(b, pb, UnitPath(basePath, f));
      PathAfterInit(basePath, done, f, p, b[n].filePath);
    }
  }

  /** At the unit's own node, the file path after the add is the expected one, whether or not `f` is an initializer. */
  lemma PathAfterInit(basePath: FsPath, done: seq<SourceFile>, f: SourceFile, p: DotPath, fp: FsPath)
    requires UnderBase(basePath, done) && InBase(basePath, f) && UnderBase(basePath, done + [f])
    requires Scanned(f) && f.parsed.Module? && f.parsed.body != [] && UnitPath(basePath, f) == p
    requires FilePathAt(basePath, done + [f], done, p) == Some(fp)
    ensures FilePathAt(basePath, done + [f], done + [f], p) == Some(if IsInitFile(f) then InitFilePath(fp) else fp)
  {
    InitAtStep(basePath, done, f, p);
  }

  /**
   * A unit that adds no records leaves the tree as it was: a file the scan
   * skips, or a unit without statements whose node already exists.
   */
  lemma BuiltNoRecords(b: Arena, pb: seq<nat>, basePath: FsPath, done: seq<SourceFile>, f: SourceFile)
    requires Recorded(b, pb, basePath, done) && InBase(basePath, f) && UnderBase(basePath, done + [f])
    requires NodeFilePaths(b, pb, basePath, done + [f], done)
    requires Scanned(f) ==> f.parsed == Module([]) && Get(b, RootIndex, UnitPath(basePath, f)).Some?
    ensures Built(b, pb, basePath, done + [f])
  {
    ExpectedStep(basePath, done, f, DotPath([]));
    forall n | 1 <= n < |b|
      ensures FilePathAt(basePath, done + [f], done + [f], PathOf(b, pb, n)) == Some(b[n].filePath)
    {
      InitAtStep(basePath, done, f, PathOf(b, pb, n));
    }
    NoRecordsImports(b, pb, basePath, done, f);
    NoRecordsLookups(b, basePath, done, f);
    NoRecordsInits(b, basePath, done, f);
  }

  lemma NoRecordsLookups(b: Arena, basePath: FsPath, done: seq<SourceFile>, f: SourceFile)
    requires WellFormed(b) && UnderBase(basePath, done) && InBase(basePath, f)
    requires forall j :: 0 <= j < |done| && Scanned(done[j]) ==>
      HasNodePath(basePath, done[j]) && Get(b, RootIndex, UnitPath(basePath, done[j])).Some?
    requires Scanned(f) ==> HasNodePath(basePath, f) && Get(b, RootIndex, UnitPath(basePath, f)).Some?
    ensures var all := done + [f];
      forall j :: 0 <= j < |all| && Scanned(all[j]) ==>
        HasNodePath(basePath, all[j]) && Get(b, RootIndex, UnitPath(basePath, all[j])).Some?
  {
    var all := done + [f];
    assert forall j :: 0 <= j < |done| ==> all[j] == done[j];
    assert all[|done|] == f;
  }

  lemma NoRecordsInits(b: Arena, basePath: FsPath, done: seq<SourceFile>, f: SourceFile)
    requires WellFormed(b) && UnderBase(basePath, done) && InBase(basePath, f)
    requires InitsMerged(b, basePath, done)
    requires Scanned(f) ==> f.parsed == Module([])
    ensures UnderBase(basePath, done + [f])
    ensures InitsMerged(b, basePath, done + [f])
  {
    var all := done + [f];
    assert forall j :: 0 <= j < |done| ==> all[j] == done[j];
    assert all[|done|] == f;
  }

  lemma NoRecordsImports(b: Arena, pb: seq<nat>, basePath: FsPath, done: seq<SourceFile>, f: SourceFile)
    requires TreeShaped(b, pb) && UnderBase(basePath, done) && InBase(basePath, f)
    requires Scanned(f) ==> f.parsed == Module([])
    requires forall n :: 1 <= n < |b| ==> b[n].imports == Expected(basePath, done, PathOf(b, pb, n))
    ensures UnderBase(basePath, done + [f])
    ensures forall n :: 1 <= n < |b| ==> b[n].imports == Expected(basePath, done + [f], PathOf(b, pb, n))
  {
    assert Scanned(f) ==> UnitImports(basePath, f).records == [];
    forall n | 1 <= n < |b|
      ensures b[n].imports == Expected(basePath, done + [f], PathOf(b, pb, n))
    {
      ExpectedStep(basePath, done, f, PathOf(b, pb, n));
      assert Expected(basePath, done, PathOf(b, pb, n)) + [] == Expected(basePath, done, PathOf(b, pb, n));
    }
  }

  /** The records of `f` reach its node, and only that node. */
  lemma BuiltAfterAdd(b: Arena, pb: seq<nat>, c: Arena, basePath: FsPath, done: seq<SourceFile>,
                      f: SourceFile, r: nat, filePath: FsPath)
    requires Recorded(b, pb, basePath, done) && InBase(basePath, f) && TreeShaped(c, pb)
    requires UnderBase(basePath, done + [f]) && NodeFilePaths(b, pb, basePath, done + [f], done)
    requires Scanned(f) && f.parsed.Module? && f.parsed.body != []
    requires UnitPath(basePath, f).parts != [] && Get(b, RootIndex, UnitPath(basePath, f)) == Some(r) && 1 <= r
    requires c == b[r := b[r].(imports := b[r].imports + UnitImports(basePath, f).records, filePath := filePath)]
    requires filePath == if IsInitFile(f) then InitFilePath(b[r].filePath) else b[r].filePath
    ensures Built(c, pb, basePath, done + [f])
  {
    assert NodeFilePaths(c, pb, basePath, done + [f], done + [f]) by {
      PathsAfterAdd(b, pb, c, basePath, done, f, r, filePath);
    }
    assert Recorded(c, pb, basePath, done + [f]) by {
      RecordedAfterAdd(b, pb, c, basePath, done, f, r, filePath);
    }
  }

  lemma RecordedAfterAdd(b: Arena, pb: seq<nat>, c: Arena, basePath: FsPath, done: seq<SourceFile>,
                         f: SourceFile, r: nat, filePath: FsPath)
    requires Recorded(b, pb, basePath, done) && InBase(basePath, f) && TreeShaped(c, pb)
    requires Scanned(f) && f.parsed.Module? && f.parsed.body != []
    requires UnitPath(basePath, f).parts != [] && Get(b, RootIndex, UnitPath(basePath, f)) == Some(r) && 1 <= r
    requires c == b[r := b[r].(imports := b[r].imports + UnitImports(basePath, f).records, filePath := filePath)]
    requires FileName(b[r].filePath) == InitFile ==> FileName(filePath) == InitFile
    requires IsInitFile(f) ==> FileName(filePath) == InitFile
    ensures Recorded(c, pb, basePath, done + [f])
  {
    var all := done + [f];
    var unit := UnitPath(basePath, f);
    UpdateSameShape(b, r, filePath, b[r].imports + UnitImports(basePath, f).records);
    ExpectedStep(basePath, done, f, unit);
    AddKeepsLookups(b, c, basePath, done, f, r, filePath);
    RootGetPath(b, pb, unit);
    forall n | 1 <= n < |c|
      ensures c[n].imports == Expected(basePath, all, PathOf(c, pb, n))
    {
      PathOfSameShape(b, c, pb, n);
      ExpectedStep(basePath, done, f, PathOf(b, pb, n));
      if n != r {
        RootGetPathOf(b, pb, n);
      }
    }
  }

  lemma AddKeepsLookups(b: Arena, c: Arena, basePath: FsPath, done: seq<SourceFile>,
                        f: SourceFile, r: nat, filePath: FsPath)
    requires WellFormed(b) && WellFormed(c) && SameShape(b, c) && UnderBase(basePath, done) && InBase(basePath, f)
    requires forall j :: 0 <= j < |done| && Scanned(done[j]) ==>
      HasNodePath(basePath, done[j]) && Get(b, RootIndex, UnitPath(basePath, done[j])).Some?
    requires InitsMerged(b, basePath, done)
    requires Scanned(f) && UnitPath(basePath, f).parts != [] && Get(b, RootIndex, UnitPath(basePath, f)) == Some(r)
    requires r < |b| && c == b[r := b[r].(filePath := filePath, imports := c[r].imports)]
    requires FileName(b[r].filePath) == InitFile ==> FileName(filePath) == InitFile
    requires IsInitFile(f) ==> FileName(filePath) == InitFile
    ensures forall j :: 0 <= j < |done + [f]| && Scanned((done + [f])[j]) ==>
      HasNodePath(basePath, (done + [f])[j]) && Get(c, RootIndex, UnitPath(basePath, (done + [f])[j])).Some?
    ensures InitsMerged(c, basePath, done + [f])
  {
    var all := done + [f];
    forall j | 0 <= j < |all| && Scanned(all[j])
      ensures HasNodePath(basePath, all[j]) && Get(c, RootIndex, UnitPath(basePath, all[j])).Some?
    {
      var g := all[j];
      if j < |done| {
        assert g == done[j];
      } else {
        assert g == f;
      }
      GetSameShape(b, c, RootIndex, UnitPath(basePath, g));
    }
    AddKeepsInits(b, c, basePath, done, f, r, filePath);
  }

  lemma AddKeepsInits(b: Arena, c: Arena, basePath: FsPath, done: seq<SourceFile>,
                      f: SourceFile, r: nat, filePath: FsPath)
    requires WellFormed(b) && WellFormed(c) && SameShape(b, c) && UnderBase(basePath, done) && InBase(basePath, f)
    requires InitsMerged(b, basePath, done)
    requires Get(b, RootIndex, UnitPath(basePath, f)) == Some(r)
    requires r < |b| && c == b[r := b[r].(filePath := filePath, imports := c[r].imports)]
    requires FileName(b[r].filePath) == InitFile ==> FileName(filePath) == InitFile
    requires IsInitFile(f) ==> FileName(filePath) == InitFile
    ensures InitsMerged(c, basePath, done + [f])
  {
    var all := done + [f];
    forall j | 0 <= j < |all| && Scanned(all[j]) && IsInitFile(all[j]) && all[j].parsed.Module? && all[j].parsed.body != []
      ensures Get(c, RootIndex, UnitPath(basePath, all[j])).Some?
      ensures FileName(c[Get(c, RootIndex, UnitPath(basePath, all[j])).value].filePath) == InitFile
    {
      AddKeepsInit(b, c, basePath, done, f, r, filePath, j);
    }
  }

  lemma AddKeepsInit(b: Arena, c: Arena, basePath: FsPath, done: seq<SourceFile>,
                     f: SourceFile, r: nat, filePath: FsPath, j: nat)
    requires WellFormed(b) && WellFormed(c) && SameShape(b, c) && UnderBase(basePath, done) && InBase(basePath, f)
    requires InitsMerged(b, basePath, done)
    requires Get(b, RootIndex, UnitPath(basePath, f)) == Some(r)
    requires r < |b| && c == b[r := b[r].(filePath := filePath, imports := c[r].imports)]
    requires FileName(b[r].filePath) == InitFile ==> FileName(filePath) == InitFile
    requires IsInitFile(f) ==> FileName(filePath) == InitFile
    requires j <= |done|
    requires var g := (done + [f])[j];
      Scanned(g) && IsInitFile(g) && g.parsed.Module? && g.parsed.body != [] && InBase(basePath, g)
    ensures var g := (done + [f])[j];
      Get(c, RootIndex, UnitPath(basePath, g)).Some? &&
      FileName(c[Get(c, RootIndex, UnitPath(basePath, g)).value].filePath) == InitFile
  {
    var g := (done + [f])[j];
    GetSameShape(b, c, RootIndex, UnitPath(basePath, g));
    if j < |done| {
      assert g == done[j];
    } else {
      assert g == f;
    }
  }

  lemma BuiltStart(basePath: FsPath)
    ensures Built([NodeData("", [], [], [])], [0], basePath, [])
  {
  }

  // ---------------------------------------------------------------------------
  // The file paths of the built tree

  /** The first scanned unit whose path runs through `p` comes no later than any such unit. */
  lemma {:induction false} CreatorFirst(basePath: FsPath, files: seq<SourceFile>, p: DotPath, j: nat)
    requires UnderBase(basePath, files) && j < |files|
    requires Scanned(files[j]) && IsRelativeTo(UnitPath(basePath, files[j]), p)
    ensures Creator(basePath, files, p).Some? && Creator(basePath, files, p).value <= j
    decreases |files|
  {
    var pre := files[..|files| - 1];
    assert forall i :: 0 <= i < |pre| ==> pre[i] == files[i];
    if j < |files| - 1 {
      CreatorFirst(basePath, pre, p, j);
    }
  }

  /** A scanned unit with no earlier unit on its way is the creator of the node at its own path. */
  lemma CreatorOwn(basePath: FsPath, files: seq<SourceFile>, j: nat)
    requires UnderBase(basePath, files) && j < |files| && Scanned(files[j])
    requires forall i :: 0 <= i < j && Scanned(files[i]) ==>
      !IsRelativeTo(UnitPath(basePath, files[i]), UnitPath(basePath, files[j]))
    ensures Creator(basePath, files, UnitPath(basePath, files[j])) == Some(j)
  {
    var u := UnitPath(basePath, files[j]);
    assert u.parts == u.parts[..|u.parts|];
    CreatorFirst(basePath, files, u, j);
  }

  /** A plain module's node path is its path below the base with `.py` removed from the last part. */
  lemma ModuleUnitPath(basePath: FsPath, f: SourceFile)
    requires InBase(basePath, f) && !IsInitFile(f)
    ensures var u := UnitPath(basePath, f).parts;
      |u| == |f.path| - |basePath| && f.path[..|f.path| - 1] == basePath + u[..|u| - 1]
  {
    var rest := f.path[|basePath|..];
    assert f.path == basePath + rest;
    assert rest[|rest| - 1] == f.path[|f.path| - 1];
  }

  /** An initializer's node path is the directory holding it, below the base. */
  lemma InitUnitPath(basePath: FsPath, f: SourceFile)
    requires InBase(basePath, f) && IsInitFile(f)
    ensures f.path == basePath + UnitPath(basePath, f).parts + [InitFile]
  {
    var rest := f.path[|basePath|..];
    assert f.path == basePath + rest;
    assert rest[|rest| - 1] == f.path[|f.path| - 1];
    assert rest == rest[..|rest| - 1] + [InitFile];
  }

  /** Dropping `d` parts from a plain module's file path gives the directory of its `d`-th ancestor package. */
  lemma ModuleAncestorPath(basePath: FsPath, f: SourceFile, d: nat)
    requires InBase(basePath, f) && !IsInitFile(f) && 1 <= d <= |UnitPath(basePath, f).parts|
    ensures var u := UnitPath(basePath, f).parts;
      DropLast(f.path, d) == basePath + u[..|u| - d]
  {
    var u := UnitPath(basePath, f).parts;
    ModuleUnitPath(basePath, f);
    assert f.path[..|f.path| - d] == f.path[..|f.path| - 1][..|f.path| - d];
    assert u[..|u| - d] == u[..|u| - 1][..|u| - d];
  }

  /**
   * A plain module strictly below `u` creates the node at `u` with the
   * package directory of `u` as its file path.
   */
  lemma PackageCreatedPath(basePath: FsPath, f: SourceFile, u: DotPath)
    requires InBase(basePath, f) && !IsInitFile(f)
    requires IsRelativeTo(UnitPath(basePath, f), u) && UnitPath(basePath, f) != u
    ensures |UnitPath(basePath, f).parts| > |u.parts|
    ensures CreatedFilePath(f.path, |UnitPath(basePath, f).parts| - |u.parts|) == basePath + u.parts
  {
    var uf := UnitPath(basePath, f).parts;
    assert uf[..|uf|] == uf;
    ModuleAncestorPath(basePath, f, |uf| - |u.parts|);
  }

  /** A unit's node path has no more parts than its path below the base. */
  lemma UnitPathLength(basePath: FsPath, f: SourceFile)
    requires InBase(basePath, f)
    ensures |UnitPath(basePath, f).parts| <= |f.path| - |basePath|
  {
  }

  /** The node of a scanned unit, and what NodeFilePaths says about its file path. */
  lemma UnitNode(nodes: Arena, parent: seq<nat>, basePath: FsPath, files: seq<SourceFile>, j: nat) returns (n: nat)
    requires Built(nodes, parent, basePath, files) && j < |files| && Scanned(files[j])
    requires UnitPath(basePath, files[j]).parts != []
    ensures Get(nodes, RootIndex, UnitPath(basePath, files[j])) == Some(n) && 1 <= n < |nodes|
    ensures FilePathAt(basePath, files, files, UnitPath(basePath, files[j])) == Some(nodes[n].filePath)
  {
    n := Get(nodes, RootIndex, UnitPath(basePath, files[j])).value;
    RootGetPath(nodes, parent, UnitPath(basePath, files[j]));
  }

  /** What NodeFilePaths asks of the node of a plain module that was the first unit on its way. */
  lemma ModuleFilePathAt(basePath: FsPath, files: seq<SourceFile>, j: nat)
    requires UnderBase(basePath, files) && j < |files| && Scanned(files[j]) && !IsInitFile(files[j])
    requires forall i :: 0 <= i < j && Scanned(files[i]) ==>
      !IsRelativeTo(UnitPath(basePath, files[i]), UnitPath(basePath, files[j]))
    requires forall i :: 0 <= i < |files| && Scanned(files[i]) && FillsInit(files[i]) ==>
      UnitPath(basePath, files[i]) != UnitPath(basePath, files[j])
    ensures FilePathAt(basePath, files, files, UnitPath(basePath, files[j])) == Some(files[j].path)
  {
    CreatorOwn(basePath, files, j);
  }

  /** What NodeFilePaths asks of the node of an initializer with statements. */
  lemma InitFilePathAt(basePath: FsPath, files: seq<SourceFile>, j: nat)
    requires UnderBase(basePath, files) && j < |files| && Scanned(files[j]) && FillsInit(files[j])
    requires forall i :: 0 <= i < j && Scanned(files[i]) && IsRelativeTo(UnitPath(basePath, files[i]), UnitPath(basePath, files[j])) ==>
      !IsInitFile(files[i]) && UnitPath(basePath, files[i]) != UnitPath(basePath, files[j])
    requires UnitPath(basePath, files[j]).parts != [] && FileName(UnitPath(basePath, files[j]).parts) != InitFile
    ensures FilePathAt(basePath, files, files, UnitPath(basePath, files[j])) == Some(files[j].path)
  {
    var u := UnitPath(basePath, files[j]);
    assert u.parts == u.parts[..|u.parts|];
    var i := CreatorInfo(basePath, files, u, j);
    var created := InitCompletes(basePath, files[i], files[j], i < j);
    assert InitAt(basePath, files, u);
  }

  /**
   * The file path the creator `g` gives an initializer `f`'s node becomes
   * the initializer's own under `add_data_for_init_file`: `g` is `f` itself,
   * or (`below`) a plain module strictly below `f`'s package.
   */
  lemma InitCompletes(basePath: FsPath, g: SourceFile, f: SourceFile, below: bool) returns (created: FsPath)
    requires InBase(basePath, g) && InBase(basePath, f) && IsInitFile(f)
    requires IsRelativeTo(UnitPath(basePath, g), UnitPath(basePath, f))
    requires below ==> !IsInitFile(g) && UnitPath(basePath, g) != UnitPath(basePath, f)
    requires !below ==> g == f
    requires UnitPath(basePath, f).parts != [] && FileName(UnitPath(basePath, f).parts) != InitFile
    ensures created == CreatedFilePath(g.path, |UnitPath(basePath, g).parts| - |UnitPath(basePath, f).parts|)
    ensures InitFilePath(created) == f.path
  {
    if below {
      created := InitOverPackage(basePath, g, f);
    } else {
      CreatedSelf(basePath, f);
      created := f.path;
    }
  }

  /** A unit that creates its own node gives it its own file path. */
  lemma CreatedSelf(basePath: FsPath, f: SourceFile)
    requires InBase(basePath, f)
    ensures CreatedFilePath(f.path, |UnitPath(basePath, f).parts| - |UnitPath(basePath, f).parts|) == f.path
  {
  }

  /** The creator of `p`, when the scanned unit `files[j]` runs through `p`, and the file path it gives. */
  lemma CreatorInfo(basePath: FsPath, files: seq<SourceFile>, p: DotPath, j: nat) returns (i: nat)
    requires UnderBase(basePath, files) && j < |files|
    requires Scanned(files[j]) && IsRelativeTo(UnitPath(basePath, files[j]), p)
    ensures i <= j && Scanned(files[i]) && IsRelativeTo(UnitPath(basePath, files[i]), p)
    ensures CreatedPathAt(basePath, files, p) == Some(CreatedFilePath(files[i].path, |UnitPath(basePath, files[i]).parts| - |p.parts|))
  {
    CreatorFirst(basePath, files, p, j);
    i := Creator(basePath, files, p).value;
  }

  /** A plain module below an initializer's package creates its node with a path the initializer completes. */
  lemma InitOverPackage(basePath: FsPath, g: SourceFile, f: SourceFile) returns (fp: FsPath)
    requires InBase(basePath, g) && !IsInitFile(g) && InBase(basePath, f) && IsInitFile(f)
    requires IsRelativeTo(UnitPath(basePath, g), UnitPath(basePath, f)) && UnitPath(basePath, g) != UnitPath(basePath, f)
    requires UnitPath(basePath, f).parts != [] && FileName(UnitPath(basePath, f).parts) != InitFile
    ensures CreatedFilePath(g.path, |UnitPath(basePath, g).parts| - |UnitPath(basePath, f).parts|) == fp
    ensures InitFilePath(fp) == f.path
  {
    var u := UnitPath(basePath, f);
    PackageCreatedPath(basePath, g, u);
    InitUnitPath(basePath, f);
    assert FileName(basePath + u.parts) == FileName(u.parts);
    fp := basePath + u.parts;
  }

  /** What NodeFilePaths asks of a node at which no unit lies. */
  lemma DirectoryFilePathAt(basePath: FsPath, files: seq<SourceFile>, p: DotPath, fp: FsPath) returns (i: nat)
    requires UnderBase(basePath, files) && FilePathAt(basePath, files, files, p) == Some(fp)
    requires forall j :: 0 <= j < |files| && Scanned(files[j]) ==> UnitPath(basePath, files[j]) != p
    ensures i < |files| && Scanned(files[i]) && IsRelativeTo(UnitPath(basePath, files[i]), p)
    ensures forall j :: 0 <= j < i && Scanned(files[j]) ==> !IsRelativeTo(UnitPath(basePath, files[j]), p)
    ensures |fp| < |files[i].path| && fp == files[i].path[..|fp|]
    ensures !IsInitFile(files[i]) ==> fp == basePath + p.parts
  {
    i := Creator(basePath, files, p).value;
    var ui := UnitPath(basePath, files[i]).parts;
    assert !InitAt(basePath, files, p);
    assert |ui| > |p.parts| by {
      assert UnitPath(basePath, files[i]) != p;
      assert ui[..|ui|] == ui;
    }
    UnitPathLength(basePath, files[i]);
    forall j | 0 <= j < i && Scanned(files[j])
      ensures !IsRelativeTo(UnitPath(basePath, files[j]), p)
    {
      if IsRelativeTo(UnitPath(basePath, files[j]), p) {
        CreatorFirst(basePath, files, p, j);
      }
    }
    if !IsInitFile(files[i]) {
      PackageCreatedPath(basePath, files[i], p);
    }
  }

  /** The built tree has no node that is not on the way to a scanned unit. */
  lemma BuiltNodeOnUnitWay(nodes: Arena, parent: seq<nat>, basePath: FsPath, files: seq<SourceFile>, n: nat)
    returns (i: nat)
    requires Built(nodes, parent, basePath, files) && 1 <= n < |nodes|
    ensures i < |files| && Scanned(files[i]) && IsRelativeTo(UnitPath(basePath, files[i]), PathOf(nodes, parent, n))
  {
    assert FilePathAt(basePath, files, files, PathOf(nodes, parent, n)) == Some(nodes[n].filePath);
    i := Creator(basePath, files, PathOf(nodes, parent, n)).value;
  }

  /**
   * The node of a plain module `files[j]` that was the first unit on its
   * way, and that no initializer with statements shares, has that module's
   * own file path: as `get_or_add` recorded it when it created the node.
   */
  lemma BuiltModuleFilePath(nodes: Arena, parent: seq<nat>, basePath: FsPath, files: seq<SourceFile>, j: nat)
    requires Built(nodes, parent, basePath, files) && j < |files| && Scanned(files[j]) && !IsInitFile(files[j])
    requires forall i :: 0 <= i < j && Scanned(files[i]) ==>
      !IsRelativeTo(UnitPath(basePath, files[i]), UnitPath(basePath, files[j]))
    requires forall i :: 0 <= i < |files| && Scanned(files[i]) && FillsInit(files[i]) ==>
      UnitPath(basePath, files[i]) != UnitPath(basePath, files[j])
    ensures Get(nodes, RootIndex, UnitPath(basePath, files[j])).Some?
    ensures nodes[Get(nodes, RootIndex, UnitPath(basePath, files[j])).value].filePath == files[j].path
  {
    ModuleUnitPath(basePath, files[j]);
    var n := UnitNode(nodes, parent, basePath, files, j);
    ModuleFilePathAt(basePath, files, j);
  }

  /**
   * The node of an initializer with statements `files[j]` has the
   * initializer's own file path, provided each earlier unit on its way is a
   * plain module strictly below it (creating the node with the package
   * directory as file path) and the package directory is not itself called
   * `__init__.py`.
   */
  lemma BuiltInitFilePath(nodes: Arena, parent: seq<nat>, basePath: FsPath, files: seq<SourceFile>, j: nat)
    requires Built(nodes, parent, basePath, files) && j < |files| && Scanned(files[j]) && FillsInit(files[j])
    requires forall i :: 0 <= i < j && Scanned(files[i]) && IsRelativeTo(UnitPath(basePath, files[i]), UnitPath(basePath, files[j])) ==>
      !IsInitFile(files[i]) && UnitPath(basePath, files[i]) != UnitPath(basePath, files[j])
    requires FileName(UnitPath(basePath, files[j]).parts) != InitFile
    ensures Get(nodes, RootIndex, UnitPath(basePath, files[j])).Some?
    ensures nodes[Get(nodes, RootIndex, UnitPath(basePath, files[j])).value].filePath == files[j].path
  {
    var n := UnitNode(nodes, parent, basePath, files, j);
    InitFilePathAt(basePath, files, j);
  }

  /**
   * A node at which no unit lies, a package directory, has as file path a
   * proper prefix of the file path of the first scanned unit on its way;
   * when that unit is a plain module, the package directory itself.
   */
  lemma BuiltDirectoryFilePath(nodes: Arena, parent: seq<nat>, basePath: FsPath, files: seq<SourceFile>, p: DotPath)
    returns (i: nat)
    requires Built(nodes, parent, basePath, files) && p.parts != [] && Get(nodes, RootIndex, p).Some?
    requires forall j :: 0 <= j < |files| && Scanned(files[j]) ==> UnitPath(basePath, files[j]) != p
    ensures i < |files| && Scanned(files[i]) && IsRelativeTo(UnitPath(basePath, files[i]), p)
    ensures forall j :: 0 <= j < i && Scanned(files[j]) ==> !IsRelativeTo(UnitPath(basePath, files[j]), p)
    ensures var fp := nodes[Get(nodes, RootIndex, p).value].filePath;
      |fp| < |files[i].path| && fp == files[i].path[..|fp|] && (!IsInitFile(files[i]) ==> fp == basePath + p.parts)
  {
    var n := Get(nodes, RootIndex, p).value;
    RootGetPath(nodes, parent, p);
    assert FilePathAt(basePath, files, files, p) == Some(nodes[n].filePath);
    i := DirectoryFilePathAt(basePath, files, p, nodes[n].filePath);
  }

  // ---------------------------------------------------------------------------
  // Building the model

  /**
   * `build_import_model`: the files are processed in the order the scan
   * yields them. A unit that does not parse aborts the build; a scanned
   * unit's node is fetched or created with the unit's own file path; a unit
   * with statements then adds its records, an initializer through
   * `add_data_for_init_file`, after asserting that the node has none yet.
   * An initializer directly under the base has the empty node path, which
   * the root holder refuses. On success the result is the number of
   * relative-import warnings logged.
   */
  method BuildImportModel(basePath: FsPath, files: seq<SourceFile>) returns (tree: Tree, r: Result<nat>)
    requires UnderBase(basePath, files)
    ensures fresh(tree) && tree.Valid()
    ensures r.Ok? ==> Built(tree.nodes, tree.parent, basePath, files) && r.value == Warnings(basePath, files)
    ensures r.Ok? ==> forall j :: 0 <= j < |files| && Scanned(files[j]) ==> files[j].parsed.Module?
    ensures r.Err? ==> r.error in {SyntaxError, KeyError, AssertionError}
    ensures r == Err(SyntaxError) ==>
      exists j :: 0 <= j < |files| && Scanned(files[j]) && files[j].parsed.Unparsable?
    ensures r == Err(KeyError) ==>
      exists j :: 0 <= j < |files| && Scanned(files[j]) && UnitPath(basePath, files[j]).parts == []
    ensures r.Ok? <==> ScansCleanly(basePath, files, |files|)
    ensures r.Err? ==>
      exists k :: 0 <= k < |files| && ScansCleanly(basePath, files, k) && FailureAt(basePath, files, k) == Some(r.error)
  {
    tree := new Tree();
    BuiltStart(basePath);
    var warnings := 0;
    var k := 0;
    while k < |files|
      invariant 0 <= k <= |files| && fresh(tree)
      invariant Built(tree.nodes, tree.parent, basePath, files[..k])
      invariant warnings == Warnings(basePath, files[..k])
      invariant AllParsed(files[..k])
      invariant ScansCleanly(basePath, files, k)
    {
      var failure;
      failure, warnings := ScanFile(tree, basePath, files, k, warnings);
      if failure.Some? {
        return tree, Err(failure.value);
      }
      k := k + 1;
    }
    assert files[..k] == files;
    r := Ok(warnings);
  }

  /** One iteration of the build loop, for `files[k]`: the loop invariant carried to `k + 1`. */
  method ScanFile(tree: Tree, basePath: FsPath, files: seq<SourceFile>, k: nat, warnings: nat)
    returns (failure: Option<Error>, newWarnings: nat)
    requires UnderBase(basePath, files) && k < |files|
    requires Built(tree.nodes, tree.parent, basePath, files[..k]) && warnings == Warnings(basePath, files[..k])
    requires AllParsed(files[..k])
    modifies tree
    ensures tree.Valid()
    ensures failure.None? ==> Built(tree.nodes, tree.parent, basePath, files[..k + 1])
    ensures failure.None? ==> newWarnings == Warnings(basePath, files[..k + 1]) && AllParsed(files[..k + 1])
    ensures failure.Some? ==> failure.value in {SyntaxError, KeyError, AssertionError} && Scanned(files[k])
    ensures failure == Some(SyntaxError) ==> files[k].parsed.Unparsable?
    ensures failure == Some(KeyError) ==> UnitPath(basePath, files[k]).parts == []
    ensures failure == FailureAt(basePath, files, k)
  {
    var f := files[k];
    ghost var done := files[..k];
    assert files[..k + 1] == done + [f];
    assert InBase(basePath, f) && UnderBase(basePath, done + [f]) &&
      Warnings(basePath, done + [f]) == warnings + (if Scanned(f) then UnitImports(basePath, f).warnings else 0) by {
      UnderBasePrefix(basePath, files, k);
      ExpectedStep(basePath, done, f, DotPath([]));
    }
    var w;
    failure, w := AddUnit(tree, basePath, done, f);
    newWarnings := warnings + w;
    if failure.None? {
      AllParsedStep(done, f);
    }
  }

  /**
   * The exception the build raises at the unit `f` after the units `done`,
   * or None when it processes `f`: `SyntaxError` for a unit that does not
   * parse, `KeyError` for a unit with statements at the empty node path, and
   * `AssertionError` when the unit's node already holds records (`assert not
   * node.imports`) or, for an initializer, when `add_data_for_init_file`
   * refuses the node's file path.
   */
  ghost function ScanFailure(basePath: FsPath, done: seq<SourceFile>, f: SourceFile): Option<Error>
    requires UnderBase(basePath, done) && InBase(basePath, f) && UnderBase(basePath, done + [f])
  {
    var u := UnitPath(basePath, f);
    if !Scanned(f) then None
    else if f.parsed.Unparsable? then Some(SyntaxError)
    else if f.parsed.body == [] then None
    else if u.parts == [] then Some(KeyError)
    else if Expected(basePath, done, u) != [] || (IsInitFile(f) && InitRefused(FilePathAt(basePath, done + [f], done, u)))
    then Some(AssertionError)
    else None
  }

  /** The assert of `add_data_for_init_file`: a file path naming a file that is not `__init__.py` is refused. */
  predicate InitRefused(fp: Option<FsPath>)
  {
    fp.Some? && FileName(fp.value) != InitFile && Suffix(FileName(fp.value)) != ""
  }

  /** ScanFailure for `files[k]` after the units before it. */
  ghost function FailureAt(basePath: FsPath, files: seq<SourceFile>, k: nat): Option<Error>
    requires UnderBase(basePath, files) && k < |files|
  {
    UnderBasePrefix(basePath, files, k);
    UnderBasePrefix(basePath, files, k + 1);
    assert files[..k + 1] == files[..k] + [files[k]];
    ScanFailure(basePath, files[..k], files[k])
  }

  /** None of the first `k` units of `files` makes the build fail. */
  ghost predicate ScansCleanly(basePath: FsPath, files: seq<SourceFile>, k: nat)
    requires UnderBase(basePath, files) && k <= |files|
  {
    forall j :: 0 <= j < k ==> FailureAt(basePath, files, j).None?
  }

  /**
   * An `__init__.py` directly under the base has the empty node path: the
   * scan skips it when it is empty and raises KeyError when it has statements.
   */
  lemma BaseInitOutcome(basePath: FsPath, done: seq<SourceFile>, body: seq<Stmt>)
    requires UnderBase(basePath, done)
    ensures var f := SourceFile(basePath + [InitFile], Module(body));
      && UnitPath(basePath, f).parts == []
      && UnderBase(basePath, done + [f])
      && ScanFailure(basePath, done, f) == if !Scanned(f) || body == [] then None else Some(KeyError)
  {
    var f := SourceFile(basePath + [InitFile], Module(body));
    assert f.path[|basePath|..] == [InitFile];
    assert forall j :: 0 <= j < |done| ==> (done + [f])[j] == done[j];
  }

  /** Every scanned unit of `files` parsed. */
  predicate AllParsed(files: seq<SourceFile>)
  {
    forall j :: 0 <= j < |files| && Scanned(files[j]) ==> files[j].parsed.Module?
  }

  lemma AllParsedStep(done: seq<SourceFile>, f: SourceFile)
    requires AllParsed(done) && (Scanned(f) ==> f.parsed.Module?)
    ensures AllParsed(done + [f])
  {
    assert forall j :: 0 <= j < |done| ==> (done + [f])[j] == done[j];
  }

  /** One iteration of the build loop, for the file `f` after the files `done`. */
  method AddUnit(tree: Tree, basePath: FsPath, ghost done: seq<SourceFile>, f: SourceFile)
    returns (failure: Option<Error>, warnings: nat)
    requires Built(tree.nodes, tree.parent, basePath, done) && InBase(basePath, f) && UnderBase(basePath, done + [f])
    modifies tree
    ensures tree.Valid()
    ensures failure == ScanFailure(basePath, done, f)
    ensures failure.None? ==> Built(tree.nodes, tree.parent, basePath, done + [f])
    ensures failure.None? ==> warnings == (if Scanned(f) then UnitImports(basePath, f).warnings else 0)
    ensures failure.None? && Scanned(f) ==> f.parsed.Module?
    ensures failure.Some? ==> failure.value in {SyntaxError, KeyError, AssertionError} && Scanned(f)
    ensures failure == Some(SyntaxError) ==> f.parsed.Unparsable?
    ensures failure == Some(KeyError) ==> UnitPath(basePath, f).parts == []
  {
    if !IsVisible(f.path) {
      FilePathsKept(tree.nodes, tree.parent, basePath, done, f);
      BuiltNoRecords(tree.nodes, tree.parent, basePath, done, f);
      return None, 0;
    }
    match f.parsed {
      case Unparsable =>
        return Some(SyntaxError), 0;
      case Module(body) =>
        failure, warnings := AddModule(tree, basePath, done, f);
    }
  }

  /** The iteration for a scanned unit that parsed: its node is fetched or created, then filled. */
  method AddModule(tree: Tree, basePath: FsPath, ghost done: seq<SourceFile>, f: SourceFile)
    returns (failure: Option<Error>, warnings: nat)
    requires Built(tree.nodes, tree.parent, basePath, done) && InBase(basePath, f) && UnderBase(basePath, done + [f])
    requires Scanned(f) && f.parsed.Module?
    modifies tree
    ensures tree.Valid()
    ensures failure == ScanFailure(basePath, done, f)
    ensures failure.None? ==> Built(tree.nodes, tree.parent, basePath, done + [f])
    ensures failure.None? ==> warnings == UnitImports(basePath, f).warnings
    ensures failure.Some? ==> failure == Some(KeyError) || failure == Some(AssertionError)
    ensures failure == Some(KeyError) ==> UnitPath(basePath, f).parts == [] && f.parsed.body != []
  {
    var unit := GetNodePath(basePath, f.path);
    if f.parsed.body == [] && unit.parts == [] {
      FilePathsKept(tree.nodes, tree.parent, basePath, done, f);
      BuiltNoRecords(tree.nodes, tree.parent, basePath, done, f);
      return None, 0;
    }
    ghost var a, pa := tree.nodes, tree.parent;
    var got := tree.RootGetOrAdd(unit, f.path);
    if got.Err? {
      return Some(KeyError), 0;
    }
    BuiltAfterGetOrAdd(a, pa, tree.nodes, tree.parent, basePath, done, f, got.value);
    if f.parsed.body == [] {
      BuiltNoRecords(tree.nodes, tree.parent, basePath, done, f);
      return None, 0;
    }
    failure, warnings := AddRecords(tree, basePath, done, f, unit, got.value);
  }

  /** The iteration for a unit with statements once its node `node` exists: `assert not node.imports`, then the add. */
  method AddRecords(tree: Tree, basePath: FsPath, ghost done: seq<SourceFile>, f: SourceFile, unit: DotPath, node: nat)
    returns (failure: Option<Error>, warnings: nat)
    requires Recorded(tree.nodes, tree.parent, basePath, done) && InBase(basePath, f)
    requires UnderBase(basePath, done + [f]) && NodeFilePaths(tree.nodes, tree.parent, basePath, done + [f], done)
    requires Scanned(f) && f.parsed.Module? && f.parsed.body != []
    requires unit == UnitPath(basePath, f) && unit.parts != []
    requires Get(tree.nodes, RootIndex, unit) == Some(node) && 1 <= node
    modifies tree
    ensures tree.Valid()
    ensures failure.None? ==> Built(tree.nodes, tree.parent, basePath, done + [f])
    ensures failure.None? ==> warnings == UnitImports(basePath, f).warnings
    ensures failure.Some? ==> failure == Some(AssertionError)
    ensures failure.Some? <==>
      || old(tree.nodes)[node].imports != []
      || (IsInitFile(f) && FileName(old(tree.nodes)[node].filePath) != InitFile
          && Suffix(FileName(old(tree.nodes)[node].filePath)) != "")
    ensures failure == ScanFailure(basePath, done, f)
  {
    UnitNodeState(tree.nodes, tree.parent, basePath, done, f, node);
    if tree.nodes[node].imports != [] {
      return Some(AssertionError), 0;
    }
    var imports;
    imports, warnings := CollectImports(unit, f.parsed.body, false);
    ghost var b := tree.nodes;
    if FileName(f.path) == InitFile {
      var ok := tree.AddDataForInitFile(node, imports);
      if !ok {
        return Some(AssertionError), 0;
      }
    } else {
      tree.AddImports(node, imports);
    }
    BuiltAfterAdd(b, tree.parent, tree.nodes, basePath, done, f, node, tree.nodes[node].filePath);
    failure := None;
  }

  /** What Recorded and NodeFilePaths say about the node of the unit `f` before its records are added. */
  lemma UnitNodeState(nodes: Arena, parent: seq<nat>, basePath: FsPath, done: seq<SourceFile>, f: SourceFile, node: nat)
    requires Recorded(nodes, parent, basePath, done) && InBase(basePath, f) && UnderBase(basePath, done + [f])
    requires NodeFilePaths(nodes, parent, basePath, done + [f], done)
    requires Get(nodes, RootIndex, UnitPath(basePath, f)) == Some(node) && 1 <= node
    ensures node < |nodes| && nodes[node].imports == Expected(basePath, done, UnitPath(basePath, f))
    ensures FilePathAt(basePath, done + [f], done, UnitPath(basePath, f)) == Some(nodes[node].filePath)
  {
    RootGetPath(nodes, parent, UnitPath(basePath, f));
  }
}
