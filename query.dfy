/**
 * The containment queries of query.py: `ImportOf(target) in ModulesAt(node,
 * exclude)` asks whether the target, or anything below it, is imported by
 * some module in the subtree of `node` that the exclude paths leave in
 * scope; `FunctionLevelImport() in ModulesAt(...)` asks whether the subtree
 * has an import inside a function body. Both come with explanation lines.
 *
 * A `ModulesAt` refers to its base node by its handle in the tree's arena.
 */
module Query {
  import opened Wrappers
  import opened DotPaths
  import opened FilePaths
  import opened ModuleTree

  /** `ImportOf(path, absolute=...)`: absent `absolute` means either kind of import. */
  datatype ImportOf = ImportOf(importPath: DotPath, absolute: Option<bool>)

  /** The left operand of `in`: an ImportOf, a FunctionLevelImport, or anything else. */
  datatype Operand = OfImport(target: ImportOf) | FunctionLevelImport | Unsupported

  /** `ModulesAt(base_node, exclude)`. */
  datatype ModulesAt = ModulesAt(baseNode: nat, exclude: seq<DotPath>)

  /** `exclude or []`: an absent exclude list is the empty one. */
  function MakeModulesAt(baseNode: nat, exclude: Option<seq<DotPath>>): (r: ModulesAt)
    ensures r.baseNode == baseNode
    ensures exclude.None? ==> r.exclude == []
    ensures exclude.Some? ==> r.exclude == exclude.value
  {
    ModulesAt(baseNode, match exclude case None => [] case Some(e) => e)
  }

  /** The scope is usable on a tree: its base is a module node of it. */
  ghost predicate ValidScope(nodes: Arena, q: ModulesAt)
  {
    WellFormed(nodes) && 1 <= q.baseNode < |nodes|
  }

  // ---------------------------------------------------------------------------
  // Matching records

  /** What a query looks for in a record. */
  datatype Criterion = Target(t: ImportOf) | FunctionLevel

  /**
   * `_matching_imports_of` keeps a record whose path lies under the target
   * and, when `absolute` is given, whose `bool(level)` differs from it;
   * `_matching_function_level_import` keeps a record made inside a function.
   */
  predicate Selects(c: Criterion, rec: ImportRecord)
  {
    match c
    case Target(t) =>
      IsRelativeTo(rec.importPath, t.importPath) && (t.absolute.None? || t.absolute.value != (rec.level != 0))
    case FunctionLevel => rec.functionImport
  }

  /** A `(module_node, import_by)` pair a matching generator yields. */
  datatype Match = Match(node: nat, record: ImportRecord)

  /** The selected records of node `x`, in their order. */
  function RecordMatches(x: nat, recs: seq<ImportRecord>, c: Criterion): (r: seq<Match>)
    ensures |r| <= |recs|
    ensures forall m :: m in r <==> m.node == x && m.record in recs && Selects(c, m.record)
  {
    if recs == [] then []
    else
      var last := recs[|recs| - 1];
      RecordMatches(x, recs[..|recs| - 1], c) + (if Selects(c, last) then [Match(x, last)] else [])
  }

  /** The selected records of the visited nodes, node by node in visit order. */
  function MatchesIn(nodes: Arena, visited: seq<nat>, c: Criterion): (r: seq<Match>)
    requires forall k :: 0 <= k < |visited| ==> visited[k] < |nodes|
    ensures forall m :: m in r <==>
      m.node in visited && m.node < |nodes| && m.record in nodes[m.node].imports && Selects(c, m.record)
  {
    if visited == [] then []
    else
      var last := visited[|visited| - 1];
      MatchesIn(nodes, visited[..|visited| - 1], c) + RecordMatches(last, nodes[last].imports, c)
  }

  /** The pairs the generator yields for a scope: over `walk(exclude=...)` of the base node. */
  function Matching(nodes: Arena, q: ModulesAt, c: Criterion): seq<Match>
    requires ValidScope(nodes, q)
  {
    MatchesIn(nodes, Walk(nodes, q.baseNode, q.exclude), c)
  }

  /**
   * `__contains__`: true when the generator yields anything; an operand of
   * another type raises NotImplementedError.
   */
  function Contains(nodes: Arena, q: ModulesAt, op: Operand): (r: Result<bool>)
    requires ValidScope(nodes, q)
    ensures r.Err? <==> op.Unsupported?
    ensures r.Err? ==> r.error == NotImplementedError
  {
    match op
    case OfImport(t) => Ok(Matching(nodes, q, Target(t)) != [])
    case FunctionLevelImport => Ok(Matching(nodes, q, FunctionLevel) != [])
    case Unsupported => Err(NotImplementedError)
  }

  // ---------------------------------------------------------------------------
  // Explanations

  /** One explanation line: what it reports, the module's file path, and the import's line. */
  datatype Line =
    | FoundImport(target: DotPath, filePath: FsPath, lineNo: nat)         // "found import of T in module F:L"
    | NoMatchingImport(filePath: FsPath)                                   // "no matching import in module F"
    | FoundFunctionLevelImport(filePath: FsPath, lineNo: nat)             // "found function level import in module F:L"
    | NoMatchingFunctionLevelImport(filePath: FsPath)                      // "no matching function level import in module F"

  /** The "found" line for an import at `lineNo` of the module file `fp`. */
  function FoundLine(c: Criterion, fp: FsPath, lineNo: nat): Line
  {
    match c
    case Target(t) => FoundImport(t.importPath, fp, lineNo)
    case FunctionLevel => FoundFunctionLevelImport(fp, lineNo)
  }

  /** The "no matching" line for the module file `fp`. */
  function NoMatchLine(functionLevel: bool, fp: FsPath): Line
  {
    if functionLevel then NoMatchingFunctionLevelImport(fp) else NoMatchingImport(fp)
  }

  /** A line per match, citing the module's file and the record's line. */
  function FoundLines(nodes: Arena, ms: seq<Match>, c: Criterion): (r: seq<Line>)
    requires forall k :: 0 <= k < |ms| ==> ms[k].node < |nodes|
    ensures |r| == |ms|
    ensures forall k :: 0 <= k < |r| ==> r[k] == FoundLine(c, nodes[ms[k].node].filePath, ms[k].record.lineNo)
  {
    if ms == [] then []
    else
      var m := ms[|ms| - 1];
      FoundLines(nodes, ms[..|ms| - 1], c) + [FoundLine(c, nodes[m.node].filePath, m.record.lineNo)]
  }

  /** The members of `xs` that `keep` accepts, in their order. */
  function Keep(xs: seq<nat>, keep: nat -> bool): (r: seq<nat>)
    ensures |r| <= |xs|
    ensures forall k :: 0 <= k < |r| ==> r[k] in xs
  {
    if xs == [] then []
    else
      var last := xs[|xs| - 1];
      Keep(xs[..|xs| - 1], keep) + (if keep(last) then [last] else [])
  }

  lemma {:induction false} KeepMember(xs: seq<nat>, keep: nat -> bool, x: nat)
    ensures x in Keep(xs, keep) <==> x in xs && keep(x)
    decreases |xs|
  {
    if xs != [] {
      var prefix := xs[..|xs| - 1];
      KeepMember(prefix, keep, x);
      assert xs == prefix + [xs[|xs| - 1]];
    }
  }

  lemma {:induction false} KeepHead(xs: seq<nat>, keep: nat -> bool)
    requires |xs| > 0 && keep(xs[0])
    ensures |Keep(xs, keep)| > 0 && Keep(xs, keep)[0] == xs[0]
    decreases |xs|
  {
    if |xs| == 1 {
      assert xs[..0] == [];
    } else {
      KeepHead(xs[..|xs| - 1], keep);
    }
  }

  lemma {:induction false} KeepDistinct(xs: seq<nat>, keep: nat -> bool)
    requires Distinct(xs)
    ensures Distinct(Keep(xs, keep))
    decreases |xs|
  {
    if xs != [] {
      var prefix := xs[..|xs| - 1];
      var last := xs[|xs| - 1];
      KeepDistinct(prefix, keep);
      assert last !in prefix;
      KeepMember(prefix, keep, last);
      DistinctConcat(Keep(prefix, keep), if keep(last) then [last] else []);
    }
  }

  /** The test `file_path.suffix == '.py'` on a node of the tree. */
  function BackedByPyFile(nodes: Arena): nat -> bool
  {
    (x: nat) => x < |nodes| && IsPyFile(nodes[x].filePath)
  }

  /** The visited nodes whose file has the `.py` suffix, in visit order. */
  function PyNodes(nodes: Arena, visited: seq<nat>): (r: seq<nat>)
    requires forall k :: 0 <= k < |visited| ==> visited[k] < |nodes|
    ensures |r| <= |visited|
    ensures forall k :: 0 <= k < |r| ==> r[k] < |nodes|
  {
    Keep(visited, BackedByPyFile(nodes))
  }

  /** `PyNodes` keeps exactly the nodes backed by a `.py` file. */
  lemma PyNodesMember(nodes: Arena, visited: seq<nat>, x: nat)
    requires forall k :: 0 <= k < |visited| ==> visited[k] < |nodes|
    ensures x in PyNodes(nodes, visited) <==> x in visited && x < |nodes| && IsPyFile(nodes[x].filePath)
  {
    KeepMember(visited, BackedByPyFile(nodes), x);
  }

  /** A "no matching" line per module file. */
  function NoMatchLines(nodes: Arena, xs: seq<nat>, functionLevel: bool): (r: seq<Line>)
    requires forall k :: 0 <= k < |xs| ==> xs[k] < |nodes|
    ensures |r| == |xs|
    ensures forall k :: 0 <= k < |r| ==> r[k] == NoMatchLine(functionLevel, nodes[xs[k]].filePath)
  {
    if xs == [] then []
    else NoMatchLines(nodes, xs[..|xs| - 1], functionLevel) + [NoMatchLine(functionLevel, nodes[xs[|xs| - 1]].filePath)]
  }

  /** `explain_why_contains_is_true`: one line per matching (node, record) pair. */
  function ExplainTrue(nodes: Arena, q: ModulesAt, t: ImportOf): seq<Line>
    requires ValidScope(nodes, q)
  {
    FoundLines(nodes, Matching(nodes, q, Target(t)), Target(t))
  }

  /** `explain_why_contains_is_false`: one line per walked node backed by a `.py` file. */
  function ExplainFalse(nodes: Arena, q: ModulesAt, t: ImportOf): seq<Line>
    requires ValidScope(nodes, q)
  {
    NoMatchLines(nodes, PyNodes(nodes, Walk(nodes, q.baseNode, q.exclude)), false)
  }

  /** `explain_why_function_level_contains_is_true`. */
  function ExplainFunctionLevelTrue(nodes: Arena, q: ModulesAt): seq<Line>
    requires ValidScope(nodes, q)
  {
    FoundLines(nodes, Matching(nodes, q, FunctionLevel), FunctionLevel)
  }

  /** `explain_why_function_level_contains_is_false`. */
  function ExplainFunctionLevelFalse(nodes: Arena, q: ModulesAt): seq<Line>
    requires ValidScope(nodes, q)
  {
    NoMatchLines(nodes, PyNodes(nodes, Walk(nodes, q.baseNode, q.exclude)), true)
  }

  // ---------------------------------------------------------------------------
  // What a query answers

  /** A query finds something exactly when some walked node holds a selected record. */
  lemma MatchingIff(nodes: Arena, q: ModulesAt, c: Criterion)
    requires ValidScope(nodes, q)
    ensures Matching(nodes, q, c) != [] <==>
      exists x: nat, rec :: x in Walk(nodes, q.baseNode, q.exclude) && x < |nodes| && rec in nodes[x].imports && Selects(c, rec)
  {
    var ms := Matching(nodes, q, c);
    if ms != [] {
      assert ms[0] in ms;
      var x, rec := ms[0].node, ms[0].record;
      assert x in Walk(nodes, q.baseNode, q.exclude) && x < |nodes| && rec in nodes[x].imports && Selects(c, rec);
    }
    if exists x: nat, rec :: x in Walk(nodes, q.baseNode, q.exclude) && x < |nodes| && rec in nodes[x].imports && Selects(c, rec) {
      var x, rec :| x in Walk(nodes, q.baseNode, q.exclude) && x < |nodes| && rec in nodes[x].imports && Selects(c, rec);
      assert Match(x, rec) in ms;
    }
  }

  /**
   * `ImportOf(t) in ModulesAt(n, exclude)`: some module in the walked part
   * of `n`'s subtree has a record `Selects` keeps: an import of `t` or of a
   * path below it, of the requested kind (see `AbsoluteFilter`).
   */
  lemma ContainsImportIff(nodes: Arena, q: ModulesAt, t: ImportOf)
    requires ValidScope(nodes, q)
    ensures Contains(nodes, q, OfImport(t)) == Ok(true) <==>
      exists x: nat, rec :: x in Walk(nodes, q.baseNode, q.exclude) && x < |nodes| && rec in nodes[x].imports &&
        Selects(Target(t), rec)
  {
    MatchingIff(nodes, q, Target(t));
  }

  /** `FunctionLevelImport() in ModulesAt(n, exclude)`: some walked module imports inside a function. */
  lemma ContainsFunctionLevelIff(nodes: Arena, q: ModulesAt)
    requires ValidScope(nodes, q)
    ensures Contains(nodes, q, FunctionLevelImport) == Ok(true) <==>
      exists x: nat, rec :: x in Walk(nodes, q.baseNode, q.exclude) && x < |nodes| && rec in nodes[x].imports && rec.functionImport
  {
    MatchingIff(nodes, q, FunctionLevel);
    var w := Walk(nodes, q.baseNode, q.exclude);
    if exists x: nat, rec :: x in w && x < |nodes| && rec in nodes[x].imports && rec.functionImport {
      var x: nat, rec :| x in w && x < |nodes| && rec in nodes[x].imports && rec.functionImport;
      assert Selects(FunctionLevel, rec);
    }
  }

  /**
   * The same answer in terms of the tree: the module is `n` or below it,
   * and no exclude path, read from `n`, leads to it or to one of its ancestors.
   */
  lemma ContainsInSubtree(nodes: Arena, parent: seq<nat>, q: ModulesAt, c: Criterion)
    requires TreeShaped(nodes, parent) && 1 <= q.baseNode < |nodes|
    ensures Matching(nodes, q, c) != [] <==>
      exists x: nat, rec :: x < |nodes| && Desc(parent, x, q.baseNode) && !Excluded(nodes, parent, q.baseNode, x, q.exclude) &&
        rec in nodes[x].imports && Selects(c, rec)
  {
    MatchingIff(nodes, q, c);
    forall x: nat | x < |nodes|
      ensures x in Walk(nodes, q.baseNode, q.exclude) <==>
        Desc(parent, x, q.baseNode) && !Excluded(nodes, parent, q.baseNode, x, q.exclude)
    {
      WalkIff(nodes, parent, q.baseNode, q.exclude, x);
    }
  }

  /** With no exclusion, the query ranges over the whole subtree of `n`, `n` included. */
  lemma ContainsWholeSubtree(nodes: Arena, parent: seq<nat>, n: nat, c: Criterion)
    requires TreeShaped(nodes, parent) && 1 <= n < |nodes|
    ensures Matching(nodes, MakeModulesAt(n, None), c) != [] <==>
      exists x: nat, rec :: x < |nodes| && Desc(parent, x, n) && rec in nodes[x].imports && Selects(c, rec)
  {
    var q := MakeModulesAt(n, None);
    MatchingIff(nodes, q, c);
    forall x: nat | x < |nodes|
      ensures x in Walk(nodes, n, []) <==> Desc(parent, x, n)
    {
      WalkAll(nodes, parent, n, x);
    }
  }

  /** Exclude paths that name no module below `n` change nothing. */
  lemma ContainsIgnoresMissingExcludes(nodes: Arena, q: ModulesAt, op: Operand)
    requires ValidScope(nodes, q)
    requires forall e :: e in q.exclude ==> e.parts == [] || Get(nodes, q.baseNode, e).None?
    ensures Contains(nodes, q, op) == Contains(nodes, ModulesAt(q.baseNode, []), op)
  {
    WalkIgnoresMissingExcludes(nodes, q.baseNode, q.exclude);
  }

  /** Excluding a child of the base node by its name hides every module at or below it, whatever is asked. */
  lemma ExcludedChildHidden(nodes: Arena, parent: seq<nat>, q: ModulesAt, k: nat, x: nat, c: Criterion)
    requires TreeShaped(nodes, parent) && 1 <= q.baseNode < |nodes| && k < |nodes[q.baseNode].children|
    requires DotPath([nodes[nodes[q.baseNode].children[k]].name]) in q.exclude
    requires x < |nodes| && Desc(parent, x, nodes[q.baseNode].children[k])
    ensures x !in Walk(nodes, q.baseNode, q.exclude)
    ensures forall m :: m in Matching(nodes, q, c) ==> m.node != x
  {
    var n := q.baseNode;
    var child := nodes[n].children[k];
    var e := DotPath([nodes[child].name]);
    ChildPath(nodes, parent, n, k);
    DescPathPrefix(nodes, parent, x, child);
    assert IsRelativeTo(PathOf(nodes, parent, x), Div(PathOf(nodes, parent, n), e));
    assert Excluded(nodes, parent, n, x, q.exclude);
    WalkIff(nodes, parent, n, q.exclude, x);
  }

  /** An `absolute` filter keeps exactly the imports of that kind: absolute ones have level 0. */
  lemma AbsoluteFilter(p: DotPath, rec: ImportRecord)
    ensures Selects(Target(ImportOf(p, Some(true))), rec) <==> IsRelativeTo(rec.importPath, p) && rec.level == 0
    ensures Selects(Target(ImportOf(p, Some(false))), rec) <==> IsRelativeTo(rec.importPath, p) && rec.level > 0
    ensures Selects(Target(ImportOf(p, None)), rec) <==>
      Selects(Target(ImportOf(p, Some(true))), rec) || Selects(Target(ImportOf(p, Some(false))), rec)
  {
  }

  /** Without `absolute`, a query holds exactly when its absolute or its relative variant holds. */
  lemma ContainsAbsoluteSplit(nodes: Arena, q: ModulesAt, p: DotPath)
    requires ValidScope(nodes, q)
    ensures Contains(nodes, q, OfImport(ImportOf(p, None))) == Ok(true) <==>
      Contains(nodes, q, OfImport(ImportOf(p, Some(true)))) == Ok(true) ||
      Contains(nodes, q, OfImport(ImportOf(p, Some(false)))) == Ok(true)
  {
    var any, abs, rel := Target(ImportOf(p, None)), Target(ImportOf(p, Some(true))), Target(ImportOf(p, Some(false)));
    MatchingIff(nodes, q, any);
    MatchingIff(nodes, q, abs);
    MatchingIff(nodes, q, rel);
    if Matching(nodes, q, any) != [] {
      var x, rec :| x in Walk(nodes, q.baseNode, q.exclude) && x < |nodes| && rec in nodes[x].imports && Selects(any, rec);
      if rec.level == 0 {
        assert Selects(abs, rec);
      } else {
        assert Selects(rel, rec);
      }
    }
    if Matching(nodes, q, abs) != [] {
      var x, rec :| x in Walk(nodes, q.baseNode, q.exclude) && x < |nodes| && rec in nodes[x].imports && Selects(abs, rec);
      assert Selects(any, rec);
    }
    if Matching(nodes, q, rel) != [] {
      var x, rec :| x in Walk(nodes, q.baseNode, q.exclude) && x < |nodes| && rec in nodes[x].imports && Selects(rel, rec);
      assert Selects(any, rec);
    }
  }

  /** Sub-path asymmetry: a target covers imports at or below it, never its parent or a sibling. */
  lemma SubPathAsymmetry(rec: ImportRecord)
    ensures rec.importPath == DotPath(["a", "b", "c"]) ==> Selects(Target(ImportOf(DotPath(["a", "b"]), None)), rec)
    ensures rec.importPath == DotPath(["a", "b"]) ==> Selects(Target(ImportOf(DotPath(["a", "b"]), None)), rec)
    ensures rec.importPath == DotPath(["a"]) ==> !Selects(Target(ImportOf(DotPath(["a", "b"]), None)), rec)
    ensures rec.importPath == DotPath(["a", "x"]) ==> !Selects(Target(ImportOf(DotPath(["a", "b"]), None)), rec)
  {
    if rec.importPath == DotPath(["a", "b", "c"]) {
      assert rec.importPath.parts[..2] == ["a", "b"];
    }
    if rec.importPath == DotPath(["a", "x"]) {
      assert rec.importPath.parts[..2] == ["a", "x"];
    }
  }

  // ---------------------------------------------------------------------------
  // What the explanations say

  /** The lines of a match list are the lines of its members. */
  lemma FoundLinesMember(nodes: Arena, ms: seq<Match>, c: Criterion, l: Line)
    requires forall k :: 0 <= k < |ms| ==> ms[k].node < |nodes|
    ensures l in FoundLines(nodes, ms, c) <==>
      exists m :: m in ms && m.node < |nodes| && l == FoundLine(c, nodes[m.node].filePath, m.record.lineNo)
  {
    var lines := FoundLines(nodes, ms, c);
    if l in lines {
      var k :| 0 <= k < |lines| && lines[k] == l;
      assert ms[k] in ms;
    }
    if exists m :: m in ms && m.node < |nodes| && l == FoundLine(c, nodes[m.node].filePath, m.record.lineNo) {
      var m :| m in ms && m.node < |nodes| && l == FoundLine(c, nodes[m.node].filePath, m.record.lineNo);
      var k :| 0 <= k < |ms| && ms[k] == m;
      assert lines[k] == l;
    }
  }

  /** A "found" line is there exactly for a selected record of a walked module. */
  lemma FoundLineIff(nodes: Arena, q: ModulesAt, c: Criterion, l: Line)
    requires ValidScope(nodes, q)
    ensures l in FoundLines(nodes, Matching(nodes, q, c), c) <==>
      exists x: nat, rec :: x in Walk(nodes, q.baseNode, q.exclude) && x < |nodes| && rec in nodes[x].imports &&
        Selects(c, rec) && l == FoundLine(c, nodes[x].filePath, rec.lineNo)
  {
    FoundLinesMember(nodes, Matching(nodes, q, c), c, l);
    if l in FoundLines(nodes, Matching(nodes, q, c), c) {
      FoundLineSound(nodes, q, c, l);
    }
    if exists x: nat, rec :: x in Walk(nodes, q.baseNode, q.exclude) && x < |nodes| && rec in nodes[x].imports &&
        Selects(c, rec) && l == FoundLine(c, nodes[x].filePath, rec.lineNo) {
      var x: nat, rec :| x in Walk(nodes, q.baseNode, q.exclude) && x < |nodes| && rec in nodes[x].imports &&
        Selects(c, rec) && l == FoundLine(c, nodes[x].filePath, rec.lineNo);
      FoundLineComplete(nodes, q, c, x, rec);
    }
  }

  lemma FoundLineSound(nodes: Arena, q: ModulesAt, c: Criterion, l: Line)
    requires ValidScope(nodes, q)
    requires exists m :: m in Matching(nodes, q, c) && m.node < |nodes| && l == FoundLine(c, nodes[m.node].filePath, m.record.lineNo)
    ensures exists x: nat, rec ::
      x in Walk(nodes, q.baseNode, q.exclude) && x < |nodes| && rec in nodes[x].imports &&
      Selects(c, rec) && l == FoundLine(c, nodes[x].filePath, rec.lineNo)
  {
    var m :| m in Matching(nodes, q, c) && m.node < |nodes| && l == FoundLine(c, nodes[m.node].filePath, m.record.lineNo);
    var x: nat, rec := m.node, m.record;
    assert x in Walk(nodes, q.baseNode, q.exclude) && rec in nodes[x].imports && Selects(c, rec);
  }

  lemma FoundLineComplete(nodes: Arena, q: ModulesAt, c: Criterion, x: nat, rec: ImportRecord)
    requires ValidScope(nodes, q)
    requires x in Walk(nodes, q.baseNode, q.exclude) && x < |nodes| && rec in nodes[x].imports && Selects(c, rec)
    ensures FoundLine(c, nodes[x].filePath, rec.lineNo) in FoundLines(nodes, Matching(nodes, q, c), c)
  {
    var ms := Matching(nodes, q, c);
    assert Match(x, rec) in ms;
    FoundLinesMember(nodes, ms, c, FoundLine(c, nodes[x].filePath, rec.lineNo));
  }

  /**
   * `explain_why_contains_is_true` has a line exactly when the query holds:
   * one per matching import, citing the target, the module file and the line.
   */
  lemma ExplainTrueLines(nodes: Arena, q: ModulesAt, t: ImportOf)
    requires ValidScope(nodes, q)
    ensures |ExplainTrue(nodes, q, t)| == |Matching(nodes, q, Target(t))|
    ensures ExplainTrue(nodes, q, t) != [] <==> Contains(nodes, q, OfImport(t)) == Ok(true)
    ensures forall l :: l in ExplainTrue(nodes, q, t) <==>
      exists x: nat, rec :: x in Walk(nodes, q.baseNode, q.exclude) && x < |nodes| && rec in nodes[x].imports &&
        Selects(Target(t), rec) && l == FoundImport(t.importPath, nodes[x].filePath, rec.lineNo)
  {
    forall l
      ensures l in ExplainTrue(nodes, q, t) <==>
        exists x: nat, rec :: x in Walk(nodes, q.baseNode, q.exclude) && x < |nodes| && rec in nodes[x].imports &&
          Selects(Target(t), rec) && l == FoundImport(t.importPath, nodes[x].filePath, rec.lineNo)
    {
      FoundLineIff(nodes, q, Target(t), l);
    }
  }

  /** The function-level "found" lines likewise cite exactly the walked imports made inside functions. */
  lemma ExplainFunctionLevelTrueLines(nodes: Arena, q: ModulesAt)
    requires ValidScope(nodes, q)
    ensures ExplainFunctionLevelTrue(nodes, q) != [] <==> Contains(nodes, q, FunctionLevelImport) == Ok(true)
    ensures forall l :: l in ExplainFunctionLevelTrue(nodes, q) <==>
      exists x: nat, rec :: x in Walk(nodes, q.baseNode, q.exclude) && x < |nodes| && rec in nodes[x].imports &&
        rec.functionImport && l == FoundFunctionLevelImport(nodes[x].filePath, rec.lineNo)
  {
    forall l
      ensures l in ExplainFunctionLevelTrue(nodes, q) <==>
        exists x: nat, rec :: x in Walk(nodes, q.baseNode, q.exclude) && x < |nodes| && rec in nodes[x].imports &&
          rec.functionImport && l == FoundFunctionLevelImport(nodes[x].filePath, rec.lineNo)
    {
      FoundLineIff(nodes, q, FunctionLevel, l);
      var w := Walk(nodes, q.baseNode, q.exclude);
      if exists x: nat, rec :: x in w && x < |nodes| && rec in nodes[x].imports &&
          Selects(FunctionLevel, rec) && l == FoundLine(FunctionLevel, nodes[x].filePath, rec.lineNo) {
        var x: nat, rec :| x in w && x < |nodes| && rec in nodes[x].imports &&
          Selects(FunctionLevel, rec) && l == FoundLine(FunctionLevel, nodes[x].filePath, rec.lineNo);
        assert rec.functionImport && l == FoundFunctionLevelImport(nodes[x].filePath, rec.lineNo);
      }
      if exists x: nat, rec :: x in w && x < |nodes| && rec in nodes[x].imports &&
          rec.functionImport && l == FoundFunctionLevelImport(nodes[x].filePath, rec.lineNo) {
        var x: nat, rec :| x in w && x < |nodes| && rec in nodes[x].imports &&
          rec.functionImport && l == FoundFunctionLevelImport(nodes[x].filePath, rec.lineNo);
        assert Selects(FunctionLevel, rec) && l == FoundLine(FunctionLevel, nodes[x].filePath, rec.lineNo);
      }
    }
  }

  /** The "no matching" lines of a node list are the lines of its members. */
  lemma NoMatchLinesMember(nodes: Arena, xs: seq<nat>, functionLevel: bool, l: Line)
    requires forall k :: 0 <= k < |xs| ==> xs[k] < |nodes|
    ensures l in NoMatchLines(nodes, xs, functionLevel) <==>
      exists x: nat :: x in xs && x < |nodes| && l == NoMatchLine(functionLevel, nodes[x].filePath)
  {
    var lines := NoMatchLines(nodes, xs, functionLevel);
    if l in lines {
      var k :| 0 <= k < |lines| && lines[k] == l;
      assert xs[k] in xs;
    }
    if exists x: nat :: x in xs && x < |nodes| && l == NoMatchLine(functionLevel, nodes[x].filePath) {
      var x: nat :| x in xs && x < |nodes| && l == NoMatchLine(functionLevel, nodes[x].filePath);
      var k :| 0 <= k < |xs| && xs[k] == x;
      assert lines[k] == l;
    }
  }

  /**
   * `explain_why_contains_is_false` (and its function-level twin): a
   * "no matching" line exactly for each walked node backed by a `.py` file.
   */
  lemma ExplainFalseLines(nodes: Arena, q: ModulesAt, t: ImportOf, functionLevel: bool, l: Line)
    requires ValidScope(nodes, q)
    ensures l in (if functionLevel then ExplainFunctionLevelFalse(nodes, q) else ExplainFalse(nodes, q, t)) <==>
      exists x: nat :: x in Walk(nodes, q.baseNode, q.exclude) && x < |nodes| && IsPyFile(nodes[x].filePath) &&
        l == NoMatchLine(functionLevel, nodes[x].filePath)
  {
    var w := Walk(nodes, q.baseNode, q.exclude);
    var xs := PyNodes(nodes, w);
    NoMatchLinesMember(nodes, xs, functionLevel, l);
    if exists x: nat :: x in xs && x < |nodes| && l == NoMatchLine(functionLevel, nodes[x].filePath) {
      var x: nat :| x in xs && x < |nodes| && l == NoMatchLine(functionLevel, nodes[x].filePath);
      PyNodesMember(nodes, w, x);
    }
    if exists x: nat :: x in w && x < |nodes| && IsPyFile(nodes[x].filePath) && l == NoMatchLine(functionLevel, nodes[x].filePath) {
      var x: nat :| x in w && x < |nodes| && IsPyFile(nodes[x].filePath) && l == NoMatchLine(functionLevel, nodes[x].filePath);
      PyNodesMember(nodes, w, x);
    }
  }

  /** A base node backed by a file (a module, or a package with `__init__.py`) is explained first. */
  lemma ExplainFalseBaseFirst(nodes: Arena, q: ModulesAt, t: ImportOf)
    requires ValidScope(nodes, q)
    requires IsPyFile(nodes[q.baseNode].filePath)
    ensures |ExplainFalse(nodes, q, t)| > 0
    ensures ExplainFalse(nodes, q, t)[0] == NoMatchingImport(nodes[q.baseNode].filePath)
  {
    KeepHead(Walk(nodes, q.baseNode, q.exclude), BackedByPyFile(nodes));
  }

  /** On a tree, no module file is explained twice. */
  lemma ExplainFalseDistinct(nodes: Arena, parent: seq<nat>, q: ModulesAt)
    requires TreeShaped(nodes, parent) && 1 <= q.baseNode < |nodes|
    ensures Distinct(PyNodes(nodes, Walk(nodes, q.baseNode, q.exclude)))
  {
    WalkDistinct(nodes, parent, q.baseNode, q.exclude);
    KeepDistinct(Walk(nodes, q.baseNode, q.exclude), BackedByPyFile(nodes));
  }
}
