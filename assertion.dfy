/**
 * The older containment check of assertion.py: `ImportOf(t) in Package(n)`
 * collects, walking `n`'s subtree, every import record whose path lies at
 * or below `t`, and holds when it collected any. There is no exclusion and
 * no absolute/relative filter.
 */
module Assertion {
  import opened Wrappers
  import opened DotPaths
  import opened ModuleTree
  import Query

  /**
   * Stands for all explicit imports of its path and of anything below it:
   * `a.b` covers imports of `a.b.c`, but not an import of just `a`.
   */
  datatype ImportOf = ImportOf(importPath: DotPath)

  /** `ImportOf.from_str_path`: the path whose dotted form is `s`, split on every dot. */
  function FromStrPath(s: string): (r: ImportOf)
    ensures ToString(r.importPath) == s
    ensures forall k :: 0 <= k < |r.importPath.parts| ==> Dot !in r.importPath.parts[k]
    ensures s == "" <==> r.importPath.parts == []
  {
    ImportOf(Parse(s))
  }

  /** The record filter of `add_matching_imports`, as a criterion of the newer query engine. */
  function Criterion(target: ImportOf): Query.Criterion
  {
    Query.Target(Query.ImportOf(target.importPath, None))
  }

  /** The records of a list of matches, in order. */
  function RecordsOf(ms: seq<Query.Match>): (r: seq<ImportRecord>)
    ensures |r| == |ms|
    ensures forall k :: 0 <= k < |ms| ==> r[k] == ms[k].record
  {
    if ms == [] then [] else RecordsOf(ms[..|ms| - 1]) + [ms[|ms| - 1].record]
  }

  lemma {:induction false} RecordsOfConcat(a: seq<Query.Match>, b: seq<Query.Match>)
    ensures RecordsOf(a + b) == RecordsOf(a) + RecordsOf(b)
  {
    assert |RecordsOf(a + b)| == |RecordsOf(a) + RecordsOf(b)|;
    forall k | 0 <= k < |a + b|
      ensures RecordsOf(a + b)[k] == (RecordsOf(a) + RecordsOf(b))[k]
    {
      if k >= |a| {
        assert (a + b)[k] == b[k - |a|];
      }
    }
  }

  /**
   * `add_matching_imports`: appends, in order, the node's records whose
   * path is relative to the target.
   */
  method AddMatchingImports(x: nat, imports: seq<ImportRecord>, target: ImportOf, matching: seq<ImportRecord>)
    returns (r: seq<ImportRecord>)
    ensures r == matching + RecordsOf(Query.RecordMatches(x, imports, Criterion(target)))
  {
    r := matching;
    var j := 0;
    while j < |imports|
      invariant 0 <= j <= |imports|
      invariant r == matching + RecordsOf(Query.RecordMatches(x, imports[..j], Criterion(target)))
    {
      var rec := imports[j];
      AppendStep(x, imports, j, target, matching);
      if IsRelativeTo(rec.importPath, target.importPath) {
        r := r + [rec];
      }
      j := j + 1;
    }
    assert imports[..j] == imports;
  }

  /** One record further: the collected list grows by that record exactly when it lies under the target. */
  lemma AppendStep(x: nat, imports: seq<ImportRecord>, j: nat, target: ImportOf, matching: seq<ImportRecord>)
    requires j < |imports|
    ensures matching + RecordsOf(Query.RecordMatches(x, imports[..j + 1], Criterion(target))) ==
      (matching + RecordsOf(Query.RecordMatches(x, imports[..j], Criterion(target))))
      + (if IsRelativeTo(imports[j].importPath, target.importPath) then [imports[j]] else [])
  {
    var c := Criterion(target);
    var before := Query.RecordMatches(x, imports[..j], c);
    assert imports[..j + 1][..j] == imports[..j];
    var step := if Query.Selects(c, imports[j]) then [Query.Match(x, imports[j])] else [];
    assert Query.RecordMatches(x, imports[..j + 1], c) == before + step;
    RecordsOfConcat(before, step);
    assert RecordsOf(step) == (if IsRelativeTo(imports[j].importPath, target.importPath) then [imports[j]] else []);
  }

  /**
   * `Package.__contains__`: walks the subtree of `base` and collects every
   * record whose path is relative to the target; true when any was collected.
   * It only reads the tree.
   */
  method PackageContains(tree: Tree, base: nat, target: ImportOf) returns (found: bool)
    requires tree.Valid() && 1 <= base < |tree.nodes|
    ensures found <==>
      exists x: nat, rec :: x in Walk(tree.nodes, base, []) && x < |tree.nodes| && rec in tree.nodes[x].imports &&
        IsRelativeTo(rec.importPath, target.importPath)
    ensures found <==> Query.Contains(tree.nodes, Query.ModulesAt(base, []), Query.OfImport(Query.ImportOf(target.importPath, None))) == Ok(true)
  {
    var nodes := tree.nodes;
    var visited := tree.WalkNodes(base, []);
    var matching: seq<ImportRecord> := [];
    var k := 0;
    while k < |visited|
      invariant 0 <= k <= |visited|
      invariant matching == RecordsOf(Query.MatchesIn(nodes, visited[..k], Criterion(target)))
    {
      var x := visited[k];
      CollectStep(nodes, visited, k, target);
      matching := AddMatchingImports(x, nodes[x].imports, target, matching);
      k := k + 1;
    }
    assert visited[..k] == visited;
    found := |matching| > 0;
    CollectedIff(nodes, base, target);
  }

  /** One node further: the collected list grows by that node's matching records. */
  lemma CollectStep(nodes: Arena, visited: seq<nat>, k: nat, target: ImportOf)
    requires forall i :: 0 <= i < |visited| ==> visited[i] < |nodes|
    requires k < |visited|
    ensures RecordsOf(Query.MatchesIn(nodes, visited[..k + 1], Criterion(target))) ==
      RecordsOf(Query.MatchesIn(nodes, visited[..k], Criterion(target)))
      + RecordsOf(Query.RecordMatches(visited[k], nodes[visited[k]].imports, Criterion(target)))
  {
    var c := Criterion(target);
    assert visited[..k + 1][..k] == visited[..k];
    RecordsOfConcat(Query.MatchesIn(nodes, visited[..k], c), Query.RecordMatches(visited[k], nodes[visited[k]].imports, c));
  }

  /** Collecting over the whole walk finds something exactly when some walked record lies under the target. */
  lemma CollectedIff(nodes: Arena, base: nat, target: ImportOf)
    requires WellFormed(nodes) && 1 <= base < |nodes|
    ensures Query.MatchesIn(nodes, Walk(nodes, base, []), Criterion(target)) != [] <==>
      exists x: nat, rec :: x in Walk(nodes, base, []) && x < |nodes| && rec in nodes[x].imports &&
        IsRelativeTo(rec.importPath, target.importPath)
    ensures Query.MatchesIn(nodes, Walk(nodes, base, []), Criterion(target)) != [] <==>
      Query.Contains(nodes, Query.ModulesAt(base, []), Query.OfImport(Query.ImportOf(target.importPath, None))) == Ok(true)
  {
    var c := Criterion(target);
    var w := Walk(nodes, base, []);
    Query.MatchingIff(nodes, Query.ModulesAt(base, []), c);
    if exists x: nat, rec :: x in w && x < |nodes| && rec in nodes[x].imports && IsRelativeTo(rec.importPath, target.importPath) {
      var x: nat, rec :| x in w && x < |nodes| && rec in nodes[x].imports && IsRelativeTo(rec.importPath, target.importPath);
      assert Query.Selects(c, rec);
    }
  }

  /** Sub-path asymmetry, as the class documents it: target `a.b` covers `a.b.c` and not `a`. */
  lemma DocumentedExample(rec: ImportRecord)
    ensures rec.importPath == Parse("a.b.c") ==> Query.Selects(Criterion(FromStrPath("a.b")), rec)
    ensures rec.importPath == Parse("a") ==> !Query.Selects(Criterion(FromStrPath("a.b")), rec)
  {
    SplitNoSep("a", Dot);
    SplitNoSep("b", Dot);
    SplitNoSep("c", Dot);
    assert "a.b"[2..] == "b" && "a.b.c"[2..] == "b.c" && "b.c"[2..] == "c";
    Query.SubPathAsymmetry(rec);
  }
}
