/**
 * testutil.py: an earlier copy of the containment check, with its own
 * `Import` operand. Its prefix test `startswith` is the same test as
 * `is_relative_to`, so the collection itself is the one of
 * `Assertion.PackageContains`; what it adds is the guard that the operand
 * really is an `Import`.
 */
module TestUtil {
  import opened Wrappers
  import opened DotPaths
  import opened ModuleTree
  import Assertion
  import Query

  /** `Import(path)`: all explicit imports of `path` and of what lies below it. */
  datatype Import = Import(importPath: DotPath)

  /** The right operand of `in`: an `Import`, or a value of any other type. */
  datatype Operand = OfImport(i: Import) | NotAnImport

  /** `Import.__init__`: the path string is split on its dots. */
  function MakeImport(path: string): (r: Import)
    ensures ToString(r.importPath) == path
    ensures forall k :: 0 <= k < |r.importPath.parts| ==> Dot !in r.importPath.parts[k]
    ensures path == "" <==> r.importPath.parts == []
  {
    Import(Assertion.FromStrPath(path).importPath)
  }

  /**
   * `Package.__contains__`: fails its `isinstance` assertion unless the
   * operand is an `Import`; otherwise true exactly when some walked record
   * has a path starting with the target's.
   */
  method PackageContains(tree: Tree, base: nat, op: Operand) returns (r: Result<bool>)
    requires tree.Valid() && 1 <= base < |tree.nodes|
    ensures r.Err? <==> op.NotAnImport?
    ensures r.Err? ==> r.error == AssertionError
    ensures r.Ok? ==> (r.value <==>
      exists x: nat, rec :: x in Walk(tree.nodes, base, []) && x < |tree.nodes| && rec in tree.nodes[x].imports &&
        IsRelativeTo(rec.importPath, op.i.importPath))
  {
    if op.NotAnImport? {
      return Err(AssertionError);
    }
    var found := Assertion.PackageContains(tree, base, Assertion.ImportOf(op.i.importPath));
    r := Ok(found);
  }

  /** The documented asymmetry: `Import("a.b")` covers an import of `a.b.c` but not one of `a`. */
  lemma StartsWithExample(p: DotPath)
    ensures p == Parse("a.b.c") ==> IsRelativeTo(p, MakeImport("a.b").importPath)
    ensures p == Parse("a") ==> !IsRelativeTo(p, MakeImport("a.b").importPath)
  {
    var rec := ImportRecord(p, 0, 0, false);
    Assertion.DocumentedExample(rec);
  }
}
