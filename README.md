# pytest-arch import model, in Dafny

pytest-arch lets a test suite state architecture rules such as "nothing in
package `a` imports `b`". It works in two steps:

1. It parses every Python file below a base directory and builds a tree of
   module nodes. Each node has a name, a file path, the imports declared in
   that module, and its children.
2. It answers queries over a subtree: does some module here import `x` or
   anything below `x`? Is there a function-level import? Which lines
   explain the answer?

This project models that core and proves what it computes.

- `DotPaths` (`dotpaths.dfy`): the dotted path `DotPath`.
  - It is built from a string, from segments, from another path or from a
    file path.
  - It has `is_relative_to`, `name`, `parent`, `str` and `/`.
  - Round trips and the algebra of `/` are proved.
- `FilePaths` (`filepaths.dfy`): the few `pathlib` operations the core uses,
  on paths given as sequences of parts: `name`, `suffix`, dropping parts, and
  the hidden-part test.
- `ModuleTree` (`moduletree.dfy`): `ImportInModule`, `RootNode` and
  `ModuleNode`.
  - The tree is a class `Tree` holding an arena of nodes. Its methods follow
    the source's in-place updates: `get_or_add`, `add_imports`,
    `add_data_for_init_file` and `walk`.
  - The lookups `get` and `walk(exclude)` are functions of the arena, with
    soundness and completeness proved against the tree's ancestry and full
    paths.
- `Parser` (`parser.dfy`): import extraction and `build_import_model`.
  - Python's `ast` is replaced by a statement datatype. The file scan is
    replaced by the sequence of files it yields.
  - The build loop is proved to describe the tree it builds. Every scanned
    unit has a node, and every node lies on the way to a scanned unit.
    Every node holds exactly the records of the units at its path, in scan
    order.
  - Every node's file path is the one given by the `get_or_add` that created
    it, with `__init__.py` added by `add_data_for_init_file` when an
    initializer with statements lies there. The order of a node's children
    is not stated.
  - The build succeeds exactly when no unit fails, and otherwise reports the
    error of the first unit that does. `ScanFailure` states, without
    reference to the tree, when a unit fails and with which error.
- `Query` (`query.dfy`): `ImportOf`, `FunctionLevelImport` and `ModulesAt`,
  meaning membership (`in`) and the four `explain_why_*` methods.
  - Explanation lines are structured values: the kind of line, the file path
    and the line number.
- `Assertion` (`assertion.dfy`) and `TestUtil` (`testutil.dfy`): the older
  `ImportOf`/`Import` and `Package.__contains__`.
  - Their imperative collect loops are proved equal to the `Query`
    membership test with no exclusions.

`Wrappers` (`wrappers.dfy`) holds `Option`, `Result` and the Python
exceptions the core raises. A raised exception is an `Err` result.

### Where the files disagree

The source files come from different stages of the project. The model
chooses one consistent version:

- **Fields of `ImportInModule`.** `model.py` gives `ImportInModule` only a
  path and a line. `query.py` and the tests also read `level` and
  `function_import`, so `ImportRecord` carries all four.
- **`walk`.** `model.py` has only `walk(func)`. The query code and
  `test/unit/model/test_node.py` use `walk(exclude=...)`, which returns the
  nodes in pre-order.
  - `Walk` models that form.
  - An exclude path is read from the node walked. A path that names nothing
    has no effect, and neither has the empty path.
- **Relative imports.** `parser.py` records `import x.y` as one segment and
  does not resolve relative imports. The tests expect `x.y` as two segments
  and a relative import resolved against the unit's own path, minus `level`
  segments.
  - If the import reaches above the top, one warning is logged and nothing
    is recorded.
  - The model follows the tests.
  - An absent module (`from . import x`) contributes no segment.
- **Function-level imports.** `parser.py` never marks an import as
  function-level, but `query.py` filters on the flag. The model marks every
  import found in a function body, whether the function is at module level
  or nested in other function bodies.
- **Empty module body.** `parser.py:13-14` skips a module with an empty body
  before creating its node. `test/integration/test_parser.py:167-177` expects
  the node to exist with no imports. The model creates the node without
  imports. The exception is an empty `__init__.py` directly under the base:
  its node path is empty, and the model skips it as `parser.py:13-14` does.
- **`__init__.py` and file paths.** `parser.py:15` calls `get_or_add` with
  the node path alone, although `model.py:95` also requires a file path.
  `parser.py:17` extends `node.imports` directly and never calls
  `add_data_for_init_file`.
  - The model's build step is a reconstruction from `model.py:95-113`,
    `model.py:139-145` and the file paths that
    `test/integration/test_parser.py:140-148` expects.
  - It passes the unit's file path to `get_or_add`. A unit whose file is an
    `__init__.py` adds its imports through `add_data_for_init_file`, as
    `test/unit/test_query.py:56-66` also expects.
  - An `__init__.py` with statements directly under the base has the empty
    node path, which the root holder refuses with `KeyError`.
- **A repeated unit.** `assert not node.imports` becomes an `AssertionError`
  result.
- **`testutil.py`.** `testutil.py` calls `startswith` on a `DotPath`, which
  `DotPath` does not define. It is modelled by `is_relative_to`, which is what
  the documentation above it describes.

## Model

| member | source | states |
|---|---|---|
| DotPaths.Split | src/pyarch/model.py:19 | `str.split('.')` yields at least one segment, and no segment contains a dot |
| DotPaths.JoinSplit | src/pyarch/model.py:55-56 | joining the segments of a split string with dots gives the string back |
| DotPaths.SplitJoin | src/pyarch/model.py:55-56 | splitting a dot-join of dot-free segments gives the segments back |
| DotPaths.Parse | src/pyarch/model.py:16-19 | the empty string is the empty path; otherwise the segments join back to the string and none contains a dot |
| DotPaths.Make | src/pyarch/model.py:14-23 | the constructor on each kind of argument: a string gives a path whose `str` is that string, segments are kept as given, a `DotPath` is copied, nothing gives the empty path |
| DotPaths.ParseToString | src/pyarch/model.py:55-56 | `DotPath(str(p)) == p` for every path with dot-free segments other than the single empty segment |
| DotPaths.EmptySegmentLost | src/pyarch/model.py:16-19 | the one-empty-segment path prints as '' and reads back as the empty path, so the round trip above needs its exception |
| DotPaths.ParseKeepsEmptySegments | test/unit/test_model.py:8-24 | `'ab..cd'` reads as `('ab', '', 'cd')` |
| DotPaths.RemoveSuffix | src/pyarch/model.py:33 | `removesuffix`: the suffix is cut exactly when the string ends with it, otherwise nothing changes |
| DotPaths.FromPath | src/pyarch/model.py:26-34 | the empty path gives the empty dotted path; a final `__init__.py` is dropped; otherwise all parts are kept with `.py` removed from the last |
| DotPaths.FromPathModule | src/pyarch/model.py:30-33 | `dir/m.py` reads as `dir.m` |
| DotPaths.FromPathInit | src/pyarch/model.py:30-31 | `dir/__init__.py` reads as `dir` |
| DotPaths.FromPathKeepsDots | test/unit/test_model.py:35 | a directory part containing a dot stays one segment |
| DotPaths.IsRelativeToIff | src/pyarch/model.py:36-41 | `p.is_relative_to(o)` holds iff `p`'s parts are `o`'s parts followed by more |
| DotPaths.IsRelativeToBasics | test/unit/test_model.py:42-56 | every path is relative to itself and to the empty path; the empty path is relative only to the empty path |
| DotPaths.IsRelativeToLonger | src/pyarch/model.py:37-38 | a path is never relative to a longer one |
| DotPaths.IsRelativeToOrder | src/pyarch/model.py:36-41 | `is_relative_to` is transitive and antisymmetric: a partial order |
| DotPaths.Parent | src/pyarch/model.py:51-53 | the parent drops exactly one segment (none from the empty path), and the path is relative to its parent |
| DotPaths.Name | src/pyarch/model.py:47-49 | the name is the last segment; the empty path raises `IndexError` and only it does |
| DotPaths.Div | src/pyarch/model.py:66-67 | `p / q` extends `p` by exactly `q`'s segments |
| DotPaths.DivStr | src/pyarch/model.py:66-67 | `p / s` extends `p` by the segments `s` reads as |
| DotPaths.RDivStr | src/pyarch/model.py:69-70 | `s / p` is the path `s` reads as, extended by `p` |
| DotPaths.ParentNameDiv | src/pyarch/model.py:47-53 | a non-empty path is its parent divided by its name |
| DotPaths.DivParentName | src/pyarch/model.py:47-53 | the parent and name of `p / s` are `p` and `s`: the inverse of the row above |
| DotPaths.DivMonoid | src/pyarch/model.py:66-67 | `/` is associative with the empty path as identity on both sides |
| DotPaths.DivExamples | test/unit/test_model.py:93-96 | `a.b / c == a.b.c`, `a / 'b' == a.b`, `'a' / b == a.b` |
| FilePaths.FileName | src/pyarch/model.py:142 | `Path.name` is the last part, or '' for the empty path |
| FilePaths.LastIndexOf | src/pyarch/model.py:143 | the last position of a character in a name, with no later occurrence, or -1 when it is absent (the basis of `suffix`) |
| FilePaths.PySuffixIff | src/pyarch/query.py:76 | `suffix == '.py'` exactly for names ending in `.py` after at least one other character |
| FilePaths.DropLast | src/pyarch/model.py:106-108 | `Path(*parts[:-n])` keeps a prefix: the parts without the last `n`, or none when `n` exceeds the length |
| ModuleTree.ChildPos | src/pyarch/model.py:86 | `_children.get(name)` finds a child exactly when one has that name |
| ModuleTree.ChildPosUnique | src/pyarch/model.py:112 | children are keyed by name: the lookup of a child's name finds that very child |
| ModuleTree.Get | src/pyarch/model.py:147-150 | the empty path gives the node itself; a found node lies below the node asked and carries the path's last name |
| ModuleTree.RootGet | src/pyarch/model.py:83-93 | the root holder raises `KeyError` exactly for the empty path; a found node is a proper node named by the path's last segment |
| ModuleTree.GetSound | src/pyarch/model.py:83-93 | what `get(path)` finds is a descendant whose full path is the node's full path `/ path` |
| ModuleTree.GetComplete | src/pyarch/model.py:83-93 | every descendant is found by `get` with its full path minus the node's own |
| ModuleTree.RootGetPathOf | src/pyarch/model.py:83-93 | every node of the tree is found from the root by its full path |
| ModuleTree.RootGetPath | src/pyarch/model.py:83-93 | a node found from the root by `path` has full path `path`, so lookup and full path are inverse |
| ModuleTree.StripIff | test/unit/model/test_node.py:102-126 | the exclusions passed to a child called `name` are exactly those that started with `name`, with that segment removed |
| ModuleTree.SkipsIff | test/unit/model/test_node.py:102-126 | a child is skipped exactly when its own name is an exclusion |
| ModuleTree.Walk | src/pyarch/model.py:157-160 | the walk starts with the node itself and visits only nodes at or below it |
| ModuleTree.WalkSound | test/unit/model/test_node.py:102-126 | every node walked is a descendant not cut off by any exclusion |
| ModuleTree.WalkComplete | test/unit/model/test_node.py:102-126 | every descendant not cut off by an exclusion is walked |
| ModuleTree.WalkIff | test/unit/model/test_node.py:102-126 | walked iff descendant and not cut off by an exclusion read from the walked node |
| ModuleTree.WalkAll | test/unit/model/test_node.py:93-99 | without exclusions the walk visits exactly the subtree |
| ModuleTree.WalkDistinct | test/unit/model/test_node.py:93-99 | the walk visits no node twice |
| ModuleTree.WalkIgnoresMissingExcludes | test/unit/model/test_node.py:102-126 | exclusions that name no node, and the empty exclusion, leave the walk unchanged |
| ModuleTree.GetGrown | src/pyarch/model.py:95-113 | a lookup that succeeded still finds the same node after the tree only grew |
| ModuleTree.PathOfGrown | src/pyarch/model.py:95-113 | a node keeps its full path when the tree grows |
| ModuleTree.AddChild | src/pyarch/model.py:111-112 | a new child is appended with no imports or children, listed last among its parent's children, and nothing else changes |
| ModuleTree.AddChildFacts | src/pyarch/model.py:104-112 | adding a child under a name not yet taken keeps the tree well-shaped, only grows it, and makes the name resolve to the new child |
| ModuleTree.GetSameShape | src/pyarch/model.py:136-145 | changing imports and file paths leaves every lookup unchanged |
| ModuleTree.PathOfSameShape | src/pyarch/model.py:136-145 | changing imports and file paths leaves every full path unchanged |
| ModuleTree.WalkSameShape | src/pyarch/model.py:136-145 | changing imports and file paths leaves every walk unchanged |
| ModuleTree.GetOrAddEmptyCase | src/pyarch/model.py:153-154 | `get_or_add` of the empty path on a module node returns that node and changes nothing |
| ModuleTree.GetOrAddNewCase | src/pyarch/model.py:104-113 | a missing first segment creates a child with the file path shortened by the segments still to go, and the rest is added below it |
| ModuleTree.GetOrAddNewStep | src/pyarch/model.py:104-113 | after that creation the path did not resolve before, resolves now to the answer, and one node per unresolved segment was added |
| ModuleTree.GetOrAddOldCase | src/pyarch/model.py:104-113 | an existing first segment is followed without change |
| ModuleTree.Tree.constructor | src/pyarch/model.py:80-81 | a fresh tree is the root holder with no children |
| ModuleTree.Tree.GetOrAdd | src/pyarch/model.py:95-113 | the tree only grows; the answer is the node at `path`; nothing changes when it existed; each missing segment gets one new node, without imports, whose file path is the given one minus the segments below it, and which the matching prefix of `path` finds |
| ModuleTree.GetPrefix | src/pyarch/model.py:83-93 | when a path is found, so is every prefix of it |
| ModuleTree.InitFilePath | src/pyarch/model.py:142-144 | the result ends in `__init__.py`; a path already ending so is kept, any other gets `__init__.py` appended |
| ModuleTree.Tree.AddChildNode | src/pyarch/model.py:111-112 | `self._children[name] = child`: the new node is appended and recorded under its parent |
| ModuleTree.Tree.RootGetOrAdd | src/pyarch/model.py:95-113 | `KeyError` exactly for the empty path, leaving the tree unchanged; otherwise the result of `GetOrAdd`, which `get` then finds |
| ModuleTree.Tree.AddImports | src/pyarch/model.py:136-137 | the node's imports are extended by the new ones; nothing else, including the tree's shape, changes |
| ModuleTree.Tree.AddDataForInitFile | src/pyarch/model.py:139-145 | succeeds iff the file path is an `__init__.py` or has no suffix; then `__init__.py` is appended unless already present and the imports are extended; on failure (the `assert`) nothing changes |
| ModuleTree.Tree.WalkNodes | src/pyarch/model.py:157-160 | the recursive walk visits exactly the nodes `Walk` describes, in that order |
| Parser.PlainImports | src/pyarch/parser.py:34-40 | `import a.b, c as d` gives one absolute record per name, in order, for the name's dotted path; the `as` name plays no part |
| Parser.FromRecords | src/pyarch/parser.py:41-49 | one record per imported name, in order, whose path is the prefix followed by the name |
| Parser.Anchor | test/integration/test_parser.py:30-54 | a relative import at level L resolves against the unit path without its last L segments, and fails exactly when L exceeds the unit path's length |
| Parser.FromImports | src/pyarch/parser.py:41-49 | an absolute from-import records module + name; a relative one records anchor + module + name at its level; one that overflows records nothing and logs one warning |
| Parser.BodyImportsConcat | src/pyarch/parser.py:32-50 | extraction over `a + b` is the extraction of `a` followed by that of `b` |
| Parser.FunctionBodyFlagged | src/pyarch/query.py:100-106 | every record found inside a function body is a function-level import |
| Parser.TopLevelUnflagged | src/pyarch/query.py:100-106 | a module body without function definitions yields no function-level import |
| Parser.PlainBodyAbsolute | src/pyarch/parser.py:34-40 | plain `import` statements are absolute and never warn |
| Parser.RelativeToTop | test/integration/test_parser.py:33-39 | `from .. import y` in `a.b` records `y`, line 1, level 2 |
| Parser.RelativeToParent | test/integration/test_parser.py:40-44 | `from .. import y` in `a.b.c` records `a.y`, line 2, level 2 |
| Parser.RelativeToSibling | test/integration/test_parser.py:45-49 | `from .x import y` in `a.b` records `a.x.y`, line 3, level 1 |
| Parser.RelativeOverflow | test/integration/test_parser.py:57-74 | `from ... import y` in `a.b` records nothing and logs one warning |
| Parser.PlainImportExample | test/integration/test_parser.py:95-101 | `import x` in `a.b` records `x` at line 1 |
| Parser.AliasedImportExample | test/integration/test_parser.py:102-106 | `import x as y` records `x` at line 2 |
| Parser.CollectImports | src/pyarch/parser.py:30-50 | the statement loop yields exactly the records and warnings the extraction describes |
| Parser.CollectStmt | src/pyarch/parser.py:33-49 | the per-statement branch yields exactly that statement's records and warnings |
| Parser.CollectPlain | src/pyarch/parser.py:35-40 | the loop over `import` names yields exactly one record per name, in order |
| Parser.CollectFrom | src/pyarch/parser.py:42-49 | the loop over from-import names yields exactly the prefix-plus-name records, in order |
| Parser.GetNodePath | src/pyarch/parser.py:21-27 | the node path is the module's path below the base, read without `__init__.py` or the `.py` suffix |
| Parser.BuiltStart | src/pyarch/parser.py:9 | the empty tree describes the empty scan |
| Parser.Creator | src/pyarch/model.py:104-112 | the unit whose `get_or_add` created the node at `p` is a scanned unit whose node path runs through `p` |
| Parser.CreatorFirst | src/pyarch/model.py:104-113 | the creator of `p` comes no later than any scanned unit through `p`: later ones find the node already there |
| Parser.CreatorOwn | src/pyarch/model.py:104-113 | a scanned unit with no earlier unit through its node path creates its own node |
| Parser.ModuleUnitPath | src/pyarch/parser.py:21-27 | a plain module's node path has one part per file-path part below the base, and all but the last are the file path's |
| Parser.InitUnitPath | src/pyarch/parser.py:21-24 | an `__init__.py` unit's file path is the base, its node path and `__init__.py` |
| Parser.BuiltNodeOnUnitWay | src/pyarch/parser.py:10-15 | every node of the built tree lies on the way to some scanned unit: only `get_or_add` of a unit creates nodes |
| Parser.BuiltModuleFilePath | test/integration/test_parser.py:147-148 | in the built tree, a plain module first on its way and sharing its path with no initializer has a node with its own file path, as `x.y` has `x/y.py` |
| Parser.BuiltInitFilePath | test/integration/test_parser.py:143-146 | in the built tree, an initializer with statements, preceded on its way only by modules strictly below it and whose package directory is not itself named `__init__.py`, has a node with its own file path, as `x` has `x/__init__.py` |
| Parser.BuiltDirectoryFilePath | test/integration/test_parser.py:139-140 | in the built tree, a node with no unit of its own has a proper prefix of the first unit through it as file path, the package directory when that unit is a plain module, as `a` has `a` |
| Parser.BuiltAfterGetOrAdd | src/pyarch/parser.py:15 | creating the unit's node keeps every earlier unit's node and imports, new intermediate nodes hold no records, and every file path is the one its creator gave it, the new unit counted as creator but not yet as initializer |
| Parser.BuiltNoRecords | test/integration/test_parser.py:160-177 | a file the scan skips (a hidden file, or an empty `__init__.py` directly under the base), or an empty unit whose node exists, adds nothing |
| Parser.BaseInitOutcome | src/pyarch/parser.py:13-15 | an `__init__.py` directly under the base has the empty node path: the scan skips it when it is empty and fails with `KeyError` (`model.py:84-85`) when it has statements |
| Parser.BuiltAfterAdd | src/pyarch/parser.py:16-17 | adding a unit's records to its node, and completing its file path when it is an `__init__.py`, gives the tree for one more unit |
| Parser.BuildImportModel | src/pyarch/parser.py:8-18 | on success every scanned unit parsed and has a node; every node holds exactly the records of the units at its path in scan order, and has the file path its creating `get_or_add` gave it, completed with `__init__.py` where an initializer with statements lies; the warnings count is the total; it succeeds exactly when no unit fails (`ScanFailure` of each unit after the ones before it), and otherwise fails with the error of the first unit that does: `SyntaxError` for a unit that does not parse, `KeyError` for a unit with statements at the empty node path, `AssertionError` for a node that already holds records or an initializer whose node's file path names another file |
| Parser.ScanFile | src/pyarch/parser.py:10-17 | one turn of the loop over `files[k]` fails exactly with the error `ScanFailure` gives for `files[k]`, and otherwise carries the whole description from the first `k` files to the first `k + 1` |
| Parser.AddUnit | src/pyarch/parser.py:10-17 | one iteration: hidden files are skipped, an unparsable unit fails with `SyntaxError`, the result is always the unit's `ScanFailure`, and on success the unit parsed and the tree describes one more unit |
| Parser.AddModule | src/pyarch/parser.py:13-17 | an empty unit at the empty node path is skipped; otherwise `get_or_add` of the unit's path, failing with `KeyError` exactly for a unit with statements at the empty path, then the unit's records; the result is the unit's `ScanFailure` |
| Parser.AddRecords | src/pyarch/parser.py:16-17 | fails with `AssertionError` exactly when the node already holds records (`assert not node.imports`) or, for an `__init__.py`, when the node's file path names a file other than `__init__.py` (`model.py:143`); that is the unit's `ScanFailure`; otherwise the records are added (through `add_data_for_init_file` for an `__init__.py`) and the tree describes one more unit |
| Query.MakeModulesAt | src/pyarch/query.py:41-47 | `exclude or []`: no exclusion list means the empty one |
| Query.RecordMatches | src/pyarch/query.py:108-119 | a match of one module holds exactly the module's records that the criterion selects |
| Query.MatchesIn | src/pyarch/query.py:100-119 | the matches over the visited modules are exactly the (module, record) pairs with the record selected |
| Query.Contains | src/pyarch/query.py:49-63 | `in` raises `NotImplementedError` exactly for an operand that is neither an `ImportOf` nor a `FunctionLevelImport` |
| Query.MatchingIff | src/pyarch/query.py:100-119 | there is a match iff some walked module has a selected record |
| Query.ContainsImportIff | src/pyarch/query.py:49-63 | `ImportOf(p) in m` iff some walked module has a record relative to `p` that passes the absolute filter |
| Query.ContainsFunctionLevelIff | src/pyarch/query.py:49-63 | `FunctionLevelImport() in m` iff some walked module has a function-level record |
| Query.ContainsInSubtree | src/pyarch/query.py:50-56 | a match exists iff some descendant of the base node, not cut off by an exclusion, has a selected record |
| Query.ContainsWholeSubtree | src/pyarch/query.py:41-56 | without exclusions, a match exists iff some module of the subtree has a selected record |
| Query.ContainsIgnoresMissingExcludes | src/pyarch/query.py:41-63 | exclusions naming no module do not change the answer |
| Query.ExcludedChildHidden | test/unit/test_query.py:111-138 | a child named in the exclusions, and all below it, is neither walked nor matched by any criterion |
| Query.AbsoluteFilter | src/pyarch/query.py:115-119 | `absolute=True` selects level-0 records, `absolute=False` relative ones, and `None` the union of the two |
| Query.ContainsAbsoluteSplit | test/unit/test_query.py:90-108 | `ImportOf(p)` is in a scope iff the absolute or the relative `ImportOf(p)` is |
| Query.SubPathAsymmetry | src/pyarch/query.py:50-56 | `a.b` covers imports of `a.b.c` and `a.b` but not of `a` or `a.x` |
| Query.FoundLines | src/pyarch/query.py:93-98 | one line per match, carrying the match's module file path and line |
| Query.FoundLinesMember | src/pyarch/query.py:93-98 | a line is present iff some match produces it |
| Query.FoundLineIff | src/pyarch/query.py:93-98 | a found line is present iff some walked module has a selected record with that file path and line |
| Query.FoundLineSound | src/pyarch/query.py:93-98 | every found line comes from a walked module's selected record |
| Query.FoundLineComplete | src/pyarch/query.py:93-98 | every walked module's selected record produces its line |
| Query.ExplainTrueLines | src/pyarch/query.py:93-98 | one line per match; lines exist iff `in` is true; a line is present iff it names a walked module's matching record |
| Query.ExplainFunctionLevelTrueLines | src/pyarch/query.py:79-84 | lines exist iff `FunctionLevelImport() in m`; a line is present iff it names a walked module's function-level record |
| Query.PyNodes | src/pyarch/query.py:86-91 | the `.py`-suffix filter keeps only nodes of the walk |
| Query.PyNodesMember | src/pyarch/query.py:86-91 | a node is kept iff it was walked and its file path has suffix `.py` |
| Query.NoMatchLines | src/pyarch/query.py:86-91 | one "no matching" line per node kept, with that node's file path |
| Query.NoMatchLinesMember | src/pyarch/query.py:72-91 | a "no matching" line is present iff some kept node has that file path |
| Query.ExplainFalseLines | src/pyarch/query.py:72-91 | both false explanations name exactly the walked modules whose file path ends in `.py` |
| Query.ExplainFalseBaseFirst | test/unit/test_query.py:56-66 | when the base node is a `.py` module (such as a package's `__init__.py`), the first false line is about it |
| Query.ExplainFalseDistinct | src/pyarch/query.py:86-91 | the modules named by a false explanation are all different |
| Assertion.FromStrPath | src/pyarch/assertion.py:35-37 | the target prints back as the given string, has dot-free segments, and is empty iff the string is |
| Assertion.AddMatchingImports | src/pyarch/assertion.py:55-59 | the inner loop appends exactly the node's records relative to the target, in order |
| Assertion.AppendStep | src/pyarch/assertion.py:56-59 | one iteration appends the record iff it is relative to the target |
| Assertion.CollectStep | src/pyarch/assertion.py:61 | visiting one more node appends exactly that node's matching records |
| Assertion.CollectedIff | src/pyarch/assertion.py:61-62 | the collected list is non-empty iff some walked record is relative to the target, iff `Query` answers `in` with no exclusions and no absolute filter |
| Assertion.PackageContains | src/pyarch/assertion.py:44-62 | `import_of in package` iff some module of the subtree declares an import relative to the target, and it agrees with the `Query` membership test |
| Assertion.DocumentedExample | src/pyarch/assertion.py:6-19 | the documented example: `a.b` covers `a.b.c` but not `a` |
| TestUtil.MakeImport | src/pyarch/testutil.py:21-22 | the target prints back as the given string, has dot-free segments, and is empty iff the string is |
| TestUtil.PackageContains | src/pyarch/testutil.py:40-59 | a non-`Import` operand raises `AssertionError` (and only it does); otherwise true iff some module of the subtree declares an import starting with the target |
| TestUtil.StartsWithExample | src/pyarch/testutil.py:6-19 | the documented example: `a.b` covers `a.b.c` but not `a` |

The build's proof steps have no row. They are one-step and shape facts about
the specification functions `Expected`, `Creator`, `CreatedPathAt`, `InitAt`
and `FilePathAt`, which the `Parser.Built*` rows combine:

- steps of the scan: `Parser.ExpectedStep`, `CreatorStep`,
  `CreatedPathStep`, `InitAtStep`, `CreatorUnreached` and `AllParsedStep`;
- `get_or_add` and the add: `Parser.NewNodePath`, `PathsAfterGetOrAdd`,
  `FilePathsKept`, `PathsAfterAdd`, `PathAfterInit`, `RecordedAfterAdd` and
  `UnitNodeState`;
- the shape of the paths: `Parser.ModuleAncestorPath`,
  `PackageCreatedPath` and `UnitPathLength`;
- file paths in a built tree: `Parser.UnitNode`, `ModuleFilePathAt`,
  `CreatorInfo`, `InitCompletes`, `InitOverPackage`, `InitFilePathAt` and
  `DirectoryFilePathAt`.

## Left out

- Reading files, `glob`, `open` and `ast.parse`: the scan is the sequence of files it yields, and a parse is a statement list or `Unparsable`, which stands for `SyntaxError`.
- `ast` statements other than `import`, `from … import` and function definitions: they are `Other` and contribute nothing. The statement datatype's only nested scope is a function body, so imports inside `if`, `try`, `with` or class bodies are not represented. `parser.py:32-49` visits only the top level; the model also visits function bodies, so that the function-level flag `query.py` filters on can be set.
- Logging: a relative import above the top is counted as one warning; the message text is not modelled.
- The `str` and `repr` forms of `DotPath`, `ImportOf`, `FunctionLevelImport`, `ModulesAt`, `Package` and the explanation lines: a line carries its kind, its module file path and its line number instead of rendered text.
- `Path` objects: a file path is the sequence of its parts. `relative_to` becomes slicing off the base parts.
- Python's `dict`: a node's children are a sequence in insertion order with distinct names.
- `walk(func)`: the callback form is replaced by the `walk(exclude)` form used by the query code. The two agree on the order of visits.
- `DotPath.__eq__` returning `NotImplemented` for other types: Dafny compares only dotted paths.
- The pytest plugin, its fixtures and its `assertrepr_compare` hook: `plugin.py` and `pytest_plugin.py` are not part of this model.
- Parser.BuildImportModel: the file path `get_or_add` gives a new intermediate node follows `model.py:106-108`. For a nested `__init__.py` that path is one level deeper than the directory, because the file name is counted as a part.
- Query.ExplainFalseDistinct: states that the modules named are distinct, not that the lines are. Two different modules can share a file path.
- Assertion.PackageContains: the tree is not changed because the method has no `modifies` clause. The contract does not separately state that imports and children stay as they were.
