/**
 * The module tree of model.py: `ImportInModule`, the headless `RootNode` and
 * the named `ModuleNode`s below it.
 *
 * The tree is kept as an arena: `nodes[i]` is the node with handle `i`, and
 * a node's `children` are handles in insertion order (the order of the
 * `_children` dict). Handle 0 is the root holder: it has no name, file path
 * or imports of its own, only children. Every child handle is larger than its
 * parent's, so the tree has no cycles, and sibling names are distinct (they
 * are the dict's keys). A ghost `parent` sequence records each node's unique
 * parent; it is used only to state properties.
 */
module ModuleTree {
  import opened Wrappers
  import opened DotPaths
  import opened FilePaths

  /** `ImportInModule`: one declared import with its source line, relative level (0 = absolute) and whether it sits in a function body. */
  datatype ImportRecord = ImportRecord(importPath: DotPath, lineNo: nat, level: nat, functionImport: bool)

  /** One node of the tree. */
  datatype NodeData = NodeData(name: string, filePath: FsPath, imports: seq<ImportRecord>, children: seq<nat>)

  type Arena = seq<NodeData>

  /** The handle of the root holder (`RootNode`). */
  const RootIndex: nat := 0

  /** Children come after their parent, and siblings have distinct names. */
  ghost predicate WellFormed(nodes: Arena)
  {
    && |nodes| > 0
    && (forall i, k :: 0 <= i < |nodes| && 0 <= k < |nodes[i].children| ==>
          i < nodes[i].children[k] < |nodes|)
    && (forall i, k1, k2 :: 0 <= i < |nodes| && 0 <= k1 < k2 < |nodes[i].children| ==>
          nodes[nodes[i].children[k1]].name != nodes[nodes[i].children[k2]].name)
  }

  /** `parent` names, for every node but the root holder, the one node that lists it as a child. */
  ghost predicate TreeShaped(nodes: Arena, parent: seq<nat>)
  {
    && WellFormed(nodes)
    && |parent| == |nodes|
    && (forall i, k :: 0 <= i < |nodes| && 0 <= k < |nodes[i].children| ==>
          parent[nodes[i].children[k]] == i)
    && (forall x :: 1 <= x < |nodes| ==> parent[x] < x && x in nodes[parent[x]].children)
  }

  // ---------------------------------------------------------------------------
  // Lookup

  /** The position among `i`'s children of the child called `name` (the dict lookup `_children.get(name)`). */
  function ChildPos(nodes: Arena, i: nat, name: string): (r: Option<nat>)
    requires WellFormed(nodes) && i < |nodes|
    ensures r.Some? ==> r.value < |nodes[i].children| && nodes[nodes[i].children[r.value]].name == name
    ensures r.None? <==> forall k :: 0 <= k < |nodes[i].children| ==> nodes[nodes[i].children[k]].name != name
  {
    ChildPosFrom(nodes, i, name, 0)
  }

  function ChildPosFrom(nodes: Arena, i: nat, name: string, k: nat): (r: Option<nat>)
    requires WellFormed(nodes) && i < |nodes| && k <= |nodes[i].children|
    ensures r.Some? ==> k <= r.value < |nodes[i].children| && nodes[nodes[i].children[r.value]].name == name
    ensures r.None? <==> forall j :: k <= j < |nodes[i].children| ==> nodes[nodes[i].children[j]].name != name
    decreases |nodes[i].children| - k
  {
    if k == |nodes[i].children| then None
    else if nodes[nodes[i].children[k]].name == name then Some(k)
    else ChildPosFrom(nodes, i, name, k + 1)
  }

  /** Sibling names are keys: one name, one position. */
  lemma ChildPosUnique(nodes: Arena, i: nat, k: nat)
    requires WellFormed(nodes) && i < |nodes| && k < |nodes[i].children|
    ensures ChildPos(nodes, i, nodes[nodes[i].children[k]].name) == Some(k)
  {
    var ch := nodes[i].children;
    forall k' | 0 <= k' < |ch| && k' != k
      ensures nodes[ch[k']].name != nodes[ch[k]].name
    {
      if k' < k {
        assert nodes[ch[k']].name != nodes[ch[k]].name;
      } else {
        assert nodes[ch[k]].name != nodes[ch[k']].name;
      }
    }
  }

  /** `ModuleNode.get`: the empty path is the node itself, otherwise descend one segment at a time; None when a segment is missing. */
  function Get(nodes: Arena, i: nat, path: DotPath): (r: Option<nat>)
    requires WellFormed(nodes) && i < |nodes|
    ensures path.parts == [] ==> r == Some(i)
    ensures r.Some? ==> i <= r.value < |nodes|
    ensures r.Some? && path.parts != [] ==> i < r.value && nodes[r.value].name == path.parts[|path.parts| - 1]
    decreases |path.parts|
  {
    if path.parts == [] then Some(i)
    else
      match ChildPos(nodes, i, path.parts[0])
      case None => None
      case Some(k) => Get(nodes, nodes[i].children[k], DotPath(path.parts[1..]))
  }

  /** `RootNode.get`: the empty path is a KeyError on the root holder. */
  function RootGet(nodes: Arena, path: DotPath): (r: Result<Option<nat>>)
    requires WellFormed(nodes)
    ensures r.Err? <==> path.parts == []
    ensures r.Err? ==> r.error == KeyError
    ensures r.Ok? && r.value.Some? ==> 1 <= r.value.value < |nodes| && nodes[r.value.value].name == path.parts[|path.parts| - 1]
  {
    if path.parts == [] then Err(KeyError) else Ok(Get(nodes, RootIndex, path))
  }

  /** The number of leading segments of `path` that already exist below `i`. */
  ghost function Resolved(nodes: Arena, i: nat, path: DotPath): (r: nat)
    requires WellFormed(nodes) && i < |nodes|
    ensures r <= |path.parts|
    ensures r == |path.parts| <==> Get(nodes, i, path).Some?
    decreases |path.parts|
  {
    if path.parts == [] then 0
    else
      match ChildPos(nodes, i, path.parts[0])
      case None => 0
      case Some(k) => 1 + Resolved(nodes, nodes[i].children[k], DotPath(path.parts[1..]))
  }

  // ---------------------------------------------------------------------------
  // Ancestry and full paths (ghost)

  /** `x` is `a` or lies below it. */
  ghost predicate Desc(parent: seq<nat>, x: nat, a: nat)
    decreases x
  {
    x == a || (a < x < |parent| && 0 < x && parent[x] < x && Desc(parent, parent[x], a))
  }

  /** The full dotted path of a node: the names from below the root holder down to it. */
  ghost function PathOf(nodes: Arena, parent: seq<nat>, x: nat): DotPath
    requires TreeShaped(nodes, parent) && x < |nodes|
    decreases x
  {
    if x == RootIndex then DotPath([])
    else DotPath(PathOf(nodes, parent, parent[x]).parts + [nodes[x].name])
  }

  lemma DescGe(parent: seq<nat>, x: nat, a: nat)
    requires Desc(parent, x, a)
    ensures a <= x
  {
  }

  lemma {:induction false} DescTrans(parent: seq<nat>, x: nat, y: nat, z: nat)
    requires Desc(parent, x, y) && Desc(parent, y, z)
    ensures Desc(parent, x, z)
    decreases x
  {
    if x != y {
      DescTrans(parent, parent[x], y, z);
      DescGe(parent, y, z);
    }
  }

  /** A child is below its parent. */
  lemma ChildDesc(nodes: Arena, parent: seq<nat>, i: nat, k: nat)
    requires TreeShaped(nodes, parent) && i < |nodes| && k < |nodes[i].children|
    ensures Desc(parent, nodes[i].children[k], i)
  {
  }

  /** Two distinct siblings have disjoint subtrees. */
  lemma {:induction false} SiblingsDisjoint(nodes: Arena, parent: seq<nat>, x: nat, c1: nat, c2: nat)
    requires TreeShaped(nodes, parent)
    requires 1 <= c1 < |nodes| && 1 <= c2 < |nodes| && parent[c1] == parent[c2] && c1 != c2
    requires Desc(parent, x, c1)
    ensures !Desc(parent, x, c2)
    decreases x
  {
    if x != c1 {
      SiblingsDisjoint(nodes, parent, parent[x], c1, c2);
      if parent[x] == c1 {
        assert x != c2;
      }
    }
  }

  /** A node's full path extends the full path of every node above it. */
  lemma {:induction false} DescPathPrefix(nodes: Arena, parent: seq<nat>, x: nat, a: nat)
    requires TreeShaped(nodes, parent) && x < |nodes| && a < |nodes|
    requires Desc(parent, x, a)
    ensures IsRelativeTo(PathOf(nodes, parent, x), PathOf(nodes, parent, a))
    decreases x
  {
    if x == a {
      IsRelativeToBasics(PathOf(nodes, parent, x));
    } else {
      DescPathPrefix(nodes, parent, parent[x], a);
      var px := PathOf(nodes, parent, parent[x]);
      var pa := PathOf(nodes, parent, a);
      assert (px.parts + [nodes[x].name])[..|px.parts|] == px.parts;
      IsRelativeToOrder(PathOf(nodes, parent, x), px, pa);
    }
  }

  /** The child of `i` on the way down to `x`. */
  lemma {:induction false} ChildToward(nodes: Arena, parent: seq<nat>, x: nat, i: nat) returns (c: nat)
    requires TreeShaped(nodes, parent) && x < |nodes|
    requires Desc(parent, x, i) && x != i
    ensures 1 <= c < |nodes| && parent[c] == i && i < c && c in nodes[i].children && Desc(parent, x, c)
    decreases x
  {
    if parent[x] == i {
      c := x;
    } else {
      c := ChildToward(nodes, parent, parent[x], i);
    }
  }

  lemma {:induction false} GetDesc(nodes: Arena, parent: seq<nat>, i: nat, path: DotPath)
    requires TreeShaped(nodes, parent) && i < |nodes|
    requires Get(nodes, i, path).Some?
    ensures Desc(parent, Get(nodes, i, path).value, i)
    decreases |path.parts|
  {
    if path.parts != [] {
      var k := ChildPos(nodes, i, path.parts[0]).value;
      var c := nodes[i].children[k];
      var rest := DotPath(path.parts[1..]);
      GetDesc(nodes, parent, c, rest);
      ChildDesc(nodes, parent, i, k);
      DescTrans(parent, Get(nodes, c, rest).value, c, i);
    }
  }

  lemma {:induction false} GetPath(nodes: Arena, parent: seq<nat>, i: nat, path: DotPath)
    requires TreeShaped(nodes, parent) && i < |nodes|
    requires Get(nodes, i, path).Some?
    ensures PathOf(nodes, parent, Get(nodes, i, path).value).parts == PathOf(nodes, parent, i).parts + path.parts
    decreases |path.parts|
  {
    if path.parts != [] {
      var k := ChildPos(nodes, i, path.parts[0]).value;
      var c := nodes[i].children[k];
      var rest := DotPath(path.parts[1..]);
      assert Get(nodes, i, path) == Get(nodes, c, rest);
      GetPath(nodes, parent, c, rest);
      ChildPathParts(nodes, parent, i, k);
      ConsAssoc(PathOf(nodes, parent, i).parts, path.parts);
    }
  }

  lemma ChildPathParts(nodes: Arena, parent: seq<nat>, i: nat, k: nat)
    requires TreeShaped(nodes, parent) && i < |nodes| && k < |nodes[i].children|
    ensures PathOf(nodes, parent, nodes[i].children[k]).parts ==
      PathOf(nodes, parent, i).parts + [nodes[nodes[i].children[k]].name]
  {
  }

  lemma ConsAssoc<T>(a: seq<T>, b: seq<T>)
    requires |b| > 0
    ensures (a + [b[0]]) + b[1..] == a + b
  {
    assert b == [b[0]] + b[1..];
  }

  lemma ConcatAssoc3<T>(a: seq<T>, b: seq<T>, c: seq<T>)
    ensures a + (b + c) == (a + b) + c
  {
  }

  lemma SliceStep<T>(s: seq<T>, a: seq<T>, x: T)
    requires |a| + 1 <= |s| && s[..|a| + 1] == a + [x]
    ensures s[|a|..] != [] && s[|a|..][0] == x && s[|a|..][1..] == s[|a| + 1..]
  {
    assert s[|a|] == s[..|a| + 1][|a|];
  }

  /** Looking up a path from `i` lands below `i`, at the node whose full path is `i`'s followed by the looked-up path. */
  lemma GetSound(nodes: Arena, parent: seq<nat>, i: nat, path: DotPath)
    requires TreeShaped(nodes, parent) && i < |nodes|
    requires Get(nodes, i, path).Some?
    ensures Desc(parent, Get(nodes, i, path).value, i)
    ensures PathOf(nodes, parent, Get(nodes, i, path).value) == Div(PathOf(nodes, parent, i), path)
  {
    GetDesc(nodes, parent, i, path);
    GetPath(nodes, parent, i, path);
  }

  /** Conversely, every node below `i` is found by looking up its path relative to `i`. */
  lemma {:induction false} GetComplete(nodes: Arena, parent: seq<nat>, i: nat, x: nat)
    requires TreeShaped(nodes, parent) && i < |nodes| && x < |nodes|
    requires Desc(parent, x, i)
    ensures |PathOf(nodes, parent, i).parts| <= |PathOf(nodes, parent, x).parts|
    ensures Get(nodes, i, DotPath(PathOf(nodes, parent, x).parts[|PathOf(nodes, parent, i).parts|..])) == Some(x)
    decreases x - i
  {
    DescPathPrefix(nodes, parent, x, i);
    var px := PathOf(nodes, parent, x).parts;
    var pi := PathOf(nodes, parent, i).parts;
    if x == i {
      assert px[|pi|..] == [];
    } else {
      var c := ChildToward(nodes, parent, x, i);
      var k :| 0 <= k < |nodes[i].children| && nodes[i].children[k] == c;
      GetComplete(nodes, parent, c, x);
      DescPathPrefix(nodes, parent, x, c);
      ChildPathParts(nodes, parent, i, k);
      ChildPosUnique(nodes, i, k);
      SliceStep(px, pi, nodes[c].name);
    }
  }

  /** Every node lies below the root holder. */
  lemma {:induction false} DescRoot(nodes: Arena, parent: seq<nat>, x: nat)
    requires TreeShaped(nodes, parent) && x < |nodes|
    ensures Desc(parent, x, RootIndex)
    decreases x
  {
    if x != RootIndex {
      DescRoot(nodes, parent, parent[x]);
    }
  }

  /** From the root holder, a node's full path leads back to it: full paths identify nodes. */
  lemma RootGetPathOf(nodes: Arena, parent: seq<nat>, x: nat)
    requires TreeShaped(nodes, parent) && x < |nodes|
    ensures Get(nodes, RootIndex, PathOf(nodes, parent, x)) == Some(x)
  {
    DescRoot(nodes, parent, x);
    GetComplete(nodes, parent, RootIndex, x);
    var p := PathOf(nodes, parent, x);
    assert DotPath(p.parts[0..]) == p;
  }

  /** What the root holder finds at `path` has `path` as its full path. */
  lemma RootGetPath(nodes: Arena, parent: seq<nat>, path: DotPath)
    requires TreeShaped(nodes, parent)
    requires Get(nodes, RootIndex, path).Some?
    ensures PathOf(nodes, parent, Get(nodes, RootIndex, path).value) == path
  {
    GetPath(nodes, parent, RootIndex, path);
  }

  // ---------------------------------------------------------------------------
  // Walk

  /** The exclude paths that continue below a child called `name`, with that first segment stripped. */
  function Strip(exclude: seq<DotPath>, name: string): seq<DotPath>
  {
    if exclude == [] then []
    else
      var e := exclude[0];
      var rest := Strip(exclude[1..], name);
      if |e.parts| > 0 && e.parts[0] == name then [DotPath(e.parts[1..])] + rest else rest
  }

  /** `q` survives stripping exactly when `name` followed by `q` was an exclude path. */
  lemma {:induction false} StripIff(exclude: seq<DotPath>, name: string, q: DotPath)
    ensures q in Strip(exclude, name) <==> DotPath([name] + q.parts) in exclude
  {
    if exclude != [] {
      var e := exclude[0];
      StripIff(exclude[1..], name, q);
      assert exclude == [e] + exclude[1..];
      if |e.parts| > 0 && e.parts[0] == name {
        assert e.parts == [name] + e.parts[1..];
        if q == DotPath(e.parts[1..]) {
          assert DotPath([name] + q.parts) == e;
        }
        if DotPath([name] + q.parts) == e {
          assert q.parts == e.parts[1..];
        }
      } else {
        assert ([name] + q.parts)[0] == name;
      }
    }
  }

  /** A child is skipped when the exclusion reaches it with nothing left. */
  predicate Skips(exclude: seq<DotPath>, name: string)
  {
    DotPath([]) in Strip(exclude, name)
  }

  lemma SkipsIff(exclude: seq<DotPath>, name: string)
    ensures Skips(exclude, name) <==> DotPath([name]) in exclude
  {
    StripIff(exclude, name, DotPath([]));
    assert [name] + DotPath([]).parts == [name];
  }

  /** `walk(exclude)`: pre-order, the node first and then each non-excluded child's walk in insertion order. */
  function Walk(nodes: Arena, i: nat, exclude: seq<DotPath>): (r: seq<nat>)
    requires WellFormed(nodes) && i < |nodes|
    ensures |r| >= 1 && r[0] == i
    ensures forall k :: 0 <= k < |r| ==> i <= r[k] < |nodes|
    decreases |nodes| - i, |nodes[i].children| + 1
  {
    [i] + WalkChildren(nodes, i, 0, exclude)
  }

  function WalkChildren(nodes: Arena, i: nat, k: nat, exclude: seq<DotPath>): (r: seq<nat>)
    requires WellFormed(nodes) && i < |nodes| && k <= |nodes[i].children|
    ensures forall j :: 0 <= j < |r| ==> i < r[j] < |nodes|
    decreases |nodes| - i, |nodes[i].children| - k
  {
    if k == |nodes[i].children| then []
    else
      var c := nodes[i].children[k];
      (if Skips(exclude, nodes[c].name) then [] else Walk(nodes, c, Strip(exclude, nodes[c].name)))
        + WalkChildren(nodes, i, k + 1, exclude)
  }

  /** Some non-empty exclude path, read from `anchor`, leads to `x` or above it. */
  ghost predicate CutBy(exclude: seq<DotPath>, anchor: DotPath, x: DotPath)
  {
    exists e :: e in exclude && e.parts != [] && IsRelativeTo(x, Div(anchor, e))
  }

  /** `x` below `i` is cut off by the exclusion. */
  ghost predicate Excluded(nodes: Arena, parent: seq<nat>, i: nat, x: nat, exclude: seq<DotPath>)
    requires TreeShaped(nodes, parent) && i < |nodes| && x < |nodes|
  {
    CutBy(exclude, PathOf(nodes, parent, i), PathOf(nodes, parent, x))
  }

  lemma CutByDown(exclude: seq<DotPath>, anchor: DotPath, name: string, x: DotPath)
    requires IsRelativeTo(x, Div(anchor, DotPath([name])))
    requires CutBy(exclude, anchor, x)
    ensures Skips(exclude, name) || CutBy(Strip(exclude, name), Div(anchor, DotPath([name])), x)
  {
    var e :| e in exclude && e.parts != [] && IsRelativeTo(x, Div(anchor, e));
    var a := anchor.parts;
    assert x.parts[..|a| + |e.parts|] == a + e.parts;
    assert x.parts[..|a| + 1] == a + [name];
    assert x.parts[|a|] == e.parts[0] == name;
    var q := DotPath(e.parts[1..]);
    assert e.parts == [name] + q.parts;
    StripIff(exclude, name, q);
    if q.parts != [] {
      assert (a + [name]) + q.parts == a + e.parts;
      assert IsRelativeTo(x, Div(Div(anchor, DotPath([name])), q));
    }
  }

  lemma CutByUp(exclude: seq<DotPath>, anchor: DotPath, name: string, x: DotPath)
    requires IsRelativeTo(x, Div(anchor, DotPath([name])))
    requires Skips(exclude, name) || CutBy(Strip(exclude, name), Div(anchor, DotPath([name])), x)
    ensures CutBy(exclude, anchor, x)
  {
    if Skips(exclude, name) {
      SkipsIff(exclude, name);
      assert DotPath([name]) in exclude;
    } else {
      var q :| q in Strip(exclude, name) && q.parts != [] &&
        IsRelativeTo(x, Div(Div(anchor, DotPath([name])), q));
      StripIff(exclude, name, q);
      var e := DotPath([name] + q.parts);
      assert (anchor.parts + [name]) + q.parts == anchor.parts + e.parts;
      assert e in exclude;
    }
  }

  /** A child's full path is its parent's followed by its name. */
  lemma ChildPath(nodes: Arena, parent: seq<nat>, i: nat, k: nat)
    requires TreeShaped(nodes, parent) && i < |nodes| && k < |nodes[i].children|
    ensures PathOf(nodes, parent, nodes[i].children[k]) ==
      Div(PathOf(nodes, parent, i), DotPath([nodes[nodes[i].children[k]].name]))
  {
  }

  /** Below a child `c` of `i`, being cut off from `i` is being skipped at `c` or cut off from `c`. */
  lemma ExcludedStep(nodes: Arena, parent: seq<nat>, i: nat, k: nat, exclude: seq<DotPath>, x: nat)
    requires TreeShaped(nodes, parent) && i < |nodes| && k < |nodes[i].children| && x < |nodes|
    requires Desc(parent, x, nodes[i].children[k])
    ensures Excluded(nodes, parent, i, x, exclude) <==>
      Skips(exclude, nodes[nodes[i].children[k]].name) ||
      Excluded(nodes, parent, nodes[i].children[k], x, Strip(exclude, nodes[nodes[i].children[k]].name))
  {
    var c := nodes[i].children[k];
    ChildPath(nodes, parent, i, k);
    DescPathPrefix(nodes, parent, x, c);
    var anchor := PathOf(nodes, parent, i);
    var px := PathOf(nodes, parent, x);
    if CutBy(exclude, anchor, px) {
      CutByDown(exclude, anchor, nodes[c].name, px);
    }
    if Skips(exclude, nodes[c].name) || Excluded(nodes, parent, c, x, Strip(exclude, nodes[c].name)) {
      CutByUp(exclude, anchor, nodes[c].name, px);
    }
  }

  lemma WalkChildrenStep(nodes: Arena, i: nat, k: nat, exclude: seq<DotPath>)
    requires WellFormed(nodes) && i < |nodes| && k < |nodes[i].children|
    ensures WalkChildren(nodes, i, k, exclude) ==
      (if Skips(exclude, nodes[nodes[i].children[k]].name) then []
       else Walk(nodes, nodes[i].children[k], Strip(exclude, nodes[nodes[i].children[k]].name)))
      + WalkChildren(nodes, i, k + 1, exclude)
  {
  }

  lemma {:induction false} WalkChildrenMember(nodes: Arena, i: nat, k0: nat, exclude: seq<DotPath>, x: nat) returns (k: nat)
    requires WellFormed(nodes) && i < |nodes| && k0 <= |nodes[i].children|
    requires x in WalkChildren(nodes, i, k0, exclude)
    ensures k0 <= k < |nodes[i].children|
    ensures !Skips(exclude, nodes[nodes[i].children[k]].name)
    ensures x in Walk(nodes, nodes[i].children[k], Strip(exclude, nodes[nodes[i].children[k]].name))
    decreases |nodes[i].children| - k0
  {
    var c := nodes[i].children[k0];
    if !Skips(exclude, nodes[c].name) && x in Walk(nodes, c, Strip(exclude, nodes[c].name)) {
      k := k0;
    } else {
      k := WalkChildrenMember(nodes, i, k0 + 1, exclude, x);
    }
  }

  lemma {:induction false} NotInWalkChildren(nodes: Arena, i: nat, k0: nat, exclude: seq<DotPath>, x: nat)
    requires WellFormed(nodes) && i < |nodes| && k0 <= |nodes[i].children|
    requires forall k :: k0 <= k < |nodes[i].children| ==>
      x !in Walk(nodes, nodes[i].children[k], Strip(exclude, nodes[nodes[i].children[k]].name))
    ensures x !in WalkChildren(nodes, i, k0, exclude)
    decreases |nodes[i].children| - k0
  {
    if k0 < |nodes[i].children| {
      var c := nodes[i].children[k0];
      var head := if Skips(exclude, nodes[c].name) then [] else Walk(nodes, c, Strip(exclude, nodes[c].name));
      assert WalkChildren(nodes, i, k0, exclude) == head + WalkChildren(nodes, i, k0 + 1, exclude);
      NotInWalkChildren(nodes, i, k0 + 1, exclude, x);
    }
  }

  lemma {:induction false} InWalkChildren(nodes: Arena, i: nat, k0: nat, k: nat, exclude: seq<DotPath>, x: nat)
    requires WellFormed(nodes) && i < |nodes| && k0 <= k < |nodes[i].children|
    requires !Skips(exclude, nodes[nodes[i].children[k]].name)
    requires x in Walk(nodes, nodes[i].children[k], Strip(exclude, nodes[nodes[i].children[k]].name))
    ensures x in WalkChildren(nodes, i, k0, exclude)
    decreases k - k0
  {
    var c := nodes[i].children[k0];
    var head := if Skips(exclude, nodes[c].name) then [] else Walk(nodes, c, Strip(exclude, nodes[c].name));
    var tail := WalkChildren(nodes, i, k0 + 1, exclude);
    assert WalkChildren(nodes, i, k0, exclude) == head + tail;
    if k0 < k {
      InWalkChildren(nodes, i, k0 + 1, k, exclude, x);
      assert x in tail;
    } else {
      assert x in head;
    }
  }

  /** The anchor itself is never cut off: exclude paths are non-empty below it. */
  lemma NotExcludedSelf(nodes: Arena, parent: seq<nat>, i: nat, exclude: seq<DotPath>)
    requires TreeShaped(nodes, parent) && i < |nodes|
    ensures !Excluded(nodes, parent, i, i, exclude)
  {
    var p := PathOf(nodes, parent, i);
    forall e | e in exclude && e.parts != []
      ensures !IsRelativeTo(p, Div(p, e))
    {
      IsRelativeToLonger(p, Div(p, e));
    }
  }

  /** Everything the walk visits lies below `i` and is not excluded. */
  lemma {:induction false} WalkSound(nodes: Arena, parent: seq<nat>, i: nat, exclude: seq<DotPath>, x: nat)
    requires TreeShaped(nodes, parent) && i < |nodes|
    requires x in Walk(nodes, i, exclude)
    ensures x < |nodes| && Desc(parent, x, i) && !Excluded(nodes, parent, i, x, exclude)
    decreases |nodes| - i
  {
    if x == i {
      NotExcludedSelf(nodes, parent, i, exclude);
    } else {
      var k := WalkChildrenMember(nodes, i, 0, exclude, x);
      var c := nodes[i].children[k];
      WalkSound(nodes, parent, c, Strip(exclude, nodes[c].name), x);
      DescTrans(parent, x, c, i);
      ExcludedStep(nodes, parent, i, k, exclude, x);
    }
  }

  /** Every node below `i` that is not excluded is visited. */
  lemma {:induction false} WalkComplete(nodes: Arena, parent: seq<nat>, i: nat, exclude: seq<DotPath>, x: nat)
    requires TreeShaped(nodes, parent) && i < |nodes| && x < |nodes|
    requires Desc(parent, x, i) && !Excluded(nodes, parent, i, x, exclude)
    ensures x in Walk(nodes, i, exclude)
    decreases x - i
  {
    if x != i {
      var c := ChildToward(nodes, parent, x, i);
      var k :| 0 <= k < |nodes[i].children| && nodes[i].children[k] == c;
      ExcludedStep(nodes, parent, i, k, exclude, x);
      WalkComplete(nodes, parent, c, Strip(exclude, nodes[c].name), x);
      InWalkChildren(nodes, i, 0, k, exclude, x);
    }
  }

  /** The walk visits exactly the non-excluded nodes below `i`. */
  lemma WalkIff(nodes: Arena, parent: seq<nat>, i: nat, exclude: seq<DotPath>, x: nat)
    requires TreeShaped(nodes, parent) && i < |nodes| && x < |nodes|
    ensures x in Walk(nodes, i, exclude) <==> Desc(parent, x, i) && !Excluded(nodes, parent, i, x, exclude)
  {
    if x in Walk(nodes, i, exclude) {
      WalkSound(nodes, parent, i, exclude, x);
    }
    if Desc(parent, x, i) && !Excluded(nodes, parent, i, x, exclude) {
      WalkComplete(nodes, parent, i, exclude, x);
    }
  }

  /** Without exclusion the walk visits the whole subtree. */
  lemma WalkAll(nodes: Arena, parent: seq<nat>, i: nat, x: nat)
    requires TreeShaped(nodes, parent) && i < |nodes| && x < |nodes|
    ensures x in Walk(nodes, i, []) <==> Desc(parent, x, i)
  {
    WalkIff(nodes, parent, i, [], x);
  }

  ghost predicate Distinct(s: seq<nat>)
  {
    forall a, b :: 0 <= a < b < |s| ==> s[a] != s[b]
  }

  lemma DistinctConcat(s: seq<nat>, t: seq<nat>)
    requires Distinct(s) && Distinct(t)
    requires forall y :: y in s ==> y !in t
    ensures Distinct(s + t)
  {
    forall a, b | 0 <= a < b < |s + t|
      ensures (s + t)[a] != (s + t)[b]
    {
      if a < |s| && |s| <= b {
        assert (s + t)[a] in s && (s + t)[b] in t;
      }
    }
  }

  /** The walk visits each node at most once. */
  lemma {:induction false} WalkDistinct(nodes: Arena, parent: seq<nat>, i: nat, exclude: seq<DotPath>)
    requires TreeShaped(nodes, parent) && i < |nodes|
    ensures Distinct(Walk(nodes, i, exclude))
    decreases |nodes| - i, |nodes[i].children| + 1
  {
    WalkChildrenDistinct(nodes, parent, i, 0, exclude);
    DistinctConcat([i], WalkChildren(nodes, i, 0, exclude));
  }

  lemma {:induction false} WalkChildrenDistinct(nodes: Arena, parent: seq<nat>, i: nat, k: nat, exclude: seq<DotPath>)
    requires TreeShaped(nodes, parent) && i < |nodes| && k <= |nodes[i].children|
    ensures Distinct(WalkChildren(nodes, i, k, exclude))
    decreases |nodes| - i, |nodes[i].children| - k
  {
    if k < |nodes[i].children| {
      var c := nodes[i].children[k];
      var sub := Strip(exclude, nodes[c].name);
      var head := if Skips(exclude, nodes[c].name) then [] else Walk(nodes, c, sub);
      var tail := WalkChildren(nodes, i, k + 1, exclude);
      WalkChildrenDistinct(nodes, parent, i, k + 1, exclude);
      if !Skips(exclude, nodes[c].name) {
        WalkDistinct(nodes, parent, c, sub);
      }
      forall y | y in head
        ensures y !in tail
      {
        WalkSound(nodes, parent, c, sub, y);
        forall k' | k < k' < |nodes[i].children|
          ensures y !in Walk(nodes, nodes[i].children[k'], Strip(exclude, nodes[nodes[i].children[k']].name))
        {
          var c' := nodes[i].children[k'];
          assert nodes[c].name != nodes[c'].name;
          SiblingsDisjoint(nodes, parent, y, c, c');
          WalkIff(nodes, parent, c', Strip(exclude, nodes[c'].name), y);
        }
        NotInWalkChildren(nodes, i, k + 1, exclude, y);
      }
      DistinctConcat(head, tail);
    }
  }

  /** Exclude paths that are empty or lead nowhere below `i` (the anchor's own name, '', missing names) change nothing. */
  lemma {:induction false} WalkIgnoresMissingExcludes(nodes: Arena, i: nat, exclude: seq<DotPath>)
    requires WellFormed(nodes) && i < |nodes|
    requires forall e :: e in exclude ==> e.parts == [] || Get(nodes, i, e).None?
    ensures Walk(nodes, i, exclude) == Walk(nodes, i, [])
    decreases |nodes| - i, |nodes[i].children| + 1
  {
    WalkChildrenIgnoresMissing(nodes, i, 0, exclude);
  }

  lemma {:induction false} WalkChildrenIgnoresMissing(nodes: Arena, i: nat, k: nat, exclude: seq<DotPath>)
    requires WellFormed(nodes) && i < |nodes| && k <= |nodes[i].children|
    requires forall e :: e in exclude ==> e.parts == [] || Get(nodes, i, e).None?
    ensures WalkChildren(nodes, i, k, exclude) == WalkChildren(nodes, i, k, [])
    decreases |nodes| - i, |nodes[i].children| - k
  {
    if k < |nodes[i].children| {
      var c := nodes[i].children[k];
      var name := nodes[c].name;
      var sub := Strip(exclude, name);
      ChildPosUnique(nodes, i, k);
      SkipsIff(exclude, name);
      SkipsIff([], name);
      assert Get(nodes, i, DotPath([name])) == Get(nodes, c, DotPath([])) == Some(c);
      forall q | q in sub
        ensures q.parts == [] || Get(nodes, c, q).None?
      {
        StripIff(exclude, name, q);
        var e := DotPath([name] + q.parts);
        assert e.parts[1..] == q.parts;
        if q.parts != [] {
          assert Get(nodes, i, e) == Get(nodes, c, q);
        }
      }
      WalkIgnoresMissingExcludes(nodes, c, sub);
      assert Strip([], name) == [];
      WalkChildrenIgnoresMissing(nodes, i, k + 1, exclude);
    }
  }

  // ---------------------------------------------------------------------------
  // How the tree may change

  /** `b` extends `a`: old nodes keep name, file path and imports, and only gain children at the end. */
  ghost predicate Grown(a: Arena, b: Arena)
  {
    && |a| <= |b|
    && forall j :: 0 <= j < |a| ==>
         && b[j].name == a[j].name && b[j].filePath == a[j].filePath && b[j].imports == a[j].imports
         && |a[j].children| <= |b[j].children| && b[j].children[..|a[j].children|] == a[j].children
  }

  lemma GrownRefl(a: Arena)
    ensures Grown(a, a)
  {
    forall j | 0 <= j < |a|
      ensures a[j].children[..|a[j].children|] == a[j].children
    {
    }
  }

  lemma GrownTrans(a: Arena, b: Arena, c: Arena)
    requires Grown(a, b) && Grown(b, c)
    ensures Grown(a, c)
  {
    forall j | 0 <= j < |a|
      ensures c[j].children[..|a[j].children|] == a[j].children
    {
      assert c[j].children[..|a[j].children|] == c[j].children[..|b[j].children|][..|a[j].children|];
    }
  }

  /** Growing the tree keeps every lookup that already succeeded. */
  lemma {:induction false} GetGrown(a: Arena, b: Arena, i: nat, path: DotPath)
    requires WellFormed(a) && WellFormed(b) && Grown(a, b) && i < |a|
    requires Get(a, i, path).Some?
    ensures Get(b, i, path) == Get(a, i, path)
    decreases |path.parts|
  {
    if path.parts != [] {
      var k := ChildPos(a, i, path.parts[0]).value;
      assert b[i].children[k] == b[i].children[..|a[i].children|][k] == a[i].children[k];
      ChildPosUnique(b, i, k);
      GetGrown(a, b, a[i].children[k], DotPath(path.parts[1..]));
    }
  }

  /** Growing the tree keeps the full path of every old node. */
  lemma {:induction false} PathOfGrown(a: Arena, pa: seq<nat>, b: Arena, pb: seq<nat>, x: nat)
    requires TreeShaped(a, pa) && TreeShaped(b, pb) && Grown(a, b) && pb[..|a|] == pa && x < |a|
    ensures PathOf(b, pb, x) == PathOf(a, pa, x)
    decreases x
  {
    if x != RootIndex {
      assert pb[x] == pb[..|a|][x];
      PathOfGrown(a, pa, b, pb, pa[x]);
    }
  }

  /** Node `i` with one more child, called `name`, appended at the end of the arena. */
  function AddChild(nodes: Arena, i: nat, name: string, fp: FsPath): (r: Arena)
    requires i < |nodes|
    ensures |r| == |nodes| + 1 && r[|nodes|] == NodeData(name, fp, [], [])
    ensures r[i].children == nodes[i].children + [|nodes|]
    ensures forall j :: 0 <= j < |nodes| && j != i ==> r[j] == nodes[j]
  {
    nodes[i := nodes[i].(children := nodes[i].children + [|nodes|])] + [NodeData(name, fp, [], [])]
  }

  lemma AddChildWellFormed(nodes: Arena, i: nat, name: string, fp: FsPath)
    requires WellFormed(nodes) && i < |nodes| && ChildPos(nodes, i, name).None?
    ensures WellFormed(AddChild(nodes, i, name, fp))
  {
    var r := AddChild(nodes, i, name, fp);
    forall j, k | 0 <= j < |r| && 0 <= k < |r[j].children|
      ensures j < r[j].children[k] < |r|
    {
      if !(j == i && k == |nodes[i].children|) {
        assert r[j].children[k] == nodes[j].children[k];
      }
    }
    forall j, k1, k2 | 0 <= j < |r| && 0 <= k1 < k2 < |r[j].children|
      ensures r[r[j].children[k1]].name != r[r[j].children[k2]].name
    {
      assert r[j].children[k1] == nodes[j].children[k1];
      if !(j == i && k2 == |nodes[i].children|) {
        assert r[j].children[k2] == nodes[j].children[k2];
        assert nodes[nodes[j].children[k1]].name != nodes[nodes[j].children[k2]].name;
      }
    }
  }

  lemma AddChildShaped(nodes: Arena, parent: seq<nat>, i: nat, name: string, fp: FsPath)
    requires TreeShaped(nodes, parent) && i < |nodes| && ChildPos(nodes, i, name).None?
    ensures TreeShaped(AddChild(nodes, i, name, fp), parent + [i])
  {
    AddChildWellFormed(nodes, i, name, fp);
    var r := AddChild(nodes, i, name, fp);
    var p := parent + [i];
    forall j, k | 0 <= j < |r| && 0 <= k < |r[j].children|
      ensures p[r[j].children[k]] == j
    {
      if !(j == i && k == |nodes[i].children|) {
        assert r[j].children[k] == nodes[j].children[k];
      }
    }
    forall x | 1 <= x < |r|
      ensures p[x] < x && x in r[p[x]].children
    {
      if x < |nodes| {
        var k :| 0 <= k < |nodes[parent[x]].children| && nodes[parent[x]].children[k] == x;
        assert r[parent[x]].children[k] == x;
      } else {
        assert r[i].children[|nodes[i].children|] == x;
      }
    }
  }

  lemma AddChildGrown(nodes: Arena, i: nat, name: string, fp: FsPath)
    requires i < |nodes|
    ensures Grown(nodes, AddChild(nodes, i, name, fp))
  {
    var r := AddChild(nodes, i, name, fp);
    assert r[i].children[..|nodes[i].children|] == nodes[i].children;
  }

  lemma AddChildFacts(nodes: Arena, parent: seq<nat>, i: nat, name: string, fp: FsPath)
    requires TreeShaped(nodes, parent) && i < |nodes| && ChildPos(nodes, i, name).None?
    ensures TreeShaped(AddChild(nodes, i, name, fp), parent + [i])
    ensures Grown(nodes, AddChild(nodes, i, name, fp))
    ensures ChildPos(AddChild(nodes, i, name, fp), i, name) == Some(|nodes[i].children|)
  {
    AddChildShaped(nodes, parent, i, name, fp);
    AddChildGrown(nodes, i, name, fp);
    ChildPosUnique(AddChild(nodes, i, name, fp), i, |nodes[i].children|);
  }

  /** `a` and `b` differ at most in file paths and imports, so lookups and walks agree. */
  ghost predicate SameShape(a: Arena, b: Arena)
  {
    |a| == |b| && forall j :: 0 <= j < |a| ==> a[j].name == b[j].name && a[j].children == b[j].children
  }

  /** Replacing one node's file path and imports keeps the shape. */
  lemma UpdateSameShape(a: Arena, r: nat, fp: FsPath, imports: seq<ImportRecord>)
    requires r < |a|
    ensures SameShape(a, a[r := a[r].(filePath := fp, imports := imports)])
  {
  }

  lemma {:induction false} GetSameShape(a: Arena, b: Arena, i: nat, path: DotPath)
    requires WellFormed(a) && WellFormed(b) && SameShape(a, b) && i < |a|
    ensures Get(a, i, path) == Get(b, i, path)
    decreases |path.parts|
  {
    if path.parts != [] {
      var pa := ChildPos(a, i, path.parts[0]);
      if pa.Some? {
        ChildPosUnique(b, i, pa.value);
        GetSameShape(a, b, a[i].children[pa.value], DotPath(path.parts[1..]));
      }
    }
  }

  lemma {:induction false} PathOfSameShape(a: Arena, b: Arena, parent: seq<nat>, x: nat)
    requires TreeShaped(a, parent) && TreeShaped(b, parent) && SameShape(a, b) && x < |a|
    ensures PathOf(a, parent, x) == PathOf(b, parent, x)
    decreases x
  {
    if x != RootIndex {
      PathOfSameShape(a, b, parent, parent[x]);
    }
  }

  lemma {:induction false} WalkSameShape(a: Arena, b: Arena, i: nat, exclude: seq<DotPath>)
    requires WellFormed(a) && WellFormed(b) && SameShape(a, b) && i < |a|
    ensures Walk(a, i, exclude) == Walk(b, i, exclude)
    decreases |a| - i, |a[i].children| + 1
  {
    WalkChildrenSameShape(a, b, i, 0, exclude);
  }

  lemma {:induction false} WalkChildrenSameShape(a: Arena, b: Arena, i: nat, k: nat, exclude: seq<DotPath>)
    requires WellFormed(a) && WellFormed(b) && SameShape(a, b) && i < |a| && k <= |a[i].children|
    ensures WalkChildren(a, i, k, exclude) == WalkChildren(b, i, k, exclude)
    decreases |a| - i, |a[i].children| - k
  {
    if k < |a[i].children| {
      var c := a[i].children[k];
      WalkSameShape(a, b, c, Strip(exclude, a[c].name));
      WalkChildrenSameShape(a, b, i, k + 1, exclude);
    }
  }

  /** The child file path `get_or_add` records for a node created with `remaining` segments still to go. */
  function CreatedFilePath(filePath: FsPath, remaining: nat): FsPath
  {
    if remaining > 0 then DropLast(filePath, remaining) else filePath
  }

  /**
   * The nodes `b` appends after `a` were created for the last `|b| - |a|`
   * segments of `path`, one per segment and in order, each without imports
   * and with `filePath` shortened by the number of segments still below it.
   */
  ghost predicate CreatedAlong(a: Arena, b: Arena, path: seq<string>, filePath: FsPath)
  {
    && |a| <= |b| <= |a| + |path|
    && forall j :: |a| <= j < |b| ==>
         && b[j].name == path[|path| - |b| + j] && b[j].imports == []
         && b[j].filePath == CreatedFilePath(filePath, |b| - j - 1)
  }

  lemma CreatedAlongAt(a: Arena, b: Arena, path: seq<string>, filePath: FsPath, j: nat)
    requires CreatedAlong(a, b, path, filePath) && |a| <= j < |b|
    ensures b[j].filePath == CreatedFilePath(filePath, |b| - j - 1)
  {
  }

  lemma CreatedAlongShift(a: Arena, b: Arena, path: seq<string>, filePath: FsPath)
    requires path != [] && CreatedAlong(a, b, path[1..], filePath)
    ensures CreatedAlong(a, b, path, filePath)
  {
    forall j | |a| <= j < |b|
      ensures b[j].name == path[|path| - |b| + j]
    {
      assert path[|path| - |b| + j] == path[1..][|path| - 1 - |b| + j];
    }
  }

  lemma CreatedAlongCons(a: Arena, mid: Arena, b: Arena, path: seq<string>, filePath: FsPath)
    requires path != [] && |mid| == |a| + 1 && Grown(mid, b) && |b| == |mid| + |path| - 1
    requires mid[|a|] == NodeData(path[0], CreatedFilePath(filePath, |path| - 1), [], [])
    requires CreatedAlong(mid, b, path[1..], filePath)
    ensures CreatedAlong(a, b, path, filePath)
  {
    forall j | |mid| <= j < |b|
      ensures b[j].name == path[|path| - |b| + j]
    {
      assert path[|path| - |b| + j] == path[1..][|path| - 1 - |b| + j];
    }
  }

  /** Through an existing child at position `k`, a lookup is the lookup below that child. */
  lemma GetThroughChild(a: Arena, b: Arena, at: nat, k: nat, path: DotPath)
    requires WellFormed(a) && WellFormed(b) && Grown(a, b) && at < |a| && path.parts != []
    requires k < |a[at].children| && a[a[at].children[k]].name == path.parts[0]
    ensures Get(b, at, path) == Get(b, a[at].children[k], DotPath(path.parts[1..]))
  {
    assert b[at].children[k] == b[at].children[..|a[at].children|][k] == a[at].children[k];
    ChildPosUnique(b, at, k);
  }

  /** A node just appended has no children, so nothing below it resolves. */
  lemma ResolvedFresh(mid: Arena, c: nat, path: DotPath)
    requires WellFormed(mid) && c < |mid| && mid[c].children == []
    ensures Resolved(mid, c, path) == 0
  {
    if path.parts != [] {
      assert ChildPos(mid, c, path.parts[0]).None?;
    }
  }

  /**
   * What `get_or_add(path)` on node `at` does to a tree `a` (with parents
   * `pa`), leaving `b` (with parents `pb`) and answering `r`: the tree only
   * grows, `r` is the node for `path`, nothing changes when that node already
   * existed, and the new nodes are those CreatedAlong describes, one for each
   * segment that did not resolve.
   */
  ghost predicate GetOrAddResult(a: Arena, pa: seq<nat>, b: Arena, pb: seq<nat>,
                                 at: nat, path: DotPath, filePath: FsPath, r: nat)
  {
    && WellFormed(a) && WellFormed(b) && at < |a|
    && Grown(a, b) && |a| <= |pb| && pb[..|a|] == pa
    && Get(b, at, path) == Some(r)
    && (Get(a, at, path).Some? ==> b == a && pb == pa)
    && |b| == |a| + |path.parts| - Resolved(a, at, path)
    && CreatedAlong(a, b, path.parts, filePath)
  }

  lemma GetOrAddEmptyCase(a: Arena, pa: seq<nat>, at: nat, path: DotPath, filePath: FsPath)
    requires WellFormed(a) && at < |a| && |pa| == |a| && path.parts == []
    ensures GetOrAddResult(a, pa, a, pa, at, path, filePath, at)
  {
    GrownRefl(a);
    assert pa[..|a|] == pa;
  }

  /** After `get_or_add` created the missing child of `at` and continued below it. */
  lemma GetOrAddNewCase(a: Arena, pa: seq<nat>, mid: Arena, b: Arena, pb: seq<nat>,
                        at: nat, path: DotPath, filePath: FsPath, r: nat)
    requires WellFormed(a) && at < |a| && |pa| == |a| && path.parts != [] && ChildPos(a, at, path.parts[0]).None?
    requires mid == AddChild(a, at, path.parts[0], CreatedFilePath(filePath, |path.parts| - 1))
    requires GetOrAddResult(mid, pa + [at], b, pb, |a|, DotPath(path.parts[1..]), filePath, r)
    ensures GetOrAddResult(a, pa, b, pb, at, path, filePath, r)
  {
    var rest := DotPath(path.parts[1..]);
    assert pb[..|a|] == pb[..|mid|][..|a|];
    GetOrAddNewStep(a, mid, b, at, path, filePath, r);
  }

  lemma GetOrAddNewStep(a: Arena, mid: Arena, b: Arena, at: nat, path: DotPath, filePath: FsPath, r: nat)
    requires WellFormed(a) && at < |a| && path.parts != [] && ChildPos(a, at, path.parts[0]).None?
    requires mid == AddChild(a, at, path.parts[0], CreatedFilePath(filePath, |path.parts| - 1))
    requires WellFormed(mid) && WellFormed(b) && Grown(mid, b)
    requires Get(b, |a|, DotPath(path.parts[1..])) == Some(r)
    requires |b| == |mid| + |path.parts| - 1 - Resolved(mid, |a|, DotPath(path.parts[1..]))
    requires CreatedAlong(mid, b, path.parts[1..], filePath)
    ensures Get(a, at, path).None?
    ensures Grown(a, b)
    ensures Get(b, at, path) == Some(r)
    ensures |b| == |a| + |path.parts| - Resolved(a, at, path)
    ensures CreatedAlong(a, b, path.parts, filePath)
  {
    assert Grown(a, b) by {
      AddChildGrown(a, at, path.parts[0], CreatedFilePath(filePath, |path.parts| - 1));
      GrownTrans(a, mid, b);
    }
    assert Get(b, at, path) == Some(r) by {
      GetThroughChild(mid, b, at, |a[at].children|, path);
    }
    assert |b| == |a| + |path.parts| - Resolved(a, at, path) by {
      ResolvedFresh(mid, |a|, DotPath(path.parts[1..]));
    }
    assert CreatedAlong(a, b, path.parts, filePath) by {
      CreatedAlongCons(a, mid, b, path.parts, filePath);
    }
  }

  lemma ResolvedThroughChild(a: Arena, at: nat, k: nat, path: DotPath)
    requires WellFormed(a) && at < |a| && path.parts != []
    requires ChildPos(a, at, path.parts[0]) == Some(k)
    ensures Resolved(a, at, path) == 1 + Resolved(a, a[at].children[k], DotPath(path.parts[1..]))
    ensures Get(a, at, path) == Get(a, a[at].children[k], DotPath(path.parts[1..]))
  {
  }

  /** After `get_or_add` went through the existing child at position `k` of `at`. */
  lemma GetOrAddOldCase(a: Arena, pa: seq<nat>, b: Arena, pb: seq<nat>,
                        at: nat, k: nat, path: DotPath, filePath: FsPath, r: nat)
    requires WellFormed(a) && at < |a| && path.parts != []
    requires ChildPos(a, at, path.parts[0]) == Some(k)
    requires GetOrAddResult(a, pa, b, pb, a[at].children[k], DotPath(path.parts[1..]), filePath, r)
    ensures GetOrAddResult(a, pa, b, pb, at, path, filePath, r)
  {
    ResolvedThroughChild(a, at, k, path);
    GetThroughChild(a, b, at, k, path);
    CreatedAlongShift(a, b, path.parts, filePath);
  }

  /**
   * Each node `b` appends after `a` is found from `at` by the prefix of
   * `path` that ends with the segment it was created for: the `k`-segment
   * prefix leads to the node appended `|path| - k` places before the end.
   */
  ghost predicate FoundAlong(a: Arena, b: Arena, at: nat, path: seq<string>)
    requires WellFormed(b) && at < |b|
  {
    && |a| <= |b| <= |a| + |path|
    && forall k :: 0 < k <= |path| && |a| + |path| < |b| + k ==>
         Get(b, at, DotPath(path[..k])) == Some(|b| - |path| + k - 1)
  }

  lemma FoundAlongAt(a: Arena, b: Arena, at: nat, path: seq<string>, k: nat)
    requires WellFormed(b) && at < |b| && FoundAlong(a, b, at, path)
    requires 0 < k <= |path| && |a| + |path| < |b| + k
    ensures Get(b, at, DotPath(path[..k])) == Some(|b| - |path| + k - 1)
  {
  }

  lemma FoundAlongNew(a: Arena, mid: Arena, b: Arena, at: nat, pos: nat, path: seq<string>)
    requires WellFormed(mid) && WellFormed(b) && Grown(mid, b) && at < |mid| && path != []
    requires |mid| == |a| + 1 && pos < |mid[at].children| && mid[at].children[pos] == |a| && mid[|a|].name == path[0]
    requires |b| == |a| + |path|
    requires FoundAlong(mid, b, |a|, path[1..])
    ensures FoundAlong(a, b, at, path)
  {
    forall k | 0 < k <= |path| && |a| + |path| < |b| + k
      ensures Get(b, at, DotPath(path[..k])) == Some(|b| - |path| + k - 1)
    {
      FoundAlongNewAt(a, mid, b, at, pos, path, k);
    }
  }

  lemma FoundAlongNewAt(a: Arena, mid: Arena, b: Arena, at: nat, pos: nat, path: seq<string>, k: nat)
    requires WellFormed(mid) && WellFormed(b) && Grown(mid, b) && at < |mid| && path != []
    requires |mid| == |a| + 1 && pos < |mid[at].children| && mid[at].children[pos] == |a| && mid[|a|].name == path[0]
    requires |b| == |a| + |path|
    requires FoundAlong(mid, b, |a|, path[1..])
    requires 0 < k <= |path|
    ensures Get(b, at, DotPath(path[..k])) == Some(|a| + k - 1)
  {
    assert Get(b, at, DotPath(path[..k])) == Get(b, |a|, DotPath(path[..k][1..])) by {
      GetThroughChild(mid, b, at, pos, DotPath(path[..k]));
    }
    var below := DotPath(path[..k][1..]);
    if k > 1 {
      assert below == DotPath(path[1..][..k - 1]);
      assert Get(b, |a|, below) == Some(|a| + k - 1) by {
        FoundAlongAt(mid, b, |a|, path[1..], k - 1);
      }
    } else {
      assert below.parts == [];
    }
  }

  lemma FoundAlongOld(a: Arena, b: Arena, at: nat, pos: nat, path: seq<string>)
    requires WellFormed(a) && WellFormed(b) && Grown(a, b) && at < |a| && path != []
    requires ChildPos(a, at, path[0]) == Some(pos)
    requires FoundAlong(a, b, a[at].children[pos], path[1..])
    ensures FoundAlong(a, b, at, path)
  {
    forall k | 0 < k <= |path| && |a| + |path| < |b| + k
      ensures Get(b, at, DotPath(path[..k])) == Some(|b| - |path| + k - 1)
    {
      GetThroughChild(a, b, at, pos, DotPath(path[..k]));
      assert path[..k][1..] == path[1..][..k - 1];
    }
  }

  /** Every prefix of a path that resolves resolves too. */
  lemma {:induction false} GetPrefix(nodes: Arena, i: nat, path: DotPath, k: nat)
    requires WellFormed(nodes) && i < |nodes| && Get(nodes, i, path).Some? && k <= |path.parts|
    ensures Get(nodes, i, DotPath(path.parts[..k])).Some?
    decreases |path.parts|
  {
    if k > 0 {
      var c := nodes[i].children[ChildPos(nodes, i, path.parts[0]).value];
      assert path.parts[..k][1..] == path.parts[1..][..k - 1];
      GetPrefix(nodes, c, DotPath(path.parts[1..]), k - 1);
    }
  }

  /** The file path `add_data_for_init_file` leaves on a node: `__init__.py` inside the old one, unless it already names that file. */
  function InitFilePath(fp: FsPath): (r: FsPath)
    ensures FileName(r) == InitFile
    ensures FileName(fp) == InitFile ==> r == fp
    ensures FileName(fp) != InitFile ==> |r| == |fp| + 1 && r[..|fp|] == fp
  {
    if FileName(fp) == InitFile then fp else fp + [InitFile]
  }

  // ---------------------------------------------------------------------------
  // The tree object

  class Tree {
    var nodes: Arena
    ghost var parent: seq<nat>

    ghost predicate Valid()
      reads this
    {
      TreeShaped(nodes, parent)
    }

    /** `RootNode()`: a root holder without children. */
    constructor ()
      ensures Valid() && nodes == [NodeData("", [], [], [])]
    {
      nodes := [NodeData("", [], [], [])];
      parent := [0];
    }

    /**
     * `get_or_add`: the node for `path` below `at`, creating each missing node
     * on the way. The created nodes are appended for the segments from the
     * first missing one on; the one for segment `t` records `filePath` with
     * the last `|path| - t - 1` parts dropped. Existing nodes are never
     * replaced. On the root holder only non-empty paths get here (see
     * RootGetOrAdd).
     */
    method GetOrAdd(at: nat, path: DotPath, filePath: FsPath) returns (r: nat)
      requires Valid() && at < |nodes| && (at == RootIndex ==> path.parts != [])
      modifies this
      ensures Valid()
      ensures GetOrAddResult(old(nodes), old(parent), nodes, parent, at, path, filePath, r)
      ensures FoundAlong(old(nodes), nodes, at, path.parts)
      decreases |path.parts|
    {
      if path.parts == [] {
        GetOrAddEmptyCase(nodes, parent, at, path, filePath);
        return at;
      }
      var name := path.parts[0];
      var rest := DotPath(path.parts[1..]);
      var pos := ChildPos(nodes, at, name);
      if pos.None? {
        var child := AddChildNode(at, name, CreatedFilePath(filePath, |rest.parts|));
        ghost var mid := nodes;
        r := GetOrAdd(child, rest, filePath);
        GetOrAddNewCase(old(nodes), old(parent), mid, nodes, parent, at, path, filePath, r);
        ResolvedFresh(mid, child, rest);
        FoundAlongNew(old(nodes), mid, nodes, at, |old(nodes)[at].children|, path.parts);
      } else {
        r := GetOrAdd(nodes[at].children[pos.value], rest, filePath);
        GetOrAddOldCase(old(nodes), old(parent), nodes, parent, at, pos.value, path, filePath, r);
        FoundAlongOld(old(nodes), nodes, at, pos.value, path.parts);
      }
    }

    /** One `_children[name] = ModuleNode(...)` assignment: a new childless node under `at`. */
    method AddChildNode(at: nat, name: string, filePath: FsPath) returns (child: nat)
      requires Valid() && at < |nodes| && ChildPos(nodes, at, name).None?
      modifies this
      ensures Valid()
      ensures child == |old(nodes)| && nodes == AddChild(old(nodes), at, name, filePath)
      ensures parent == old(parent) + [at]
    {
      AddChildFacts(nodes, parent, at, name, filePath);
      child := |nodes|;
      nodes := AddChild(nodes, at, name, filePath);
      parent := parent + [at];
    }

    /** `RootNode.get_or_add`: the empty path is a KeyError, otherwise as GetOrAdd from the root holder. */
    method RootGetOrAdd(path: DotPath, filePath: FsPath) returns (r: Result<nat>)
      requires Valid()
      modifies this
      ensures Valid()
      ensures r.Err? <==> path.parts == []
      ensures r.Err? ==> r.error == KeyError && nodes == old(nodes) && parent == old(parent)
      ensures r.Ok? ==> RootGet(nodes, path) == Ok(Some(r.value))
      ensures r.Ok? ==> GetOrAddResult(old(nodes), old(parent), nodes, parent, RootIndex, path, filePath, r.value)
      ensures r.Ok? ==> FoundAlong(old(nodes), nodes, RootIndex, path.parts)
    {
      if path.parts == [] {
        return Err(KeyError);
      }
      var n := GetOrAdd(RootIndex, path, filePath);
      r := Ok(n);
    }

    /** `add_imports`: the records are appended to the node's imports, in order. */
    method AddImports(n: nat, imports: seq<ImportRecord>)
      requires Valid() && 1 <= n < |nodes|
      modifies this
      ensures Valid() && parent == old(parent) && SameShape(old(nodes), nodes)
      ensures nodes == old(nodes)[n := old(nodes)[n].(imports := old(nodes)[n].imports + imports)]
    {
      nodes := nodes[n := nodes[n].(imports := nodes[n].imports + imports)];
      assert forall j, k :: 0 <= j < |nodes| && 0 <= k < |nodes[j].children| ==>
        nodes[j].children[k] == old(nodes)[j].children[k];
    }

    /**
     * `add_data_for_init_file`: the initializer's imports are appended and the
     * node's file path is pointed at `__init__.py` inside it, unless it already
     * names that file. A file path that has a suffix fails the assertion there.
     */
    method AddDataForInitFile(n: nat, imports: seq<ImportRecord>) returns (ok: bool)
      requires Valid() && 1 <= n < |nodes|
      modifies this
      ensures Valid() && parent == old(parent) && SameShape(old(nodes), nodes)
      ensures ok <==> FileName(old(nodes)[n].filePath) == InitFile || Suffix(FileName(old(nodes)[n].filePath)) == ""
      ensures !ok ==> nodes == old(nodes)
      ensures ok ==> nodes == old(nodes)[n := old(nodes)[n].(
        imports := old(nodes)[n].imports + imports,
        filePath := InitFilePath(old(nodes)[n].filePath))]
    {
      var fp := nodes[n].filePath;
      if FileName(fp) != InitFile {
        if Suffix(FileName(fp)) != "" {
          return false;
        }
        fp := fp + [InitFile];
      }
      nodes := nodes[n := nodes[n].(imports := nodes[n].imports + imports, filePath := fp)];
      assert forall j, k :: 0 <= j < |nodes| && 0 <= k < |nodes[j].children| ==>
        nodes[j].children[k] == old(nodes)[j].children[k];
      ok := true;
    }

    /** `walk(exclude)`: yields the node, then each non-excluded child's walk with the exclude paths stripped. */
    method WalkNodes(i: nat, exclude: seq<DotPath>) returns (visited: seq<nat>)
      requires Valid() && 1 <= i < |nodes|
      ensures visited == Walk(nodes, i, exclude)
      decreases |nodes| - i
    {
      visited := [i];
      var children := nodes[i].children;
      var k := 0;
      while k < |children|
        invariant 0 <= k <= |children|
        invariant visited + WalkChildren(nodes, i, k, exclude) == Walk(nodes, i, exclude)
      {
        var c := children[k];
        WalkChildrenStep(nodes, i, k, exclude);
        if !Skips(exclude, nodes[c].name) {
          var below := WalkNodes(c, Strip(exclude, nodes[c].name));
          ConcatAssoc3(visited, below, WalkChildren(nodes, i, k + 1, exclude));
          visited := visited + below;
        } else {
          assert [] + WalkChildren(nodes, i, k + 1, exclude) == WalkChildren(nodes, i, k + 1, exclude);
        }
        k := k + 1;
      }
    }
  }
}
