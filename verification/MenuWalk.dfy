/** node_iter(): the iterative walk over the links of a menu tree. */
module MenuWalk {
  import opened Wrappers
  import opened MenuTree
  import opened MenuLinks

  /**
   * Where a walk is: the current node with the siblings after it, then its parent with the
   * siblings after that, and so on up to the top node.
   */
  type Path = seq<seq<Menu>>

  function ParentOn(path: Path): Option<Node> {
    if |path| > 1 && path[1] != [] then Some(path[1][0].node) else None
  }

  ghost predicate OnPath(L: Links, path: Path) {
    path != [] ==>
      && path[0] != [] && Seg(L, Some(path[0][0].node), None, ParentOn(path), path[0])
      && OnPath(L, path[1..])
  }

  /** The nodes that come after those above the current one. */
  function Above(path: Path): seq<Node> {
    if path == [] then [] else (if path[0] == [] then [] else Preorder(path[0][1..])) + Above(path[1..])
  }

  /** All nodes that come after the current one. */
  function Pending(path: Path): seq<Node> {
    if path == [] || path[0] == [] then [] else Preorder(path[0][0].kids) + Above(path)
  }

  /** The links of the current node. */
  lemma Current(L: Links, path: Path)
    requires path != [] && OnPath(L, path)
    ensures path[0] != [] && (|path| > 1 ==> path[1] != []) && OnPath(L, path[1..])
    ensures
      var (n, kids, rest) := (path[0][0].node, path[0][0].kids, path[0][1..]);
      && At(L.parent, n) == ParentOn(path)
      && Seg(L, At(L.list, n), None, Some(n), kids) && Seg(L, At(L.next, n), None, ParentOn(path), rest)
      && (n in L.list <==> kids != []) && (kids != [] ==> L.list[n] == kids[0].node)
      && (n in L.next <==> rest != []) && (rest != [] ==> L.next[n] == rest[0].node)
  {
    var n := path[0][0].node;
    SegEnds(L, At(L.list, n), Some(n), path[0][0].kids);
    SegEnds(L, At(L.next, n), ParentOn(path), path[0][1..]);
    if |path| > 1 { assert path[1..][0] == path[1]; }
  }

  lemma PathCons(L: Links, ms: seq<Menu>, path: Path)
    requires ms != [] && OnPath(L, path)
    requires Seg(L, Some(ms[0].node), None, ParentOn([ms] + path), ms)
    ensures OnPath(L, [ms] + path)
  {
    assert ([ms] + path)[1..] == path;
  }

  lemma PendingCons(ms: seq<Menu>, path: Path)
    requires ms != []
    ensures [ms[0].node] + Pending([ms] + path) == Preorder(ms) + Above(path)
  {
    assert ([ms] + path)[1..] == path;
    assert [ms[0].node] + (Preorder(ms[0].kids) + (Preorder(ms[1..]) + Above(path)))
        == [ms[0].node] + Preorder(ms[0].kids) + Preorder(ms[1..]) + Above(path);
  }

  lemma GoDown(L: Links, path: Path)
    requires path != [] && OnPath(L, path) && path[0] != [] && path[0][0].node in L.list
    ensures var kids := path[0][0].kids;
      && kids != [] && L.list[path[0][0].node] == kids[0].node && OnPath(L, [kids] + path)
      && Pending(path) == [kids[0].node] + Pending([kids] + path)
  {
    Current(L, path);
    hide Seg, Preorder;
    PathCons(L, path[0][0].kids, path);
    PendingCons(path[0][0].kids, path);
  }

  /** The siblings after the current node are next, once its children are done. */
  lemma GoOn(L: Links, path: Path)
    requires path != [] && OnPath(L, path) && path[0] != [] && path[0][0].node in L.next
    ensures var rest := path[0][1..];
      && rest != [] && L.next[path[0][0].node] == rest[0].node && OnPath(L, [rest] + path[1..])
      && Above(path) == [rest[0].node] + Pending([rest] + path[1..])
  {
    Current(L, path);
    hide Seg, Preorder;
    assert ParentOn([path[0][1..]] + path[1..]) == ParentOn(path);
    PathCons(L, path[0][1..], path[1..]);
    PendingCons(path[0][1..], path[1..]);
  }

  lemma GoUp(L: Links, path: Path)
    requires path != [] && OnPath(L, path) && path[0] != [] && path[0][0].node !in L.next
    ensures Above(path) == Above(path[1..]) && At(L.parent, path[0][0].node) == ParentOn(path)
    ensures OnPath(L, path[1..]) && (|path| > 1 ==> path[1..][0] == path[1] && path[1] != [])
    ensures |path| == 1 ==> Above(path) == []
  {
    Current(L, path);
    assert path[0][1..] == [];
  }

  /** The symbol that each node is for. */
  type SymOf = Node -> nat

  /** The nodes, without those of symbols that have been met already. */
  function FirstNodes(I: Info, symOf: SymOf, nodes: seq<Node>, seen: set<nat>): seq<Node> {
    if nodes == [] then []
    else if I.isSym(nodes[0]) && symOf(nodes[0]) in seen then FirstNodes(I, symOf, nodes[1..], seen)
    else [nodes[0]] + FirstNodes(I, symOf, nodes[1..], if I.isSym(nodes[0]) then seen + {symOf(nodes[0])} else seen)
  }

  function Visited(I: Info, symOf: SymOf, uniqueSyms: bool, nodes: seq<Node>, seen: set<nat>): seq<Node> {
    if uniqueSyms then FirstNodes(I, symOf, nodes, seen) else nodes
  }

  lemma NothingBefore<T>(s: seq<T>)
    ensures [] + s == s
  {
  }

  lemma NothingToVisit(I: Info, symOf: SymOf, uniqueSyms: bool, seen: set<nat>)
    ensures Visited(I, symOf, uniqueSyms, [], seen) == []
  {
  }

  lemma VisitNext(I: Info, symOf: SymOf, uniqueSyms: bool, node: Node, rest: seq<Node>, seen: set<nat>)
    ensures Visited(I, symOf, uniqueSyms, [node] + rest, seen) ==
      if uniqueSyms && I.isSym(node) && symOf(node) in seen then Visited(I, symOf, uniqueSyms, rest, seen)
      else [node] + Visited(I, symOf, uniqueSyms, rest, if uniqueSyms && I.isSym(node) then seen + {symOf(node)} else seen)
  {
    assert ([node] + rest)[1..] == rest;
  }

  /** node_iter() */
  method NodeIter(L: Links, I: Info, symOf: SymOf, top: Node, uniqueSyms: bool, ghost kids: seq<Menu>)
    returns (out: seq<Node>)
    requires Seg(L, Some(top), None, None, [Menu(top, kids)])
    ensures out == Visited(I, symOf, uniqueSyms, Preorder(kids), {})
  {
    out := [];
    var node := top;
    var visited: set<nat> := {};
    ghost var path: Path := Start(L, top, kids);
    hide OnPath, Seg, Preorder, Pending, FirstNodes, Visited;
    NothingBefore(Visited(I, symOf, uniqueSyms, Preorder(kids), {}));
    while true
      invariant path != [] && path[0] != [] && OnPath(L, path) && path[0][0].node == node
      invariant Visited(I, symOf, uniqueSyms, Preorder(kids), {}) ==
        out + Visited(I, symOf, uniqueSyms, Pending(path), visited)
      decreases |Pending(path)|
    {
      var done;
      node, done, path := Step(L, node, path);
      if done {
        NothingToVisit(I, symOf, uniqueSyms, visited);
        return;
      }
      VisitNext(I, symOf, uniqueSyms, node, Pending(path), visited);
      if uniqueSyms && I.isSym(node) {
        if symOf(node) in visited {
          continue;
        }
        visited := visited + {symOf(node)};
      }
      ConsMoves(out, node, Visited(I, symOf, uniqueSyms, Pending(path), visited));
      out := out + [node];
    }
  }

  lemma Start(L: Links, top: Node, kids: seq<Menu>) returns (path: Path)
    requires Seg(L, Some(top), None, None, [Menu(top, kids)])
    ensures path != [] && path[0] != [] && path[0][0].node == top && OnPath(L, path) && Pending(path) == Preorder(kids)
  {
    path := [[Menu(top, kids)]];
    assert path[1..] == [] && path[0][1..] == [];
    assert Above(path) == [] && Preorder(kids) + [] == Preorder(kids);
  }

  /** One step of the walk. */
  method Step(L: Links, node: Node, ghost path: Path) returns (r: Node, done: bool, ghost path': Path)
    requires path != [] && path[0] != [] && OnPath(L, path) && path[0][0].node == node
    ensures done ==> Pending(path) == []
    ensures !done ==> path' != [] && path'[0] != [] && OnPath(L, path') && path'[0][0].node == r
    ensures !done ==> Pending(path) == [r] + Pending(path')
  {
    hide OnPath, Seg;
    if node in L.list {
      GoDown(L, path);
      return L.list[node], false, [path[0][0].kids] + path;
    }
    Current(L, path);
    assert Pending(path) == Above(path);
    if node in L.next {
      GoOn(L, path);
      return L.next[node], false, [path[0][1..]] + path[1..];
    }
    r := node;
    path' := path;
    GoUp(L, path);
    while r in L.parent
      invariant path' != [] && path'[0] != [] && OnPath(L, path') && path'[0][0].node == r && r !in L.next
      invariant Above(path) == Above(path')
      decreases |path'|
    {
      GoUp(L, path');
      r := L.parent[r];
      path' := path'[1..];
      if r in L.next {
        GoOn(L, path');
        return L.next[r], false, [path'[0][1..]] + path'[1..];
      }
    }
    GoUp(L, path');
    return r, true, path';
  }

  // What is kept with unique_syms

  function SymsOf(I: Info, symOf: SymOf, nodes: seq<Node>): set<nat> {
    set k | 0 <= k < |nodes| && I.isSym(nodes[k]) :: symOf(nodes[k])
  }

  /** The nodes before which there is none for the same symbol. */
  function Firsts(I: Info, symOf: SymOf, nodes: seq<Node>): seq<Node> {
    if nodes == [] then []
    else
      var before, last := nodes[..|nodes| - 1], nodes[|nodes| - 1];
      Firsts(I, symOf, before) + (if I.isSym(last) && symOf(last) in SymsOf(I, symOf, before) then [] else [last])
  }

  lemma {:induction false} FirstNodesSnoc(I: Info, symOf: SymOf, nodes: seq<Node>, x: Node, seen: set<nat>)
    ensures FirstNodes(I, symOf, nodes + [x], seen) ==
      FirstNodes(I, symOf, nodes, seen) +
      (if I.isSym(x) && symOf(x) in seen + SymsOf(I, symOf, nodes) then [] else [x])
    decreases |nodes|
  {
    if nodes == [] {
      assert ([] + [x])[1..] == [];
    } else {
      var n := nodes[0];
      assert (nodes + [x])[1..] == nodes[1..] + [x];
      assert nodes == [n] + nodes[1..];
      assert SymsOf(I, symOf, nodes) == (if I.isSym(n) then {symOf(n)} else {}) + SymsOf(I, symOf, nodes[1..]) by {
        SymsOfCons(I, symOf, n, nodes[1..]);
      }
      var seen' := if I.isSym(n) then seen + {symOf(n)} else seen;
      assert seen' + SymsOf(I, symOf, nodes[1..]) == seen + SymsOf(I, symOf, nodes);
      if I.isSym(n) && symOf(n) in seen { assert seen' == seen; }
      FirstNodesSnoc(I, symOf, nodes[1..], x, seen');
    }
  }

  lemma SymsOfCons(I: Info, symOf: SymOf, n: Node, rest: seq<Node>)
    ensures SymsOf(I, symOf, [n] + rest) == (if I.isSym(n) then {symOf(n)} else {}) + SymsOf(I, symOf, rest)
  {
    var all := [n] + rest;
    forall v | v in SymsOf(I, symOf, rest) ensures v in SymsOf(I, symOf, all) {
      var k :| 0 <= k < |rest| && I.isSym(rest[k]) && symOf(rest[k]) == v;
      assert all[k + 1] == rest[k];
    }
    forall v | v in SymsOf(I, symOf, all) ensures v in SymsOf(I, symOf, rest) || (I.isSym(n) && v == symOf(n)) {
      var k :| 0 <= k < |all| && I.isSym(all[k]) && symOf(all[k]) == v;
      if k > 0 { assert rest[k - 1] == all[k]; }
    }
    if I.isSym(n) { assert all[0] == n; }
  }

  /** Exactly the first node of each symbol is kept, and all other nodes. */
  lemma {:induction false} KeepsFirsts(I: Info, symOf: SymOf, nodes: seq<Node>)
    ensures FirstNodes(I, symOf, nodes, {}) == Firsts(I, symOf, nodes)
    decreases |nodes|
  {
    if nodes == [] {
    } else {
      var before := nodes[..|nodes| - 1];
      KeepsFirsts(I, symOf, before);
      FirstNodesSnoc(I, symOf, before, nodes[|nodes| - 1], {});
      assert before + [nodes[|nodes| - 1]] == nodes;
    }
  }

  /** The walk meets each node once. */
  lemma {:induction false} PreorderOnce(ms: seq<Menu>)
    requires Unique(ms)
    ensures Distinct(Preorder(ms))
  {
    if ms == [] {
    } else {
      PreorderOnce(ms[0].kids);
      PreorderOnce(ms[1..]);
      PreorderNodes(ms[0].kids);
      PreorderNodes(ms[1..]);
      AllDifferent(ms[0].node, Preorder(ms[0].kids), Preorder(ms[1..]));
    }
  }

  lemma AllDifferent(n: Node, a: seq<Node>, b: seq<Node>)
    requires Distinct(a) && Distinct(b) && n !in a && n !in b && forall x :: x in a ==> x !in b
    ensures Distinct([n] + a + b)
  {
    var s := [n] + a + b;
    forall j, k | 0 <= j < k < |s| ensures s[j] != s[k] {
      assert if k <= |a| then s[k] == a[k - 1] && s[k] in a else s[k] == b[k - 1 - |a|] && s[k] in b;
      assert if j == 0 then s[j] == n else if j <= |a| then s[j] == a[j - 1] && s[j] in a else s[j] == b[j - 1 - |a|];
    }
  }

  /** A parsed menu is finalised by pointer surgery, and the walk over the result meets what was parsed, in order. */
  method FinalizeAndWalk(t: Tree, top: Node, symOf: SymOf, uniqueSyms: bool, ghost kids: seq<Menu>) returns (out: seq<Node>)
    requires Seg(t.Now(), Some(top), None, None, [Menu(top, kids)]) && Unique([Menu(top, kids)])
    requires InfoOk(t.I) && SymsAreLeaves(t.I, [Menu(top, kids)]) && !t.I.isSym(top)
    modifies t
    ensures out == Visited(t.I, symOf, uniqueSyms, NonIfs(t.I, Preorder(kids)), {})
  {
    ghost var parsed := [Menu(top, kids)];
    ghost var done := FinalizeHead(t.I, parsed);
    t.FinalizeNode(top, None, parsed);
    FinalizedOrder(t.I, Menu(top, kids));
    assert parsed[1..] == [] && done == [Menu(top, done[0].kids)];
    out := NodeIter(t.Now(), t.I, symOf, top, uniqueSyms, done[0].kids);
  }
}
