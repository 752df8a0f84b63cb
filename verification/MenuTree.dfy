/**
 * The menu tree: implicit submenus, flattening and the removal of `if` nodes, on trees
 * as values. MenuLinks does the same by pointer surgery.
 */
module MenuTree {

  type Node = nat

  /** Siblings in order, each with its children. */
  datatype Menu = Menu(node: Node, kids: seq<Menu>)

  /** What the tree is rearranged by; autoDep is the outcome of _auto_menu_dep(). */
  datatype Info = Info(
    isSym: Node -> bool,
    isChoice: Node -> bool,
    isIf: Node -> bool,
    hasPrompt: Node -> bool,
    autoDep: (Node, Node) -> bool)

  function Size(ms: seq<Menu>): nat {
    if ms == [] then 0 else 1 + Size(ms[0].kids) + Size(ms[1..])
  }

  function Preorder(ms: seq<Menu>): seq<Node> {
    if ms == [] then [] else [ms[0].node] + Preorder(ms[0].kids) + Preorder(ms[1..])
  }

  lemma {:induction false} SizeAppend(a: seq<Menu>, b: seq<Menu>)
    ensures Size(a + b) == Size(a) + Size(b)
  {
    if a == [] {
      assert a + b == b;
    } else {
      assert (a + b)[1..] == a[1..] + b;
      SizeAppend(a[1..], b);
    }
  }

  lemma {:induction false} PreorderAppend(a: seq<Menu>, b: seq<Menu>)
    ensures Preorder(a + b) == Preorder(a) + Preorder(b)
  {
    if a == [] {
      assert a + b == b;
    } else {
      assert (a + b)[1..] == a[1..] + b;
      PreorderAppend(a[1..], b);
    }
  }

  // One level

  /** Whether the children of a node move up behind it. */
  predicate Flattens(I: Info, m: Menu) {
    m.kids != [] && !I.hasPrompt(m.node) && !I.isChoice(m.node)
  }

  /** _flatten() */
  function Flatten(I: Info, ms: seq<Menu>): (r: seq<Menu>)
    ensures Size(r) == Size(ms)
    decreases Size(ms)
  {
    if ms == [] then []
    else if Flattens(I, ms[0]) then
      SizeAppend(ms[0].kids, ms[1..]);
      [Menu(ms[0].node, [])] + Flatten(I, ms[0].kids + ms[1..])
    else [ms[0]] + Flatten(I, ms[1..])
  }

  /** _remove_ifs() */
  function RemoveIfs(I: Info, ms: seq<Menu>): (r: seq<Menu>)
    ensures Size(r) <= Size(ms)
  {
    if ms == [] then []
    else if I.isIf(ms[0].node) then RemoveIfs(I, ms[1..])
    else [ms[0]] + RemoveIfs(I, ms[1..])
  }

  function Level(I: Info, ms: seq<Menu>): (r: seq<Menu>)
    ensures Size(r) <= Size(ms)
  {
    RemoveIfs(I, Flatten(I, ms))
  }

  // The whole tree

  /** _finalize_node() on the first of some siblings, which can take in siblings after it. */
  function FinalizeHead(I: Info, ms: seq<Menu>): (r: seq<Menu>)
    requires ms != []
    ensures r != [] && r[0].node == ms[0].node && Size(r) <= Size(ms)
    decreases Size(ms), 1
  {
    var m := ms[0];
    if I.isSym(m.node) then
      var (kids, rest) := Absorb(I, m.node, ms[1..]);
      [Menu(m.node, Level(I, if kids == [] then m.kids else kids))] + rest
    else [Menu(m.node, Level(I, FinalizeAll(I, m.kids)))] + ms[1..]
  }

  /** The siblings that go in an implicit submenu of symbol node s, finalized, and the others. */
  function Absorb(I: Info, s: Node, ms: seq<Menu>): (r: (seq<Menu>, seq<Menu>))
    ensures Size(r.0) + Size(r.1) <= Size(ms)
    decreases Size(ms), 2
  {
    if ms == [] || !I.autoDep(s, ms[0].node) then ([], ms)
    else
      var ms' := FinalizeHead(I, ms);
      var (kids, rest) := Absorb(I, s, ms'[1..]);
      assert ([ms'[0]] + kids)[1..] == kids;
      ([ms'[0]] + kids, rest)
  }

  function FinalizeAll(I: Info, ms: seq<Menu>): (r: seq<Menu>)
    ensures Size(r) <= Size(ms)
    decreases Size(ms), 2
  {
    if ms == [] then []
    else
      var ms' := FinalizeHead(I, ms);
      var rest := FinalizeAll(I, ms'[1..]);
      assert ([ms'[0]] + rest)[1..] == rest;
      [ms'[0]] + rest
  }

  // The order of the nodes

  function NonIfs(I: Info, nodes: seq<Node>): seq<Node> {
    if nodes == [] then []
    else (if I.isIf(nodes[0]) then [] else [nodes[0]]) + NonIfs(I, nodes[1..])
  }

  lemma {:induction false} NonIfsAppend(I: Info, a: seq<Node>, b: seq<Node>)
    ensures NonIfs(I, a + b) == NonIfs(I, a) + NonIfs(I, b)
  {
    if a == [] {
      assert a + b == b;
    } else {
      assert (a + b)[1..] == a[1..] + b;
      NonIfsAppend(I, a[1..], b);
    }
  }

  function Order(I: Info, ms: seq<Menu>): seq<Node> { NonIfs(I, Preorder(ms)) }

  /** The order of some siblings, from that of the first one. */
  lemma OrderCons(I: Info, m: Menu, ms: seq<Menu>)
    ensures Order(I, [m] + ms) == (if I.isIf(m.node) then [] else [m.node]) + Order(I, m.kids) + Order(I, ms)
  {
    assert ([m] + ms)[1..] == ms;
    assert Preorder([m] + ms) == [m.node] + (Preorder(m.kids) + Preorder(ms));
    NonIfsAppend(I, [m.node], Preorder(m.kids) + Preorder(ms));
    NonIfsAppend(I, Preorder(m.kids), Preorder(ms));
  }

  lemma {:induction false} FlattenKeepsOrder(I: Info, ms: seq<Menu>)
    ensures Preorder(Flatten(I, ms)) == Preorder(ms)
    decreases Size(ms)
  {
    if ms == [] {
    } else {
      var r := Flatten(I, ms);
      if Flattens(I, ms[0]) {
        SizeAppend(ms[0].kids, ms[1..]);
        FlattenKeepsOrder(I, ms[0].kids + ms[1..]);
        PreorderAppend(ms[0].kids, ms[1..]);
        assert r[1..] == Flatten(I, ms[0].kids + ms[1..]);
      } else {
        FlattenKeepsOrder(I, ms[1..]);
        assert r[1..] == Flatten(I, ms[1..]);
      }
    }
  }

  /** `if` nodes have no children left. */
  predicate BareIfs(I: Info, ms: seq<Menu>) {
    forall k :: 0 <= k < |ms| && I.isIf(ms[k].node) ==> ms[k].kids == []
  }

  /** An `if` node has no prompt and is not a choice. */
  ghost predicate InfoOk(I: Info) {
    forall n :: I.isIf(n) ==> !I.hasPrompt(n) && !I.isChoice(n) && !I.isSym(n)
  }

  lemma {:induction false} FlattenBaresIfs(I: Info, ms: seq<Menu>)
    requires InfoOk(I)
    ensures BareIfs(I, Flatten(I, ms))
    decreases Size(ms)
  {
    if ms == [] {
    } else {
      if Flattens(I, ms[0]) {
        SizeAppend(ms[0].kids, ms[1..]);
        FlattenBaresIfs(I, ms[0].kids + ms[1..]);
      } else {
        FlattenBaresIfs(I, ms[1..]);
      }
    }
  }

  lemma {:induction false} RemoveIfsKeepsOrder(I: Info, ms: seq<Menu>)
    requires BareIfs(I, ms)
    ensures Order(I, RemoveIfs(I, ms)) == Order(I, ms)
  {
    if ms == [] {
    } else {
      RemoveIfsKeepsOrder(I, ms[1..]);
      assert ms == [ms[0]] + ms[1..];
      OrderCons(I, ms[0], ms[1..]);
      OrderCons(I, ms[0], RemoveIfs(I, ms[1..]));
    }
  }

  lemma LevelKeepsOrder(I: Info, ms: seq<Menu>)
    requires InfoOk(I)
    ensures Order(I, Level(I, ms)) == Order(I, ms)
  {
    FlattenKeepsOrder(I, ms);
    FlattenBaresIfs(I, ms);
    RemoveIfsKeepsOrder(I, Flatten(I, ms));
  }

  /** As the parser leaves it: symbols have no children yet. */
  predicate SymsAreLeaves(I: Info, ms: seq<Menu>) {
    ms != [] ==>
      (I.isSym(ms[0].node) ==> ms[0].kids == []) && SymsAreLeaves(I, ms[0].kids) && SymsAreLeaves(I, ms[1..])
  }

  lemma {:induction false} FinalizeHeadKeepsOrder(I: Info, ms: seq<Menu>)
    requires InfoOk(I) && SymsAreLeaves(I, ms) && ms != []
    ensures Order(I, FinalizeHead(I, ms)) == Order(I, ms)
    ensures SymsAreLeaves(I, FinalizeHead(I, ms)[1..])
    decreases Size(ms), 1
  {
    var m := ms[0];
    assert ms == [m] + ms[1..];
    OrderCons(I, m, ms[1..]);
    if I.isSym(m.node) {
      AbsorbKeepsOrder(I, m.node, ms[1..]);
      var (kids, rest) := Absorb(I, m.node, ms[1..]);
      var kids' := if kids == [] then m.kids else kids;
      LevelKeepsOrder(I, kids');
      OrderCons(I, Menu(m.node, Level(I, kids')), rest);
      assert FinalizeHead(I, ms)[1..] == rest;
    } else {
      FinalizeAllKeepsOrder(I, m.kids);
      LevelKeepsOrder(I, FinalizeAll(I, m.kids));
      OrderCons(I, Menu(m.node, Level(I, FinalizeAll(I, m.kids))), ms[1..]);
      assert FinalizeHead(I, ms)[1..] == ms[1..];
    }
  }

  lemma {:induction false} AbsorbKeepsOrder(I: Info, s: Node, ms: seq<Menu>)
    requires InfoOk(I) && SymsAreLeaves(I, ms)
    ensures Order(I, Absorb(I, s, ms).0) + Order(I, Absorb(I, s, ms).1) == Order(I, ms)
    ensures SymsAreLeaves(I, Absorb(I, s, ms).1)
    decreases Size(ms), 2
  {
    if ms != [] && I.autoDep(s, ms[0].node) {
      FinalizeHeadKeepsOrder(I, ms);
      var ms' := FinalizeHead(I, ms);
      AbsorbKeepsOrder(I, s, ms'[1..]);
      assert ms' == [ms'[0]] + ms'[1..];
      assert Absorb(I, s, ms) == ([ms'[0]] + Absorb(I, s, ms'[1..]).0, Absorb(I, s, ms'[1..]).1);
      hide Order, FinalizeHead, Absorb, SymsAreLeaves, InfoOk;
      OrderCons(I, ms'[0], ms'[1..]);
      OrderCons(I, ms'[0], Absorb(I, s, ms'[1..]).0);
    }
  }

  lemma {:induction false} FinalizeAllKeepsOrder(I: Info, ms: seq<Menu>)
    requires InfoOk(I) && SymsAreLeaves(I, ms)
    ensures Order(I, FinalizeAll(I, ms)) == Order(I, ms)
    decreases Size(ms), 2
  {
    if ms == [] {
    } else {
      FinalizeHeadKeepsOrder(I, ms);
      var ms' := FinalizeHead(I, ms);
      FinalizeAllKeepsOrder(I, ms'[1..]);
      assert ms' == [ms'[0]] + ms'[1..];
      OrderCons(I, ms'[0], ms'[1..]);
      OrderCons(I, ms'[0], FinalizeAll(I, ms'[1..]));
    }
  }

  // The shape of the result

  /** No `if` nodes, and children only below nodes with a prompt and choices. */
  predicate Tidy(I: Info, ms: seq<Menu>) {
    ms != [] ==> TidyNode(I, ms[0]) && Tidy(I, ms[1..])
  }

  predicate TidyNode(I: Info, m: Menu) {
    !I.isIf(m.node) && (m.kids != [] ==> I.hasPrompt(m.node) || I.isChoice(m.node)) && Tidy(I, m.kids)
  }

  /** Below the nodes, everything is tidy. */
  predicate TidyBelow(I: Info, ms: seq<Menu>) {
    forall k :: 0 <= k < |ms| ==> Tidy(I, ms[k].kids)
  }

  lemma {:induction false} TidyAll(I: Info, ms: seq<Menu>)
    ensures Tidy(I, ms) <==> forall k :: 0 <= k < |ms| ==> TidyNode(I, ms[k])
  {
    if ms == [] {
    } else {
      TidyAll(I, ms[1..]);
    }
  }

  lemma {:induction false} FlattenTidies(I: Info, ms: seq<Menu>)
    requires TidyBelow(I, ms)
    ensures forall m :: m in Flatten(I, ms) ==> TidyNode(I, m) || (I.isIf(m.node) && !Flattens(I, m))
    decreases Size(ms)
  {
    if ms == [] {
    } else {
      if Flattens(I, ms[0]) {
        SizeAppend(ms[0].kids, ms[1..]);
        TidyAll(I, ms[0].kids);
        FlattenTidies(I, ms[0].kids + ms[1..]);
      } else {
        FlattenTidies(I, ms[1..]);
      }
    }
  }

  lemma {:induction false} RemoveIfsTidies(I: Info, ms: seq<Menu>)
    requires forall m :: m in ms ==> TidyNode(I, m) || I.isIf(m.node)
    ensures Tidy(I, RemoveIfs(I, ms))
  {
    if ms == [] {
    } else {
      RemoveIfsTidies(I, ms[1..]);
      var rest := RemoveIfs(I, ms[1..]);
      assert ([ms[0]] + rest)[1..] == rest;
    }
  }

  lemma LevelIsTidy(I: Info, ms: seq<Menu>)
    requires TidyBelow(I, ms)
    ensures Tidy(I, Level(I, ms))
  {
    FlattenTidies(I, ms);
    RemoveIfsTidies(I, Flatten(I, ms));
  }

  lemma {:induction false} FinalizeHeadTidies(I: Info, ms: seq<Menu>)
    requires SymsAreLeaves(I, ms) && ms != []
    ensures Tidy(I, FinalizeHead(I, ms)[0].kids)
    decreases Size(ms), 1
  {
    var m := ms[0];
    if I.isSym(m.node) {
      AbsorbTidies(I, m.node, ms[1..]);
      var (kids, rest) := Absorb(I, m.node, ms[1..]);
      LevelIsTidy(I, if kids == [] then m.kids else kids);
    } else {
      FinalizeAllTidies(I, m.kids);
      LevelIsTidy(I, FinalizeAll(I, m.kids));
    }
  }

  lemma {:induction false} AbsorbTidies(I: Info, s: Node, ms: seq<Menu>)
    requires SymsAreLeaves(I, ms)
    ensures TidyBelow(I, Absorb(I, s, ms).0)
    decreases Size(ms), 2
  {
    if ms != [] && I.autoDep(s, ms[0].node) {
      FinalizeHeadTidies(I, ms);
      FinalizeHeadLeaves(I, ms);
      AbsorbTidies(I, s, FinalizeHead(I, ms)[1..]);
    }
  }

  lemma {:induction false} FinalizeAllTidies(I: Info, ms: seq<Menu>)
    requires SymsAreLeaves(I, ms)
    ensures TidyBelow(I, FinalizeAll(I, ms))
    decreases Size(ms), 2
  {
    if ms == [] {
    } else {
      FinalizeHeadTidies(I, ms);
      FinalizeHeadLeaves(I, ms);
      FinalizeAllTidies(I, FinalizeHead(I, ms)[1..]);
    }
  }

  /** What is left over has not been touched. */
  lemma {:induction false} FinalizeHeadLeaves(I: Info, ms: seq<Menu>)
    requires SymsAreLeaves(I, ms) && ms != []
    ensures SymsAreLeaves(I, FinalizeHead(I, ms)[1..])
    decreases Size(ms), 1
  {
    if I.isSym(ms[0].node) {
      AbsorbLeaves(I, ms[0].node, ms[1..]);
      assert FinalizeHead(I, ms)[1..] == Absorb(I, ms[0].node, ms[1..]).1;
    } else {
      assert FinalizeHead(I, ms)[1..] == ms[1..];
    }
  }

  lemma {:induction false} AbsorbLeaves(I: Info, s: Node, ms: seq<Menu>)
    requires SymsAreLeaves(I, ms)
    ensures SymsAreLeaves(I, Absorb(I, s, ms).1)
    decreases Size(ms), 2
  {
    if ms != [] && I.autoDep(s, ms[0].node) {
      FinalizeHeadLeaves(I, ms);
      AbsorbLeaves(I, s, FinalizeHead(I, ms)[1..]);
    }
  }

  // Main results

  lemma {:induction false} TidyHasNoIfs(I: Info, ms: seq<Menu>)
    requires Tidy(I, ms)
    ensures Order(I, ms) == Preorder(ms)
  {
    if ms == [] {
    } else {
      TidyHasNoIfs(I, ms[0].kids);
      TidyHasNoIfs(I, ms[1..]);
      assert ms == [ms[0]] + ms[1..];
      OrderCons(I, ms[0], ms[1..]);
    }
  }

  /** Finalizing a menu keeps the order of its nodes; only the `if` nodes are gone. */
  lemma FinalizedOrder(I: Info, top: Menu)
    requires InfoOk(I) && SymsAreLeaves(I, [top]) && !I.isSym(top.node)
    ensures
      var top' := FinalizeHead(I, [top])[0];
      top'.node == top.node && Tidy(I, top'.kids) && Preorder(top'.kids) == NonIfs(I, Preorder(top.kids))
  {
    FinalizeHeadTidies(I, [top]);
    FinalizeAllKeepsOrder(I, top.kids);
    LevelKeepsOrder(I, FinalizeAll(I, top.kids));
    TidyHasNoIfs(I, FinalizeHead(I, [top])[0].kids);
  }

  function SymNodes(I: Info, nodes: seq<Node>): seq<Node> {
    if nodes == [] then [] else (if I.isSym(nodes[0]) then [nodes[0]] else []) + SymNodes(I, nodes[1..])
  }

  lemma {:induction false} SymNodesOfNonIfs(I: Info, nodes: seq<Node>)
    requires InfoOk(I)
    ensures SymNodes(I, NonIfs(I, nodes)) == SymNodes(I, nodes)
  {
    if nodes == [] {
    } else {
      SymNodesOfNonIfs(I, nodes[1..]);
      if I.isIf(nodes[0]) {
        assert NonIfs(I, nodes) == NonIfs(I, nodes[1..]);
      } else {
        assert NonIfs(I, nodes)[1..] == NonIfs(I, nodes[1..]);
      }
    }
  }

  /** The symbols are met in the order in which they were defined. */
  lemma FinalizedSyms(I: Info, top: Menu)
    requires InfoOk(I) && SymsAreLeaves(I, [top]) && !I.isSym(top.node)
    ensures SymNodes(I, Preorder(FinalizeHead(I, [top])[0].kids)) == SymNodes(I, Preorder(top.kids))
  {
    FinalizedOrder(I, top);
    SymNodesOfNonIfs(I, Preorder(top.kids));
  }
}
