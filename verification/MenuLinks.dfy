/**
 * Menu tree finalisation by pointer surgery. The `next`, `list` and `parent` attributes of
 * the MenuNode objects are columns; a node without an entry has None.
 */
module MenuLinks {
  import opened Wrappers
  import opened MenuTree

  datatype Links = Links(next: map<Node, Node>, list: map<Node, Node>, parent: map<Node, Node>)

  function At(p: map<Node, Node>, n: Node): Option<Node> { if n in p then Some(p[n]) else None }

  function With(p: map<Node, Node>, n: Node, v: Option<Node>): (r: map<Node, Node>)
    ensures forall x :: At(r, x) == if x == n then v else At(p, x)
  {
    if v.Some? then p[n := v.value] else p - {n}
  }

  // Linked siblings

  /**
   * Following `next` from `first`, one meets the nodes of ms and then `tail`; each of them
   * has the parent `par`, and its `list` leads through its children.
   */
  ghost predicate Seg(L: Links, first: Option<Node>, tail: Option<Node>, par: Option<Node>, ms: seq<Menu>)
    decreases ms
  {
    if ms == [] then first == tail
    else
      && first == Some(ms[0].node) && At(L.parent, ms[0].node) == par
      && Seg(L, At(L.list, ms[0].node), None, Some(ms[0].node), ms[0].kids)
      && Seg(L, At(L.next, ms[0].node), tail, par, ms[1..])
  }

  function Nodes(ms: seq<Menu>): set<Node> {
    if ms == [] then {} else {ms[0].node} + Nodes(ms[0].kids) + Nodes(ms[1..])
  }

  lemma {:induction false} PreorderNodes(ms: seq<Menu>)
    ensures forall n :: n in Preorder(ms) <==> n in Nodes(ms)
  {
    if ms == [] {
    } else {
      PreorderNodes(ms[0].kids);
      PreorderNodes(ms[1..]);
    }
  }

  /** No node occurs twice. */
  ghost predicate Unique(ms: seq<Menu>) {
    ms != [] ==>
      && ms[0].node !in Nodes(ms[0].kids) && ms[0].node !in Nodes(ms[1..])
      && Nodes(ms[0].kids) !! Nodes(ms[1..])
      && Unique(ms[0].kids) && Unique(ms[1..])
  }

  lemma {:induction false} NodesAppend(a: seq<Menu>, b: seq<Menu>)
    ensures Nodes(a + b) == Nodes(a) + Nodes(b)
  {
    if a == [] {
      assert a + b == b;
    } else {
      assert (a + b)[1..] == a[1..] + b;
      NodesAppend(a[1..], b);
    }
  }

  lemma {:induction false} UniqueAppend(a: seq<Menu>, b: seq<Menu>)
    ensures Unique(a + b) <==> Unique(a) && Unique(b) && Nodes(a) !! Nodes(b)
  {
    if a == [] {
      assert a + b == b;
    } else {
      assert (a + b)[1..] == a[1..] + b;
      UniqueAppend(a[1..], b);
      NodesAppend(a[1..], b);
    }
  }

  /** The links of the nodes outside N are the same. */
  ghost predicate Outside(L: Links, L': Links, N: set<Node>) {
    forall x :: x !in N ==>
      At(L'.next, x) == At(L.next, x) && At(L'.list, x) == At(L.list, x) && At(L'.parent, x) == At(L.parent, x)
  }

  lemma OutsideItself(L: Links, N: set<Node>)
    ensures Outside(L, L, N)
  {
  }

  lemma OutsideTwice(L: Links, L': Links, L'': Links, N: set<Node>, N': set<Node>)
    requires Outside(L, L', N) && Outside(L', L'', N') && N' <= N
    ensures Outside(L, L'', N)
  {
  }

  lemma {:induction false} SegSame(
    L: Links, L': Links, first: Option<Node>, tail: Option<Node>, par: Option<Node>, ms: seq<Menu>)
    requires Seg(L, first, tail, par, ms)
    requires forall x :: x in Nodes(ms) ==>
      At(L'.next, x) == At(L.next, x) && At(L'.list, x) == At(L.list, x) && At(L'.parent, x) == At(L.parent, x)
    ensures Seg(L', first, tail, par, ms)
    decreases ms
  {
    if ms == [] {
    } else {
      SegSame(L, L', At(L.list, ms[0].node), None, Some(ms[0].node), ms[0].kids);
      SegSame(L, L', At(L.next, ms[0].node), tail, par, ms[1..]);
    }
  }

  lemma SegOutside(
    L: Links, L': Links, N: set<Node>, first: Option<Node>, tail: Option<Node>, par: Option<Node>, ms: seq<Menu>)
    requires Seg(L, first, tail, par, ms) && Outside(L, L', N) && Nodes(ms) !! N
    ensures Seg(L', first, tail, par, ms)
  {
    SegSame(L, L', first, tail, par, ms);
  }

  lemma {:induction false} SegAppend(
    L: Links, first: Option<Node>, mid: Option<Node>, tail: Option<Node>, par: Option<Node>, a: seq<Menu>, b: seq<Menu>)
    requires Seg(L, first, mid, par, a) && Seg(L, mid, tail, par, b)
    ensures Seg(L, first, tail, par, a + b)
    decreases a
  {
    if a == [] {
      assert a + b == b;
    } else {
      assert (a + b)[1..] == a[1..] + b;
      SegAppend(L, At(L.next, a[0].node), mid, tail, par, a[1..], b);
    }
  }

  /** One more node. */
  lemma SegSnoc(L: Links, first: Option<Node>, par: Option<Node>, ms: seq<Menu>, m: Menu)
    requires Seg(L, first, Some(m.node), par, ms) && At(L.parent, m.node) == par
    requires Seg(L, At(L.list, m.node), None, Some(m.node), m.kids)
    ensures Seg(L, first, At(L.next, m.node), par, ms + [m])
  {
    assert [m][1..] == [];
    assert Seg(L, Some(m.node), At(L.next, m.node), par, [m]);
    SegAppend(L, first, Some(m.node), At(L.next, m.node), par, ms, [m]);
  }

  /** Another node follows the last one. */
  lemma {:induction false} SegRetail(
    L: Links, L': Links, first: Option<Node>, tail: Option<Node>, tail': Option<Node>, par: Option<Node>, ms: seq<Menu>)
    requires ms != [] && Seg(L, first, tail, par, ms) && Unique(ms)
    requires var last := ms[|ms| - 1].node;
      At(L'.next, last) == tail' && (forall x :: x in Nodes(ms) && x != last ==> At(L'.next, x) == At(L.next, x)) &&
      forall x :: x in Nodes(ms) ==> At(L'.list, x) == At(L.list, x) && At(L'.parent, x) == At(L.parent, x)
    ensures Seg(L', first, tail', par, ms)
    decreases ms
  {
    var n := ms[0].node;
    var last := ms[|ms| - 1].node;
    LastIsNode(ms);
    if |ms| == 1 {
      SegSame(L, L', At(L.list, n), None, Some(n), ms[0].kids);
    } else {
      LastIsNode(ms[1..]);
      SegSame(L, L', At(L.list, n), None, Some(n), ms[0].kids);
      SegRetail(L, L', At(L.next, n), tail, tail', par, ms[1..]);
    }
  }

  lemma {:induction false} LastIsNode(ms: seq<Menu>)
    requires ms != []
    ensures ms[|ms| - 1].node in Nodes(ms)
  {
    if |ms| > 1 { LastIsNode(ms[1..]); }
  }

  /** The nodes of the result are nodes that were there, each still once. */
  ghost predicate Kept(ms: seq<Menu>, ms': seq<Menu>) {
    (Unique(ms) ==> Unique(ms')) && Nodes(ms') <= Nodes(ms)
  }

  lemma {:induction false} FlattenKeeps(I: Info, ms: seq<Menu>)
    ensures Nodes(Flatten(I, ms)) == Nodes(ms) && (Unique(ms) ==> Unique(Flatten(I, ms)))
    decreases Size(ms)
  {
    if ms == [] {
    } else {
      if Flattens(I, ms[0]) {
        var rest := ms[0].kids + ms[1..];
        SizeAppend(ms[0].kids, ms[1..]);
        NodesAppend(ms[0].kids, ms[1..]);
        UniqueAppend(ms[0].kids, ms[1..]);
        FlattenKeeps(I, rest);
        assert Flatten(I, ms) == [Menu(ms[0].node, [])] + Flatten(I, rest);
        assert Flatten(I, ms)[1..] == Flatten(I, rest);
      } else {
        FlattenKeeps(I, ms[1..]);
        assert Flatten(I, ms)[1..] == Flatten(I, ms[1..]);
      }
    }
  }

  lemma {:induction false} RemoveIfsKeeps(I: Info, ms: seq<Menu>)
    ensures Kept(ms, RemoveIfs(I, ms))
  {
    if ms == [] {
    } else {
      RemoveIfsKeeps(I, ms[1..]);
      if !I.isIf(ms[0].node) { assert RemoveIfs(I, ms)[1..] == RemoveIfs(I, ms[1..]); }
    }
  }

  lemma LevelKeeps(I: Info, ms: seq<Menu>)
    ensures Kept(ms, Level(I, ms))
  {
    FlattenKeeps(I, ms);
    RemoveIfsKeeps(I, Flatten(I, ms));
  }

  class Tree {
    const I: Info
    var next: map<Node, Node>
    var list: map<Node, Node>
    var parent: map<Node, Node>

    constructor (I: Info, next: map<Node, Node>, list: map<Node, Node>, parent: map<Node, Node>)
      ensures this.I == I && Now() == Links(next, list, parent)
    {
      this.I := I;
      this.next := next;
      this.list := list;
      this.parent := parent;
    }

    function Now(): Links
      reads this
    {
      Links(next, list, parent)
    }

    /** Gives the children of n its parent, and returns the last one. */
    method Reparent(n: Node, ghost par: Option<Node>, ghost kids: seq<Menu>) returns (last: Node)
      requires n in list && kids != [] && Seg(Now(), At(list, n), None, Some(n), kids) && Unique(kids)
      requires n !in Nodes(kids) && At(parent, n) == par
      modifies this`parent
      ensures last == kids[|kids| - 1].node && Seg(Now(), At(list, n), None, par, kids)
      ensures Outside(old(Now()), Now(), Nodes(kids))
    {
      last := list[n];
      ghost var k := 0;
      while true
        invariant k < |kids| && kids[k].node == last && At(parent, n) == par
        invariant Seg(Now(), At(list, n), Some(last), par, kids[..k]) && Seg(Now(), Some(last), None, Some(n), kids[k..])
        invariant Outside(old(Now()), Now(), Nodes(kids))
        decreases |kids| - k
      {
        ghost var before := Now();
        parent := With(parent, last, At(parent, n));
        SpliceAt(before, Now(), At(list, n), n, par, kids, k);
        k := k + 1;
        if last !in next {
          break;
        }
        last := next[last];
      }
      SegEnds(Now(), None, Some(n), kids[k..]);
      assert kids[..|kids|] == kids;
    }

    /** The children of n move up behind it. */
    method Splice(n: Node, ghost par: Option<Node>, ghost kids: seq<Menu>, ghost rest: seq<Menu>)
      requires Seg(Now(), Some(n), None, par, [Menu(n, kids)] + rest) && Unique([Menu(n, kids)] + rest) && kids != []
      modifies this
      ensures Seg(Now(), Some(n), None, par, [Menu(n, [])] + (kids + rest))
      ensures Outside(old(Now()), Now(), {n} + Nodes(kids))
    {
      assert ([Menu(n, kids)] + rest)[1..] == rest;
      ghost var before := Now();
      var last := Reparent(n, par, kids);
      SegOutside(before, Now(), Nodes(kids), At(next, n), None, par, rest);
      LastIsNode(kids);
      ghost var reparented := Now();
      next := With(next, last, At(next, n));
      next := With(next, n, At(list, n));
      list := With(list, n, None);
      SpliceEnd(reparented, Now(), n, par, kids, rest);
    }

    /** Flattens the next node of a level. */
    method FlattenNode(n: Node, ghost first: Option<Node>, ghost par: Option<Node>,
                       ghost ms: seq<Menu>, ghost done: seq<Menu>, ghost rem: seq<Menu>)
      returns (ghost rem': seq<Menu>)
      requires Flattening(I, Now(), first, Some(n), par, ms, done, rem)
      modifies this
      ensures rem' != [] && Size(rem'[1..]) < Size(rem)
      ensures Flattening(I, Now(), first, At(next, n), par, ms, done + [rem'[0]], rem'[1..])
      ensures Outside(old(Now()), Now(), Nodes(ms))
    {
      FlatteningAt(I, Now(), first, n, par, ms, done, rem);
      rem' := rem;
      hide Flattening, Seg, Unique, Flatten;
      if n in list && !I.hasPrompt(n) && !I.isChoice(n) {
        ghost var before := Now();
        Splice(n, par, rem[0].kids, rem[1..]);
        FlattenStep(I, before, Now(), first, par, ms, done, rem);
        rem' := [Menu(n, [])] + (rem[0].kids + rem[1..]);
      }
      FlattenPasses(I, Now(), first, n, par, ms, done, rem');
    }

    /** _flatten() */
    method FlattenFrom(first: Node, ghost par: Option<Node>, ghost ms: seq<Menu>)
      requires Seg(Now(), Some(first), None, par, ms) && Unique(ms)
      modifies this
      ensures Seg(Now(), Some(first), None, par, Flatten(I, ms))
      ensures Outside(old(Now()), Now(), Nodes(ms))
    {
      var node := Some(first);
      ghost var done, rem := [], ms;
      FlatteningStarts(I, Now(), Some(first), par, ms);
      hide Flattening, Seg, Unique, Flatten;
      while node.Some?
        invariant Flattening(I, Now(), Some(first), node, par, ms, done, rem)
        invariant Outside(old(Now()), Now(), Nodes(ms))
        decreases Size(rem)
      {
        ghost var rem' := FlattenNode(node.value, Some(first), par, ms, done, rem);
        done, rem := done + [rem'[0]], rem'[1..];
        node := At(next, node.value);
      }
      FlatteningEnds(I, Now(), Some(first), par, ms, done, rem);
    }

    /** The first node from cur on that is not an `if` node. */
    method SkipIfs(cur: Option<Node>, ghost par: Option<Node>, ghost ms: seq<Menu>) returns (r: Option<Node>)
      requires Seg(Now(), cur, None, par, ms)
      ensures Seg(Now(), r, None, par, Skipped(I, ms))
    {
      r := cur;
      ghost var rest := ms;
      while r.Some? && I.isIf(r.value)
        invariant Seg(Now(), r, None, par, rest) && Skipped(I, rest) == Skipped(I, ms)
        decreases |rest|
      {
        r := At(next, r.value);
        rest := rest[1..];
      }
    }

    /** _remove_ifs() */
    method RemoveIfsFrom(node: Node, ghost ms: seq<Menu>)
      requires Seg(Now(), At(list, node), None, Some(node), ms) && Unique(ms) && node !in Nodes(ms)
      modifies this
      ensures Seg(Now(), At(list, node), None, Some(node), RemoveIfs(I, ms))
      ensures Outside(old(Now()), Now(), {node} + Nodes(ms))
      ensures At(next, node) == old(At(next, node)) && At(parent, node) == old(At(parent, node))
    {
      var cur := SkipIfs(At(list, node), Some(node), ms);
      ghost var done, rem := [], Skipped(I, ms);
      ghost var before := Now();
      list := With(list, node, cur);
      RemovingStarts(I, before, Now(), node, cur, ms);
      hide Removing, Seg, Unique, RemoveIfs;
      while cur.Some?
        invariant Removing(I, Now(), node, cur, ms, done, rem)
        invariant Outside(old(Now()), Now(), {node} + Nodes(ms))
        invariant At(next, node) == old(At(next, node)) && At(parent, node) == old(At(parent, node))
        decreases |rem|
      {
        var n := cur.value;
        RemovingAt(I, Now(), node, n, ms, done, rem);
        var following := SkipIfs(At(next, n), Some(node), rem[1..]);
        ghost var linked := Now();
        next := With(next, n, following);
        RemoveStep(I, linked, Now(), node, following, ms, done, rem);
        done, rem := done + [rem[0]], Skipped(I, rem[1..]);
        cur := following;
      }
      RemovingEnds(I, Now(), node, ms, done, rem);
    }

    /** Flattening and the removal of `if` nodes on the children of a node. */
    method FinishLevel(node: Node, ghost par: Option<Node>, ghost kids: seq<Menu>, ghost rest: seq<Menu>)
      requires Seg(Now(), Some(node), None, par, [Menu(node, kids)] + rest) && Unique([Menu(node, kids)] + rest)
      modifies this
      ensures Seg(Now(), Some(node), None, par, [Menu(node, Level(I, kids))] + rest)
      ensures Outside(old(Now()), Now(), {node} + Nodes(kids))
    {
      ghost var before := Now();
      HeadParts(Now(), node, par, kids, rest);
      if node in list {
        SegEnds(Now(), At(list, node), Some(node), kids);
        FlattenFrom(list[node], Some(node), kids);
        FlattenKeeps(I, kids);
        RemoveIfsFrom(node, Flatten(I, kids));
      }
      SegOutside(before, Now(), {node} + Nodes(kids), At(next, node), None, par, rest);
      HeadWhole(Now(), node, par, Level(I, kids), rest);
    }

    /** The sibling after cur is finalized and goes below the symbol node. */
    method TakeNext(node: Node, cur: Node, ghost par: Option<Node>, ghost ms: seq<Menu>, ghost ks: seq<Menu>, ghost rs: seq<Menu>)
      requires Absorbing(I, Now(), node, cur, par, ms, ks, rs) && cur in next && I.autoDep(node, next[cur])
      modifies this
      ensures At(next, cur) == old(At(next, cur)) && rs != [] && Size(FinalizeHead(I, rs)[1..]) < Size(rs)
      ensures Absorbing(I, Now(), node, old(next[cur]), par, ms, ks + [FinalizeHead(I, rs)[0]], FinalizeHead(I, rs)[1..])
      ensures Outside(old(Now()), Now(), Nodes(ms))
      decreases Size(ms), 0
    {
      AbsorbingAt(I, Now(), node, cur, par, ms, ks, rs);
      hide Absorbing, Seg, Unique, Absorb, FinalizeHead;
      ghost var before := Now();
      FinalizeNode(next[cur], par, rs);
      ghost var finalized := Now();
      parent := With(parent, next[cur], Some(node));
      AbsorbStep(I, before, finalized, Now(), node, next[cur], par, ms, ks, rs);
    }

    /** The symbols after a symbol node that depend on it go below it. */
    method TakeSubmenu(node: Node, ghost par: Option<Node>, ghost ms: seq<Menu>)
      requires ms != [] && ms[0].node == node && Seg(Now(), Some(node), None, par, ms) && Unique(ms)
      modifies this
      ensures WithSubmenu(I, Now(), par, ms) && Outside(old(Now()), Now(), Nodes(ms))
      decreases Size(ms), 1
    {
      var cur := node;
      ghost var ks, rs := [], ms[1..];
      AbsorbingStarts(I, Now(), node, par, ms);
      OutsideItself(Now(), Nodes(ms));
      hide Absorbing, Seg, Unique, WithSubmenu, Nodes, FinalizeHead, Outside;
      while cur in next && I.autoDep(node, next[cur])
        invariant Absorbing(I, Now(), node, cur, par, ms, ks, rs)
        invariant Outside(old(Now()), Now(), Nodes(ms))
        decreases Size(rs)
      {
        ghost var before := Now();
        TakeNext(node, cur, par, ms, ks, rs);
        OutsideTwice(old(Now()), before, Now(), Nodes(ms), Nodes(ms));
        ks, rs := ks + [FinalizeHead(I, rs)[0]], FinalizeHead(I, rs)[1..];
        cur := next[cur];
      }
      AbsorbingEnds(I, Now(), node, cur, par, ms, ks, rs);
      if cur != node {
        ghost var before := Now();
        Tilt(node, cur, par, ks, rs);
        OutsideTwice(old(Now()), before, Now(), Nodes(ms), {node, cur});
        SubmenuTaken(I, Now(), par, ms, ks, rs);
      }
    }

    /** The siblings from the one after `node` up to cur become its children. */
    method Tilt(node: Node, cur: Node, ghost par: Option<Node>, ghost ks: seq<Menu>, ghost rs: seq<Menu>)
      requires ks != [] && cur == ks[|ks| - 1].node && At(parent, node) == par && Unique([Menu(node, ks)] + rs)
      requires Seg(Now(), At(next, node), At(next, cur), Some(node), ks) && Seg(Now(), At(next, cur), None, par, rs)
      modifies this
      ensures Seg(Now(), Some(node), None, par, [Menu(node, ks)] + rs) && Outside(old(Now()), Now(), {node, cur})
    {
      ghost var before := Now();
      list := With(list, node, At(next, node));
      next := With(next, node, At(next, cur));
      next := With(next, cur, None);
      TiltUp(before, Now(), node, cur, par, ks, rs);
    }

    method FinalizeKids(node: Node, ghost par: Option<Node>, ghost kids: seq<Menu>, ghost rest: seq<Menu>)
      requires Seg(Now(), Some(node), None, par, [Menu(node, kids)] + rest) && Unique([Menu(node, kids)] + rest)
      modifies this
      ensures Seg(Now(), Some(node), None, par, [Menu(node, FinalizeAll(I, kids))] + rest)
      ensures Outside(old(Now()), Now(), Nodes(kids))
      decreases Size(kids), 4
    {
      HeadParts(Now(), node, par, kids, rest);
      var cur := At(list, node);
      ghost var before := Now();
      ghost var done, rem := [], kids;
      FinalizingStarts(I, Now(), node, kids);
      while cur.Some?
        invariant Finalizing(I, Now(), node, cur, kids, done, rem)
        invariant Outside(before, Now(), Nodes(kids))
        decreases Size(rem)
      {
        FinalizingAt(I, Now(), node, cur, kids, done, rem);
        ghost var before := Now();
        FinalizeNode(cur.value, Some(node), rem);
        FinalizingStep(I, before, Now(), node, cur.value, kids, done, rem);
        done, rem := done + [FinalizeHead(I, rem)[0]], FinalizeHead(I, rem)[1..];
        cur := At(next, cur.value);
      }
      FinalizingEnds(I, Now(), node, kids, done, rem);
      SegOutside(before, Now(), Nodes(kids), At(next, node), None, par, rest);
      HeadWhole(Now(), node, par, FinalizeAll(I, kids), rest);
    }

    /** _finalize_node() */
    method FinalizeNode(node: Node, ghost par: Option<Node>, ghost ms: seq<Menu>)
      requires ms != [] && ms[0].node == node && Seg(Now(), Some(node), None, par, ms) && Unique(ms)
      modifies this
      ensures Seg(Now(), Some(node), None, par, FinalizeHead(I, ms))
      ensures Outside(old(Now()), Now(), Nodes(ms))
      decreases Size(ms), 3
    {
      assert ms == [Menu(node, ms[0].kids)] + ms[1..];
      if I.isSym(node) {
        TakeSubmenu(node, par, ms);
        SubmenuKeeps(I, ms);
        ghost var (kids, rest) := Submenu(I, ms);
        FinishLevel(node, par, kids, rest);
      } else {
        if node in list {
          FinalizeKids(node, par, ms[0].kids, ms[1..]);
        }
        FinalizeAllKeeps(I, ms[0].kids);
        FinishLevel(node, par, FinalizeAll(I, ms[0].kids), ms[1..]);
      }
    }
  }

  // The first of some siblings

  lemma HeadParts(L: Links, node: Node, par: Option<Node>, kids: seq<Menu>, rest: seq<Menu>)
    requires Seg(L, Some(node), None, par, [Menu(node, kids)] + rest) && Unique([Menu(node, kids)] + rest)
    ensures At(L.parent, node) == par
    ensures Seg(L, At(L.list, node), None, Some(node), kids) && Seg(L, At(L.next, node), None, par, rest)
    ensures node !in Nodes(kids) && node !in Nodes(rest) && Nodes(kids) !! Nodes(rest) && Unique(kids) && Unique(rest)
  {
    assert ([Menu(node, kids)] + rest)[1..] == rest;
  }

  lemma HeadWhole(L: Links, node: Node, par: Option<Node>, kids: seq<Menu>, rest: seq<Menu>)
    requires At(L.parent, node) == par
    requires Seg(L, At(L.list, node), None, Some(node), kids) && Seg(L, At(L.next, node), None, par, rest)
    ensures Seg(L, Some(node), None, par, [Menu(node, kids)] + rest)
  {
    assert ([Menu(node, kids)] + rest)[1..] == rest;
  }

  lemma HeadUnique(node: Node, kids: seq<Menu>, rest: seq<Menu>)
    ensures Nodes([Menu(node, kids)] + rest) == {node} + Nodes(kids) + Nodes(rest)
    ensures Unique([Menu(node, kids)] + rest) <==>
      node !in Nodes(kids) && node !in Nodes(rest) && Nodes(kids) !! Nodes(rest) && Unique(kids) && Unique(rest)
  {
    assert ([Menu(node, kids)] + rest)[1..] == rest;
  }

  // What finalising keeps

  /** The children and the siblings of a symbol node before its level is finished. */
  function Submenu(I: Info, ms: seq<Menu>): (seq<Menu>, seq<Menu>)
    requires ms != []
  {
    var (kids, rest) := Absorb(I, ms[0].node, ms[1..]);
    (if kids == [] then ms[0].kids else kids, rest)
  }

  lemma {:induction false} FinalizeHeadKeeps(I: Info, ms: seq<Menu>)
    requires ms != [] && Unique(ms)
    ensures Unique(FinalizeHead(I, ms)) && Nodes(FinalizeHead(I, ms)) <= Nodes(ms)
    decreases Size(ms), 1
  {
    var m := ms[0];
    if I.isSym(m.node) {
      AbsorbKeeps(I, m.node, ms[1..]);
      var (kids, rest) := Absorb(I, m.node, ms[1..]);
      var kids' := if kids == [] then m.kids else kids;
      UniqueAppend(kids, rest);
      NodesAppend(kids, rest);
      LevelKeeps(I, kids');
      HeadUnique(m.node, Level(I, kids'), rest);
    } else {
      FinalizeAllKeeps(I, m.kids);
      LevelKeeps(I, FinalizeAll(I, m.kids));
      HeadUnique(m.node, Level(I, FinalizeAll(I, m.kids)), ms[1..]);
    }
  }

  lemma HeadKeeps(ms: seq<Menu>, kids: seq<Menu>, rest: seq<Menu>)
    requires ms != [] && Unique(ms) && Unique(kids + rest) && Nodes(kids + rest) <= Nodes(ms[1..])
    ensures Unique(([ms[0]] + kids) + rest) && Nodes(([ms[0]] + kids) + rest) <= Nodes(ms)
  {
    assert ([ms[0]] + kids) + rest == [ms[0]] + (kids + rest);
    HeadUnique(ms[0].node, ms[0].kids, kids + rest);
  }

  lemma {:induction false} AbsorbKeeps(I: Info, s: Node, ms: seq<Menu>)
    requires Unique(ms)
    ensures var (kids, rest) := Absorb(I, s, ms); Unique(kids + rest) && Nodes(kids + rest) <= Nodes(ms)
    decreases Size(ms), 2
  {
    if ms == [] || !I.autoDep(s, ms[0].node) {
      assert [] + ms == ms;
    } else {
      var ms' := FinalizeHead(I, ms);
      FinalizeHeadKeeps(I, ms);
      AbsorbKeeps(I, s, ms'[1..]);
      var (kids, rest) := Absorb(I, s, ms'[1..]);
      assert Absorb(I, s, ms) == ([ms'[0]] + kids, rest);
      hide Absorb, FinalizeHead, Unique, Nodes;
      HeadKeeps(ms', kids, rest);
    }
  }

  lemma {:induction false} FinalizeAllKeeps(I: Info, ms: seq<Menu>)
    requires Unique(ms)
    ensures Unique(FinalizeAll(I, ms)) && Nodes(FinalizeAll(I, ms)) <= Nodes(ms)
    decreases Size(ms), 2
  {
    if ms == [] {
    } else {
      var ms' := FinalizeHead(I, ms);
      FinalizeHeadKeeps(I, ms);
      FinalizeAllKeeps(I, ms'[1..]);
      assert ms' == [ms'[0]] + ms'[1..] && ms'[0] == Menu(ms'[0].node, ms'[0].kids);
      HeadUnique(ms'[0].node, ms'[0].kids, ms'[1..]);
      HeadUnique(ms'[0].node, ms'[0].kids, FinalizeAll(I, ms'[1..]));
    }
  }

  lemma SubmenuKeeps(I: Info, ms: seq<Menu>)
    requires ms != [] && Unique(ms)
    ensures var (kids, rest) := Submenu(I, ms);
      Unique([Menu(ms[0].node, kids)] + rest) && {ms[0].node} + Nodes(kids) <= Nodes(ms)
  {
    AbsorbKeeps(I, ms[0].node, ms[1..]);
    var (kids, rest) := Absorb(I, ms[0].node, ms[1..]);
    UniqueAppend(kids, rest);
    NodesAppend(kids, rest);
    HeadUnique(ms[0].node, Submenu(I, ms).0, rest);
  }

  lemma ConsMoves<T>(a: seq<T>, x: T, b: seq<T>)
    ensures a + ([x] + b) == (a + [x]) + b
  {
  }

  // Taking in a submenu

  /** ks has been put below `node`, and rs are the siblings after it. */
  ghost predicate Absorbing(
    I: Info, L: Links, node: Node, cur: Node, par: Option<Node>, ms: seq<Menu>, ks: seq<Menu>, rs: seq<Menu>)
  {
    && ms != [] && ms[0].node == node && At(L.parent, node) == par
    && Seg(L, At(L.list, node), None, Some(node), ms[0].kids)
    && Seg(L, At(L.next, node), At(L.next, cur), Some(node), ks) && Seg(L, At(L.next, cur), None, par, rs)
    && cur == (if ks == [] then node else ks[|ks| - 1].node)
    && Unique([Menu(node, ms[0].kids)] + (ks + rs)) && Nodes(ks + rs) <= Nodes(ms[1..]) && Size(rs) <= Size(ms[1..])
    && Absorb(I, node, ms[1..]) == (ks + Absorb(I, node, rs).0, Absorb(I, node, rs).1)
  }

  lemma AbsorbingStarts(I: Info, L: Links, node: Node, par: Option<Node>, ms: seq<Menu>)
    requires ms != [] && ms[0].node == node && Seg(L, Some(node), None, par, ms) && Unique(ms)
    ensures Absorbing(I, L, node, node, par, ms, [], ms[1..])
  {
    assert ms == [Menu(node, ms[0].kids)] + ms[1..];
    assert [] + ms[1..] == ms[1..];
    assert [] + Absorb(I, node, ms[1..]).0 == Absorb(I, node, ms[1..]).0;
  }

  lemma AbsorbingAt(
    I: Info, L: Links, node: Node, cur: Node, par: Option<Node>, ms: seq<Menu>, ks: seq<Menu>, rs: seq<Menu>)
    requires Absorbing(I, L, node, cur, par, ms, ks, rs) && cur in L.next
    ensures rs != [] && rs[0].node == L.next[cur] && Seg(L, Some(L.next[cur]), None, par, rs) && Unique(rs)
    ensures Size(rs) < Size(ms) && Nodes(rs) <= Nodes(ms) && Size(FinalizeHead(I, rs)[1..]) < Size(rs)
    ensures rs[0].node in Nodes(ms) && cur !in Nodes(rs)
  {
    HeadUnique(node, ms[0].kids, ks + rs);
    UniqueAppend(ks, rs);
    NodesAppend(ks, rs);
    if ks != [] { LastIsNode(ks); }
  }

  lemma AbsorbedNodes(I: Info, node: Node, kids: seq<Menu>, ks: seq<Menu>, rs: seq<Menu>)
    requires rs != [] && Unique([Menu(node, kids)] + (ks + rs))
    ensures var ms' := FinalizeHead(I, rs);
      Unique([Menu(node, kids)] + ((ks + [ms'[0]]) + ms'[1..])) && Nodes((ks + [ms'[0]]) + ms'[1..]) <= Nodes(ks + rs)
    ensures node !in Nodes(rs) && Nodes(kids) !! Nodes(rs) && Nodes(ks) !! Nodes(rs) && Unique(rs)
  {
    var ms' := FinalizeHead(I, rs);
    HeadUnique(node, kids, ks + rs);
    UniqueAppend(ks, rs);
    NodesAppend(ks, rs);
    FinalizeHeadKeeps(I, rs);
    assert ms' == [ms'[0]] + ms'[1..];
    ConsMoves(ks, ms'[0], ms'[1..]);
    UniqueAppend(ks, ms');
    NodesAppend(ks, ms');
    HeadUnique(node, kids, ks + ms');
  }

  lemma AbsorbAdvances(I: Info, node: Node, ms: seq<Menu>, ks: seq<Menu>, rs: seq<Menu>)
    requires ms != [] && rs != [] && I.autoDep(node, rs[0].node)
    requires Absorb(I, node, ms[1..]) == (ks + Absorb(I, node, rs).0, Absorb(I, node, rs).1)
    ensures var ms' := FinalizeHead(I, rs);
      Absorb(I, node, ms[1..]) == ((ks + [ms'[0]]) + Absorb(I, node, ms'[1..]).0, Absorb(I, node, ms'[1..]).1)
  {
    var ms' := FinalizeHead(I, rs);
    ConsMoves(ks, ms'[0], Absorb(I, node, ms'[1..]).0);
  }

  /** The next sibling is finalized, giving L', and put below `node`, giving L''. */
  lemma AbsorbStep(
    I: Info, L: Links, L': Links, L'': Links, node: Node, c: Node, par: Option<Node>,
    ms: seq<Menu>, ks: seq<Menu>, rs: seq<Menu>)
    requires exists cur :: Absorbing(I, L, node, cur, par, ms, ks, rs) && At(L.next, cur) == Some(c)
    requires rs != [] && rs[0].node == c && I.autoDep(node, c)
    requires Outside(L, L', Nodes(rs)) && Seg(L', Some(c), None, par, FinalizeHead(I, rs))
    requires L'' == L'.(parent := With(L'.parent, c, Some(node)))
    ensures Absorbing(I, L'', node, c, par, ms, ks + [FinalizeHead(I, rs)[0]], FinalizeHead(I, rs)[1..])
  {
    var cur :| Absorbing(I, L, node, cur, par, ms, ks, rs) && At(L.next, cur) == Some(c);
    var ms' := FinalizeHead(I, rs);
    AbsorbedNodes(I, node, ms[0].kids, ks, rs);
    AbsorbAdvances(I, node, ms, ks, rs);
    FinalizeHeadKeeps(I, rs);
    assert Outside(L, L'', Nodes(rs));
    SegOutside(L, L'', Nodes(rs), At(L.list, node), None, Some(node), ms[0].kids);
    SegOutside(L, L'', Nodes(rs), At(L.next, node), Some(c), Some(node), ks);
    SegOutside(L', L'', {c}, At(L'.list, c), None, Some(c), ms'[0].kids);
    SegOutside(L', L'', {c}, At(L'.next, c), None, par, ms'[1..]);
    SegSnoc(L'', At(L''.next, node), Some(node), ks, ms'[0]);
  }

  /** The links after the symbols that depend on the first node have gone below it. */
  ghost predicate WithSubmenu(I: Info, L: Links, par: Option<Node>, ms: seq<Menu>)
    requires ms != []
  {
    var (kids, rest) := Submenu(I, ms);
    Seg(L, Some(ms[0].node), None, par, [Menu(ms[0].node, kids)] + rest)
  }

  lemma SubmenuTaken(I: Info, L: Links, par: Option<Node>, ms: seq<Menu>, ks: seq<Menu>, rs: seq<Menu>)
    requires ms != [] && Submenu(I, ms) == (ks, rs) && Seg(L, Some(ms[0].node), None, par, [Menu(ms[0].node, ks)] + rs)
    ensures WithSubmenu(I, L, par, ms)
  {
  }

  lemma AbsorbingEnds(
    I: Info, L: Links, node: Node, cur: Node, par: Option<Node>, ms: seq<Menu>, ks: seq<Menu>, rs: seq<Menu>)
    requires Absorbing(I, L, node, cur, par, ms, ks, rs) && !(cur in L.next && I.autoDep(node, L.next[cur]))
    ensures Submenu(I, ms) == (if ks == [] then ms[0].kids else ks, rs) && (cur == node <==> ks == [])
    ensures ks == [] ==> WithSubmenu(I, L, par, ms)
    ensures ks != [] ==>
      && cur == ks[|ks| - 1].node && At(L.parent, node) == par && Unique([Menu(node, ks)] + rs)
      && Seg(L, At(L.next, node), At(L.next, cur), Some(node), ks) && Seg(L, At(L.next, cur), None, par, rs)
      && cur in Nodes(ms)
    ensures node in Nodes(ms)
  {
    HeadUnique(node, ms[0].kids, ks + rs);
    UniqueAppend(ks, rs);
    NodesAppend(ks, rs);
    assert ks + [] == ks;
    if ks == [] {
      assert [] + rs == rs;
      HeadWhole(L, node, par, ms[0].kids, rs);
    } else {
      LastIsNode(ks);
      HeadUnique(node, ks, rs);
    }
  }

  lemma TiltUp(L: Links, L': Links, node: Node, cur: Node, par: Option<Node>, ks: seq<Menu>, rs: seq<Menu>)
    requires ks != [] && cur == ks[|ks| - 1].node && At(L.parent, node) == par && Unique([Menu(node, ks)] + rs)
    requires Seg(L, At(L.next, node), At(L.next, cur), Some(node), ks) && Seg(L, At(L.next, cur), None, par, rs)
    requires L' == Links(With(With(L.next, node, At(L.next, cur)), cur, None), With(L.list, node, At(L.next, node)), L.parent)
    ensures Seg(L', Some(node), None, par, [Menu(node, ks)] + rs)
  {
    HeadUnique(node, ks, rs);
    LastIsNode(ks);
    SegRetail(L, L', At(L.next, node), At(L.next, cur), None, Some(node), ks);
    SegSame(L, L', At(L.next, cur), None, par, rs);
    HeadWhole(L', node, par, ks, rs);
  }

  // Finalising all children

  ghost predicate Finalizing(
    I: Info, L: Links, node: Node, cur: Option<Node>, kids: seq<Menu>, done: seq<Menu>, rem: seq<Menu>)
  {
    && Seg(L, At(L.list, node), cur, Some(node), done) && Seg(L, cur, None, Some(node), rem)
    && Unique(done + rem) && Nodes(done + rem) <= Nodes(kids) && node !in Nodes(kids) && Size(rem) <= Size(kids)
    && FinalizeAll(I, kids) == done + FinalizeAll(I, rem)
  }

  lemma FinalizingStarts(I: Info, L: Links, node: Node, kids: seq<Menu>)
    requires Seg(L, At(L.list, node), None, Some(node), kids) && Unique(kids) && node !in Nodes(kids)
    ensures Finalizing(I, L, node, At(L.list, node), kids, [], kids)
  {
    assert [] + kids == kids && [] + FinalizeAll(I, kids) == FinalizeAll(I, kids);
  }

  lemma FinalizingAt(
    I: Info, L: Links, node: Node, cur: Option<Node>, kids: seq<Menu>, done: seq<Menu>, rem: seq<Menu>)
    requires Finalizing(I, L, node, cur, kids, done, rem) && cur.Some?
    ensures rem != [] && rem[0].node == cur.value && Seg(L, cur, None, Some(node), rem) && Unique(rem)
    ensures Size(rem) <= Size(kids) && Nodes(rem) <= Nodes(kids) && Size(FinalizeHead(I, rem)[1..]) < Size(rem)
  {
    UniqueAppend(done, rem);
    NodesAppend(done, rem);
  }

  lemma FinalizingStep(
    I: Info, L: Links, L': Links, node: Node, c: Node, kids: seq<Menu>, done: seq<Menu>, rem: seq<Menu>)
    requires Finalizing(I, L, node, Some(c), kids, done, rem) && rem != [] && rem[0].node == c
    requires Outside(L, L', Nodes(rem)) && Seg(L', Some(c), None, Some(node), FinalizeHead(I, rem))
    ensures Finalizing(I, L', node, At(L'.next, c), kids, done + [FinalizeHead(I, rem)[0]], FinalizeHead(I, rem)[1..])
  {
    var ms' := FinalizeHead(I, rem);
    UniqueAppend(done, rem);
    NodesAppend(done, rem);
    FinalizeHeadKeeps(I, rem);
    assert ms' == [ms'[0]] + ms'[1..];
    ConsMoves(done, ms'[0], ms'[1..]);
    UniqueAppend(done, ms');
    NodesAppend(done, ms');
    ConsMoves(done, ms'[0], FinalizeAll(I, ms'[1..]));
    SegOutside(L, L', Nodes(rem), At(L.list, node), Some(c), Some(node), done);
    SegSnoc(L', At(L'.list, node), Some(node), done, ms'[0]);
  }

  lemma FinalizingEnds(I: Info, L: Links, node: Node, kids: seq<Menu>, done: seq<Menu>, rem: seq<Menu>)
    requires Finalizing(I, L, node, None, kids, done, rem)
    ensures Seg(L, At(L.list, node), None, Some(node), FinalizeAll(I, kids))
  {
    assert done + [] == done;
  }

  // Flattening a level

  /** The nodes of `done` are flattened, and those of `rem` are still to be. */
  ghost predicate Flattening(
    I: Info, L: Links, first: Option<Node>, node: Option<Node>, par: Option<Node>,
    ms: seq<Menu>, done: seq<Menu>, rem: seq<Menu>)
  {
    && Seg(L, first, node, par, done) && Seg(L, node, None, par, rem)
    && Unique(done + rem) && Nodes(done + rem) == Nodes(ms) && Flatten(I, ms) == done + Flatten(I, rem)
  }

  lemma FlatteningStarts(I: Info, L: Links, first: Option<Node>, par: Option<Node>, ms: seq<Menu>)
    requires Seg(L, first, None, par, ms) && Unique(ms)
    ensures Flattening(I, L, first, first, par, ms, [], ms)
  {
    assert [] + ms == ms && [] + Flatten(I, ms) == Flatten(I, ms);
  }

  lemma FlatteningAt(
    I: Info, L: Links, first: Option<Node>, n: Node, par: Option<Node>, ms: seq<Menu>, done: seq<Menu>, rem: seq<Menu>)
    requires Flattening(I, L, first, Some(n), par, ms, done, rem)
    ensures rem != [] && rem[0].node == n && (n in L.list <==> rem[0].kids != [])
    ensures Seg(L, Some(n), None, par, [Menu(n, rem[0].kids)] + rem[1..]) && Unique([Menu(n, rem[0].kids)] + rem[1..])
  {
    SegEnds(L, At(L.list, n), Some(n), rem[0].kids);
    assert rem == [Menu(n, rem[0].kids)] + rem[1..];
    UniqueAppend(done, rem);
  }

  lemma FlatteningEnds(
    I: Info, L: Links, first: Option<Node>, par: Option<Node>, ms: seq<Menu>, done: seq<Menu>, rem: seq<Menu>)
    requires Flattening(I, L, first, None, par, ms, done, rem)
    ensures Seg(L, first, None, par, Flatten(I, ms))
  {
    assert done + [] == done;
  }

  lemma SplicedNodes(done: seq<Menu>, rem: seq<Menu>)
    requires rem != [] && Unique(done + rem)
    ensures var rem' := [Menu(rem[0].node, [])] + (rem[0].kids + rem[1..]);
      Unique(done + rem') && Nodes(done + rem') == Nodes(done + rem) && Size(rem') == Size(rem)
    ensures {rem[0].node} + Nodes(rem[0].kids) <= Nodes(done + rem) && Nodes(done) !! ({rem[0].node} + Nodes(rem[0].kids))
  {
    var tail := rem[0].kids + rem[1..];
    var rem' := [Menu(rem[0].node, [])] + tail;
    assert rem'[1..] == tail;
    SizeAppend(rem[0].kids, rem[1..]);
    NodesAppend(rem[0].kids, rem[1..]);
    UniqueAppend(rem[0].kids, rem[1..]);
    NodesAppend(done, rem);
    NodesAppend(done, rem');
    UniqueAppend(done, rem);
    UniqueAppend(done, rem');
  }

  /** The children of the next node are spliced in. */
  lemma FlattenStep(
    I: Info, L: Links, L': Links, first: Option<Node>, par: Option<Node>, ms: seq<Menu>, done: seq<Menu>, rem: seq<Menu>)
    requires rem != [] && Flattens(I, rem[0]) && Flattening(I, L, first, Some(rem[0].node), par, ms, done, rem)
    requires Outside(L, L', {rem[0].node} + Nodes(rem[0].kids))
    requires Seg(L', Some(rem[0].node), None, par, [Menu(rem[0].node, [])] + (rem[0].kids + rem[1..]))
    ensures var rem' := [Menu(rem[0].node, [])] + (rem[0].kids + rem[1..]);
      Flattening(I, L', first, Some(rem[0].node), par, ms, done, rem') && Size(rem') == Size(rem)
    ensures {rem[0].node} + Nodes(rem[0].kids) <= Nodes(ms)
  {
    var tail := rem[0].kids + rem[1..];
    var rem' := [Menu(rem[0].node, [])] + tail;
    assert rem'[1..] == tail;
    SplicedNodes(done, rem);
    SegOutside(L, L', {rem[0].node} + Nodes(rem[0].kids), first, Some(rem[0].node), par, done);
  }

  lemma FlattenPasses(
    I: Info, L: Links, first: Option<Node>, n: Node, par: Option<Node>, ms: seq<Menu>, done: seq<Menu>, rem: seq<Menu>)
    requires rem != [] && !Flattens(I, rem[0]) && Flattening(I, L, first, Some(n), par, ms, done, rem)
    ensures Flattening(I, L, first, At(L.next, n), par, ms, done + [rem[0]], rem[1..]) && Size(rem[1..]) < Size(rem)
  {
    SegSnoc(L, first, par, done, rem[0]);
    assert [rem[0]] + rem[1..] == rem;
    ConsMoves(done, rem[0], rem[1..]);
    ConsMoves(done, rem[0], Flatten(I, rem[1..]));
  }

  // Removing `if` nodes from a level

  function Skipped(I: Info, ms: seq<Menu>): seq<Menu> {
    if ms != [] && I.isIf(ms[0].node) then Skipped(I, ms[1..]) else ms
  }

  lemma {:induction false} SkippedKeeps(I: Info, ms: seq<Menu>)
    ensures RemoveIfs(I, Skipped(I, ms)) == RemoveIfs(I, ms) && Kept(ms, Skipped(I, ms)) && |Skipped(I, ms)| <= |ms|
    ensures Skipped(I, ms) != [] ==> !I.isIf(Skipped(I, ms)[0].node)
  {
    if ms != [] && I.isIf(ms[0].node) { SkippedKeeps(I, ms[1..]); }
  }

  ghost predicate Removing(
    I: Info, L: Links, par: Node, node: Option<Node>, ms: seq<Menu>, done: seq<Menu>, rem: seq<Menu>)
  {
    && Seg(L, At(L.list, par), node, Some(par), done) && Seg(L, node, None, Some(par), rem)
    && Unique(done + rem) && Nodes(done + rem) <= Nodes(ms) && par !in Nodes(ms)
    && RemoveIfs(I, ms) == done + RemoveIfs(I, rem) && (rem != [] ==> !I.isIf(rem[0].node))
  }

  lemma RemovingStarts(I: Info, L: Links, L': Links, par: Node, cur: Option<Node>, ms: seq<Menu>)
    requires Seg(L, cur, None, Some(par), Skipped(I, ms)) && Unique(ms) && par !in Nodes(ms)
    requires L' == L.(list := With(L.list, par, cur))
    ensures Removing(I, L', par, cur, ms, [], Skipped(I, ms))
  {
    var rem := Skipped(I, ms);
    SkippedKeeps(I, ms);
    SegOutside(L, L', {par}, cur, None, Some(par), rem);
    assert [] + rem == rem && [] + RemoveIfs(I, rem) == RemoveIfs(I, rem);
  }

  lemma RemovingAt(I: Info, L: Links, par: Node, n: Node, ms: seq<Menu>, done: seq<Menu>, rem: seq<Menu>)
    requires Removing(I, L, par, Some(n), ms, done, rem)
    ensures rem != [] && rem[0].node == n && n in Nodes(ms) && n != par && |Skipped(I, rem[1..])| < |rem|
    ensures Seg(L, At(L.next, n), None, Some(par), rem[1..])
  {
    NodesAppend(done, rem);
    SkippedKeeps(I, rem[1..]);
  }

  lemma RemovingEnds(I: Info, L: Links, par: Node, ms: seq<Menu>, done: seq<Menu>, rem: seq<Menu>)
    requires Removing(I, L, par, None, ms, done, rem)
    ensures Seg(L, At(L.list, par), None, Some(par), RemoveIfs(I, ms))
  {
    assert done + [] == done;
  }

  lemma RemovedNodes(I: Info, done: seq<Menu>, rem: seq<Menu>)
    requires rem != [] && Unique(done + rem)
    ensures var rem' := Skipped(I, rem[1..]);
      Unique((done + [rem[0]]) + rem') && Nodes((done + [rem[0]]) + rem') <= Nodes(done + rem)
    ensures var rem' := Skipped(I, rem[1..]);
      rem[0].node !in Nodes(done) && rem[0].node !in Nodes(rem[0].kids) && rem[0].node !in Nodes(rem')
  {
    var rem' := Skipped(I, rem[1..]);
    SkippedKeeps(I, rem[1..]);
    ConsMoves(done, rem[0], rem');
    assert ([rem[0]] + rem')[1..] == rem';
    UniqueAppend(done, rem);
    NodesAppend(done, rem);
    UniqueAppend(done, [rem[0]] + rem');
    NodesAppend(done, [rem[0]] + rem');
  }

  /** The next node that stays is linked to the node before the removed ones. */
  lemma RemoveStep(
    I: Info, L: Links, L': Links, par: Node, following: Option<Node>, ms: seq<Menu>, done: seq<Menu>, rem: seq<Menu>)
    requires rem != [] && Removing(I, L, par, Some(rem[0].node), ms, done, rem)
    requires Seg(L, following, None, Some(par), Skipped(I, rem[1..]))
    requires L' == L.(next := With(L.next, rem[0].node, following))
    ensures Removing(I, L', par, following, ms, done + [rem[0]], Skipped(I, rem[1..]))
  {
    var m, rem' := rem[0], Skipped(I, rem[1..]);
    RemovedNodes(I, done, rem);
    SkippedKeeps(I, rem[1..]);
    SegOutside(L, L', {m.node}, At(L.list, par), Some(m.node), Some(par), done);
    SegOutside(L, L', {m.node}, At(L.list, m.node), None, Some(m.node), m.kids);
    SegOutside(L, L', {m.node}, following, None, Some(par), rem');
    SegSnoc(L', At(L.list, par), Some(par), done, m);
    ConsMoves(done, m, RemoveIfs(I, rem[1..]));
  }

  // Splicing

  lemma SpliceAt(L: Links, L': Links, first: Option<Node>, n: Node, par: Option<Node>, kids: seq<Menu>, k: nat)
    requires k < |kids| && Unique(kids)
    requires Seg(L, first, Some(kids[k].node), par, kids[..k]) && Seg(L, Some(kids[k].node), None, Some(n), kids[k..])
    requires L' == L.(parent := With(L.parent, kids[k].node, par))
    ensures Seg(L', first, At(L.next, kids[k].node), par, kids[..k + 1])
    ensures Seg(L', At(L.next, kids[k].node), None, Some(n), kids[k + 1..])
    ensures kids[k].node in Nodes(kids)
  {
    assert kids[..k] + kids[k..] == kids;
    NodesAppend(kids[..k], kids[k..]);
    assert kids[..k] + [kids[k]] == kids[..k + 1] && kids[k..][1..] == kids[k + 1..];
    SpliceStep(L, L', first, n, par, kids[..k], kids[k..]);
  }

  lemma SegEnds(L: Links, first: Option<Node>, par: Option<Node>, ms: seq<Menu>)
    requires Seg(L, first, None, par, ms)
    ensures first.None? <==> ms == []
    ensures first.Some? ==> first.value == ms[0].node
  {
  }

  lemma SpliceEnd(L: Links, L': Links, n: Node, par: Option<Node>, kids: seq<Menu>, rest: seq<Menu>)
    requires kids != [] && Unique([Menu(n, kids)] + rest) && At(L.parent, n) == par
    requires Seg(L, At(L.list, n), None, par, kids) && Seg(L, At(L.next, n), None, par, rest)
    requires L' == Links(With(With(L.next, kids[|kids| - 1].node, At(L.next, n)), n, At(L.list, n)),
                         With(L.list, n, None), L.parent)
    ensures Seg(L', Some(n), None, par, [Menu(n, [])] + (kids + rest))
  {
    assert ([Menu(n, kids)] + rest)[1..] == rest;
    LastIsNode(kids);
    SegRetail(L, L', At(L.list, n), None, At(L.next, n), par, kids);
    SegSame(L, L', At(L.next, n), None, par, rest);
    SegAppend(L', At(L.list, n), At(L.next, n), None, par, kids, rest);
    assert ([Menu(n, [])] + (kids + rest))[1..] == kids + rest;
  }

  lemma SpliceStep(
    L: Links, L': Links, first: Option<Node>, n: Node, par: Option<Node>, seen: seq<Menu>, todo: seq<Menu>)
    requires todo != [] && Unique(seen + todo)
    requires Seg(L, first, Some(todo[0].node), par, seen) && Seg(L, Some(todo[0].node), None, Some(n), todo)
    requires L' == L.(parent := With(L.parent, todo[0].node, par))
    ensures Seg(L', first, At(L.next, todo[0].node), par, seen + [todo[0]])
    ensures Seg(L', At(L.next, todo[0].node), None, Some(n), todo[1..])
  {
    var x := todo[0].node;
    UniqueAppend(seen, todo);
    SegSame(L, L', first, Some(x), par, seen);
    SegSame(L, L', At(L.list, x), None, Some(x), todo[0].kids);
    SegSame(L, L', At(L.next, x), None, Some(n), todo[1..]);
    SegSnoc(L', first, par, seen, todo[0]);
  }
}
