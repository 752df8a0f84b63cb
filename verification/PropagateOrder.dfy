/**
 * In which order the properties of symbols and choices with several nodes end up: that of the
 * nodes in the parsed tree. The first default whose condition is met counts, so this matters.
 */
module PropagateOrder {
  import opened Config
  import opened MenuTree
  import opened MenuLinks
  import opened Propagate
  import opened PropagateLaws

  // What nodes contribute, one after the other

  /** What the nodes have of their own, in their order. */
  function Gather<T>(own: Node -> seq<T>, nodes: seq<Node>): seq<T> {
    if nodes == [] then [] else own(nodes[0]) + Gather(own, nodes[1..])
  }

  function OwnDefaults(D: Defs, P: map<Node, Props>, s: SymId): Node -> seq<Default> {
    (n: Node) => if D.kind(n) == SymNode(s) then PropsOf(P, n).defaults else []
  }

  function OwnRanges(D: Defs, P: map<Node, Props>, s: SymId): Node -> seq<Range> {
    (n: Node) => if D.kind(n) == SymNode(s) then PropsOf(P, n).ranges else []
  }

  function OwnPicks(D: Defs, P: map<Node, Props>, c: ChoiceId): Node -> seq<Pick> {
    (n: Node) => if D.kind(n) == ChoiceNode(c) then PropsOf(P, n).picks else []
  }

  function OwnDep(D: Defs, V: Expr -> Tri, P: map<Node, Props>, c: ChoiceId): Node -> Tri {
    (n: Node) => (if D.kind(n) == ChoiceNode(c) then V(PropsOf(P, n).dep) else 0) as Tri
  }

  function Greatest(own: Node -> Tri, nodes: seq<Node>): Tri {
    if nodes == [] then 0 else Max(own(nodes[0]), Greatest(own, nodes[1..]))
  }

  lemma {:induction false} GatherAppend<T>(own: Node -> seq<T>, a: seq<Node>, b: seq<Node>)
    ensures Gather(own, a + b) == Gather(own, a) + Gather(own, b)
  {
    if a == [] {
      assert a + b == b;
    } else {
      assert (a + b)[1..] == a[1..] + b;
      GatherAppend(own, a[1..], b);
    }
  }

  lemma {:induction false} GreatestAppend(own: Node -> Tri, a: seq<Node>, b: seq<Node>)
    ensures Greatest(own, a + b) == Max(Greatest(own, a), Greatest(own, b))
  {
    if a == [] {
      assert a + b == b;
    } else {
      assert (a + b)[1..] == a[1..] + b;
      GreatestAppend(own, a[1..], b);
    }
  }

  lemma {:induction false} GatherSame<T>(own: Node -> seq<T>, own': Node -> seq<T>, nodes: seq<Node>)
    requires forall n :: n in nodes ==> own'(n) == own(n)
    ensures Gather(own', nodes) == Gather(own, nodes)
  {
    if nodes == [] {
    } else {
      assert nodes[0] in nodes;
      GatherSame(own, own', nodes[1..]);
    }
  }

  lemma {:induction false} GreatestSame(own: Node -> Tri, own': Node -> Tri, nodes: seq<Node>)
    requires forall n :: n in nodes ==> own'(n) == own(n)
    ensures Greatest(own', nodes) == Greatest(own, nodes)
  {
    if nodes == [] {
    } else {
      assert nodes[0] in nodes;
      GreatestSame(own, own', nodes[1..]);
    }
  }

  lemma GatherThen<T>(x: seq<T>, y: seq<T>, z: seq<T>, own: Node -> seq<T>, own': Node -> seq<T>, a: seq<Node>, b: seq<Node>)
    requires y == x + Gather(own, a) && z == y + Gather(own', b) && forall n :: n in a ==> own'(n) == own(n)
    ensures z == x + Gather(own', a + b)
  {
    GatherSame(own, own', a);
    GatherAppend(own', a, b);
  }

  lemma GatherOne<T>(own: Node -> seq<T>, n: Node)
    ensures Gather(own, [n]) == own(n) && Gather(own, []) == []
  {
    assert [n][1..] == [];
  }

  lemma GreatestOne(own: Node -> Tri, n: Node)
    ensures Greatest(own, [n]) == own(n) && Greatest(own, []) == 0
  {
    assert [n][1..] == [];
  }

  /** The nodes in the order in which they end. */
  function Postorder(ms: seq<Menu>): seq<Node> {
    if ms == [] then [] else Postorder(ms[0].kids) + [ms[0].node] + Postorder(ms[1..])
  }

  lemma {:induction false} PostorderAppend(a: seq<Menu>, b: seq<Menu>)
    ensures Postorder(a + b) == Postorder(a) + Postorder(b)
  {
    if a == [] {
      assert a + b == b;
    } else {
      assert (a + b)[1..] == a[1..] + b;
      PostorderAppend(a[1..], b);
    }
  }

  lemma {:induction false} PostorderNodes(ms: seq<Menu>)
    ensures forall n :: n in Postorder(ms) <==> n in Nodes(ms)
  {
    if ms == [] {
    } else {
      PostorderNodes(ms[0].kids);
      PostorderNodes(ms[1..]);
    }
  }

  // What finalisation gathers

  /** What the columns of S' have more than those of S: the contributions of the nodes, in order. */
  ghost predicate ListsGathered(D: Defs, S: State, S': State, pre: seq<Node>, post: seq<Node>, k: nat) {
    && GetSeq(S'.defaults, k) == GetSeq(S.defaults, k) + Gather(OwnDefaults(D, S'.props, k), pre)
    && GetSeq(S'.ranges, k) == GetSeq(S.ranges, k) + Gather(OwnRanges(D, S'.props, k), pre)
    && GetSeq(S'.picks, k) == GetSeq(S.picks, k) + Gather(OwnPicks(D, S'.props, k), post)
  }

  ghost predicate DepGathered(D: Defs, V: Expr -> Tri, S: State, S': State, post: seq<Node>, k: nat) {
    V(Get(S'.choiceDep, k, D)) == Max(V(Get(S.choiceDep, k, D)), Greatest(OwnDep(D, V, S'.props, k), post))
  }

  ghost predicate Gathered(D: Defs, V: Expr -> Tri, S: State, S': State, pre: seq<Node>, post: seq<Node>, k: nat) {
    ListsGathered(D, S, S', pre, post, k) && (ValuesOk(D, V) ==> DepGathered(D, V, S, S', post, k))
  }

  lemma GatheredThen(
    D: Defs, V: Expr -> Tri, S: State, S': State, S'': State,
    a: seq<Node>, b: seq<Node>, c: seq<Node>, d: seq<Node>, k: nat)
    requires Gathered(D, V, S, S', a, c, k) && Gathered(D, V, S', S'', b, d, k)
    requires forall n :: n in a || n in c ==> PropsOf(S''.props, n) == PropsOf(S'.props, n)
    ensures Gathered(D, V, S, S'', a + b, c + d, k)
  {
    hide ListsGathered, DepGathered, ValuesOk, PropsOf;
    ListsThen(D, S, S', S'', a, b, c, d, k);
    if ValuesOk(D, V) { DepThen(D, V, S, S', S'', c, d, k); }
  }

  lemma ListsThen(
    D: Defs, S: State, S': State, S'': State, a: seq<Node>, b: seq<Node>, c: seq<Node>, d: seq<Node>, k: nat)
    requires ListsGathered(D, S, S', a, c, k) && ListsGathered(D, S', S'', b, d, k)
    requires forall n :: n in a || n in c ==> PropsOf(S''.props, n) == PropsOf(S'.props, n)
    ensures ListsGathered(D, S, S'', a + b, c + d, k)
  {
    var P, P' := S'.props, S''.props;
    hide Gather, PropsOf, GetSeq;
    GatherThen(GetSeq(S.defaults, k), GetSeq(S'.defaults, k), GetSeq(S''.defaults, k),
               OwnDefaults(D, P, k), OwnDefaults(D, P', k), a, b);
    GatherThen(GetSeq(S.ranges, k), GetSeq(S'.ranges, k), GetSeq(S''.ranges, k), OwnRanges(D, P, k), OwnRanges(D, P', k), a, b);
    GatherThen(GetSeq(S.picks, k), GetSeq(S'.picks, k), GetSeq(S''.picks, k), OwnPicks(D, P, k), OwnPicks(D, P', k), c, d);
  }

  lemma DepThen(D: Defs, V: Expr -> Tri, S: State, S': State, S'': State, c: seq<Node>, d: seq<Node>, k: nat)
    requires DepGathered(D, V, S, S', c, k) && DepGathered(D, V, S', S'', d, k)
    requires forall n :: n in c ==> PropsOf(S''.props, n) == PropsOf(S'.props, n)
    ensures DepGathered(D, V, S, S'', c + d, k)
  {
    hide Greatest, PropsOf, Get;
    GreatestSame(OwnDep(D, V, S'.props, k), OwnDep(D, V, S''.props, k), c);
    GreatestAppend(OwnDep(D, V, S''.props, k), c, d);
  }

  lemma GatheredOne(D: Defs, V: Expr -> Tri, P: map<Node, Props>, n: Node, k: nat)
    ensures Gather(OwnDefaults(D, P, k), [n]) == if D.kind(n) == SymNode(k) then PropsOf(P, n).defaults else []
    ensures Gather(OwnRanges(D, P, k), [n]) == if D.kind(n) == SymNode(k) then PropsOf(P, n).ranges else []
    ensures Gather(OwnPicks(D, P, k), [n]) == if D.kind(n) == ChoiceNode(k) then PropsOf(P, n).picks else []
    ensures Greatest(OwnDep(D, V, P, k), [n]) == if D.kind(n) == ChoiceNode(k) then V(PropsOf(P, n).dep) else 0
  {
    GatherOne(OwnDefaults(D, P, k), n);
    GatherOne(OwnRanges(D, P, k), n);
    GatherOne(OwnPicks(D, P, k), n);
    GreatestOne(OwnDep(D, V, P, k), n);
  }

  lemma SymGathered(D: Defs, V: Expr -> Tri, S: State, n: Node, s: SymId, k: nat)
    requires D.kind(n) == SymNode(s)
    ensures Gathered(D, V, S, AddProps(D, S, s, PropsOf(S.props, n)), [n], [n], k)
  {
    GatheredOne(D, V, S.props, n, k);
    hide MakeOr, AddTargets, PropsOf;
  }

  /** A node that is no symbol and no choice adds nothing, and a choice adds its own properties. */
  lemma ChoiceGathered(D: Defs, V: Expr -> Tri, S: State, n: Node, k: nat)
    requires !D.kind(n).SymNode?
    ensures
      var S' := if D.kind(n).ChoiceNode? then AddChoiceProps(D, S, D.kind(n).c, PropsOf(S.props, n)) else S;
      Gathered(D, V, S, S', [], [n], k)
  {
    GatheredOne(D, V, S.props, n, k);
    if D.kind(n).ChoiceNode? && ValuesOk(D, V) { MakeOrValue(D, V, Get(S.choiceDep, D.kind(n).c, D), PropsOf(S.props, n).dep); }
    hide MakeOr, ValuesOk, PropsOf;
  }

  lemma NothingGathered(D: Defs, V: Expr -> Tri, S: State, P: map<Node, Props>, n: Node, k: nat)
    requires !D.kind(n).SymNode?
    ensures Gathered(D, V, S, S.(props := P), [n], [], k)
  {
    GatheredOne(D, V, P, n, k);
    hide PropsOf;
  }

  lemma {:induction false} FinalizedGathers(D: Defs, V: Expr -> Tri, S: State, m: Menu, visibleIf: Expr, k: nat)
    requires UniqueTree(m) && (D.kind(m.node).SymNode? ==> m.kids == []) && Parsed(D, m.kids)
    ensures Gathered(D, V, S, Finalized(D, S, m, visibleIf), [m.node] + Preorder(m.kids), Postorder(m.kids) + [m.node], k)
    decreases m, |m.kids| + 1, 0
  {
    var n := m.node;
    if D.kind(n).SymNode? {
      SymGathered(D, V, S, n, D.kind(n).s, k);
      assert [n] + Preorder(m.kids) == [n] && Postorder(m.kids) + [n] == [n];
    } else {
      var p := PropsOf(S.props, n);
      var vis := VisibleIf(D, n, p, visibleIf);
      var S1 := S.(props := PushAll(D, S.props, m.kids, Base(D, n, p), vis));
      var S2 := FinalizedAll(D, S1, m, |m.kids|, vis);
      var S3 := Finalized(D, S, m, visibleIf);
      assert S3 == if D.kind(n).ChoiceNode? then AddChoiceProps(D, S2, D.kind(n).c, PropsOf(S2.props, n)) else S2;
      hide Finalized, FinalizedAll, PushAll, ValuesOk, Unique, Preorder, Postorder, Gathered, Parsed, Base, VisibleIf, AddChoiceProps;
      KidsGather(D, V, S1, m, vis, k);
      NothingGathered(D, V, S, S1.props, n, k);
      ChoiceGathered(D, V, S2, n, k);
      Around(D, V, S, S1, S2, S3, n, Preorder(m.kids), Postorder(m.kids), k);
    }
  }

  lemma Around(
    D: Defs, V: Expr -> Tri, S: State, S1: State, S2: State, S3: State, n: Node, pre: seq<Node>, post: seq<Node>, k: nat)
    requires Gathered(D, V, S, S1, [n], [], k) && Gathered(D, V, S1, S2, pre, post, k) && Gathered(D, V, S2, S3, [], [n], k)
    requires PropsOf(S2.props, n) == PropsOf(S1.props, n) && S3.props == S2.props
    ensures Gathered(D, V, S, S3, [n] + pre, post + [n], k)
  {
    hide Gathered, PropsOf;
    GatheredThen(D, V, S, S1, S2, [n], pre, [], post, k);
    GatheredThen(D, V, S, S2, S3, [n] + pre, [], [] + post, [n], k);
    assert ([n] + pre) + [] == [n] + pre && [] + post == post;
  }

  lemma KidsGather(D: Defs, V: Expr -> Tri, S: State, m: Menu, vis: Expr, k: nat)
    requires UniqueTree(m) && Parsed(D, m.kids)
    ensures var S' := FinalizedAll(D, S, m, |m.kids|, vis);
      Gathered(D, V, S, S', Preorder(m.kids), Postorder(m.kids), k) && PropsOf(S'.props, m.node) == PropsOf(S.props, m.node)
    decreases m, |m.kids|, 1
  {
    FinalizedAllGathers(D, V, S, m, |m.kids|, vis, k);
    assert m.kids[..|m.kids|] == m.kids;
    forall i | 0 <= i < |m.kids| ensures m.node !in Nodes(m.kids[i].kids) { UniqueAt(m.kids, i); }
    FinalizedAllKeeps(D, S, m, |m.kids|, vis, m.node);
  }

  lemma {:induction false} FinalizedAllGathers(D: Defs, V: Expr -> Tri, S: State, m: Menu, j: nat, vis: Expr, k: nat)
    requires UniqueTree(m) && Parsed(D, m.kids) && j <= |m.kids|
    ensures Gathered(D, V, S, FinalizedAll(D, S, m, j, vis), Preorder(m.kids[..j]), Postorder(m.kids[..j]), k)
    decreases m, j, 0
  {
    hide Gathered, Preorder, Postorder, ValuesOk, Finalized;
    if j == 0 {
      NothingYet(D, V, S, m, k);
    } else {
      var before, kid := FinalizedAll(D, S, m, j - 1, vis), m.kids[j - 1];
      FinalizedAllGathers(D, V, S, m, j - 1, vis, k);
      UniqueAt(m.kids, j - 1);
      ParsedAt(D, m.kids, j - 1);
      FinalizedGathers(D, V, before, kid, vis, k);
      EarlierKept(D, before, m, j - 1, vis);
      AllNext(D, S, m, j, vis);
      NextKid(D, V, S, before, Finalized(D, before, kid, vis), m, j, k);
    }
  }

  lemma NothingYet(D: Defs, V: Expr -> Tri, S: State, m: Menu, k: nat)
    ensures Gathered(D, V, S, S, Preorder(m.kids[..0]), Postorder(m.kids[..0]), k)
  {
    hide ValuesOk;
  }

  lemma NextKid(D: Defs, V: Expr -> Tri, S: State, before: State, after: State, m: Menu, j: nat, k: nat)
    requires 0 < j <= |m.kids| && Gathered(D, V, S, before, Preorder(m.kids[..j - 1]), Postorder(m.kids[..j - 1]), k)
    requires
      var kid := m.kids[j - 1];
      Gathered(D, V, before, after, [kid.node] + Preorder(kid.kids), Postorder(kid.kids) + [kid.node], k)
    requires forall n :: n in Preorder(m.kids[..j - 1]) || n in Postorder(m.kids[..j - 1]) ==>
      PropsOf(after.props, n) == PropsOf(before.props, n)
    ensures Gathered(D, V, S, after, Preorder(m.kids[..j]), Postorder(m.kids[..j]), k)
  {
    var kid := m.kids[j - 1];
    hide Gathered, Preorder, Postorder, PropsOf;
    PreorderSnoc(m.kids, j);
    PostorderSnoc(m.kids, j);
    GatheredThen(D, V, S, before, after, Preorder(m.kids[..j - 1]), [kid.node] + Preorder(kid.kids),
                 Postorder(m.kids[..j - 1]), Postorder(kid.kids) + [kid.node], k);
  }

  lemma AllNext(D: Defs, S: State, m: Menu, j: nat, vis: Expr)
    requires 0 < j <= |m.kids|
    ensures FinalizedAll(D, S, m, j, vis) == Finalized(D, FinalizedAll(D, S, m, j - 1, vis), m.kids[j - 1], vis)
  {
    hide Finalized;
  }

  lemma EarlierKept(D: Defs, S: State, m: Menu, j: nat, vis: Expr)
    requires UniqueTree(m) && j < |m.kids| && UniqueTree(m.kids[j])
    ensures forall n :: n in Preorder(m.kids[..j]) || n in Postorder(m.kids[..j]) ==>
      PropsOf(Finalized(D, S, m.kids[j], vis).props, n) == PropsOf(S.props, n)
  {
    PreorderNodes(m.kids[..j]);
    PostorderNodes(m.kids[..j]);
    forall n | n in Nodes(m.kids[..j])
      ensures PropsOf(Finalized(D, S, m.kids[j], vis).props, n) == PropsOf(S.props, n)
    {
      EarlierNode(m, j, n);
      FinalizedKeeps(D, S, m.kids[j], vis, n);
    }
  }

  lemma PostorderSnoc(ms: seq<Menu>, j: nat)
    requires 0 < j <= |ms|
    ensures Postorder(ms[..j]) == Postorder(ms[..j - 1]) + (Postorder(ms[j - 1].kids) + [ms[j - 1].node])
  {
    var last := [ms[j - 1]];
    assert ms[..j] == ms[..j - 1] + last;
    PostorderAppend(ms[..j - 1], last);
    assert last[1..] == [];
    assert Postorder(last) == Postorder(ms[j - 1].kids) + [ms[j - 1].node] + [];
  }

  // Main results

  /**
   * The defaults and ranges of a symbol are those of its nodes with their propagated conditions,
   * in the order of the nodes in the parsed tree.
   */
  lemma SymbolsInOrder(D: Defs, props: map<Node, Props>, top: Menu, s: SymId)
    requires UniqueTree(top) && Parsed(D, top.kids) && D.kind(top.node).MenuNode?
    ensures
      var S := Finalized(D, State(props, map[], map[], map[], map[], map[], map[], map[]), top, Y(D));
      && GetSeq(S.defaults, s) == Gather(OwnDefaults(D, S.props, s), Preorder(top.kids))
      && GetSeq(S.ranges, s) == Gather(OwnRanges(D, S.props, s), Preorder(top.kids))
  {
    var S0 := State(props, map[], map[], map[], map[], map[], map[], map[]);
    var V: Expr -> Tri := e => 0;
    var S := Finalized(D, S0, top, Y(D));
    FinalizedGathers(D, V, S0, top, Y(D), s);
    GatherAppend(OwnDefaults(D, S.props, s), [top.node], Preorder(top.kids));
    GatherAppend(OwnRanges(D, S.props, s), [top.node], Preorder(top.kids));
    GatheredOne(D, V, S.props, top.node, s);
    hide Finalized, Preorder, Postorder;
  }

  /**
   * The defaults of a choice are those of its nodes, in the order in which the nodes end, and its
   * dependencies have the greatest of the values of theirs.
   */
  lemma ChoicesInOrder(D: Defs, V: Expr -> Tri, props: map<Node, Props>, top: Menu, c: ChoiceId)
    requires ValuesOk(D, V) && UniqueTree(top) && Parsed(D, top.kids) && D.kind(top.node).MenuNode?
    ensures
      var S := Finalized(D, State(props, map[], map[], map[], map[], map[], map[], map[]), top, Y(D));
      && GetSeq(S.picks, c) == Gather(OwnPicks(D, S.props, c), Postorder(top.kids))
      && V(Get(S.choiceDep, c, D)) == Greatest(OwnDep(D, V, S.props, c), Postorder(top.kids))
  {
    var S0 := State(props, map[], map[], map[], map[], map[], map[], map[]);
    var S := Finalized(D, S0, top, Y(D));
    FinalizedGathers(D, V, S0, top, Y(D), c);
    GatherAppend(OwnPicks(D, S.props, c), Postorder(top.kids), [top.node]);
    GreatestAppend(OwnDep(D, V, S.props, c), Postorder(top.kids), [top.node]);
    GatheredOne(D, V, S.props, top.node, c);
    assert V(Get(S0.choiceDep, c, D)) == 0;
    hide Finalized, Preorder, Postorder, ValuesOk, Gather, Greatest, PropsOf, OwnDep, OwnPicks;
  }

  /** No node of choice c is inside another one. */
  ghost predicate NotNested(D: Defs, ms: seq<Menu>, c: ChoiceId) {
    ms != [] ==>
      && (D.kind(ms[0].node) == ChoiceNode(c) ==> forall n :: n in Nodes(ms[0].kids) ==> D.kind(n) != ChoiceNode(c))
      && NotNested(D, ms[0].kids, c) && NotNested(D, ms[1..], c)
  }

  lemma {:induction false} NothingOf<T>(own: Node -> seq<T>, nodes: seq<Node>)
    requires forall n :: n in nodes ==> own(n) == []
    ensures Gather(own, nodes) == []
  {
    if nodes == [] {
    } else {
      assert nodes[0] in nodes;
      NothingOf(own, nodes[1..]);
    }
  }

  /** Unless a choice is nested in itself, its nodes end in the order in which they begin. */
  lemma {:induction false} EndsAsBegun<T>(D: Defs, own: Node -> seq<T>, ms: seq<Menu>, c: ChoiceId)
    requires NotNested(D, ms, c) && forall n :: D.kind(n) != ChoiceNode(c) ==> own(n) == []
    ensures Gather(own, Postorder(ms)) == Gather(own, Preorder(ms))
  {
    if ms == [] {
    } else {
      var n, kids, rest := ms[0].node, ms[0].kids, ms[1..];
      EndsAsBegun(D, own, kids, c);
      EndsAsBegun(D, own, rest, c);
      PreorderNodes(kids);
      PostorderNodes(kids);
      if D.kind(n) == ChoiceNode(c) {
        NothingOf(own, Preorder(kids));
        NothingOf(own, Postorder(kids));
      }
      assert Preorder(ms) == [n] + Preorder(kids) + Preorder(rest) && Postorder(ms) == Postorder(kids) + [n] + Postorder(rest);
      hide Gather, Preorder, Postorder, NotNested, Nodes;
      InThreeParts(own, [n], Preorder(kids), Preorder(rest));
      InThreeParts(own, Postorder(kids), [n], Postorder(rest));
      GatherOne(own, n);
    }
  }

  lemma InThreeParts<T>(own: Node -> seq<T>, a: seq<Node>, b: seq<Node>, c: seq<Node>)
    ensures Gather(own, a + b + c) == Gather(own, a) + Gather(own, b) + Gather(own, c)
  {
    GatherAppend(own, a + b, c);
    GatherAppend(own, a, b);
  }

  /** Then the defaults of a choice are in the order of its nodes in the parsed tree, too. */
  lemma PicksInOrder(D: Defs, props: map<Node, Props>, top: Menu, c: ChoiceId)
    requires UniqueTree(top) && Parsed(D, top.kids) && D.kind(top.node).MenuNode? && NotNested(D, top.kids, c)
    ensures
      var S := Finalized(D, State(props, map[], map[], map[], map[], map[], map[], map[]), top, Y(D));
      GetSeq(S.picks, c) == Gather(OwnPicks(D, S.props, c), Preorder(top.kids))
  {
    var S0 := State(props, map[], map[], map[], map[], map[], map[], map[]);
    var V: Expr -> Tri := e => 0;
    var S := Finalized(D, S0, top, Y(D));
    FinalizedGathers(D, V, S0, top, Y(D), c);
    GatherAppend(OwnPicks(D, S.props, c), Postorder(top.kids), [top.node]);
    GatheredOne(D, V, S.props, top.node, c);
    EndsAsBegun(D, OwnPicks(D, S.props, c), top.kids, c);
    hide Finalized, Preorder, Postorder, NotNested;
  }
}
