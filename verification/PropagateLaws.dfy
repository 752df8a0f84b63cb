/**
 * What propagated conditions mean: in every state, a condition has the least of the values
 * of its own and of all that are propagated to it, and the dependencies collected for a
 * symbol have the greatest of the values of its parts.
 */
module PropagateLaws {
  import opened Wrappers
  import opened Config
  import opened Values
  import opened Reads
  import opened Meaning
  import opened ValueLaws
  import opened MenuTree
  import opened MenuLinks
  import opened Propagate

  // Values of expressions in a state

  /** V gives expressions values, as expr_value() does in some state. */
  ghost predicate ValuesOk(D: Defs, V: Expr -> Tri) {
    && V(N(D)) == 0 && V(Y(D)) == 2
    && (forall a, b {:trigger V(And(a, b))} :: V(And(a, b)) == Min(V(a), V(b)))
    && (forall a, b {:trigger V(Or(a, b))} :: V(Or(a, b)) == Max(V(a), V(b)))
  }

  lemma MakeAndValue(D: Defs, V: Expr -> Tri, a: Expr, b: Expr)
    requires ValuesOk(D, V)
    ensures V(MakeAnd(D, a, b)) == Min(V(a), V(b))
  {
  }

  lemma MakeOrValue(D: Defs, V: Expr -> Tri, a: Expr, b: Expr)
    requires ValuesOk(D, V)
    ensures V(MakeOr(D, a, b)) == Max(V(a), V(b))
  {
  }

  /** expr_value() without short circuits; what cannot be evaluated counts as n. */
  function ValueIn(K: Config, U: Users, m: Cache, e: Expr): Tri {
    match e
    case And(l, r) => Min(ValueIn(K, U, m, l), ValueIn(K, U, m, r))
    case Or(l, r) => Max(ValueIn(K, U, m, l), ValueIn(K, U, m, r))
    case Not(a) => var v: Tri := 2 - ValueIn(K, U, m, a); v
    case _ => if ExprOk(K, e) && Eval(K, U, m, e).Some? then Eval(K, U, m, e).value else 0
  }

  /** It is the value that expr_value() computes. */
  lemma {:induction false} ValueInIsEval(K: Config, U: Users, m: Cache, e: Expr)
    requires ExprOk(K, e) && Has(m, ExprReads(K, e))
    ensures Eval(K, U, m, e) == Some(ValueIn(K, U, m, e))
  {
    EvalTotal(K, U, m, e);
    match e
    case And(l, r) => ValueInIsEval(K, U, m, l); ValueInIsEval(K, U, m, r);
    case Or(l, r) => ValueInIsEval(K, U, m, l); ValueInIsEval(K, U, m, r);
    case Not(a) => ValueInIsEval(K, U, m, a);
    case _ =>
  }

  /** The values of all expressions in a state. */
  function ValuesIn(K: Config, U: Users, m: Cache): Expr -> Tri { e => ValueIn(K, U, m, e) }

  /** Every state of a configuration gives such values, and they are those of expr_value(). */
  lemma StatesGiveValues(K: Config, U: Users, m: Cache, D: Defs)
    requires ConfigOk(K) && Solves(K, U, m) && SymOk(K, D.n) && SymOk(K, D.y)
    requires IsNmy(K.syms[D.n]) && K.syms[D.n].name == "n" && IsNmy(K.syms[D.y]) && K.syms[D.y].name == "y"
    ensures ValuesOk(D, ValuesIn(K, U, m))
    ensures forall e :: ExprOk(K, e) ==> Eval(K, U, m, e) == Some(ValuesIn(K, U, m)(e))
  {
    SolutionKnows(K, U, m, TriOf(D.n));
    SolutionKnows(K, U, m, TriOf(D.y));
    forall e | ExprOk(K, e) ensures Eval(K, U, m, e) == Some(ValueIn(K, U, m, e)) {
      ExprReadsOk(K, e);
      forall j | j in ExprReads(K, e) ensures j in m && ValOk(j, m[j]) { SolutionKnows(K, U, m, j); }
      ValueInIsEval(K, U, m, e);
    }
  }

  // The tree as it is parsed

  /** Symbols have no children yet. */
  predicate Parsed(D: Defs, ms: seq<Menu>) {
    ms != [] ==>
      (D.kind(ms[0].node).SymNode? ==> ms[0].kids == []) && Parsed(D, ms[0].kids) && Parsed(D, ms[1..])
  }

  predicate HasPrompts(D: Defs, n: Node) { D.kind(n).SymNode? || D.kind(n).ChoiceNode? }

  // What each node ends up with

  /** P' has what propagation makes of P for the siblings ms and everything below them. */
  ghost predicate Propagated(
    D: Defs, P: map<Node, Props>, P': map<Node, Props>, ms: seq<Menu>, base: Expr, visibleIf: Expr)
  {
    ms != [] ==>
      var n := ms[0].node;
      && PropsOf(P', n) == Pushed(D, n, PropsOf(P, n), base, visibleIf)
      && Propagated(D, P, P', ms[0].kids, Base(D, n, PropsOf(P', n)), VisibleIf(D, n, PropsOf(P', n), visibleIf))
      && Propagated(D, P, P', ms[1..], base, visibleIf)
  }

  ghost predicate SameOn(P: map<Node, Props>, P': map<Node, Props>, nodes: set<Node>) {
    forall n :: n in nodes ==> PropsOf(P', n) == PropsOf(P, n)
  }

  lemma {:induction false} PropagatedSame(
    D: Defs, P: map<Node, Props>, P1: map<Node, Props>, P2: map<Node, Props>, P3: map<Node, Props>,
    ms: seq<Menu>, base: Expr, visibleIf: Expr)
    requires Propagated(D, P, P1, ms, base, visibleIf) && SameOn(P, P2, Nodes(ms)) && SameOn(P1, P3, Nodes(ms))
    ensures Propagated(D, P2, P3, ms, base, visibleIf)
    decreases ms
  {
    if ms == [] {
    } else {
      var n := ms[0].node;
      PropagatedSame(D, P, P1, P2, P3, ms[0].kids, Base(D, n, PropsOf(P1, n)), VisibleIf(D, n, PropsOf(P1, n), visibleIf));
      PropagatedSame(D, P, P1, P2, P3, ms[1..], base, visibleIf);
    }
  }

  /** The nodes of siblings, without those below them. */
  function Heads(ms: seq<Menu>): set<Node> { set k | 0 <= k < |ms| :: ms[k].node }

  lemma LastHead(ms: seq<Menu>)
    requires Unique(ms) && ms != []
    ensures var front, last := ms[..|ms| - 1], ms[|ms| - 1];
      Unique(front) && Heads(ms) == Heads(front) + {last.node} && last.node !in Heads(front)
  {
    var front, last := ms[..|ms| - 1], ms[|ms| - 1];
    assert ms == front + [last];
    UniqueAppend(front, [last]);
    HeadsInNodes(front);
    forall n | n in Heads(front) ensures n in Heads(ms) {
      var k :| 0 <= k < |front| && front[k].node == n;
      assert ms[k].node == n;
    }
    forall n | n in Heads(ms) ensures n in Heads(front) || n == last.node {
      var k :| 0 <= k < |ms| && ms[k].node == n;
      if k < |front| { assert front[k].node == n; }
    }
  }

  lemma {:induction false} PushedHeads(
    D: Defs, P: map<Node, Props>, ms: seq<Menu>, base: Expr, visibleIf: Expr, n: Node)
    requires Unique(ms)
    ensures PropsOf(PushAll(D, P, ms, base, visibleIf), n) ==
      if n in Heads(ms) then Pushed(D, n, PropsOf(P, n), base, visibleIf) else PropsOf(P, n)
    decreases |ms|
  {
    if ms == [] {
    } else {
      LastHead(ms);
      PushedHeads(D, P, ms[..|ms| - 1], base, visibleIf, n);
    }
  }

  lemma {:induction false} HeadsInNodes(ms: seq<Menu>)
    ensures Heads(ms) <= Nodes(ms)
  {
    if ms == [] {
    } else {
      HeadsInNodes(ms[1..]);
      forall n | n in Heads(ms) ensures n in Nodes(ms) {
        var k :| 0 <= k < |ms| && ms[k].node == n;
        if k > 0 { assert ms[1..][k - 1].node == n; }
      }
    }
  }

  function TreeNodes(m: Menu): set<Node> { {m.node} + Nodes(m.kids) }

  ghost predicate UniqueTree(m: Menu) { m.node !in Nodes(m.kids) && Unique(m.kids) }

  lemma {:induction false} UniqueAt(ms: seq<Menu>, i: nat)
    requires Unique(ms) && i < |ms|
    ensures UniqueTree(ms[i]) && TreeNodes(ms[i]) <= Nodes(ms)
  {
    if i == 0 {
    } else {
      UniqueAt(ms[1..], i - 1);
    }
  }

  lemma {:induction false} ApartAt(ms: seq<Menu>, i: nat, j: nat)
    requires Unique(ms) && i < j < |ms|
    ensures TreeNodes(ms[i]) !! TreeNodes(ms[j])
  {
    if i > 0 {
      ApartAt(ms[1..], i - 1, j - 1);
    } else {
      UniqueAt(ms[1..], j - 1);
    }
  }

  lemma ChildrenApart(m: Menu, i: nat, j: nat)
    requires UniqueTree(m) && i < |m.kids| && j < |m.kids| && i != j
    ensures TreeNodes(m.kids[i]) !! TreeNodes(m.kids[j]) && TreeNodes(m.kids[i]) <= Nodes(m.kids)
    ensures UniqueTree(m.kids[i])
  {
    UniqueAt(m.kids, i);
    if i < j { ApartAt(m.kids, i, j); } else { ApartAt(m.kids, j, i); }
  }

  lemma {:induction false} FinalizedKeeps(D: Defs, S: State, m: Menu, visibleIf: Expr, n: Node)
    requires UniqueTree(m) && n !in Nodes(m.kids)
    ensures PropsOf(Finalized(D, S, m, visibleIf).props, n) == PropsOf(S.props, n)
    decreases m, |m.kids| + 1
  {
    if !D.kind(m.node).SymNode? {
      var p := PropsOf(S.props, m.node);
      var vis := VisibleIf(D, m.node, p, visibleIf);
      var S1 := S.(props := PushAll(D, S.props, m.kids, Base(D, m.node, p), vis));
      HeadsInNodes(m.kids);
      PushedHeads(D, S.props, m.kids, Base(D, m.node, p), vis, n);
      forall i | 0 <= i < |m.kids| ensures n !in Nodes(m.kids[i].kids) { UniqueAt(m.kids, i); }
      FinalizedAllKeeps(D, S1, m, |m.kids|, vis, n);
    }
  }

  lemma {:induction false} FinalizedAllKeeps(D: Defs, S: State, m: Menu, k: nat, visibleIf: Expr, n: Node)
    requires UniqueTree(m) && k <= |m.kids| && forall i :: 0 <= i < k ==> n !in Nodes(m.kids[i].kids)
    ensures PropsOf(FinalizedAll(D, S, m, k, visibleIf).props, n) == PropsOf(S.props, n)
    decreases m, k
  {
    if k == 0 {
    } else {
      FinalizedAllKeeps(D, S, m, k - 1, visibleIf, n);
      UniqueAt(m.kids, k - 1);
      FinalizedKeeps(D, FinalizedAll(D, S, m, k - 1, visibleIf), m.kids[k - 1], visibleIf, n);
    }
  }

  /** The nodes of a child are only changed when it is its turn. */
  lemma ChildUntouched(D: Defs, S: State, m: Menu, k: nat, visibleIf: Expr)
    requires UniqueTree(m) && k < |m.kids|
    ensures SameOn(S.props, FinalizedAll(D, S, m, k, visibleIf).props, TreeNodes(m.kids[k]))
  {
    forall n | n in TreeNodes(m.kids[k])
      ensures PropsOf(FinalizedAll(D, S, m, k, visibleIf).props, n) == PropsOf(S.props, n)
    {
      forall i | 0 <= i < k ensures n !in Nodes(m.kids[i].kids) { ChildrenApart(m, i, k); }
      FinalizedAllKeeps(D, S, m, k, visibleIf, n);
    }
  }

  lemma OthersUntouched(D: Defs, S: State, m: Menu, k: nat, i: nat, visibleIf: Expr)
    requires UniqueTree(m) && i < k < |m.kids|
    ensures SameOn(S.props, Finalized(D, S, m.kids[k], visibleIf).props, TreeNodes(m.kids[i]))
  {
    ChildrenApart(m, i, k);
    ChildrenApart(m, k, i);
    forall n | n in TreeNodes(m.kids[i])
      ensures PropsOf(Finalized(D, S, m.kids[k], visibleIf).props, n) == PropsOf(S.props, n)
    {
      FinalizedKeeps(D, S, m.kids[k], visibleIf, n);
    }
  }

  lemma {:induction false} FromParts(
    D: Defs, P: map<Node, Props>, P': map<Node, Props>, ms: seq<Menu>, base: Expr, visibleIf: Expr)
    requires forall i :: 0 <= i < |ms| ==>
      var n := ms[i].node;
      && PropsOf(P', n) == Pushed(D, n, PropsOf(P, n), base, visibleIf)
      && Propagated(D, P, P', ms[i].kids, Base(D, n, PropsOf(P', n)), VisibleIf(D, n, PropsOf(P', n), visibleIf))
    ensures Propagated(D, P, P', ms, base, visibleIf)
    decreases |ms|
  {
    if ms == [] {
    } else {
      FromParts(D, P, P', ms[1..], base, visibleIf);
    }
  }

  /** Finalising a node propagates its conditions to everything below it. */
  lemma {:induction false} FinalizedPropagates(D: Defs, S: State, m: Menu, visibleIf: Expr)
    requires UniqueTree(m) && (D.kind(m.node).SymNode? ==> m.kids == []) && Parsed(D, m.kids)
    ensures var p := PropsOf(S.props, m.node);
      Propagated(D, S.props, Finalized(D, S, m, visibleIf).props, m.kids, Base(D, m.node, p), VisibleIf(D, m.node, p, visibleIf))
    decreases m, |m.kids| + 2
  {
    if !D.kind(m.node).SymNode? {
      var p := PropsOf(S.props, m.node);
      var base, vis := Base(D, m.node, p), VisibleIf(D, m.node, p, visibleIf);
      var S1 := S.(props := PushAll(D, S.props, m.kids, base, vis));
      var P' := FinalizedAll(D, S1, m, |m.kids|, vis).props;
      forall i | 0 <= i < |m.kids|
        ensures var n := m.kids[i].node;
          && PropsOf(P', n) == Pushed(D, n, PropsOf(S.props, n), base, vis)
          && Propagated(D, S.props, P', m.kids[i].kids, Base(D, n, PropsOf(P', n)), VisibleIf(D, n, PropsOf(P', n), vis))
      {
        ChildPropagated(D, S, S1, m, i, base, vis);
      }
      FromParts(D, S.props, P', m.kids, base, vis);
    }
  }

  lemma HeadIn(ms: seq<Menu>, i: nat)
    requires i < |ms|
    ensures ms[i].node in Heads(ms)
  {
  }

  lemma NotHead(m: Menu, i: nat, n: Node)
    requires UniqueTree(m) && i < |m.kids| && n in Nodes(m.kids[i].kids)
    ensures n !in Heads(m.kids)
  {
    if n in Heads(m.kids) {
      var j :| 0 <= j < |m.kids| && m.kids[j].node == n;
      UniqueAt(m.kids, i);
      if i != j { ChildrenApart(m, i, j); }
    }
  }

  /** One child of a finalised node, and what is below it. */
  lemma ChildPropagated(D: Defs, S: State, S1: State, m: Menu, i: nat, base: Expr, vis: Expr)
    requires UniqueTree(m) && Parsed(D, m.kids) && i < |m.kids|
    requires S1 == S.(props := PushAll(D, S.props, m.kids, base, vis))
    ensures var P', n := FinalizedAll(D, S1, m, |m.kids|, vis).props, m.kids[i].node;
      && PropsOf(P', n) == Pushed(D, n, PropsOf(S.props, n), base, vis)
      && Propagated(D, S.props, P', m.kids[i].kids, Base(D, n, PropsOf(P', n)), VisibleIf(D, n, PropsOf(P', n), vis))
    decreases m, |m.kids| + 1
  {
    var n, kids := m.kids[i].node, m.kids[i].kids;
    var P' := FinalizedAll(D, S1, m, |m.kids|, vis).props;
    HeadIn(m.kids, i);
    PushedHeads(D, S.props, m.kids, base, vis, n);
    UniqueAt(m.kids, i);
    forall j | 0 <= j < |m.kids| ensures n !in Nodes(m.kids[j].kids) {
      if i != j { ChildrenApart(m, i, j); }
    }
    FinalizedAllKeeps(D, S1, m, |m.kids|, vis, n);
    AllParts(D, S1, m, |m.kids|, i, vis);
    forall x | x in Nodes(kids) ensures PropsOf(S1.props, x) == PropsOf(S.props, x) {
      NotHead(m, i, x);
      PushedHeads(D, S.props, m.kids, base, vis, x);
    }
    PropagatedSame(D, S1.props, P', S.props, P', kids, Base(D, n, PropsOf(P', n)), VisibleIf(D, n, PropsOf(P', n), vis));
  }

  lemma {:induction false} ParsedAt(D: Defs, ms: seq<Menu>, i: nat)
    requires Parsed(D, ms) && i < |ms|
    ensures (D.kind(ms[i].node).SymNode? ==> ms[i].kids == []) && Parsed(D, ms[i].kids)
  {
    if i == 0 {
    } else {
      ParsedAt(D, ms[1..], i - 1);
    }
  }

  lemma {:induction false} AllParts(D: Defs, S: State, m: Menu, k: nat, i: nat, vis: Expr)
    requires UniqueTree(m) && Parsed(D, m.kids) && i < k <= |m.kids|
    ensures var n, p := m.kids[i].node, PropsOf(S.props, m.kids[i].node);
      Propagated(D, S.props, FinalizedAll(D, S, m, k, vis).props, m.kids[i].kids, Base(D, n, p), VisibleIf(D, n, p, vis))
    decreases m, k
  {
    var n, p, kids := m.kids[i].node, PropsOf(S.props, m.kids[i].node), m.kids[i].kids;
    hide Finalized, FinalizedAll, Propagated, UniqueTree, Parsed, Base, VisibleIf, PropsOf;
    if i < k - 1 {
      var before, after := FinalizedAll(D, S, m, k - 1, vis), FinalizedAll(D, S, m, k, vis);
      AllParts(D, S, m, k - 1, i, vis);
      OthersUntouched(D, before, m, k - 1, i, vis);
      PropagatedSame(D, S.props, before.props, S.props, after.props, kids, Base(D, n, p), VisibleIf(D, n, p, vis));
    } else {
      LastPart(D, S, m, i, vis);
    }
  }

  /** The child that was just finalised. */
  lemma LastPart(D: Defs, S: State, m: Menu, i: nat, vis: Expr)
    requires UniqueTree(m) && Parsed(D, m.kids) && i < |m.kids|
    ensures var n, p := m.kids[i].node, PropsOf(S.props, m.kids[i].node);
      Propagated(D, S.props, FinalizedAll(D, S, m, i + 1, vis).props, m.kids[i].kids, Base(D, n, p), VisibleIf(D, n, p, vis))
    decreases m, 0
  {
    var n, p, kids := m.kids[i].node, PropsOf(S.props, m.kids[i].node), m.kids[i].kids;
    var before, after := FinalizedAll(D, S, m, i, vis), FinalizedAll(D, S, m, i + 1, vis);
    UniqueAt(m.kids, i);
    ParsedAt(D, m.kids, i);
    FinalizedPropagates(D, before, m.kids[i], vis);
    hide Finalized, Propagated, Unique, Base, VisibleIf;
    ChildUntouched(D, S, m, i, vis);
    PropagatedSame(D, before.props, after.props, S.props, after.props, kids, Base(D, n, p), VisibleIf(D, n, p, vis));
  }

  // Main results: conditions

  ghost predicate DefaultsMean(V: Expr -> Tri, ds: seq<Default>, ds': seq<Default>, dep: Tri) {
    |ds'| == |ds| && forall i :: 0 <= i < |ds| ==>
      ds'[i].value == ds[i].value && V(ds'[i].cond) == Min(V(ds[i].cond), dep)
  }

  ghost predicate RangesMean(V: Expr -> Tri, rs: seq<Range>, rs': seq<Range>, dep: Tri) {
    |rs'| == |rs| && forall i :: 0 <= i < |rs| ==>
      rs'[i].low == rs[i].low && rs'[i].high == rs[i].high && V(rs'[i].cond) == Min(V(rs[i].cond), dep)
  }

  ghost predicate PicksMean(V: Expr -> Tri, ps: seq<Pick>, ps': seq<Pick>, dep: Tri) {
    |ps'| == |ps| && forall i :: 0 <= i < |ps| ==>
      ps'[i].sym == ps[i].sym && V(ps'[i].cond) == Min(V(ps[i].cond), dep)
  }

  ghost predicate TargetsMean(V: Expr -> Tri, ts: seq<Target>, ts': seq<Target>, dep: Tri) {
    |ts'| == |ts| && forall i :: 0 <= i < |ts| ==>
      ts'[i].sym == ts[i].sym && V(ts'[i].cond) == Min(V(ts[i].cond), dep)
  }

  /**
   * In values: below a parent whose dependencies have the value `dep` and whose `visible if`
   * conditions have the value `vis`, the dependencies of a node have the least of `dep` and
   * their own value; a prompt has the least of that, of its own value and, for symbols and
   * choices, of `vis`; and so on for defaults, ranges, selects and implies. Below a choice,
   * it is the mode of the choice that counts.
   */
  ghost predicate Mean(
    D: Defs, V: Expr -> Tri, P: map<Node, Props>, P': map<Node, Props>, ms: seq<Menu>, dep: Tri, vis: Tri)
  {
    ms != [] ==>
      var n := ms[0].node;
      var p, p' := PropsOf(P, n), PropsOf(P', n);
      var own := Min(V(p.dep), dep);
      && V(p'.dep) == own && NodeMeans(D, V, n, p, p', own, vis)
      && Mean(D, V, P, P', ms[0].kids,
              if D.kind(n).ChoiceNode? then V(Leaf(Cho(D.kind(n).c))) else own,
              if D.kind(n).MenuNode? then Min(vis, V(p.visibility)) else vis)
      && Mean(D, V, P, P', ms[1..], dep, vis)
  }

  ghost predicate NodeMeans(D: Defs, V: Expr -> Tri, n: Node, p: Props, p': Props, dep: Tri, vis: Tri) {
    && (p'.prompt.Some? <==> p.prompt.Some?)
    && (p.prompt.Some? ==>
          V(p'.prompt.value) == Min(V(p.prompt.value), if HasPrompts(D, n) then Min(vis, dep) else dep))
    && (HasPrompts(D, n) ==>
          DefaultsMean(V, p.defaults, p'.defaults, dep) && RangesMean(V, p.ranges, p'.ranges, dep) &&
          PicksMean(V, p.picks, p'.picks, dep) && TargetsMean(V, p.selects, p'.selects, dep) &&
          TargetsMean(V, p.implies, p'.implies, dep))
  }

  lemma WithDefaultsMeans(D: Defs, V: Expr -> Tri, xs: seq<Default>, dep: Expr)
    requires ValuesOk(D, V)
    ensures DefaultsMean(V, xs, WithDefaults(D, xs, dep), V(dep))
  {
    forall i | 0 <= i < |xs| ensures V(MakeAnd(D, xs[i].cond, dep)) == Min(V(xs[i].cond), V(dep)) {
      MakeAndValue(D, V, xs[i].cond, dep);
    }
  }

  lemma WithRangesMeans(D: Defs, V: Expr -> Tri, xs: seq<Range>, dep: Expr)
    requires ValuesOk(D, V)
    ensures RangesMean(V, xs, WithRanges(D, xs, dep), V(dep))
  {
    forall i | 0 <= i < |xs| ensures V(MakeAnd(D, xs[i].cond, dep)) == Min(V(xs[i].cond), V(dep)) {
      MakeAndValue(D, V, xs[i].cond, dep);
    }
  }

  lemma WithPicksMeans(D: Defs, V: Expr -> Tri, xs: seq<Pick>, dep: Expr)
    requires ValuesOk(D, V)
    ensures PicksMean(V, xs, WithPicks(D, xs, dep), V(dep))
  {
    forall i | 0 <= i < |xs| ensures V(MakeAnd(D, xs[i].cond, dep)) == Min(V(xs[i].cond), V(dep)) {
      MakeAndValue(D, V, xs[i].cond, dep);
    }
  }

  lemma WithTargetsMeans(D: Defs, V: Expr -> Tri, xs: seq<Target>, dep: Expr)
    requires ValuesOk(D, V)
    ensures TargetsMean(V, xs, WithTargets(D, xs, dep), V(dep))
  {
    forall i | 0 <= i < |xs| ensures V(MakeAnd(D, xs[i].cond, dep)) == Min(V(xs[i].cond), V(dep)) {
      MakeAndValue(D, V, xs[i].cond, dep);
    }
  }

  lemma PushedMeans(D: Defs, V: Expr -> Tri, n: Node, p: Props, base: Expr, visibleIf: Expr)
    requires ValuesOk(D, V)
    ensures var p' := Pushed(D, n, p, base, visibleIf);
      V(p'.dep) == Min(V(p.dep), V(base)) && NodeMeans(D, V, n, p, p', Min(V(p.dep), V(base)), V(visibleIf)) &&
      p'.visibility == p.visibility
  {
    hide MakeAnd, ValuesOk, WithDefaults, WithRanges, WithPicks, WithTargets,
         DefaultsMean, RangesMean, PicksMean, TargetsMean;
    var dep := MakeAnd(D, p.dep, base);
    MakeAndValue(D, V, p.dep, base);
    MakeAndValue(D, V, visibleIf, dep);
    if p.prompt.Some? {
      MakeAndValue(D, V, p.prompt.value, MakeAnd(D, visibleIf, dep));
      MakeAndValue(D, V, p.prompt.value, dep);
    }
    WithDefaultsMeans(D, V, p.defaults, dep);
    WithRangesMeans(D, V, p.ranges, dep);
    WithPicksMeans(D, V, p.picks, dep);
    WithTargetsMeans(D, V, p.selects, dep);
    WithTargetsMeans(D, V, p.implies, dep);
  }

  lemma {:induction false} PropagatedMeans(
    D: Defs, V: Expr -> Tri, P: map<Node, Props>, P': map<Node, Props>, ms: seq<Menu>, base: Expr, visibleIf: Expr)
    requires ValuesOk(D, V) && Propagated(D, P, P', ms, base, visibleIf)
    ensures Mean(D, V, P, P', ms, V(base), V(visibleIf))
    decreases ms
  {
    if ms == [] {
    } else {
      var n := ms[0].node;
      var p, p' := PropsOf(P, n), PropsOf(P', n);
      PushedMeans(D, V, n, p, base, visibleIf);
      MakeAndValue(D, V, visibleIf, p'.visibility);
      PropagatedMeans(D, V, P, P', ms[0].kids, Base(D, n, p'), VisibleIf(D, n, p', visibleIf));
      PropagatedMeans(D, V, P, P', ms[1..], base, visibleIf);
    }
  }

  /** Dependency propagation preserves meaning, whatever _make_and() simplifies. */
  lemma ConditionsMean(D: Defs, V: Expr -> Tri, S: State, top: Menu)
    requires ValuesOk(D, V) && UniqueTree(top) && Parsed(D, top.kids) && D.kind(top.node).MenuNode?
    ensures var p := PropsOf(S.props, top.node);
      Mean(D, V, S.props, Finalized(D, S, top, Y(D)).props, top.kids, V(p.dep), V(p.visibility))
  {
    var p := PropsOf(S.props, top.node);
    FinalizedPropagates(D, S, top, Y(D));
    PropagatedMeans(D, V, S.props, Finalized(D, S, top, Y(D)).props, top.kids, p.dep, MakeAnd(D, Y(D), p.visibility));
  }

  /** In every state of a configuration, with the values that expr_value() computes. */
  lemma ConditionsInStates(K: Config, U: Users, m: Cache, D: Defs, S: State, top: Menu)
    requires ConfigOk(K) && Solves(K, U, m) && SymOk(K, D.n) && SymOk(K, D.y)
    requires IsNmy(K.syms[D.n]) && K.syms[D.n].name == "n" && IsNmy(K.syms[D.y]) && K.syms[D.y].name == "y"
    requires UniqueTree(top) && Parsed(D, top.kids) && D.kind(top.node).MenuNode?
    ensures
      var V, p := ValuesIn(K, U, m), PropsOf(S.props, top.node);
      && Mean(D, V, S.props, Finalized(D, S, top, Y(D)).props, top.kids, V(p.dep), V(p.visibility))
      && forall e :: ExprOk(K, e) ==> Eval(K, U, m, e) == Some(V(e))
  {
    StatesGiveValues(K, U, m, D);
    hide ConfigOk, Solves, ValuesOk, Finalized, Mean;
    ConditionsMean(D, ValuesIn(K, U, m), S, top);
  }

  // Main results: dependencies collected from all nodes

  /** The greatest of the dependencies of the nodes of symbol s. */
  function DepMax(D: Defs, V: Expr -> Tri, P: map<Node, Props>, nodes: seq<Node>, s: SymId): Tri {
    if nodes == [] then 0
    else
      var n := nodes[|nodes| - 1];
      Max(DepMax(D, V, P, nodes[..|nodes| - 1], s), if D.kind(n) == SymNode(s) then V(PropsOf(P, n).dep) else 0)
  }

  /** The greatest value that the selects in ts give symbol t, when s makes them. */
  function TargetMax(V: Expr -> Tri, s: SymId, ts: seq<Target>, t: SymId): Tri {
    if ts == [] then 0
    else
      var last := ts[|ts| - 1];
      Max(TargetMax(V, s, ts[..|ts| - 1], t), if last.sym == t then Min(V(Leaf(Sym(s))), V(last.cond)) else 0)
  }

  /** The greatest value that any node selects (or implies) symbol t to. */
  function SelectMax(D: Defs, V: Expr -> Tri, P: map<Node, Props>, nodes: seq<Node>, t: SymId, implies: bool): Tri {
    if nodes == [] then 0
    else
      var n := nodes[|nodes| - 1];
      var p := PropsOf(P, n);
      Max(SelectMax(D, V, P, nodes[..|nodes| - 1], t, implies),
          if D.kind(n).SymNode? then TargetMax(V, D.kind(n).s, if implies then p.implies else p.selects, t) else 0)
  }

  lemma {:induction false} AddTargetsValue(D: Defs, V: Expr -> Tri, deps: map<SymId, Expr>, s: SymId, ts: seq<Target>, t: SymId)
    requires ValuesOk(D, V)
    ensures V(Get(AddTargets(D, deps, s, ts), t, D)) == Max(V(Get(deps, t, D)), TargetMax(V, s, ts, t))
    decreases |ts|
  {
    if ts == [] {
    } else {
      var before := AddTargets(D, deps, s, ts[..|ts| - 1]);
      var last := ts[|ts| - 1];
      AddTargetsValue(D, V, deps, s, ts[..|ts| - 1], t);
      MakeAndValue(D, V, Leaf(Sym(s)), last.cond);
      MakeOrValue(D, V, Get(before, last.sym, D), MakeAnd(D, Leaf(Sym(s)), last.cond));
    }
  }

  lemma {:induction false} DepMaxAppend(D: Defs, V: Expr -> Tri, P: map<Node, Props>, a: seq<Node>, b: seq<Node>, s: SymId)
    ensures DepMax(D, V, P, a + b, s) == Max(DepMax(D, V, P, a, s), DepMax(D, V, P, b, s))
    decreases |b|
  {
    if b == [] {
      assert a + b == a;
    } else {
      assert (a + b)[..|a + b| - 1] == a + b[..|b| - 1];
      DepMaxAppend(D, V, P, a, b[..|b| - 1], s);
    }
  }

  lemma {:induction false} SelectMaxAppend(
    D: Defs, V: Expr -> Tri, P: map<Node, Props>, a: seq<Node>, b: seq<Node>, t: SymId, implies: bool)
    ensures SelectMax(D, V, P, a + b, t, implies) == Max(SelectMax(D, V, P, a, t, implies), SelectMax(D, V, P, b, t, implies))
    decreases |b|
  {
    if b == [] {
      assert a + b == a;
    } else {
      assert (a + b)[..|a + b| - 1] == a + b[..|b| - 1];
      SelectMaxAppend(D, V, P, a, b[..|b| - 1], t, implies);
    }
  }

  lemma {:induction false} SameMax(
    D: Defs, V: Expr -> Tri, P: map<Node, Props>, P': map<Node, Props>, nodes: seq<Node>, t: SymId)
    requires forall n :: n in nodes ==> PropsOf(P', n) == PropsOf(P, n)
    ensures DepMax(D, V, P', nodes, t) == DepMax(D, V, P, nodes, t)
    ensures SelectMax(D, V, P', nodes, t, false) == SelectMax(D, V, P, nodes, t, false)
    ensures SelectMax(D, V, P', nodes, t, true) == SelectMax(D, V, P, nodes, t, true)
    decreases |nodes|
  {
    if nodes == [] {
    } else {
      assert nodes[|nodes| - 1] in nodes;
      SameMax(D, V, P, P', nodes[..|nodes| - 1], t);
    }
  }

  /** What the symbol columns of S' have more than those of S: the contributions of the nodes. */
  ghost predicate Collected(D: Defs, V: Expr -> Tri, S: State, S': State, nodes: seq<Node>, t: SymId) {
    && V(Get(S'.directDep, t, D)) == Max(V(Get(S.directDep, t, D)), DepMax(D, V, S'.props, nodes, t))
    && V(Get(S'.revDep, t, D)) == Max(V(Get(S.revDep, t, D)), SelectMax(D, V, S'.props, nodes, t, false))
    && V(Get(S'.weakRevDep, t, D)) == Max(V(Get(S.weakRevDep, t, D)), SelectMax(D, V, S'.props, nodes, t, true))
  }

  lemma CollectedThen(D: Defs, V: Expr -> Tri, S: State, S': State, S'': State, a: seq<Node>, b: seq<Node>, t: SymId)
    requires Collected(D, V, S, S', a, t) && Collected(D, V, S', S'', b, t)
    requires forall n :: n in a ==> PropsOf(S''.props, n) == PropsOf(S'.props, n)
    ensures Collected(D, V, S, S'', a + b, t)
  {
    SameMax(D, V, S'.props, S''.props, a, t);
    DepMaxAppend(D, V, S''.props, a, b, t);
    SelectMaxAppend(D, V, S''.props, a, b, t, false);
    SelectMaxAppend(D, V, S''.props, a, b, t, true);
  }

  lemma OneNode(D: Defs, V: Expr -> Tri, P: map<Node, Props>, n: Node, s: SymId, t: SymId)
    requires D.kind(n) == SymNode(s)
    ensures DepMax(D, V, P, [n], t) == if s == t then V(PropsOf(P, n).dep) else 0
    ensures SelectMax(D, V, P, [n], t, false) == TargetMax(V, s, PropsOf(P, n).selects, t)
    ensures SelectMax(D, V, P, [n], t, true) == TargetMax(V, s, PropsOf(P, n).implies, t)
  {
    assert [n][..0] == [];
  }

  lemma SymCollected(D: Defs, V: Expr -> Tri, S: State, n: Node, s: SymId, t: SymId)
    requires ValuesOk(D, V) && D.kind(n) == SymNode(s)
    ensures Collected(D, V, S, AddProps(D, S, s, PropsOf(S.props, n)), [n], t)
  {
    hide ValuesOk, MakeOr, AddTargets, TargetMax, DepMax, SelectMax;
    var p := PropsOf(S.props, n);
    MakeOrValue(D, V, Get(S.directDep, s, D), p.dep);
    AddTargetsValue(D, V, S.revDep, s, p.selects, t);
    AddTargetsValue(D, V, S.weakRevDep, s, p.implies, t);
    OneNode(D, V, S.props, n, s, t);
  }

  lemma NothingCollected(D: Defs, V: Expr -> Tri, S: State, S': State, n: Node, t: SymId)
    requires !D.kind(n).SymNode? && S'.directDep == S.directDep && S'.revDep == S.revDep && S'.weakRevDep == S.weakRevDep
    ensures Collected(D, V, S, S', [n], t) && Collected(D, V, S, S', [], t)
  {
    assert [n][..0] == [];
  }

  lemma {:induction false} FinalizedCollects(D: Defs, V: Expr -> Tri, S: State, m: Menu, visibleIf: Expr, t: SymId)
    requires ValuesOk(D, V) && UniqueTree(m) && (D.kind(m.node).SymNode? ==> m.kids == []) && Parsed(D, m.kids)
    ensures Collected(D, V, S, Finalized(D, S, m, visibleIf), [m.node] + Preorder(m.kids), t)
    decreases m, |m.kids| + 1, 0
  {
    if D.kind(m.node).SymNode? {
      SymCollected(D, V, S, m.node, D.kind(m.node).s, t);
      assert [m.node] + Preorder(m.kids) == [m.node];
    } else {
      var p := PropsOf(S.props, m.node);
      var vis := VisibleIf(D, m.node, p, visibleIf);
      var S1 := S.(props := PushAll(D, S.props, m.kids, Base(D, m.node, p), vis));
      var S2 := FinalizedAll(D, S1, m, |m.kids|, vis);
      var S3 := Finalized(D, S, m, visibleIf);
      assert S3.props == S2.props && S3.directDep == S2.directDep && S3.revDep == S2.revDep && S3.weakRevDep == S2.weakRevDep;
      KidsCollect(D, V, S1, m, vis, t);
      hide Finalized, FinalizedAll, PushAll, ValuesOk, Unique, Preorder;
      NothingCollected(D, V, S, S1, m.node, t);
      CollectedThen(D, V, S, S1, S2, [m.node], Preorder(m.kids), t);
    }
  }

  lemma KidsCollect(D: Defs, V: Expr -> Tri, S: State, m: Menu, vis: Expr, t: SymId)
    requires ValuesOk(D, V) && UniqueTree(m) && Parsed(D, m.kids)
    ensures var S' := FinalizedAll(D, S, m, |m.kids|, vis);
      Collected(D, V, S, S', Preorder(m.kids), t) && PropsOf(S'.props, m.node) == PropsOf(S.props, m.node)
    decreases m, |m.kids|, 1
  {
    FinalizedAllCollects(D, V, S, m, |m.kids|, vis, t);
    assert m.kids[..|m.kids|] == m.kids;
    forall i | 0 <= i < |m.kids| ensures m.node !in Nodes(m.kids[i].kids) { UniqueAt(m.kids, i); }
    FinalizedAllKeeps(D, S, m, |m.kids|, vis, m.node);
  }

  lemma {:induction false} FinalizedAllCollects(D: Defs, V: Expr -> Tri, S: State, m: Menu, k: nat, vis: Expr, t: SymId)
    requires ValuesOk(D, V) && UniqueTree(m) && Parsed(D, m.kids) && k <= |m.kids|
    ensures Collected(D, V, S, FinalizedAll(D, S, m, k, vis), Preorder(m.kids[..k]), t)
    decreases m, k, 0
  {
    if k == 0 {
    } else {
      var before, kid := FinalizedAll(D, S, m, k - 1, vis), m.kids[k - 1];
      FinalizedAllCollects(D, V, S, m, k - 1, vis, t);
      UniqueAt(m.kids, k - 1);
      ParsedAt(D, m.kids, k - 1);
      FinalizedCollects(D, V, before, kid, vis, t);
      forall n | n in Preorder(m.kids[..k - 1])
        ensures PropsOf(Finalized(D, before, kid, vis).props, n) == PropsOf(before.props, n)
      {
        EarlierNode(m, k - 1, n);
        FinalizedKeeps(D, before, kid, vis, n);
      }
      CollectedThen(D, V, S, before, Finalized(D, before, kid, vis), Preorder(m.kids[..k - 1]),
                    [kid.node] + Preorder(kid.kids), t);
      PreorderSnoc(m.kids, k);
    }
  }

  lemma PreorderSnoc(ms: seq<Menu>, k: nat)
    requires 0 < k <= |ms|
    ensures Preorder(ms[..k]) == Preorder(ms[..k - 1]) + ([ms[k - 1].node] + Preorder(ms[k - 1].kids))
  {
    var last := [ms[k - 1]];
    assert ms[..k] == ms[..k - 1] + last;
    PreorderAppend(ms[..k - 1], last);
    assert last[1..] == [];
    assert Preorder(last) == [ms[k - 1].node] + Preorder(ms[k - 1].kids) + [];
  }

  lemma EarlierNode(m: Menu, k: nat, n: Node)
    requires UniqueTree(m) && k < |m.kids| && n in Preorder(m.kids[..k])
    ensures n !in Nodes(m.kids[k].kids)
  {
    PreorderNodes(m.kids[..k]);
    assert m.kids == m.kids[..k] + m.kids[k..];
    UniqueAppend(m.kids[..k], m.kids[k..]);
    assert m.kids[k..][0] == m.kids[k];
  }

  /**
   * The direct dependencies of a symbol have the greatest of the values of the dependencies
   * of its nodes; its reverse dependencies the greatest over all selects of it of the least
   * of the selecting symbol and the propagated condition; and so for implies.
   */
  lemma DependenciesMean(D: Defs, V: Expr -> Tri, props: map<Node, Props>, top: Menu, t: SymId)
    requires ValuesOk(D, V) && UniqueTree(top) && Parsed(D, top.kids) && D.kind(top.node).MenuNode?
    ensures
      var S := Finalized(D, State(props, map[], map[], map[], map[], map[], map[], map[]), top, Y(D));
      && V(Get(S.directDep, t, D)) == DepMax(D, V, S.props, Preorder(top.kids), t)
      && V(Get(S.revDep, t, D)) == SelectMax(D, V, S.props, Preorder(top.kids), t, false)
      && V(Get(S.weakRevDep, t, D)) == SelectMax(D, V, S.props, Preorder(top.kids), t, true)
  {
    var S0 := State(props, map[], map[], map[], map[], map[], map[], map[]);
    var S := Finalized(D, S0, top, Y(D));
    FinalizedCollects(D, V, S0, top, Y(D), t);
    DepMaxAppend(D, V, S.props, [top.node], Preorder(top.kids), t);
    SelectMaxAppend(D, V, S.props, [top.node], Preorder(top.kids), t, false);
    SelectMaxAppend(D, V, S.props, [top.node], Preorder(top.kids), t, true);
    assert [top.node][..0] == [];
  }

  /** In every state of a configuration, with the values that expr_value() computes. */
  lemma DependenciesInStates(K: Config, U: Users, m: Cache, D: Defs, props: map<Node, Props>, top: Menu, t: SymId)
    requires ConfigOk(K) && Solves(K, U, m) && SymOk(K, D.n) && SymOk(K, D.y)
    requires IsNmy(K.syms[D.n]) && K.syms[D.n].name == "n" && IsNmy(K.syms[D.y]) && K.syms[D.y].name == "y"
    requires UniqueTree(top) && Parsed(D, top.kids) && D.kind(top.node).MenuNode?
    requires
      var S := Finalized(D, State(props, map[], map[], map[], map[], map[], map[], map[]), top, Y(D));
      ExprOk(K, Get(S.directDep, t, D)) && ExprOk(K, Get(S.revDep, t, D)) && ExprOk(K, Get(S.weakRevDep, t, D))
    ensures
      var S := Finalized(D, State(props, map[], map[], map[], map[], map[], map[], map[]), top, Y(D));
      var V, nodes := ValuesIn(K, U, m), Preorder(top.kids);
      && Eval(K, U, m, Get(S.directDep, t, D)) == Some(DepMax(D, V, S.props, nodes, t))
      && Eval(K, U, m, Get(S.revDep, t, D)) == Some(SelectMax(D, V, S.props, nodes, t, false))
      && Eval(K, U, m, Get(S.weakRevDep, t, D)) == Some(SelectMax(D, V, S.props, nodes, t, true))
  {
    StatesGiveValues(K, U, m, D);
    hide ConfigOk, Solves, ValuesOk, Finalized, DepMax, SelectMax, Get;
    DependenciesMean(D, ValuesIn(K, U, m), props, top, t);
  }

  // What the other parts rely on

  lemma {:induction false} MeanAt(
    D: Defs, V: Expr -> Tri, P: map<Node, Props>, P': map<Node, Props>, ms: seq<Menu>, dep: Tri, vis: Tri, n: Node)
    requires Mean(D, V, P, P', ms, dep, vis) && n in Nodes(ms) && HasPrompts(D, n)
    ensures PropsOf(P', n).prompt.Some? ==> V(PropsOf(P', n).prompt.value) <= V(PropsOf(P', n).dep)
    decreases ms
  {
    var first := ms[0].node;
    if n in Nodes(ms[0].kids) {
      MeanAt(D, V, P, P', ms[0].kids,
             if D.kind(first).ChoiceNode? then V(Leaf(Cho(D.kind(first).c))) else Min(V(PropsOf(P, first).dep), dep),
             if D.kind(first).MenuNode? then Min(vis, V(PropsOf(P, first).visibility)) else vis, n);
    } else if n in Nodes(ms[1..]) {
      MeanAt(D, V, P, P', ms[1..], dep, vis, n);
    }
  }

  lemma {:induction false} DepMaxBounds(D: Defs, V: Expr -> Tri, P: map<Node, Props>, nodes: seq<Node>, n: Node, s: SymId)
    requires n in nodes && D.kind(n) == SymNode(s)
    ensures V(PropsOf(P, n).dep) <= DepMax(D, V, P, nodes, s)
    decreases |nodes|
  {
    if nodes[|nodes| - 1] != n { DepMaxBounds(D, V, P, nodes[..|nodes| - 1], n, s); }
  }

  /** A prompt of a symbol is only visible as far as the direct dependencies of the symbol are met. */
  lemma PromptsNeedDependencies(D: Defs, V: Expr -> Tri, props: map<Node, Props>, top: Menu, n: Node, s: SymId)
    requires ValuesOk(D, V) && UniqueTree(top) && Parsed(D, top.kids) && D.kind(top.node).MenuNode?
    requires n in Nodes(top.kids) && D.kind(n) == SymNode(s)
    ensures
      var S := Finalized(D, State(props, map[], map[], map[], map[], map[], map[], map[]), top, Y(D));
      PropsOf(S.props, n).prompt.Some? ==> V(PropsOf(S.props, n).prompt.value) <= V(Get(S.directDep, s, D))
  {
    var S0 := State(props, map[], map[], map[], map[], map[], map[], map[]);
    var S := Finalized(D, S0, top, Y(D));
    var p := PropsOf(props, top.node);
    ConditionsMean(D, V, S0, top);
    DependenciesMean(D, V, props, top, s);
    hide Finalized, ValuesOk, Mean;
    MeanAt(D, V, props, S.props, top.kids, V(p.dep), V(p.visibility), n);
    PreorderNodes(top.kids);
    DepMaxBounds(D, V, S.props, Preorder(top.kids), n, s);
  }

  lemma UnderMakeAnd(K: Config, D: Defs, a: Expr, b: Expr, c: ChoiceId)
    requires SymOk(K, D.n) && IsNmy(K.syms[D.n]) && K.syms[D.n].name == "n"
    requires SymOk(K, D.y) && K.syms[D.y].name == "y"
    requires Under(K, a, Cho(c)) || Under(K, b, Cho(c))
    ensures Under(K, MakeAnd(D, a, b), Cho(c))
  {
  }

  /** The symbols and choices among ms, and those in `if` nodes among them, which end up among the siblings. */
  function Flat(D: Defs, ms: seq<Menu>): set<Node> {
    if ms == [] then {}
    else
      (if HasPrompts(D, ms[0].node) then {ms[0].node} else if D.kind(ms[0].node).IfNode? then Flat(D, ms[0].kids) else {}) +
      Flat(D, ms[1..])
  }

  /** The prompts of the symbols in a choice get the choice among their conditions. */
  lemma {:induction false} ChoicePromptsUnder(
    K: Config, D: Defs, P: map<Node, Props>, P': map<Node, Props>, ms: seq<Menu>, base: Expr, visibleIf: Expr,
    c: ChoiceId, n: Node)
    requires SymOk(K, D.n) && IsNmy(K.syms[D.n]) && K.syms[D.n].name == "n"
    requires SymOk(K, D.y) && K.syms[D.y].name == "y"
    requires Propagated(D, P, P', ms, base, visibleIf) && Under(K, base, Cho(c)) && n in Flat(D, ms)
    ensures Under(K, PropsOf(P', n).dep, Cho(c))
    ensures PropsOf(P', n).prompt.Some? ==> Under(K, PropsOf(P', n).prompt.value, Cho(c))
    decreases ms
  {
    var first := ms[0].node;
    var p := PropsOf(P, first);
    var dep := MakeAnd(D, p.dep, base);
    UnderMakeAnd(K, D, p.dep, base, c);
    if HasPrompts(D, first) && n == first {
      UnderMakeAnd(K, D, visibleIf, dep, c);
      if p.prompt.Some? { UnderMakeAnd(K, D, p.prompt.value, MakeAnd(D, visibleIf, dep), c); }
    } else if D.kind(first).IfNode? && n in Flat(D, ms[0].kids) {
      ChoicePromptsUnder(K, D, P, P', ms[0].kids, dep, visibleIf, c, n);
    } else {
      ChoicePromptsUnder(K, D, P, P', ms[1..], base, visibleIf, c, n);
    }
  }

  /** For the children of a choice the condition is the choice itself. */
  lemma ChoiceSymsUnder(K: Config, D: Defs, S: State, m: Menu, visibleIf: Expr, c: ChoiceId, n: Node)
    requires SymOk(K, D.n) && IsNmy(K.syms[D.n]) && K.syms[D.n].name == "n"
    requires SymOk(K, D.y) && K.syms[D.y].name == "y"
    requires UniqueTree(m) && Parsed(D, m.kids) && D.kind(m.node) == ChoiceNode(c) && n in Flat(D, m.kids)
    ensures var p' := PropsOf(Finalized(D, S, m, visibleIf).props, n);
      Under(K, p'.dep, Cho(c)) && (p'.prompt.Some? ==> Under(K, p'.prompt.value, Cho(c)))
  {
    FinalizedPropagates(D, S, m, visibleIf);
    ChoicePromptsUnder(K, D, S.props, Finalized(D, S, m, visibleIf).props, m.kids, Leaf(Cho(c)), visibleIf, c, n);
  }
}
