/**
 * What the configuration that is built from a finalized menu tree satisfies: the premises
 * about prompts, dependencies and choices that the other parts start from.
 */
module BuiltConfig {
  import opened Wrappers
  import opened Config
  import opened Values
  import opened Meaning
  import opened Deps
  import opened ValueLaws
  import opened MenuTree
  import opened MenuLinks
  import opened Propagate
  import opened PropagateLaws

  /** The prompts of the nodes of symbol s, in their order. */
  function PromptsOf(D: Defs, props: map<Node, Props>, nodes: seq<Node>, s: SymId): seq<Option<Expr>> {
    if nodes == [] then []
    else
      var n := nodes[|nodes| - 1];
      PromptsOf(D, props, nodes[..|nodes| - 1], s) + (if D.kind(n) == SymNode(s) then [PropsOf(props, n).prompt] else [])
  }

  function Final(D: Defs, props: map<Node, Props>, top: Menu): State {
    Finalized(D, State(props, map[], map[], map[], map[], map[], map[], map[]), top, Y(D))
  }

  /** m is one of the menus in ms, at any depth. */
  predicate InTree(m: Menu, ms: seq<Menu>) {
    ms != [] && (m == ms[0] || InTree(m, ms[0].kids) || InTree(m, ms[1..]))
  }

  /** Node n is one of the symbols of choice c in the tree. */
  ghost predicate MemberNode(D: Defs, top: Menu, c: ChoiceId, n: Node) {
    exists m :: InTree(m, top.kids) && D.kind(m.node) == ChoiceNode(c) && n in Flat(D, m.kids)
  }

  ghost predicate TreeOk(K: Config, D: Defs, top: Menu) {
    && UniqueTree(top) && Parsed(D, top.kids) && D.kind(top.node).MenuNode?
    && SymOk(K, D.n) && IsNmy(K.syms[D.n]) && K.syms[D.n].name == "n"
    && SymOk(K, D.y) && IsNmy(K.syms[D.y]) && K.syms[D.y].name == "y"
  }

  /** The symbols of K have the prompts and direct dependencies that finalisation leaves, and choices the symbols found in them. */
  ghost predicate BuiltFrom(K: Config, D: Defs, props: map<Node, Props>, top: Menu) {
    && TreeOk(K, D, top)
    && (forall s :: 0 <= s < |K.syms| && Defined(K.syms[s]) ==> SymBuilt(K, D, props, top, s))
  }

  ghost predicate SymBuilt(K: Config, D: Defs, props: map<Node, Props>, top: Menu, s: SymId)
    requires SymOk(K, s)
  {
    var S := Final(D, props, top);
    && K.syms[s].prompts == PromptsOf(D, S.props, Preorder(top.kids), s)
    && K.syms[s].directDep == Get(S.directDep, s, D)
    && (K.syms[s].choice.Some? ==>
          exists n :: n in Preorder(top.kids) && D.kind(n) == SymNode(s) && MemberNode(D, top, K.syms[s].choice.value, n))
  }

  lemma {:induction false} PromptHasNode(D: Defs, props: map<Node, Props>, nodes: seq<Node>, s: SymId, j: nat) returns (n: Node)
    requires j < |PromptsOf(D, props, nodes, s)|
    ensures n in nodes && D.kind(n) == SymNode(s) && PropsOf(props, n).prompt == PromptsOf(D, props, nodes, s)[j]
  {
    var front := PromptsOf(D, props, nodes[..|nodes| - 1], s);
    if j < |front| {
      n := PromptHasNode(D, props, nodes[..|nodes| - 1], s, j);
    } else {
      n := nodes[|nodes| - 1];
    }
  }

  lemma {:induction false} NodeHasPrompt(D: Defs, props: map<Node, Props>, nodes: seq<Node>, s: SymId, n: Node)
    requires n in nodes && D.kind(n) == SymNode(s)
    ensures PropsOf(props, n).prompt in PromptsOf(D, props, nodes, s)
  {
    if nodes[|nodes| - 1] == n {
    } else {
      NodeHasPrompt(D, props, nodes[..|nodes| - 1], s, n);
    }
  }

  // Prompts need the direct dependencies

  lemma {:induction false} SomePromptVisible(K: Config, U: Users, m: Cache, ps: seq<Option<Expr>>, n: nat) returns (j: nat)
    requires PromptsOk(K, ps) && n <= |ps| && PromptVis(K, U, m, ps, n).Some? && PromptVis(K, U, m, ps, n) != Some(0)
    ensures j < n && ps[j].Some? && Eval(K, U, m, ps[j].value).Some? && Eval(K, U, m, ps[j].value) != Some(0)
  {
    if PromptVis(K, U, m, ps, n - 1).Some? && PromptVis(K, U, m, ps, n - 1) != Some(0) {
      j := SomePromptVisible(K, U, m, ps, n - 1);
    } else {
      j := n - 1;
    }
  }

  lemma VisibleHasPrompt(K: Config, U: Users, m: Cache, s: SymId) returns (j: nat)
    requires ConfigOk(K) && Solves(K, U, m) && SymOk(K, s) && GetT(m, Vis(Sym(s))) != Some(0)
    ensures Defined(K.syms[s]) && j < |K.syms[s].prompts| && K.syms[s].prompts[j].Some?
    ensures ExprOk(K, K.syms[s].prompts[j].value) && Eval(K, U, m, K.syms[s].prompts[j].value) != Some(0)
  {
    assert SymDefOk(K, s);
    SolutionKnows(K, U, m, Vis(Sym(s)));
    hide ConfigOk, Solves, PromptVis;
    j := SomePromptVisible(K, U, m, K.syms[s].prompts, |K.syms[s].prompts|);
  }

  /** A visible symbol has its direct dependencies met. */
  lemma VisibleMeetsDependencies(K: Config, D: Defs, props: map<Node, Props>, top: Menu, U: Users, m: Cache, s: SymId)
    requires ConfigOk(K) && BuiltFrom(K, D, props, top) && Solves(K, U, m) && SymOk(K, s)
    requires GetT(m, Vis(Sym(s))) != Some(0)
    ensures SymDefOk(K, s) && Eval(K, U, m, K.syms[s].directDep) != Some(0)
  {
    assert SymDefOk(K, s);
    var j := VisibleHasPrompt(K, U, m, s);
    var S := Final(D, props, top);
    var n := PromptHasNode(D, S.props, Preorder(top.kids), s, j);
    PreorderNodes(top.kids);
    StatesGiveValues(K, U, m, D);
    assert SymBuilt(K, D, props, top, s);
    hide ConfigOk, Solves, ValuesOk, Finalized, PromptsOf, SymDefOk, Get;
    PromptsNeedDependencies(D, ValuesIn(K, U, m), props, top, n, s);
  }

  // Choices

  lemma {:induction false} PropagatedBelow(
    D: Defs, P: map<Node, Props>, P': map<Node, Props>, ms: seq<Menu>, base: Expr, vis: Expr, m: Menu) returns (vis': Expr)
    requires Propagated(D, P, P', ms, base, vis) && InTree(m, ms)
    ensures Propagated(D, P, P', m.kids, Base(D, m.node, PropsOf(P', m.node)), vis')
    decreases ms
  {
    var n := ms[0].node;
    if m == ms[0] {
      vis' := VisibleIf(D, n, PropsOf(P', n), vis);
    } else if InTree(m, ms[0].kids) {
      vis' := PropagatedBelow(D, P, P', ms[0].kids, Base(D, n, PropsOf(P', n)), VisibleIf(D, n, PropsOf(P', n), vis), m);
    } else {
      vis' := PropagatedBelow(D, P, P', ms[1..], base, vis, m);
    }
  }

  predicate Mentions(e: Expr, i: Item) {
    match e
    case Leaf(j) => j == i
    case And(l, r) => Mentions(l, i) || Mentions(r, i)
    case Or(l, r) => Mentions(l, i) || Mentions(r, i)
    case Not(a) => Mentions(a, i)
    case Compare(_, _, _) => false
  }

  lemma {:induction false} MentionsIsItem(K: Config, e: Expr, c: ChoiceId)
    requires ExprOk(K, e) && Mentions(e, Cho(c))
    ensures Cho(c) in ExprItems(K, e)
  {
    match e
    case Leaf(_) =>
    case And(l, r) => MentionsIsItem(K, if Mentions(l, Cho(c)) then l else r, c);
    case Or(l, r) => MentionsIsItem(K, if Mentions(l, Cho(c)) then l else r, c);
    case Not(a) => MentionsIsItem(K, a, c);
    case Compare(_, _, _) =>
  }

  predicate MentionsOrN(D: Defs, e: Expr, c: ChoiceId) { e == N(D) || Mentions(e, Cho(c)) }

  /** The prompts of the symbols in a choice mention the choice, or have become n. */
  lemma {:induction false} MemberPromptsMention(
    D: Defs, P: map<Node, Props>, P': map<Node, Props>, ms: seq<Menu>, base: Expr, visibleIf: Expr, c: ChoiceId, n: Node)
    requires Propagated(D, P, P', ms, base, visibleIf) && MentionsOrN(D, base, c) && n in Flat(D, ms) && D.n != D.y
    ensures PropsOf(P', n).prompt.Some? ==> MentionsOrN(D, PropsOf(P', n).prompt.value, c)
    decreases ms
  {
    var first := ms[0].node;
    var p := PropsOf(P, first);
    var dep := MakeAnd(D, p.dep, base);
    assert MentionsOrN(D, dep, c);
    if HasPrompts(D, first) && n == first {
      assert MentionsOrN(D, MakeAnd(D, visibleIf, dep), c);
    } else if D.kind(first).IfNode? && n in Flat(D, ms[0].kids) {
      MemberPromptsMention(D, P, P', ms[0].kids, dep, visibleIf, c, n);
    } else {
      MemberPromptsMention(D, P, P', ms[1..], base, visibleIf, c, n);
    }
  }

  /** The prompt of a node in a choice: under the choice, and it mentions it or has become n. */
  lemma MemberPrompt(K: Config, D: Defs, props: map<Node, Props>, top: Menu, c: ChoiceId, n: Node)
    requires TreeOk(K, D, top) && MemberNode(D, top, c, n)
    ensures
      var prompt := PropsOf(Final(D, props, top).props, n).prompt;
      prompt.Some? ==> Under(K, prompt.value, Cho(c)) && MentionsOrN(D, prompt.value, c)
  {
    var S0, P' := State(props, map[], map[], map[], map[], map[], map[], map[]), Final(D, props, top).props;
    var m :| InTree(m, top.kids) && D.kind(m.node) == ChoiceNode(c) && n in Flat(D, m.kids);
    FinalizedPropagates(D, S0, top, Y(D));
    var p := PropsOf(props, top.node);
    hide Finalized, Propagated, UniqueTree, Parsed;
    var vis' := PropagatedBelow(D, props, P', top.kids, p.dep, MakeAnd(D, Y(D), p.visibility), m);
    ChoicePromptsUnder(K, D, props, P', m.kids, Leaf(Cho(c)), vis', c, n);
    MemberPromptsMention(D, props, P', m.kids, Leaf(Cho(c)), vis', c, n);
  }

  /** A symbol whose nodes are all in its choice has all its prompts under the choice. */
  lemma PromptsAreUnder(K: Config, D: Defs, props: map<Node, Props>, top: Menu, s: SymId, c: ChoiceId, j: nat)
    requires BuiltFrom(K, D, props, top) && SymOk(K, s) && Defined(K.syms[s]) && j < |K.syms[s].prompts|
    requires forall n :: n in Preorder(top.kids) && D.kind(n) == SymNode(s) ==> MemberNode(D, top, c, n)
    ensures K.syms[s].prompts[j].Some? ==> Under(K, K.syms[s].prompts[j].value, Cho(c))
  {
    assert SymBuilt(K, D, props, top, s);
    var n := PromptHasNode(D, Final(D, props, top).props, Preorder(top.kids), s, j);
    MemberPrompt(K, D, props, top, c, n);
  }

  /** s has a prompt in its choice whose condition has not become n. */
  ghost predicate HasLivePrompt(K: Config, D: Defs, props: map<Node, Props>, top: Menu, s: SymId)
    requires SymOk(K, s) && K.syms[s].choice.Some?
  {
    exists n :: n in Preorder(top.kids) && D.kind(n) == SymNode(s) && MemberNode(D, top, K.syms[s].choice.value, n) &&
      var prompt := PropsOf(Final(D, props, top).props, n).prompt;
      prompt.Some? && prompt != Some(N(D))
  }

  /** If each choice symbol has such a prompt, each choice symbol depends on its choice. */
  lemma ChoicesAreLinked(K: Config, D: Defs, props: map<Node, Props>, top: Menu)
    requires ConfigOk(K) && BuiltFrom(K, D, props, top)
    requires forall s :: 0 <= s < |K.syms| && K.syms[s].choice.Some? ==> HasLivePrompt(K, D, props, top, s)
    ensures ChoicesLinked(K)
  {
    forall s | 0 <= s < |K.syms| && K.syms[s].choice.Some?
      ensures Cho(K.syms[s].choice.value) in DependsOn(K, Sym(s))
    {
      SymIsLinked(K, D, props, top, s);
    }
  }

  lemma SymIsLinked(K: Config, D: Defs, props: map<Node, Props>, top: Menu, s: SymId)
    requires ConfigOk(K) && BuiltFrom(K, D, props, top) && SymOk(K, s) && K.syms[s].choice.Some?
    requires HasLivePrompt(K, D, props, top, s)
    ensures Cho(K.syms[s].choice.value) in DependsOn(K, Sym(s))
  {
    assert SymDefOk(K, s) && SymBuilt(K, D, props, top, s);
    var c, P' := K.syms[s].choice.value, Final(D, props, top).props;
    var n :| n in Preorder(top.kids) && D.kind(n) == SymNode(s) && MemberNode(D, top, c, n) &&
      PropsOf(P', n).prompt.Some? && PropsOf(P', n).prompt != Some(N(D));
    MemberPrompt(K, D, props, top, c, n);
    NodeHasPrompt(D, P', Preorder(top.kids), s, n);
    var ps := K.syms[s].prompts;
    var j :| 0 <= j < |ps| && ps[j] == PropsOf(P', n).prompt;
    MentionsIsItem(K, ps[j].value, c);
    hide ConfigOk, BuiltFrom, Finalized, SymDefOk, PromptsOf;
    assert Cho(c) in PromptItems(K, ps, |ps|);
  }
}
