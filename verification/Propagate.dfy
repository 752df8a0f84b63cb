/**
 * Dependency propagation: how the conditions of a menu node come to contain those of the
 * menus, ifs and choices around it, and how the properties of nodes reach the symbols.
 */
module Propagate {
  import opened Wrappers
  import opened Config
  import opened MenuTree

  datatype Kind = SymNode(s: SymId) | ChoiceNode(c: ChoiceId) | MenuNode | IfNode | CommentNode

  /** A select or an imply. */
  datatype Target = Target(sym: SymId, cond: Expr)

  /** The properties of a menu node, as far as they have conditions. */
  datatype Props = Props(
    dep: Expr,
    visibility: Expr,
    prompt: Option<Expr>,
    defaults: seq<Default>,
    ranges: seq<Range>,
    picks: seq<Pick>,
    selects: seq<Target>,
    implies: seq<Target>)

  /** The kinds of the nodes, and the constants n and y. */
  datatype Defs = Defs(kind: Node -> Kind, n: SymId, y: SymId)

  /** The properties of the nodes, and those collected for the symbols and choices; absent is n or empty. */
  datatype State = State(
    props: map<Node, Props>,
    directDep: map<SymId, Expr>,
    revDep: map<SymId, Expr>,
    weakRevDep: map<SymId, Expr>,
    defaults: map<SymId, seq<Default>>,
    ranges: map<SymId, seq<Range>>,
    choiceDep: map<ChoiceId, Expr>,
    picks: map<ChoiceId, seq<Pick>>)

  function N(D: Defs): Expr { Leaf(Sym(D.n)) }

  function Y(D: Defs): Expr { Leaf(Sym(D.y)) }

  /** _make_and() */
  function MakeAnd(D: Defs, a: Expr, b: Expr): Expr {
    if a == Y(D) then b
    else if b == Y(D) then a
    else if a == N(D) || b == N(D) then N(D)
    else And(a, b)
  }

  /** _make_or() */
  function MakeOr(D: Defs, a: Expr, b: Expr): Expr {
    if a == N(D) then b
    else if b == N(D) then a
    else if a == Y(D) || b == Y(D) then Y(D)
    else Or(a, b)
  }

  function Get(m: map<nat, Expr>, k: nat, D: Defs): Expr { if k in m then m[k] else N(D) }

  function GetSeq<T>(m: map<nat, seq<T>>, k: nat): seq<T> { if k in m then m[k] else [] }

  function PropsOf(S: map<Node, Props>, n: Node): Props {
    if n in S then S[n] else Props(Leaf(Sym(0)), Leaf(Sym(0)), None, [], [], [], [], [])
  }

  // One node

  function WithDefaults(D: Defs, ds: seq<Default>, dep: Expr): (r: seq<Default>)
    ensures |r| == |ds| && forall i :: 0 <= i < |ds| ==> r[i] == Default(ds[i].value, MakeAnd(D, ds[i].cond, dep))
  {
    seq(|ds|, i requires 0 <= i < |ds| => Default(ds[i].value, MakeAnd(D, ds[i].cond, dep)))
  }

  function WithRanges(D: Defs, rs: seq<Range>, dep: Expr): (r: seq<Range>)
    ensures |r| == |rs| && forall i :: 0 <= i < |rs| ==> r[i] == Range(rs[i].low, rs[i].high, MakeAnd(D, rs[i].cond, dep))
  {
    seq(|rs|, i requires 0 <= i < |rs| => Range(rs[i].low, rs[i].high, MakeAnd(D, rs[i].cond, dep)))
  }

  function WithPicks(D: Defs, ps: seq<Pick>, dep: Expr): (r: seq<Pick>)
    ensures |r| == |ps| && forall i :: 0 <= i < |ps| ==> r[i] == Pick(ps[i].sym, MakeAnd(D, ps[i].cond, dep))
  {
    seq(|ps|, i requires 0 <= i < |ps| => Pick(ps[i].sym, MakeAnd(D, ps[i].cond, dep)))
  }

  function WithTargets(D: Defs, ts: seq<Target>, dep: Expr): (r: seq<Target>)
    ensures |r| == |ts| && forall i :: 0 <= i < |ts| ==> r[i] == Target(ts[i].sym, MakeAnd(D, ts[i].cond, dep))
  {
    seq(|ts|, i requires 0 <= i < |ts| => Target(ts[i].sym, MakeAnd(D, ts[i].cond, dep)))
  }

  /** What _propagate_deps() does to one child. */
  function Pushed(D: Defs, n: Node, p: Props, base: Expr, visibleIf: Expr): Props {
    var dep := MakeAnd(D, p.dep, base);
    if D.kind(n).SymNode? || D.kind(n).ChoiceNode? then
      Props(dep, p.visibility,
            if p.prompt.Some? then Some(MakeAnd(D, p.prompt.value, MakeAnd(D, visibleIf, dep))) else None,
            WithDefaults(D, p.defaults, dep), WithRanges(D, p.ranges, dep), WithPicks(D, p.picks, dep),
            WithTargets(D, p.selects, dep), WithTargets(D, p.implies, dep))
    else
      p.(dep := dep, prompt := if p.prompt.Some? then Some(MakeAnd(D, p.prompt.value, dep)) else None)
  }

  /** The condition that the children of n get. */
  function Base(D: Defs, n: Node, p: Props): Expr {
    if D.kind(n).ChoiceNode? then Leaf(Cho(D.kind(n).c)) else p.dep
  }

  // Adding the properties of a node to its symbol

  function AddTargets(D: Defs, deps: map<SymId, Expr>, s: SymId, ts: seq<Target>): map<SymId, Expr> {
    if ts == [] then deps
    else
      var before := AddTargets(D, deps, s, ts[..|ts| - 1]);
      var t := ts[|ts| - 1];
      before[t.sym := MakeOr(D, Get(before, t.sym, D), MakeAnd(D, Leaf(Sym(s)), t.cond))]
  }

  /** The state after _add_props_to_sym(). */
  function AddProps(D: Defs, S: State, s: SymId, p: Props): State {
    S.(directDep := S.directDep[s := MakeOr(D, Get(S.directDep, s, D), p.dep)],
       defaults := S.defaults[s := GetSeq(S.defaults, s) + p.defaults],
       ranges := S.ranges[s := GetSeq(S.ranges, s) + p.ranges],
       revDep := AddTargets(D, S.revDep, s, p.selects),
       weakRevDep := AddTargets(D, S.weakRevDep, s, p.implies))
  }

  function AddChoiceProps(D: Defs, S: State, c: ChoiceId, p: Props): State {
    S.(choiceDep := S.choiceDep[c := MakeOr(D, Get(S.choiceDep, c, D), p.dep)],
       picks := S.picks[c := GetSeq(S.picks, c) + p.picks])
  }

  // The whole tree

  /** _propagate_deps() over some children. */
  function PushAll(D: Defs, props: map<Node, Props>, ms: seq<Menu>, base: Expr, visibleIf: Expr): map<Node, Props> {
    if ms == [] then props
    else
      var before := PushAll(D, props, ms[..|ms| - 1], base, visibleIf);
      var n := ms[|ms| - 1].node;
      before[n := Pushed(D, n, PropsOf(before, n), base, visibleIf)]
  }

  function VisibleIf(D: Defs, n: Node, p: Props, visibleIf: Expr): Expr {
    if D.kind(n).MenuNode? then MakeAnd(D, visibleIf, p.visibility) else visibleIf
  }

  /** What _finalize_node() does to properties; children of symbols only come later. */
  function Finalized(D: Defs, S: State, m: Menu, visibleIf: Expr): State
    decreases m, |m.kids| + 1
  {
    var n, p := m.node, PropsOf(S.props, m.node);
    match D.kind(n)
    case SymNode(s) => AddProps(D, S, s, p)
    case _ =>
      var vis := VisibleIf(D, n, p, visibleIf);
      var S1 := S.(props := PushAll(D, S.props, m.kids, Base(D, n, p), vis));
      var S2 := FinalizedAll(D, S1, m, |m.kids|, vis);
      if D.kind(n).ChoiceNode? then AddChoiceProps(D, S2, D.kind(n).c, PropsOf(S2.props, n)) else S2
  }

  /** The first k children of m, one after the other. */
  function FinalizedAll(D: Defs, S: State, m: Menu, k: nat, visibleIf: Expr): State
    requires k <= |m.kids|
    decreases m, k
  {
    if k == 0 then S else Finalized(D, FinalizedAll(D, S, m, k - 1, visibleIf), m.kids[k - 1], visibleIf)
  }

  class Finalizer {
    const D: Defs
    var props: map<Node, Props>
    var directDep: map<SymId, Expr>
    var revDep: map<SymId, Expr>
    var weakRevDep: map<SymId, Expr>
    var defaults: map<SymId, seq<Default>>
    var ranges: map<SymId, seq<Range>>
    var choiceDep: map<ChoiceId, Expr>
    var picks: map<ChoiceId, seq<Pick>>

    function Now(): State
      reads this
    {
      State(props, directDep, revDep, weakRevDep, defaults, ranges, choiceDep, picks)
    }

    constructor (D: Defs, props: map<Node, Props>)
      ensures this.D == D && Now() == State(props, map[], map[], map[], map[], map[], map[], map[])
    {
      this.D := D;
      this.props := props;
      directDep, revDep, weakRevDep, defaults, ranges := map[], map[], map[], map[], map[];
      choiceDep, picks := map[], map[];
    }

    method PropagateDeps(n: Node, kids: seq<Menu>, visibleIf: Expr)
      modifies this`props
      ensures props == PushAll(D, old(props), kids, Base(D, n, PropsOf(old(props), n)), visibleIf)
    {
      var base := Base(D, n, PropsOf(props, n));
      for k := 0 to |kids|
        invariant props == PushAll(D, old(props), kids[..k], base, visibleIf)
      {
        assert kids[..k + 1][..k] == kids[..k];
        var cur := kids[k].node;
        props := props[cur := Pushed(D, cur, PropsOf(props, cur), base, visibleIf)];
      }
      assert kids[..|kids|] == kids;
    }

    method AddSelects(s: SymId, ts: seq<Target>)
      modifies this`revDep
      ensures revDep == AddTargets(D, old(revDep), s, ts)
    {
      for k := 0 to |ts|
        invariant revDep == AddTargets(D, old(revDep), s, ts[..k])
      {
        assert ts[..k + 1][..k] == ts[..k];
        var t := ts[k];
        revDep := revDep[t.sym := MakeOr(D, Get(revDep, t.sym, D), MakeAnd(D, Leaf(Sym(s)), t.cond))];
      }
      assert ts[..|ts|] == ts;
    }

    method AddImplies(s: SymId, ts: seq<Target>)
      modifies this`weakRevDep
      ensures weakRevDep == AddTargets(D, old(weakRevDep), s, ts)
    {
      for k := 0 to |ts|
        invariant weakRevDep == AddTargets(D, old(weakRevDep), s, ts[..k])
      {
        assert ts[..k + 1][..k] == ts[..k];
        var t := ts[k];
        weakRevDep := weakRevDep[t.sym := MakeOr(D, Get(weakRevDep, t.sym, D), MakeAnd(D, Leaf(Sym(s)), t.cond))];
      }
      assert ts[..|ts|] == ts;
    }

    /** _add_props_to_sym() */
    method AddPropsToSym(s: SymId, n: Node)
      modifies this
      ensures Now() == AddProps(D, old(Now()), s, PropsOf(old(props), n))
    {
      var p := PropsOf(props, n);
      directDep := directDep[s := MakeOr(D, Get(directDep, s, D), p.dep)];
      defaults := defaults[s := GetSeq(defaults, s) + p.defaults];
      ranges := ranges[s := GetSeq(ranges, s) + p.ranges];
      AddSelects(s, p.selects);
      AddImplies(s, p.implies);
    }

    /** _finalize_node(), as far as properties go */
    method FinalizeNode(m: Menu, visibleIf: Expr)
      modifies this
      ensures Now() == Finalized(D, old(Now()), m, visibleIf)
      decreases m
    {
      var n := m.node;
      if D.kind(n).SymNode? {
        AddPropsToSym(D.kind(n).s, n);
        return;
      }
      var vis := VisibleIf(D, n, PropsOf(props, n), visibleIf);
      PropagateDeps(n, m.kids, vis);
      ghost var S1 := Now();
      for k := 0 to |m.kids|
        invariant Now() == FinalizedAll(D, S1, m, k, vis)
      {
        FinalizeNode(m.kids[k], vis);
      }
      if D.kind(n).ChoiceNode? {
        var c, p := D.kind(n).c, PropsOf(props, n);
        choiceDep := choiceDep[c := MakeOr(D, Get(choiceDep, c, D), p.dep)];
        picks := picks[c := GetSeq(picks, c) + p.picks];
      }
    }
  }
}
