/**
 * A choice of three symbols X, Y2 and Y1 in which the search reports nothing. If Y2 depends
 * on Y1, this misses a loop: the search enters the choice through X, finishes Y2 without
 * looking at the choice, and so never goes from Y1 through Y2 back to the choice. If it does
 * not, there is no loop, and all values have a rank.
 */
module LoopGap {
  import opened Wrappers
  import opened Config
  import opened Values
  import opened Reads
  import opened Meaning
  import opened Deps
  import opened DepLoop
  import opened LoopLaws
  import opened LoopComplete
  import opened LoopRanks

  const N := Leaf(Sym(0))
  const Y := Leaf(Sym(1))
  const IN_CHOICE := Leaf(Cho(0))
  const ON_Y1 := And(Leaf(Sym(5)), IN_CHOICE)

  function Constant(name: string): SymDef {
    SymDef(name, Tristate, true, [], [], [], N, N, N, None, false)
  }

  /** A bool symbol of the choice, with the conditions that propagation leaves. */
  function Member(name: string, cond: Expr): SymDef {
    SymDef(name, Bool, false, [Some(cond)], [], [], N, N, cond, Some(0), false)
  }

  const UNDEFINED := SymDef("MODULES", Unknown, false, [], [], [], N, N, N, None, false)

  const CHOICE := ChoiceDef(Bool, false, [Some(Y)], [], [3, 4, 5])

  /** The configuration, with or without the dependency of Y2 on Y1. */
  function Gap(loop: bool): Config {
    var y2 := Member("Y2", if loop then ON_Y1 else IN_CHOICE);
    var syms := [Constant("n"), Constant("y"), UNDEFINED, Member("X", IN_CHOICE), y2, Member("Y1", IN_CHOICE)];
    Config(syms, [CHOICE], [3, 4, 5], 2, None)
  }

  function GapGraph(loop: bool): Graph {
    Graph(Gap(loop), map[Sym(5) := if loop then [Sym(4)] else [], Cho(0) := [Sym(3), Sym(4), Sym(5)]])
  }

  lemma GapDefs(loop: bool, s: SymId)
    requires s < 6
    ensures SymDefOk(Gap(loop), s)
  {
    var d := Gap(loop).syms[s];
    if s < 2 {
      assert d == Constant(if s == 0 then "n" else "y");
    } else if s == 2 {
      assert d == UNDEFINED;
    } else {
      var cond := if s == 4 && loop then ON_Y1 else IN_CHOICE;
      assert d == Member(if s == 3 then "X" else if s == 4 then "Y2" else "Y1", cond);
    }
  }

  lemma GapOk(loop: bool)
    ensures ConfigOk(Gap(loop))
  {
    var K := Gap(loop);
    forall s | 0 <= s < |K.syms| ensures SymDefOk(K, s) { GapDefs(loop, s); }
    assert ChoiceDefOk(K, 0) && DefinedSymsOk(K) by { hide SymDefOk; }
    hide SymDefOk, ChoiceDefOk, DefinedSymsOk;
  }

  lemma OnePrompt(K: Config, e: Expr)
    requires ExprOk(K, e) && PromptsOk(K, [Some(e)])
    ensures PromptItems(K, [Some(e)], 1) == ExprItems(K, e)
  {
    var ps := [Some(e)];
    forall x ensures x in PromptItems(K, ps, 1) <==> x in ExprItems(K, e) {
      assert ps[0].Some? && ps[0].value == e;
    }
  }

  lemma MemberItems(K: Config, s: SymId, e: Expr)
    requires ConfigOk(K) && SymOk(K, s) && SymOk(K, 0) && K.syms[0].isConst && K.syms[s].prompts == [Some(e)] && ExprOk(K, e)
    requires K.syms[s].defaults == [] && K.syms[s].ranges == []
    requires K.syms[s].revDep == N && K.syms[s].weakRevDep == N && K.syms[s].directDep == e
    ensures DependsOn(K, Sym(s)) == ExprItems(K, e)
  {
    assert SymDefOk(K, s);
    OnePrompt(K, e);
  }

  lemma GapItems(loop: bool, x: Item)
    requires ConfigOk(Gap(loop)) && ItemOk(Gap(loop), x)
    ensures DependsOn(Gap(loop), x) ==
      if x.Cho? || x.s < 3 then {} else if x.s == 4 && loop then {Cho(0), Sym(5)} else {Cho(0)}
  {
    var K := Gap(loop);
    if x.Cho? {
      assert ChoiceDefOk(K, 0);
      OnePrompt(K, Y);
    } else if x.s >= 3 {
      GapDefs(loop, x.s);
      MemberItems(K, x.s, if x.s == 4 && loop then ON_Y1 else IN_CHOICE);
    }
  }

  lemma GapGraphOk(loop: bool)
    ensures GraphFor(GapGraph(loop))
  {
    GapOk(loop);
    var G := GapGraph(loop);
    forall i, x ensures x in After(G, i) <==> ItemOk(G.K, x) && i in DependsOn(G.K, x) {
      if ItemOk(G.K, x) { GapItems(loop, x); }
    }
  }

  /** What the search follows from each item. */
  ghost predicate CallsAre(G: Graph, loop: bool)
    requires GraphOk(G)
  {
    && G.K.definedSyms == [3, 4, 5] && |G.K.choices| == 1 && |G.K.syms| == 6
    && Calls(G, OfSym(3, false)) == [OfChoice(0, Some(3))]
    && Calls(G, OfChoice(0, Some(3))) == [OfSym(4, true), OfSym(5, true)]
    && Calls(G, OfSym(4, true)) == []
    && Calls(G, OfSym(5, true)) == (if loop then [OfSym(4, false)] else [])
  }

  lemma MembersOf()
    ensures VisitMembers([3, 4, 5], Some(3)) == [OfSym(4, true), OfSym(5, true)]
  {
    assert [3, 4, 5][1..] == [4, 5] && [4, 5][1..] == [5] && [5][1..] == [];
    assert VisitMembers([5], Some(3)) == [OfSym(5, true)];
  }

  lemma GapCalls(loop: bool)
    requires GraphOk(GapGraph(loop))
    ensures CallsAre(GapGraph(loop), loop)
  {
    var G := GapGraph(loop);
    MembersOf();
    assert After(G, Sym(3)) == [] && After(G, Sym(4)) == [] && After(G, Sym(5)) == if loop then [Sym(4)] else [];
    assert G.K.syms[3].choice == Some(0) && G.K.choices[0].syms == [3, 4, 5];
    assert |G.K.syms| == 6 && |G.K.choices| == 1 && G.K.definedSyms == [3, 4, 5];
    hide ConfigOk, GraphOk, Calls, After, VisitMembers, Gap, CHOICE;
    SymCalls(G, 3, false);
    SymCalls(G, 4, true);
    SymCalls(G, 5, true);
    ChoiceCalls(G, 0, Some(3));
  }

  /** The call for w makes no calls, or just one that reports nothing and changes nothing. */
  lemma Ends(G: Graph, v: Marks, w: Visit)
    requires GraphOk(G) && VisitOk(G, w) && Visited(w) !in v.active && Visited(w) !in v.done
    requires Calls(G, w) == [] || (|Calls(G, w)| == 1 && Visited(Calls(G, w)[0]) in v.done)
    ensures Search(G, v, w) == (Marks(v.active, v.done + [Visited(w)]), NoLoop)
  {
    SearchUnfolds(G, v, w);
    var ws := Calls(G, w);
    if ws != [] {
      var v' := v.(active := v.active + {Visited(w)});
      SearchMarked(G, v', ws[0]);
      assert SearchAll(G, v', Visited(w), ws[1..]) == (v', NoLoop);
    }
  }

  /** Entered through X, the choice is finished after Y2 and Y1. */
  lemma SearchChoice(G: Graph, v: Marks, loop: bool)
    requires GraphOk(G) && CallsAre(G, loop) && v == Marks({Sym(3)}, [])
    ensures Search(G, v, OfChoice(0, Some(3))) == (Marks({Sym(3)}, [Sym(4), Sym(5), Cho(0)]), NoLoop)
  {
    hide ConfigOk, Calls;
    var ws := Calls(G, OfChoice(0, Some(3)));
    SearchUnfolds(G, v, OfChoice(0, Some(3)));
    var v1 := Marks(v.active + {Cho(0)}, []);
    var v2 := Marks(v1.active, [] + [Sym(4)]);
    var v3 := Marks(v1.active, v2.done + [Sym(5)]);
    Ends(G, v1, OfSym(4, true));
    Ends(G, v2, OfSym(5, true));
    assert ws[1..] == [OfSym(5, true)] && ws[1..][1..] == [];
    assert SearchAll(G, v3, Cho(0), []) == (v3, NoLoop);
    assert SearchAll(G, v2, Cho(0), ws[1..]) == (v3, NoLoop);
    assert SearchAll(G, v1, Cho(0), ws) == (v3, NoLoop);
    assert v3.done + [Cho(0)] == [Sym(4), Sym(5), Cho(0)];
  }

  lemma SearchX(G: Graph, loop: bool)
    requires GraphOk(G) && CallsAre(G, loop)
    ensures Search(G, Marks({}, []), OfSym(3, false)) == (Marks({}, [Sym(4), Sym(5), Cho(0), Sym(3)]), NoLoop)
  {
    hide ConfigOk, Calls;
    var v0, v1 := Marks({}, []), Marks({Sym(3)}, []);
    SearchUnfolds(G, v0, OfSym(3, false));
    assert v0.(active := v0.active + {Sym(3)}) == v1;
    SearchChoice(G, v1, loop);
    var v2 := Marks({Sym(3)}, [Sym(4), Sym(5), Cho(0)]);
    var ws := [OfChoice(0, Some(3))];
    assert ws[1..] == [] && SearchAll(G, v2, Sym(3), []) == (v2, NoLoop);
    assert SearchAll(G, v1, Sym(3), ws) == (v2, NoLoop);
    assert v2.done + [Sym(3)] == [Sym(4), Sym(5), Cho(0), Sym(3)];
  }

  lemma NothingIsReported(G: Graph, loop: bool)
    requires GraphOk(G) && CallsAre(G, loop)
    ensures CheckAll(G).1.NoLoop?
  {
    hide ConfigOk, Calls;
    SearchX(G, loop);
    var v := Marks({}, [Sym(4), Sym(5), Cho(0), Sym(3)]);
    SearchMarked(G, v, OfSym(4, false));
    SearchMarked(G, v, OfSym(5, false));
    assert SearchFrom(G, v, 3) == (v, NoLoop);
    assert SearchFrom(G, v, 2) == (v, NoLoop);
    assert SearchFrom(G, v, 1) == (v, NoLoop);
  }

  lemma NotRanked(K: Config, rank: Key -> nat, s: SymId, t: SymId, c: ChoiceId)
    requires ConfigOk(K) && SymOk(K, s) && SymOk(K, t) && c < |K.choices|
    requires s in K.choices[c].syms && K.syms[t].choice == Some(c) && K.syms[t].origType == Bool
    requires TriOf(t) in KeyReads(K, Vis(Sym(s)))
    ensures !Ranked(K, rank)
  {
    var vis, tri, sel := Vis(Sym(s)), TriOf(t), Sel(c);
    var n :| 0 <= n < |K.choices[c].syms| && K.choices[c].syms[n] == s;
    assert Vis(Sym(K.choices[c].syms[n])) in SelReads(K, c);
    assert KeyOk(K, vis) && KeyOk(K, tri) && KeyOk(K, sel);
    assert vis in KeyReads(K, sel) && sel in KeyReads(K, tri);
    if Ranked(K, rank) {
      RankBelow(K, rank, sel, vis);
      RankBelow(K, rank, tri, sel);
      RankBelow(K, rank, vis, tri);
    }
  }

  lemma RankBelow(K: Config, rank: Key -> nat, k: Key, j: Key)
    requires ConfigOk(K) && Ranked(K, rank) && KeyOk(K, k) && j in KeyReads(K, k)
    ensures rank(j) < rank(k)
  {
  }

  lemma PromptIsRead(K: Config, s: SymId, i: nat, e: Expr, j: Key)
    requires ConfigOk(K) && SymOk(K, s) && i < |K.syms[s].prompts| && K.syms[s].prompts[i] == Some(e)
    requires ExprOk(K, e) && j in ExprReads(K, e)
    ensures j in KeyReads(K, Vis(Sym(s)))
  {
    assert SymDefOk(K, s);
    var ps := K.syms[s].prompts;
    assert ps[i].Some? && j in ExprReads(K, ps[i].value);
    assert j in PromptReads(K, ps);
    var k := Vis(Sym(s));
    assert KeyReads(K, k) == PromptReads(K, ps) + TypeReads(K, s);
  }

  /** With Y2 selected, evaluating its visibility needs its visibility. */
  const Y2_PICKED := Users(map[], map[], map[0 := 4])

  /** Of the three values that need each other, none can be computed while the others are not there. */
  lemma EvaluationIsStuck(m: Cache, k: Key)
    requires ConfigOk(Gap(true)) && GetT(m, Vis(Cho(0))) == Some(2) && GetT(m, Vis(Sym(5))) == Some(2)
    requires Vis(Sym(4)) !in m && TriOf(5) !in m && Sel(0) !in m
    requires k == Vis(Sym(4)) || k == TriOf(5) || k == Sel(0)
    ensures KeyOk(Gap(true), k) && Body(Gap(true), Y2_PICKED, m, k).None?
  {
    var K := Gap(true);
    var d := K.syms[4];
    assert d == Member("Y2", ON_Y1) && K.syms[5] == Member("Y1", IN_CHOICE) && K.choices[0] == CHOICE;
    if k.Vis? {
      assert Eval(K, Y2_PICKED, m, ON_Y1).None?;
      assert PromptVis(K, Y2_PICKED, m, d.prompts, 0) == Some(0);
    }
  }

  /** Nothing is reported either way. */
  lemma GapIsQuiet(loop: bool)
    ensures GraphFor(GapGraph(loop)) && ChoicesClosed(GapGraph(loop)) && CheckAll(GapGraph(loop)).1.NoLoop?
  {
    GapGraphOk(loop);
    GapCalls(loop);
    GapClosed(loop);
    hide ConfigOk, Gap, ChoicesClosed, GraphFor, CallsAre;
    NothingIsReported(GapGraph(loop), loop);
  }

  lemma GapHasLoop() returns (loop: seq<Item>)
    requires GraphOk(GapGraph(true)) && ChoicesClosed(GapGraph(true))
    ensures RealLoop(GapGraph(true), loop)
  {
    var G := GapGraph(true);
    var p := [Sym(4), Sym(5)];
    assert Linked(G, Sym(5), Sym(4)) && p[0] != p[1];
    assert SideWay(G, 0, p);
    hide ConfigOk, ChoicesClosed, SideWay;
    loop := SideWayIsLoop(G, 0, p);
  }

  /** No loop is reported, although there is one around the choice, and no rank. */
  lemma LoopThroughChoiceIsMissed(rank: Key -> nat) returns (loop: seq<Item>)
    ensures GraphFor(GapGraph(true)) && ChoicesClosed(GapGraph(true)) && CheckAll(GapGraph(true)).1.NoLoop?
    ensures RealLoop(GapGraph(true), loop) && !Ranked(Gap(true), rank)
  {
    GapIsQuiet(true);
    GapNotRanked(rank);
    hide ConfigOk, ChoicesClosed, Ranked, Gap;
    loop := GapHasLoop();
  }

  lemma GapNotRanked(rank: Key -> nat)
    requires ConfigOk(Gap(true))
    ensures !Ranked(Gap(true), rank)
  {
    var K := Gap(true);
    PromptIsRead(K, 4, 0, ON_Y1, TriOf(5));
    assert 4 in K.choices[0].syms && K.syms[5].choice == Some(0) && K.syms[5].origType == Bool;
    hide ConfigOk, Ranked, KeyReads;
    NotRanked(K, rank, 4, 5, 0);
  }

  lemma GapClosed(loop: bool)
    requires GraphOk(GapGraph(loop))
    ensures ChoicesClosed(GapGraph(loop))
  {
  }

  // Without the dependency

  lemma OnlyToChoice(i: Item, x: Item)
    requires GraphOk(GapGraph(false)) && ItemOk(Gap(false), i) && ItemOk(Gap(false), x)
    requires Linked(GapGraph(false), i, x) && i.Sym?
    ensures x == Cho(0)
  {
  }

  lemma GapApart()
    requires GraphOk(GapGraph(false))
    ensures SymsApart(GapGraph(false))
  {
    var G := GapGraph(false);
    hide ConfigOk, Linked;
    forall c, p | 0 <= c < |G.K.choices| && SideWay(G, c, p) ensures p[0] == p[|p| - 1] {
      if |p| > 1 { OnlyToChoice(p[|p| - 1], p[|p| - 2]); }
    }
  }

  /** Without it, the choice has no loop, nothing is reported, and all values have a rank. */
  lemma ChoiceCanBeRanked() returns (rank: Key -> nat)
    ensures GraphFor(GapGraph(false)) && ChoicesClosed(GapGraph(false)) && SymsApart(GapGraph(false))
    ensures CheckAll(GapGraph(false)).1.NoLoop? && Ranked(Gap(false), rank)
  {
    var G := GapGraph(false);
    GapIsQuiet(false);
    GapApart();
    GapLinked();
    hide GraphFor, ConfigOk, ChoicesClosed, SymsApart, ChoicesLinked, ModulesApart, CheckAll, Gap;
    QuietSearchRanks(G, {2});
    rank := k => if GraphOk(G) then KeyRank(G, {2}, k) else 0;
  }

  lemma GapLinked()
    requires ConfigOk(Gap(false))
    ensures ChoicesLinked(Gap(false)) && ModulesApart(Gap(false), {2})
  {
    var K := Gap(false);
    forall s | 0 <= s < |K.syms|
      ensures K.syms[s].choice.Some? ==> Cho(K.syms[s].choice.value) in DependsOn(K, Sym(s))
      ensures s == 2 ==> DependsOn(K, Sym(s)) == {}
    {
      GapItems(false, Sym(s));
    }
  }
}
