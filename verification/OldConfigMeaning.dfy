/** Whom oldconfig asks, and the numbers of the options. */
module OldConfigMeaning {
  import opened Wrappers
  import opened Config
  import opened Values
  import opened Meaning
  import opened ValueLaws
  import opened ExprMeaning
  import SlotMeaning
  import opened OldConfigLaws

  /** The options are the y-visible symbols, numbered in the order of the choice. */
  lemma {:induction false} OptionsInOrder(m: Cache, a: seq<SymId>, b: seq<SymId>)
    ensures Options(m, a + b) == Options(m, a) + Options(m, b)
    decreases |b|
  {
    if b == [] {
      assert a + b == a;
    } else {
      assert (a + b)[..|a + b| - 1] == a + b[..|b| - 1];
      OptionsInOrder(m, a, b[..|b| - 1]);
    }
  }

  lemma OneOption(m: Cache, s: SymId)
    ensures Options(m, [s]) == if GetT(m, Vis(Sym(s))) == Some(2) then [s] else []
  {
    assert [s][..0] == [];
  }

  /**
   * A symbol is asked about exactly if it is visible, has no user value, is not in a choice in
   * y mode, and, if it is bool or tristate, has at least two values to choose from.
   */
  lemma SymbolsAsked(K: Config, U: Users, m: Cache, s: SymId)
    requires ConfigOk(K) && Solves(K, U, m) && SymOk(K, s) && SymDefOk(K, s)
    ensures Known(K, U, m, Assignable(Sym(s))) && Known(K, U, m, Vis(Sym(s)))
    ensures AsksSym(K, U, m, s) <==>
      && m[Vis(Sym(s))].t != 0 && s !in U.sym
      && (K.syms[s].choice.Some? ==> SlotMeaning.Mode(K, U, m, K.syms[s].choice.value) != 2)
      && (Boolish(K.syms[s].origType) ==>
            exists v, w :: v in m[Assignable(Sym(s))].vals && w in m[Assignable(Sym(s))].vals && v < w)
  {
    SolutionKnows(K, U, m, Assignable(Sym(s)));
    SolutionKnows(K, U, m, Vis(Sym(s)));
    SlotMeaning.AssignableMeans(K, U, m, Sym(s));
    if K.syms[s].choice.Some? { TruthIsEval(K, U, m, Leaf(Cho(K.syms[s].choice.value))); }
    var vals := m[Assignable(Sym(s))].vals;
    if |vals| >= 2 { assert vals[0] in vals && vals[1] in vals && vals[0] < vals[1]; }
  }
}
