/**
 * What the values of a configuration satisfy in every user state: the modes of
 * choices, ranges, and what assigning a listed value does.
 */
module ValueLaws {
  import opened Wrappers
  import opened Numerals
  import opened Config
  import opened Values
  import opened Meaning
  import opened Invalidation

  // Conditions that propagation has put under an item

  /** e is n, or i, or has i as one of the operands that it is the minimum of. */
  predicate Under(K: Config, e: Expr, i: Item) {
    match e
    case Leaf(j) => j == i || (j.Sym? && SymOk(K, j.s) && IsNmy(K.syms[j.s]) && K.syms[j.s].name == "n")
    case And(l, r) => Under(K, l, i) || Under(K, r, i)
    case _ => false
  }

  lemma {:induction false} UnderIsBound(K: Config, U: Users, m: Cache, e: Expr, i: Item)
    requires ConfigOk(K) && Solves(K, U, m) && ExprOk(K, e) && ItemOk(K, i) && Under(K, e, i)
    requires Eval(K, U, m, e).Some? && Eval(K, U, m, Leaf(i)).Some?
    ensures Eval(K, U, m, e).value <= Eval(K, U, m, Leaf(i)).value
  {
    match e
    case Leaf(j) =>
      if j != i {
        assert KeyOk(K, TriOf(j.s)) && Body(K, U, m, TriOf(j.s)) == Some(m[TriOf(j.s)]);
      }
    case And(l, r) =>
      if Under(K, l, i) {
        UnderIsBound(K, U, m, l, i);
      } else if Eval(K, U, m, l) != Some(0) {
        UnderIsBound(K, U, m, r, i);
      }
  }

  lemma {:induction false} PromptsUnder(K: Config, U: Users, m: Cache, ps: seq<Option<Expr>>, n: nat, i: Item)
    requires ConfigOk(K) && Solves(K, U, m) && PromptsOk(K, ps) && n <= |ps| && ItemOk(K, i)
    requires forall j :: 0 <= j < |ps| && ps[j].Some? ==> Under(K, ps[j].value, i)
    requires PromptVis(K, U, m, ps, n).Some? && Eval(K, U, m, Leaf(i)).Some?
    ensures PromptVis(K, U, m, ps, n).value <= Eval(K, U, m, Leaf(i)).value
  {
    if n == 0 {
    } else {
      PromptsUnder(K, U, m, ps, n - 1, i);
      if ps[n - 1].Some? { UnderIsBound(K, U, m, ps[n - 1].value, i); }
    }
  }

  // Reading a solution

  ghost predicate Known(K: Config, U: Users, m: Cache, k: Key)
    requires ConfigOk(K)
  {
    KeyOk(K, k) && k in m && ValOk(k, m[k]) && Body(K, U, m, k) == Some(m[k])
  }

  lemma SolutionKnows(K: Config, U: Users, m: Cache, k: Key)
    requires ConfigOk(K) && Solves(K, U, m) && KeyOk(K, k)
    ensures Known(K, U, m, k)
  {
    assert Body(K, U, m, k) == Some(m[k]);
  }

  lemma ModeKnown(K: Config, U: Users, m: Cache, c: ChoiceId)
    requires ConfigOk(K) && Solves(K, U, m) && c < |K.choices|
    ensures ChoiceTri(K, U, m, c).Some?
  {
    SolutionKnows(K, U, m, Vis(Cho(c)));
    SolutionKnows(K, U, m, TriOf(K.modules));
  }

  // Choices

  /** The symbols listed by a choice belong to it and to no other, and are bool or tristate. */
  ghost predicate OwnsSyms(K: Config, c: ChoiceId)
    requires ConfigOk(K) && c < |K.choices|
  {
    assert ChoiceDefOk(K, c);
    forall j :: 0 <= j < |K.choices[c].syms| ==>
      K.syms[K.choices[c].syms[j]].choice == Some(c) && Boolish(K.syms[K.choices[c].syms[j]].origType)
  }

  lemma {:induction false} FirstVisibleFinds(m: Cache, syms: seq<SymId>, i: nat)
    requires i <= |syms| && FirstVisible(m, syms, i).Some?
    ensures FirstVisible(m, syms, i).value.None? ==>
      forall j :: i <= j < |syms| ==> GetT(m, Vis(Sym(syms[j]))) == Some(0)
    ensures FirstVisible(m, syms, i).value.Some? ==>
      var s := FirstVisible(m, syms, i).value.value;
      s in syms && GetT(m, Vis(Sym(s))).Some? && GetT(m, Vis(Sym(s))) != Some(0)
    decreases |syms| - i
  {
    if i < |syms| && GetT(m, Vis(Sym(syms[i]))) == Some(0) { FirstVisibleFinds(m, syms, i + 1); }
  }

  lemma {:induction false} DefaultPickFinds(K: Config, U: Users, m: Cache, c: ChoiceId, i: nat)
    requires ConfigOk(K) && c < |K.choices| && i <= |K.choices[c].defaults| && DefaultPick(K, U, m, c, i).Some?
    ensures DefaultPick(K, U, m, c, i).value.Some? ==>
      var s := DefaultPick(K, U, m, c, i).value.value;
      s in K.choices[c].syms && GetT(m, Vis(Sym(s))).Some? && GetT(m, Vis(Sym(s))) != Some(0)
    decreases |K.choices[c].defaults| - i
  {
    assert ChoiceDefOk(K, c);
    var ds := K.choices[c].defaults;
    if i < |ds| && (Eval(K, U, m, ds[i].cond) == Some(0) || GetT(m, Vis(Sym(ds[i].sym))) == Some(0)) {
      DefaultPickFinds(K, U, m, c, i + 1);
    }
  }

  /** The selection of a y-mode choice is a visible symbol of it, and there is one if any symbol is visible. */
  lemma SelectionInYMode(K: Config, U: Users, m: Cache, c: ChoiceId)
    requires ConfigOk(K) && UserStateOk(K, U) && Solves(K, U, m) && c < |K.choices|
    requires ChoiceTri(K, U, m, c) == Some(2)
    ensures Known(K, U, m, Sel(c)) && ChoiceDefOk(K, c)
    ensures m[Sel(c)].pick.Some? ==>
      m[Sel(c)].pick.value in K.choices[c].syms && GetT(m, Vis(Sym(m[Sel(c)].pick.value))) != Some(0)
    ensures m[Sel(c)].pick.None? ==>
      forall j :: 0 <= j < |K.choices[c].syms| ==> GetT(m, Vis(Sym(K.choices[c].syms[j]))) == Some(0)
  {
    assert ChoiceDefOk(K, c);
    SolutionKnows(K, U, m, Sel(c));
    if SelectionFromDefaults(K, U, m, c).Some? {
      DefaultPickFinds(K, U, m, c, 0);
      if FirstVisible(m, K.choices[c].syms, 0).Some? { FirstVisibleFinds(m, K.choices[c].syms, 0); }
    }
  }

  /** In a y-mode choice no symbol is m-visible. */
  lemma NoMVisibleInYMode(K: Config, U: Users, m: Cache, s: SymId, c: ChoiceId)
    requires ConfigOk(K) && Solves(K, U, m) && SymOk(K, s) && K.syms[s].choice == Some(c) && c < |K.choices|
    requires ChoiceTri(K, U, m, c) == Some(2)
    ensures Known(K, U, m, Vis(Sym(s))) && m[Vis(Sym(s))].t != 1
  {
    SolutionKnows(K, U, m, Vis(Sym(s)));
    assert SymDefOk(K, s);
  }

  /**
   * Choice modes: in y mode exactly the selection is y and all other symbols are n;
   * in m mode no symbol is y; otherwise no symbol is y either, and a symbol can only
   * be m if it is m-visible without its choice.
   */
  lemma ChoiceModes(K: Config, U: Users, m: Cache, c: ChoiceId, s: SymId)
    requires ConfigOk(K) && UserStateOk(K, U) && Solves(K, U, m) && c < |K.choices| && OwnsSyms(K, c)
    requires s in K.choices[c].syms
    ensures ChoiceTri(K, U, m, c).Some? && SymOk(K, s) && Known(K, U, m, TriOf(s)) && Known(K, U, m, Vis(Sym(s)))
    ensures Known(K, U, m, Sel(c))
    ensures ChoiceTri(K, U, m, c) == Some(2) ==>
      (m[TriOf(s)].t == 2 <==> m[Sel(c)] == P(Some(s))) && (m[TriOf(s)].t == 0 <==> m[Sel(c)] != P(Some(s)))
    ensures ChoiceTri(K, U, m, c) == Some(2) ==>
      (m[Sel(c)].pick.Some? <==> exists j :: 0 <= j < |K.choices[c].syms| && GetT(m, Vis(Sym(K.choices[c].syms[j]))) != Some(0))
    ensures ChoiceTri(K, U, m, c) == Some(2) && m[Sel(c)].pick.Some? ==> m[Sel(c)].pick.value in K.choices[c].syms
    ensures ChoiceTri(K, U, m, c) != Some(2) ==> m[TriOf(s)].t != 2
    ensures ChoiceTri(K, U, m, c) != Some(2) && m[TriOf(s)].t == 1 ==> m[Vis(Sym(s))].t == 1
  {
    ModeKnown(K, U, m, c);
    assert ChoiceDefOk(K, c);
    assert SymDefOk(K, s);
    SolutionKnows(K, U, m, TriOf(s));
    SolutionKnows(K, U, m, Vis(Sym(s)));
    SolutionKnows(K, U, m, Sel(c));
    if ChoiceTri(K, U, m, c) == Some(2) {
      SelectionInYMode(K, U, m, c);
      NoMVisibleInYMode(K, U, m, s, c);
    }
  }

  /** With its prompts under the choice, an n-mode choice has only n symbols, invisible ones. */
  lemma NModeHidesSyms(K: Config, U: Users, m: Cache, c: ChoiceId, s: SymId)
    requires ConfigOk(K) && UserStateOk(K, U) && Solves(K, U, m) && c < |K.choices| && OwnsSyms(K, c)
    requires s in K.choices[c].syms && SymOk(K, s)
    requires forall j :: 0 <= j < |K.syms[s].prompts| && K.syms[s].prompts[j].Some? ==>
      Under(K, K.syms[s].prompts[j].value, Cho(c))
    requires ChoiceTri(K, U, m, c) == Some(0)
    ensures Known(K, U, m, TriOf(s)) && Known(K, U, m, Vis(Sym(s)))
    ensures m[Vis(Sym(s))].t == 0 && m[TriOf(s)].t == 0
  {
    ChoiceModes(K, U, m, c, s);
    assert SymDefOk(K, s);
    PromptsUnder(K, U, m, K.syms[s].prompts, |K.syms[s].prompts|, Cho(c));
  }

  // Ranges

  lemma ClampMeetsRange(low: int, high: int, base: nat, val: string)
    requires base == 10 || base == 16
    ensures InRange(Some((low, high)), NumOrZero(Clamp(Some((low, high)), base, val), base)) <==> low <= high
  {
    PrintedIntReads(low, base);
    PrintedIntReads(high, base);
  }

  /**
   * An int or hex symbol keeps to its active range exactly if the range is not empty:
   * user values, defaults and rewritten values alike.
   */
  lemma RangeIsKept(K: Config, U: Users, m: Cache, s: SymId)
    requires ConfigOk(K) && Solves(K, U, m) && SymOk(K, s) && Numeric(K.syms[s].origType) && SymDefOk(K, s)
    ensures Known(K, U, m, StrOf(s))
    ensures ActiveRange(K, U, m, TypeBase(K.syms[s].origType), K.syms[s].ranges, 0).Some?
    ensures
      var base := TypeBase(K.syms[s].origType);
      var range := ActiveRange(K, U, m, base, K.syms[s].ranges, 0).value;
      range.Some? ==>
        (InRange(range, NumOrZero(m[StrOf(s)].str, base)) <==> range.value.0 <= range.value.1)
  {
    SolutionKnows(K, U, m, StrOf(s));
    SolutionKnows(K, U, m, Vis(Sym(s)));
    var d := K.syms[s];
    var base := TypeBase(d.origType);
    var vis := m[Vis(Sym(s))].t;
    var range := ActiveRange(K, U, m, base, d.ranges, 0).value;
    if range.Some? && UserNum(U, s, vis, range, base).None? {
      var def := DefaultStr(K, U, m, d.origType, d.defaults).value;
      ClampMeetsRange(range.value.0, range.value.1, base, if def.Some? then def.value else "");
    }
  }
}
