/** The `_dependents` sets, as _build_dep() and _add_choice_deps() fill them. */
module DepTable {
  import opened Wrappers
  import opened Config
  import opened Deps

  class Dependents {
    const K: Config
    /** For each item, the items that immediately depend on it; absent is empty. */
    var table: map<Item, set<Item>>

    constructor (K: Config)
      ensures this.K == K && forall i, x :: !Edge(i, x)
    {
      this.K := K;
      table := map[];
    }

    ghost predicate Edge(i: Item, x: Item)
      reads this
    {
      i in table && x in table[i]
    }

    twostate predicate Added(sc: Item, items: set<Item>)
      reads this
    {
      forall i, x :: Edge(i, x) <==> old(Edge(i, x)) || (x == sc && i in items)
    }

    method Add(i: Item, sc: Item)
      modifies this
      ensures Added(sc, {i})
    {
      table := table[i := (if i in table then table[i] else {}) + {sc}];
    }

    method DependOnSym(sc: Item, s: SymId)
      requires SymOk(K, s)
      modifies this
      ensures Added(sc, Changeable(K, Sym(s)))
    {
      if !K.syms[s].isConst {
        Add(Sym(s), sc);
      }
    }

    /** _depend_on() */
    method DependOn(sc: Item, e: Expr)
      requires ExprOk(K, e)
      modifies this
      ensures Added(sc, ExprItems(K, e))
      decreases e
    {
      match e
      case Leaf(Sym(s)) => DependOnSym(sc, s);
      case Leaf(Cho(c)) => Add(Cho(c), sc);
      case And(left, right) => DependOn(sc, left); DependOn(sc, right);
      case Or(left, right) => DependOn(sc, left); DependOn(sc, right);
      case Not(arg) => DependOn(sc, arg);
      case Compare(_, a, b) => DependOnSym(sc, a); DependOnSym(sc, b);
    }

    method DependOnPrompts(sc: Item, ps: seq<Option<Expr>>)
      requires PromptsOk(K, ps)
      modifies this
      ensures Added(sc, PromptItems(K, ps, |ps|))
    {
      for n := 0 to |ps|
        invariant Added(sc, PromptItems(K, ps, n))
      {
        if ps[n].Some? {
          DependOn(sc, ps[n].value);
        }
      }
    }

    method DependOnDefaults(sc: Item, t: Type, ds: seq<Default>)
      requires DefaultsOk(K, t, ds)
      modifies this
      ensures Added(sc, DefaultItems(K, t, ds, |ds|))
    {
      for n := 0 to |ds|
        invariant Added(sc, DefaultItems(K, t, ds, n))
      {
        DependOn(sc, ds[n].value);
        DependOn(sc, ds[n].cond);
        assert DefaultItems(K, t, ds, n + 1) ==
               DefaultItems(K, t, ds, n) + (ExprItems(K, ds[n].value) + ExprItems(K, ds[n].cond));
      }
    }

    method DependOnRange(sc: Item, r: Range)
      requires SymOk(K, r.low) && SymOk(K, r.high) && ExprOk(K, r.cond)
      modifies this
      ensures Added(sc, Changeable(K, Sym(r.low)) + Changeable(K, Sym(r.high)) + ExprItems(K, r.cond))
    {
      DependOnSym(sc, r.low);
      DependOnSym(sc, r.high);
      DependOn(sc, r.cond);
    }

    method DependOnRanges(sc: Item, rs: seq<Range>)
      requires RangesOk(K, rs)
      modifies this
      ensures Added(sc, RangeItems(K, rs, |rs|))
    {
      for n := 0 to |rs|
        invariant Added(sc, RangeItems(K, rs, n))
      {
        DependOnRange(sc, rs[n]);
        assert RangeItems(K, rs, n + 1) == RangeItems(K, rs, n) +
          (Changeable(K, Sym(rs[n].low)) + Changeable(K, Sym(rs[n].high)) + ExprItems(K, rs[n].cond));
      }
    }

    method AddSym(s: SymId)
      requires ConfigOk(K) && SymOk(K, s) && Defined(K.syms[s])
      modifies this
      ensures Added(Sym(s), DependsOn(K, Sym(s)))
    {
      assert SymDefOk(K, s);
      var d := K.syms[s];
      DependOnPrompts(Sym(s), d.prompts);
      DependOnDefaults(Sym(s), d.origType, d.defaults);
      DependOn(Sym(s), d.revDep);
      DependOn(Sym(s), d.weakRevDep);
      DependOnRanges(Sym(s), d.ranges);
      DependOn(Sym(s), d.directDep);
    }

    method AddChoice(c: ChoiceId)
      requires ConfigOk(K) && c < |K.choices|
      modifies this
      ensures Added(Cho(c), DependsOn(K, Cho(c)))
    {
      assert ChoiceDefOk(K, c);
      var d := K.choices[c];
      DependOnPrompts(Cho(c), d.prompts);
      for n := 0 to |d.defaults|
        invariant Added(Cho(c), PromptItems(K, d.prompts, |d.prompts|) + PickItems(K, c, n))
      {
        DependOn(Cho(c), d.defaults[n].cond);
      }
    }

    /** _build_dep() */
    method BuildDep()
      requires ConfigOk(K) && forall i, x :: !Edge(i, x)
      modifies this
      ensures forall i, x :: Edge(i, x) <==> ItemOk(K, x) && i in DependsOn(K, x)
    {
      for n := 0 to |K.definedSyms|
        invariant forall i, x :: Edge(i, x) <==>
          x.Sym? && x.s in K.definedSyms[..n] && ItemOk(K, x) && i in DependsOn(K, x)
      {
        assert K.definedSyms[..n + 1] == K.definedSyms[..n] + [K.definedSyms[n]];
        AddSym(K.definedSyms[n]);
      }
      for c := 0 to |K.choices|
        invariant forall i, x :: Edge(i, x) <==>
          ItemOk(K, x) && (x.Sym? || x.c < c) && i in DependsOn(K, x)
      {
        AddChoice(c);
      }
    }

    /** _add_choice_deps() */
    method AddChoiceDeps()
      requires ConfigOk(K) && forall i, x :: Edge(i, x) <==> ItemOk(K, x) && i in DependsOn(K, x)
      modifies this
      ensures forall i, x :: Edge(i, x) <==> ItemOk(K, x) && i in AllDependsOn(K, x)
    {
      for c := 0 to |K.choices|
        invariant forall i, x :: Edge(i, x) <==>
          ItemOk(K, x) && i in (if x.Cho? && x.c < c then AllDependsOn(K, x) else DependsOn(K, x))
      {
        assert ChoiceDefOk(K, c);
        var syms := K.choices[c].syms;
        label before:
        for n := 0 to |syms|
          invariant forall i, x :: Edge(i, x) <==> old@before(Edge(i, x)) || (x == Cho(c) && i.Sym? && i.s in syms[..n])
        {
          Add(Sym(syms[n]), Cho(c));
        }
      }
    }
  }
}
