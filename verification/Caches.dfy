/** Growing a cache: what was computed on a smaller cache stays as it was. */
module Caches {
  import opened Wrappers
  import opened Config
  import opened Values
  import opened Reads
  import opened Meaning

  ghost predicate Grown(m: Cache, m': Cache) {
    forall k :: k in m ==> k in m' && m'[k] == m[k]
  }

  /** The values of n, m and y are set at creation and never dropped. */
  ghost predicate ConstantsIn(K: Config, m: Cache) {
    forall s :: 0 <= s < |K.syms| && IsNmy(K.syms[s]) ==> TriOf(s) in m
  }

  /** The initial cache. */
  function NmyValues(K: Config): (m: Cache)
    requires ConfigOk(K)
    ensures ConstantsIn(K, m) && forall k :: k in m ==> k.TriOf? && k.s < |K.syms| && IsNmy(K.syms[k.s])
    ensures forall k :: k in m ==> StrToTri(K.syms[k.s].name).Some? && m[k] == T(StrToTri(K.syms[k.s].name).value)
  {
    assert forall s :: 0 <= s < |K.syms| && IsNmy(K.syms[s]) ==> StrToTri(K.syms[s].name).Some? by {
      forall s | 0 <= s < |K.syms| && IsNmy(K.syms[s]) ensures StrToTri(K.syms[s].name).Some? {
        assert SymDefOk(K, s);
      }
    }
    var nmy := set s | 0 <= s < |K.syms| && IsNmy(K.syms[s]) :: TriOf(s);
    map k | k in nmy :: T(StrToTri(K.syms[k.s].name).value)
  }

  lemma NmyJustified(K: Config, U: Users)
    requires ConfigOk(K)
    ensures Justified(K, U, NmyValues(K)) && WritesIn(K, NmyValues(K))
  {
  }

  /** `_write_to_conf` is there whenever the value is. */
  ghost predicate WritesIn(K: Config, m: Cache) {
    (forall s :: 0 <= s < |K.syms| && Boolish(K.syms[s].origType) && !IsNmy(K.syms[s]) && TriOf(s) in m ==> WriteOf(s) in m) &&
    (forall s :: 0 <= s < |K.syms| && !Boolish(K.syms[s].origType) && K.syms[s].origType != Unknown && StrOf(s) in m ==>
      WriteOf(s) in m)
  }

  lemma EvalGrown(K: Config, U: Users, m: Cache, m': Cache, e: Expr)
    requires ExprOk(K, e) && Grown(m, m') && Eval(K, U, m, e).Some?
    ensures Eval(K, U, m', e) == Eval(K, U, m, e)
  {
    EvalTransfer(K, U, U, m, m', e);
  }

  lemma PromptGrown(K: Config, U: Users, m: Cache, m': Cache, ps: seq<Option<Expr>>, n: nat)
    requires PromptsOk(K, ps) && n <= |ps| && Grown(m, m') && PromptVis(K, U, m, ps, n).Some?
    ensures PromptVis(K, U, m', ps, n) == PromptVis(K, U, m, ps, n)
  {
    PromptTransfer(K, U, U, m, m', ps, n);
  }

  /** A computed slot can be remembered. */
  lemma AddJustified(K: Config, U: Users, m: Cache, k: Key, v: Val)
    requires ConfigOk(K) && Justified(K, U, m) && PicksOk(K, U) && KeyOk(K, k)
    requires Body(K, U, m, k) == Some(v)
    ensures Justified(K, U, m[k := v]) && Grown(m, m[k := v])
  {
    assert Grown(m, m[k := v]) by {
      if k in m { assert Body(K, U, m, k) == Some(m[k]); }
    }
    forall j | j in m[k := v] ensures KeyOk(K, j) && Body(K, U, m[k := v], j) == Some(m[k := v][j]) {
      Transfer(K, U, U, m, m[k := v], j);
    }
  }

  /** All of R is ranked below b. */
  ghost predicate Below(rank: Key -> nat, R: set<Key>, b: nat) {
    forall j :: j in R ==> rank(j) < b
  }

  lemma DefaultShape(K: Config, t: Type, ds: seq<Default>, rank: Key -> nat, b: nat)
    requires DefaultsOk(K, t, ds) && Below(rank, DefaultReads(K, t, ds), b)
    ensures forall i :: 0 <= i < |ds| ==> Below(rank, ExprReads(K, ds[i].cond), b)
  {
    forall i | 0 <= i < |ds| ensures Below(rank, ExprReads(K, ds[i].cond), b) {
      assert ExprReads(K, ds[i].cond) <= DefaultReads(K, t, ds);
    }
  }

  lemma ActiveDefaultHere(K: Config, U: Users, m: Cache, t: Type, ds: seq<Default>, i: nat)
    requires DefaultsOk(K, t, ds) && i <= |ds|
    requires i < |ds| ==> Eval(K, U, m, ds[i].cond).Some? && Eval(K, U, m, ds[i].cond) != Some(0)
    ensures ActiveDefault(K, U, m, t, ds, i) == Some(i)
  {
  }

  /** The defaults (or ranges) before index i have been found inactive. */
  ghost predicate Inactive(K: Config, U: Users, m: Cache, t: Type, ds: seq<Default>, i: nat)
    requires DefaultsOk(K, t, ds) && i <= |ds|
  {
    forall j :: 0 <= j < i ==> Eval(K, U, m, ds[j].cond) == Some(0)
  }

  lemma InactiveGrown(K: Config, U: Users, m: Cache, m': Cache, t: Type, ds: seq<Default>, i: nat)
    requires DefaultsOk(K, t, ds) && i <= |ds| && Grown(m, m') && Inactive(K, U, m, t, ds, i)
    ensures Inactive(K, U, m', t, ds, i)
  {
    forall j | 0 <= j < i ensures Eval(K, U, m', ds[j].cond) == Some(0) { EvalGrown(K, U, m, m', ds[j].cond); }
  }

  lemma {:induction false} SkipInactive(K: Config, U: Users, m: Cache, t: Type, ds: seq<Default>, i: nat, j: nat)
    requires DefaultsOk(K, t, ds) && j <= i <= |ds| && Inactive(K, U, m, t, ds, i)
    ensures ActiveDefault(K, U, m, t, ds, j) == ActiveDefault(K, U, m, t, ds, i)
    decreases i - j
  {
    if j < i { SkipInactive(K, U, m, t, ds, i, j + 1); }
  }

  ghost predicate NoRange(K: Config, U: Users, m: Cache, rs: seq<Range>, i: nat)
    requires RangesOk(K, rs) && i <= |rs|
  {
    forall j :: 0 <= j < i ==> Eval(K, U, m, rs[j].cond) == Some(0)
  }

  lemma NoRangeGrown(K: Config, U: Users, m: Cache, m': Cache, rs: seq<Range>, i: nat)
    requires RangesOk(K, rs) && i <= |rs| && Grown(m, m') && NoRange(K, U, m, rs, i)
    ensures NoRange(K, U, m', rs, i)
  {
    forall j | 0 <= j < i ensures Eval(K, U, m', rs[j].cond) == Some(0) { EvalGrown(K, U, m, m', rs[j].cond); }
  }

  lemma {:induction false} SkipRanges(K: Config, U: Users, m: Cache, base: nat, rs: seq<Range>, i: nat, j: nat)
    requires RangesOk(K, rs) && j <= i <= |rs| && NoRange(K, U, m, rs, i)
    ensures ActiveRange(K, U, m, base, rs, j) == ActiveRange(K, U, m, base, rs, i)
    decreases i - j
  {
    if j < i { SkipRanges(K, U, m, base, rs, i, j + 1); }
  }

  /** Whether a default of a choice is active and its symbol visible, as far as that was looked at. */
  ghost predicate Applies(K: Config, U: Users, m: Cache, d: Pick, yes: bool)
    requires ExprOk(K, d.cond)
  {
    var cond := Eval(K, U, m, d.cond);
    var vis := GetT(m, Vis(Sym(d.sym)));
    cond.Some? &&
    if yes then cond.value != 0 && vis.Some? && vis.value != 0 else cond.value == 0 || vis == Some(0)
  }

  /** The defaults of a choice before index i do not give its selection. */
  ghost predicate Passed(K: Config, U: Users, m: Cache, c: ChoiceId, i: nat)
    requires ConfigOk(K) && c < |K.choices| && i <= |K.choices[c].defaults| && ChoiceDefOk(K, c)
  {
    forall j :: 0 <= j < i ==> Applies(K, U, m, K.choices[c].defaults[j], false)
  }

  lemma PassedGrown(K: Config, U: Users, m: Cache, m': Cache, c: ChoiceId, i: nat)
    requires ConfigOk(K) && c < |K.choices| && i <= |K.choices[c].defaults| && ChoiceDefOk(K, c)
    requires Grown(m, m') && Passed(K, U, m, c, i)
    ensures Passed(K, U, m', c, i)
  {
    var ds := K.choices[c].defaults;
    forall j | 0 <= j < i ensures Applies(K, U, m', ds[j], false) {
      assert Applies(K, U, m, ds[j], false);
      EvalGrown(K, U, m, m', ds[j].cond);
    }
  }

  lemma {:induction false} SkipPassed(K: Config, U: Users, m: Cache, c: ChoiceId, i: nat, j: nat)
    requires ConfigOk(K) && c < |K.choices| && j <= i <= |K.choices[c].defaults| && ChoiceDefOk(K, c)
    requires Passed(K, U, m, c, i)
    ensures DefaultPick(K, U, m, c, j) == DefaultPick(K, U, m, c, i)
    decreases i - j
  {
    if j < i { assert Applies(K, U, m, K.choices[c].defaults[j], false); SkipPassed(K, U, m, c, i, j + 1); }
  }

  lemma DefaultPickHere(K: Config, U: Users, m: Cache, c: ChoiceId, i: nat)
    requires ConfigOk(K) && c < |K.choices| && i <= |K.choices[c].defaults| && ChoiceDefOk(K, c)
    ensures i == |K.choices[c].defaults| ==> DefaultPick(K, U, m, c, i) == Some(None)
    ensures i < |K.choices[c].defaults| && Applies(K, U, m, K.choices[c].defaults[i], true) ==>
      DefaultPick(K, U, m, c, i) == Some(Some(K.choices[c].defaults[i].sym))
  {
  }

  ghost predicate Invisible(m: Cache, syms: seq<SymId>, i: nat)
    requires i <= |syms|
  {
    forall j :: 0 <= j < i ==> GetT(m, Vis(Sym(syms[j]))) == Some(0)
  }

  lemma {:induction false} SkipInvisible(m: Cache, syms: seq<SymId>, i: nat, j: nat)
    requires j <= i <= |syms| && Invisible(m, syms, i)
    ensures FirstVisible(m, syms, j) == FirstVisible(m, syms, i)
    decreases i - j
  {
    if j < i { SkipInvisible(m, syms, i, j + 1); }
  }

  lemma FirstVisibleHere(m: Cache, syms: seq<SymId>, i: nat)
    requires i <= |syms|
    ensures i == |syms| ==> FirstVisible(m, syms, i) == Some(None)
    ensures i < |syms| && GetT(m, Vis(Sym(syms[i]))).Some? && GetT(m, Vis(Sym(syms[i]))) != Some(0) ==>
      FirstVisible(m, syms, i) == Some(Some(syms[i]))
  {
  }

  /** What a selection may look at. */
  lemma ChoiceShape(K: Config, c: ChoiceId, rank: Key -> nat, b: nat)
    requires ConfigOk(K) && c < |K.choices| && Below(rank, SelReads(K, c), b)
    ensures ChoiceDefOk(K, c)
    ensures forall j :: 0 <= j < |K.choices[c].syms| ==>
      SymOk(K, K.choices[c].syms[j]) && rank(Vis(Sym(K.choices[c].syms[j]))) < b
    ensures forall j :: 0 <= j < |K.choices[c].defaults| ==>
      SymOk(K, K.choices[c].defaults[j].sym) && rank(Vis(Sym(K.choices[c].defaults[j].sym))) < b
    ensures forall j :: 0 <= j < |K.choices[c].defaults| ==>
      Below(rank, ExprReads(K, K.choices[c].defaults[j].cond), b)
  {
    assert ChoiceDefOk(K, c);
    var d := K.choices[c];
    forall j | 0 <= j < |d.syms| ensures rank(Vis(Sym(d.syms[j]))) < b {
      assert Vis(Sym(d.syms[j])) in SelReads(K, c);
    }
    forall j | 0 <= j < |d.defaults| ensures rank(Vis(Sym(d.defaults[j].sym))) < b {
      assert Vis(Sym(d.defaults[j].sym)) in SelReads(K, c);
    }
  }

  /** What `assignable` of a symbol may look at. */
  lemma AssignableShape(K: Config, s: SymId, rank: Key -> nat)
    requires ConfigOk(K) && SymOk(K, s) && Boolish(K.syms[s].origType) && Ranked(K, rank)
    ensures SymDefOk(K, s)
    ensures rank(Vis(Sym(s))) < rank(Assignable(Sym(s)))
    ensures Below(rank, ExprReads(K, K.syms[s].revDep), rank(Assignable(Sym(s))))
    ensures Below(rank, ExprReads(K, K.syms[s].weakRevDep), rank(Assignable(Sym(s))))
    ensures Below(rank, TypeReads(K, s), rank(Assignable(Sym(s))))
  {
    assert SymDefOk(K, s);
    var R := KeyReads(K, Assignable(Sym(s)));
    assert Below(rank, R, rank(Assignable(Sym(s))));
    assert Vis(Sym(s)) in R;
    assert ExprReads(K, K.syms[s].revDep) <= R && ExprReads(K, K.syms[s].weakRevDep) <= R && TypeReads(K, s) <= R;
  }
}
