/**
 * The meaning of a slot, computed from scratch: the value it has when every slot
 * it may read has its own meaning. The recursion is bounded by a rank, which
 * exists when no value depends on itself.
 */
module Meaning {
  import opened Wrappers
  import opened Config
  import opened Values
  import opened Reads

  // Computations are total once everything they may read is there

  ghost predicate Has(m: Cache, R: set<Key>) {
    forall k :: k in R ==> k in m && ValOk(k, m[k])
  }

  lemma ModeTotal(K: Config, U: Users, m: Cache, c: ChoiceId)
    requires c < |K.choices| && Has(m, {Vis(Cho(c))})
    requires K.choices[c].origType == Tristate ==> Has(m, {TriOf(K.modules)})
    ensures ChoiceTri(K, U, m, c).Some?
  {
    assert Vis(Cho(c)) in m;
    if K.choices[c].origType == Tristate { assert TriOf(K.modules) in {TriOf(K.modules)}; }
  }

  lemma {:induction false} EvalTotal(K: Config, U: Users, m: Cache, e: Expr)
    requires ExprOk(K, e) && Has(m, ExprReads(K, e))
    ensures Eval(K, U, m, e).Some?
  {
    match e
    case Leaf(Sym(s)) => assert TriOf(s) in ExprReads(K, e);
    case Leaf(Cho(c)) =>
      assert Vis(Cho(c)) in ExprReads(K, e);
      ModeTotal(K, U, m, c);
    case And(l, r) => EvalTotal(K, U, m, l); EvalTotal(K, U, m, r);
    case Or(l, r) => EvalTotal(K, U, m, l); EvalTotal(K, U, m, r);
    case Not(a) => EvalTotal(K, U, m, a);
    case Compare(_, a, b) =>
      assert TriOf(a) in m && StrOf(a) in m && TriOf(b) in m && StrOf(b) in m;
  }

  lemma {:induction false} PromptTotal(K: Config, U: Users, m: Cache, ps: seq<Option<Expr>>, n: nat)
    requires PromptsOk(K, ps) && n <= |ps| && Has(m, PromptReads(K, ps))
    ensures PromptVis(K, U, m, ps, n).Some?
  {
    if n == 0 {
    } else {
      PromptTotal(K, U, m, ps, n - 1);
      if ps[n - 1].Some? {
        assert ExprReads(K, ps[n - 1].value) <= PromptReads(K, ps);
        EvalTotal(K, U, m, ps[n - 1].value);
      }
    }
  }

  lemma {:induction false} ActiveDefaultTotal(K: Config, U: Users, m: Cache, t: Type, ds: seq<Default>, i: nat)
    requires DefaultsOk(K, t, ds) && i <= |ds| && Has(m, DefaultReads(K, t, ds))
    ensures var a := ActiveDefault(K, U, m, t, ds, i); a.Some? && i <= a.value <= |ds|
    decreases |ds| - i
  {
    if i < |ds| {
      assert ExprReads(K, ds[i].cond) <= DefaultReads(K, t, ds);
      EvalTotal(K, U, m, ds[i].cond);
      ActiveDefaultTotal(K, U, m, t, ds, i + 1);
    }
  }

  lemma DefaultTriTotal(K: Config, U: Users, m: Cache, t: Type, ds: seq<Default>)
    requires DefaultsOk(K, t, ds) && Boolish(t) && Has(m, DefaultReads(K, t, ds))
    ensures DefaultTri(K, U, m, t, ds).Some?
  {
    ActiveDefaultTotal(K, U, m, t, ds, 0);
    var i := ActiveDefault(K, U, m, t, ds, 0).value;
    if i < |ds| {
      assert ExprReads(K, ds[i].cond) <= DefaultReads(K, t, ds);
      assert ExprReads(K, ds[i].value) <= DefaultReads(K, t, ds);
      EvalTotal(K, U, m, ds[i].cond);
      EvalTotal(K, U, m, ds[i].value);
    }
  }

  lemma DefaultStrTotal(K: Config, U: Users, m: Cache, t: Type, ds: seq<Default>)
    requires DefaultsOk(K, t, ds) && !Boolish(t) && t != Unknown && Has(m, DefaultReads(K, t, ds))
    ensures DefaultStr(K, U, m, t, ds).Some?
  {
    ActiveDefaultTotal(K, U, m, t, ds, 0);
    var i := ActiveDefault(K, U, m, t, ds, 0).value;
    if i < |ds| { assert StrOf(ds[i].value.item.s) in DefaultReads(K, t, ds); }
  }

  lemma {:induction false} RangeTotal(K: Config, U: Users, m: Cache, base: nat, rs: seq<Range>, i: nat)
    requires RangesOk(K, rs) && i <= |rs| && Has(m, RangeReads(K, rs))
    ensures ActiveRange(K, U, m, base, rs, i).Some?
    decreases |rs| - i
  {
    if i < |rs| {
      RangeHas(K, m, rs, i);
      hide RangeReads, Has;
      EvalTotal(K, U, m, rs[i].cond);
      RangeTotal(K, U, m, base, rs, i + 1);
    }
  }

  lemma RangeHas(K: Config, m: Cache, rs: seq<Range>, i: nat)
    requires RangesOk(K, rs) && i < |rs| && Has(m, RangeReads(K, rs))
    ensures Has(m, ExprReads(K, rs[i].cond)) && GetS(m, StrOf(rs[i].low)).Some? && GetS(m, StrOf(rs[i].high)).Some?
  {
    assert ExprReads(K, rs[i].cond) <= RangeReads(K, rs);
    assert StrOf(rs[i].low) in RangeReads(K, rs) && StrOf(rs[i].high) in RangeReads(K, rs);
  }

  lemma TypeTotal(K: Config, U: Users, m: Cache, s: SymId)
    requires ConfigOk(K) && SymOk(K, s) && Has(m, TypeReads(K, s))
    ensures SymType(K, U, m, s).Some? && SymDefOk(K, s)
    ensures K.syms[s].choice.Some? ==> ChoiceTri(K, U, m, K.syms[s].choice.value).Some?
  {
    assert SymDefOk(K, s);
    var d := K.syms[s];
    if d.choice.Some? {
      assert Vis(Cho(d.choice.value)) in TypeReads(K, s);
      ModeTotal(K, U, m, d.choice.value);
    }
    if d.origType == Tristate { assert TriOf(K.modules) in TypeReads(K, s); }
  }

  lemma VisTotal(K: Config, U: Users, m: Cache, i: Item)
    requires ConfigOk(K) && ItemOk(K, i) && Has(m, KeyReads(K, Vis(i)))
    ensures Body(K, U, m, Vis(i)).Some?
  {
    match i
    case Sym(s) =>
      assert SymDefOk(K, s);
      assert PromptReads(K, K.syms[s].prompts) <= KeyReads(K, Vis(i)) && TypeReads(K, s) <= KeyReads(K, Vis(i));
      PromptTotal(K, U, m, K.syms[s].prompts, |K.syms[s].prompts|);
      TypeTotal(K, U, m, s);
    case Cho(c) =>
      assert ChoiceDefOk(K, c);
      assert PromptReads(K, K.choices[c].prompts) <= KeyReads(K, Vis(i));
      PromptTotal(K, U, m, K.choices[c].prompts, |K.choices[c].prompts|);
      if K.choices[c].origType == Tristate { assert TriOf(K.modules) in KeyReads(K, Vis(i)); }
  }

  lemma DepsTotal(K: Config, U: Users, m: Cache, s: SymId)
    requires ConfigOk(K) && SymOk(K, s) && Has(m, DepReads(K, s))
    ensures SymDefOk(K, s)
    ensures Eval(K, U, m, K.syms[s].revDep).Some? && Eval(K, U, m, K.syms[s].weakRevDep).Some?
    ensures Eval(K, U, m, K.syms[s].directDep).Some?
  {
    assert SymDefOk(K, s);
    EvalTotal(K, U, m, K.syms[s].revDep);
    EvalTotal(K, U, m, K.syms[s].weakRevDep);
    EvalTotal(K, U, m, K.syms[s].directDep);
  }

  lemma TriTotal(K: Config, U: Users, m: Cache, s: SymId)
    requires ConfigOk(K) && SymOk(K, s) && Has(m, KeyReads(K, TriOf(s)))
    ensures SymTri(K, U, m, s).Some?
  {
    assert SymDefOk(K, s);
    var d := K.syms[s];
    if Boolish(d.origType) && !IsNmy(d) {
      assert Vis(Sym(s)) in KeyReads(K, TriOf(s));
      if d.choice.None? {
        DefaultTriTotal(K, U, m, d.origType, d.defaults);
        DepsTotal(K, U, m, s);
        TypeTotal(K, U, m, s);
      } else {
        assert Sel(d.choice.value) in KeyReads(K, TriOf(s));
      }
    }
  }

  lemma StrTotal(K: Config, U: Users, m: Cache, s: SymId)
    requires ConfigOk(K) && SymOk(K, s) && Has(m, KeyReads(K, StrOf(s)))
    ensures SymStr(K, U, m, s).Some?
  {
    assert SymDefOk(K, s);
    var d := K.syms[s];
    if Boolish(d.origType) {
      assert TriOf(s) in KeyReads(K, StrOf(s));
    } else if d.origType != Unknown {
      assert Vis(Sym(s)) in KeyReads(K, StrOf(s));
      DefaultStrTotal(K, U, m, d.origType, d.defaults);
      if Numeric(d.origType) { RangeTotal(K, U, m, TypeBase(d.origType), d.ranges, 0); }
    }
  }

  lemma WriteTotal(K: Config, U: Users, m: Cache, s: SymId)
    requires ConfigOk(K) && SymOk(K, s) && Has(m, KeyReads(K, WriteOf(s)))
    ensures WriteToConf(K, U, m, s).Some?
  {
    assert SymDefOk(K, s);
    var d := K.syms[s];
    if !IsNmy(d) && d.origType != Unknown {
      assert Vis(Sym(s)) in KeyReads(K, WriteOf(s));
      if Boolish(d.origType) {
        DefaultTriTotal(K, U, m, d.origType, d.defaults);
        DepsTotal(K, U, m, s);
      } else {
        DefaultStrTotal(K, U, m, d.origType, d.defaults);
      }
    }
  }

  lemma {:induction false} DefaultPickTotal(K: Config, U: Users, m: Cache, c: ChoiceId, i: nat)
    requires ConfigOk(K) && c < |K.choices| && i <= |K.choices[c].defaults| && Has(m, SelReads(K, c))
    ensures DefaultPick(K, U, m, c, i).Some?
    decreases |K.choices[c].defaults| - i
  {
    assert ChoiceDefOk(K, c);
    var ds := K.choices[c].defaults;
    if i < |ds| {
      assert ExprReads(K, ds[i].cond) <= SelReads(K, c);
      EvalTotal(K, U, m, ds[i].cond);
      DefaultPickTotal(K, U, m, c, i + 1);
      assert Vis(Sym(ds[i].sym)) in SelReads(K, c);
    }
  }

  lemma {:induction false} FirstVisibleTotal(m: Cache, syms: seq<SymId>, i: nat)
    requires i <= |syms| && forall j :: 0 <= j < |syms| ==> GetT(m, Vis(Sym(syms[j]))).Some?
    ensures FirstVisible(m, syms, i).Some?
    decreases |syms| - i
  {
    if i < |syms| { FirstVisibleTotal(m, syms, i + 1); }
  }

  lemma SelTotal(K: Config, U: Users, m: Cache, c: ChoiceId)
    requires ConfigOk(K) && c < |K.choices| && Has(m, SelReads(K, c)) && PicksOk(K, U)
    ensures Selection(K, U, m, c).Some? && SelectionFromDefaults(K, U, m, c).Some?
  {
    var syms := K.choices[c].syms;
    ModeTotal(K, U, m, c);
    DefaultPickTotal(K, U, m, c, 0);
    forall j | 0 <= j < |syms| ensures GetT(m, Vis(Sym(syms[j]))).Some? {
      assert Vis(Sym(syms[j])) in SelReads(K, c);
    }
    FirstVisibleTotal(m, syms, 0);
  }

  lemma AssignableTotal(K: Config, U: Users, m: Cache, i: Item)
    requires ConfigOk(K) && ItemOk(K, i) && Has(m, KeyReads(K, Assignable(i)))
    ensures Body(K, U, m, Assignable(i)).Some?
  {
    match i
    case Sym(s) =>
      if Boolish(K.syms[s].origType) {
        assert Vis(Sym(s)) in KeyReads(K, Assignable(i));
        DepsTotal(K, U, m, s);
        TypeTotal(K, U, m, s);
      }
    case Cho(c) =>
      assert Vis(Cho(c)) in KeyReads(K, Assignable(i));
      if K.choices[c].origType == Tristate { assert TriOf(K.modules) in KeyReads(K, Assignable(i)); }
  }

  lemma BodyTotal(K: Config, U: Users, m: Cache, k: Key)
    requires ConfigOk(K) && KeyOk(K, k) && PicksOk(K, U) && Has(m, KeyReads(K, k))
    ensures Body(K, U, m, k).Some? && ValOk(k, Body(K, U, m, k).value)
  {
    match k
    case Vis(i) => VisTotal(K, U, m, i);
    case TriOf(s) => TriTotal(K, U, m, s);
    case StrOf(s) => StrTotal(K, U, m, s);
    case WriteOf(s) => WriteTotal(K, U, m, s);
    case Sel(c) => SelTotal(K, U, m, c);
    case Assignable(i) => AssignableTotal(K, U, m, i);
  }

  lemma {:induction false} ExprReadsOk(K: Config, e: Expr)
    requires ConfigOk(K) && ExprOk(K, e)
    ensures forall j :: j in ExprReads(K, e) ==> KeyOk(K, j)
  {
    match e
    case Leaf(_) =>
    case And(l, r) => ExprReadsOk(K, l); ExprReadsOk(K, r);
    case Or(l, r) => ExprReadsOk(K, l); ExprReadsOk(K, r);
    case Not(a) => ExprReadsOk(K, a);
    case Compare(_, _, _) =>
  }

  lemma AllExprReadsOk(K: Config)
    requires ConfigOk(K)
    ensures forall e, j :: ExprOk(K, e) && j in ExprReads(K, e) ==> KeyOk(K, j)
  {
    forall e | ExprOk(K, e) ensures forall j :: j in ExprReads(K, e) ==> KeyOk(K, j) { ExprReadsOk(K, e); }
  }

  lemma DefaultReadsOk(K: Config, t: Type, ds: seq<Default>)
    requires ConfigOk(K) && DefaultsOk(K, t, ds)
    ensures forall j :: j in DefaultReads(K, t, ds) ==> KeyOk(K, j)
  {
    AllExprReadsOk(K);
  }

  lemma SelReadsOk(K: Config, c: ChoiceId)
    requires ConfigOk(K) && c < |K.choices|
    ensures forall j :: j in SelReads(K, c) ==> KeyOk(K, j)
  {
    assert ChoiceDefOk(K, c);
    AllExprReadsOk(K);
  }

  lemma SymReadsOk(K: Config, s: SymId)
    requires ConfigOk(K) && SymOk(K, s)
    ensures SymDefOk(K, s)
    ensures forall j :: j in TypeReads(K, s) + DepReads(K, s) ==> KeyOk(K, j)
    ensures forall j :: j in PromptReads(K, K.syms[s].prompts) ==> KeyOk(K, j)
    ensures forall j :: j in RangeReads(K, K.syms[s].ranges) ==> KeyOk(K, j)
  {
    assert SymDefOk(K, s);
    AllExprReadsOk(K);
  }

  lemma KeyReadsOk(K: Config, k: Key)
    requires ConfigOk(K) && KeyOk(K, k)
    ensures forall j :: j in KeyReads(K, k) ==> KeyOk(K, j)
  {
    match ItemOf(k)
    case Sym(s) =>
      SymReadsOk(K, s);
      DefaultReadsOk(K, K.syms[s].origType, K.syms[s].defaults);
    case Cho(c) =>
      assert ChoiceDefOk(K, c);
      SelReadsOk(K, c);
      AllExprReadsOk(K);
  }

  // Meaning

  /** No slot depends on itself: whatever computing k may read has a smaller rank. */
  ghost predicate Ranked(K: Config, rank: Key -> nat)
    requires ConfigOk(K)
  {
    forall k, j :: KeyOk(K, k) && j in KeyReads(K, k) ==> rank(j) < rank(k)
  }

  ghost function Value(K: Config, rank: Key -> nat, U: Users, k: Key): (v: Val)
    requires ConfigOk(K) && Ranked(K, rank) && PicksOk(K, U) && KeyOk(K, k)
    ensures ValOk(k, v)
    decreases rank(k)
  {
    KeyReadsOk(K, k);
    var m := map j | j in KeyReads(K, k) :: Value(K, rank, U, j);
    BodyTotal(K, U, m, k);
    Body(K, U, m, k).value
  }

  /** Every entry of m is what the other entries make it. */
  ghost predicate Justified(K: Config, U: Users, m: Cache)
    requires ConfigOk(K)
  {
    && (forall k :: k in m ==> KeyOk(K, k))
    && (forall k {:trigger Body(K, U, m, k)} :: k in m ==> Body(K, U, m, k) == Some(m[k]))
  }

  /** A justified map is right: each entry is the value computed from scratch. */
  lemma {:induction false} JustifiedIsRight(K: Config, rank: Key -> nat, U: Users, m: Cache, k: Key)
    requires ConfigOk(K) && Ranked(K, rank) && PicksOk(K, U) && Justified(K, U, m) && k in m
    ensures m[k] == Value(K, rank, U, k)
    decreases rank(k)
  {
    KeyReadsOk(K, k);
    var R := KeyReads(K, k);
    var v := map j | j in R :: Value(K, rank, U, j);
    forall j | j in R ensures SameAt(m, v, j) {
      if j in m { JustifiedIsRight(K, rank, U, m, j); }
    }
    Transfer(K, U, U, m, v, k);
  }

  function AllKeys(K: Config): set<Key> {
    var items := (set s | 0 <= s < |K.syms| :: Sym(s)) + (set c | 0 <= c < |K.choices| :: Cho(c));
    (set i | i in items :: Vis(i)) + (set i | i in items :: Assignable(i)) +
    (set s | 0 <= s < |K.syms| :: TriOf(s)) + (set s | 0 <= s < |K.syms| :: StrOf(s)) +
    (set s | 0 <= s < |K.syms| :: WriteOf(s)) +
    (set c | 0 <= c < |K.choices| :: Sel(c))
  }

  lemma AllKeysOk(K: Config, k: Key)
    ensures k in AllKeys(K) <==> KeyOk(K, k)
  {
  }

  /** All values of a configuration in one user state. */
  ghost predicate Solves(K: Config, U: Users, m: Cache)
    requires ConfigOk(K)
  {
    Justified(K, U, m) && forall k :: KeyOk(K, k) ==> k in m
  }

  /** The meaning of a slot follows from the meaning of what it may read. */
  lemma ValueUnfolds(K: Config, rank: Key -> nat, U: Users, m: Cache, k: Key)
    requires ConfigOk(K) && Ranked(K, rank) && PicksOk(K, U) && KeyOk(K, k)
    requires forall j :: KeyOk(K, j) ==> j in m && m[j] == Value(K, rank, U, j)
    ensures Body(K, U, m, k) == Some(Value(K, rank, U, k))
  {
    KeyReadsOk(K, k);
    var v := map j | j in KeyReads(K, k) :: Value(K, rank, U, j);
    BodyTotal(K, U, v, k);
    forall j | j in KeyReads(K, k) ensures SameAt(v, m, j) {}
    Transfer(K, U, U, v, m, k);
  }

  ghost function AllValues(K: Config, rank: Key -> nat, U: Users): (m: Cache)
    requires ConfigOk(K) && Ranked(K, rank) && PicksOk(K, U)
    ensures Solves(K, U, m)
    ensures forall k :: k in m ==> m[k] == Value(K, rank, U, k)
  {
    var m := (map k | k in (set j | j in AllKeys(K) && KeyOk(K, j)) :: Value(K, rank, U, k));
    assert forall j :: KeyOk(K, j) ==> j in m && m[j] == Value(K, rank, U, j) by {
      forall j | KeyOk(K, j) ensures j in m { AllKeysOk(K, j); }
    }
    assert Justified(K, U, m) by {
      forall k | k in m ensures Body(K, U, m, k) == Some(m[k]) { ValueUnfolds(K, rank, U, m, k); }
    }
    m
  }

  /** There is exactly one assignment of values. */
  lemma SolutionsAgree(K: Config, rank: Key -> nat, U: Users, m: Cache, m': Cache, k: Key)
    requires ConfigOk(K) && Ranked(K, rank) && PicksOk(K, U) && KeyOk(K, k)
    requires Solves(K, U, m) && Solves(K, U, m')
    ensures m[k] == m'[k]
  {
    JustifiedIsRight(K, rank, U, m, k);
    JustifiedIsRight(K, rank, U, m', k);
  }
}
