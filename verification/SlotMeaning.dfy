/**
 * What the values of symbols and choices are in a state whose values are all known, each
 * stated by what makes it n, m or y, or by which property decides it, and not by how it is
 * computed.
 */
module SlotMeaning {
  import opened Wrappers
  import opened Numerals
  import opened Config
  import opened Values
  import opened Reads
  import opened Meaning
  import opened Invalidation
  import opened ValueLaws
  import opened ExprMeaning

  /** All reads of the computation of k are known. */
  lemma ReadsKnown(K: Config, U: Users, m: Cache, k: Key)
    requires ConfigOk(K) && Solves(K, U, m) && KeyOk(K, k)
    ensures Has(m, KeyReads(K, k)) && Known(K, U, m, k)
  {
    KeyReadsOk(K, k);
    forall j | j in KeyReads(K, k) ensures j in m && ValOk(j, m[j]) { SolutionKnows(K, U, m, j); }
    SolutionKnows(K, U, m, k);
  }

  // Types and modes

  /** Whether modules are enabled. */
  ghost predicate ModulesOn(K: Config, m: Cache) { GetT(m, TriOf(K.modules)) != Some(0) }

  /** A choice, or a symbol outside choices, that can be m. */
  ghost predicate TristateChoice(K: Config, m: Cache, c: ChoiceId) {
    c < |K.choices| && K.choices[c].origType == Tristate && ModulesOn(K, m)
  }

  ghost predicate BoolChoice(K: Config, m: Cache, c: ChoiceId) {
    c < |K.choices| && (K.choices[c].origType == Bool || (K.choices[c].origType == Tristate && !ModulesOn(K, m)))
  }

  /** The mode of a choice, as the value of an expression. */
  ghost function Mode(K: Config, U: Users, m: Cache, c: ChoiceId): Tri
    requires c < |K.choices|
  {
    Truth(K, U, m, Leaf(Cho(c)))
  }

  /** A tristate symbol is of type bool without modules, and in a choice in y mode. */
  ghost predicate CanBeM(K: Config, U: Users, m: Cache, s: SymId)
    requires ConfigOk(K) && SymOk(K, s)
  {
    assert SymDefOk(K, s);
    var d := K.syms[s];
    d.origType == Tristate && ModulesOn(K, m) && (d.choice.Some? ==> Mode(K, U, m, d.choice.value) != 2)
  }

  lemma TypeMeans(K: Config, U: Users, m: Cache, s: SymId)
    requires ConfigOk(K) && Solves(K, U, m) && SymOk(K, s)
    ensures SymType(K, U, m, s) ==
      Some(if K.syms[s].origType == Tristate && !CanBeM(K, U, m, s) then Bool else K.syms[s].origType)
  {
    assert SymDefOk(K, s);
    SolutionKnows(K, U, m, TriOf(K.modules));
    if K.syms[s].choice.Some? {
      ModeKnown(K, U, m, K.syms[s].choice.value);
      TruthIsEval(K, U, m, Leaf(Cho(K.syms[s].choice.value)));
    }
  }

  /**
   * The mode of a choice is n if the choice is invisible, or if it is optional and the user
   * has not set a mode. A bool choice is in y mode otherwise; any other one only if the user
   * has set y and it is y-visible.
   */
  lemma ModeMeans(K: Config, U: Users, m: Cache, c: ChoiceId)
    requires ConfigOk(K) && Solves(K, U, m) && c < |K.choices|
    ensures Known(K, U, m, Vis(Cho(c)))
    ensures
      var vis, want := m[Vis(Cho(c))].t, if c in U.mode then U.mode[c] else 0;
      && (Mode(K, U, m, c) == 0 <==> vis == 0 || (K.choices[c].isOptional && want == 0))
      && (Mode(K, U, m, c) == 2 <==> Mode(K, U, m, c) != 0 && (BoolChoice(K, m, c) || (vis == 2 && want == 2)))
  {
    SolutionKnows(K, U, m, Vis(Cho(c)));
    SolutionKnows(K, U, m, TriOf(K.modules));
    TruthIsEval(K, U, m, Leaf(Cho(c)));
    assert ChoiceDefOk(K, c);
    var vis := m[Vis(Cho(c))].t;
    assert BoolChoice(K, m, c) ==> vis != 1;
  }

  // Visibility

  /** p is the greatest of the prompt conditions; n if there is no prompt. */
  ghost predicate IsPromptMax(K: Config, U: Users, m: Cache, ps: seq<Option<Expr>>, p: Tri)
    requires PromptsOk(K, ps)
  {
    && (forall i :: 0 <= i < |ps| && ps[i].Some? ==> Truth(K, U, m, ps[i].value) <= p)
    && (p == 0 || exists i :: 0 <= i < |ps| && ps[i].Some? && Truth(K, U, m, ps[i].value) == p)
  }

  lemma {:induction false} PromptVisIsMax(K: Config, U: Users, m: Cache, ps: seq<Option<Expr>>, n: nat)
    requires ConfigOk(K) && Solves(K, U, m) && PromptsOk(K, ps) && n <= |ps|
    ensures PromptVis(K, U, m, ps, n).Some? && IsPromptMax(K, U, m, ps[..n], PromptVis(K, U, m, ps, n).value)
  {
    if n == 0 {
    } else {
      PromptVisIsMax(K, U, m, ps, n - 1);
      if ps[n - 1].Some? { TruthIsEval(K, U, m, ps[n - 1].value); }
      MaxNext(K, U, m, ps, n, PromptVis(K, U, m, ps, n - 1).value, PromptVis(K, U, m, ps, n).value);
    }
  }

  lemma MaxNext(K: Config, U: Users, m: Cache, ps: seq<Option<Expr>>, n: nat, p: Tri, q: Tri)
    requires PromptsOk(K, ps) && 0 < n <= |ps| && IsPromptMax(K, U, m, ps[..n - 1], p)
    requires ps[n - 1].None? ==> q == p
    requires ps[n - 1].Some? ==> q == Max(p, Truth(K, U, m, ps[n - 1].value))
    ensures IsPromptMax(K, U, m, ps[..n], q)
  {
    var before, all := ps[..n - 1], ps[..n];
    assert all == before + [ps[n - 1]];
    if q == p && p != 0 {
      var i :| 0 <= i < |before| && before[i].Some? && Truth(K, U, m, before[i].value) == p;
      assert all[i] == before[i];
    }
    forall i | 0 <= i < |all| && all[i].Some? ensures Truth(K, U, m, all[i].value) <= q {
      if i < n - 1 { assert before[i] == all[i]; }
    }
  }

  /** A choice symbol is hidden if its tristate choice is not in y mode but it is not tristate, or if it could only be m in y mode. */
  ghost predicate Hidden(K: Config, U: Users, m: Cache, s: SymId, p: Tri)
    requires ConfigOk(K) && SymOk(K, s)
  {
    assert SymDefOk(K, s);
    var d := K.syms[s];
    d.choice.Some? &&
    if d.origType != Tristate then
      K.choices[d.choice.value].origType == Tristate && Mode(K, U, m, d.choice.value) != 2
    else p == 1 && Mode(K, U, m, d.choice.value) == 2
  }

  /** The visibility of a symbol: the greatest prompt condition, n if hidden, and y for m if it cannot be m. */
  lemma VisibilityMeans(K: Config, U: Users, m: Cache, s: SymId, p: Tri)
    requires ConfigOk(K) && Solves(K, U, m) && SymOk(K, s) && SymDefOk(K, s)
    requires IsPromptMax(K, U, m, K.syms[s].prompts, p)
    ensures Known(K, U, m, Vis(Sym(s)))
    ensures m[Vis(Sym(s))].t == 0 <==> p == 0 || Hidden(K, U, m, s, p)
    ensures m[Vis(Sym(s))].t == 1 <==> p == 1 && !Hidden(K, U, m, s, p) && CanBeM(K, U, m, s)
  {
    SolutionKnows(K, U, m, Vis(Sym(s)));
    TypeMeans(K, U, m, s);
    var d := K.syms[s];
    if d.choice.Some? { TruthIsEval(K, U, m, Leaf(Cho(d.choice.value))); }
    PromptMaxIs(K, U, m, d.prompts, p);
  }

  lemma PromptMaxIs(K: Config, U: Users, m: Cache, ps: seq<Option<Expr>>, p: Tri)
    requires ConfigOk(K) && Solves(K, U, m) && PromptsOk(K, ps) && IsPromptMax(K, U, m, ps, p)
    ensures PromptVis(K, U, m, ps, |ps|) == Some(p)
  {
    PromptVisIsMax(K, U, m, ps, |ps|);
    assert ps[..|ps|] == ps;
    var q := PromptVis(K, U, m, ps, |ps|).value;
    hide PromptVis;
    MaxIsUnique(K, U, m, ps, p, q);
  }

  lemma MaxIsUnique(K: Config, U: Users, m: Cache, ps: seq<Option<Expr>>, p: Tri, q: Tri)
    requires PromptsOk(K, ps) && IsPromptMax(K, U, m, ps, p) && IsPromptMax(K, U, m, ps, q)
    ensures p == q
  {
    hide Truth, ExprOk;
  }

  lemma ChoiceVisibilityMeans(K: Config, U: Users, m: Cache, c: ChoiceId, p: Tri)
    requires ConfigOk(K) && Solves(K, U, m) && c < |K.choices| && ChoiceDefOk(K, c)
    requires IsPromptMax(K, U, m, K.choices[c].prompts, p)
    ensures Known(K, U, m, Vis(Cho(c)))
    ensures m[Vis(Cho(c))].t == 0 <==> p == 0
    ensures m[Vis(Cho(c))].t == 1 <==> p == 1 && TristateChoice(K, m, c)
  {
    SolutionKnows(K, U, m, Vis(Cho(c)));
    SolutionKnows(K, U, m, TriOf(K.modules));
    PromptMaxIs(K, U, m, K.choices[c].prompts, p);
  }

  // Defaults

  /** i is the first default whose condition is met; none is if i is the number of defaults. */
  ghost predicate FirstMet(K: Config, U: Users, m: Cache, t: Type, ds: seq<Default>, i: nat)
    requires DefaultsOk(K, t, ds)
  {
    && i <= |ds| && (forall j :: 0 <= j < i ==> Truth(K, U, m, ds[j].cond) == 0)
    && (i < |ds| ==> Truth(K, U, m, ds[i].cond) != 0)
  }

  lemma {:induction false} FirstMetIsActive(K: Config, U: Users, m: Cache, t: Type, ds: seq<Default>, i: nat, n: nat)
    requires ConfigOk(K) && Solves(K, U, m) && DefaultsOk(K, t, ds) && FirstMet(K, U, m, t, ds, i) && n <= i
    ensures ActiveDefault(K, U, m, t, ds, n) == Some(i)
    decreases i - n
  {
    if n < |ds| { TruthIsEval(K, U, m, ds[n].cond); }
    if n < i { FirstMetIsActive(K, U, m, t, ds, i, n + 1); }
  }

  lemma {:induction false} SomeDefaultIsFirst(K: Config, U: Users, m: Cache, t: Type, ds: seq<Default>, n: nat) returns (i: nat)
    requires DefaultsOk(K, t, ds) && n <= |ds| && forall j :: 0 <= j < n ==> Truth(K, U, m, ds[j].cond) == 0
    ensures FirstMet(K, U, m, t, ds, i)
    decreases |ds| - n
  {
    if n == |ds| || Truth(K, U, m, ds[n].cond) != 0 {
      i := n;
    } else {
      i := SomeDefaultIsFirst(K, U, m, t, ds, n + 1);
    }
  }

  // Bool and tristate symbols

  /** The user has set the symbol, which is visible. */
  ghost predicate UserAsks(U: Users, m: Cache, s: SymId) {
    s in U.sym && U.sym[s].TriVal? && GetT(m, Vis(Sym(s))) != Some(0)
  }

  /**
   * Some property makes the value of a symbol outside choices at least v: a select, the
   * user, or else the first default whose condition is met or an imply whose dependencies are.
   */
  ghost predicate Reaches(K: Config, U: Users, m: Cache, s: SymId, i: nat, v: Tri)
    requires ConfigOk(K) && SymOk(K, s) && SymDefOk(K, s) && GetT(m, Vis(Sym(s))).Some?
  {
    var d := K.syms[s];
    || Truth(K, U, m, d.revDep) >= v
    || if UserAsks(U, m, s) then U.sym[s].t >= v && GetT(m, Vis(Sym(s))).value >= v
       else
         || (i < |d.defaults| && Truth(K, U, m, d.defaults[i].value) >= v && Truth(K, U, m, d.defaults[i].cond) >= v)
         || (Truth(K, U, m, d.weakRevDep) >= v && Truth(K, U, m, d.directDep) != 0)
  }

  /**
   * A symbol outside choices has the greatest value that something makes it reach, but y for m
   * if it cannot be m or is implied to y.
   */
  lemma TriMeans(K: Config, U: Users, m: Cache, s: SymId, i: nat)
    requires ConfigOk(K) && Solves(K, U, m) && SymOk(K, s) && SymDefOk(K, s)
    requires Boolish(K.syms[s].origType) && !IsNmy(K.syms[s]) && K.syms[s].choice.None?
    requires FirstMet(K, U, m, K.syms[s].origType, K.syms[s].defaults, i)
    ensures Known(K, U, m, TriOf(s)) && Known(K, U, m, Vis(Sym(s)))
    ensures m[TriOf(s)].t != 0 <==> Reaches(K, U, m, s, i, 1)
    ensures m[TriOf(s)].t == 2 <==>
      || Reaches(K, U, m, s, i, 2)
      || (Reaches(K, U, m, s, i, 1) && (!CanBeM(K, U, m, s) || Truth(K, U, m, K.syms[s].weakRevDep) == 2))
  {
    var d := K.syms[s];
    SolutionKnows(K, U, m, TriOf(s));
    SolutionKnows(K, U, m, Vis(Sym(s)));
    PartsMean(K, U, m, s, i);
    hide CanBeM, Eval, Truth, SymType, WantedTri, SelectTri, ConfigOk, Solves, SymDefOk, FirstMet;
  }

  lemma PartsMean(K: Config, U: Users, m: Cache, s: SymId, i: nat)
    requires ConfigOk(K) && Solves(K, U, m) && SymOk(K, s) && SymDefOk(K, s) && GetT(m, Vis(Sym(s))).Some?
    requires Boolish(K.syms[s].origType) && FirstMet(K, U, m, K.syms[s].origType, K.syms[s].defaults, i)
    ensures SymType(K, U, m, s) == Some(if CanBeM(K, U, m, s) then Tristate else Bool)
    ensures Eval(K, U, m, K.syms[s].weakRevDep) == Some(Truth(K, U, m, K.syms[s].weakRevDep))
    ensures SelectTri(K, U, m, s) == Some(Truth(K, U, m, K.syms[s].revDep))
    ensures
      var d, vis := K.syms[s], GetT(m, Vis(Sym(s))).value;
      var def := if i < |d.defaults| then Min(Truth(K, U, m, d.defaults[i].value), Truth(K, U, m, d.defaults[i].cond)) else 0;
      WantedTri(K, U, m, s, vis) ==
        Some(if UserAsks(U, m, s) then Min(U.sym[s].t, vis)
             else if Truth(K, U, m, d.directDep) != 0 then Max(Truth(K, U, m, d.weakRevDep), def) else def)
  {
    var d := K.syms[s];
    TypeMeans(K, U, m, s);
    TruthIsEval(K, U, m, d.revDep);
    TruthIsEval(K, U, m, d.weakRevDep);
    TruthIsEval(K, U, m, d.directDep);
    DefaultTriMeans(K, U, m, d.origType, d.defaults, i);
    hide CanBeM, Eval, Truth, SymType, DefaultTri, ConfigOk, Solves, SymDefOk, FirstMet;
  }

  lemma DefaultTriMeans(K: Config, U: Users, m: Cache, t: Type, ds: seq<Default>, i: nat)
    requires ConfigOk(K) && Solves(K, U, m) && DefaultsOk(K, t, ds) && FirstMet(K, U, m, t, ds, i)
    ensures DefaultTri(K, U, m, t, ds) ==
      Some(if i < |ds| then Min(Truth(K, U, m, ds[i].value), Truth(K, U, m, ds[i].cond)) else 0)
  {
    FirstMetIsActive(K, U, m, t, ds, i, 0);
    if i < |ds| {
      TruthIsEval(K, U, m, ds[i].cond);
      TruthIsEval(K, U, m, ds[i].value);
    }
  }

  /** A choice symbol is y exactly if it is y-visible and selected, and m exactly if it is m-visible and the user has set it. */
  lemma ChoiceSymMeans(K: Config, U: Users, m: Cache, s: SymId)
    requires ConfigOk(K) && Solves(K, U, m) && SymOk(K, s) && Boolish(K.syms[s].origType) && K.syms[s].choice.Some?
    ensures Known(K, U, m, TriOf(s)) && Known(K, U, m, Vis(Sym(s))) && Known(K, U, m, Sel(K.syms[s].choice.value))
    ensures m[TriOf(s)].t == 2 <==> m[Vis(Sym(s))].t == 2 && m[Sel(K.syms[s].choice.value)] == P(Some(s))
    ensures m[TriOf(s)].t == 1 <==> m[Vis(Sym(s))].t == 1 && UserAsks(U, m, s) && U.sym[s].t != 0
  {
    assert SymDefOk(K, s);
    SolutionKnows(K, U, m, TriOf(s));
    SolutionKnows(K, U, m, Vis(Sym(s)));
    SolutionKnows(K, U, m, Sel(K.syms[s].choice.value));
  }

  /** The constants are what they are called, and symbols of other types are n. */
  lemma OtherTriMeans(K: Config, U: Users, m: Cache, s: SymId)
    requires ConfigOk(K) && Solves(K, U, m) && SymOk(K, s)
    ensures Known(K, U, m, TriOf(s)) && Known(K, U, m, StrOf(s))
    ensures !Boolish(K.syms[s].origType) ==> m[TriOf(s)].t == 0
    ensures IsNmy(K.syms[s]) ==> m[StrOf(s)].str == K.syms[s].name
    ensures Boolish(K.syms[s].origType) ==> m[StrOf(s)].str == ["n", "m", "y"][m[TriOf(s)].t]
    ensures K.syms[s].origType == Unknown ==> m[StrOf(s)].str == K.syms[s].name
  {
    assert SymDefOk(K, s);
    SolutionKnows(K, U, m, TriOf(s));
    SolutionKnows(K, U, m, StrOf(s));
  }

  // Strings and numbers

  /** The text that the first default whose condition is met stands for. */
  ghost predicate DefaultText(K: Config, U: Users, m: Cache, s: SymId, i: nat, text: string)
    requires ConfigOk(K) && SymOk(K, s) && SymDefOk(K, s) && K.syms[s].origType in {String, Int, Hex}
  {
    var ds := K.syms[s].defaults;
    && FirstMet(K, U, m, K.syms[s].origType, ds, i)
    && if i < |ds| then GetS(m, StrOf(ds[i].value.item.s)) == Some(text) else text == ""
  }

  lemma DefaultStrMeans(K: Config, U: Users, m: Cache, s: SymId, i: nat, text: string)
    requires ConfigOk(K) && Solves(K, U, m) && SymOk(K, s) && SymDefOk(K, s) && K.syms[s].origType in {String, Int, Hex}
    requires DefaultText(K, U, m, s, i, text)
    ensures DefaultStr(K, U, m, K.syms[s].origType, K.syms[s].defaults) == Some(if i < |K.syms[s].defaults| then Some(text) else None)
  {
    FirstMetIsActive(K, U, m, K.syms[s].origType, K.syms[s].defaults, i, 0);
  }

  ghost predicate UserWrites(U: Users, m: Cache, s: SymId) {
    s in U.sym && U.sym[s].StrVal? && GetT(m, Vis(Sym(s))) != Some(0)
  }

  /** A string is what the user has set if it is visible, and its default otherwise. */
  lemma TextMeans(K: Config, U: Users, m: Cache, s: SymId, i: nat, text: string)
    requires ConfigOk(K) && Solves(K, U, m) && SymOk(K, s) && SymDefOk(K, s) && K.syms[s].origType == String
    requires DefaultText(K, U, m, s, i, text)
    ensures m.Keys >= {StrOf(s)} && m[StrOf(s)] == S(if UserWrites(U, m, s) then U.sym[s].str else text)
  {
    SolutionKnows(K, U, m, StrOf(s));
    SolutionKnows(K, U, m, Vis(Sym(s)));
    DefaultStrMeans(K, U, m, s, i, text);
  }

  /** The numbers low and high bound a symbol: the first range whose condition is met says so. */
  ghost predicate Bounded(K: Config, U: Users, m: Cache, s: SymId, r: nat, low: int, high: int)
    requires ConfigOk(K) && SymOk(K, s) && SymDefOk(K, s)
  {
    var rs := K.syms[s].ranges;
    && r < |rs| && (forall j :: 0 <= j < r ==> Truth(K, U, m, rs[j].cond) == 0) && Truth(K, U, m, rs[r].cond) != 0
    && StandsFor(K, m, s, StrOf(rs[r].low), low) && StandsFor(K, m, s, StrOf(rs[r].high), high)
  }

  /** The number that a text stands for where s is concerned; 0 for what is no numeral. */
  ghost predicate StandsFor(K: Config, m: Cache, s: SymId, k: Key, n: int)
    requires SymOk(K, s)
  {
    GetS(m, k).Some? && IsNumber(K, s, GetS(m, k).value, n)
  }

  ghost predicate IsNumber(K: Config, s: SymId, text: string, n: int)
    requires SymOk(K, s)
  {
    var x := ParseInt(text, if K.syms[s].origType == Hex then 16 else 10);
    x == Some(n) || (x.None? && n == 0)
  }

  ghost predicate Unbounded(K: Config, U: Users, m: Cache, s: SymId)
    requires ConfigOk(K) && SymOk(K, s) && SymDefOk(K, s)
  {
    forall j :: 0 <= j < |K.syms[s].ranges| ==> Truth(K, U, m, K.syms[s].ranges[j].cond) == 0
  }

  lemma {:induction false} RangeMeans(K: Config, U: Users, m: Cache, s: SymId, r: nat, low: int, high: int, n: nat)
    requires ConfigOk(K) && Solves(K, U, m) && SymOk(K, s) && SymDefOk(K, s) && Numeric(K.syms[s].origType)
    requires Bounded(K, U, m, s, r, low, high) && n <= r
    ensures ActiveRange(K, U, m, TypeBase(K.syms[s].origType), K.syms[s].ranges, n) == Some(Some((low, high)))
    decreases r - n
  {
    TruthIsEval(K, U, m, K.syms[s].ranges[n].cond);
    if n < r { RangeMeans(K, U, m, s, r, low, high, n + 1); }
  }

  lemma {:induction false} NoRangeMeans(K: Config, U: Users, m: Cache, s: SymId, n: nat)
    requires ConfigOk(K) && Solves(K, U, m) && SymOk(K, s) && SymDefOk(K, s)
    requires Unbounded(K, U, m, s) && n <= |K.syms[s].ranges|
    ensures ActiveRange(K, U, m, TypeBase(K.syms[s].origType), K.syms[s].ranges, n) == Some(None)
    decreases |K.syms[s].ranges| - n
  {
    if n < |K.syms[s].ranges| {
      TruthIsEval(K, U, m, K.syms[s].ranges[n].cond);
      NoRangeMeans(K, U, m, s, n + 1);
    }
  }

  /** Without an active range a number is what the user has set if it is visible, and its default otherwise. */
  lemma FreeNumberMeans(K: Config, U: Users, m: Cache, s: SymId, i: nat, text: string)
    requires ConfigOk(K) && Solves(K, U, m) && SymOk(K, s) && SymDefOk(K, s) && Numeric(K.syms[s].origType)
    requires DefaultText(K, U, m, s, i, text) && Unbounded(K, U, m, s)
    ensures m.Keys >= {StrOf(s)} &&
      m[StrOf(s)] == S(if UserWrites(U, m, s) && U.sym[s].str != "" then U.sym[s].str else text)
  {
    NoRangeMeans(K, U, m, s, 0);
    NumberIs(K, U, m, s, i, text, None);
  }

  /**
   * With a range from low to high, a number is what the user has set if it is visible and the
   * number is in the range; the default as it is if that is in the range; and otherwise the
   * end of the range that the default is beyond, written anew.
   */
  lemma BoundedNumberMeans(
    K: Config, U: Users, m: Cache, s: SymId, i: nat, text: string, n: int, r: nat, low: int, high: int)
    requires ConfigOk(K) && Solves(K, U, m) && SymOk(K, s) && SymDefOk(K, s) && Numeric(K.syms[s].origType)
    requires DefaultText(K, U, m, s, i, text) && IsNumber(K, s, text, n) && Bounded(K, U, m, s, r, low, high)
    ensures m.Keys >= {StrOf(s)} && m[StrOf(s)].S?
    ensures
      var val, base := m[StrOf(s)].str, if K.syms[s].origType == Hex then 16 else 10;
      if UserWrites(U, m, s) && U.sym[s].str != "" && (exists u :: IsNumber(K, s, U.sym[s].str, u) && low <= u <= high) then
        val == U.sym[s].str
      else
        && (low <= n <= high ==> val == text)
        && (n < low ==> ParseInt(val, base) == Some(low))
        && (low <= n && high < n ==> ParseInt(val, base) == Some(high))
  {
    RangeMeans(K, U, m, s, r, low, high, 0);
    NumberIs(K, U, m, s, i, text, Some((low, high)));
    var base := if K.syms[s].origType == Hex then 16 else 10;
    hide ConfigOk, Solves, SymDefOk, ActiveRange, DefaultText, Bounded, ParseInt;
    PrintedIntReads(low, base);
    PrintedIntReads(high, base);
    if UserWrites(U, m, s) {
      assert IsNumber(K, s, U.sym[s].str, NumOrZero(U.sym[s].str, base));
      assert forall u :: IsNumber(K, s, U.sym[s].str, u) ==> u == NumOrZero(U.sym[s].str, base);
    }
  }

  lemma NumberIs(K: Config, U: Users, m: Cache, s: SymId, i: nat, text: string, range: Option<(int, int)>)
    requires ConfigOk(K) && Solves(K, U, m) && SymOk(K, s) && SymDefOk(K, s) && Numeric(K.syms[s].origType)
    requires DefaultText(K, U, m, s, i, text)
    requires ActiveRange(K, U, m, TypeBase(K.syms[s].origType), K.syms[s].ranges, 0) == Some(range)
    ensures m.Keys >= {StrOf(s)}
    ensures
      var base := TypeBase(K.syms[s].origType);
      m[StrOf(s)] == S(if UserWrites(U, m, s) && U.sym[s].str != "" && InRange(range, NumOrZero(U.sym[s].str, base))
                       then U.sym[s].str else Clamp(range, base, text))
  {
    SolutionKnows(K, U, m, StrOf(s));
    SolutionKnows(K, U, m, Vis(Sym(s)));
    DefaultStrMeans(K, U, m, s, i, text);
    hide ActiveRange, DefaultStr, Clamp, NumOrZero, ConfigOk, Solves, DefaultText;
  }

  // Selections

  /** s is the first symbol of the choice that is visible. */
  ghost predicate IsFirstVisible(K: Config, m: Cache, c: ChoiceId, j: nat)
    requires c < |K.choices|
  {
    var syms := K.choices[c].syms;
    && j < |syms| && Shown(m, syms[j]) && (forall k :: 0 <= k < j ==> !Shown(m, syms[k]))
  }

  ghost predicate Shown(m: Cache, s: SymId) { GetT(m, Vis(Sym(s))) != Some(0) }

  ghost predicate PickApplies(K: Config, U: Users, m: Cache, d: Pick)
    requires ExprOk(K, d.cond)
  {
    Truth(K, U, m, d.cond) != 0 && Shown(m, d.sym)
  }

  /** The first default of the choice whose condition is met and whose symbol is visible. */
  ghost predicate IsFirstPick(K: Config, U: Users, m: Cache, c: ChoiceId, j: nat)
    requires c < |K.choices| && ChoiceDefOk(K, c)
  {
    var ds := K.choices[c].defaults;
    && j < |ds| && PickApplies(K, U, m, ds[j]) && (forall k :: 0 <= k < j ==> !PickApplies(K, U, m, ds[k]))
  }

  ghost predicate NoPickApplies(K: Config, U: Users, m: Cache, c: ChoiceId)
    requires c < |K.choices| && ChoiceDefOk(K, c)
  {
    forall k :: 0 <= k < |K.choices[c].defaults| ==> !PickApplies(K, U, m, K.choices[c].defaults[k])
  }

  lemma {:induction false} PickMeans(K: Config, U: Users, m: Cache, c: ChoiceId, j: nat, n: nat)
    requires ConfigOk(K) && Solves(K, U, m) && c < |K.choices| && ChoiceDefOk(K, c)
    requires n <= |K.choices[c].defaults| && n <= j
    ensures IsFirstPick(K, U, m, c, j) ==> DefaultPick(K, U, m, c, n) == Some(Some(K.choices[c].defaults[j].sym))
    ensures NoPickApplies(K, U, m, c) ==> DefaultPick(K, U, m, c, n) == Some(None)
    decreases |K.choices[c].defaults| - n
  {
    var ds := K.choices[c].defaults;
    if n < |ds| {
      TruthIsEval(K, U, m, ds[n].cond);
      SolutionKnows(K, U, m, Vis(Sym(ds[n].sym)));
      PickMeans(K, U, m, c, if j == n then n + 1 else j, n + 1);
    }
  }

  lemma {:induction false} FirstVisibleMeans(K: Config, U: Users, m: Cache, c: ChoiceId, j: nat, n: nat)
    requires ConfigOk(K) && Solves(K, U, m) && c < |K.choices| && ChoiceDefOk(K, c) && n <= |K.choices[c].syms| && n <= j
    ensures IsFirstVisible(K, m, c, j) ==> FirstVisible(m, K.choices[c].syms, n) == Some(Some(K.choices[c].syms[j]))
    ensures (forall k :: 0 <= k < |K.choices[c].syms| ==> !Shown(m, K.choices[c].syms[k])) ==>
      FirstVisible(m, K.choices[c].syms, n) == Some(None)
    decreases |K.choices[c].syms| - n
  {
    var syms := K.choices[c].syms;
    if n < |syms| {
      SolutionKnows(K, U, m, Vis(Sym(syms[n])));
      FirstVisibleMeans(K, U, m, c, if j == n then n + 1 else j, n + 1);
    }
  }

  /**
   * The selection of a choice in y mode: what the user has selected if it is visible, or else
   * the first default that applies, or else the first visible symbol, or else none. In other
   * modes there is none.
   */
  lemma SelectionMeans(K: Config, U: Users, m: Cache, c: ChoiceId, j: nat)
    requires ConfigOk(K) && UserStateOk(K, U) && Solves(K, U, m) && c < |K.choices| && ChoiceDefOk(K, c)
    ensures Known(K, U, m, Sel(c))
    ensures Mode(K, U, m, c) != 2 ==> m[Sel(c)] == P(None)
    ensures Mode(K, U, m, c) == 2 ==>
      if c in U.pick && Shown(m, U.pick[c]) then m[Sel(c)] == P(Some(U.pick[c]))
      else
        && (IsFirstPick(K, U, m, c, j) ==> m[Sel(c)] == P(Some(K.choices[c].defaults[j].sym)))
        && (NoPickApplies(K, U, m, c) && IsFirstVisible(K, m, c, j) ==> m[Sel(c)] == P(Some(K.choices[c].syms[j])))
        && ((forall k :: 0 <= k < |K.choices[c].syms| ==> !Shown(m, K.choices[c].syms[k])) ==> m[Sel(c)] == P(None))
  {
    SolutionKnows(K, U, m, Sel(c));
    TruthIsEval(K, U, m, Leaf(Cho(c)));
    if c in U.pick { SolutionKnows(K, U, m, Vis(Sym(U.pick[c]))); }
    PickMeans(K, U, m, c, j, 0);
    FirstVisibleMeans(K, U, m, c, j, 0);
  }

  // Lines in the configuration file

  /**
   * A symbol with a type, other than n, m and y themselves, has a line exactly if it is visible
   * or not n; a string or number if it is visible or has a default, and it is not set by the environment.
   */
  lemma WrittenMeans(K: Config, U: Users, m: Cache, s: SymId, i: nat)
    requires ConfigOk(K) && Solves(K, U, m) && SymOk(K, s) && SymDefOk(K, s)
    requires FirstMet(K, U, m, K.syms[s].origType, K.syms[s].defaults, i)
    ensures Known(K, U, m, WriteOf(s)) && Known(K, U, m, TriOf(s)) && Known(K, U, m, Vis(Sym(s)))
    ensures
      var d := K.syms[s];
      m[WriteOf(s)].flag <==>
        if d.origType == Unknown || IsNmy(d) then false
        else if Boolish(d.origType) then m[Vis(Sym(s))].t != 0 || m[TriOf(s)].t != 0
        else (m[Vis(Sym(s))].t != 0 || i < |d.defaults|) && !d.fromEnv && K.defconfigList != Some(s)
  {
    SolutionKnows(K, U, m, WriteOf(s));
    SolutionKnows(K, U, m, TriOf(s));
    SolutionKnows(K, U, m, Vis(Sym(s)));
    FirstMetIsActive(K, U, m, K.syms[s].origType, K.syms[s].defaults, i, 0);
    var d := K.syms[s];
    if Boolish(d.origType) {
      TypeMeans(K, U, m, s);
      TruthIsEval(K, U, m, d.weakRevDep);
    }
  }

  // Assignable values

  ghost predicate Increasing(vals: seq<Tri>) { forall j, k :: 0 <= j < k < |vals| ==> vals[j] < vals[k] }

  /** Nothing selects or implies the symbol. */
  ghost predicate Unforced(K: Config, U: Users, m: Cache, s: SymId)
    requires ConfigOk(K) && SymOk(K, s) && SymDefOk(K, s)
  {
    Truth(K, U, m, K.syms[s].revDep) == 0 && Truth(K, U, m, K.syms[s].weakRevDep) == 0
  }

  /**
   * Assignable values are listed in order, and only for visible bool and tristate items. A y-visible
   * symbol of a choice can only be selected; an m-visible one that nothing forces can be n or m.
   */
  lemma AssignableMeans(K: Config, U: Users, m: Cache, i: Item)
    requires ConfigOk(K) && Solves(K, U, m) && ItemOk(K, i)
    ensures Known(K, U, m, Assignable(i)) && Known(K, U, m, Vis(i)) && Increasing(m[Assignable(i)].vals)
    ensures m[Vis(i)].t == 0 ==> m[Assignable(i)].vals == []
    ensures i.Sym? ==>
      var d := K.syms[i.s];
      && SymDefOk(K, i.s)
      && (!Boolish(d.origType) ==> m[Assignable(i)].vals == [])
      && (Boolish(d.origType) && d.choice.Some? && m[Vis(i)].t == 2 ==> m[Assignable(i)].vals == [2])
      && (Boolish(d.origType) && d.choice.Some? && m[Vis(i)].t == 1 && Unforced(K, U, m, i.s) ==>
            m[Assignable(i)].vals == [0, 1])
  {
    SolutionKnows(K, U, m, Assignable(i));
    SolutionKnows(K, U, m, Vis(i));
    if i.Sym? {
      assert SymDefOk(K, i.s);
      TruthIsEval(K, U, m, K.syms[i.s].revDep);
      TruthIsEval(K, U, m, K.syms[i.s].weakRevDep);
    }
  }

  // User values

  /** v is n, m or y, as a number or as a text. */
  predicate IsTri(v: UserVal, t: Tri) { v == TriVal(t) || v == StrVal(["n", "m", "y"][t]) }

  /** What set_value() takes v for: None if the type of the symbol does not allow it. */
  ghost predicate Takes(K: Config, s: SymId, v: UserVal, x: Option<UserVal>)
    requires SymOk(K, s)
  {
    match K.syms[s].origType
    case Unknown => x == None
    case Bool => if exists t: Tri :: t != 1 && IsTri(v, t) then exists t: Tri :: IsTri(v, t) && x == Some(TriVal(t)) else x == None
    case Tristate => if exists t: Tri :: IsTri(v, t) then exists t: Tri :: IsTri(v, t) && x == Some(TriVal(t)) else x == None
    case String => x == if v.StrVal? then Some(v) else None
    case Int => x == if v.StrVal? && (exists n :: ParseInt(v.str, 10) == Some(n)) then Some(v) else None
    case Hex => x == if v.StrVal? && (exists n :: n >= 0 && ParseInt(v.str, 16) == Some(n)) then Some(v) else None
  }

  /**
   * Symbol.set_value() stores what the type allows, and makes a symbol of a choice that is set to y
   * its user selection; all other user values stay, and so do all of them if the value is not allowed.
   */
  lemma SetMeans(K: Config, U: Users, s: SymId, v: UserVal, x: Option<UserVal>)
    requires ConfigOk(K) && SymOk(K, s) && Takes(K, s, v, x)
    ensures x.None? ==> AfterSet(K, U, s, v) == U
    ensures x.Some? ==>
      var U' := AfterSet(K, U, s, v);
      && s in U'.sym && U'.sym[s] == x.value && U'.mode == U.mode
      && (forall t :: t != s ==> (t in U'.sym <==> t in U.sym) && (t in U.sym ==> U'.sym[t] == U.sym[t]))
      && (forall c :: if x == Some(TriVal(2)) && K.syms[s].choice == Some(c) then c in U'.pick && U'.pick[c] == s
                      else (c in U'.pick <==> c in U.pick) && (c in U.pick ==> U'.pick[c] == U.pick[c]))
  {
    TakenForm(K, s, v, x);
    hide ConfigOk, ParseInt;
  }

  lemma TakenForm(K: Config, s: SymId, v: UserVal, x: Option<UserVal>)
    requires SymOk(K, s) && Takes(K, s, v, x)
    ensures ValidUserVal(K, s, SymInput(K, s, v)) <==> x.Some?
    ensures x.Some? ==> x.value == SymInput(K, s, v)
  {
    forall t: Tri | IsTri(v, t) ensures Normalize(v) == TriVal(t) {}
    assert Normalize(v).TriVal? ==> IsTri(v, Normalize(v).t);
    hide ParseInt;
  }

  /** Choice.set_value() stores n, m and y for tristate choices, and n and y for bool ones. */
  lemma SetModeMeans(K: Config, U: Users, c: ChoiceId, v: UserVal)
    requires c < |K.choices|
    ensures forall t: Tri :: IsTri(v, t) && (K.choices[c].origType == Tristate || (K.choices[c].origType == Bool && t != 1)) ==>
      AfterSetMode(K, U, c, v) == U.(mode := U.mode[c := t])
    ensures
      (forall t: Tri :: IsTri(v, t) ==> K.choices[c].origType != Tristate && (K.choices[c].origType == Bool ==> t == 1)) ==>
      AfterSetMode(K, U, c, v) == U
  {
    forall t: Tri | IsTri(v, t) ensures Normalize(v) == TriVal(t) {}
    assert Normalize(v).TriVal? ==> IsTri(v, Normalize(v).t);
  }
}
