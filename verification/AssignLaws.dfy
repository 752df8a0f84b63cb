/** Assigning a value and reading it back. */
module AssignLaws {
  import opened Wrappers
  import opened Config
  import opened Values
  import opened Reads
  import opened Meaning
  import opened Deps
  import opened Invalidation
  import opened ValueLaws

  /**
   * The frame of an assignment: slots whose computation cannot come upon what was
   * assigned keep their values. The bound is the rank of the first slot affected.
   */
  lemma {:induction false} BelowIsUnchanged(
    K: Config, rank: Key -> nat, U: Users, U': Users, m: Cache, m': Cache, k: Key, b: nat)
    requires ConfigOk(K) && Ranked(K, rank) && UserStateOk(K, U) && UserStateOk(K, U')
    requires Solves(K, U, m) && Solves(K, U', m')
    requires forall c, j :: KeyOk(K, j) && rank(j) <= b && Vis(Cho(c)) in KeyReads(K, j) ==> UserMode(U, c) == UserMode(U', c)
    requires forall j :: KeyOk(K, j) && rank(j) <= b && OwnMatters(K, m, j) ==> SameOwn(U, U', ItemOf(j))
    requires KeyOk(K, k) && rank(k) <= b
    ensures m'[k] == m[k]
    decreases rank(k)
  {
    var R := KeyReads(K, k);
    KeyReadsOk(K, k);
    forall j | j in R ensures SameAt(m, m', j) {
      BelowIsUnchanged(K, rank, U, U', m, m', j, b);
    }
    SolutionKnows(K, U, m, k);
    SolutionKnows(K, U', m', k);
    Transfer(K, U, U', m, m', k);
  }

  /** Reads of the computation of a slot, carried over an assignment below it. */
  lemma ReadsUnchanged(K: Config, rank: Key -> nat, U: Users, U': Users, m: Cache, m': Cache, s: SymId)
    requires ConfigOk(K) && Ranked(K, rank) && UserStateOk(K, U) && UserStateOk(K, U')
    requires Solves(K, U, m) && Solves(K, U', m')
    requires SymOk(K, s) && OnlySym(U, U', s) && Boolish(K.syms[s].origType)
    ensures forall j :: j in KeyReads(K, TriOf(s)) ==> KeyOk(K, j) && m'[j] == m[j]
  {
    KeyReadsOk(K, TriOf(s));
    forall j | j in KeyReads(K, TriOf(s)) ensures m'[j] == m[j] {
      forall c ensures UserMode(U, c) == UserMode(U', c) { assert SameOwn(U, U', Cho(c)); }
      forall i | KeyOk(K, i) && rank(i) <= rank(j) && OwnMatters(K, m, i) ensures SameOwn(U, U', ItemOf(i)) {
        assert i != TriOf(s);
      }
      BelowIsUnchanged(K, rank, U, U', m, m', j, rank(j));
    }
  }

  /** What bounds the value of a bool or tristate symbol outside choices. */
  datatype Bounds = Bounds(vis: Tri, rev: Tri, weak: Tri, isBool: bool)

  ghost predicate HasBounds(K: Config, U: Users, m: Cache, s: SymId, b: Bounds)
    requires ConfigOk(K) && SymOk(K, s) && SymDefOk(K, s)
  {
    && GetT(m, Vis(Sym(s))) == Some(b.vis)
    && Eval(K, U, m, K.syms[s].revDep) == Some(b.rev)
    && Eval(K, U, m, K.syms[s].weakRevDep) == Some(b.weak)
    && SymType(K, U, m, s).Some? && (b.isBool <==> SymType(K, U, m, s) == Some(Bool))
    && Eval(K, U, m, K.syms[s].directDep).Some?
  }

  lemma BoundsExist(K: Config, U: Users, m: Cache, s: SymId) returns (b: Bounds)
    requires ConfigOk(K) && UserStateOk(K, U) && Solves(K, U, m) && SymOk(K, s)
    ensures SymDefOk(K, s) && HasBounds(K, U, m, s, b)
  {
    assert SymDefOk(K, s);
    forall k | k in DepReads(K, s) + TypeReads(K, s) ensures k in m && ValOk(k, m[k]) {
      SymReadsOk(K, s);
      SolutionKnows(K, U, m, k);
    }
    DepsTotal(K, U, m, s);
    TypeTotal(K, U, m, s);
    SolutionKnows(K, U, m, Vis(Sym(s)));
    b := Bounds(m[Vis(Sym(s))].t, Eval(K, U, m, K.syms[s].revDep).value, Eval(K, U, m, K.syms[s].weakRevDep).value,
                SymType(K, U, m, s) == Some(Bool));
  }

  lemma BoundsUnchanged(K: Config, rank: Key -> nat, U: Users, U': Users, m: Cache, m': Cache, s: SymId, b: Bounds)
    requires ConfigOk(K) && Ranked(K, rank) && UserStateOk(K, U) && UserStateOk(K, U')
    requires Solves(K, U, m) && Solves(K, U', m')
    requires SymOk(K, s) && SymDefOk(K, s) && OnlySym(U, U', s)
    requires Boolish(K.syms[s].origType) && !IsNmy(K.syms[s]) && K.syms[s].choice.None?
    requires HasBounds(K, U, m, s, b)
    ensures HasBounds(K, U', m', s, b)
  {
    ReadsUnchanged(K, rank, U, U', m, m', s);
    var R := KeyReads(K, TriOf(s));
    var d := K.syms[s];
    assert Vis(Sym(s)) in R && Vis(Sym(s)) in m && Vis(Sym(s)) in m';
    forall c ensures UserMode(U, c) == UserMode(U', c) { assert SameOwn(U, U', Cho(c)); }
    assert Agree(K, U, U', m, m', R);
    AgreeSubset(K, U, U', m, m', R, ExprReads(K, d.revDep));
    AgreeSubset(K, U, U', m, m', R, ExprReads(K, d.weakRevDep));
    AgreeSubset(K, U, U', m, m', R, ExprReads(K, d.directDep));
    AgreeSubset(K, U, U', m, m', R, TypeReads(K, s));
    EvalTransfer(K, U, U', m, m', d.revDep);
    EvalTransfer(K, U, U', m, m', d.weakRevDep);
    EvalTransfer(K, U, U', m, m', d.directDep);
    TypeTransfer(K, U, U', m, m', s);
  }

  /** A symbol is m-visible only if it is of type tristate. */
  lemma MVisibleIsTristate(K: Config, U: Users, m: Cache, s: SymId, b: Bounds)
    requires ConfigOk(K) && Solves(K, U, m) && SymOk(K, s) && SymDefOk(K, s) && HasBounds(K, U, m, s, b)
    requires K.syms[s].choice.None? && b.vis == 1
    ensures !b.isBool
  {
    SolutionKnows(K, U, m, Vis(Sym(s)));
  }

  /** The one combination in which a listed value does not take effect. */
  predicate ForcedPastM(b: Bounds) {
    b.vis == 1 && b.rev == 1 && b.weak == 2
  }

  /** The value read back after the user value v. */
  function ReadBack(b: Bounds, v: Tri): Tri {
    var val := Max(b.rev, Min(v, b.vis));
    if val == 1 && (b.isBool || b.weak == 2) then 2 else val
  }

  lemma UserValueReadsBack(K: Config, U: Users, m: Cache, s: SymId, v: Tri, b: Bounds)
    requires ConfigOk(K) && Solves(K, U, m) && SymOk(K, s) && SymDefOk(K, s) && HasBounds(K, U, m, s, b)
    requires Boolish(K.syms[s].origType) && !IsNmy(K.syms[s]) && K.syms[s].choice.None?
    requires b.vis != 0 && UserTri(U, s) == Some(v)
    ensures Known(K, U, m, TriOf(s)) && m[TriOf(s)] == T(ReadBack(b, v))
  {
    SolutionKnows(K, U, m, TriOf(s));
    assert WantedTri(K, U, m, s, b.vis) == Some(Min(v, b.vis));
    assert SelectTri(K, U, m, s) == Some(b.rev);
  }

  lemma ListedValues(K: Config, U: Users, m: Cache, s: SymId, v: Tri, b: Bounds)
    requires ConfigOk(K) && Solves(K, U, m) && SymOk(K, s) && SymDefOk(K, s) && HasBounds(K, U, m, s, b)
    requires Boolish(K.syms[s].origType) && !IsNmy(K.syms[s]) && K.syms[s].choice.None?
    requires b.vis != 0 && ValidUserVal(K, s, TriVal(v))
    ensures Known(K, U, m, Assignable(Sym(s)))
    ensures !ForcedPastM(b) ==> (v in m[Assignable(Sym(s))].vals <==> ReadBack(b, v) == v)
    ensures ForcedPastM(b) ==> m[Assignable(Sym(s))].vals == [1]
  {
    SolutionKnows(K, U, m, Assignable(Sym(s)));
    if b.vis == 1 { MVisibleIsTristate(K, U, m, s, b); }
  }

  /**
   * `assignable` of a visible symbol lists exactly the values that would be read back
   * after being assigned, except when an m-visible symbol is selected to m and implied
   * to y: then only m is listed, and y is read back if m is assigned.
   */
  lemma AssignableIsExact(K: Config, rank: Key -> nat, U: Users, m: Cache, m': Cache, s: SymId, v: Tri, b: Bounds)
    requires ConfigOk(K) && ChoicesLinked(K) && Ranked(K, rank) && UserStateOk(K, U) && SymOk(K, s) && SymDefOk(K, s)
    requires Boolish(K.syms[s].origType) && !IsNmy(K.syms[s]) && K.syms[s].choice.None?
    requires ValidUserVal(K, s, TriVal(v))
    requires Solves(K, U, m) && Solves(K, AfterSet(K, U, s, TriVal(v)), m')
    requires HasBounds(K, U, m, s, b) && b.vis != 0
    ensures Known(K, U, m, Assignable(Sym(s))) && Known(K, AfterSet(K, U, s, TriVal(v)), m', TriOf(s))
    ensures !ForcedPastM(b) ==> (v in m[Assignable(Sym(s))].vals <==> m'[TriOf(s)] == T(v))
    ensures ForcedPastM(b) ==> m[Assignable(Sym(s))].vals == [1] && m'[TriOf(s)] == T(2)
  {
    var U' := AfterSet(K, U, s, TriVal(v));
    hide ConfigOk, ChoicesLinked, Ranked, UserStateOk, HasBounds, SymDefOk;
    SetChanges(K, U, s, TriVal(v));
    BoundsUnchanged(K, rank, U, U', m, m', s, b);
    ListedValues(K, U, m, s, v, b);
    UserValueReadsBack(K, U', m', s, v, b);
  }

  /** What the mode of a choice depends on is not changed by assigning the mode. */
  lemma ModeBoundsUnchanged(
    K: Config, rank: Key -> nat, U: Users, U': Users, m: Cache, m': Cache, c: ChoiceId)
    requires ConfigOk(K) && Ranked(K, rank) && UserStateOk(K, U) && UserStateOk(K, U')
    requires Solves(K, U, m) && Solves(K, U', m') && c < |K.choices|
    requires forall z :: z != Cho(c) ==> SameOwn(U, U', z)
    ensures m'[Vis(Cho(c))] == m[Vis(Cho(c))]
    ensures K.choices[c].origType == Tristate ==> m'[TriOf(K.modules)] == m[TriOf(K.modules)]
  {
    var b := rank(Vis(Cho(c)));
    forall d, j | KeyOk(K, j) && rank(j) <= b && Vis(Cho(d)) in KeyReads(K, j) ensures UserMode(U, d) == UserMode(U', d) {
      assert rank(Vis(Cho(d))) < b;
      assert SameOwn(U, U', Cho(d));
    }
    forall j | KeyOk(K, j) && rank(j) <= b && OwnMatters(K, m, j) ensures SameOwn(U, U', ItemOf(j)) {
      if ItemOf(j) == Cho(c) { assert Vis(Cho(c)) in KeyReads(K, j); }
    }
    BelowIsUnchanged(K, rank, U, U', m, m', Vis(Cho(c)), b);
    if K.choices[c].origType == Tristate {
      assert TriOf(K.modules) in KeyReads(K, Vis(Cho(c)));
      BelowIsUnchanged(K, rank, U, U', m, m', TriOf(K.modules), b);
    }
  }

  /** What bounds the mode of a choice. */
  lemma ModeFromBounds(K: Config, U: Users, m: Cache, c: ChoiceId, v: Tri)
    requires ConfigOk(K) && Solves(K, U, m) && c < |K.choices| && UserMode(U, c) == Some(v)
    ensures Known(K, U, m, Vis(Cho(c))) && ChoiceType(K, m, c).Some?
    ensures
      var val := Min(Max(if K.choices[c].isOptional then 0 else 1, v), m[Vis(Cho(c))].t);
      ChoiceTri(K, U, m, c) == Some(if val == 1 && ChoiceType(K, m, c) == Some(Bool) then 2 else val)
  {
    SolutionKnows(K, U, m, Vis(Cho(c)));
    SolutionKnows(K, U, m, TriOf(K.modules));
  }

  lemma MVisibleChoiceIsTristate(K: Config, U: Users, m: Cache, c: ChoiceId)
    requires ConfigOk(K) && Solves(K, U, m) && c < |K.choices| && GetT(m, Vis(Cho(c))) == Some(1)
    ensures ChoiceType(K, m, c) == Some(Tristate)
  {
    SolutionKnows(K, U, m, Vis(Cho(c)));
  }

  /** The mode read back after assigning v. */
  function ModeBack(optional: bool, vis: Tri, isBool: bool, v: Tri): Tri {
    var val := Min(Max(if optional then 0 else 1, v), vis);
    if val == 1 && isBool then 2 else val
  }

  lemma ListedModes(K: Config, U: Users, m: Cache, c: ChoiceId, v: Tri)
    requires ConfigOk(K) && Solves(K, U, m) && c < |K.choices|
    requires GetT(m, Vis(Cho(c))).Some? && GetT(m, Vis(Cho(c))) != Some(0)
    ensures Known(K, U, m, Assignable(Cho(c))) && ChoiceType(K, m, c).Some?
    ensures v in m[Assignable(Cho(c))].vals <==>
      ModeBack(K.choices[c].isOptional, GetT(m, Vis(Cho(c))).value, ChoiceType(K, m, c) == Some(Bool), v) == v
  {
    SolutionKnows(K, U, m, Assignable(Cho(c)));
    SolutionKnows(K, U, m, TriOf(K.modules));
    if GetT(m, Vis(Cho(c))) == Some(1) { MVisibleChoiceIsTristate(K, U, m, c); }
    assert ChoiceAssignable(K, m, c) == Some(m[Assignable(Cho(c))].vals);
    hide ConfigOk, Solves, Known, ChoiceType;
  }

  /** `assignable` of a visible choice lists exactly the modes that would be read back. */
  lemma ModesAreExact(K: Config, rank: Key -> nat, U: Users, m: Cache, m': Cache, c: ChoiceId, v: Tri)
    requires ConfigOk(K) && Ranked(K, rank) && UserStateOk(K, U) && c < |K.choices|
    requires ValidMode(K.choices[c].origType, v)
    requires Solves(K, U, m) && Solves(K, AfterSetMode(K, U, c, TriVal(v)), m')
    requires GetT(m, Vis(Cho(c))).Some? && GetT(m, Vis(Cho(c))) != Some(0)
    ensures Known(K, U, m, Assignable(Cho(c)))
    ensures v in m[Assignable(Cho(c))].vals <==> ChoiceTri(K, AfterSetMode(K, U, c, TriVal(v)), m', c) == Some(v)
  {
    hide ConfigOk, Solves, Ranked, UserStateOk, Justified, ChangedAt;
    var U' := AfterSetMode(K, U, c, TriVal(v));
    ModeChanges(K, U, c, TriVal(v));
    assert forall z :: z != Cho(c) ==> SameOwn(U, U', z);
    ModeBoundsUnchanged(K, rank, U, U', m, m', c);
    ModeFromBounds(K, U', m', c, v);
    ListedModes(K, U, m, c, v);
  }

  /** Nothing at or below the visibility of a choice symbol looks at its user value or at the selection. */
  lemma SelectingIsAbove(K: Config, rank: Key -> nat, s: SymId, c: ChoiceId)
    requires ConfigOk(K) && Ranked(K, rank) && SymOk(K, s) && K.syms[s].choice == Some(c) && c < |K.choices|
    requires Boolish(K.syms[s].origType) && !IsNmy(K.syms[s])
    ensures rank(TriOf(s)) > rank(Vis(Sym(s))) && rank(Sel(c)) > rank(Vis(Sym(s)))
    ensures rank(Vis(Cho(c))) < rank(Vis(Sym(s)))
    ensures K.choices[c].origType == Tristate ==> rank(TriOf(K.modules)) < rank(Vis(Cho(c)))
  {
    assert SymDefOk(K, s);
    assert Vis(Sym(s)) in KeyReads(K, TriOf(s));
    assert Vis(Sym(s)) in KeyReads(K, Sel(c));
    assert Vis(Cho(c)) in KeyReads(K, Vis(Sym(s)));
    if K.choices[c].origType == Tristate { assert TriOf(K.modules) in KeyReads(K, Vis(Cho(c))); }
  }

  lemma SelectingKeepsBounds(K: Config, rank: Key -> nat, U: Users, U': Users, m: Cache, m': Cache, s: SymId, c: ChoiceId)
    requires ConfigOk(K) && Ranked(K, rank) && UserStateOk(K, U) && UserStateOk(K, U') && SymOk(K, s)
    requires K.syms[s].choice == Some(c) && c < |K.choices| && Boolish(K.syms[s].origType) && !IsNmy(K.syms[s])
    requires Solves(K, U, m) && Solves(K, U', m')
    requires U'.mode == U.mode && forall z :: z != Sym(s) && z != Cho(c) ==> SameOwn(U, U', z)
    ensures m'[Vis(Sym(s))] == m[Vis(Sym(s))] && m'[Vis(Cho(c))] == m[Vis(Cho(c))]
    ensures K.choices[c].origType == Tristate ==> m'[TriOf(K.modules)] == m[TriOf(K.modules)]
  {
    assert KeyOk(K, Vis(Cho(c))) && KeyOk(K, TriOf(K.modules));
    SelectingIsAbove(K, rank, s, c);
    hide ConfigOk, Solves, Ranked, UserStateOk, KeyReads;
    var b := rank(Vis(Sym(s)));
    forall j | KeyOk(K, j) && rank(j) <= b && OwnMatters(K, m, j) ensures SameOwn(U, U', ItemOf(j)) {
      assert j != TriOf(s) && j != Sel(c);
    }
    BelowIsUnchanged(K, rank, U, U', m, m', Vis(Sym(s)), b);
    BelowIsUnchanged(K, rank, U, U', m, m', Vis(Cho(c)), b);
    if K.choices[c].origType == Tristate { BelowIsUnchanged(K, rank, U, U', m, m', TriOf(K.modules), b); }
  }

  lemma SelectedIsY(K: Config, U: Users, m: Cache, s: SymId, c: ChoiceId)
    requires ConfigOk(K) && UserStateOk(K, U) && Solves(K, U, m) && SymOk(K, s)
    requires K.syms[s].choice == Some(c) && c < |K.choices| && Boolish(K.syms[s].origType) && !IsNmy(K.syms[s])
    requires GetT(m, Vis(Sym(s))) == Some(2) && UserPick(U, c) == Some(s)
    ensures Known(K, U, m, TriOf(s)) && (m[TriOf(s)] == T(2) <==> ChoiceTri(K, U, m, c) == Some(2))
  {
    SolutionKnows(K, U, m, TriOf(s));
    SolutionKnows(K, U, m, Sel(c));
  }

  lemma ListedChoiceSym(K: Config, U: Users, m: Cache, s: SymId)
    requires ConfigOk(K) && Solves(K, U, m) && SymOk(K, s) && K.syms[s].choice.Some? && Boolish(K.syms[s].origType)
    requires GetT(m, Vis(Sym(s))) == Some(2)
    ensures Known(K, U, m, Assignable(Sym(s))) && m[Assignable(Sym(s))].vals == [2]
  {
    SolutionKnows(K, U, m, Assignable(Sym(s)));
  }

  /** Selecting a y-visible choice symbol works exactly if its choice is in y mode. */
  lemma SelectingReadsBack(K: Config, rank: Key -> nat, U: Users, m: Cache, m': Cache, s: SymId, c: ChoiceId)
    requires ConfigOk(K) && ChoicesLinked(K) && Ranked(K, rank) && UserStateOk(K, U) && SymOk(K, s)
    requires K.syms[s].choice == Some(c) && c < |K.choices| && Boolish(K.syms[s].origType) && !IsNmy(K.syms[s])
    requires Solves(K, U, m) && Solves(K, AfterSet(K, U, s, TriVal(2)), m')
    requires GetT(m, Vis(Sym(s))) == Some(2)
    ensures Known(K, U, m, Assignable(Sym(s))) && Known(K, AfterSet(K, U, s, TriVal(2)), m', TriOf(s))
    ensures m[Assignable(Sym(s))].vals == [2]
    ensures m'[TriOf(s)] == T(2) <==> ChoiceTri(K, U, m, c) == Some(2)
  {
    hide ConfigOk, Solves, Ranked, UserStateOk, ChoicesLinked, Known;
    var U' := AfterSet(K, U, s, TriVal(2));
    SetKeepsStateOk(K, U, s, TriVal(2));
    SelectingKeepsBounds(K, rank, U, U', m, m', s, c);
    ModeKnown(K, U, m, c);
    ModeKnown(K, U', m', c);
    SolutionHas(K, U', m', Vis(Cho(c)));
    SolutionHas(K, U', m', Vis(Sym(s)));
    SolutionHas(K, U', m', TriOf(K.modules));
    ListedChoiceSym(K, U, m, s);
    SelectedIsY(K, U', m', s, c);
  }

  lemma SolutionHas(K: Config, U: Users, m: Cache, k: Key)
    requires ConfigOk(K) && Solves(K, U, m)
    ensures KeyOk(K, k) ==> k in m
  {
  }
}
