/**
 * Why a saved configuration reproduces the values: a user state that repeats the
 * current values (or leaves out what the defaults give anyway) has the same values.
 * No text is involved here.
 */
module Reload {
  import opened Wrappers
  import opened Config
  import opened Values
  import opened Reads
  import opened Meaning
  import opened Invalidation
  import opened ValueLaws
  import opened AssignLaws

  /** Choices are bool or tristate and have bool or tristate symbols of their own. */
  ghost predicate PlainChoices(K: Config)
    requires ConfigOk(K)
  {
    && (forall c :: 0 <= c < |K.choices| ==> Boolish(K.choices[c].origType) && OwnsSyms(K, c))
    && (forall s :: 0 <= s < |K.syms| && K.syms[s].choice.Some? ==> Boolish(K.syms[s].origType))
  }

  /** U' gives symbol s its value in m, or nothing where the defaults give that value. */
  ghost predicate RestoresSym(K: Config, U: Users, m: Cache, U': Users, s: SymId)
    requires ConfigOk(K) && SymOk(K, s) && Solves(K, U, m)
  {
    SolutionKnows(K, U, m, TriOf(s));
    SolutionKnows(K, U, m, StrOf(s));
    var d := K.syms[s];
    match d.origType
    case Unknown => true
    case Bool => if d.choice.Some? then RestoresMember(m, U', s) else RestoresTri(K, U, m, U', s)
    case Tristate => if d.choice.Some? then RestoresMember(m, U', s) else RestoresTri(K, U, m, U', s)
    case String =>
      UserStr(U', s) == Some(m[StrOf(s)].str) ||
      (UserStr(U', s).None? && TextStr(K, U, m, s, 0) == Some(m[StrOf(s)].str))
    case Int =>
      UserStr(U', s) == Some(m[StrOf(s)].str) || (UserStr(U', s).None? && NumStr(K, U, m, s, 0) == Some(m[StrOf(s)].str))
    case Hex =>
      UserStr(U', s) == Some(m[StrOf(s)].str) || (UserStr(U', s).None? && NumStr(K, U, m, s, 0) == Some(m[StrOf(s)].str))
  }

  /** An m-visible symbol of a choice is m exactly if the user wants it. */
  ghost predicate RestoresMember(m: Cache, U': Users, s: SymId) {
    GetT(m, Vis(Sym(s))) == Some(1) ==>
      (GetT(m, TriOf(s)) == Some(1) <==> UserTri(U', s).Some? && UserTri(U', s).value != 0)
  }

  ghost predicate RestoresTri(K: Config, U: Users, m: Cache, U': Users, s: SymId)
    requires ConfigOk(K) && SymOk(K, s) && Known(K, U, m, TriOf(s))
  {
    (UserTri(U', s) == Some(m[TriOf(s)].t) && !YOnlyByDefault(K, U, m, s)) ||
    (UserTri(U', s).None? && PlainTri(K, U, m, s, 0) == Some(m[TriOf(s)].t))
  }

  /** An m-visible symbol whose value y comes from a default, not from a select or imply of y. */
  ghost predicate YOnlyByDefault(K: Config, U: Users, m: Cache, s: SymId)
    requires ConfigOk(K) && SymOk(K, s)
  {
    assert SymDefOk(K, s);
    && Boolish(K.syms[s].origType) && K.syms[s].choice.None?
    && GetT(m, Vis(Sym(s))) == Some(1) && GetT(m, TriOf(s)) == Some(2)
    && Eval(K, U, m, K.syms[s].revDep) != Some(2) && Eval(K, U, m, K.syms[s].weakRevDep) != Some(2)
  }

  ghost predicate RestoresChoice(K: Config, U: Users, m: Cache, U': Users, c: ChoiceId)
    requires ConfigOk(K) && c < |K.choices| && Solves(K, U, m)
  {
    SolutionKnows(K, U, m, Sel(c));
    m[Sel(c)].pick.Some? ==>
      UserPick(U', c) == m[Sel(c)].pick ||
      (UserPick(U', c).None? && SelectionFromDefaults(K, U, m, c) == Some(m[Sel(c)].pick))
  }

  ghost predicate Restores(K: Config, U: Users, m: Cache, U': Users)
    requires ConfigOk(K) && Solves(K, U, m)
  {
    && (forall s :: 0 <= s < |K.syms| && Defined(K.syms[s]) && GetT(m, Vis(Sym(s))) != Some(0) ==>
          RestoresSym(K, U, m, U', s))
    && (forall c :: 0 <= c < |K.choices| ==> RestoresChoice(K, U, m, U', c))
    && RestoresModes(K, U, m, U')
  }

  ghost predicate RestoresModes(K: Config, U: Users, m: Cache, U': Users) {
    forall c :: 0 <= c < |K.choices| ==> SameModeAt(K, U, U', m, c)
  }

  /** The context of one step of the induction: all that k may read is restored. */
  ghost predicate Step(K: Config, U: Users, U': Users, m: Cache, m': Cache, k: Key)
    requires ConfigOk(K)
  {
    && PlainChoices(K) && UserStateOk(K, U) && UserStateOk(K, U') && Solves(K, U, m) && Solves(K, U', m')
    && RestoresModes(K, U, m, U')
    && KeyOk(K, k) && forall j :: j in KeyReads(K, k) ==> j in m && j in m' && m'[j] == m[j]
  }

  lemma BoolSymVisible(K: Config, U: Users, m: Cache, s: SymId)
    requires ConfigOk(K) && Solves(K, U, m) && SymOk(K, s) && K.syms[s].origType == Bool
    ensures GetT(m, Vis(Sym(s))).Some? && GetT(m, Vis(Sym(s))) != Some(1)
  {
    SolutionKnows(K, U, m, Vis(Sym(s)));
    assert SymDefOk(K, s);
  }

  lemma StepAgrees(K: Config, U: Users, U': Users, m: Cache, m': Cache, k: Key)
    requires ConfigOk(K) && Step(K, U, U', m, m', k)
    ensures Agree(K, U, U', m, m', KeyReads(K, k))
  {
    KeyReadsOk(K, k);
    forall c | Vis(Cho(c)) in KeyReads(K, k) ensures SameModeAt(K, U, U', m, c) {
      assert KeyOk(K, Vis(Cho(c)));
    }
  }

  /** Slots that the user state of their own object does not matter to. */
  lemma OthersRestored(K: Config, U: Users, U': Users, m: Cache, m': Cache, k: Key)
    requires ConfigOk(K) && Step(K, U, U', m, m', k) && !OwnMatters(K, m, k)
    ensures m'[k] == m[k]
  {
    StepAgrees(K, U, U', m, m', k);
    SolutionKnows(K, U, m, k);
    SolutionKnows(K, U', m', k);
    Transfer(K, U, U', m, m', k);
  }

  // bool and tristate symbols

  lemma BoundsRestored(K: Config, U: Users, U': Users, m: Cache, m': Cache, s: SymId, b: Bounds)
    requires ConfigOk(K) && Step(K, U, U', m, m', TriOf(s)) && SymDefOk(K, s)
    requires Boolish(K.syms[s].origType) && !IsNmy(K.syms[s]) && K.syms[s].choice.None?
    requires HasBounds(K, U, m, s, b)
    ensures HasBounds(K, U', m', s, b)
  {
    var R := KeyReads(K, TriOf(s));
    var d := K.syms[s];
    StepAgrees(K, U, U', m, m', TriOf(s));
    assert Vis(Sym(s)) in R;
    hide ConfigOk, Step;
    AgreeSubset(K, U, U', m, m', R, ExprReads(K, d.revDep));
    AgreeSubset(K, U, U', m, m', R, ExprReads(K, d.weakRevDep));
    AgreeSubset(K, U, U', m, m', R, ExprReads(K, d.directDep));
    AgreeSubset(K, U, U', m, m', R, TypeReads(K, s));
    EvalTransfer(K, U, U', m, m', d.revDep);
    EvalTransfer(K, U, U', m, m', d.weakRevDep);
    EvalTransfer(K, U, U', m, m', d.directDep);
    TypeTransfer(K, U, U', m, m', s);
  }

  /** The value of a symbol, assigned to it, is read back exactly if it is not y by default over m. */
  lemma OwnValueReadsBack(K: Config, U: Users, m: Cache, s: SymId, b: Bounds)
    requires ConfigOk(K) && Solves(K, U, m) && SymOk(K, s) && SymDefOk(K, s) && HasBounds(K, U, m, s, b)
    requires Boolish(K.syms[s].origType) && !IsNmy(K.syms[s]) && K.syms[s].choice.None? && b.vis != 0
    ensures Known(K, U, m, TriOf(s))
    ensures ReadBack(b, m[TriOf(s)].t) == m[TriOf(s)].t <==> !YOnlyByDefault(K, U, m, s)
  {
    SolutionKnows(K, U, m, TriOf(s));
    if b.vis == 1 { MVisibleIsTristate(K, U, m, s, b); }
    hide Solves;
    ValueFromBounds(K, U, m, s, b);
  }

  /** The value of a visible symbol in terms of what bounds it. */
  lemma ValueFromBounds(K: Config, U: Users, m: Cache, s: SymId, b: Bounds)
    requires ConfigOk(K) && SymOk(K, s) && SymDefOk(K, s) && HasBounds(K, U, m, s, b) && Known(K, U, m, TriOf(s))
    requires Boolish(K.syms[s].origType) && !IsNmy(K.syms[s]) && K.syms[s].choice.None? && b.vis != 0
    requires b.vis == 1 ==> !b.isBool
    ensures ReadBack(b, m[TriOf(s)].t) == m[TriOf(s)].t <==> !YOnlyByDefault(K, U, m, s)
  {
    assert SelectTri(K, U, m, s) == Some(b.rev);
    assert Some(m[TriOf(s)].t) == PlainTri(K, U, m, s, b.vis);
    var val := Max(b.rev, WantedTri(K, U, m, s, b.vis).value);
    assert PlainTri(K, U, m, s, b.vis) == Promote(K, U, m, s, val);
    hide ConfigOk, SelectTri, WantedTri, PlainTri, SymDefOk;
    assert m[TriOf(s)].t == if val == 1 && (b.isBool || b.weak == 2) then 2 else val;
  }

  lemma DefaultTriRestored(K: Config, U: Users, U': Users, m: Cache, m': Cache, s: SymId, vis: Tri)
    requires ConfigOk(K) && Step(K, U, U', m, m', TriOf(s))
    requires Boolish(K.syms[s].origType) && !IsNmy(K.syms[s]) && K.syms[s].choice.None?
    requires UserTri(U', s).None? && PlainTri(K, U, m, s, 0).Some?
    ensures PlainTri(K, U', m', s, vis) == PlainTri(K, U, m, s, 0)
  {
    StepAgrees(K, U, U', m, m', TriOf(s));
    assert SymDefOk(K, s);
    assert PlainReads(K, s) <= KeyReads(K, TriOf(s));
    hide ConfigOk, Step;
    AgreeSubset(K, U, U', m, m', KeyReads(K, TriOf(s)), PlainReads(K, s));
    PlainTriTransfer(K, U, U', m, m', s, 0);
    NoUserValue(K, U', m', s, vis);
  }

  /** Without a user value the visibility does not matter. */
  lemma NoUserValue(K: Config, U: Users, m: Cache, s: SymId, vis: Tri)
    requires ConfigOk(K) && SymOk(K, s) && UserTri(U, s).None?
    ensures PlainTri(K, U, m, s, vis) == PlainTri(K, U, m, s, 0)
  {
    assert WantedTri(K, U, m, s, vis) == WantedTri(K, U, m, s, 0);
  }

  lemma PlainRestored(K: Config, U: Users, U': Users, m: Cache, m': Cache, s: SymId)
    requires ConfigOk(K) && Step(K, U, U', m, m', TriOf(s))
    requires Boolish(K.syms[s].origType) && !IsNmy(K.syms[s]) && K.syms[s].choice.None?
    requires GetT(m, Vis(Sym(s))) != Some(0) && Known(K, U, m, TriOf(s)) && RestoresTri(K, U, m, U', s)
    ensures m'[TriOf(s)] == m[TriOf(s)]
  {
    var b := BoundsExist(K, U, m, s);
    BoundsRestored(K, U, U', m, m', s, b);
    SolutionKnows(K, U', m', TriOf(s));
    if UserTri(U', s).Some? {
      OwnValueReadsBack(K, U, m, s, b);
      UserValueReadsBack(K, U', m', s, m[TriOf(s)].t, b);
    } else {
      DefaultTriRestored(K, U, U', m, m', s, b.vis);
    }
  }

  lemma ChoiceSymRestored(K: Config, U: Users, U': Users, m: Cache, m': Cache, s: SymId)
    requires ConfigOk(K) && Step(K, U, U', m, m', TriOf(s)) && K.syms[s].choice.Some? && RestoresMember(m, U', s)
    ensures m'[TriOf(s)] == m[TriOf(s)]
  {
    assert SymDefOk(K, s);
    assert Vis(Sym(s)) in KeyReads(K, TriOf(s)) && Sel(K.syms[s].choice.value) in KeyReads(K, TriOf(s));
    SolutionKnows(K, U, m, TriOf(s));
    SolutionKnows(K, U', m', TriOf(s));
  }

  // string, int and hex symbols

  lemma TextRestored(K: Config, U: Users, U': Users, m: Cache, m': Cache, s: SymId)
    requires ConfigOk(K) && Step(K, U, U', m, m', StrOf(s)) && K.syms[s].origType == String
    requires GetT(m, Vis(Sym(s))) != Some(0) && RestoresSym(K, U, m, U', s)
    ensures m'[StrOf(s)] == m[StrOf(s)]
  {
    assert SymDefOk(K, s);
    var d := K.syms[s];
    SolutionKnows(K, U, m, StrOf(s));
    SolutionKnows(K, U', m', StrOf(s));
    StepAgrees(K, U, U', m, m', StrOf(s));
    assert Vis(Sym(s)) in KeyReads(K, StrOf(s));
    if UserStr(U', s).None? {
      AgreeSubset(K, U, U', m, m', KeyReads(K, StrOf(s)), DefaultReads(K, d.origType, d.defaults));
      DefaultStrTransfer(K, U, U', m, m', String, d.defaults);
    }
  }

  /** The value of an int or hex symbol, given as its user value, gives the same value. */
  lemma OwnNumReadsBack(K: Config, U: Users, U': Users, m: Cache, s: SymId, vis: Tri)
    requires ConfigOk(K) && SymOk(K, s) && Numeric(K.syms[s].origType) && vis != 0 && SymDefOk(K, s)
    requires NumStr(K, U, m, s, vis).Some? && UserStr(U', s) == NumStr(K, U, m, s, vis)
    requires DefaultStr(K, U, m, K.syms[s].origType, K.syms[s].defaults).Some?
    requires UserStr(U', s).value != ""
    ensures
      var d := K.syms[s];
      var base := TypeBase(d.origType);
      var range := ActiveRange(K, U, m, base, d.ranges, 0);
      range.Some? &&
      (UserNum(U', s, vis, range.value, base) == UserStr(U', s) ||
       (UserNum(U', s, vis, range.value, base).None? && NumStr(K, U, m, s, 0) == NumStr(K, U, m, s, vis)))
  {
    assert SymDefOk(K, s);
  }

  lemma NumPartsRestored(K: Config, U: Users, U': Users, m: Cache, m': Cache, s: SymId)
    requires ConfigOk(K) && Step(K, U, U', m, m', StrOf(s)) && Numeric(K.syms[s].origType) && SymDefOk(K, s)
    ensures
      var d := K.syms[s];
      var base := TypeBase(d.origType);
      && ActiveRange(K, U, m, base, d.ranges, 0).Some?
      && ActiveRange(K, U', m', base, d.ranges, 0) == ActiveRange(K, U, m, base, d.ranges, 0)
      && DefaultStr(K, U, m, d.origType, d.defaults).Some?
      && DefaultStr(K, U', m', d.origType, d.defaults) == DefaultStr(K, U, m, d.origType, d.defaults)
  {
    var d := K.syms[s];
    var R := KeyReads(K, StrOf(s));
    StepAgrees(K, U, U', m, m', StrOf(s));
    assert Has(m, R) by {
      KeyReadsOk(K, StrOf(s));
      forall j | j in R ensures j in m && ValOk(j, m[j]) { SolutionKnows(K, U, m, j); }
    }
    hide ConfigOk, Step;
    RangeTotal(K, U, m, TypeBase(d.origType), d.ranges, 0);
    DefaultStrTotal(K, U, m, d.origType, d.defaults);
    AgreeSubset(K, U, U', m, m', R, RangeReads(K, d.ranges));
    AgreeSubset(K, U, U', m, m', R, DefaultReads(K, d.origType, d.defaults));
    RangeTransfer(K, U, U', m, m', TypeBase(d.origType), d.ranges, 0);
    DefaultStrTransfer(K, U, U', m, m', d.origType, d.defaults);
  }

  lemma NumRestored(K: Config, U: Users, U': Users, m: Cache, m': Cache, s: SymId)
    requires ConfigOk(K) && Step(K, U, U', m, m', StrOf(s)) && Numeric(K.syms[s].origType)
    requires GetT(m, Vis(Sym(s))) != Some(0) && RestoresSym(K, U, m, U', s)
    ensures m'[StrOf(s)] == m[StrOf(s)]
  {
    assert SymDefOk(K, s);
    NumIs(K, U, m, s);
    NumIs(K, U', m', s);
    assert Vis(Sym(s)) in KeyReads(K, StrOf(s)) && m'[Vis(Sym(s))] == m[Vis(Sym(s))];
    NumPartsRestored(K, U, U', m, m', s);
    var vis := GetT(m, Vis(Sym(s))).value;
    UserTextIsNumeral(K, U', s);
    assert UserStr(U', s) == Some(m[StrOf(s)].str) || (UserStr(U', s).None? && NumStr(K, U, m, s, 0) == Some(m[StrOf(s)].str));
    hide ConfigOk, Step, Solves, KeyReads, SymDefOk, UserStateOk, RestoresSym, Known, ActiveRange, DefaultStr, NumStr;
    SameNum(K, U, U', m, m', s, vis);
  }

  lemma SameNum(K: Config, U: Users, U': Users, m: Cache, m': Cache, s: SymId, vis: Tri)
    requires ConfigOk(K) && SymOk(K, s) && Numeric(K.syms[s].origType) && vis != 0 && SymDefOk(K, s)
    requires
      var d := K.syms[s];
      var base := TypeBase(d.origType);
      && ActiveRange(K, U', m', base, d.ranges, 0) == ActiveRange(K, U, m, base, d.ranges, 0)
      && DefaultStr(K, U, m, d.origType, d.defaults).Some?
      && DefaultStr(K, U', m', d.origType, d.defaults) == DefaultStr(K, U, m, d.origType, d.defaults)
    requires NumStr(K, U, m, s, vis).Some? && (UserStr(U', s).Some? ==> UserStr(U', s).value != "")
    requires
      UserStr(U', s) == NumStr(K, U, m, s, vis) ||
      (UserStr(U', s).None? && NumStr(K, U, m, s, 0) == NumStr(K, U, m, s, vis))
    ensures NumStr(K, U', m', s, vis) == NumStr(K, U, m, s, vis)
  {
    hide ConfigOk, SymDefOk, ActiveRange, DefaultStr;
    if UserStr(U', s).Some? { OwnNumReadsBack(K, U, U', m, s, vis); }
  }

  lemma NumIs(K: Config, U: Users, m: Cache, s: SymId)
    requires ConfigOk(K) && Solves(K, U, m) && SymOk(K, s) && Numeric(K.syms[s].origType)
    ensures Known(K, U, m, StrOf(s)) && Known(K, U, m, Vis(Sym(s)))
    ensures NumStr(K, U, m, s, m[Vis(Sym(s))].t) == Some(m[StrOf(s)].str)
  {
    SolutionKnows(K, U, m, StrOf(s));
    SolutionKnows(K, U, m, Vis(Sym(s)));
    hide NumStr;
  }

  lemma UserTextIsNumeral(K: Config, U: Users, s: SymId)
    requires UserStateOk(K, U) && SymOk(K, s) && Numeric(K.syms[s].origType)
    ensures UserStr(U, s).Some? ==> UserStr(U, s).value != ""
  {
    if UserStr(U, s).Some? { assert ValidUserVal(K, s, U.sym[s]); }
  }

  // choices

  lemma SelectionRestored(K: Config, U: Users, U': Users, m: Cache, m': Cache, c: ChoiceId)
    requires ConfigOk(K) && Step(K, U, U', m, m', Sel(c)) && RestoresChoice(K, U, m, U', c)
    ensures m'[Sel(c)] == m[Sel(c)]
  {
    assert ChoiceDefOk(K, c);
    SolutionKnows(K, U, m, Sel(c));
    SolutionKnows(K, U', m', Sel(c));
    StepAgrees(K, U, U', m, m', Sel(c));
    ModeKnown(K, U, m, c);
    assert SameAt(m, m', Vis(Cho(c)));
    ModeTransfer(K, U, U', m, m', c);
    if ChoiceTri(K, U, m, c) == Some(2) { YModeSelectionRestored(K, U, U', m, m', c); }
  }

  lemma SymsVisibleAlike(K: Config, U: Users, U': Users, m: Cache, m': Cache, c: ChoiceId)
    requires ConfigOk(K) && Step(K, U, U', m, m', Sel(c)) && ChoiceDefOk(K, c)
    ensures forall j :: 0 <= j < |K.choices[c].syms| ==>
      GetT(m', Vis(Sym(K.choices[c].syms[j]))) == GetT(m, Vis(Sym(K.choices[c].syms[j])))
  {
    var syms := K.choices[c].syms;
    forall j | 0 <= j < |syms| ensures GetT(m', Vis(Sym(syms[j]))) == GetT(m, Vis(Sym(syms[j]))) {
      assert Vis(Sym(syms[j])) in SelReads(K, c);
    }
  }

  lemma YModeSelectionRestored(K: Config, U: Users, U': Users, m: Cache, m': Cache, c: ChoiceId)
    requires ConfigOk(K) && Step(K, U, U', m, m', Sel(c)) && RestoresChoice(K, U, m, U', c)
    requires ChoiceTri(K, U, m, c) == Some(2) && ChoiceTri(K, U', m', c) == Some(2)
    ensures m'[Sel(c)] == m[Sel(c)]
  {
    SelectionInYMode(K, U, m, c);
    SelectionInYMode(K, U', m', c);
    SymsVisibleAlike(K, U, U', m, m', c);
    if m[Sel(c)].pick.Some? {
      if UserPick(U', c).None? {
        StepAgrees(K, U, U', m, m', Sel(c));
        FromDefaultsTransfer(K, U, U', m, m', c);
      } else {
        hide ConfigOk, Step;
        UserPickWins(K, U', m', c);
      }
    }
  }

  lemma UserPickWins(K: Config, U: Users, m: Cache, c: ChoiceId)
    requires ConfigOk(K) && c < |K.choices| && Known(K, U, m, Sel(c)) && ChoiceTri(K, U, m, c) == Some(2)
    requires UserPick(U, c).Some? && GetT(m, Vis(Sym(UserPick(U, c).value))) != Some(0)
    ensures m[Sel(c)] == P(UserPick(U, c))
  {
  }

  // all slots

  lemma KeyRestored(K: Config, U: Users, U': Users, m: Cache, m': Cache, k: Key)
    requires ConfigOk(K) && Step(K, U, U', m, m', k) && Restores(K, U, m, U')
    ensures m'[k] == m[k]
  {
    if !OwnMatters(K, m, k) {
      OthersRestored(K, U, U', m, m', k);
    } else if k.Sel? {
      SelectionRestored(K, U, U', m, m', k.c);
    } else {
      var s := k.s;
      assert SymDefOk(K, s);
      SolutionKnows(K, U, m, Vis(Sym(s)));
      assert Defined(K.syms[s]);
      if k.StrOf? {
        if K.syms[s].origType == String { TextRestored(K, U, U', m, m', s); } else { NumRestored(K, U, U', m, m', s); }
      } else if K.syms[s].choice.Some? {
        ChoiceSymRestored(K, U, U', m, m', s);
      } else {
        SolutionKnows(K, U, m, TriOf(s));
        PlainRestored(K, U, U', m, m', s);
      }
    }
  }

  /** A user state that restores the values of m has the values of m. */
  lemma {:induction false} RestoredValues(K: Config, rank: Key -> nat, U: Users, U': Users, m: Cache, m': Cache, k: Key)
    requires ConfigOk(K) && Ranked(K, rank) && PlainChoices(K) && UserStateOk(K, U) && UserStateOk(K, U')
    requires Solves(K, U, m) && Solves(K, U', m') && Restores(K, U, m, U') && KeyOk(K, k)
    ensures k in m && k in m' && m'[k] == m[k]
    decreases rank(k)
  {
    KeyReadsOk(K, k);
    forall j | j in KeyReads(K, k) ensures j in m && j in m' && m'[j] == m[j] {
      RestoredValues(K, rank, U, U', m, m', j);
    }
    KeyRestored(K, U, U', m, m', k);
  }
}
