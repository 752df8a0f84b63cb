/**
 * Minimal configurations: although symbols at their default value are left out,
 * loading one gives exactly the values that were saved.
 */
module MinimalTrip {
  import opened Wrappers
  import opened Config
  import opened Values
  import opened Reads
  import opened Meaning
  import opened Invalidation
  import opened ValueLaws
  import opened AssignLaws
  import opened Reload
  import opened ConfText
  import opened ConfigFile
  import opened LoadLaws
  import opened SaveLaws
  import opened RoundTrip

  /** Only bool and tristate symbols are selected, and symbols are visible only if their direct dependencies are met. */
  ghost predicate PlainSelects(K: Config, U: Users, m: Cache)
    requires ConfigOk(K)
  {
    forall s :: 0 <= s < |K.syms| && GetT(m, Vis(Sym(s))) != Some(0) ==>
      SymDefOk(K, s) &&
      (!Boolish(K.syms[s].origType) ==> Eval(K, U, m, K.syms[s].revDep) == Some(0)) &&
      Eval(K, U, m, K.syms[s].directDep) != Some(0)
  }

  /** The symbols with a line in the minimal configuration, among the first n. */
  ghost function KeptSymsOf(K: Config, U: Users, m: Cache, n: nat): (r: set<SymId>)
    requires ConfigOk(K) && n <= |K.definedSyms|
    ensures forall s :: s in r <==> s in K.definedSyms[..n] && KeptInMinimal(K, U, m, s) == Some(true)
  {
    if n == 0 then {}
    else
      assert K.definedSyms[..n] == K.definedSyms[..n - 1] + [K.definedSyms[n - 1]];
      var s := K.definedSyms[n - 1];
      KeptSymsOf(K, U, m, n - 1) + (if KeptInMinimal(K, U, m, s) == Some(true) then {s} else {})
  }

  /** A symbol that is m because it is selected to m, though its default, without the user's say, would make it y. */
  ghost predicate Overruled(K: Config, U: Users, m: Cache, s: SymId)
    requires ConfigOk(K) && SymOk(K, s)
  {
    assert SymDefOk(K, s);
    var d := K.syms[s];
    && Boolish(d.origType) && d.choice.None?
    && GetT(m, Vis(Sym(s))) == Some(1) && GetT(m, TriOf(s)) == Some(1)
    && Eval(K, U, m, d.revDep) == Some(1) && DefaultTri(K, U, m, d.origType, d.defaults) == Some(2)
  }

  ghost function KeptSyms(K: Config, U: Users, m: Cache): set<SymId>
    requires ConfigOk(K)
  {
    KeptSymsOf(K, U, m, |K.definedSyms|)
  }

  /** A choice whose mode is not the one it has if the user mode is what its symbols in the minimal file show. */
  ghost predicate MinimalModeLost(K: Config, U: Users, m: Cache, c: ChoiceId)
    requires ConfigOk(K) && c < |K.choices|
  {
    ChoiceTri(K, WithMode(U, c, SavedMode(K, m, c, KeptSyms(K, U, m))), m, c) != ChoiceTri(K, U, m, c)
  }

  /** Some value cannot be loaded from the minimal configuration. */
  ghost predicate MinimalLossy(K: Config, U: Users, m: Cache)
    requires ConfigOk(K)
  {
    || (exists s :: 0 <= s < |K.syms| && SymLossy(K, U, m, s))
    || (exists c :: 0 <= c < |K.choices| && MinimalModeLost(K, U, m, c))
  }

  ghost predicate SymLossy(K: Config, U: Users, m: Cache, s: SymId)
    requires ConfigOk(K) && SymOk(K, s)
  {
    if KeptInMinimal(K, U, m, s) == Some(true) then YOnlyByDefault(K, U, m, s) else Overruled(K, U, m, s)
  }

  lemma {:induction false} MinimalRecords(
    K: Config, prefix: string, header: seq<string>, U: Users, m: Cache, n: nat)
    requires ConfigOk(K) && UserStateOk(K, U) && Solves(K, U, m) && Writable(K, prefix, m) && PlainChoices(K)
    requires n <= |K.definedSyms| && forall i :: 0 <= i < |header| ==> IsComment(K, prefix, header[i])
    ensures LinesRecord(K, prefix, U, m, Minimal(K, prefix, header, U, m, n), KeptSymsOf(K, U, m, n))
  {
    hide ConfigOk, UserStateOk, Solves, PlainChoices, Writable, Records, IsComment;
    if n == 0 {
      NothingKept(K, prefix, header, U, m);
      HeaderRecords(K, prefix, U, m, header);
    } else {
      MinimalRecords(K, prefix, header, U, m, n - 1);
      MinimalAdvances(K, prefix, header, U, m, n);
    }
  }

  lemma NothingKept(K: Config, prefix: string, header: seq<string>, U: Users, m: Cache)
    requires ConfigOk(K)
    ensures Minimal(K, prefix, header, U, m, 0) == header && KeptSymsOf(K, U, m, 0) == {}
  {
  }

  lemma MinimalAdvances(K: Config, prefix: string, header: seq<string>, U: Users, m: Cache, n: nat)
    requires ConfigOk(K) && UserStateOk(K, U) && Solves(K, U, m) && Writable(K, prefix, m) && PlainChoices(K)
    requires 0 < n <= |K.definedSyms|
    requires LinesRecord(K, prefix, U, m, Minimal(K, prefix, header, U, m, n - 1), KeptSymsOf(K, U, m, n - 1))
    ensures LinesRecord(K, prefix, U, m, Minimal(K, prefix, header, U, m, n), KeptSymsOf(K, U, m, n))
  {
    var s := K.definedSyms[n - 1];
    MinimalStep(K, prefix, header, U, m, n);
    hide ConfigOk, UserStateOk, Solves, PlainChoices, Writable, LinesRecord, KeptInMinimal, SymLine, Minimal, KeptSymsOf;
    if KeptInMinimal(K, U, m, s) == Some(true) {
      SymbolLine(K, prefix, U, m, Minimal(K, prefix, header, U, m, n - 1), KeptSymsOf(K, U, m, n - 1), s);
    }
  }

  lemma MinimalStep(K: Config, prefix: string, header: seq<string>, U: Users, m: Cache, n: nat)
    requires ConfigOk(K) && 0 < n <= |K.definedSyms|
    ensures
      var s := K.definedSyms[n - 1];
      var kept, line := KeptInMinimal(K, U, m, s) == Some(true), SymLine(K, prefix, U, m, s);
      var lines, done := Minimal(K, prefix, header, U, m, n - 1), KeptSymsOf(K, U, m, n - 1);
      && SymOk(K, s) && s !in done
      && Minimal(K, prefix, header, U, m, n) == (if kept && line.Some? then lines + [line.value] else lines)
      && KeptSymsOf(K, U, m, n) == if kept then done + {s} else done
  {
    hide KeptInMinimal, SymLine;
  }

  /** U' has for every symbol what the minimal file says, and nothing for the others. */
  ghost predicate HasMinimal(K: Config, U: Users, m: Cache, U': Users)
    requires ConfigOk(K)
  {
    && (forall s :: 0 <= s < |K.syms| && Defined(K.syms[s]) ==>
          Gives(U', s, if KeptInMinimal(K, U, m, s) == Some(true) then SavedVal(K, U, m, s) else None))
    && (forall c :: 0 <= c < |K.choices| && GetP(m, Sel(c)) != Some(None) ==>
          (UserPick(U', c).None? || Some(UserPick(U', c)) == GetP(m, Sel(c))))
    && (forall c, t :: 0 <= c < |K.choices| && GetP(m, Sel(c)) == Some(Some(t)) && SymOk(K, t) ==>
          (KeptInMinimal(K, U, m, t) == Some(true) ==> UserPick(U', c) == Some(t)))
    && (forall c :: 0 <= c < |K.choices| ==> UserMode(U', c) == SavedMode(K, m, c, KeptSyms(K, U, m)))
  }

  // Left-out symbols

  /** What makes _min_config_contents() leave out a bool symbol makes the defaults give its value. */
  lemma DefaultIsThere(K: Config, U: Users, m: Cache, s: SymId)
    requires ConfigOk(K) && Solves(K, U, m) && SymOk(K, s) && SymDefOk(K, s)
    requires Boolish(K.syms[s].origType) && !IsNmy(K.syms[s]) && K.syms[s].choice.None?
    ensures DefaultTri(K, U, m, K.syms[s].origType, K.syms[s].defaults).Some?
  {
    KeyReadsOk(K, TriOf(s));
    forall k | k in KeyReads(K, TriOf(s)) ensures k in m && ValOk(k, m[k]) { SolutionKnows(K, U, m, k); }
    DefaultTriTotal(K, U, m, K.syms[s].origType, K.syms[s].defaults);
  }

  /** What is left out gets its value from its defaults, unless these overrule it. */
  lemma LeftOutTri(K: Config, U: Users, m: Cache, s: SymId)
    requires ConfigOk(K) && UserStateOk(K, U) && Solves(K, U, m) && SymOk(K, s) && PlainSelects(K, U, m)
    requires Boolish(K.syms[s].origType) && K.syms[s].choice.None? && GetT(m, Vis(Sym(s))) != Some(0)
    requires KeptInMinimal(K, U, m, s) == Some(false)
    ensures Known(K, U, m, TriOf(s)) && PlainTri(K, U, m, s, 0).Some?
    ensures PlainTri(K, U, m, s, 0) == Some(m[TriOf(s)].t) <==> !Overruled(K, U, m, s)
  {
    VisibleIsDefined(K, U, m, s);
    hide PlainSelects;
    var b := PartsAreThere(K, U, m, s);
    hide ConfigOk, Solves, UserStateOk, DefaultTri, KeptInMinimal, Known, HasBounds;
    LeftOutTriValue(K, U, m, s, b);
  }

  /** What the value of a visible symbol is made of. */
  lemma PartsAreThere(K: Config, U: Users, m: Cache, s: SymId) returns (b: Bounds)
    requires ConfigOk(K) && UserStateOk(K, U) && Solves(K, U, m) && SymOk(K, s) && SymDefOk(K, s)
    requires Boolish(K.syms[s].origType) && K.syms[s].choice.None? && !IsNmy(K.syms[s])
    requires GetT(m, Vis(Sym(s))) != Some(0)
    ensures HasBounds(K, U, m, s, b) && b.vis != 0 && (b.isBool ==> b.vis == 2)
    ensures Known(K, U, m, TriOf(s)) && Known(K, U, m, StrOf(s))
    ensures DefaultTri(K, U, m, K.syms[s].origType, K.syms[s].defaults).Some?
  {
    hide ConfigOk, UserStateOk, Solves, SymDefOk, Body, Eval, DefaultTri, SymType;
    b := BoundsExist(K, U, m, s);
    if b.vis == 1 { MVisibleIsTristate(K, U, m, s, b); }
    DefaultIsThere(K, U, m, s);
    SolutionKnows(K, U, m, StrOf(s));
    SolutionKnows(K, U, m, TriOf(s));
  }

  /** A visible symbol is no constant, and its dependencies are met. */
  lemma VisibleIsDefined(K: Config, U: Users, m: Cache, s: SymId)
    requires ConfigOk(K) && Solves(K, U, m) && SymOk(K, s) && PlainSelects(K, U, m)
    requires GetT(m, Vis(Sym(s))) != Some(0)
    ensures SymDefOk(K, s) && !IsNmy(K.syms[s]) && Eval(K, U, m, K.syms[s].directDep) != Some(0)
  {
    assert SymDefOk(K, s);
    SolutionKnows(K, U, m, Vis(Sym(s)));
  }

  /** The value that the defaults give, and the one that there is. */
  lemma LeftOutTriValue(K: Config, U: Users, m: Cache, s: SymId, b: Bounds)
    requires ConfigOk(K) && SymOk(K, s) && SymDefOk(K, s) && HasBounds(K, U, m, s, b)
    requires b.vis != 0 && (b.isBool ==> b.vis == 2)
    requires Boolish(K.syms[s].origType) && K.syms[s].choice.None? && !IsNmy(K.syms[s])
    requires Known(K, U, m, TriOf(s)) && Known(K, U, m, StrOf(s))
    requires DefaultTri(K, U, m, K.syms[s].origType, K.syms[s].defaults).Some?
    requires Eval(K, U, m, K.syms[s].directDep) != Some(0)
    requires KeptInMinimal(K, U, m, s) == Some(false)
    ensures PlainTri(K, U, m, s, 0).Some?
    ensures PlainTri(K, U, m, s, 0) == Some(m[TriOf(s)].t) <==> !Overruled(K, U, m, s)
  {
    var def := DefaultTri(K, U, m, K.syms[s].origType, K.syms[s].defaults).value;
    LeftOutWhen(K, U, m, s, b, def);
    ValueIs(K, U, m, s, b, def);
    hide ConfigOk, SymDefOk, Known, KeptInMinimal, PlainTri, DefaultTri;
  }

  /** m becomes y for bool symbols and for those implied to y. */
  function Promoted(b: Bounds, val: Tri): Tri { if val == 1 && (b.isBool || b.weak == 2) then 2 else val }

  lemma LeftOutWhen(K: Config, U: Users, m: Cache, s: SymId, b: Bounds, def: Tri)
    requires ConfigOk(K) && SymOk(K, s) && SymDefOk(K, s) && HasBounds(K, U, m, s, b)
    requires Boolish(K.syms[s].origType) && K.syms[s].choice.None? && !IsNmy(K.syms[s])
    requires Known(K, U, m, TriOf(s)) && Known(K, U, m, StrOf(s))
    requires DefaultTri(K, U, m, K.syms[s].origType, K.syms[s].defaults) == Some(def)
    requires KeptInMinimal(K, U, m, s) == Some(false)
    ensures b.vis <= b.rev || m[TriOf(s)].t == Promoted(b, Max(Max(b.rev, b.weak), def))
  {
    assert m[StrOf(s)].str == TriToStr(m[TriOf(s)].t);
    hide DefaultTri;
  }

  lemma ValueIs(K: Config, U: Users, m: Cache, s: SymId, b: Bounds, def: Tri)
    requires ConfigOk(K) && SymOk(K, s) && SymDefOk(K, s) && HasBounds(K, U, m, s, b) && b.vis != 0
    requires Boolish(K.syms[s].origType) && K.syms[s].choice.None? && !IsNmy(K.syms[s])
    requires Known(K, U, m, TriOf(s)) && Eval(K, U, m, K.syms[s].directDep) != Some(0)
    requires DefaultTri(K, U, m, K.syms[s].origType, K.syms[s].defaults) == Some(def)
    ensures PlainTri(K, U, m, s, 0) == Some(Promoted(b, Max(b.rev, Max(b.weak, def))))
    ensures
      m[TriOf(s)].t == Promoted(b, Max(b.rev, if UserTri(U, s).Some? then Min(UserTri(U, s).value, b.vis) else Max(b.weak, def)))
  {
    assert ImplyTri(K, U, m, s) == Some(b.weak) && SelectTri(K, U, m, s) == Some(b.rev);
    assert WantedTri(K, U, m, s, 0) == Some(Max(b.weak, def));
    assert PlainTri(K, U, m, s, 0) == Promote(K, U, m, s, Max(b.rev, Max(b.weak, def)));
    assert Some(m[TriOf(s)].t) == PlainTri(K, U, m, s, b.vis);
    hide DefaultTri;
  }

  lemma LeftOutText(K: Config, U: Users, m: Cache, s: SymId)
    requires ConfigOk(K) && UserStateOk(K, U) && Solves(K, U, m) && SymOk(K, s) && PlainSelects(K, U, m)
    requires K.syms[s].origType == String && GetT(m, Vis(Sym(s))) != Some(0)
    requires KeptInMinimal(K, U, m, s) == Some(false)
    ensures Known(K, U, m, StrOf(s)) && TextStr(K, U, m, s, 0) == Some(m[StrOf(s)].str)
  {
    assert SymDefOk(K, s);
    SolutionKnows(K, U, m, StrOf(s));
    SolutionKnows(K, U, m, Vis(Sym(s)));
    var choice := K.syms[s].choice;
    assert Eval(K, U, m, K.syms[s].revDep) == Some(0);
  }

  lemma LeftOutNum(K: Config, U: Users, m: Cache, s: SymId)
    requires ConfigOk(K) && UserStateOk(K, U) && Solves(K, U, m) && SymOk(K, s) && PlainSelects(K, U, m)
    requires Numeric(K.syms[s].origType) && GetT(m, Vis(Sym(s))) != Some(0)
    requires KeptInMinimal(K, U, m, s) == Some(false)
    ensures Known(K, U, m, StrOf(s)) && NumStr(K, U, m, s, 0) == Some(m[StrOf(s)].str)
  {
    assert SymDefOk(K, s);
    SolutionKnows(K, U, m, StrOf(s));
    SolutionKnows(K, U, m, Vis(Sym(s)));
    assert Eval(K, U, m, K.syms[s].revDep) == Some(0);
    hide ConfigOk, Solves, UserStateOk, PlainSelects, ActiveRange, DefaultStr;
    assert NumStr(K, U, m, s, m[Vis(Sym(s))].t) == Some(m[StrOf(s)].str);
  }

  /** The one y symbol that is left out of a choice is the one its defaults select. */
  lemma LeftOutSelection(K: Config, U: Users, m: Cache, c: ChoiceId, t: SymId)
    requires ConfigOk(K) && UserStateOk(K, U) && Solves(K, U, m) && PlainChoices(K) && c < |K.choices|
    requires GetP(m, Sel(c)) == Some(Some(t)) && SymOk(K, t)
    requires KeptInMinimal(K, U, m, t) == Some(false)
    ensures SelectionFromDefaults(K, U, m, c) == Some(Some(t))
  {
    SelectionIsOwn(K, U, m, c, t);
    OnlySelectionIsY(K, U, m, t, c);
    ValuesAreThere(K, U, m, t);
    assert SymDefOk(K, t);
  }

  // Loading it

  /** The test is defined for every symbol. */
  lemma KeptIsDefined(K: Config, U: Users, m: Cache, s: SymId)
    requires ConfigOk(K) && UserStateOk(K, U) && Solves(K, U, m) && SymOk(K, s)
    requires Defined(K.syms[s])
    ensures KeptInMinimal(K, U, m, s).Some?
  {
    assert SymDefOk(K, s);
    var d := K.syms[s];
    ValuesAreThere(K, U, m, s);
    SolutionKnows(K, U, m, TriOf(s));
    SolutionKnows(K, U, m, StrOf(s));
    var b := BoundsExist(K, U, m, s);
    DefaultReadsOk(K, d.origType, d.defaults);
    forall k | k in DefaultReads(K, d.origType, d.defaults) ensures k in m && ValOk(k, m[k]) { SolutionKnows(K, U, m, k); }
    if Boolish(d.origType) {
      DefaultTriTotal(K, U, m, d.origType, d.defaults);
    } else if d.origType != Unknown {
      DefaultStrTotal(K, U, m, d.origType, d.defaults);
    }
    if d.choice.Some? {
      SelReadsOk(K, d.choice.value);
      forall k | k in SelReads(K, d.choice.value) ensures k in m && ValOk(k, m[k]) { SolutionKnows(K, U, m, k); }
      SelTotal(K, U, m, d.choice.value);
    }
  }

  lemma LeftOutRestoresSym(K: Config, U: Users, m: Cache, U': Users, s: SymId)
    requires ConfigOk(K) && UserStateOk(K, U) && Solves(K, U, m) && PlainChoices(K) && PlainSelects(K, U, m)
    requires SymOk(K, s) && GetT(m, Vis(Sym(s))) != Some(0) && !Overruled(K, U, m, s)
    requires KeptInMinimal(K, U, m, s) == Some(false) && Gives(U', s, None)
    ensures RestoresSym(K, U, m, U', s)
  {
    hide ConfigOk, UserStateOk, Solves, PlainChoices, PlainSelects, KeptInMinimal, Overruled, PlainTri, TextStr, NumStr;
    match K.syms[s].origType
    case Bool => if K.syms[s].choice.None? { LeftOutTri(K, U, m, s); } else { LeftOutMember(K, U, m, s); }
    case Tristate => if K.syms[s].choice.None? { LeftOutTri(K, U, m, s); } else { LeftOutMember(K, U, m, s); }
    case String => LeftOutText(K, U, m, s);
    case Int => LeftOutNum(K, U, m, s);
    case Hex => LeftOutNum(K, U, m, s);
    case Unknown =>
  }

  /** No m symbol of a choice is left out. */
  lemma LeftOutMember(K: Config, U: Users, m: Cache, s: SymId)
    requires ConfigOk(K) && UserStateOk(K, U) && Solves(K, U, m) && PlainChoices(K)
    requires SymOk(K, s) && K.syms[s].choice.Some? && Boolish(K.syms[s].origType)
    requires KeptInMinimal(K, U, m, s) == Some(false)
    ensures GetT(m, TriOf(s)) != Some(1)
  {
    ValuesAreThere(K, U, m, s);
    assert SymDefOk(K, s);
  }

  lemma MinimalRestoresSym(K: Config, U: Users, m: Cache, U': Users, s: SymId)
    requires ConfigOk(K) && UserStateOk(K, U) && Solves(K, U, m) && AllSaved(K) && PlainChoices(K) && PlainSelects(K, U, m)
    requires SymOk(K, s) && Defined(K.syms[s]) && GetT(m, Vis(Sym(s))) != Some(0) && !SymLossy(K, U, m, s)
    requires Gives(U', s, if KeptInMinimal(K, U, m, s) == Some(true) then SavedVal(K, U, m, s) else None)
    ensures RestoresSym(K, U, m, U', s)
  {
    hide ConfigOk, UserStateOk, Solves, AllSaved, PlainChoices, PlainSelects, KeptInMinimal, RestoresSym, SavedVal,
         YOnlyByDefault, Overruled;
    KeptIsDefined(K, U, m, s);
    var kept := KeptInMinimal(K, U, m, s).value;
    if kept {
      SavedRestoresSym(K, U, m, U', s);
    } else {
      assert KeptInMinimal(K, U, m, s) == Some(false);
      LeftOutRestoresSym(K, U, m, U', s);
    }
  }

  lemma MinimalRestoresChoice(K: Config, U: Users, m: Cache, U': Users, c: ChoiceId)
    requires ConfigOk(K) && UserStateOk(K, U) && Solves(K, U, m) && PlainChoices(K) && HasMinimal(K, U, m, U')
    requires c < |K.choices|
    ensures RestoresChoice(K, U, m, U', c)
  {
    SolutionKnows(K, U, m, Sel(c));
    if m[Sel(c)].pick.Some? {
      var t := m[Sel(c)].pick.value;
      SelectionIsOwn(K, U, m, c, t);
      assert SymDefOk(K, t) && Boolish(K.syms[t].origType);
      KeptIsDefined(K, U, m, t);
      if KeptInMinimal(K, U, m, t) == Some(false) { LeftOutSelection(K, U, m, c, t); }
    }
  }

  lemma ReloadedHasMinimal(K: Config, prefix: string, U: Users, m: Cache, U0: Users, lines: seq<string>)
    requires ConfigOk(K) && UserStateOk(K, U) && UserStateOk(K, U0) && Solves(K, U, m) && PlainChoices(K)
    requires LinesRecord(K, prefix, U, m, lines, KeptSymsOf(K, U, m, |K.definedSyms|))
    ensures HasMinimal(K, U, m, Reloaded(K, prefix, U0, lines))
  {
    LinesReadBack(lines);
    var U' := Loaded(K, prefix, U0, lines);
    var done := KeptSymsOf(K, U, m, |K.definedSyms|);
    assert K.definedSyms[..|K.definedSyms|] == K.definedSyms;
    forall s | 0 <= s < |K.syms| && Defined(K.syms[s])
      ensures Gives(U', s, if KeptInMinimal(K, U, m, s) == Some(true) then SavedVal(K, U, m, s) else None)
    {
      LoadedSyms(K, prefix, U0, lines, s);
    }
    forall c | 0 <= c < |K.choices| && GetP(m, Sel(c)) != Some(None)
      ensures UserPick(U', c).None? || Some(UserPick(U', c)) == GetP(m, Sel(c))
      ensures forall t :: GetP(m, Sel(c)) == Some(Some(t)) && SymOk(K, t) ==>
        (KeptInMinimal(K, U, m, t) == Some(true) ==> UserPick(U', c) == Some(t))
    {
      SolutionKnows(K, U, m, Sel(c));
      LoadedChoices(K, prefix, U0, lines, c);
      var t := GetP(m, Sel(c)).value.value;
      SelectionIsOwn(K, U, m, c, t);
      assert SymDefOk(K, t);
      PickComesWithMode(K, prefix, U, m, lines, done, c);
    }
    LoadedModes(K, prefix, U, m, U0, lines, done);
  }

  /** If there is a selection, the file gives no mode without it. */
  lemma PickComesWithMode(K: Config, prefix: string, U: Users, m: Cache, lines: seq<string>, done: set<SymId>, c: ChoiceId)
    requires ConfigOk(K) && UserStateOk(K, U) && Solves(K, U, m) && PlainChoices(K) && c < |K.choices|
    requires RecordsChoice(K, prefix, m, lines, done, c) && GetP(m, Sel(c)) != Some(None)
    ensures ModeIn(K, prefix, lines, c).Some? ==> PickIn(K, prefix, lines, c).Some?
  {
    NoSelectionOutsideYMode(K, U, m, c);
    if ModeIn(K, prefix, lines, c).Some? {
      var y :| y in done && InChoice(K, y, c) && (GetT(m, TriOf(y)) == Some(2) || GetT(m, TriOf(y)) == Some(1));
      OnlySelectionIsY(K, U, m, y, c);
    }
  }

  // Loss

  /** A symbol that its defaults overrule gets y when it is left out. */
  lemma OverruledIsLost(K: Config, U: Users, m: Cache, U': Users, m': Cache, s: SymId)
    requires ConfigOk(K) && UserStateOk(K, U) && UserStateOk(K, U') && PlainChoices(K) && PlainSelects(K, U, m)
    requires Solves(K, U, m) && Solves(K, U', m') && SymOk(K, s) && Overruled(K, U, m, s)
    requires KeptInMinimal(K, U, m, s) == Some(false) && Gives(U', s, None)
    ensures !SameValues(K, U, U', m, m')
  {
    if SameValues(K, U, U', m, m') {
      SameMaps(K, U, U', m, m');
      KeyReadsOk(K, TriOf(s));
      LeftOutTri(K, U, m, s);
      VisibleIsDefined(K, U, m, s);
      SolutionKnows(K, U', m', TriOf(s));
      DefaultTriRestored(K, U, U', m, m', s, 1);
    }
  }

  lemma SymLossyIsLost(K: Config, U: Users, m: Cache, U': Users, m': Cache, s: SymId)
    requires ConfigOk(K) && PlainChoices(K) && PlainSelects(K, U, m) && AllSaved(K) && UserStateOk(K, U) && UserStateOk(K, U')
    requires Solves(K, U, m) && Solves(K, U', m') && SymOk(K, s) && SymLossy(K, U, m, s) && Defined(K.syms[s])
    requires Gives(U', s, if KeptInMinimal(K, U, m, s) == Some(true) then SavedVal(K, U, m, s) else None)
    ensures !SameValues(K, U, U', m, m')
  {
    hide ConfigOk, Solves, UserStateOk, PlainChoices, PlainSelects, SameValues, SavedVal, KeptInMinimal, YOnlyByDefault,
         Overruled, AllSaved;
    KeptIsDefined(K, U, m, s);
    var kept := KeptInMinimal(K, U, m, s).value;
    if kept {
      YOnlyByDefaultIsLost(K, U, m, U', m', s);
    } else {
      assert KeptInMinimal(K, U, m, s) == Some(false);
      OverruledIsLost(K, U, m, U', m', s);
    }
  }

  lemma SymLossyIsDefined(K: Config, U: Users, m: Cache, s: SymId)
    requires ConfigOk(K) && Solves(K, U, m) && SymOk(K, s) && SymLossy(K, U, m, s)
    ensures Defined(K.syms[s])
  {
    hide Solves, KeptInMinimal, DefaultTri, Eval;
    YIsDefined(K, U, m, s);
  }

  lemma MinimalLossyIsLost(K: Config, U: Users, m: Cache, U': Users, m': Cache)
    requires ConfigOk(K) && PlainChoices(K) && PlainSelects(K, U, m) && AllSaved(K) && UserStateOk(K, U) && UserStateOk(K, U')
    requires Solves(K, U, m) && Solves(K, U', m') && HasMinimal(K, U, m, U') && MinimalLossy(K, U, m)
    ensures !SameValues(K, U, U', m, m')
  {
    hide ConfigOk, Solves, UserStateOk, PlainChoices, PlainSelects, AllSaved, SameValues, SavedVal, KeptInMinimal, SymLossy,
         ChoiceTri, SavedMode;
    if s :| 0 <= s < |K.syms| && SymLossy(K, U, m, s) {
      SymLossyIsDefined(K, U, m, s);
      SymLossyIsLost(K, U, m, U', m', s);
    } else {
      var c :| 0 <= c < |K.choices| && MinimalModeLost(K, U, m, c);
      ModeLostIsLost(K, U, m, U', m', c, SavedMode(K, m, c, KeptSyms(K, U, m)));
    }
  }

  lemma MinimalRestores(K: Config, U: Users, m: Cache, U': Users)
    requires ConfigOk(K) && PlainChoices(K) && PlainSelects(K, U, m) && AllSaved(K) && UserStateOk(K, U)
    requires Solves(K, U, m) && HasMinimal(K, U, m, U') && !MinimalLossy(K, U, m)
    ensures Restores(K, U, m, U')
  {
    forall s | 0 <= s < |K.syms| && Defined(K.syms[s]) && GetT(m, Vis(Sym(s))) != Some(0)
      ensures RestoresSym(K, U, m, U', s)
    {
      assert !SymLossy(K, U, m, s);
      MinimalRestoresSym(K, U, m, U', s);
    }
    forall c | 0 <= c < |K.choices| ensures RestoresChoice(K, U, m, U', c) && SameModeAt(K, U, U', m, c) {
      MinimalRestoresChoice(K, U, m, U', c);
      assert !MinimalModeLost(K, U, m, c);
      ModeFromUserMode(K, WithMode(U, c, SavedMode(K, m, c, KeptSyms(K, U, m))), U', m, c);
    }
  }

  ghost predicate SelectionLeftOut(K: Config, U: Users, m: Cache, c: ChoiceId)
    requires ConfigOk(K)
  {
    exists s :: InChoice(K, s, c) && GetT(m, TriOf(s)) == Some(2) && KeptInMinimal(K, U, m, s) == Some(false)
  }

  /**
   * A minimal configuration loses the mode of a choice where the full one does, and where the
   * selection of a tristate choice in y mode is left out because the defaults select it.
   */
  lemma MinimalModeLostWhen(K: Config, U: Users, m: Cache, c: ChoiceId)
    requires ConfigOk(K) && UserStateOk(K, U) && Solves(K, U, m) && PlainChoices(K) && c < |K.choices|
    ensures MinimalModeLost(K, U, m, c) <==>
      ModeLost(K, U, m, c) || (SelectionLeftOut(K, U, m, c) && ChoiceType(K, m, c) == Some(Tristate))
  {
    ModeKnown(K, U, m, c);
    SolutionKnows(K, U, m, TriOf(K.modules));
    assert Boolish(K.choices[c].origType) && ChoiceType(K, m, c).Some?;
    KeptModeIs(K, U, m, c);
    ShownModeIs(K, U, m, c);
    hide ConfigOk, UserStateOk, Solves, PlainChoices, InChoice, ShownMode, KeptSyms, SelectionLeftOut, NoneVisible, NoneIsM,
         ChoiceType;
    ModeWithout(K, U, m, c);
  }

  /** The mode that the kept symbols show is the one that all show, unless the selection is left out. */
  lemma KeptModeIs(K: Config, U: Users, m: Cache, c: ChoiceId)
    requires ConfigOk(K) && UserStateOk(K, U) && Solves(K, U, m) && PlainChoices(K) && c < |K.choices|
    ensures
      if SelectionLeftOut(K, U, m, c) then
        ChoiceTri(K, U, m, c) == Some(2) && !K.choices[c].isOptional && ShownMode(K, m, c) == Some(2) &&
        SavedMode(K, m, c, KeptSyms(K, U, m)) == None
      else SavedMode(K, m, c, KeptSyms(K, U, m)) == ShownMode(K, m, c)
  {
    var kept, all := KeptSyms(K, U, m), DefinedSet(K);
    assert K.definedSyms[..|K.definedSyms|] == K.definedSyms;
    forall s | InChoice(K, s, c)
      ensures s in all && (s in kept <==> KeptInMinimal(K, U, m, s) == Some(true)) && KeptInMinimal(K, U, m, s).Some?
      ensures GetT(m, TriOf(s)) == Some(2) ==> ChoiceTri(K, U, m, c) == Some(2) && GetP(m, Sel(c)) == Some(Some(s))
      ensures GetT(m, TriOf(s)) == Some(1) ==> s in kept && ChoiceTri(K, U, m, c) != Some(2)
      ensures GetT(m, TriOf(s)) == Some(2) && s !in kept ==> !K.choices[c].isOptional
    {
      MemberKept(K, U, m, s, c);
    }
    hide ConfigOk, UserStateOk, Solves, PlainChoices, InChoice, KeptSyms, DefinedSet, KeptInMinimal, ChoiceTri;
    assert forall t :: HasMember(K, m, c, kept, t) ==> HasMember(K, m, c, all, t);
    assert HasMember(K, m, c, all, 1) ==> HasMember(K, m, c, kept, 1);
  }

  lemma MemberKept(K: Config, U: Users, m: Cache, s: SymId, c: ChoiceId)
    requires ConfigOk(K) && UserStateOk(K, U) && Solves(K, U, m) && PlainChoices(K) && c < |K.choices| && InChoice(K, s, c)
    ensures s in DefinedSet(K) && (s in KeptSyms(K, U, m) <==> KeptInMinimal(K, U, m, s) == Some(true))
    ensures KeptInMinimal(K, U, m, s).Some?
    ensures GetT(m, TriOf(s)) == Some(2) ==> ChoiceTri(K, U, m, c) == Some(2) && GetP(m, Sel(c)) == Some(Some(s))
    ensures GetT(m, TriOf(s)) == Some(1) ==> KeptInMinimal(K, U, m, s) == Some(true) && ChoiceTri(K, U, m, c) != Some(2)
    ensures GetT(m, TriOf(s)) == Some(2) && KeptInMinimal(K, U, m, s) != Some(true) ==> !K.choices[c].isOptional
  {
    assert K.definedSyms[..|K.definedSyms|] == K.definedSyms;
    assert SymDefOk(K, s) && Boolish(K.syms[s].origType);
    MembersDefined(K, s, c);
    OnlySelectionIsY(K, U, m, s, c);
    KeptIsDefined(K, U, m, s);
    if KeptInMinimal(K, U, m, s) == Some(false) {
      LeftOutMember(K, U, m, s);
      if GetT(m, TriOf(s)) == Some(2) { LeftOutYMember(K, U, m, s, c); }
    }
    hide ConfigOk, UserStateOk, Solves, PlainChoices, KeptInMinimal, ChoiceTri, SymDefOk;
  }

  lemma LeftOutYMember(K: Config, U: Users, m: Cache, s: SymId, c: ChoiceId)
    requires ConfigOk(K) && UserStateOk(K, U) && Solves(K, U, m) && PlainChoices(K) && c < |K.choices| && InChoice(K, s, c)
    requires GetT(m, TriOf(s)) == Some(2) && KeptInMinimal(K, U, m, s) == Some(false)
    ensures !K.choices[c].isOptional
  {
    ValuesAreThere(K, U, m, s);
    assert SymDefOk(K, s);
  }

  /**
   * Replacing any configuration by a minimal one gives back all values and modes, exactly if
   * no symbol in it is y by a default alone, none left out is overruled by its default, and
   * the symbols in it show the modes of the choices.
   */
  lemma MinimalRoundTrip(
    K: Config, rank: Key -> nat, prefix: string, header: seq<string>, U: Users, m: Cache, U0: Users, m': Cache)
    requires ConfigOk(K) && Ranked(K, rank) && PlainChoices(K) && AllSaved(K) && PlainSelects(K, U, m)
    requires forall i :: 0 <= i < |header| ==> IsComment(K, prefix, header[i])
    requires UserStateOk(K, U) && Solves(K, U, m) && Writable(K, prefix, m) && UserStateOk(K, U0)
    requires Solves(K, Reloaded(K, prefix, U0, Minimal(K, prefix, header, U, m, |K.definedSyms|)), m')
    ensures SameValues(K, U, Reloaded(K, prefix, U0, Minimal(K, prefix, header, U, m, |K.definedSyms|)), m, m') <==>
            !MinimalLossy(K, U, m)
  {
    var lines := Minimal(K, prefix, header, U, m, |K.definedSyms|);
    MinimalRecords(K, prefix, header, U, m, |K.definedSyms|);
    ReloadedHasMinimal(K, prefix, U, m, U0, lines);
    var U' := ReloadedUsers(K, prefix, U0, lines);
    hide ConfigOk, Solves, UserStateOk, PlainChoices, PlainSelects, HasMinimal, Writable, Minimal, MinimalLossy, Reloaded,
         SameValues, Restores;
    if MinimalLossy(K, U, m) {
      MinimalLossyIsLost(K, U, m, U', m');
    } else {
      MinimalRestores(K, U, m, U');
      forall k | KeyOk(K, k) ensures k in m && k in m' && m'[k] == m[k] {
        RestoredValues(K, rank, U, U', m, m', k);
      }
      AllRestored(K, U, U', m, m');
    }
  }
}
