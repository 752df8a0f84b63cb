/**
 * Which symbols a minimal configuration leaves out, compared with the values they have in the
 * state in which the user has said nothing about them.
 */
module MinimalLaws {
  import opened Wrappers
  import opened Numerals
  import opened Config
  import opened Values
  import opened Reads
  import opened Meaning
  import opened Invalidation
  import opened ValueLaws
  import opened AssignLaws
  import opened ConfigFile
  import opened MinimalTrip
  import opened ExprMeaning
  import opened SlotMeaning

  // The state without the user value of one symbol

  /** The slot that the user value of s has its effect on. */
  function OwnSlot(K: Config, s: SymId): Key
    requires SymOk(K, s)
  {
    if Boolish(K.syms[s].origType) then TriOf(s) else StrOf(s)
  }

  lemma OwnReadsUnchanged(K: Config, rank: Key -> nat, U: Users, U': Users, m: Cache, m': Cache, s: SymId)
    requires ConfigOk(K) && Ranked(K, rank) && UserStateOk(K, U) && UserStateOk(K, U')
    requires Solves(K, U, m) && Solves(K, U', m') && SymOk(K, s) && OnlySym(U, U', s)
    ensures Agree(K, U, U', m, m', KeyReads(K, OwnSlot(K, s)))
  {
    var own := OwnSlot(K, s);
    KeyReadsOk(K, own);
    forall c ensures UserMode(U, c) == UserMode(U', c) { assert SameOwn(U, U', Cho(c)); }
    forall j | j in KeyReads(K, own) ensures SameAt(m, m', j) {
      forall i | KeyOk(K, i) && rank(i) <= rank(j) && OwnMatters(K, m, i) ensures SameOwn(U, U', ItemOf(i)) {
        assert i != own;
      }
      BelowIsUnchanged(K, rank, U, U', m, m', j, rank(j));
    }
  }

  /** What defaults, selects and implies give a symbol does not depend on its own user value. */
  lemma TriPartsUnchanged(K: Config, rank: Key -> nat, U: Users, U': Users, m: Cache, m': Cache, s: SymId)
    requires ConfigOk(K) && Ranked(K, rank) && UserStateOk(K, U) && UserStateOk(K, U')
    requires Solves(K, U, m) && Solves(K, U', m') && SymOk(K, s) && SymDefOk(K, s) && OnlySym(U, U', s)
    requires Boolish(K.syms[s].origType) && !IsNmy(K.syms[s]) && K.syms[s].choice.None?
    ensures DefaultTri(K, U, m, K.syms[s].origType, K.syms[s].defaults).Some?
    ensures DefaultTri(K, U', m', K.syms[s].origType, K.syms[s].defaults) == DefaultTri(K, U, m, K.syms[s].origType, K.syms[s].defaults)
    ensures Eval(K, U', m', K.syms[s].directDep) == Eval(K, U, m, K.syms[s].directDep) == Some(Truth(K, U, m, K.syms[s].directDep))
  {
    var d := K.syms[s];
    OwnReadsUnchanged(K, rank, U, U', m, m', s);
    DefaultIsThere(K, U, m, s);
    var R := KeyReads(K, TriOf(s));
    AgreeSubset(K, U, U', m, m', R, ExprReads(K, d.directDep));
    AgreeSubset(K, U, U', m, m', R, DefaultReads(K, d.origType, d.defaults));
    TruthIsEval(K, U, m, d.directDep);
    EvalTransfer(K, U, U', m, m', d.directDep);
    DefaultTriTransfer(K, U, U', m, m', d.origType, d.defaults);
  }

  /** The direct dependencies are not met, but something implies the symbol. */
  ghost predicate ImpliedInVain(K: Config, U: Users, m: Cache, s: SymId)
    requires ConfigOk(K) && SymOk(K, s) && SymDefOk(K, s)
  {
    Truth(K, U, m, K.syms[s].directDep) == 0 && Truth(K, U, m, K.syms[s].weakRevDep) != 0
  }

  /** A select, an imply or the first default whose condition is met would make s at least v. */
  ghost predicate DefaultsReach(K: Config, U: Users, m: Cache, s: SymId, i: nat, v: Tri)
    requires ConfigOk(K) && SymOk(K, s) && SymDefOk(K, s)
  {
    var d := K.syms[s];
    || Truth(K, U, m, d.revDep) >= v || Truth(K, U, m, d.weakRevDep) >= v
    || (i < |d.defaults| && Truth(K, U, m, d.defaults[i].value) >= v && Truth(K, U, m, d.defaults[i].cond) >= v)
  }

  /** The value is what defaults, selects and implies would give if the dependencies were met. */
  ghost predicate AsIfMet(K: Config, U: Users, m: Cache, s: SymId, i: nat)
    requires ConfigOk(K) && SymOk(K, s) && SymDefOk(K, s)
  {
    && (GetT(m, TriOf(s)) != Some(0) <==> DefaultsReach(K, U, m, s, i, 1))
    && (GetT(m, TriOf(s)) == Some(2) <==>
          DefaultsReach(K, U, m, s, i, 2) || (DefaultsReach(K, U, m, s, i, 1) && !CanBeM(K, U, m, s)))
  }

  lemma StrDefaultOfTri(K: Config, U: Users, m: Cache, s: SymId, i: nat)
    requires ConfigOk(K) && Solves(K, U, m) && SymOk(K, s) && SymDefOk(K, s)
    requires Boolish(K.syms[s].origType) && !IsNmy(K.syms[s]) && K.syms[s].choice.None?
    requires FirstMet(K, U, m, K.syms[s].origType, K.syms[s].defaults, i)
    ensures Known(K, U, m, StrOf(s)) && StrDefault(K, U, m, s).Some?
    ensures StrDefault(K, U, m, s) == Some(m[StrOf(s)].str) <==> AsIfMet(K, U, m, s, i)
  {
    var d := K.syms[s];
    TextOfTri(K, U, m, s);
    var def := if i < |d.defaults| then Min(Truth(K, U, m, d.defaults[i].value), Truth(K, U, m, d.defaults[i].cond)) else 0;
    var val := Max(Max(Truth(K, U, m, d.revDep), Truth(K, U, m, d.weakRevDep)), def);
    StrDefaultIs(K, U, m, s, i, val);
    ReachIs(K, U, m, s, i, val, 1);
    ReachIs(K, U, m, s, i, val, 2);
    var given: Tri := if val == 1 && !CanBeM(K, U, m, s) then 2 else val;
    LettersDiffer(given, m[TriOf(s)].t);
    hide CanBeM, Truth, ConfigOk, Solves, SymDefOk, FirstMet, StrDefault, Eval, DefaultsReach, Min, Max, TriToStr, Body;
  }

  lemma TextOfTri(K: Config, U: Users, m: Cache, s: SymId)
    requires ConfigOk(K) && Solves(K, U, m) && SymOk(K, s) && Boolish(K.syms[s].origType)
    ensures Known(K, U, m, StrOf(s)) && Known(K, U, m, TriOf(s)) && m[StrOf(s)].str == TriToStr(m[TriOf(s)].t)
  {
    SolutionKnows(K, U, m, StrOf(s));
    SolutionKnows(K, U, m, TriOf(s));
  }

  lemma LettersDiffer(a: Tri, b: Tri)
    ensures TriToStr(a) == TriToStr(b) <==> a == b
  {
  }

  lemma ReachIs(K: Config, U: Users, m: Cache, s: SymId, i: nat, val: Tri, v: Tri)
    requires ConfigOk(K) && SymOk(K, s) && SymDefOk(K, s) && v > 0
    requires
      var d := K.syms[s];
      var def := if i < |d.defaults| then Min(Truth(K, U, m, d.defaults[i].value), Truth(K, U, m, d.defaults[i].cond)) else 0;
      val == Max(Max(Truth(K, U, m, d.revDep), Truth(K, U, m, d.weakRevDep)), def)
    ensures DefaultsReach(K, U, m, s, i, v) <==> val >= v
  {
    hide Truth, ConfigOk, SymDefOk;
  }

  lemma StrDefaultIs(K: Config, U: Users, m: Cache, s: SymId, i: nat, val: Tri)
    requires ConfigOk(K) && Solves(K, U, m) && SymOk(K, s) && SymDefOk(K, s)
    requires Boolish(K.syms[s].origType) && !IsNmy(K.syms[s]) && K.syms[s].choice.None?
    requires FirstMet(K, U, m, K.syms[s].origType, K.syms[s].defaults, i)
    requires
      var d := K.syms[s];
      var def := if i < |d.defaults| then Min(Truth(K, U, m, d.defaults[i].value), Truth(K, U, m, d.defaults[i].cond)) else 0;
      val == Max(Max(Truth(K, U, m, d.revDep), Truth(K, U, m, d.weakRevDep)), def)
    ensures StrDefault(K, U, m, s) == Some(TriToStr(if val == 1 && !CanBeM(K, U, m, s) then 2 else val))
  {
    var d := K.syms[s];
    DefaultTriMeans(K, U, m, d.origType, d.defaults, i);
    TruthIsEval(K, U, m, d.revDep);
    TruthIsEval(K, U, m, d.weakRevDep);
    TypeMeans(K, U, m, s);
    hide CanBeM, Eval, Truth, SymType, DefaultTri, ConfigOk, Solves, SymDefOk, FirstMet, Min, TriToStr;
  }

  /** Unless it is implied in vain, what a bool or tristate symbol is compared with is its value without a user value. */
  lemma StrDefaultIsWithout(K: Config, rank: Key -> nat, U: Users, m: Cache, m0: Cache, s: SymId)
    requires ConfigOk(K) && Ranked(K, rank) && UserStateOk(K, U) && Solves(K, U, m) && Solves(K, AfterUnset(U, s), m0)
    requires SymOk(K, s) && SymDefOk(K, s) && Boolish(K.syms[s].origType) && !IsNmy(K.syms[s]) && K.syms[s].choice.None?
    requires !ImpliedInVain(K, U, m, s)
    ensures Known(K, AfterUnset(U, s), m0, StrOf(s)) && StrDefault(K, U, m, s) == Some(m0[StrOf(s)].str)
  {
    var U0, d := AfterUnset(U, s), K.syms[s];
    UnsetChanges(K, U, s);
    TriPartsUnchanged(K, rank, U, U0, m, m0, s);
    TruthIsEval(K, U, m, d.weakRevDep);
    var b := BoundsExist(K, U, m, s);
    BoundsUnchanged(K, rank, U, U0, m, m0, s, b);
    SolutionKnows(K, U0, m0, TriOf(s));
    SolutionKnows(K, U0, m0, StrOf(s));
    SolutionKnows(K, U0, m0, Vis(Sym(s)));
    WithoutUser(K, U, m, m0, s, b, DefaultTri(K, U, m, d.origType, d.defaults).value);
  }

  lemma WithoutUser(K: Config, U: Users, m: Cache, m0: Cache, s: SymId, b: Bounds, def: Tri)
    requires ConfigOk(K) && SymOk(K, s) && SymDefOk(K, s)
    requires Boolish(K.syms[s].origType) && !IsNmy(K.syms[s]) && K.syms[s].choice.None?
    requires HasBounds(K, U, m, s, b) && HasBounds(K, AfterUnset(U, s), m0, s, b)
    requires DefaultTri(K, U, m, K.syms[s].origType, K.syms[s].defaults) == Some(def)
    requires DefaultTri(K, AfterUnset(U, s), m0, K.syms[s].origType, K.syms[s].defaults) == Some(def)
    requires Eval(K, AfterUnset(U, s), m0, K.syms[s].directDep) != Some(0) || b.weak == 0
    requires Known(K, AfterUnset(U, s), m0, TriOf(s)) && Known(K, AfterUnset(U, s), m0, StrOf(s))
    ensures StrDefault(K, U, m, s) == Some(m0[StrOf(s)].str)
  {
    var U0 := AfterUnset(U, s);
    assert UserTri(U0, s).None?;
    hide ConfigOk, SymDefOk, SymType, DefaultTri, Eval;
    assert WantedTri(K, U0, m0, s, b.vis) == Some(Max(b.weak, def));
    assert SelectTri(K, U0, m0, s) == Some(b.rev);
    assert m0[TriOf(s)] == T(Promoted(b, Max(b.rev, Max(b.weak, def))));
  }

  // Strings and numbers

  lemma TextPartsUnchanged(K: Config, rank: Key -> nat, U: Users, U': Users, m: Cache, m': Cache, s: SymId)
    requires ConfigOk(K) && Ranked(K, rank) && UserStateOk(K, U) && UserStateOk(K, U')
    requires Solves(K, U, m) && Solves(K, U', m') && SymOk(K, s) && SymDefOk(K, s) && OnlySym(U, U', s)
    requires K.syms[s].origType in {String, Int, Hex}
    ensures DefaultStr(K, U, m, K.syms[s].origType, K.syms[s].defaults).Some?
    ensures DefaultStr(K, U', m', K.syms[s].origType, K.syms[s].defaults) == DefaultStr(K, U, m, K.syms[s].origType, K.syms[s].defaults)
    ensures Numeric(K.syms[s].origType) ==>
      var base := TypeBase(K.syms[s].origType);
      ActiveRange(K, U, m, base, K.syms[s].ranges, 0).Some? &&
      ActiveRange(K, U', m', base, K.syms[s].ranges, 0) == ActiveRange(K, U, m, base, K.syms[s].ranges, 0)
  {
    var d := K.syms[s];
    OwnReadsUnchanged(K, rank, U, U', m, m', s);
    var R := KeyReads(K, StrOf(s));
    ReadsKnown(K, U, m, StrOf(s));
    assert Has(m, DefaultReads(K, d.origType, d.defaults));
    DefaultStrTotal(K, U, m, d.origType, d.defaults);
    AgreeSubset(K, U, U', m, m', R, DefaultReads(K, d.origType, d.defaults));
    DefaultStrTransfer(K, U, U', m, m', d.origType, d.defaults);
    if Numeric(d.origType) {
      assert Has(m, RangeReads(K, d.ranges));
      RangeTotal(K, U, m, TypeBase(d.origType), d.ranges, 0);
      AgreeSubset(K, U, U', m, m', R, RangeReads(K, d.ranges));
      RangeTransfer(K, U, U', m, m', TypeBase(d.origType), d.ranges, 0);
    }
  }

  /** The default of a number is outside of its active range. */
  ghost predicate DefaultOutside(K: Config, U: Users, m: Cache, s: SymId)
    requires ConfigOk(K) && SymOk(K, s) && SymDefOk(K, s)
  {
    Numeric(K.syms[s].origType) &&
    exists i, text, n, r, low, high ::
      DefaultText(K, U, m, s, i, text) && IsNumber(K, s, text, n) && Bounded(K, U, m, s, r, low, high) && !(low <= n <= high)
  }

  lemma {:induction false} FirstRange(K: Config, U: Users, m: Cache, s: SymId, n: nat) returns (r: nat, low: int, high: int)
    requires ConfigOk(K) && Solves(K, U, m) && SymOk(K, s) && SymDefOk(K, s) && !Unbounded(K, U, m, s)
    requires n <= |K.syms[s].ranges| && forall j :: 0 <= j < n ==> Truth(K, U, m, K.syms[s].ranges[j].cond) == 0
    ensures Bounded(K, U, m, s, r, low, high)
    decreases |K.syms[s].ranges| - n
  {
    var rs := K.syms[s].ranges;
    if n < |rs| && Truth(K, U, m, rs[n].cond) != 0 {
      SolutionKnows(K, U, m, StrOf(rs[n].low));
      SolutionKnows(K, U, m, StrOf(rs[n].high));
      var base := if K.syms[s].origType == Hex then 16 else 10;
      r, low, high := n, NumOrZero(m[StrOf(rs[n].low)].str, base), NumOrZero(m[StrOf(rs[n].high)].str, base);
    } else {
      r, low, high := FirstRange(K, U, m, s, n + 1);
    }
  }

  lemma DefaultTextExists(K: Config, U: Users, m: Cache, s: SymId) returns (i: nat, text: string)
    requires ConfigOk(K) && Solves(K, U, m) && SymOk(K, s) && SymDefOk(K, s) && K.syms[s].origType in {String, Int, Hex}
    ensures DefaultText(K, U, m, s, i, text) && StrDefault(K, U, m, s) == Some(text)
  {
    var ds := K.syms[s].defaults;
    i := SomeDefaultIsFirst(K, U, m, K.syms[s].origType, ds, 0);
    if i < |ds| {
      SolutionKnows(K, U, m, StrOf(ds[i].value.item.s));
      text := m[StrOf(ds[i].value.item.s)].str;
    } else {
      text := "";
    }
    DefaultStrMeans(K, U, m, s, i, text);
  }

  lemma DefaultTextIs(K: Config, U: Users, m: Cache, s: SymId, i: nat, text: string)
    requires ConfigOk(K) && Solves(K, U, m) && SymOk(K, s) && SymDefOk(K, s) && K.syms[s].origType in {String, Int, Hex}
    requires DefaultText(K, U, m, s, i, text)
    ensures StrDefault(K, U, m, s) == Some(text)
  {
    DefaultStrMeans(K, U, m, s, i, text);
  }

  /** A default outside of the range is never the value. */
  lemma OutsideIsNotValue(K: Config, U: Users, m: Cache, s: SymId)
    requires ConfigOk(K) && Solves(K, U, m) && SymOk(K, s) && SymDefOk(K, s) && DefaultOutside(K, U, m, s)
    ensures Known(K, U, m, StrOf(s)) && StrDefault(K, U, m, s) != Some(m[StrOf(s)].str)
  {
    var i, text, n, r, low, high :|
      DefaultText(K, U, m, s, i, text) && IsNumber(K, s, text, n) && Bounded(K, U, m, s, r, low, high) && !(low <= n <= high);
    SolutionKnows(K, U, m, StrOf(s));
    DefaultTextIs(K, U, m, s, i, text);
    BoundedNumberMeans(K, U, m, s, i, text, n, r, low, high);
    hide ConfigOk, Solves, SymDefOk, DefaultText, Bounded, ParseInt, StrDefault, Body;
  }

  /** Otherwise the default is the value that a string or number has without a user value. */
  lemma InsideIsWithout(K: Config, rank: Key -> nat, U: Users, m: Cache, m0: Cache, s: SymId)
    requires ConfigOk(K) && Ranked(K, rank) && UserStateOk(K, U) && Solves(K, U, m) && Solves(K, AfterUnset(U, s), m0)
    requires SymOk(K, s) && SymDefOk(K, s) && K.syms[s].origType in {String, Int, Hex} && !DefaultOutside(K, U, m, s)
    ensures Known(K, AfterUnset(U, s), m0, StrOf(s)) && StrDefault(K, U, m, s) == Some(m0[StrOf(s)].str)
  {
    var U0, d := AfterUnset(U, s), K.syms[s];
    UnsetChanges(K, U, s);
    TextPartsUnchanged(K, rank, U, U0, m, m0, s);
    SolutionKnows(K, U0, m0, StrOf(s));
    SolutionKnows(K, U0, m0, Vis(Sym(s)));
    assert UserStr(U0, s).None?;
    if Numeric(d.origType) {
      var i, text := DefaultTextExists(K, U, m, s);
      ClampedDefault(K, U, m, s, i, text);
      hide ConfigOk, Solves, SymDefOk, ActiveRange, DefaultStr, DefaultText, DefaultOutside, Clamp;
    }
  }

  /** A default that is not outside of the range is left as it is. */
  lemma ClampedDefault(K: Config, U: Users, m: Cache, s: SymId, i: nat, text: string)
    requires ConfigOk(K) && Solves(K, U, m) && SymOk(K, s) && SymDefOk(K, s) && Numeric(K.syms[s].origType)
    requires DefaultText(K, U, m, s, i, text) && !DefaultOutside(K, U, m, s)
    ensures
      var base := TypeBase(K.syms[s].origType);
      var range := ActiveRange(K, U, m, base, K.syms[s].ranges, 0);
      range.Some? && Clamp(range.value, base, text) == text
  {
    var base := TypeBase(K.syms[s].origType);
    if Unbounded(K, U, m, s) {
      NoRangeMeans(K, U, m, s, 0);
    } else {
      var r, low, high := FirstRange(K, U, m, s, 0);
      RangeMeans(K, U, m, s, r, low, high, 0);
      assert IsNumber(K, s, text, NumOrZero(text, base));
      hide ConfigOk, Solves, SymDefOk, ActiveRange, DefaultText, Bounded;
    }
  }

  // Choices

  /** s is what the choice selects if the user has not selected anything. */
  ghost predicate SelectedByDefault(K: Config, U: Users, m: Cache, c: ChoiceId, s: SymId)
    requires c < |K.choices| && ChoiceDefOk(K, c)
  {
    || (exists j: nat :: IsFirstPick(K, U, m, c, j) && K.choices[c].defaults[j].sym == s)
    || (NoPickApplies(K, U, m, c) && exists j: nat :: IsFirstVisible(K, m, c, j) && K.choices[c].syms[j] == s)
  }

  lemma {:induction false} FirstPickExists(K: Config, U: Users, m: Cache, c: ChoiceId, n: nat) returns (j: nat)
    requires c < |K.choices| && ChoiceDefOk(K, c) && n <= |K.choices[c].defaults|
    requires forall k :: 0 <= k < n ==> !PickApplies(K, U, m, K.choices[c].defaults[k])
    ensures NoPickApplies(K, U, m, c) || IsFirstPick(K, U, m, c, j)
    decreases |K.choices[c].defaults| - n
  {
    j := n;
    if n < |K.choices[c].defaults| && !PickApplies(K, U, m, K.choices[c].defaults[n]) { j := FirstPickExists(K, U, m, c, n + 1); }
  }

  lemma {:induction false} FirstVisibleExists(K: Config, m: Cache, c: ChoiceId, n: nat) returns (j: nat)
    requires c < |K.choices| && n <= |K.choices[c].syms| && forall k :: 0 <= k < n ==> !Shown(m, K.choices[c].syms[k])
    ensures (forall k :: 0 <= k < |K.choices[c].syms| ==> !Shown(m, K.choices[c].syms[k])) || IsFirstVisible(K, m, c, j)
    decreases |K.choices[c].syms| - n
  {
    j := n;
    if n < |K.choices[c].syms| && !Shown(m, K.choices[c].syms[n]) { j := FirstVisibleExists(K, m, c, n + 1); }
  }

  lemma DefaultSelectionIs(K: Config, U: Users, m: Cache, c: ChoiceId, s: SymId)
    requires ConfigOk(K) && Solves(K, U, m) && c < |K.choices| && ChoiceDefOk(K, c)
    ensures SelectionFromDefaults(K, U, m, c).Some?
    ensures SelectionFromDefaults(K, U, m, c) == Some(Some(s)) <==> SelectedByDefault(K, U, m, c, s)
  {
    var syms, ds := K.choices[c].syms, K.choices[c].defaults;
    var j := FirstPickExists(K, U, m, c, 0);
    var k := FirstVisibleExists(K, m, c, 0);
    forall n: nat | IsFirstPick(K, U, m, c, n) ensures n == j && !NoPickApplies(K, U, m, c) {}
    forall n: nat | IsFirstVisible(K, m, c, n) ensures n == k {}
    PickMeans(K, U, m, c, j, 0);
    FirstVisibleMeans(K, U, m, c, k, 0);
    hide ConfigOk, Solves, ChoiceDefOk, PickApplies, DefaultPick, FirstVisible;
  }

  // What is left out

  /**
   * A minimal configuration leaves out a symbol outside choices if its visibility is not above its
   * selects, or if it has the value that it has without a user value. Of the symbols of a choice it
   * leaves out those that are n, and in a choice that is not optional a bool symbol that is y and
   * would be selected by default. There are two exceptions to comparing with the value without a user
   * value: numbers are always kept if their default is outside of their range, and symbols implied
   * in vain are compared with the value they would have if their dependencies were met.
   */
  ghost predicate LeftOut(K: Config, U: Users, m: Cache, m0: Cache, s: SymId)
    requires ConfigOk(K) && SymOk(K, s) && SymDefOk(K, s)
  {
    var d := K.syms[s];
    if Boolish(d.origType) && d.choice.Some? then
      || GetT(m, TriOf(s)) == Some(0)
      || (assert ChoiceDefOk(K, d.choice.value);
          d.origType == Bool && !K.choices[d.choice.value].isOptional && GetT(m, TriOf(s)) == Some(2) &&
          SelectedByDefault(K, U, m, d.choice.value, s))
    else
      || (d.choice.None? && exists v :: GetT(m, Vis(Sym(s))) == Some(v) && v <= Truth(K, U, m, d.revDep))
      || if Boolish(d.origType) && ImpliedInVain(K, U, m, s) then
           exists i :: FirstMet(K, U, m, d.origType, d.defaults, i) && AsIfMet(K, U, m, s, i)
         else GetS(m, StrOf(s)) == GetS(m0, StrOf(s)) && !DefaultOutside(K, U, m, s)
  }

  /** The value is the one that the test of the minimal configuration compares it with. */
  lemma DefaultCompared(K: Config, rank: Key -> nat, U: Users, m: Cache, m0: Cache, s: SymId)
    requires ConfigOk(K) && Ranked(K, rank) && UserStateOk(K, U) && Solves(K, U, m) && Solves(K, AfterUnset(U, s), m0)
    requires SymOk(K, s) && SymDefOk(K, s) && K.syms[s].origType != Unknown && !IsNmy(K.syms[s])
    requires Boolish(K.syms[s].origType) ==> K.syms[s].choice.None?
    ensures GetS(m, StrOf(s)).Some? && StrDefault(K, U, m, s).Some?
    ensures
      StrDefault(K, U, m, s) == GetS(m, StrOf(s)) <==>
        if Boolish(K.syms[s].origType) && ImpliedInVain(K, U, m, s) then
          exists i :: FirstMet(K, U, m, K.syms[s].origType, K.syms[s].defaults, i) && AsIfMet(K, U, m, s, i)
        else GetS(m, StrOf(s)) == GetS(m0, StrOf(s)) && !DefaultOutside(K, U, m, s)
  {
    SolutionKnows(K, U, m, StrOf(s));
    SolutionKnows(K, AfterUnset(U, s), m0, StrOf(s));
    if Boolish(K.syms[s].origType) {
      var i := SomeDefaultIsFirst(K, U, m, K.syms[s].origType, K.syms[s].defaults, 0);
      StrDefaultOfTri(K, U, m, s, i);
      if ImpliedInVain(K, U, m, s) {
        forall j | FirstMet(K, U, m, K.syms[s].origType, K.syms[s].defaults, j) ensures j == i {}
      } else {
        StrDefaultIsWithout(K, rank, U, m, m0, s);
      }
    } else if DefaultOutside(K, U, m, s) {
      OutsideIsNotValue(K, U, m, s);
      var _, _ := DefaultTextExists(K, U, m, s);
    } else {
      InsideIsWithout(K, rank, U, m, m0, s);
    }
  }

  lemma KeptIsNotLeftOut(K: Config, rank: Key -> nat, U: Users, m: Cache, m0: Cache, s: SymId)
    requires ConfigOk(K) && Ranked(K, rank) && UserStateOk(K, U) && Solves(K, U, m) && Solves(K, AfterUnset(U, s), m0)
    requires SymOk(K, s) && SymDefOk(K, s) && K.syms[s].origType != Unknown && !IsNmy(K.syms[s])
    ensures KeptInMinimal(K, U, m, s) == Some(!LeftOut(K, U, m, m0, s))
  {
    var d := K.syms[s];
    SolutionKnows(K, U, m, StrOf(s));
    SolutionKnows(K, U, m, TriOf(s));
    SolutionKnows(K, U, m, Vis(Sym(s)));
    TruthIsEval(K, U, m, d.revDep);
    if Boolish(d.origType) && d.choice.Some? {
      var c := d.choice.value;
      assert ChoiceDefOk(K, c);
      DefaultSelectionIs(K, U, m, c, s);
      hide ConfigOk, Solves, SymDefOk, SelectedByDefault, SelectionFromDefaults, Truth, Eval;
    } else {
      DefaultCompared(K, rank, U, m, m0, s);
      hide ConfigOk, Solves, SymDefOk, StrDefault, DefaultOutside, ImpliedInVain, AsIfMet, FirstMet, Truth, Eval;
    }
  }
}
