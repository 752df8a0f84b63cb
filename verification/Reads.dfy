/**
 * Which slots the computation of a slot can read at all, and the one fact about
 * `Body` that everything else rests on: a computation that succeeds on m gives
 * the same value on any map that agrees with m on the slots it can read.
 */
module Reads {
  import opened Wrappers
  import opened Config
  import opened Values

  function ModeReads(K: Config, c: ChoiceId): set<Key>
    requires c < |K.choices|
  {
    {Vis(Cho(c)), TriOf(K.modules)}
  }

  function ExprReads(K: Config, e: Expr): set<Key>
    requires ExprOk(K, e)
  {
    match e
    case Leaf(Sym(s)) => {TriOf(s)}
    case Leaf(Cho(c)) => if K.choices[c].origType == Tristate then ModeReads(K, c) else {Vis(Cho(c))}
    case And(l, r) => ExprReads(K, l) + ExprReads(K, r)
    case Or(l, r) => ExprReads(K, l) + ExprReads(K, r)
    case Not(a) => ExprReads(K, a)
    case Compare(_, a, b) => {TriOf(a), StrOf(a), TriOf(b), StrOf(b)}
  }

  function PromptReads(K: Config, ps: seq<Option<Expr>>): set<Key>
    requires PromptsOk(K, ps)
  {
    set i, k | 0 <= i < |ps| && ps[i].Some? && k in ExprReads(K, ps[i].value) :: k
  }

  /** What Symbol.type reads; choice symbols also look at the mode of their choice. */
  function TypeReads(K: Config, s: SymId): set<Key>
    requires ConfigOk(K) && SymOk(K, s)
  {
    assert SymDefOk(K, s);
    var d := K.syms[s];
    (if d.origType == Tristate then {TriOf(K.modules)} else {}) +
    (if d.choice.None? then {}
     else if K.choices[d.choice.value].origType == Tristate then ModeReads(K, d.choice.value)
     else {Vis(Cho(d.choice.value))})
  }

  function DefaultReads(K: Config, t: Type, ds: seq<Default>): set<Key>
    requires DefaultsOk(K, t, ds)
  {
    (set i, k | 0 <= i < |ds| && k in ExprReads(K, ds[i].cond) :: k) +
    (if Boolish(t) then set i, k | 0 <= i < |ds| && k in ExprReads(K, ds[i].value) :: k
     else if t == Unknown then {}
     else set i | 0 <= i < |ds| :: StrOf(ds[i].value.item.s))
  }

  function RangeReads(K: Config, rs: seq<Range>): set<Key>
    requires RangesOk(K, rs)
  {
    (set i, k | 0 <= i < |rs| && k in ExprReads(K, rs[i].cond) :: k) +
    (set i | 0 <= i < |rs| :: StrOf(rs[i].low)) + (set i | 0 <= i < |rs| :: StrOf(rs[i].high))
  }

  function DepReads(K: Config, s: SymId): set<Key>
    requires ConfigOk(K) && SymOk(K, s)
  {
    assert SymDefOk(K, s);
    var d := K.syms[s];
    ExprReads(K, d.revDep) + ExprReads(K, d.weakRevDep) + ExprReads(K, d.directDep)
  }

  /** All that WantedTri, SelectTri and Promote may read. */
  function PlainReads(K: Config, s: SymId): set<Key>
    requires ConfigOk(K) && SymOk(K, s)
  {
    assert SymDefOk(K, s);
    DefaultReads(K, K.syms[s].origType, K.syms[s].defaults) + DepReads(K, s) + TypeReads(K, s)
  }

  function SelReads(K: Config, c: ChoiceId): set<Key>
    requires ConfigOk(K) && c < |K.choices|
  {
    assert ChoiceDefOk(K, c);
    var d := K.choices[c];
    (if d.origType == Tristate then ModeReads(K, c) else {Vis(Cho(c))}) +
    (set i, k | 0 <= i < |d.defaults| && k in ExprReads(K, d.defaults[i].cond) :: k) +
    (set i | 0 <= i < |d.syms| :: Vis(Sym(d.syms[i])))
  }

  /** The slots that computing k may read. */
  function KeyReads(K: Config, k: Key): set<Key>
    requires ConfigOk(K) && KeyOk(K, k)
  {
    match k
    case Vis(Sym(s)) => assert SymDefOk(K, s); PromptReads(K, K.syms[s].prompts) + TypeReads(K, s)
    case Vis(Cho(c)) =>
      assert ChoiceDefOk(K, c);
      PromptReads(K, K.choices[c].prompts) + (if K.choices[c].origType == Tristate then {TriOf(K.modules)} else {})
    case TriOf(s) =>
      var d := K.syms[s];
      assert SymDefOk(K, s);
      if IsNmy(d) || !Boolish(d.origType) then {}
      else if d.choice.Some? then {Vis(Sym(s)), Sel(d.choice.value)}
      else {Vis(Sym(s))} + DefaultReads(K, d.origType, d.defaults) + DepReads(K, s) + TypeReads(K, s)
    case StrOf(s) =>
      var d := K.syms[s];
      assert SymDefOk(K, s);
      if Boolish(d.origType) then {TriOf(s)}
      else if d.origType == Unknown then {}
      else {Vis(Sym(s))} + DefaultReads(K, d.origType, d.defaults) +
           (if Numeric(d.origType) then RangeReads(K, d.ranges) else {})
    case WriteOf(s) =>
      var d := K.syms[s];
      assert SymDefOk(K, s);
      if IsNmy(d) || d.origType == Unknown then {}
      else if !Boolish(d.origType) then {Vis(Sym(s))} + DefaultReads(K, d.origType, d.defaults)
      else {Vis(Sym(s))} + PlainReads(K, s)
    case Sel(c) => SelReads(K, c)
    case Assignable(Sym(s)) =>
      if !Boolish(K.syms[s].origType) then {} else {Vis(Sym(s))} + DepReads(K, s) + TypeReads(K, s)
    case Assignable(Cho(c)) => if K.choices[c].origType == Tristate then ModeReads(K, c) else {Vis(Cho(c))}
  }

  // Agreement

  ghost predicate SameAt(m: Cache, m': Cache, k: Key) { k in m ==> k in m' && m'[k] == m[k] }

  /** m' has all that m has among R. */
  ghost predicate BelowOn(m: Cache, m': Cache, R: set<Key>) {
    forall k :: k in R ==> SameAt(m, m', k)
  }

  /** The two user states give choice c the same mode on m. */
  ghost predicate SameModeAt(K: Config, U: Users, U': Users, m: Cache, c: ChoiceId) {
    UserMode(U, c) == UserMode(U', c) ||
    (c < |K.choices| && (ChoiceTri(K, U, m, c).Some? ==> ChoiceTri(K, U', m, c) == ChoiceTri(K, U, m, c)))
  }

  /** The same for each choice whose mode can be read through R. */
  ghost predicate SameModes(K: Config, U: Users, U': Users, m: Cache, R: set<Key>) {
    forall c :: Vis(Cho(c)) in R ==> SameModeAt(K, U, U', m, c)
  }

  /** The user state held by one object. */
  ghost predicate SameOwn(U: Users, U': Users, i: Item) {
    match i
    case Sym(s) => UserTri(U, s) == UserTri(U', s) && UserStr(U, s) == UserStr(U', s)
    case Cho(c) => UserMode(U, c) == UserMode(U', c) && UserPick(U, c) == UserPick(U', c)
  }

  ghost predicate Agree(K: Config, U: Users, U': Users, m: Cache, m': Cache, R: set<Key>) {
    BelowOn(m, m', R) && SameModes(K, U, U', m, R)
  }

  /** Whether the user state of k's own object can matter to k. */
  ghost predicate OwnMatters(K: Config, m: Cache, k: Key)
    requires KeyOk(K, k)
  {
    match k
    case TriOf(s) => Boolish(K.syms[s].origType) && GetT(m, Vis(Sym(s))) != Some(0)
    case StrOf(s) =>
      !Boolish(K.syms[s].origType) && K.syms[s].origType != Unknown && GetT(m, Vis(Sym(s))) != Some(0)
    case Sel(_) => true
    case _ => false
  }

  lemma AgreeSubset(K: Config, U: Users, U': Users, m: Cache, m': Cache, R: set<Key>, Q: set<Key>)
    requires Agree(K, U, U', m, m', R) && Q <= R
    ensures Agree(K, U, U', m, m', Q)
  {
  }

  lemma ModeTransfer(K: Config, U: Users, U': Users, m: Cache, m': Cache, c: ChoiceId)
    requires c < |K.choices|
    requires SameAt(m, m', Vis(Cho(c))) && SameModeAt(K, U, U', m, c)
    requires K.choices[c].origType == Tristate ==> SameAt(m, m', TriOf(K.modules))
    requires ChoiceTri(K, U, m, c).Some?
    ensures ChoiceTri(K, U', m', c) == ChoiceTri(K, U, m, c)
  {
  }

  lemma CompareTransfer(K: Config, m: Cache, m': Cache, a: SymId, b: SymId)
    requires SymOk(K, a) && SymOk(K, b)
    requires BelowOn(m, m', {TriOf(a), StrOf(a), TriOf(b), StrOf(b)})
    requires CompareSyms(K, m, a, b).Some?
    ensures CompareSyms(K, m', a, b) == CompareSyms(K, m, a, b)
  {
    assert SameAt(m, m', TriOf(a)) && SameAt(m, m', StrOf(a)) && SameAt(m, m', TriOf(b)) && SameAt(m, m', StrOf(b));
  }

  lemma {:induction false} EvalTransfer(K: Config, U: Users, U': Users, m: Cache, m': Cache, e: Expr)
    requires ExprOk(K, e) && Agree(K, U, U', m, m', ExprReads(K, e))
    requires Eval(K, U, m, e).Some?
    ensures Eval(K, U', m', e) == Eval(K, U, m, e)
  {
    match e
    case Leaf(Sym(s)) => assert SameAt(m, m', TriOf(s));
    case Leaf(Cho(c)) =>
      assert Vis(Cho(c)) in ExprReads(K, e) && SameAt(m, m', Vis(Cho(c)));
      if K.choices[c].origType == Tristate { assert SameAt(m, m', TriOf(K.modules)); }
      ModeTransfer(K, U, U', m, m', c);
    case And(l, r) =>
      AgreeSubset(K, U, U', m, m', ExprReads(K, e), ExprReads(K, l));
      AgreeSubset(K, U, U', m, m', ExprReads(K, e), ExprReads(K, r));
      EvalTransfer(K, U, U', m, m', l);
      if Eval(K, U, m, r).Some? { EvalTransfer(K, U, U', m, m', r); }
    case Or(l, r) =>
      AgreeSubset(K, U, U', m, m', ExprReads(K, e), ExprReads(K, l));
      AgreeSubset(K, U, U', m, m', ExprReads(K, e), ExprReads(K, r));
      EvalTransfer(K, U, U', m, m', l);
      if Eval(K, U, m, r).Some? { EvalTransfer(K, U, U', m, m', r); }
    case Not(a) => EvalTransfer(K, U, U', m, m', a);
    case Compare(_, a, b) =>
      CompareTransfer(K, m, m', a, b);
  }

  lemma {:induction false} PromptTransfer(K: Config, U: Users, U': Users, m: Cache, m': Cache, ps: seq<Option<Expr>>, n: nat)
    requires PromptsOk(K, ps) && n <= |ps| && Agree(K, U, U', m, m', PromptReads(K, ps))
    requires PromptVis(K, U, m, ps, n).Some?
    ensures PromptVis(K, U', m', ps, n) == PromptVis(K, U, m, ps, n)
  {
    if n == 0 {
    } else {
      PromptTransfer(K, U, U', m, m', ps, n - 1);
      if ps[n - 1].Some? {
        AgreeSubset(K, U, U', m, m', PromptReads(K, ps), ExprReads(K, ps[n - 1].value));
        EvalTransfer(K, U, U', m, m', ps[n - 1].value);
      }
    }
  }

  lemma {:induction false} ActiveDefaultTransfer(
    K: Config, U: Users, U': Users, m: Cache, m': Cache, t: Type, ds: seq<Default>, i: nat)
    requires DefaultsOk(K, t, ds) && i <= |ds| && Agree(K, U, U', m, m', DefaultReads(K, t, ds))
    requires ActiveDefault(K, U, m, t, ds, i).Some?
    ensures ActiveDefault(K, U', m', t, ds, i) == ActiveDefault(K, U, m, t, ds, i)
    decreases |ds| - i
  {
    if i < |ds| {
      AgreeSubset(K, U, U', m, m', DefaultReads(K, t, ds), ExprReads(K, ds[i].cond));
      EvalTransfer(K, U, U', m, m', ds[i].cond);
      if Eval(K, U, m, ds[i].cond) == Some(0) { ActiveDefaultTransfer(K, U, U', m, m', t, ds, i + 1); }
    }
  }

  lemma DefaultTriTransfer(K: Config, U: Users, U': Users, m: Cache, m': Cache, t: Type, ds: seq<Default>)
    requires DefaultsOk(K, t, ds) && Boolish(t) && Agree(K, U, U', m, m', DefaultReads(K, t, ds))
    requires DefaultTri(K, U, m, t, ds).Some?
    ensures DefaultTri(K, U', m', t, ds) == DefaultTri(K, U, m, t, ds)
  {
    ActiveDefaultTransfer(K, U, U', m, m', t, ds, 0);
    var i := ActiveDefault(K, U, m, t, ds, 0).value;
    if i < |ds| {
      AgreeSubset(K, U, U', m, m', DefaultReads(K, t, ds), ExprReads(K, ds[i].cond));
      AgreeSubset(K, U, U', m, m', DefaultReads(K, t, ds), ExprReads(K, ds[i].value));
      EvalTransfer(K, U, U', m, m', ds[i].cond);
      EvalTransfer(K, U, U', m, m', ds[i].value);
    }
  }

  lemma DefaultStrTransfer(K: Config, U: Users, U': Users, m: Cache, m': Cache, t: Type, ds: seq<Default>)
    requires DefaultsOk(K, t, ds) && !Boolish(t) && t != Unknown && Agree(K, U, U', m, m', DefaultReads(K, t, ds))
    requires DefaultStr(K, U, m, t, ds).Some?
    ensures DefaultStr(K, U', m', t, ds) == DefaultStr(K, U, m, t, ds)
  {
    ActiveDefaultTransfer(K, U, U', m, m', t, ds, 0);
    var i := ActiveDefault(K, U, m, t, ds, 0).value;
    if i < |ds| {
      assert StrOf(ds[i].value.item.s) in DefaultReads(K, t, ds);
      assert SameAt(m, m', StrOf(ds[i].value.item.s));
    }
  }

  lemma {:induction false} RangeTransfer(
    K: Config, U: Users, U': Users, m: Cache, m': Cache, base: nat, rs: seq<Range>, i: nat)
    requires RangesOk(K, rs) && i <= |rs| && Agree(K, U, U', m, m', RangeReads(K, rs))
    requires ActiveRange(K, U, m, base, rs, i).Some?
    ensures ActiveRange(K, U', m', base, rs, i) == ActiveRange(K, U, m, base, rs, i)
    decreases |rs| - i
  {
    if i < |rs| {
      AgreeSubset(K, U, U', m, m', RangeReads(K, rs), ExprReads(K, rs[i].cond));
      EvalTransfer(K, U, U', m, m', rs[i].cond);
      if Eval(K, U, m, rs[i].cond) == Some(0) {
        RangeTransfer(K, U, U', m, m', base, rs, i + 1);
      } else {
        assert StrOf(rs[i].low) in RangeReads(K, rs) && StrOf(rs[i].high) in RangeReads(K, rs);
        assert SameAt(m, m', StrOf(rs[i].low)) && SameAt(m, m', StrOf(rs[i].high));
      }
    }
  }

  lemma TypeTransfer(K: Config, U: Users, U': Users, m: Cache, m': Cache, s: SymId)
    requires ConfigOk(K) && SymOk(K, s) && Agree(K, U, U', m, m', TypeReads(K, s))
    requires SymType(K, U, m, s).Some?
    ensures SymType(K, U', m', s) == SymType(K, U, m, s)
  {
    assert SymDefOk(K, s);
    var d := K.syms[s];
    if d.origType == Tristate {
      assert SameAt(m, m', TriOf(K.modules));
      if d.choice.Some? {
        assert Vis(Cho(d.choice.value)) in TypeReads(K, s) && SameAt(m, m', Vis(Cho(d.choice.value)));
        ModeTransfer(K, U, U', m, m', d.choice.value);
      }
    }
  }

  lemma HiddenTransfer(K: Config, U: Users, U': Users, m: Cache, m': Cache, s: SymId, c: ChoiceId, vis: Tri)
    requires ConfigOk(K) && SymOk(K, s) && K.syms[s].choice == Some(c) && c < |K.choices|
    requires Agree(K, U, U', m, m', TypeReads(K, s))
    requires HiddenByMode(K, U, m, s, c, vis).Some?
    ensures HiddenByMode(K, U', m', s, c, vis) == HiddenByMode(K, U, m, s, c, vis)
  {
    assert Vis(Cho(c)) in TypeReads(K, s) && SameAt(m, m', Vis(Cho(c)));
    if K.choices[c].origType == Tristate { assert SameAt(m, m', TriOf(K.modules)); }
    if ChoiceTri(K, U, m, c).Some? { ModeTransfer(K, U, U', m, m', c); }
  }

  lemma SymVisTransfer(K: Config, U: Users, U': Users, m: Cache, m': Cache, s: SymId)
    requires ConfigOk(K) && SymOk(K, s) && Agree(K, U, U', m, m', KeyReads(K, Vis(Sym(s))))
    requires SymVis(K, U, m, s).Some?
    ensures SymVis(K, U', m', s) == SymVis(K, U, m, s)
  {
    assert SymDefOk(K, s);
    var d := K.syms[s];
    AgreeSubset(K, U, U', m, m', KeyReads(K, Vis(Sym(s))), PromptReads(K, d.prompts));
    AgreeSubset(K, U, U', m, m', KeyReads(K, Vis(Sym(s))), TypeReads(K, s));
    PromptTransfer(K, U, U', m, m', d.prompts, |d.prompts|);
    var vis := PromptVis(K, U, m, d.prompts, |d.prompts|).value;
    if d.choice.Some? { HiddenTransfer(K, U, U', m, m', s, d.choice.value, vis); }
    if SymType(K, U, m, s).Some? { TypeTransfer(K, U, U', m, m', s); }
  }

  lemma ChoiceVisTransfer(K: Config, U: Users, U': Users, m: Cache, m': Cache, c: ChoiceId)
    requires ConfigOk(K) && c < |K.choices| && Agree(K, U, U', m, m', KeyReads(K, Vis(Cho(c))))
    requires ChoiceVis(K, U, m, c).Some?
    ensures ChoiceVis(K, U', m', c) == ChoiceVis(K, U, m, c)
  {
    assert ChoiceDefOk(K, c);
    var d := K.choices[c];
    AgreeSubset(K, U, U', m, m', KeyReads(K, Vis(Cho(c))), PromptReads(K, d.prompts));
    PromptTransfer(K, U, U', m, m', d.prompts, |d.prompts|);
    if d.origType == Tristate { assert SameAt(m, m', TriOf(K.modules)); }
  }

  lemma ImplyTransfer(K: Config, U: Users, U': Users, m: Cache, m': Cache, s: SymId)
    requires ConfigOk(K) && SymOk(K, s) && Agree(K, U, U', m, m', DepReads(K, s))
    requires ImplyTri(K, U, m, s).Some?
    ensures ImplyTri(K, U', m', s) == ImplyTri(K, U, m, s)
  {
    assert SymDefOk(K, s);
    var d := K.syms[s];
    AgreeSubset(K, U, U', m, m', DepReads(K, s), ExprReads(K, d.weakRevDep));
    AgreeSubset(K, U, U', m, m', DepReads(K, s), ExprReads(K, d.directDep));
    EvalTransfer(K, U, U', m, m', d.weakRevDep);
    if Eval(K, U, m, d.directDep).Some? { EvalTransfer(K, U, U', m, m', d.directDep); }
  }

  lemma SelectTransfer(K: Config, U: Users, U': Users, m: Cache, m': Cache, s: SymId)
    requires ConfigOk(K) && SymOk(K, s) && Agree(K, U, U', m, m', DepReads(K, s))
    requires SelectTri(K, U, m, s).Some?
    ensures SelectTri(K, U', m', s) == SelectTri(K, U, m, s)
  {
    assert SymDefOk(K, s);
    var d := K.syms[s];
    AgreeSubset(K, U, U', m, m', DepReads(K, s), ExprReads(K, d.revDep));
    AgreeSubset(K, U, U', m, m', DepReads(K, s), ExprReads(K, d.directDep));
    EvalTransfer(K, U, U', m, m', d.revDep);
    if Eval(K, U, m, d.directDep).Some? { EvalTransfer(K, U, U', m, m', d.directDep); }
  }

  lemma WantedTransfer(K: Config, U: Users, U': Users, m: Cache, m': Cache, s: SymId, vis: Tri)
    requires ConfigOk(K) && SymOk(K, s) && Boolish(K.syms[s].origType)
    requires Agree(K, U, U', m, m', PlainReads(K, s)) && (vis != 0 ==> SameOwn(U, U', Sym(s)))
    requires WantedTri(K, U, m, s, vis).Some?
    ensures WantedTri(K, U', m', s, vis) == WantedTri(K, U, m, s, vis)
  {
    assert SymDefOk(K, s);
    var d := K.syms[s];
    if vis == 0 || UserTri(U, s).None? {
      AgreeSubset(K, U, U', m, m', PlainReads(K, s), DefaultReads(K, d.origType, d.defaults));
      AgreeSubset(K, U, U', m, m', PlainReads(K, s), DepReads(K, s));
      DefaultTriTransfer(K, U, U', m, m', d.origType, d.defaults);
      ImplyTransfer(K, U, U', m, m', s);
    }
  }

  lemma PromoteTransfer(K: Config, U: Users, U': Users, m: Cache, m': Cache, s: SymId, val: Tri)
    requires ConfigOk(K) && SymOk(K, s) && Agree(K, U, U', m, m', DepReads(K, s) + TypeReads(K, s))
    requires Promote(K, U, m, s, val).Some?
    ensures Promote(K, U', m', s, val) == Promote(K, U, m, s, val)
  {
    assert SymDefOk(K, s);
    if val == 1 {
      AgreeSubset(K, U, U', m, m', DepReads(K, s) + TypeReads(K, s), TypeReads(K, s));
      AgreeSubset(K, U, U', m, m', DepReads(K, s) + TypeReads(K, s), ExprReads(K, K.syms[s].weakRevDep));
      TypeTransfer(K, U, U', m, m', s);
      if Eval(K, U, m, K.syms[s].weakRevDep).Some? { EvalTransfer(K, U, U', m, m', K.syms[s].weakRevDep); }
    }
  }

  lemma PlainTriTransfer(K: Config, U: Users, U': Users, m: Cache, m': Cache, s: SymId, vis: Tri)
    requires ConfigOk(K) && SymOk(K, s) && Boolish(K.syms[s].origType)
    requires Agree(K, U, U', m, m', PlainReads(K, s)) && (vis != 0 ==> SameOwn(U, U', Sym(s)))
    requires PlainTri(K, U, m, s, vis).Some?
    ensures PlainTri(K, U', m', s, vis) == PlainTri(K, U, m, s, vis)
  {
    AgreeSubset(K, U, U', m, m', PlainReads(K, s), DepReads(K, s));
    AgreeSubset(K, U, U', m, m', PlainReads(K, s), DepReads(K, s) + TypeReads(K, s));
    WantedTransfer(K, U, U', m, m', s, vis);
    SelectTransfer(K, U, U', m, m', s);
    PromoteTransfer(K, U, U', m, m', s,
                    Max(SelectTri(K, U, m, s).value, WantedTri(K, U, m, s, vis).value));
  }

  lemma SymTriTransfer(K: Config, U: Users, U': Users, m: Cache, m': Cache, s: SymId)
    requires ConfigOk(K) && SymOk(K, s) && Agree(K, U, U', m, m', KeyReads(K, TriOf(s)))
    requires SymTri(K, U, m, s).Some?
    requires OwnMatters(K, m, TriOf(s)) ==> SameOwn(U, U', Sym(s))
    ensures SymTri(K, U', m', s) == SymTri(K, U, m, s)
  {
    assert SymDefOk(K, s);
    var d := K.syms[s];
    if Boolish(d.origType) && !IsNmy(d) {
      assert SameAt(m, m', Vis(Sym(s)));
      var vis := GetT(m, Vis(Sym(s))).value;
      if d.choice.None? {
        AgreeSubset(K, U, U', m, m', KeyReads(K, TriOf(s)), PlainReads(K, s));
        PlainTriTransfer(K, U, U', m, m', s, vis);
      } else {
        assert SameAt(m, m', Sel(d.choice.value));
      }
    }
  }

  lemma NumStrTransfer(K: Config, U: Users, U': Users, m: Cache, m': Cache, s: SymId, vis: Tri)
    requires ConfigOk(K) && SymOk(K, s) && Numeric(K.syms[s].origType)
    requires Agree(K, U, U', m, m', KeyReads(K, StrOf(s))) && (vis != 0 ==> SameOwn(U, U', Sym(s)))
    requires NumStr(K, U, m, s, vis).Some?
    ensures NumStr(K, U', m', s, vis) == NumStr(K, U, m, s, vis)
  {
    assert SymDefOk(K, s);
    var d := K.syms[s];
    AgreeSubset(K, U, U', m, m', KeyReads(K, StrOf(s)), RangeReads(K, d.ranges));
    AgreeSubset(K, U, U', m, m', KeyReads(K, StrOf(s)), DefaultReads(K, d.origType, d.defaults));
    RangeTransfer(K, U, U', m, m', TypeBase(d.origType), d.ranges, 0);
    if DefaultStr(K, U, m, d.origType, d.defaults).Some? {
      DefaultStrTransfer(K, U, U', m, m', d.origType, d.defaults);
    }
  }

  lemma SymStrTransfer(K: Config, U: Users, U': Users, m: Cache, m': Cache, s: SymId)
    requires ConfigOk(K) && SymOk(K, s) && Agree(K, U, U', m, m', KeyReads(K, StrOf(s)))
    requires SymStr(K, U, m, s).Some?
    requires OwnMatters(K, m, StrOf(s)) ==> SameOwn(U, U', Sym(s))
    ensures SymStr(K, U', m', s) == SymStr(K, U, m, s)
  {
    assert SymDefOk(K, s);
    var d := K.syms[s];
    if Boolish(d.origType) {
      assert SameAt(m, m', TriOf(s));
    } else if d.origType != Unknown {
      assert SameAt(m, m', Vis(Sym(s)));
      var vis := GetT(m, Vis(Sym(s))).value;
      if d.origType == String {
        AgreeSubset(K, U, U', m, m', KeyReads(K, StrOf(s)), DefaultReads(K, d.origType, d.defaults));
        if vis == 0 || UserStr(U, s).None? { DefaultStrTransfer(K, U, U', m, m', String, d.defaults); }
      } else {
        NumStrTransfer(K, U, U', m, m', s, vis);
      }
    }
  }

  lemma WriteTransfer(K: Config, U: Users, U': Users, m: Cache, m': Cache, s: SymId)
    requires ConfigOk(K) && SymOk(K, s) && Agree(K, U, U', m, m', KeyReads(K, WriteOf(s)))
    requires WriteToConf(K, U, m, s).Some?
    ensures WriteToConf(K, U', m', s) == WriteToConf(K, U, m, s)
  {
    assert SymDefOk(K, s);
    var d := K.syms[s];
    if !IsNmy(d) && d.origType != Unknown {
      assert SameAt(m, m', Vis(Sym(s)));
      if GetT(m, Vis(Sym(s))) == Some(0) {
        if !Boolish(d.origType) {
          AgreeSubset(K, U, U', m, m', KeyReads(K, WriteOf(s)), DefaultReads(K, d.origType, d.defaults));
          DefaultStrTransfer(K, U, U', m, m', d.origType, d.defaults);
        } else if d.choice.None? {
          AgreeSubset(K, U, U', m, m', KeyReads(K, WriteOf(s)), PlainReads(K, s));
          AgreeSubset(K, U, U', m, m', PlainReads(K, s), DepReads(K, s));
          WantedTransfer(K, U, U', m, m', s, 0);
          SelectTransfer(K, U, U', m, m', s);
        }
      }
    }
  }

  lemma {:induction false} DefaultPickTransfer(K: Config, U: Users, U': Users, m: Cache, m': Cache, c: ChoiceId, i: nat)
    requires ConfigOk(K) && c < |K.choices| && i <= |K.choices[c].defaults| && Agree(K, U, U', m, m', SelReads(K, c))
    requires DefaultPick(K, U, m, c, i).Some?
    ensures DefaultPick(K, U', m', c, i) == DefaultPick(K, U, m, c, i)
    decreases |K.choices[c].defaults| - i
  {
    assert ChoiceDefOk(K, c);
    var ds := K.choices[c].defaults;
    if i < |ds| {
      AgreeSubset(K, U, U', m, m', SelReads(K, c), ExprReads(K, ds[i].cond));
      EvalTransfer(K, U, U', m, m', ds[i].cond);
      assert Vis(Sym(ds[i].sym)) in SelReads(K, c) && SameAt(m, m', Vis(Sym(ds[i].sym)));
      if DefaultPick(K, U, m, c, i + 1).Some? { DefaultPickTransfer(K, U, U', m, m', c, i + 1); }
    }
  }

  lemma {:induction false} FirstVisibleTransfer(m: Cache, m': Cache, syms: seq<SymId>, i: nat)
    requires i <= |syms| && FirstVisible(m, syms, i).Some?
    requires forall j :: 0 <= j < |syms| ==> SameAt(m, m', Vis(Sym(syms[j])))
    ensures FirstVisible(m', syms, i) == FirstVisible(m, syms, i)
    decreases |syms| - i
  {
    if i < |syms| && GetT(m, Vis(Sym(syms[i]))) == Some(0) { FirstVisibleTransfer(m, m', syms, i + 1); }
  }

  lemma FromDefaultsTransfer(K: Config, U: Users, U': Users, m: Cache, m': Cache, c: ChoiceId)
    requires ConfigOk(K) && c < |K.choices| && Agree(K, U, U', m, m', SelReads(K, c))
    requires SelectionFromDefaults(K, U, m, c).Some?
    ensures SelectionFromDefaults(K, U', m', c) == SelectionFromDefaults(K, U, m, c)
  {
    var syms := K.choices[c].syms;
    DefaultPickTransfer(K, U, U', m, m', c, 0);
    forall j | 0 <= j < |syms| ensures SameAt(m, m', Vis(Sym(syms[j]))) {
      assert Vis(Sym(syms[j])) in SelReads(K, c);
    }
    if FirstVisible(m, syms, 0).Some? { FirstVisibleTransfer(m, m', syms, 0); }
  }

  lemma SelectionTransfer(K: Config, U: Users, U': Users, m: Cache, m': Cache, c: ChoiceId)
    requires ConfigOk(K) && c < |K.choices| && Agree(K, U, U', m, m', SelReads(K, c))
    requires SameOwn(U, U', Cho(c)) && (UserPick(U, c).Some? ==> UserPick(U, c).value in K.choices[c].syms)
    requires Selection(K, U, m, c).Some?
    ensures Selection(K, U', m', c) == Selection(K, U, m, c)
  {
    assert Vis(Cho(c)) in SelReads(K, c) && SameAt(m, m', Vis(Cho(c)));
    if K.choices[c].origType == Tristate { assert SameAt(m, m', TriOf(K.modules)); }
    ModeTransfer(K, U, U', m, m', c);
    if ChoiceTri(K, U, m, c) == Some(2) {
      var pick := UserPick(U, c);
      if pick.Some? {
        assert Vis(Sym(pick.value)) in SelReads(K, c) && SameAt(m, m', Vis(Sym(pick.value)));
      }
      if SelectionFromDefaults(K, U, m, c).Some? { FromDefaultsTransfer(K, U, U', m, m', c); }
    }
  }

  lemma AssignableTransfer(K: Config, U: Users, U': Users, m: Cache, m': Cache, s: SymId)
    requires ConfigOk(K) && SymOk(K, s) && Agree(K, U, U', m, m', KeyReads(K, Assignable(Sym(s))))
    requires SymAssignable(K, U, m, s).Some?
    ensures SymAssignable(K, U', m', s) == SymAssignable(K, U, m, s)
  {
    assert SymDefOk(K, s);
    var d := K.syms[s];
    var R := KeyReads(K, Assignable(Sym(s)));
    if Boolish(d.origType) {
      assert SameAt(m, m', Vis(Sym(s)));
      AgreeSubset(K, U, U', m, m', R, ExprReads(K, d.revDep));
      AgreeSubset(K, U, U', m, m', R, ExprReads(K, d.weakRevDep));
      AgreeSubset(K, U, U', m, m', R, TypeReads(K, s));
      if Eval(K, U, m, d.revDep).Some? { EvalTransfer(K, U, U', m, m', d.revDep); }
      if Eval(K, U, m, d.weakRevDep).Some? { EvalTransfer(K, U, U', m, m', d.weakRevDep); }
      if SymType(K, U, m, s).Some? { TypeTransfer(K, U, U', m, m', s); }
    }
  }

  /** The user selection of a choice is one of its symbols. */
  ghost predicate PicksOk(K: Config, U: Users) {
    forall c :: c in U.pick ==> c < |K.choices| && U.pick[c] in K.choices[c].syms
  }

  /**
   * The main fact: a computation that succeeds on (U, m) is carried over to any
   * (U', m') that agree with them on what the computation can read.
   */
  lemma Transfer(K: Config, U: Users, U': Users, m: Cache, m': Cache, k: Key)
    requires ConfigOk(K) && KeyOk(K, k) && PicksOk(K, U)
    requires Agree(K, U, U', m, m', KeyReads(K, k))
    requires OwnMatters(K, m, k) ==> SameOwn(U, U', ItemOf(k))
    requires Body(K, U, m, k).Some?
    ensures Body(K, U', m', k) == Body(K, U, m, k)
  {
    match k
    case Vis(Sym(s)) => SymVisTransfer(K, U, U', m, m', s);
    case Vis(Cho(c)) => ChoiceVisTransfer(K, U, U', m, m', c);
    case TriOf(s) => SymTriTransfer(K, U, U', m, m', s);
    case StrOf(s) => SymStrTransfer(K, U, U', m, m', s);
    case WriteOf(s) => WriteTransfer(K, U, U', m, m', s);
    case Sel(c) => SelectionTransfer(K, U, U', m, m', c);
    case Assignable(Sym(s)) => AssignableTransfer(K, U, U', m, m', s);
    case Assignable(Cho(c)) =>
      assert SameAt(m, m', Vis(Cho(c)));
      if K.choices[c].origType == Tristate { assert SameAt(m, m', TriOf(K.modules)); }
  }
}
