/**
 * What every value property computes. A slot is one memoised attribute of one
 * object. Each computation reads other slots from a partial map and yields None
 * as soon as it needs a slot that is not there, so `Body(K, U, m, k).Some?` says
 * that the slots in m are all that the (short-circuiting) computation of k reads.
 */
module Values {
  import opened Wrappers
  import opened Numerals
  import opened Config

  /**
   * A slot: visibility, tri_value, str_value, selection or assignable of an object.
   * `_write_to_conf` is worked out along with a value and only looked at after the
   * value was asked for, so it counts as one more slot.
   */
  datatype Key =
    | Vis(i: Item)
    | TriOf(s: SymId)
    | StrOf(s: SymId)
    | WriteOf(s: SymId)
    | Sel(c: ChoiceId)
    | Assignable(i: Item)

  datatype Val =
    | T(t: Tri)
    | S(str: string)
    | P(pick: Option<SymId>)
    | A(vals: seq<Tri>)
    | B(flag: bool)

  type Cache = map<Key, Val>

  datatype UserVal = TriVal(t: Tri) | StrVal(str: string)

  /** user_value of symbols and choices, and user_selection of choices; absent is None. */
  datatype Users = Users(sym: map<SymId, UserVal>, mode: map<ChoiceId, Tri>, pick: map<ChoiceId, SymId>)

  /** Whether set_value() accepts a value for symbol s. */
  predicate ValidUserVal(K: Config, s: SymId, v: UserVal)
    requires SymOk(K, s)
  {
    match K.syms[s].origType
    case Unknown => false
    case Bool => v.TriVal? && v.t != 1
    case Tristate => v.TriVal?
    case String => v.StrVal?
    case Int => v.StrVal? && IsBaseN(v.str, 10)
    case Hex => v.StrVal? && IsBaseN(v.str, 16) && NumOrZero(v.str, 16) >= 0
  }

  predicate ValidMode(t: Type, v: Tri) {
    t == Tristate || (t == Bool && v != 1)
  }

  predicate PickOk(K: Config, c: ChoiceId, s: SymId) {
    c < |K.choices| && SymOk(K, s) && s in K.choices[c].syms && K.syms[s].choice == Some(c)
  }

  /** Only accepted values are stored, and only a symbol of the choice becomes its user selection. */
  ghost predicate UsersOk(K: Config, U: Users) {
    && (forall s :: s in U.sym ==> SymOk(K, s) && ValidUserVal(K, s, U.sym[s]))
    && (forall c :: c in U.mode ==> c < |K.choices| && ValidMode(K.choices[c].origType, U.mode[c]))
    && (forall c :: c in U.pick ==> PickOk(K, c, U.pick[c]))
  }

  /** "n", "m" and "y" stand for 0, 1 and 2. */
  function Normalize(v: UserVal): UserVal {
    if v.StrVal? && StrToTri(v.str).Some? then TriVal(StrToTri(v.str).value) else v
  }

  /** The form in which Symbol.set_value() takes a value. */
  function SymInput(K: Config, s: SymId, v: UserVal): UserVal
    requires SymOk(K, s)
  {
    if Boolish(K.syms[s].origType) then Normalize(v) else v
  }

  /** The user state after Symbol.set_value(). */
  function AfterSet(K: Config, U: Users, s: SymId, v: UserVal): Users
    requires SymOk(K, s)
  {
    var x := SymInput(K, s, v);
    var choice := K.syms[s].choice;
    if !ValidUserVal(K, s, x) then U
    else U.(sym := U.sym[s := x],
            pick := if choice.Some? && x == TriVal(2) then U.pick[choice.value := s] else U.pick)
  }

  /** What an accepted Symbol.set_value() marks as set. */
  function MarkedBySet(K: Config, s: SymId, v: UserVal): set<Item>
    requires SymOk(K, s)
  {
    var choice := K.syms[s].choice;
    {Sym(s)} + (if choice.Some? && SymInput(K, s, v) == TriVal(2) then {Cho(choice.value)} else {})
  }

  /** The user state after Choice.set_value(). */
  function AfterSetMode(K: Config, U: Users, c: ChoiceId, v: UserVal): Users
    requires c < |K.choices|
  {
    var x := Normalize(v);
    if x.TriVal? && ValidMode(K.choices[c].origType, x.t) then U.(mode := U.mode[c := x.t]) else U
  }

  function AfterUnset(U: Users, s: SymId): Users {
    U.(sym := U.sym - {s})
  }

  /** Choice.unset_value() forgets both the mode and the selection. */
  function AfterUnsetChoice(U: Users, c: ChoiceId): Users {
    U.(mode := U.mode - {c}, pick := U.pick - {c})
  }

  function ItemOf(k: Key): Item {
    match k
    case Vis(i) => i
    case TriOf(s) => Sym(s)
    case StrOf(s) => Sym(s)
    case WriteOf(s) => Sym(s)
    case Sel(c) => Cho(c)
    case Assignable(i) => i
  }

  predicate KeyOk(K: Config, k: Key) { ItemOk(K, ItemOf(k)) }

  /** The form of value that a slot holds. */
  predicate ValOk(k: Key, v: Val) {
    match k
    case Vis(_) => v.T?
    case TriOf(_) => v.T?
    case StrOf(_) => v.S?
    case WriteOf(_) => v.B?
    case Sel(_) => v.P?
    case Assignable(_) => v.A?
  }

  // Reading slots

  function GetT(m: Cache, k: Key): Option<Tri> { if k in m && m[k].T? then Some(m[k].t) else None }

  function GetS(m: Cache, k: Key): Option<string> { if k in m && m[k].S? then Some(m[k].str) else None }

  function GetP(m: Cache, k: Key): Option<Option<SymId>> { if k in m && m[k].P? then Some(m[k].pick) else None }

  function UserTri(U: Users, s: SymId): Option<Tri> {
    if s in U.sym && U.sym[s].TriVal? then Some(U.sym[s].t) else None
  }

  function UserStr(U: Users, s: SymId): Option<string> {
    if s in U.sym && U.sym[s].StrVal? then Some(U.sym[s].str) else None
  }

  function UserMode(U: Users, c: ChoiceId): Option<Tri> { if c in U.mode then Some(U.mode[c]) else None }

  function UserPick(U: Users, c: ChoiceId): Option<SymId> { if c in U.pick then Some(U.pick[c]) else None }

  // Types and choice modes, which are computed anew at every read

  function ChoiceType(K: Config, m: Cache, c: ChoiceId): Option<Type>
    requires c < |K.choices|
  {
    if K.choices[c].origType == Tristate then
      var modules :- GetT(m, TriOf(K.modules));
      Some(if modules == 0 then Bool else Tristate)
    else Some(K.choices[c].origType)
  }

  /** Choice.tri_value. */
  function ChoiceTri(K: Config, U: Users, m: Cache, c: ChoiceId): Option<Tri>
    requires c < |K.choices|
  {
    var least: Tri := if K.choices[c].isOptional then 0 else 1;
    var wanted := if UserMode(U, c).Some? then Max(least, UserMode(U, c).value) else least;
    var vis :- GetT(m, Vis(Cho(c)));
    var val := Min(wanted, vis);
    if val == 1 then
      var ty :- ChoiceType(K, m, c);
      Some(if ty == Bool then 2 else 1)
    else Some(val)
  }

  /** Symbol.type. */
  function SymType(K: Config, U: Users, m: Cache, s: SymId): Option<Type>
    requires ConfigOk(K) && SymOk(K, s)
  {
    var d := K.syms[s];
    if d.origType != Tristate then Some(d.origType)
    else
      assert SymDefOk(K, s);
      var mode :- if d.choice.Some? then ChoiceTri(K, U, m, d.choice.value) else Some(0);
      if mode == 2 then Some(Bool)
      else
        var modules :- GetT(m, TriOf(K.modules));
        Some(if modules == 0 then Bool else Tristate)
  }

  // Expressions

  /** The number a relation operand stands for; the inner None is a ValueError. */
  function SymNum(K: Config, m: Cache, s: SymId): Option<Option<int>>
    requires SymOk(K, s)
  {
    if Boolish(K.syms[s].origType) then
      var t :- GetT(m, TriOf(s));
      Some(Some(t))
    else
      var str :- GetS(m, StrOf(s));
      Some(ParseInt(str, TypeBase(K.syms[s].origType)))
  }

  function CompareStrs(m: Cache, a: SymId, b: SymId): Option<int> {
    var x :- GetS(m, StrOf(a));
    var y :- GetS(m, StrOf(b));
    Some(StrCmp(x, y))
  }

  function CompareSyms(K: Config, m: Cache, a: SymId, b: SymId): Option<int>
    requires SymOk(K, a) && SymOk(K, b)
  {
    if K.syms[a].origType == String && K.syms[b].origType == String then CompareStrs(m, a, b)
    else
      var x :- SymNum(K, m, a);
      if x.None? then CompareStrs(m, a, b)
      else
        var y :- SymNum(K, m, b);
        if y.None? then CompareStrs(m, a, b) else Some(x.value - y.value)
  }

  predicate Holds(rel: Relation, comp: int) {
    match rel
    case Equal => comp == 0
    case Unequal => comp != 0
    case Less => comp < 0
    case LessEqual => comp <= 0
    case Greater => comp > 0
    case GreaterEqual => comp >= 0
  }

  /** expr_value(). */
  function Eval(K: Config, U: Users, m: Cache, e: Expr): Option<Tri>
    requires ExprOk(K, e)
  {
    match e
    case Leaf(Sym(s)) => GetT(m, TriOf(s))
    case Leaf(Cho(c)) => ChoiceTri(K, U, m, c)
    case And(l, r) =>
      var v1 :- Eval(K, U, m, l);
      if v1 == 0 then Some(0)
      else
        var v2 :- Eval(K, U, m, r);
        Some(Min(v1, v2))
    case Or(l, r) =>
      var v1 :- Eval(K, U, m, l);
      if v1 == 2 then Some(2)
      else
        var v2 :- Eval(K, U, m, r);
        Some(Max(v1, v2))
    case Not(a) =>
      var v :- Eval(K, U, m, a);
      var inverse: Tri := 2 - v;
      Some(inverse)
    case Compare(rel, a, b) =>
      var comp :- CompareSyms(K, m, a, b);
      Some(if Holds(rel, comp) then 2 else 0)
  }

  // Visibility

  /** The maximum over the prompt conditions of the first n menu nodes. */
  function PromptVis(K: Config, U: Users, m: Cache, ps: seq<Option<Expr>>, n: nat): Option<Tri>
    requires PromptsOk(K, ps) && n <= |ps|
  {
    if n == 0 then Some(0)
    else
      var before :- PromptVis(K, U, m, ps, n - 1);
      if ps[n - 1].None? then Some(before)
      else
        var cond :- Eval(K, U, m, ps[n - 1].value);
        Some(Max(before, cond))
  }

  /** Whether a choice symbol with prompt visibility `vis` is hidden by the mode of its choice. */
  function HiddenByMode(K: Config, U: Users, m: Cache, s: SymId, c: ChoiceId, vis: Tri): Option<bool>
    requires SymOk(K, s) && c < |K.choices|
  {
    var tristate := K.syms[s].origType == Tristate;
    if K.choices[c].origType == Tristate && !tristate then
      var mode :- ChoiceTri(K, U, m, c);
      Some(mode != 2)
    else if tristate && vis == 1 then
      var mode :- ChoiceTri(K, U, m, c);
      Some(mode == 2)
    else Some(false)
  }

  function SymVis(K: Config, U: Users, m: Cache, s: SymId): Option<Tri>
    requires ConfigOk(K) && SymOk(K, s)
  {
    assert SymDefOk(K, s);
    var d := K.syms[s];
    var vis :- PromptVis(K, U, m, d.prompts, |d.prompts|);
    var hidden :- if d.choice.Some? then HiddenByMode(K, U, m, s, d.choice.value, vis) else Some(false);
    if hidden then Some(0)
    else if vis == 1 then
      var ty :- SymType(K, U, m, s);
      Some(if ty != Tristate then 2 else 1)
    else Some(vis)
  }

  function ChoiceVis(K: Config, U: Users, m: Cache, c: ChoiceId): Option<Tri>
    requires ConfigOk(K) && c < |K.choices|
  {
    assert ChoiceDefOk(K, c);
    var d := K.choices[c];
    var vis :- PromptVis(K, U, m, d.prompts, |d.prompts|);
    if vis == 1 then
      var ty :- ChoiceType(K, m, c);
      Some(if ty != Tristate then 2 else 1)
    else Some(vis)
  }

  // tri_value

  /** The index of the first default from i on whose condition is met; |ds| if there is none. */
  function ActiveDefault(K: Config, U: Users, m: Cache, t: Type, ds: seq<Default>, i: nat): Option<nat>
    requires DefaultsOk(K, t, ds) && i <= |ds|
    decreases |ds| - i
  {
    if i == |ds| then Some(i)
    else
      var cond :- Eval(K, U, m, ds[i].cond);
      if cond != 0 then Some(i) else ActiveDefault(K, U, m, t, ds, i + 1)
  }

  /** The value a bool or tristate symbol gets from its defaults. */
  function DefaultTri(K: Config, U: Users, m: Cache, t: Type, ds: seq<Default>): Option<Tri>
    requires DefaultsOk(K, t, ds)
  {
    var i :- ActiveDefault(K, U, m, t, ds, 0);
    if i < |ds| then
      var cond :- Eval(K, U, m, ds[i].cond);
      var val :- Eval(K, U, m, ds[i].value);
      Some(Min(val, cond))
    else Some(0)
  }

  /** The lower bound from implies, which only count while the direct dependencies are met. */
  function ImplyTri(K: Config, U: Users, m: Cache, s: SymId): Option<Tri>
    requires ConfigOk(K) && SymOk(K, s)
  {
    assert SymDefOk(K, s);
    var weak :- Eval(K, U, m, K.syms[s].weakRevDep);
    if weak == 0 then Some(0)
    else
      var dep :- Eval(K, U, m, K.syms[s].directDep);
      Some(if dep != 0 then weak else 0)
  }

  /** The lower bound from selects. The direct dependencies are read to warn about unmet ones. */
  function SelectTri(K: Config, U: Users, m: Cache, s: SymId): Option<Tri>
    requires ConfigOk(K) && SymOk(K, s)
  {
    assert SymDefOk(K, s);
    var rev :- Eval(K, U, m, K.syms[s].revDep);
    if rev == 0 then Some(0)
    else
      var dep :- Eval(K, U, m, K.syms[s].directDep);
      Some(rev)
  }

  /** The value from the user or else from defaults and implies. */
  function WantedTri(K: Config, U: Users, m: Cache, s: SymId, vis: Tri): Option<Tri>
    requires ConfigOk(K) && SymOk(K, s)
  {
    assert SymDefOk(K, s);
    if vis != 0 && UserTri(U, s).Some? then Some(Min(UserTri(U, s).value, vis))
    else
      var val :- DefaultTri(K, U, m, K.syms[s].origType, K.syms[s].defaults);
      var weak :- ImplyTri(K, U, m, s);
      Some(Max(weak, val))
  }

  /** m becomes y for bool symbols and for symbols implied to y. */
  function Promote(K: Config, U: Users, m: Cache, s: SymId, val: Tri): Option<Tri>
    requires ConfigOk(K) && SymOk(K, s)
  {
    assert SymDefOk(K, s);
    if val != 1 then Some(val)
    else
      var ty :- SymType(K, U, m, s);
      if ty == Bool then Some(2)
      else
        var weak :- Eval(K, U, m, K.syms[s].weakRevDep);
        Some(if weak == 2 then 2 else 1)
  }

  function PlainTri(K: Config, U: Users, m: Cache, s: SymId, vis: Tri): Option<Tri>
    requires ConfigOk(K) && SymOk(K, s)
  {
    var val :- WantedTri(K, U, m, s, vis);
    var rev :- SelectTri(K, U, m, s);
    Promote(K, U, m, s, Max(rev, val))
  }

  function ChoiceSymTri(U: Users, m: Cache, s: SymId, c: ChoiceId, vis: Tri): Option<Tri> {
    if vis == 2 then
      var sel :- GetP(m, Sel(c));
      Some(if sel == Some(s) then 2 else 0)
    else if vis != 0 && UserTri(U, s).Some? && UserTri(U, s).value != 0 then Some(1)
    else Some(0)
  }

  function SymTri(K: Config, U: Users, m: Cache, s: SymId): Option<Tri>
    requires ConfigOk(K) && SymOk(K, s)
  {
    assert SymDefOk(K, s);
    var d := K.syms[s];
    if IsNmy(d) then StrToTri(d.name)
    else if !Boolish(d.origType) then Some(0)
    else
      var vis :- GetT(m, Vis(Sym(s)));
      if d.choice.None? then PlainTri(K, U, m, s, vis) else ChoiceSymTri(U, m, s, d.choice.value, vis)
  }

  // str_value

  /** The bounds of the first range whose condition is met. */
  function ActiveRange(K: Config, U: Users, m: Cache, base: nat, rs: seq<Range>, i: nat): Option<Option<(int, int)>>
    requires RangesOk(K, rs) && i <= |rs|
    decreases |rs| - i
  {
    if i == |rs| then Some(None)
    else
      var cond :- Eval(K, U, m, rs[i].cond);
      if cond != 0 then
        var low :- GetS(m, StrOf(rs[i].low));
        var high :- GetS(m, StrOf(rs[i].high));
        Some(Some((NumOrZero(low, base), NumOrZero(high, base))))
      else ActiveRange(K, U, m, base, rs, i + 1)
  }

  /** str_value of the symbol that is the first active default; the inner None is "no default". */
  function DefaultStr(K: Config, U: Users, m: Cache, t: Type, ds: seq<Default>): Option<Option<string>>
    requires DefaultsOk(K, t, ds) && !Boolish(t) && t != Unknown
  {
    var i :- ActiveDefault(K, U, m, t, ds, 0);
    if i < |ds| then
      var str :- GetS(m, StrOf(ds[i].value.item.s));
      Some(Some(str))
    else Some(None)
  }

  predicate InRange(range: Option<(int, int)>, n: int) {
    range.None? || range.value.0 <= n <= range.value.1
  }

  /** A default value, rewritten if the active range does not contain it. */
  function Clamp(range: Option<(int, int)>, base: nat, val: string): string
    requires base == 10 || base == 16
  {
    var n := NumOrZero(val, base);
    if range.None? then val
    else if n < range.value.0 then PrintInt(range.value.0, base)
    else if n > range.value.1 then PrintInt(range.value.1, base)
    else val
  }

  /** The user value of an int or hex symbol, if it takes effect. */
  function UserNum(U: Users, s: SymId, vis: Tri, range: Option<(int, int)>, base: nat): Option<string> {
    var u := UserStr(U, s);
    if vis != 0 && u.Some? && u.value != "" && InRange(range, NumOrZero(u.value, base)) then u else None
  }

  function NumStr(K: Config, U: Users, m: Cache, s: SymId, vis: Tri): Option<string>
    requires ConfigOk(K) && SymOk(K, s) && Numeric(K.syms[s].origType)
  {
    assert SymDefOk(K, s);
    var d := K.syms[s];
    var base := TypeBase(d.origType);
    var range :- ActiveRange(K, U, m, base, d.ranges, 0);
    var user := UserNum(U, s, vis, range, base);
    if user.Some? then user
    else
      var def :- DefaultStr(K, U, m, d.origType, d.defaults);
      Some(Clamp(range, base, if def.Some? then def.value else ""))
  }

  function TextStr(K: Config, U: Users, m: Cache, s: SymId, vis: Tri): Option<string>
    requires ConfigOk(K) && SymOk(K, s) && K.syms[s].origType == String
  {
    assert SymDefOk(K, s);
    if vis != 0 && UserStr(U, s).Some? then UserStr(U, s)
    else
      var def :- DefaultStr(K, U, m, String, K.syms[s].defaults);
      Some(if def.Some? then def.value else "")
  }

  function SymStr(K: Config, U: Users, m: Cache, s: SymId): Option<string>
    requires ConfigOk(K) && SymOk(K, s)
  {
    var d := K.syms[s];
    if Boolish(d.origType) then
      var t :- GetT(m, TriOf(s));
      Some(TriToStr(t))
    else if d.origType == Unknown then Some(d.name)
    else
      var vis :- GetT(m, Vis(Sym(s)));
      if d.origType == String then TextStr(K, U, m, s, vis) else NumStr(K, U, m, s, vis)
  }

  // Choice selection

  function DefaultPick(K: Config, U: Users, m: Cache, c: ChoiceId, i: nat): Option<Option<SymId>>
    requires ConfigOk(K) && c < |K.choices| && i <= |K.choices[c].defaults|
    decreases |K.choices[c].defaults| - i
  {
    assert ChoiceDefOk(K, c);
    var ds := K.choices[c].defaults;
    if i == |ds| then Some(None)
    else
      var cond :- Eval(K, U, m, ds[i].cond);
      if cond == 0 then DefaultPick(K, U, m, c, i + 1)
      else
        var vis :- GetT(m, Vis(Sym(ds[i].sym)));
        if vis != 0 then Some(Some(ds[i].sym)) else DefaultPick(K, U, m, c, i + 1)
  }

  function FirstVisible(m: Cache, syms: seq<SymId>, i: nat): Option<Option<SymId>>
    requires i <= |syms|
    decreases |syms| - i
  {
    if i == |syms| then Some(None)
    else
      var vis :- GetT(m, Vis(Sym(syms[i])));
      if vis != 0 then Some(Some(syms[i])) else FirstVisible(m, syms, i + 1)
  }

  /** Choice._selection_from_defaults(). */
  function SelectionFromDefaults(K: Config, U: Users, m: Cache, c: ChoiceId): Option<Option<SymId>>
    requires ConfigOk(K) && c < |K.choices|
  {
    var pick :- DefaultPick(K, U, m, c, 0);
    if pick.Some? then Some(pick) else FirstVisible(m, K.choices[c].syms, 0)
  }

  function Selection(K: Config, U: Users, m: Cache, c: ChoiceId): Option<Option<SymId>>
    requires ConfigOk(K) && c < |K.choices|
  {
    var mode :- ChoiceTri(K, U, m, c);
    if mode != 2 then Some(None)
    else
      var pick := UserPick(U, c);
      var vis :- if pick.Some? then GetT(m, Vis(Sym(pick.value))) else Some(0);
      if vis != 0 then Some(pick) else SelectionFromDefaults(K, U, m, c)
  }

  // assignable

  function SymAssignable(K: Config, U: Users, m: Cache, s: SymId): Option<seq<Tri>>
    requires ConfigOk(K) && SymOk(K, s)
  {
    assert SymDefOk(K, s);
    var d := K.syms[s];
    if !Boolish(d.origType) then Some([])
    else
      var vis :- GetT(m, Vis(Sym(s)));
      if vis == 0 then Some([])
      else
        var rev :- Eval(K, U, m, d.revDep);
        if vis == 2 && d.choice.Some? then Some([2])
        else if rev == 2 then Some([2])
        else if vis == 2 then
          var ty :- SymType(K, U, m, s);
          var weak :- if ty == Bool then Some(2) else Eval(K, U, m, d.weakRevDep);
          Some(if rev == 0 then (if weak == 2 then [0, 2] else [0, 1, 2]) else (if weak == 2 then [2] else [1, 2]))
        else if rev == 0 then
          var weak :- Eval(K, U, m, d.weakRevDep);
          Some(if weak != 2 then [0, 1] else [0, 2])
        else Some([1])
  }

  function ChoiceAssignable(K: Config, m: Cache, c: ChoiceId): Option<seq<Tri>>
    requires c < |K.choices|
  {
    var vis :- GetT(m, Vis(Cho(c)));
    var optional := K.choices[c].isOptional;
    if vis == 0 then Some([])
    else if vis == 2 then
      var ty :- ChoiceType(K, m, c);
      Some(if optional then (if ty == Bool then [0, 2] else [0, 1, 2]) else (if ty == Bool then [2] else [1, 2]))
    else Some(if optional then [0, 1] else [1])
  }

  /** `_write_to_conf`, which is worked out along with the value. */
  function WriteToConf(K: Config, U: Users, m: Cache, s: SymId): Option<bool>
    requires ConfigOk(K) && SymOk(K, s)
  {
    assert SymDefOk(K, s);
    var d := K.syms[s];
    if IsNmy(d) || d.origType == Unknown then Some(false)
    else
      var vis :- GetT(m, Vis(Sym(s)));
      if !Boolish(d.origType) then
        var def :- if vis != 0 then Some(None) else DefaultStr(K, U, m, d.origType, d.defaults);
        Some((vis != 0 || def.Some?) && !d.fromEnv && K.defconfigList != Some(s))
      else if d.choice.Some? || vis != 0 then Some(vis != 0)
      else
        var val :- WantedTri(K, U, m, s, 0);
        var rev :- SelectTri(K, U, m, s);
        Some(val != 0 || rev != 0)
  }

  // All slots

  function Body(K: Config, U: Users, m: Cache, k: Key): Option<Val>
    requires ConfigOk(K) && KeyOk(K, k)
  {
    match k
    case Vis(Sym(s)) => var v :- SymVis(K, U, m, s); Some(T(v))
    case Vis(Cho(c)) => var v :- ChoiceVis(K, U, m, c); Some(T(v))
    case TriOf(s) => var v :- SymTri(K, U, m, s); Some(T(v))
    case StrOf(s) => var v :- SymStr(K, U, m, s); Some(S(v))
    case WriteOf(s) => var v :- WriteToConf(K, U, m, s); Some(B(v))
    case Sel(c) => var v :- Selection(K, U, m, c); Some(P(v))
    case Assignable(Sym(s)) => var v :- SymAssignable(K, U, m, s); Some(A(v))
    case Assignable(Cho(c)) => var v :- ChoiceAssignable(K, m, c); Some(A(v))
  }
}
