/**
 * A finished configuration: what the parser and the menu-tree finalisation leave
 * on the Symbol and Choice objects, and what evaluation then only reads.
 * A symbol or a choice is known by its index.
 */
module Config {
  import opened Wrappers

  /** n, m and y. */
  type Tri = t: int | 0 <= t <= 2

  function Min(a: Tri, b: Tri): Tri { if b < a then b else a }

  function Max(a: Tri, b: Tri): Tri { if a < b then b else a }

  function TriToStr(t: Tri): string {
    if t == 0 then "n" else if t == 1 then "m" else "y"
  }

  function StrToTri(s: string): Option<Tri> {
    if s == "n" then Some(0) else if s == "m" then Some(1) else if s == "y" then Some(2) else None
  }

  datatype Type = Unknown | Bool | Tristate | String | Int | Hex

  predicate Boolish(t: Type) { t == Bool || t == Tristate }

  predicate Numeric(t: Type) { t == Int || t == Hex }

  /** The base in which a value of type t is read as a number; 0 infers it from the prefix. */
  function TypeBase(t: Type): nat {
    if t == Hex then 16 else if t == Int then 10 else 0
  }

  type SymId = nat
  type ChoiceId = nat

  datatype Item = Sym(s: SymId) | Cho(c: ChoiceId)

  datatype Relation = Equal | Unequal | Less | LessEqual | Greater | GreaterEqual

  datatype Expr =
    | Leaf(item: Item)
    | And(left: Expr, right: Expr)
    | Or(left: Expr, right: Expr)
    | Not(arg: Expr)
    | Compare(rel: Relation, a: SymId, b: SymId)

  datatype Default = Default(value: Expr, cond: Expr)
  datatype Range = Range(low: SymId, high: SymId, cond: Expr)
  datatype Pick = Pick(sym: SymId, cond: Expr)

  /** `prompts` has one entry for each menu node: the prompt condition, if there is a prompt. */
  datatype SymDef = SymDef(
    name: string,
    origType: Type,
    isConst: bool,
    prompts: seq<Option<Expr>>,
    defaults: seq<Default>,
    ranges: seq<Range>,
    revDep: Expr,
    weakRevDep: Expr,
    directDep: Expr,
    choice: Option<ChoiceId>,
    fromEnv: bool)

  datatype ChoiceDef = ChoiceDef(
    origType: Type,
    isOptional: bool,
    prompts: seq<Option<Expr>>,
    defaults: seq<Pick>,
    syms: seq<SymId>)

  /** `definedSyms` lists the symbols with a definition once each, in the order of their definitions. */
  datatype Config = Config(
    syms: seq<SymDef>,
    choices: seq<ChoiceDef>,
    definedSyms: seq<SymId>,
    modules: SymId,
    defconfigList: Option<SymId>)

  predicate SymOk(K: Config, s: SymId) { s < |K.syms| }

  predicate ItemOk(K: Config, i: Item) {
    match i
    case Sym(s) => s < |K.syms|
    case Cho(c) => c < |K.choices|
  }

  predicate ExprOk(K: Config, e: Expr) {
    match e
    case Leaf(i) => ItemOk(K, i)
    case And(l, r) => ExprOk(K, l) && ExprOk(K, r)
    case Or(l, r) => ExprOk(K, l) && ExprOk(K, r)
    case Not(a) => ExprOk(K, a)
    case Compare(_, a, b) => SymOk(K, a) && SymOk(K, b)
  }

  predicate PromptsOk(K: Config, ps: seq<Option<Expr>>) {
    forall i :: 0 <= i < |ps| && ps[i].Some? ==> ExprOk(K, ps[i].value)
  }

  /** Has a definition: symbols that only occur in expressions have no menu nodes. */
  predicate Defined(d: SymDef) { d.prompts != [] }

  /** One of the three constants that are created with their value. */
  predicate IsNmy(d: SymDef) { d.isConst && d.origType == Tristate }

  predicate HasPrompt(ps: seq<Option<Expr>>) {
    exists i :: 0 <= i < |ps| && ps[i].Some?
  }

  predicate DefaultsOk(K: Config, t: Type, ds: seq<Default>) {
    forall i :: 0 <= i < |ds| ==>
      && ExprOk(K, ds[i].value) && ExprOk(K, ds[i].cond)
      // checked after parsing: a default of another type is a single symbol
      && (!Boolish(t) && t != Unknown ==> ds[i].value.Leaf? && ds[i].value.item.Sym?)
  }

  predicate RangesOk(K: Config, rs: seq<Range>) {
    forall i :: 0 <= i < |rs| ==>
      SymOk(K, rs[i].low) && SymOk(K, rs[i].high) && ExprOk(K, rs[i].cond)
  }

  predicate ConstLeaf(K: Config, e: Expr) {
    e.Leaf? && e.item.Sym? && SymOk(K, e.item.s) && K.syms[e.item.s].isConst
  }

  predicate SymDefOk(K: Config, s: SymId)
    requires SymOk(K, s)
  {
    var d := K.syms[s];
    && PromptsOk(K, d.prompts) && DefaultsOk(K, d.origType, d.defaults) && RangesOk(K, d.ranges)
    && ExprOk(K, d.revDep) && ExprOk(K, d.weakRevDep) && ExprOk(K, d.directDep)
    && (d.choice.Some? ==> d.choice.value < |K.choices| && s in K.choices[d.choice.value].syms)
    && (!Defined(d) ==> d.choice.None? && (IsNmy(d) || d.origType == Unknown))
    && (d.isConst ==> !Defined(d))
    && (IsNmy(d) ==> StrToTri(d.name).Some?)
    && (d.isConst ==> ConstLeaf(K, d.revDep) && ConstLeaf(K, d.weakRevDep) && ConstLeaf(K, d.directDep))
  }

  predicate ChoiceDefOk(K: Config, c: ChoiceId)
    requires c < |K.choices|
  {
    var d := K.choices[c];
    && PromptsOk(K, d.prompts)
    && (forall i :: 0 <= i < |d.syms| ==> SymOk(K, d.syms[i]) && Defined(K.syms[d.syms[i]]))
    // a default outside the choice only draws a warning; it is excluded here
    && (forall i :: 0 <= i < |d.defaults| ==> d.defaults[i].sym in d.syms && ExprOk(K, d.defaults[i].cond))
  }

  predicate DefinedSymsOk(K: Config) {
    && (forall i :: 0 <= i < |K.definedSyms| ==> SymOk(K, K.definedSyms[i]))
    && (forall s :: 0 <= s < |K.syms| ==> (s in K.definedSyms <==> Defined(K.syms[s])))
    && (forall i, j :: 0 <= i < j < |K.definedSyms| ==> K.definedSyms[i] != K.definedSyms[j])
  }

  predicate ConfigOk(K: Config) {
    && DefinedSymsOk(K)
    && SymOk(K, K.modules) && !K.syms[K.modules].isConst
    && (forall s :: 0 <= s < |K.syms| ==> SymDefOk(K, s))
    && (forall c :: 0 <= c < |K.choices| ==> ChoiceDefOk(K, c))
  }
}
