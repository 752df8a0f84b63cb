/**
 * When a menu node goes in the implicit submenu of a symbol before it: the test on its condition,
 * and what that means for its visibility.
 */
module AutoMenu {
  import opened Wrappers
  import opened Config
  import opened Values
  import opened Meaning
  import opened ValueLaws
  import opened ExprMeaning

  /** The constant symbols n, m and y. */
  datatype Constants = Constants(n: SymId, m: SymId, y: SymId)

  ghost predicate ConstantsOk(K: Config, C: Constants) {
    && SymOk(K, C.n) && IsNmy(K.syms[C.n]) && K.syms[C.n].name == "n"
    && SymOk(K, C.m) && IsNmy(K.syms[C.m]) && K.syms[C.m].name == "m"
    && SymOk(K, C.y) && IsNmy(K.syms[C.y]) && K.syms[C.y].name == "y"
  }

  /** _expr_depends_on() */
  predicate ExprDependsOn(e: Expr, s: SymId, C: Constants) {
    match e
    case Leaf(i) => i == Sym(s)
    case Compare(rel, a, b) =>
      var right := if b == s then a else b;
      (rel == Equal || rel == Unequal) && (a == s || b == s) &&
      ((rel == Equal && right == C.m) || right == C.y || (rel == Unequal && right == C.n))
    case And(l, r) => ExprDependsOn(l, s, C) || ExprDependsOn(r, s, C)
    case _ => false
  }

  /** The two are compared by this relation, in either order. */
  predicate Compares(e: Expr, rel: Relation, s: SymId, t: SymId) { e == Compare(rel, s, t) || e == Compare(rel, t, s) }

  /** One of the operands of the conjunction e is such that it is n if s is n, by its form. */
  predicate NeedsSym(e: Expr, s: SymId, C: Constants) {
    match e
    case Leaf(i) => i == Sym(s)
    case And(l, r) => NeedsSym(l, s, C) || NeedsSym(r, s, C)
    case _ => Compares(e, Equal, s, C.m) || Compares(e, Equal, s, C.y) || Compares(e, Unequal, s, C.n)
  }

  /** One of the operands is `s != y`, which is y if s is n. */
  predicate HasNotY(e: Expr, s: SymId, C: Constants) {
    match e
    case And(l, r) => HasNotY(l, s, C) || HasNotY(r, s, C)
    case _ => Compares(e, Unequal, s, C.y)
  }

  /** The test accepts the forms that its comment lists, and `s != y`, which it does not list. */
  lemma {:induction false} AcceptedForms(e: Expr, s: SymId, C: Constants)
    requires s != C.n && s != C.m && s != C.y
    ensures ExprDependsOn(e, s, C) <==> NeedsSym(e, s, C) || HasNotY(e, s, C)
  {
    match e
    case And(l, r) =>
      AcceptedForms(l, s, C);
      AcceptedForms(r, s, C);
    case _ =>
  }

  lemma ConstantValues(K: Config, U: Users, m: Cache, C: Constants)
    requires ConfigOk(K) && Solves(K, U, m) && ConstantsOk(K, C)
    ensures ReadsAs(K, m, C.n, 0) && ReadsAs(K, m, C.m, 1) && ReadsAs(K, m, C.y, 2)
  {
    SolutionKnows(K, U, m, TriOf(C.n));
    SolutionKnows(K, U, m, TriOf(C.m));
    SolutionKnows(K, U, m, TriOf(C.y));
  }

  /** With a form that the comment lists, a condition is n whenever the symbol is n, so that its node is hidden then. */
  lemma {:induction false} SubmenuIsHidden(K: Config, U: Users, m: Cache, e: Expr, s: SymId, C: Constants)
    requires ConfigOk(K) && Solves(K, U, m) && ConstantsOk(K, C) && ExprOk(K, e) && SymOk(K, s)
    requires Boolish(K.syms[s].origType) && NeedsSym(e, s, C) && GetT(m, TriOf(s)) == Some(0)
    ensures Truth(K, U, m, e) == 0
    decreases e
  {
    match e
    case Leaf(_) => LeafAndNot(K, U, m, s, e);
    case And(l, r) =>
      AndAndOr(K, U, m, l, r);
      if NeedsSym(l, s, C) { SubmenuIsHidden(K, U, m, l, s, C); } else { SubmenuIsHidden(K, U, m, r, s, C); }
    case Compare(rel, a, b) =>
      ConstantValues(K, U, m, C);
      assert ReadsAs(K, m, s, 0);
      var t := if Compares(e, Equal, s, C.m) then 1 else if Compares(e, Equal, s, C.y) then 2 else 0;
      NumbersCompare(K, U, m, rel, a, b, if a == s then 0 else t, if a == s then t else 0);
    case _ =>
  }

  /** With `s != y` alone it is y then, although the test accepts it: the node is taken in and stays visible. */
  lemma NotYIsShown(K: Config, U: Users, m: Cache, s: SymId, C: Constants)
    requires ConfigOk(K) && Solves(K, U, m) && ConstantsOk(K, C) && SymOk(K, s)
    requires Boolish(K.syms[s].origType) && GetT(m, TriOf(s)) == Some(0)
    ensures ExprDependsOn(Compare(Unequal, s, C.y), s, C) && Truth(K, U, m, Compare(Unequal, s, C.y)) == 2
  {
    ConstantValues(K, U, m, C);
    assert ReadsAs(K, m, s, 0);
    NumbersCompare(K, U, m, Unequal, s, C.y, 0, 2);
  }
}
