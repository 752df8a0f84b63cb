/**
 * What expressions mean in a state whose values are all known: minimum, maximum and
 * complement for the operators, and the order of numbers or of texts for comparisons.
 */
module ExprMeaning {
  import opened Wrappers
  import opened Numerals
  import opened Config
  import opened Values
  import opened Reads
  import opened Meaning
  import opened ValueLaws
  import ExprSyntax

  /** The value of an expression. */
  ghost function Truth(K: Config, U: Users, m: Cache, e: Expr): Tri
    requires ExprOk(K, e)
  {
    match Eval(K, U, m, e)
    case Some(v) => v
    case None => 0
  }

  lemma TruthIsEval(K: Config, U: Users, m: Cache, e: Expr)
    requires ConfigOk(K) && Solves(K, U, m) && ExprOk(K, e)
    ensures Eval(K, U, m, e) == Some(Truth(K, U, m, e))
  {
    AllExprReadsOk(K);
    forall k | k in ExprReads(K, e) ensures k in m && ValOk(k, m[k]) { SolutionKnows(K, U, m, k); }
    EvalTotal(K, U, m, e);
  }

  /** A symbol stands for its tri_value, and `!` turns y into n and n into y. */
  lemma LeafAndNot(K: Config, U: Users, m: Cache, s: SymId, e: Expr)
    requires ConfigOk(K) && Solves(K, U, m) && SymOk(K, s) && ExprOk(K, e)
    ensures GetT(m, TriOf(s)) == Some(Truth(K, U, m, Leaf(Sym(s))))
    ensures Truth(K, U, m, Not(e)) + Truth(K, U, m, e) == 2
  {
    TruthIsEval(K, U, m, Leaf(Sym(s)));
    TruthIsEval(K, U, m, Not(e));
    TruthIsEval(K, U, m, e);
  }

  /** `&&` and `||` are the minimum and the maximum of their operands, short-circuiting or not. */
  lemma AndAndOr(K: Config, U: Users, m: Cache, l: Expr, r: Expr)
    requires ConfigOk(K) && Solves(K, U, m) && ExprOk(K, l) && ExprOk(K, r)
    ensures
      var x, y, both := Truth(K, U, m, l), Truth(K, U, m, r), Truth(K, U, m, And(l, r));
      both <= x && both <= y && (both == x || both == y)
    ensures
      var x, y, any := Truth(K, U, m, l), Truth(K, U, m, r), Truth(K, U, m, Or(l, r));
      any >= x && any >= y && (any == x || any == y)
  {
    TruthIsEval(K, U, m, l);
    TruthIsEval(K, U, m, r);
    TruthIsEval(K, U, m, And(l, r));
    TruthIsEval(K, U, m, Or(l, r));
  }

  // Comparisons

  /** x comes before y in a dictionary: at the first difference, or because it is a proper prefix. */
  ghost predicate Before(x: string, y: string) {
    exists n :: 0 <= n <= |x| && n < |y| && x[..n] == y[..n] && (n == |x| || x[n] < y[n])
  }

  lemma BeforeTail(x: string, y: string)
    requires x != "" && y != "" && x[0] == y[0] && Before(x[1..], y[1..])
    ensures Before(x, y)
  {
    var n :| 0 <= n <= |x[1..]| && n < |y[1..]| && x[1..][..n] == y[1..][..n] && (n == |x[1..]| || x[1..][n] < y[1..][n]);
    assert x[..n + 1] == [x[0]] + x[1..][..n] && y[..n + 1] == [y[0]] + y[1..][..n];
  }

  lemma BeforeAtStart(x: string, y: string)
    requires y != "" && (x == "" || x[0] < y[0])
    ensures Before(x, y)
  {
    assert x[..0] == y[..0];
  }

  lemma SameAtStart(x: string, y: string, n: nat)
    requires n <= |x| && n <= |y| && x[..n] == y[..n]
    ensures forall k :: 0 <= k < n ==> x[k] == y[k]
  {
    forall k | 0 <= k < n ensures x[k] == y[k] { assert x[k] == x[..n][k] && y[k] == y[..n][k]; }
  }

  /** The order is strict: nothing comes before itself, or both before and after. */
  lemma BeforeIsStrict(x: string, y: string)
    requires Before(x, y)
    ensures x != y && !Before(y, x)
  {
    var n :| 0 <= n <= |x| && n < |y| && x[..n] == y[..n] && (n == |x| || x[n] < y[n]);
    SameAtStart(x, y, n);
    if Before(y, x) {
      var k :| 0 <= k <= |y| && k < |x| && y[..k] == x[..k] && (k == |y| || y[k] < x[k]);
      SameAtStart(y, x, k);
    }
  }

  lemma {:induction false} StrCmpOrders(x: string, y: string)
    ensures StrCmp(x, y) < 0 ==> Before(x, y)
    ensures StrCmp(x, y) > 0 ==> Before(y, x)
    ensures StrCmp(x, y) == 0 ==> x == y
  {
    if x == "" {
      if y != "" { BeforeAtStart(x, y); }
    } else if y == "" {
      BeforeAtStart(y, x);
    } else if x[0] < y[0] {
      BeforeAtStart(x, y);
    } else if y[0] < x[0] {
      BeforeAtStart(y, x);
    } else {
      StrCmpOrders(x[1..], y[1..]);
      assert x == [x[0]] + x[1..] && y == [y[0]] + y[1..];
      if StrCmp(x, y) < 0 { BeforeTail(x, y); }
      if StrCmp(x, y) > 0 { BeforeTail(y, x); }
    }
  }

  /** An operand of a comparison reads as the number x. */
  ghost predicate ReadsAs(K: Config, m: Cache, s: SymId, x: int)
    requires SymOk(K, s)
  {
    match K.syms[s].origType
    case Bool => GetT(m, TriOf(s)) == Some(x)
    case Tristate => GetT(m, TriOf(s)) == Some(x)
    case Hex => exists text :: GetS(m, StrOf(s)) == Some(text) && ParseInt(text, 16) == Some(x)
    case Int => exists text :: GetS(m, StrOf(s)) == Some(text) && ParseInt(text, 10) == Some(x)
    case _ => exists text :: GetS(m, StrOf(s)) == Some(text) && ParseInt(text, 0) == Some(x)
  }

  ghost predicate IsString(K: Config, s: SymId) { SymOk(K, s) && K.syms[s].origType == String }

  lemma OperandIs(K: Config, U: Users, m: Cache, s: SymId)
    requires ConfigOk(K) && Solves(K, U, m) && SymOk(K, s)
    ensures Known(K, U, m, StrOf(s)) && GetS(m, StrOf(s)) == Some(m[StrOf(s)].str) && SymNum(K, m, s).Some?
    ensures forall x :: ReadsAs(K, m, s, x) <==> SymNum(K, m, s) == Some(Some(x))
  {
    SolutionKnows(K, U, m, StrOf(s));
    SolutionKnows(K, U, m, TriOf(s));
  }

  /** Two operands that read as numbers, and are not both strings, are compared as numbers. */
  lemma NumbersCompare(K: Config, U: Users, m: Cache, rel: Relation, a: SymId, b: SymId, x: int, y: int)
    requires ConfigOk(K) && Solves(K, U, m) && SymOk(K, a) && SymOk(K, b)
    requires ReadsAs(K, m, a, x) && ReadsAs(K, m, b, y) && !(IsString(K, a) && IsString(K, b))
    ensures Truth(K, U, m, Compare(rel, a, b)) != 1
    ensures rel == Equal ==> (Truth(K, U, m, Compare(rel, a, b)) == 2 <==> x == y)
    ensures rel == Unequal ==> (Truth(K, U, m, Compare(rel, a, b)) == 2 <==> x != y)
    ensures rel == Less ==> (Truth(K, U, m, Compare(rel, a, b)) == 2 <==> x < y)
    ensures rel == LessEqual ==> (Truth(K, U, m, Compare(rel, a, b)) == 2 <==> x <= y)
    ensures rel == Greater ==> (Truth(K, U, m, Compare(rel, a, b)) == 2 <==> x > y)
    ensures rel == GreaterEqual ==> (Truth(K, U, m, Compare(rel, a, b)) == 2 <==> x >= y)
  {
    TruthIsEval(K, U, m, Compare(rel, a, b));
    OperandIs(K, U, m, a);
    OperandIs(K, U, m, b);
    hide ReadsAs, ConfigOk, Solves, SymNum;
    assert CompareSyms(K, m, a, b) == Some(x - y);
  }

  /** Two strings, and operands of which one is not a number, are compared as texts. */
  lemma TextsCompare(K: Config, U: Users, m: Cache, rel: Relation, a: SymId, b: SymId)
    requires ConfigOk(K) && Solves(K, U, m) && SymOk(K, a) && SymOk(K, b)
    requires (IsString(K, a) && IsString(K, b)) || (forall x :: !ReadsAs(K, m, a, x)) || (forall y :: !ReadsAs(K, m, b, y))
    ensures Known(K, U, m, StrOf(a)) && Known(K, U, m, StrOf(b)) && Truth(K, U, m, Compare(rel, a, b)) != 1
    ensures
      var x, y, t := m[StrOf(a)].str, m[StrOf(b)].str, Truth(K, U, m, Compare(rel, a, b));
      && (rel == Equal ==> (t == 2 <==> x == y))
      && (rel == Unequal ==> (t == 2 <==> x != y))
      && (rel == Less ==> (t == 2 <==> Before(x, y)))
      && (rel == LessEqual ==> (t == 2 <==> x == y || Before(x, y)))
      && (rel == Greater ==> (t == 2 <==> Before(y, x)))
      && (rel == GreaterEqual ==> (t == 2 <==> x == y || Before(y, x)))
  {
    TruthIsEval(K, U, m, Compare(rel, a, b));
    OperandIs(K, U, m, a);
    OperandIs(K, U, m, b);
    var x, y := m[StrOf(a)].str, m[StrOf(b)].str;
    StrCmpOrders(x, y);
    if Before(x, y) { BeforeIsStrict(x, y); }
    if Before(y, x) { BeforeIsStrict(y, x); }
    assert CompareSyms(K, m, a, b) == Some(StrCmp(x, y)) by {
      if !(IsString(K, a) && IsString(K, b)) {
        assert SymNum(K, m, a) == Some(None) || SymNum(K, m, b) == Some(None);
      }
    }
  }

  // The constant m in conditions

  /**
   * In a condition m stands for m if modules are enabled and for n otherwise; where it is not rewritten,
   * and in comparisons, it stands for itself, and so do all other symbols everywhere.
   */
  lemma MNeedsModules(K: Config, U: Users, m: Cache, s: SymId, t: SymId, rel: Relation, tm: ExprSyntax.Rewrite)
    requires ConfigOk(K) && Solves(K, U, m) && SymOk(K, s) && SymOk(K, t)
    requires tm.ToModules? ==> tm.modules == K.modules && SymOk(K, tm.mod) && IsNmy(K.syms[tm.mod]) && K.syms[tm.mod].name == "m"
    ensures
      var line := [ExprSyntax.TSym(s), ExprSyntax.End];
      var r := ExprSyntax.ParseExpr(line, tm);
      && r.Some? && r.value.1 == [ExprSyntax.End] && ExprOk(K, r.value.0)
      && if tm.ToModules? && s == tm.mod then
           Truth(K, U, m, r.value.0) == if GetT(m, TriOf(K.modules)) == Some(0) then 0 else 1
         else r.value.0 == Leaf(Sym(s))
    ensures
      var line := [ExprSyntax.TSym(s), ExprSyntax.TRel(rel), ExprSyntax.TSym(t), ExprSyntax.End];
      ExprSyntax.ParseExpr(line, tm) == Some((Compare(rel, s, t), [ExprSyntax.End]))
  {
    var rest := [ExprSyntax.End];
    assert ExprSyntax.Print(Leaf(Sym(s))) + rest == [ExprSyntax.TSym(s), ExprSyntax.End];
    ExprSyntax.PrintedExprParses(Leaf(Sym(s)), rest, tm);
    assert ExprSyntax.Print(Compare(rel, s, t)) + rest ==
      [ExprSyntax.TSym(s), ExprSyntax.TRel(rel), ExprSyntax.TSym(t), ExprSyntax.End];
    ExprSyntax.PrintedExprParses(Compare(rel, s, t), rest, tm);
    if tm.ToModules? && s == tm.mod {
      SolutionKnows(K, U, m, TriOf(s));
      LeafAndNot(K, U, m, s, Leaf(Sym(s)));
      LeafAndNot(K, U, m, K.modules, Leaf(Sym(s)));
      AndAndOr(K, U, m, Leaf(Sym(s)), Leaf(Sym(K.modules)));
    }
  }
}
