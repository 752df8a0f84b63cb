/**
 * The lines that the expression parser accepts are exactly those of a grammar, and the parser
 * builds what the grammar says: `!` binds before `&&`, and `&&` before `||`.
 */
module GrammarLaws {
  import opened Wrappers
  import opened Config
  import opened ExprSyntax

  /** An expression as it is written, with its parentheses. */
  datatype Syntax =
    | SSym(s: SymId)
    | SRel(a: SymId, rel: Relation, b: SymId)
    | SNot(arg: Syntax)
    | SParen(inner: Syntax)
    | SAnd(left: Syntax, right: Syntax)
    | SOr(left: Syntax, right: Syntax)

  predicate IsFactor(x: Syntax)
    decreases x, 0
  {
    match x
    case SSym(_) => true
    case SRel(_, _, _) => true
    case SNot(y) => IsFactor(y)
    case SParen(y) => IsExpr(y)
    case _ => false
  }

  predicate IsConjunction(x: Syntax)
    decreases x, 1
  {
    IsFactor(x) || (x.SAnd? && IsFactor(x.left) && IsConjunction(x.right))
  }

  predicate IsExpr(x: Syntax)
    decreases x, 2
  {
    IsConjunction(x) || (x.SOr? && IsConjunction(x.left) && IsExpr(x.right))
  }

  function Text(x: Syntax): seq<Token> {
    match x
    case SSym(s) => [TSym(s)]
    case SRel(a, rel, b) => [TSym(a), TRel(rel), TSym(b)]
    case SNot(y) => [TNot] + Text(y)
    case SParen(y) => [TOpen] + Text(y) + [TClose]
    case SAnd(l, r) => Text(l) + [TAnd] + Text(r)
    case SOr(l, r) => Text(l) + [TOr] + Text(r)
  }

  function Meant(x: Syntax, tm: Rewrite): Expr {
    match x
    case SSym(s) => SymLeaf(s, tm)
    case SRel(a, rel, b) => Compare(rel, a, b)
    case SNot(y) => Not(Meant(y, tm))
    case SParen(y) => Meant(y, tm)
    case SAnd(l, r) => And(Meant(l, tm), Meant(r, tm))
    case SOr(l, r) => Or(Meant(l, tm), Meant(r, tm))
  }

  lemma TextOfOperator(x: Syntax, rest: seq<Token>)
    ensures x.SAnd? ==> Text(x) + rest == Text(x.left) + ([TAnd] + (Text(x.right) + rest))
    ensures x.SOr? ==> Text(x) + rest == Text(x.left) + ([TOr] + (Text(x.right) + rest))
  {
  }

  lemma FirstToken(t: Token, rest: seq<Token>)
    ensures ([t] + rest)[1..] == rest && ([t] + rest)[0] == t
  {
  }

  // What is accepted is in the grammar

  lemma {:induction false} FactorIsWritten(ts: seq<Token>, tm: Rewrite) returns (x: Syntax)
    requires ParseFactor(ts, tm).Some?
    ensures IsFactor(x) && ts == Text(x) + ParseFactor(ts, tm).value.1 && ParseFactor(ts, tm).value.0 == Meant(x, tm)
    decreases |ts|, 0
  {
    hide ParseExpr, ParseAndExpr, IsExpr, IsConjunction;
    match ts[0]
    case TSym(s) =>
      if |ts| < 2 || !ts[1].TRel? {
        x := SSym(s);
        assert ts == [ts[0]] + ts[1..];
      } else {
        x := SRel(s, ts[1].rel, ts[2].s);
        assert ts == [ts[0], ts[1], ts[2]] + ts[3..];
      }
    case TNot =>
      var y := FactorIsWritten(ts[1..], tm);
      x := SNot(y);
      assert ts == [TNot] + (Text(y) + ParseFactor(ts[1..], tm).value.1);
    case TOpen =>
      var y := ExprIsWritten(ts[1..], tm);
      x := SParen(y);
      var rest := ParseExpr(ts[1..], tm).value.1;
      assert ts == [TOpen] + (Text(y) + rest) && rest == [TClose] + rest[1..];
  }

  lemma {:induction false} ConjunctionIsWritten(ts: seq<Token>, tm: Rewrite) returns (x: Syntax)
    requires ParseAndExpr(ts, tm).Some?
    ensures IsConjunction(x) && ts == Text(x) + ParseAndExpr(ts, tm).value.1 && ParseAndExpr(ts, tm).value.0 == Meant(x, tm)
    decreases |ts|, 1
  {
    hide ParseFactor, ParseExpr, IsFactor, IsExpr, Text;
    x := FactorIsWritten(ts, tm);
    var rest := ParseFactor(ts, tm).value.1;
    if rest != [] && rest[0] == TAnd {
      var y := ConjunctionIsWritten(rest[1..], tm);
      TextOfOperator(SAnd(x, y), ParseAndExpr(rest[1..], tm).value.1);
      assert rest == [TAnd] + rest[1..];
      x := SAnd(x, y);
    }
  }

  lemma {:induction false} ExprIsWritten(ts: seq<Token>, tm: Rewrite) returns (x: Syntax)
    requires ParseExpr(ts, tm).Some?
    ensures IsExpr(x) && ts == Text(x) + ParseExpr(ts, tm).value.1 && ParseExpr(ts, tm).value.0 == Meant(x, tm)
    decreases |ts|, 2
  {
    hide ParseFactor, ParseAndExpr, IsFactor, IsConjunction, Text;
    x := ConjunctionIsWritten(ts, tm);
    var rest := ParseAndExpr(ts, tm).value.1;
    if rest != [] && rest[0] == TOr {
      var y := ExprIsWritten(rest[1..], tm);
      TextOfOperator(SOr(x, y), ParseExpr(rest[1..], tm).value.1);
      assert rest == [TOr] + rest[1..];
      x := SOr(x, y);
    }
  }

  // What is in the grammar is accepted

  lemma {:induction false} FactorIsAccepted(x: Syntax, rest: seq<Token>, tm: Rewrite)
    requires IsFactor(x) && NoRelation(rest)
    ensures ParseFactor(Text(x) + rest, tm) == Some((Meant(x, tm), rest))
    decreases x, 0
  {
    hide ParseExpr, ParseAndExpr, IsExpr, IsConjunction;
    var ts := Text(x) + rest;
    match x
    case SSym(_) => assert ts[1..] == rest;
    case SRel(_, _, _) => assert ts[3..] == rest;
    case SNot(y) =>
      assert ts == [TNot] + (Text(y) + rest);
      FirstToken(TNot, Text(y) + rest);
      FactorIsAccepted(y, rest, tm);
    case SParen(y) =>
      assert ts == [TOpen] + (Text(y) + ([TClose] + rest));
      FirstToken(TOpen, Text(y) + ([TClose] + rest));
      ExprIsAccepted(y, [TClose] + rest, tm);
      FirstToken(TClose, rest);
  }

  lemma {:induction false} ConjunctionIsAccepted(x: Syntax, rest: seq<Token>, tm: Rewrite)
    requires IsConjunction(x) && NoRelation(rest) && (rest != [] ==> rest[0] != TAnd)
    ensures ParseAndExpr(Text(x) + rest, tm) == Some((Meant(x, tm), rest))
    decreases x, 1
  {
    hide ParseFactor, ParseAndExpr, ParseExpr, IsFactor, Text;
    if IsFactor(x) {
      FactorIsAccepted(x, rest, tm);
      AndEnd(Text(x) + rest, tm, Meant(x, tm), rest);
    } else {
      var more := Text(x.right) + rest;
      TextOfOperator(x, rest);
      FactorIsAccepted(x.left, [TAnd] + more, tm);
      ConjunctionIsAccepted(x.right, rest, tm);
      AndStep(Text(x) + rest, tm, Meant(x.left, tm), more, Meant(x.right, tm), rest);
    }
  }

  lemma {:induction false} ExprIsAccepted(x: Syntax, rest: seq<Token>, tm: Rewrite)
    requires IsExpr(x) && NoOperator(rest)
    ensures ParseExpr(Text(x) + rest, tm) == Some((Meant(x, tm), rest))
    decreases x, 2
  {
    hide ParseFactor, ParseAndExpr, ParseExpr, IsFactor, IsConjunction, Text;
    if IsConjunction(x) {
      ConjunctionIsAccepted(x, rest, tm);
      OrEnd(Text(x) + rest, tm, Meant(x, tm), rest);
    } else {
      var more := Text(x.right) + rest;
      TextOfOperator(x, rest);
      ConjunctionIsAccepted(x.left, [TOr] + more, tm);
      ExprIsAccepted(x.right, rest, tm);
      OrStep(Text(x) + rest, tm, Meant(x.left, tm), more, Meant(x.right, tm), rest);
    }
  }

  /** A whole line is parsed to e exactly if it is an expression of the grammar that means e, and nothing else. */
  lemma LinesAccepted(ts: seq<Token>, tm: Rewrite, e: Expr)
    ensures ParseExpr(ts, tm) == Some((e, [End])) <==> exists x :: IsExpr(x) && ts == Text(x) + [End] && e == Meant(x, tm)
  {
    if ParseExpr(ts, tm) == Some((e, [End])) {
      var x := ExprIsWritten(ts, tm);
      assert IsExpr(x);
    }
    if x :| IsExpr(x) && ts == Text(x) + [End] && e == Meant(x, tm) {
      ExprIsAccepted(x, [End], tm);
    }
  }
}
