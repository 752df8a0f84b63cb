/** What macro expansion does to the text around a macro, and how it composes. */
module MacroLaws {
  import opened Wrappers
  import opened Macro

  /** The text after the parenthesis that closes the depth-th enclosing one, all parentheses being counted. */
  function AfterClose(t: string, depth: nat): Option<string> {
    if t == "" then None
    else if t[0] == '(' then AfterClose(t[1..], depth + 1)
    else if t[0] == ')' then if depth == 0 then Some(t[1..]) else AfterClose(t[1..], depth - 1)
    else AfterClose(t[1..], depth)
  }

  lemma {:induction false} CloseInner(t: string, inner: nat, rest: string, depth: nat)
    requires AfterClose(t, inner) == Some(rest)
    ensures AfterClose(t, inner + depth + 1) == AfterClose(rest, depth)
  {
    if t[0] == '(' {
      CloseInner(t[1..], inner + 1, rest, depth);
    } else if t[0] == ')' {
      if inner > 0 { CloseInner(t[1..], inner - 1, rest, depth); }
    } else {
      CloseInner(t[1..], inner, rest, depth);
    }
  }

  /** Up to the next special character, nothing is a parenthesis. */
  lemma {:induction false} CloseAtSpecial(t: string, depth: nat)
    ensures match NextSpecial(t)
      case None => AfterClose(t, depth) == None
      case Some((k, Open)) => AfterClose(t, depth) == AfterClose(t[k + 1..], depth + 1)
      case Some((k, Close)) =>
        AfterClose(t, depth) == if depth == 0 then Some(t[k + 1..]) else AfterClose(t[k + 1..], depth - 1)
      case Some((k, Comma)) => AfterClose(t, depth) == AfterClose(t[k + 1..], depth)
      case Some((k, Dollar)) => AfterClose(t, depth) == AfterClose(t[k + 2..], depth + 1)
  {
    if t == "" {
    } else {
      if t[0] == '$' && |t| > 1 && t[1] == '(' {
        assert t[1..][1..] == t[2..];
      } else if t[0] != '(' && t[0] != ')' && t[0] != ',' {
        CloseAtSpecial(t[1..], depth);
        if NextSpecial(t[1..]).Some? {
          var k := NextSpecial(t[1..]).value.0;
          assert t[1..][k + 1..] == t[k + 2..];
          if NextSpecial(t[1..]).value.1.Dollar? { assert t[1..][k + 2..] == t[k + 3..]; }
        }
      }
    }
  }

  /** Expansion ends at the matching parenthesis; the text after it is left as it is. */
  lemma {:induction false} EndsAtMatchingClose(
    E: Env, c: Counts, t: string, arg: string, done: seq<string>, nesting: nat, args: seq<string>)
    requires CountsOk(E, c) && Scan(E, c, t, arg, done, nesting, args).Ok?
    ensures AfterClose(t, nesting) == Some(Scan(E, c, t, arg, done, nesting, args).rest)
    decreases |t|
  {
    CloseAtSpecial(t, nesting);
    match NextSpecial(t)
    case Some((k, Open)) => EndsAtMatchingClose(E, c, t[k + 1..], arg + t[..k + 1], done, nesting + 1, args);
    case Some((k, Close)) =>
      if nesting > 0 { EndsAtMatchingClose(E, c, t[k + 1..], arg + t[..k + 1], done, nesting - 1, args); }
    case Some((k, Comma)) =>
      if nesting > 0 {
        EndsAtMatchingClose(E, c, t[k + 1..], arg + t[..k + 1], done, nesting, args);
      } else {
        EndsAtMatchingClose(E, c, t[k + 1..], "", done + [arg + t[..k]], nesting, args);
      }
    case Some((k, Dollar)) =>
      var r := Scan(E, c, t[k + 2..], "", [], 0, args);
      EndsAtMatchingClose(E, c, t[k + 2..], "", [], 0, args);
      CloseInner(t[k + 2..], 0, r.rest, nesting);
      EndsAtMatchingClose(E, c, r.rest, arg + t[..k] + r.value, done, nesting, args);
  }

  lemma {:induction false} CloseIsSuffix(t: string, depth: nat)
    requires AfterClose(t, depth).Some?
    ensures var rest := AfterClose(t, depth).value; |rest| < |t| && rest == t[|t| - |rest|..]
  {
    if !(t[0] == ')' && depth == 0) {
      CloseIsSuffix(t[1..], if t[0] == '(' then depth + 1 else if t[0] == ')' then depth - 1 else depth);
    }
  }

  // Text after a macro does not matter

  lemma {:induction false} SpecialAppend(t: string, x: string)
    requires NextSpecial(t).Some?
    ensures NextSpecial(t + x) == NextSpecial(t)
  {
    if t[0] != '(' && t[0] != ')' && t[0] != ',' && !(t[0] == '$' && |t| > 1 && t[1] == '(') {
      assert (t + x)[1..] == t[1..] + x;
      SpecialAppend(t[1..], x);
    } else if t[0] == '$' {
      assert (t + x)[1] == t[1];
    }
  }

  lemma CutAppend(t: string, x: string, k: nat)
    requires k <= |t|
    ensures (t + x)[k..] == t[k..] + x && (t + x)[..k] == t[..k]
  {
  }

  lemma {:induction false} ScanAppend(
    E: Env, c: Counts, t: string, x: string, arg: string, done: seq<string>, nesting: nat, args: seq<string>)
    requires CountsOk(E, c) && Scan(E, c, t, arg, done, nesting, args).Ok?
    ensures var r := Scan(E, c, t, arg, done, nesting, args);
      Scan(E, c, t + x, arg, done, nesting, args) == Ok(r.value, r.rest + x)
    decreases |t|
  {
    SpecialAppend(t, x);
    var (k, special) := NextSpecial(t).value;
    CutAppend(t, x, k);
    CutAppend(t, x, k + 1);
    match special
    case Open => ScanAppend(E, c, t[k + 1..], x, arg + t[..k + 1], done, nesting + 1, args);
    case Close =>
      if nesting > 0 { ScanAppend(E, c, t[k + 1..], x, arg + t[..k + 1], done, nesting - 1, args); }
    case Comma =>
      if nesting > 0 {
        ScanAppend(E, c, t[k + 1..], x, arg + t[..k + 1], done, nesting, args);
      } else {
        ScanAppend(E, c, t[k + 1..], x, "", done + [arg + t[..k]], nesting, args);
      }
    case Dollar =>
      CutAppend(t, x, k + 2);
      var r := Scan(E, c, t[k + 2..], "", [], 0, args);
      ScanAppend(E, c, t[k + 2..], x, "", [], 0, args);
      ScanAppend(E, c, r.rest, x, arg + t[..k] + r.value, done, nesting, args);
  }

  // Expansion of a text in two parts

  /** No `$(` lies across the end of a and the beginning of b. */
  predicate CanCut(a: string, b: string) { a == "" || b == "" || a[|a| - 1] != '$' || b[0] != '(' }

  lemma {:induction false} FindAppend(a: string, b: string)
    requires CanCut(a, b)
    ensures FindMacro(a).Some? ==> FindMacro(a + b) == FindMacro(a)
    ensures FindMacro(a).None? ==>
      FindMacro(a + b) == if FindMacro(b).None? then None else Some(|a| + FindMacro(b).value)
  {
    if a == "" {
      assert a + b == b;
    } else {
      assert (a + b)[1..] == a[1..] + b;
      FindAppend(a[1..], b);
    }
  }

  /** The expansion of a text, followed by that of another one. */
  function Followed(first: Expanded, second: Expanded): Expanded
    requires first.Ok?
  {
    if second.Ok? then Ok(first.value + second.value, "") else second
  }

  lemma NoMacroAppend(E: Env, c: Counts, a: string, b: string, args: seq<string>)
    requires CountsOk(E, c) && CanCut(a, b) && FindMacro(a).None?
    ensures Whole(E, c, a, args) == Ok(a, "") && Whole(E, c, a + b, args) == Followed(Ok(a, ""), Whole(E, c, b, args))
  {
    FindAppend(a, b);
    WholeUnfolds(E, c, a, args);
    WholeUnfolds(E, c, b, args);
    WholeUnfolds(E, c, a + b, args);
    hide Whole, Scan, FindMacro;
    if FindMacro(b).Some? {
      var k := FindMacro(b).value;
      CutSecond(a, b, k);
      var r := Scan(E, c, b[k + 2..], "", [], 0, args);
      if r.Ok? && Whole(E, c, r.rest, args).Ok? { Regroup(a, b[..k], r.value, Whole(E, c, r.rest, args).value); }
    }
  }

  lemma CutSecond(a: string, b: string, k: nat)
    requires k + 2 <= |b|
    ensures (a + b)[|a| + k + 2..] == b[k + 2..] && (a + b)[..|a| + k] == a + b[..k]
  {
  }

  lemma MacroUnfolds(E: Env, c: Counts, a: string, args: seq<string>, k: nat, r: Expanded)
    requires CountsOk(E, c) && FindMacro(a) == Some(k) && r == Scan(E, c, a[k + 2..], "", [], 0, args) && r.Ok?
    ensures var more := Whole(E, c, r.rest, args);
      Whole(E, c, a, args) == if more.Fail? then more else Ok(a[..k] + r.value + more.value, "")
  {
  }

  lemma MacroAppend(E: Env, c: Counts, a: string, b: string, args: seq<string>, k: nat, r: Expanded)
    requires CountsOk(E, c) && CanCut(a, b) && FindMacro(a) == Some(k) && Whole(E, c, a, args).Ok?
    requires r == Scan(E, c, a[k + 2..], "", [], 0, args) && r.Ok?
    requires Whole(E, c, r.rest, args).Ok?
    requires Whole(E, c, r.rest + b, args) == Followed(Whole(E, c, r.rest, args), Whole(E, c, b, args))
    ensures Whole(E, c, a + b, args) == Followed(Whole(E, c, a, args), Whole(E, c, b, args))
  {
    FindAppend(a, b);
    CutAppend(a, b, k);
    CutAppend(a, b, k + 2);
    ScanAppend(E, c, a[k + 2..], b, "", [], 0, args);
    hide Whole, Scan, FindMacro, CanCut;
    MacroUnfolds(E, c, a, args, k, r);
    MacroUnfolds(E, c, a + b, args, k, Ok(r.value, r.rest + b));
    Associate(a[..k] + r.value, Whole(E, c, r.rest, args).value, Whole(E, c, b, args));
  }

  lemma Associate(a: string, b: string, r: Expanded)
    ensures r.Ok? ==> a + (b + r.value) == (a + b) + r.value
  {
  }

  lemma RestCanCut(E: Env, c: Counts, a: string, b: string, args: seq<string>, k: nat, r: Expanded)
    requires CountsOk(E, c) && CanCut(a, b) && FindMacro(a) == Some(k)
    requires r == Scan(E, c, a[k + 2..], "", [], 0, args) && r.Ok?
    ensures CanCut(r.rest, b) && |r.rest| < |a|
  {
    EndsAtMatchingClose(E, c, a[k + 2..], "", [], 0, args);
    CloseIsSuffix(a[k + 2..], 0);
  }

  /** Expanding two texts one after the other is expanding their concatenation, unless this makes a new `$(`. */
  lemma {:induction false} WholeAppend(E: Env, c: Counts, a: string, b: string, args: seq<string>)
    requires CountsOk(E, c) && CanCut(a, b) && Whole(E, c, a, args).Ok?
    ensures Whole(E, c, a + b, args) == Followed(Whole(E, c, a, args), Whole(E, c, b, args))
    decreases |a|
  {
    match FindMacro(a)
    case None => NoMacroAppend(E, c, a, b, args);
    case Some(k) =>
      var r := Scan(E, c, a[k + 2..], "", [], 0, args);
      RestCanCut(E, c, a, b, args, k, r);
      WholeAppend(E, c, r.rest, b, args);
      MacroAppend(E, c, a, b, args, k, r);
  }
}
