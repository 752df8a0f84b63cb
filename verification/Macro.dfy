/** The preprocessor: expansion of macros `$(name,arg,...)` in a line of text. */
module Macro {
  import opened Wrappers
  import opened Numerals

  datatype Variable = Variable(name: string, value: string)

  /**
   * What expansion looks up: the preprocessor variables; the functions, with the number of
   * arguments they accept and their results; and the environment variables.
   */
  datatype Env = Env(
    variables: seq<Variable>,
    isFunction: string -> bool,
    accepts: (string, nat) -> bool,
    call: (string, seq<string>) -> string,
    environ: map<string, string>)

  datatype Error = MissingParenthesis | RecursiveVariable | StuckFunction | BadArgumentCount

  datatype Expanded = Ok(value: string, rest: string) | Fail(error: Error)

  /** `_n_expansions` of each variable. */
  type Counts = seq<nat>

  predicate CountsOk(E: Env, c: Counts) {
    |c| == |E.variables| && forall k :: 0 <= k < |c| ==> c[k] <= 101
  }

  /** How many more expansions can be nested. */
  function Budget(c: Counts): nat {
    if c == [] then 0 else (if c[0] <= 101 then 101 - c[0] else 0) + Budget(c[1..])
  }

  lemma {:induction false} BudgetFalls(c: Counts, k: nat)
    requires k < |c| && c[k] <= 100
    ensures Budget(c[k := c[k] + 1]) < Budget(c)
  {
    if k > 0 {
      BudgetFalls(c[1..], k - 1);
      assert c[k := c[k] + 1][1..] == c[1..][k - 1 := c[1..][k - 1] + 1];
    } else {
      assert c[0 := c[0] + 1][1..] == c[1..];
    }
  }

  function Lookup(vs: seq<Variable>, name: string): (r: Option<nat>)
    ensures r.Some? ==> r.value < |vs| && vs[r.value].name == name
  {
    if vs == [] then None
    else if vs[0].name == name then Some(0)
    else
      var k :- Lookup(vs[1..], name);
      Some(k + 1)
  }

  datatype Special = Open | Close | Comma | Dollar

  /** The first special character, or `$(`, in t. */
  function NextSpecial(t: string): (r: Option<(nat, Special)>)
    ensures r.Some? ==> r.value.0 + (if r.value.1.Dollar? then 2 else 1) <= |t|
  {
    if t == "" then None
    else if t[0] == '(' then Some((0, Open))
    else if t[0] == ')' then Some((0, Close))
    else if t[0] == ',' then Some((0, Comma))
    else if t[0] == '$' && |t| > 1 && t[1] == '(' then Some((0, Dollar))
    else
      var (k, special) :- NextSpecial(t[1..]);
      Some((k + 1, special))
  }

  /** The first `$(` in t. */
  function FindMacro(t: string): (r: Option<nat>)
    ensures r.Some? ==> r.value + 2 <= |t|
  {
    if |t| < 2 then None
    else if t[0] == '$' && t[1] == '(' then Some(0)
    else
      var k :- FindMacro(t[1..]);
      Some(k + 1)
  }

  /** `args[int(name)]`, if there is such an argument. */
  function Argument(args: seq<string>, name: string): Option<string> {
    var n :- ParseInt(name, 10);
    var k := if n < 0 then |args| + n else n;
    if 0 <= k < |args| then Some(args[k]) else None
  }

  // What expansion means

  /**
   * The rest of a macro call. t is the text not looked at yet; `arg` is the current argument
   * so far, with the macros in it expanded, and `done` are the arguments before it.
   */
  function Scan(E: Env, c: Counts, t: string, arg: string, done: seq<string>, nesting: nat, args: seq<string>): (r: Expanded)
    requires CountsOk(E, c)
    ensures r.Ok? ==> |r.rest| < |t|
    decreases Budget(c), |t|, 1
  {
    match NextSpecial(t)
    case None => Fail(MissingParenthesis)
    case Some((k, Open)) => Scan(E, c, t[k + 1..], arg + t[..k + 1], done, nesting + 1, args)
    case Some((k, Close)) =>
      if nesting > 0 then Scan(E, c, t[k + 1..], arg + t[..k + 1], done, nesting - 1, args)
      else
        var r := Value(E, c, done + [arg + t[..k]], args);
        if r.Ok? then Ok(r.value, t[k + 1..]) else r
    case Some((k, Comma)) =>
      if nesting > 0 then Scan(E, c, t[k + 1..], arg + t[..k + 1], done, nesting, args)
      else Scan(E, c, t[k + 1..], "", done + [arg + t[..k]], nesting, args)
    case Some((k, Dollar)) =>
      var r := Scan(E, c, t[k + 2..], "", [], 0, args);
      if r.Ok? then Scan(E, c, r.rest, arg + t[..k] + r.value, done, nesting, args) else r
  }

  /** The value of a macro call with the given name and arguments. */
  function Value(E: Env, c: Counts, newArgs: seq<string>, args: seq<string>): (r: Expanded)
    requires CountsOk(E, c) && newArgs != []
    ensures r.Ok? ==> r.rest == ""
    decreases Budget(c), 0, 1
  {
    var argument := Argument(args, newArgs[0]);
    if argument.Some? then Ok(argument.value, "") else FnVal(E, c, newArgs)
  }

  /** _fn_val() */
  function FnVal(E: Env, c: Counts, args: seq<string>): (r: Expanded)
    requires CountsOk(E, c) && args != []
    ensures r.Ok? ==> r.rest == ""
    decreases Budget(c), 0, 0
  {
    var fn := args[0];
    match Lookup(E.variables, fn)
    case Some(k) =>
      if |args| == 1 && c[k] != 0 then Fail(RecursiveVariable)
      else if |args| != 1 && c[k] > 100 then Fail(StuckFunction)
      else
        BudgetFalls(c, k);
        Whole(E, c[k := c[k] + 1], E.variables[k].value, args)
    case None =>
      if E.isFunction(fn) then
        if E.accepts(fn, |args| - 1) then Ok(E.call(fn, args), "") else Fail(BadArgumentCount)
      else if fn in E.environ then Ok(E.environ[fn], "")
      else Ok("", "")
  }

  /** _expand_whole() */
  function Whole(E: Env, c: Counts, t: string, args: seq<string>): (r: Expanded)
    requires CountsOk(E, c)
    ensures r.Ok? ==> r.rest == ""
    decreases Budget(c), |t|, 2
  {
    match FindMacro(t)
    case None => Ok(t, "")
    case Some(k) =>
      var r := Scan(E, c, t[k + 2..], "", [], 0, args);
      if r.Fail? then r
      else
        var more := Whole(E, c, r.rest, args);
        if more.Fail? then more else Ok(t[..k] + r.value + more.value, "")
  }

  // Expansion in place

  class Preprocessor {
    const E: Env
    var nExpansions: Counts

    constructor (E: Env)
      ensures this.E == E && Valid() && nExpansions == seq(|E.variables|, _ => 0)
    {
      this.E := E;
      nExpansions := seq(|E.variables|, _ => 0);
    }

    ghost predicate Valid()
      reads this
    {
      CountsOk(E, nExpansions)
    }

    /** Expands the macro at index i. None is the exception. */
    method ExpandMacro(s0: string, i0: nat, args: seq<string>) returns (r: Option<(string, nat)>)
      requires Valid() && i0 + 2 <= |s0|
      modifies this
      ensures
        var spec := MacroAt(E, old(nExpansions), s0, i0, args);
        match r
        case None => spec.Fail?
        case Some((s, i)) => nExpansions == old(nExpansions) && Spliced(spec, s0, i0, s, i)
      decreases Budget(nExpansions), |s0| - i0 - 2, 1
    {
      ghost var c := nExpansions;
      ghost var all := MacroAt(E, c, s0, i0, args);
      hide Scan, NextSpecial, ScanAt, Budget, Value, Spliced, MacroAt;
      var s := s0;
      var res := s[..i0];
      var i := i0 + 2;
      var argStart := i;
      var newArgs: seq<string> := [];
      var nesting: nat := 0;
      ScanStarts(E, c, s0, i0, args);
      while true
        invariant argStart <= i <= |s| && nExpansions == c && |s| - i <= |s0| - i0 - 2
        invariant ScanAt(E, c, s, i, argStart, newArgs, nesting, args, all)
        decreases |s| - i
      {
        var found := NextSpecial(s[i..]);
        if found.None? {
          ScanEnds(E, c, s, i, argStart, newArgs, nesting, args, all);
          return None;
        }
        var (k, special) := found.value;
        SpecialFits(s, i);
        if special.Open? {
          ScanOpen(E, c, s, i, k, argStart, newArgs, nesting, args, all);
          nesting := nesting + 1;
          i := i + k + 1;
        } else if special.Close? {
          ScanClose(E, c, s, i, k, argStart, newArgs, nesting, args, all);
          if nesting > 0 {
            nesting := nesting - 1;
            i := i + k + 1;
            continue;
          }
          newArgs := newArgs + [s[argStart..i + k]];
          var value := Evaluate(newArgs, args);
          if value.None? {
            return None;
          }
          Finished(s0, i0, all, value.value, s[i + k + 1..]);
          res := res + value.value;
          return Some((res + s[i + k + 1..], |res|));
        } else if special.Comma? {
          ScanComma(E, c, s, i, k, argStart, newArgs, nesting, args, all);
          if nesting == 0 {
            newArgs := newArgs + [s[argStart..i + k]];
            argStart := i + k + 1;
          }
          i := i + k + 1;
        } else {
          var inner := ExpandMacro(s, i + k, args);
          ScanMacro(E, c, s, i, k, argStart, newArgs, nesting, args, all, inner);
          if inner.None? {
            return None;
          }
          s, i := inner.value.0, inner.value.1;
        }
      }
      return None;
    }

    /** An argument of the macro around this one, or the value of a variable or function. */
    method Evaluate(newArgs: seq<string>, args: seq<string>) returns (r: Option<string>)
      requires Valid() && newArgs != []
      modifies this
      ensures
        var spec := Value(E, old(nExpansions), newArgs, args);
        match r
        case None => spec.Fail?
        case Some(value) => spec.Ok? && spec.value == value && nExpansions == old(nExpansions)
      decreases Budget(nExpansions), 0, 1
    {
      var argument := Argument(args, newArgs[0]);
      if argument.Some? {
        return argument;
      }
      r := CallFn(newArgs);
    }

    /** _fn_val() */
    method CallFn(args: seq<string>) returns (r: Option<string>)
      requires Valid() && args != []
      modifies this
      ensures
        var spec := FnVal(E, old(nExpansions), args);
        match r
        case None => spec.Fail?
        case Some(value) => spec.Ok? && spec.value == value && nExpansions == old(nExpansions)
      decreases Budget(nExpansions), 0, 0
    {
      var fn := args[0];
      var variable := Lookup(E.variables, fn);
      if variable.Some? {
        var k := variable.value;
        if |args| == 1 {
          if nExpansions[k] != 0 {
            return None;
          }
        } else if nExpansions[k] > 100 {
          return None;
        }
        BudgetFalls(nExpansions, k);
        nExpansions := nExpansions[k := nExpansions[k] + 1];
        r := ExpandWhole(E.variables[k].value, args);
        if r.Some? {
          nExpansions := nExpansions[k := nExpansions[k] - 1];
        }
        return;
      }
      if E.isFunction(fn) {
        if !E.accepts(fn, |args| - 1) {
          return None;
        }
        return Some(E.call(fn, args));
      }
      return Some(if fn in E.environ then E.environ[fn] else "");
    }

    method ExpandWhole(s0: string, args: seq<string>) returns (r: Option<string>)
      requires Valid()
      modifies this
      ensures
        var spec := Whole(E, old(nExpansions), s0, args);
        match r
        case None => spec.Fail?
        case Some(value) => spec.Ok? && spec.value == value && nExpansions == old(nExpansions)
      decreases Budget(nExpansions), |s0|, 2
    {
      ghost var c := nExpansions;
      ghost var all := Whole(E, c, s0, args);
      hide Whole, Scan, FindMacro, WholeAt, Budget, Spliced, MacroAt;
      var s := s0;
      var i: nat := 0;
      WholeStarts(E, c, s0, args);
      while true
        invariant i <= |s| && nExpansions == c && |s| - i <= |s0|
        invariant WholeAt(E, c, s, i, args, all)
        decreases |s| - i
      {
        var found := FindMacro(s[i..]);
        if found.None? {
          WholeEnds(E, c, s, i, args, all);
          return Some(s);
        }
        var inner := ExpandMacro(s, i + found.value, args);
        WholeMacro(E, c, s, i, found.value, args, all, inner);
        if inner.None? {
          return None;
        }
        s, i := inner.value.0, inner.value.1;
      }
      return None;
    }
  }

  /** The expansion of the macro at index i of s. */
  function MacroAt(E: Env, c: Counts, s: string, i: nat, args: seq<string>): Expanded
    requires CountsOk(E, c) && i + 2 <= |s|
  {
    Scan(E, c, s[i + 2..], "", [], 0, args)
  }

  /** s' is s with the macro at index i expanded, and i' is the index after the expansion. */
  ghost predicate Spliced(r: Expanded, s: string, i: nat, s': string, i': nat) {
    r.Ok? && i <= |s| && s' == s[..i] + r.value + r.rest && i' == i + |r.value|
  }

  lemma Finished(s: string, i: nat, r: Expanded, value: string, rest: string)
    requires i <= |s| && r == Ok(value, rest)
    ensures Spliced(r, s, i, s[..i] + value + rest, i + |value|)
  {
  }

  function Prefixed(p: string, r: Expanded): Expanded {
    if r.Ok? then Ok(p + r.value, r.rest) else r
  }

  lemma WholeStarts(E: Env, c: Counts, s: string, args: seq<string>)
    requires CountsOk(E, c)
    ensures WholeAt(E, c, s, 0, args, Whole(E, c, s, args))
  {
    assert s[0..] == s && s[..0] == "";
  }

  /** The text before i is expanded, and the rest of s is still to be. */
  ghost predicate WholeAt(E: Env, c: Counts, s: string, i: nat, args: seq<string>, all: Expanded)
    requires CountsOk(E, c)
  {
    i <= |s| && Prefixed(s[..i], Whole(E, c, s[i..], args)) == all
  }

  lemma WholeEnds(E: Env, c: Counts, s: string, i: nat, args: seq<string>, all: Expanded)
    requires CountsOk(E, c) && i <= |s| && WholeAt(E, c, s, i, args, all) && FindMacro(s[i..]).None?
    ensures all == Ok(s, "")
  {
    assert s[..i] + s[i..] == s;
  }

  lemma WholeMacro(
    E: Env, c: Counts, s: string, i: nat, k: nat, args: seq<string>, all: Expanded, inner: Option<(string, nat)>)
    requires CountsOk(E, c) && i <= |s| && WholeAt(E, c, s, i, args, all) && FindMacro(s[i..]) == Some(k)
    requires inner.None? ==> MacroAt(E, c, s, i + k, args).Fail?
    requires inner.Some? ==> Spliced(MacroAt(E, c, s, i + k, args), s, i + k, inner.value.0, inner.value.1)
    ensures inner.None? ==> all.Fail?
    ensures inner.Some? ==>
      var (s', i') := inner.value;
      i' <= |s'| && |s'| - i' < |s| - i && WholeAt(E, c, s', i', args, all)
  {
    WholeUnfolds(E, c, s[i..], args);
    SplitTwice(s, i, k);
    hide Scan, Whole, FindMacro;
    var r := MacroAt(E, c, s, i + k, args);
    if r.Ok? {
      InsertedWhole(s[..i + k], r.value, r.rest);
      var more := Whole(E, c, r.rest, args);
      if more.Ok? { Regroup(s[..i], s[i..][..k], r.value, more.value); }
    }
  }

  /** The arguments of a macro are read up to i. */
  ghost predicate ScanAt(
    E: Env, c: Counts, s: string, i: nat, argStart: nat, newArgs: seq<string>, nesting: nat, args: seq<string>, all: Expanded)
    requires CountsOk(E, c)
  {
    argStart <= i <= |s| && Scan(E, c, s[i..], s[argStart..i], newArgs, nesting, args) == all
  }

  lemma SpecialFits(s: string, i: nat)
    requires i <= |s| && NextSpecial(s[i..]).Some?
    ensures var (k, special) := NextSpecial(s[i..]).value; i + k + (if special.Dollar? then 2 else 1) <= |s|
  {
  }

  lemma ScanEnds(
    E: Env, c: Counts, s: string, i: nat, argStart: nat, newArgs: seq<string>, nesting: nat, args: seq<string>, all: Expanded)
    requires CountsOk(E, c) && argStart <= i <= |s| && ScanAt(E, c, s, i, argStart, newArgs, nesting, args, all)
    requires NextSpecial(s[i..]).None?
    ensures all.Fail?
  {
  }

  lemma ScanOpen(
    E: Env, c: Counts, s: string, i: nat, k: nat, argStart: nat, newArgs: seq<string>, nesting: nat, args: seq<string>, all: Expanded)
    requires CountsOk(E, c) && argStart <= i <= |s| && ScanAt(E, c, s, i, argStart, newArgs, nesting, args, all)
    requires NextSpecial(s[i..]) == Some((k, Open))
    ensures i + k + 1 <= |s| && ScanAt(E, c, s, i + k + 1, argStart, newArgs, nesting + 1, args, all)
  {
    Advance(s, i, argStart, k + 1);
  }

  lemma ScanClose(
    E: Env, c: Counts, s: string, i: nat, k: nat, argStart: nat, newArgs: seq<string>, nesting: nat, args: seq<string>, all: Expanded)
    requires CountsOk(E, c) && argStart <= i <= |s| && ScanAt(E, c, s, i, argStart, newArgs, nesting, args, all)
    requires NextSpecial(s[i..]) == Some((k, Close))
    ensures i + k + 1 <= |s|
    ensures nesting > 0 ==> ScanAt(E, c, s, i + k + 1, argStart, newArgs, nesting - 1, args, all)
    ensures nesting == 0 ==>
      var r := Value(E, c, newArgs + [s[argStart..i + k]], args);
      all == if r.Ok? then Ok(r.value, s[i + k + 1..]) else r
  {
    Advance(s, i, argStart, k);
    Advance(s, i, argStart, k + 1);
  }

  lemma ScanComma(
    E: Env, c: Counts, s: string, i: nat, k: nat, argStart: nat, newArgs: seq<string>, nesting: nat, args: seq<string>, all: Expanded)
    requires CountsOk(E, c) && argStart <= i <= |s| && ScanAt(E, c, s, i, argStart, newArgs, nesting, args, all)
    requires NextSpecial(s[i..]) == Some((k, Comma))
    ensures i + k + 1 <= |s|
    ensures nesting > 0 ==> ScanAt(E, c, s, i + k + 1, argStart, newArgs, nesting, args, all)
    ensures nesting == 0 ==> ScanAt(E, c, s, i + k + 1, i + k + 1, newArgs + [s[argStart..i + k]], 0, args, all)
  {
    Advance(s, i, argStart, k);
    Advance(s, i, argStart, k + 1);
    assert s[i + k + 1..i + k + 1] == "";
  }

  lemma ScanMacro(
    E: Env, c: Counts, s: string, i: nat, k: nat, argStart: nat, newArgs: seq<string>, nesting: nat, args: seq<string>, all: Expanded, inner: Option<(string, nat)>)
    requires CountsOk(E, c) && argStart <= i <= |s| && ScanAt(E, c, s, i, argStart, newArgs, nesting, args, all)
    requires NextSpecial(s[i..]) == Some((k, Dollar))
    requires inner.None? ==> MacroAt(E, c, s, i + k, args).Fail?
    requires inner.Some? ==> Spliced(MacroAt(E, c, s, i + k, args), s, i + k, inner.value.0, inner.value.1)
    ensures inner.None? ==> all.Fail?
    ensures inner.Some? ==>
      var (s', i') := inner.value;
      argStart <= i' <= |s'| && |s'| - i' < |s| - i && ScanAt(E, c, s', i', argStart, newArgs, nesting, args, all)
  {
    Advance(s, i, argStart, k + 2);
    var r := MacroAt(E, c, s, i + k, args);
    if r.Ok? {
      assert all == Scan(E, c, r.rest, s[argStart..i] + s[i..][..k] + r.value, newArgs, nesting, args);
      hide Scan, NextSpecial;
      ScanInserted(E, c, s, i, k, argStart, newArgs, nesting, args, r.value, r.rest);
    }
  }

  lemma ScanInserted(
    E: Env, c: Counts, s: string, i: nat, k: nat, argStart: nat, newArgs: seq<string>, nesting: nat, args: seq<string>,
    v: string, rest: string)
    requires CountsOk(E, c) && argStart <= i && i + k <= |s|
    ensures ScanAt(E, c, s[..i + k] + v + rest, i + k + |v|, argStart, newArgs, nesting, args,
                   Scan(E, c, rest, s[argStart..i] + s[i..][..k] + v, newArgs, nesting, args))
  {
    Inserted(s, i, argStart, k, v, rest);
  }

  lemma ScanStarts(E: Env, c: Counts, s: string, i: nat, args: seq<string>)
    requires CountsOk(E, c) && i + 2 <= |s|
    ensures ScanAt(E, c, s, i + 2, i + 2, [], 0, args, MacroAt(E, c, s, i, args))
  {
    assert s[i + 2..i + 2] == "";
  }

  lemma WholeUnfolds(E: Env, c: Counts, t: string, args: seq<string>)
    requires CountsOk(E, c)
    ensures Whole(E, c, t, args) ==
      match FindMacro(t)
      case None => Ok(t, "")
      case Some(k) =>
        var r := Scan(E, c, t[k + 2..], "", [], 0, args);
        if r.Fail? then r
        else
          var more := Whole(E, c, r.rest, args);
          if more.Fail? then more else Ok(t[..k] + r.value + more.value, "")
  {
  }

  lemma SplitTwice(s: string, i: nat, k: nat)
    requires i + k + 2 <= |s|
    ensures s[..i] + s[i..][..k] == s[..i + k] && s[i..][k + 2..] == s[i + k + 2..]
  {
  }

  lemma InsertedWhole(p: string, v: string, rest: string)
    ensures (p + v + rest)[..|p| + |v|] == p + v && (p + v + rest)[|p| + |v|..] == rest
  {
  }

  lemma Regroup(a: string, b: string, c: string, d: string)
    ensures a + (b + c + d) == ((a + b) + c) + d
  {
  }

  lemma Advance(s: string, i: nat, argStart: nat, k: nat)
    requires argStart <= i && i + k <= |s|
    ensures s[i..][k..] == s[i + k..] && s[argStart..i] + s[i..][..k] == s[argStart..i + k]
  {
  }

  lemma Inserted(s: string, i: nat, argStart: nat, k: nat, v: string, rest: string)
    requires argStart <= i && i + k <= |s|
    ensures
      var s' := s[..i + k] + v + rest;
      |s'| == i + k + |v| + |rest| &&
      s'[i + k + |v|..] == rest && s'[argStart..i + k + |v|] == s[argStart..i] + s[i..][..k] + v
  {
  }
}
