/**
 * What single macro calls mean: how the text between the parentheses is split into arguments,
 * and where the value of a call comes from.
 */
module MacroMeaning {
  import opened Wrappers
  import opened Numerals
  import opened Macro

  // Splitting into arguments

  /** A text in which parentheses match, from this depth, commas are inside of parentheses, and there are no macros. */
  predicate PartFrom(p: string, depth: nat) {
    if p == "" then depth == 0
    else if p[0] == '(' then PartFrom(p[1..], depth + 1)
    else if p[0] == ')' then depth > 0 && PartFrom(p[1..], depth - 1)
    else !(p[0] == ',' && depth == 0) && !(p[0] == '$' && |p| > 1 && p[1] == '(') && PartFrom(p[1..], depth)
  }

  predicate Part(p: string) { PartFrom(p, 0) }

  /** The parts, separated by commas. */
  function Join(parts: seq<string>): string {
    if parts == [] then "" else if |parts| == 1 then parts[0] else parts[0] + "," + Join(parts[1..])
  }

  predicate IsSpecial(t: string) {
    t != "" && (t[0] == '(' || t[0] == ')' || t[0] == ',' || (t[0] == '$' && |t| > 1 && t[1] == '('))
  }

  /** An ordinary character becomes part of the argument. */
  lemma ScanChar(E: Env, c: Counts, t: string, arg: string, done: seq<string>, nesting: nat, args: seq<string>)
    requires CountsOk(E, c) && t != "" && !IsSpecial(t)
    ensures Scan(E, c, t, arg, done, nesting, args) == Scan(E, c, t[1..], arg + [t[0]], done, nesting, args)
  {
    if NextSpecial(t[1..]).Some? {
      var k := NextSpecial(t[1..]).value.0;
      assert NextSpecial(t) == Some((k + 1, NextSpecial(t[1..]).value.1));
      assert t[1..][k + 1..] == t[k + 2..];
      assert arg + t[..k + 1] == (arg + [t[0]]) + t[1..][..k];
      assert arg + t[..k + 2] == (arg + [t[0]]) + t[1..][..k + 1];
      if NextSpecial(t[1..]).value.1.Dollar? { assert t[1..][k + 2..] == t[k + 3..]; }
    }
  }

  lemma {:induction false} PartIsArgument(
    E: Env, c: Counts, p: string, tail: string, arg: string, done: seq<string>, nesting: nat, args: seq<string>)
    requires CountsOk(E, c) && PartFrom(p, nesting) && (tail != "" ==> tail[0] != '(')
    ensures Scan(E, c, p + tail, arg, done, nesting, args) == Scan(E, c, tail, arg + p, done, 0, args)
  {
    if p == "" {
      assert p + tail == tail && arg + p == arg;
    } else {
      var t := p + tail;
      assert t[1..] == p[1..] + tail && t[..1] == [p[0]] && arg + [p[0]] + p[1..] == arg + p;
      if p[0] == '(' {
        assert NextSpecial(t) == Some((0, Open));
        PartIsArgument(E, c, p[1..], tail, arg + [p[0]], done, nesting + 1, args);
      } else if p[0] == ')' {
        assert NextSpecial(t) == Some((0, Close));
        PartIsArgument(E, c, p[1..], tail, arg + [p[0]], done, nesting - 1, args);
      } else if p[0] == ',' {
        assert NextSpecial(t) == Some((0, Comma));
        PartIsArgument(E, c, p[1..], tail, arg + [p[0]], done, nesting, args);
      } else {
        assert |p| > 1 ==> t[1] == p[1];
        ScanChar(E, c, t, arg, done, nesting, args);
        PartIsArgument(E, c, p[1..], tail, arg + [p[0]], done, nesting, args);
      }
    }
  }

  /** The value of a call, and the text behind it. */
  function Then(r: Expanded, rest: string): Expanded { if r.Ok? then Ok(r.value, rest) else r }

  lemma CloseEndsCall(E: Env, c: Counts, p: string, rest: string, done: seq<string>, args: seq<string>)
    requires CountsOk(E, c)
    ensures Scan(E, c, ")" + rest, p, done, 0, args) == Then(Value(E, c, done + [p], args), rest)
  {
    var t := ")" + rest;
    assert NextSpecial(t) == Some((0, Close)) && t[1..] == rest && p + t[..0] == p;
  }

  lemma CommaEndsPart(E: Env, c: Counts, p: string, more: string, done: seq<string>, args: seq<string>)
    requires CountsOk(E, c)
    ensures Scan(E, c, "," + more, p, done, 0, args) == Scan(E, c, more, "", done + [p], 0, args)
  {
    var t := "," + more;
    assert NextSpecial(t) == Some((0, Comma)) && t[1..] == more && p + t[..0] == p;
  }

  /** A call has the parts between its commas as its name and arguments. */
  lemma {:induction false} CallIsSplit(
    E: Env, c: Counts, parts: seq<string>, rest: string, done: seq<string>, args: seq<string>)
    requires CountsOk(E, c) && parts != [] && forall i :: 0 <= i < |parts| ==> Part(parts[i])
    ensures Scan(E, c, Join(parts) + ")" + rest, "", done, 0, args) == Then(Value(E, c, done + parts, args), rest)
    decreases |parts|
  {
    hide Scan, Value, Then, PartFrom, Join;
    CallText(parts, rest, done);
    if |parts| == 1 {
      assert (done + [parts[0]]) + [] == done + [parts[0]];
      PartIsArgument(E, c, parts[0], ")" + rest, "", done, 0, args);
      CloseEndsCall(E, c, parts[0], rest, done, args);
    } else {
      var more := Join(parts[1..]) + ")" + rest;
      PartIsArgument(E, c, parts[0], "," + more, "", done, 0, args);
      CommaEndsPart(E, c, parts[0], more, done, args);
      CallIsSplit(E, c, parts[1..], rest, done + [parts[0]], args);
    }
  }

  lemma CallText(parts: seq<string>, rest: string, done: seq<string>)
    requires parts != []
    ensures "" + parts[0] == parts[0]
    ensures (done + [parts[0]]) + parts[1..] == done + parts
    ensures |parts| == 1 ==> Join(parts) + ")" + rest == parts[0] + (")" + rest) && parts[1..] == []
    ensures |parts| > 1 ==> Join(parts) + ")" + rest == parts[0] + ("," + (Join(parts[1..]) + ")" + rest))
  {
    var tail := if |parts| == 1 then "" else Join(parts[1..]);
    assert Join(parts) == if |parts| == 1 then parts[0] else parts[0] + "," + tail;
    hide Join;
    OneMore(done, parts);
    TextInParts(parts[0], tail, rest);
  }

  lemma OneMore(done: seq<string>, parts: seq<string>)
    requires parts != []
    ensures (done + [parts[0]]) + parts[1..] == done + parts
  {
    var first, rest := [parts[0]], parts[1..];
    assert parts == first + rest;
    assert (done + first) + rest == done + (first + rest);
  }

  lemma TextInParts(p: string, tail: string, rest: string)
    ensures p + ")" + rest == p + (")" + rest)
    ensures (p + "," + tail) + ")" + rest == p + ("," + (tail + ")" + rest))
    ensures "" + p == p
  {
  }

  /** The value of an inner macro is put in its place, as part of the argument it is in. */
  lemma InnerFirst(E: Env, c: Counts, p: string, t: string, arg: string, done: seq<string>, args: seq<string>)
    requires CountsOk(E, c) && Part(p)
    ensures
      var r := Scan(E, c, t, "", [], 0, args);
      Scan(E, c, p + ("$(" + t), arg, done, 0, args) ==
        if r.Ok? then Scan(E, c, r.rest, arg + p + r.value, done, 0, args) else r
  {
    var tail := "$(" + t;
    PartIsArgument(E, c, p, tail, arg, done, 0, args);
    assert NextSpecial(tail) == Some((0, Dollar)) && tail[2..] == t && arg + p + tail[..0] == arg + p;
  }

  /** A text that is one call has its value. */
  lemma OneCall(E: Env, c: Counts, parts: seq<string>, args: seq<string>)
    requires CountsOk(E, c) && parts != [] && forall i :: 0 <= i < |parts| ==> Part(parts[i])
    ensures Whole(E, c, "$(" + Join(parts) + ")", args) == Value(E, c, parts, args)
  {
    var t := "$(" + Join(parts) + ")";
    CallIsSplit(E, c, parts, "", [], args);
    assert [] + parts == parts;
    hide Scan, Value, PartFrom, Join;
    MacroInFront(Join(parts));
    WholeUnfolds(E, c, t, args);
    EmptyWhole(E, c, args);
    var r := Value(E, c, parts, args);
    if r.Ok? { assert t[..0] + r.value + "" == r.value; }
  }

  lemma MacroInFront(call: string)
    ensures var t := "$(" + call + ")"; FindMacro(t) == Some(0) && t[2..] == call + ")" + ""
  {
    var t := "$(" + call + ")";
    assert t[2..] == call + ")";
  }

  lemma EmptyWhole(E: Env, c: Counts, args: seq<string>)
    requires CountsOk(E, c)
    ensures Whole(E, c, "", args) == Ok("", "")
  {
    WholeUnfolds(E, c, "", args);
    hide Whole, Scan;
  }

  // Where values come from

  lemma {:induction false} VariableIsFound(vs: seq<Variable>, name: string)
    ensures Lookup(vs, name).Some? <==> exists k :: 0 <= k < |vs| && vs[k].name == name
  {
    if vs == [] {
    } else {
      VariableIsFound(vs[1..], name);
      if exists k :: 0 <= k < |vs| && vs[k].name == name {
        var k :| 0 <= k < |vs| && vs[k].name == name;
        if k > 0 { assert vs[1..][k - 1].name == name; }
      }
      if Lookup(vs[1..], name).Some? {
        var k :| 0 <= k < |vs[1..]| && vs[1..][k].name == name;
        assert vs[k + 1].name == name;
      }
    }
  }

  /** A number names an argument of the call around: from the start, or from the end if it is negative. */
  lemma ArgumentsAreNumbered(E: Env, c: Counts, call: seq<string>, args: seq<string>, n: int)
    requires CountsOk(E, c) && call != [] && ParseInt(call[0], 10) == Some(n)
    ensures 0 <= n < |args| ==> Value(E, c, call, args) == Ok(args[n], "")
    ensures -|args| <= n < 0 ==> Value(E, c, call, args) == Ok(args[|args| + n], "")
  {
  }

  /** A name that is no argument, no variable and no function is looked up in the environment, and is empty otherwise. */
  lemma EnvironmentIsLast(E: Env, c: Counts, call: seq<string>, args: seq<string>)
    requires CountsOk(E, c) && call != []
    requires forall n :: ParseInt(call[0], 10) == Some(n) ==> n >= |args| || n < -|args|
    requires forall k :: 0 <= k < |E.variables| ==> E.variables[k].name != call[0]
    ensures !E.isFunction(call[0]) ==>
      Value(E, c, call, args) == Ok(if call[0] in E.environ then E.environ[call[0]] else "", "")
    ensures E.isFunction(call[0]) && E.accepts(call[0], |call| - 1) ==> Value(E, c, call, args) == Ok(E.call(call[0], call), "")
    ensures E.isFunction(call[0]) && !E.accepts(call[0], |call| - 1) ==> Value(E, c, call, args).Fail?
  {
    VariableIsFound(E.variables, call[0]);
    assert Argument(args, call[0]) == None;
  }

  /** A variable that refers to its n-th argument is expanded to what it is called with there. */
  lemma ArgumentsReachVariables(E: Env, c: Counts, call: seq<string>, name: string, k: nat, n: nat)
    requires CountsOk(E, c) && |call| > 1 && Lookup(E.variables, call[0]) == Some(k)
    requires E.variables[k].value == "$(" + name + ")" && Part(name) && ParseInt(name, 10) == Some(n) && n < |call|
    ensures c[k] <= 100 ==> FnVal(E, c, call) == Ok(call[n], "")
    ensures c[k] > 100 ==> FnVal(E, c, call).Fail?
  {
    if c[k] <= 100 {
      BudgetFalls(c, k);
      var c' := c[k := c[k] + 1];
      assert Join([name]) == name;
      OneCall(E, c', [name], call);
      ArgumentsAreNumbered(E, c', [name], call, n);
    }
  }

  /** A variable without arguments has its expanded value, unless it is being expanded already. */
  lemma RecursionIsCaught(E: Env, c: Counts, name: string, k: nat)
    requires CountsOk(E, c) && Lookup(E.variables, name) == Some(k)
    ensures c[k] > 0 ==> FnVal(E, c, [name]).Fail?
    ensures c[k] == 0 ==> CountsOk(E, c[k := 1]) && FnVal(E, c, [name]) == Whole(E, c[k := 1], E.variables[k].value, [name])
  {
    if c[k] == 0 { BudgetFalls(c, k); }
  }

  /** A variable that only refers to itself has no value. */
  lemma SelfReferenceFails(E: Env, c: Counts, name: string, k: nat)
    requires CountsOk(E, c) && Lookup(E.variables, name) == Some(k) && Part(name) && ParseInt(name, 10) == None
    requires E.variables[k].value == "$(" + name + ")"
    ensures FnVal(E, c, [name]).Fail?
  {
    RecursionIsCaught(E, c, name, k);
    if c[k] == 0 {
      var c' := c[k := 1];
      assert Join([name]) == name;
      OneCall(E, c', [name], [name]);
      RecursionIsCaught(E, c', name, k);
      assert Value(E, c', [name], [name]) == FnVal(E, c', [name]);
    }
  }
}
