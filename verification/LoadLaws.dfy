/** What a file leaves behind when it replaces a configuration: the last word on each symbol and choice. */
module LoadLaws {
  import opened Wrappers
  import opened Config
  import opened Values
  import opened Invalidation
  import opened ConfigFile

  /** The last accepted assignment to s. */
  function SymIn(K: Config, prefix: string, lines: seq<string>, s: SymId): Option<UserVal>
    requires ConfigOk(K) && SymOk(K, s)
  {
    if lines == [] then None
    else
      var a := Assignment(K, prefix, lines[|lines| - 1]);
      if a.Some? && a.value.0 == s && ValidUserVal(K, s, a.value.1) then Some(a.value.1)
      else SymIn(K, prefix, lines[..|lines| - 1], s)
  }

  predicate InChoice(K: Config, s: SymId, c: ChoiceId) {
    SymOk(K, s) && K.syms[s].choice == Some(c)
  }

  /** The last symbol of c that is set to y. */
  function PickIn(K: Config, prefix: string, lines: seq<string>, c: ChoiceId): Option<SymId>
    requires ConfigOk(K)
  {
    if lines == [] then None
    else
      var a := Assignment(K, prefix, lines[|lines| - 1]);
      if a.Some? && InChoice(K, a.value.0, c) && a.value.1 == TriVal(2) && ValidUserVal(K, a.value.0, a.value.1) then
        Some(a.value.0)
      else PickIn(K, prefix, lines[..|lines| - 1], c)
  }

  /** The mode inferred from the last symbol of c that is set to m or y. */
  function ModeIn(K: Config, prefix: string, lines: seq<string>, c: ChoiceId): Option<Tri>
    requires ConfigOk(K) && c < |K.choices|
  {
    if lines == [] then None
    else
      var a := Assignment(K, prefix, lines[|lines| - 1]);
      if a.Some? && InChoice(K, a.value.0, c) && a.value.1.TriVal? && a.value.1.t != 0 &&
         ValidMode(K.choices[c].origType, a.value.1.t)
      then Some(a.value.1.t)
      else ModeIn(K, prefix, lines[..|lines| - 1], c)
  }

  lemma AssignmentForm(K: Config, prefix: string, line: string)
    requires ConfigOk(K) && Assignment(K, prefix, line).Some?
    ensures
      var (s, v) := Assignment(K, prefix, line).value;
      SymOk(K, s) && s in K.definedSyms && SymInput(K, s, v) == v
  {
    AssignmentOk(K, prefix, line);
  }

  /** The state after loading, slot by slot: what the file says, and otherwise what was there. */
  ghost predicate SymsLoaded(K: Config, prefix: string, U: Users, lines: seq<string>, L: Loading)
    requires ConfigOk(K)
  {
    forall s :: 0 <= s < |K.syms| ==>
      var x := SymIn(K, prefix, lines, s);
      (Sym(s) in L.wasSet <==> x.Some?) &&
      (s in L.users.sym <==> x.Some? || s in U.sym) &&
      (s in L.users.sym ==> L.users.sym[s] == if x.Some? then x.value else U.sym[s])
  }

  ghost predicate ChoicesLoaded(K: Config, prefix: string, U: Users, lines: seq<string>, L: Loading)
    requires ConfigOk(K)
  {
    forall c :: 0 <= c < |K.choices| ==> ChoiceLoaded(K, prefix, U, lines, L, c)
  }

  ghost predicate ChoiceLoaded(K: Config, prefix: string, U: Users, lines: seq<string>, L: Loading, c: ChoiceId)
    requires ConfigOk(K) && c < |K.choices|
  {
    var p := PickIn(K, prefix, lines, c);
    var t := ModeIn(K, prefix, lines, c);
    (Cho(c) in L.wasSet <==> p.Some? || t.Some?) &&
    UserPick(L.users, c) == (if p.Some? then p else UserPick(U, c)) &&
    UserMode(L.users, c) == (if t.Some? then t else UserMode(U, c))
  }

  lemma SymsStep(K: Config, prefix: string, U: Users, lines: seq<string>, L: Loading, line: string)
    requires ConfigOk(K) && SymsLoaded(K, prefix, U, lines, L)
    ensures SymsLoaded(K, prefix, U, lines + [line], LoadLine(K, prefix, L, line))
  {
    var all := lines + [line];
    assert all[..|all| - 1] == lines && all[|all| - 1] == line;
    if Assignment(K, prefix, line).Some? { AssignmentForm(K, prefix, line); }
  }

  lemma ChoicesStep(K: Config, prefix: string, U: Users, lines: seq<string>, L: Loading, line: string)
    requires ConfigOk(K) && ChoicesLoaded(K, prefix, U, lines, L)
    ensures ChoicesLoaded(K, prefix, U, lines + [line], LoadLine(K, prefix, L, line))
  {
    forall c | 0 <= c < |K.choices| ensures ChoiceLoaded(K, prefix, U, lines + [line], LoadLine(K, prefix, L, line), c) {
      ChoiceStep(K, prefix, U, lines, L, line, c);
    }
  }

  lemma ChoiceStep(K: Config, prefix: string, U: Users, lines: seq<string>, L: Loading, line: string, c: ChoiceId)
    requires ConfigOk(K) && c < |K.choices| && ChoiceLoaded(K, prefix, U, lines, L, c)
    ensures ChoiceLoaded(K, prefix, U, lines + [line], LoadLine(K, prefix, L, line), c)
  {
    LastLine(K, prefix, lines, line, c);
    match Assignment(K, prefix, line)
    case None =>
    case Some((s, v)) =>
      AssignmentForm(K, prefix, line);
      assert LoadLine(K, prefix, L, line) == LoadAssignment(K, L, s, v);
      hide ConfigOk, Assignment, ValidUserVal, LoadAssignment, LoadLine, ValidMode, PickIn, ModeIn, SymInput;
      AssignmentToChoice(K, L, s, v, c);
  }

  /** Whether the last line selects in choice c, or sets its mode. */
  predicate Picks(K: Config, s: SymId, v: UserVal, c: ChoiceId)
    requires SymOk(K, s)
  {
    InChoice(K, s, c) && v == TriVal(2) && ValidUserVal(K, s, v)
  }

  predicate SetsMode(K: Config, s: SymId, v: UserVal, c: ChoiceId)
    requires c < |K.choices|
  {
    InChoice(K, s, c) && v.TriVal? && v.t != 0 && ValidMode(K.choices[c].origType, v.t)
  }

  lemma LastLine(K: Config, prefix: string, lines: seq<string>, line: string, c: ChoiceId)
    requires ConfigOk(K) && c < |K.choices|
    ensures
      var p, t := PickIn(K, prefix, lines, c), ModeIn(K, prefix, lines, c);
      var p', t' := PickIn(K, prefix, lines + [line], c), ModeIn(K, prefix, lines + [line], c);
      match Assignment(K, prefix, line)
      case None => p' == p && t' == t
      case Some((s, v)) =>
        && SymOk(K, s)
        && p' == (if Picks(K, s, v, c) then Some(s) else p)
        && t' == if SetsMode(K, s, v, c) then Some(v.t) else t
  {
    AssignmentOk(K, prefix, line);
    var all := lines + [line];
    assert all[..|all| - 1] == lines && all[|all| - 1] == line;
    hide ConfigOk, Assignment, ValidUserVal, ValidMode;
  }

  /** What assigning v to s does to choice c. */
  lemma AssignmentToChoice(K: Config, L: Loading, s: SymId, v: UserVal, c: ChoiceId)
    requires ConfigOk(K) && SymOk(K, s) && c < |K.choices| && SymInput(K, s, v) == v
    ensures
      var L' := LoadAssignment(K, L, s, v);
      && (Cho(c) in L'.wasSet <==> Cho(c) in L.wasSet || Picks(K, s, v, c) || SetsMode(K, s, v, c))
      && UserPick(L'.users, c) == (if Picks(K, s, v, c) then Some(s) else UserPick(L.users, c))
      && UserMode(L'.users, c) == (if SetsMode(K, s, v, c) then Some(v.t) else UserMode(L.users, c))
  {
    assert SymDefOk(K, s);
    hide ConfigOk, SymDefOk, ValidUserVal, SymInput;
  }

  lemma {:induction false} LinesLoad(K: Config, prefix: string, U: Users, lines: seq<string>)
    requires ConfigOk(K)
    ensures SymsLoaded(K, prefix, U, lines, LoadLines(K, prefix, Loading(U, {}), lines))
    ensures ChoicesLoaded(K, prefix, U, lines, LoadLines(K, prefix, Loading(U, {}), lines))
  {
    if lines == [] {
    } else {
      var before, line := lines[..|lines| - 1], lines[|lines| - 1];
      assert lines == before + [line];
      LinesLoad(K, prefix, U, before);
      var L := LoadLines(K, prefix, Loading(U, {}), before);
      SymsStep(K, prefix, U, before, L, line);
      ChoicesStep(K, prefix, U, before, L, line);
    }
  }

  /** Replacing a configuration: symbols have the values of the file and no others. */
  lemma LoadedSyms(K: Config, prefix: string, U: Users, lines: seq<string>, s: SymId)
    requires ConfigOk(K) && s in K.definedSyms && SymOk(K, s)
    ensures
      var x := SymIn(K, prefix, lines, s);
      var U' := Loaded(K, prefix, U, lines);
      (s in U'.sym <==> x.Some?) && (x.Some? ==> U'.sym[s] == x.value)
  {
    LinesLoad(K, prefix, U, lines);
    var L := LoadLines(K, prefix, Loading(U, {}), lines);
    assert (s in L.users.sym <==> SymIn(K, prefix, lines, s).Some? || s in U.sym);
  }

  /**
   * Replacing a configuration: choices have the selection and mode that the file implies.
   * If the file only gives a mode, the old selection stays.
   */
  lemma LoadedChoices(K: Config, prefix: string, U: Users, lines: seq<string>, c: ChoiceId)
    requires ConfigOk(K) && c < |K.choices|
    ensures
      var p := PickIn(K, prefix, lines, c);
      var t := ModeIn(K, prefix, lines, c);
      var U' := Loaded(K, prefix, U, lines);
      UserPick(U', c) == (if p.Some? then p else if t.Some? then UserPick(U, c) else None) &&
      UserMode(U', c) == (if t.Some? then t else if p.Some? then UserMode(U, c) else None)
  {
    LinesLoad(K, prefix, U, lines);
    var L := LoadLines(K, prefix, Loading(U, {}), lines);
    assert ChoiceLoaded(K, prefix, U, lines, L, c);
    hide ConfigOk, SymsLoaded, ChoicesLoaded, PickIn, ModeIn, LoadLines;
  }

  lemma {:induction false} LinesKeepStateOk(K: Config, prefix: string, L: Loading, lines: seq<string>)
    requires ConfigOk(K) && UserStateOk(K, L.users)
    ensures UserStateOk(K, LoadLines(K, prefix, L, lines).users)
  {
    if lines == [] {
    } else {
      var line := lines[|lines| - 1];
      LinesKeepStateOk(K, prefix, L, lines[..|lines| - 1]);
      var before := LoadLines(K, prefix, L, lines[..|lines| - 1]);
      if Assignment(K, prefix, line).Some? {
        AssignmentForm(K, prefix, line);
        var (s, v) := Assignment(K, prefix, line).value;
        assert SymDefOk(K, s);
        var c := K.syms[s].choice;
        var U1 := if c.Some? && v.TriVal? && v.t != 0 then AfterSetMode(K, before.users, c.value, v) else before.users;
        if c.Some? { ModeChanges(K, before.users, c.value, v); }
        SetKeepsStateOk(K, U1, s, v);
      }
    }
  }

  lemma LoadedStateOk(K: Config, prefix: string, U: Users, lines: seq<string>)
    requires ConfigOk(K) && UserStateOk(K, U)
    ensures UserStateOk(K, Loaded(K, prefix, U, lines))
  {
    LinesKeepStateOk(K, prefix, Loading(U, {}), lines);
    hide ConfigOk, ValidUserVal, ValidMode, PickOk, LoadLines;
  }
}
