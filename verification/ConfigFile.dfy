/**
 * Writing and loading configuration files: what the writers produce and what
 * _load_config() leaves behind, and the methods that do it on the engine.
 */
module ConfigFile {
  import opened Wrappers
  import opened Config
  import opened Values
  import opened Meaning
  import opened Deps
  import opened Caches
  import opened Invalidation
  import opened ConfText
  import opened Engine

  // Symbols by name

  /** Names are identifiers and belong to one symbol each. */
  predicate NamesOk(K: Config)
    requires DefinedSymsOk(K)
  {
    && (forall i :: 0 <= i < |K.definedSyms| ==> NameOk(K.syms[K.definedSyms[i]].name))
    && (forall i, j :: 0 <= i < j < |K.definedSyms| ==> K.syms[K.definedSyms[i]].name != K.syms[K.definedSyms[j]].name)
  }

  predicate NameOk(name: string) {
    name != "" && '=' !in name && ' ' !in name && OneLine(name)
  }

  /** The defined symbol with this name among the first n. */
  function Lookup(K: Config, name: string, n: nat): Option<SymId>
    requires DefinedSymsOk(K) && n <= |K.definedSyms|
  {
    if n == 0 then None
    else if K.syms[K.definedSyms[n - 1]].name == name then Some(K.definedSyms[n - 1])
    else Lookup(K, name, n - 1)
  }

  lemma {:induction false} LookupInRange(K: Config, name: string, n: nat)
    requires DefinedSymsOk(K) && n <= |K.definedSyms|
    ensures Lookup(K, name, n).Some? ==> Lookup(K, name, n).value in K.definedSyms && SymOk(K, Lookup(K, name, n).value)
    ensures Lookup(K, name, n).Some? ==> K.syms[Lookup(K, name, n).value].name == name
  {
    if n == 0 {
    } else {
      LookupInRange(K, name, n - 1);
    }
  }

  lemma {:induction false} LookupFinds(K: Config, i: nat, n: nat)
    requires DefinedSymsOk(K) && NamesOk(K) && i < n <= |K.definedSyms|
    ensures Lookup(K, K.syms[K.definedSyms[i]].name, n) == Some(K.definedSyms[i])
  {
    if i < n - 1 { LookupFinds(K, i, n - 1); }
  }

  // Loading

  /** What a line assigns, if it is an assignment of the right form to a defined symbol. */
  function Assignment(K: Config, prefix: string, line: string): Option<(SymId, UserVal)>
    requires DefinedSymsOk(K)
  {
    match ParseLine(prefix, line)
    case SetLine(name, val) =>
      LookupInRange(K, name, |K.definedSyms|);
      var s :- Lookup(K, name, |K.definedSyms|);
      SetValueIn(K, s, val)
    case UnsetLine(name) =>
      LookupInRange(K, name, |K.definedSyms|);
      var s :- Lookup(K, name, |K.definedSyms|);
      if Boolish(K.syms[s].origType) then Some((s, TriVal(0))) else None
    case OtherLine => None
  }

  function SetValueIn(K: Config, s: SymId, val: string): Option<(SymId, UserVal)>
    requires SymOk(K, s)
  {
    match K.syms[s].origType
    case Bool =>
      if val != "" && val[0] == 'y' then Some((s, TriVal(2)))
      else if val != "" && val[0] == 'n' then Some((s, TriVal(0)))
      else None
    case Tristate =>
      if val != "" && val[0] == 'y' then Some((s, TriVal(2)))
      else if val != "" && val[0] == 'm' then Some((s, TriVal(1)))
      else if val != "" && val[0] == 'n' then Some((s, TriVal(0)))
      else None
    case String =>
      var quoted :- MatchQuoted(val);
      Some((s, StrVal(Unescape(quoted))))
    case _ => Some((s, StrVal(val)))
  }

  datatype Loading = Loading(users: Users, wasSet: set<Item>)

  function LoadMode(K: Config, L: Loading, c: ChoiceId, v: UserVal): Loading
    requires c < |K.choices|
  {
    var ok := Normalize(v).TriVal? && ValidMode(K.choices[c].origType, Normalize(v).t);
    Loading(AfterSetMode(K, L.users, c, v), L.wasSet + (if ok then {Cho(c)} else {}))
  }

  function LoadSym(K: Config, L: Loading, s: SymId, v: UserVal): Loading
    requires SymOk(K, s)
  {
    Loading(AfterSet(K, L.users, s, v),
            L.wasSet + (if ValidUserVal(K, s, SymInput(K, s, v)) then MarkedBySet(K, s, v) else {}))
  }

  /** One assignment; the mode of a choice is inferred from what its symbols are set to. */
  function LoadAssignment(K: Config, L: Loading, s: SymId, v: UserVal): Loading
    requires ConfigOk(K) && SymOk(K, s)
  {
    assert SymDefOk(K, s);
    var c := K.syms[s].choice;
    LoadSym(K, if c.Some? && v.TriVal? && v.t != 0 then LoadMode(K, L, c.value, v) else L, s, v)
  }

  function LoadLine(K: Config, prefix: string, L: Loading, line: string): Loading
    requires ConfigOk(K)
  {
    match Assignment(K, prefix, line)
    case None => L
    case Some((s, v)) => AssignmentOk(K, prefix, line); LoadAssignment(K, L, s, v)
  }

  lemma AssignmentOk(K: Config, prefix: string, line: string)
    requires DefinedSymsOk(K)
    ensures Assignment(K, prefix, line).Some? ==>
      SymOk(K, Assignment(K, prefix, line).value.0) && Assignment(K, prefix, line).value.0 in K.definedSyms
  {
    match ParseLine(prefix, line)
    case SetLine(name, val) => LookupInRange(K, name, |K.definedSyms|);
    case UnsetLine(name) => LookupInRange(K, name, |K.definedSyms|);
    case OtherLine =>
  }

  function LoadLines(K: Config, prefix: string, L: Loading, lines: seq<string>): Loading
    requires ConfigOk(K)
  {
    if lines == [] then L
    else LoadLine(K, prefix, LoadLines(K, prefix, L, lines[..|lines| - 1]), lines[|lines| - 1])
  }

  /** The user values that are kept after n symbols have been looked at. */
  function KeptSyms(U: Users, wasSet: set<Item>, syms: seq<SymId>): map<SymId, UserVal> {
    map s | s in U.sym && (Sym(s) in wasSet || s !in syms) :: U.sym[s]
  }

  lemma KeptNone(U: Users, wasSet: set<Item>)
    ensures KeptSyms(U, wasSet, []) == U.sym
  {
  }

  lemma KeptNext(U: Users, wasSet: set<Item>, syms: seq<SymId>, n: nat)
    requires n < |syms|
    ensures var before := KeptSyms(U, wasSet, syms[..n]);
      KeptSyms(U, wasSet, syms[..n + 1]) == if Sym(syms[n]) in wasSet then before else before - {syms[n]}
  {
    assert syms[..n + 1] == syms[..n] + [syms[n]];
  }

  function KeptModes<V>(values: map<ChoiceId, V>, wasSet: set<Item>, n: nat): map<ChoiceId, V> {
    map c | c in values && (Cho(c) in wasSet || c >= n) :: values[c]
  }

  /** What was not set while a configuration was being replaced is unset. */
  function UnsetRest(K: Config, L: Loading): Users
    requires ConfigOk(K)
  {
    Users(KeptSyms(L.users, L.wasSet, K.definedSyms), KeptModes(L.users.mode, L.wasSet, |K.choices|),
          KeptModes(L.users.pick, L.wasSet, |K.choices|))
  }

  /** The user state after replacing the configuration by a file. */
  function Loaded(K: Config, prefix: string, U: Users, lines: seq<string>): Users
    requires ConfigOk(K)
  {
    UnsetRest(K, LoadLines(K, prefix, Loading(U, {}), lines))
  }

  method LoadOne(k: Kconfig, prefix: string, line: string)
    requires k.Valid()
    modifies k
    ensures k.Valid()
    ensures Loading(k.users, k.wasSet) == LoadLine(k.K, prefix, old(Loading(k.users, k.wasSet)), line)
  {
    var a := Assignment(k.K, prefix, line);
    if a.Some? {
      AssignmentOk(k.K, prefix, line);
      var s, v := a.value.0, a.value.1;
      assert SymDefOk(k.K, s);
      var c := k.K.syms[s].choice;
      if c.Some? && v.TriVal? && v.t != 0 {
        var _ := k.SetMode(c.value, v);
      }
      var _ := k.SetValue(s, v);
    }
  }

  /** _load_config() */
  method LoadConfig(k: Kconfig, prefix: string, lines: seq<string>, replace: bool)
    requires k.Valid()
    modifies k
    ensures k.Valid()
    ensures replace ==> k.users == Loaded(k.K, prefix, old(k.users), lines)
    ensures !replace ==>
      Loading(k.users, k.wasSet) == LoadLines(k.K, prefix, old(Loading(k.users, k.wasSet)), lines)
  {
    if replace {
      k.ClearWasSet();
    }
    ghost var L := Loading(k.users, k.wasSet);
    for n := 0 to |lines|
      invariant k.Valid() && Loading(k.users, k.wasSet) == LoadLines(k.K, prefix, L, lines[..n])
    {
      assert lines[..n + 1][..n] == lines[..n];
      LoadOne(k, prefix, lines[n]);
    }
    assert lines[..|lines|] == lines;
    if replace {
      UnsetOthers(k);
    }
  }

  method UnsetSyms(k: Kconfig)
    requires k.Valid()
    modifies k
    ensures k.Valid() && k.wasSet == old(k.wasSet)
    ensures k.users == old(k.users).(sym := KeptSyms(old(k.users), k.wasSet, k.K.definedSyms))
  {
    var syms := k.K.definedSyms;
    assert forall i :: 0 <= i < |syms| ==> SymOk(k.K, syms[i]);
    hide ConfigOk, UserStateOk, Justified, Ranked, ChoicesLinked, DependentsOk, ConstantsIn, WritesIn, KeptSyms;
    KeptNone(k.users, k.wasSet);
    for n := 0 to |syms|
      invariant k.Valid() && k.wasSet == old(k.wasSet)
      invariant k.users == old(k.users).(sym := KeptSyms(old(k.users), k.wasSet, syms[..n]))
    {
      KeptNext(old(k.users), k.wasSet, syms, n);
      if Sym(syms[n]) !in k.wasSet {
        k.UnsetValue(syms[n]);
      }
    }
    assert syms[..|syms|] == syms;
  }

  method UnsetChoices(k: Kconfig)
    requires k.Valid()
    modifies k
    ensures k.Valid() && k.wasSet == old(k.wasSet)
    ensures k.users == Users(old(k.users.sym), KeptModes(old(k.users.mode), k.wasSet, |k.K.choices|),
                             KeptModes(old(k.users.pick), k.wasSet, |k.K.choices|))
  {
    hide ConfigOk, UserStateOk, Justified, Ranked, ChoicesLinked, DependentsOk, ConstantsIn, WritesIn;
    for c := 0 to |k.K.choices|
      invariant k.Valid() && k.wasSet == old(k.wasSet)
      invariant k.users == Users(old(k.users.sym), KeptModes(old(k.users.mode), k.wasSet, c),
                                 KeptModes(old(k.users.pick), k.wasSet, c))
    {
      if Cho(c) !in k.wasSet {
        k.UnsetMode(c);
      }
    }
  }

  method UnsetOthers(k: Kconfig)
    requires k.Valid()
    modifies k
    ensures k.Valid() && k.users == UnsetRest(k.K, Loading(old(k.users), old(k.wasSet)))
  {
    UnsetSyms(k);
    UnsetChoices(k);
  }

  // Writing

  /** config_string, without the line break; None is the empty string. */
  function ConfLine(K: Config, prefix: string, s: SymId, val: string, write: bool): Option<string>
    requires SymOk(K, s)
  {
    var d := K.syms[s];
    if !write then None
    else if Boolish(d.origType) && val == "n" then Some("# " + prefix + d.name + NOT_SET)
    else if d.origType == String then Some(prefix + d.name + "=" + ("\"" + Escape(val) + "\""))
    else Some(prefix + d.name + "=" + val)
  }

  /** The line of symbol s in a state with the values m. */
  function SymLine(K: Config, prefix: string, U: Users, m: Cache, s: SymId): Option<string>
    requires ConfigOk(K) && SymOk(K, s)
  {
    var val :- GetS(m, StrOf(s));
    var write :- WriteToConf(K, U, m, s);
    ConfLine(K, prefix, s, val, write)
  }

  /** The menu nodes in the order of the walk, with the points where menus are left. */
  datatype Entry =
    | SymNode(s: SymId)
    | HeadNode(isMenu: bool, title: string, dep: Expr, visible: Expr)
    | MenuEnd(title: string, dep: Expr, visible: Expr)

  predicate EntryOk(K: Config, e: Entry) {
    match e
    case SymNode(s) => s in K.definedSyms
    case HeadNode(_, _, dep, visible) => ExprOk(K, dep) && ExprOk(K, visible)
    case MenuEnd(_, dep, visible) => ExprOk(K, dep) && ExprOk(K, visible)
  }

  predicate WalkOk(K: Config, walk: seq<Entry>) {
    forall i :: 0 <= i < |walk| ==> EntryOk(K, walk[i])
  }

  /** The state of the writer: lines so far, symbols already visited, just after an end comment. */
  datatype Writer = Writer(lines: seq<string>, visited: set<SymId>, afterEnd: bool)

  predicate NonN(K: Config, U: Users, m: Cache, e: Expr)
    requires ExprOk(K, e)
  {
    match Eval(K, U, m, e)
    case Some(v) => v != 0
    case None => false
  }

  function WriteLine(w: Writer, line: Option<string>, s: SymId): Writer {
    var seen := w.(visited := w.visited + {s});
    if line.None? then seen
    else seen.(lines := seen.lines + (if w.afterEnd then [""] else []) + [line.value], afterEnd := false)
  }

  function WriteEntry(K: Config, prefix: string, U: Users, m: Cache, w: Writer, e: Entry): Writer
    requires ConfigOk(K) && EntryOk(K, e)
  {
    match e
    case SymNode(s) => if s in w.visited then w else WriteLine(w, SymLine(K, prefix, U, m, s), s)
    case HeadNode(isMenu, title, dep, visible) =>
      if NonN(K, U, m, dep) && (!isMenu || NonN(K, U, m, visible)) then
        w.(lines := w.lines + ["", "#", "# " + title, "#"], afterEnd := false)
      else w
    case MenuEnd(title, dep, visible) =>
      if NonN(K, U, m, dep) && NonN(K, U, m, visible) then
        w.(lines := w.lines + ["# end of " + title], afterEnd := true)
      else w
  }

  /** _config_contents(), as lines. */
  function Contents(K: Config, prefix: string, header: seq<string>, U: Users, m: Cache, walk: seq<Entry>): Writer
    requires ConfigOk(K) && WalkOk(K, walk)
  {
    if walk == [] then Writer(header, {}, false)
    else
      assert EntryOk(K, walk[|walk| - 1]);
      WriteEntry(K, prefix, U, m, Contents(K, prefix, header, U, m, walk[..|walk| - 1]), walk[|walk| - 1])
  }

  /** Symbol._str_default(): the value a symbol would get from its defaults. */
  function StrDefault(K: Config, U: Users, m: Cache, s: SymId): Option<string>
    requires ConfigOk(K) && SymOk(K, s)
  {
    assert SymDefOk(K, s);
    var d := K.syms[s];
    if Boolish(d.origType) then
      if d.choice.Some? then Some("n")
      else
        var def :- DefaultTri(K, U, m, d.origType, d.defaults);
        var rev :- Eval(K, U, m, d.revDep);
        var weak :- Eval(K, U, m, d.weakRevDep);
        var val := Max(Max(rev, weak), def);
        if val == 1 then
          var ty :- SymType(K, U, m, s);
          Some(TriToStr(if ty == Bool then 2 else 1))
        else Some(TriToStr(val))
    else if d.origType == Unknown then Some("")
    else
      var def :- DefaultStr(K, U, m, d.origType, d.defaults);
      Some(if def.Some? then def.value else "")
  }

  /** Whether _min_config_contents() writes out a symbol. */
  function KeptInMinimal(K: Config, U: Users, m: Cache, s: SymId): Option<bool>
    requires ConfigOk(K) && SymOk(K, s)
  {
    assert SymDefOk(K, s);
    var d := K.syms[s];
    var vis :- if d.choice.Some? then Some(2) else GetT(m, Vis(Sym(s)));
    var rev :- if d.choice.Some? then Some(0) else Eval(K, U, m, d.revDep);
    if vis <= rev then Some(false)
    else
      var str :- GetS(m, StrOf(s));
      var def :- StrDefault(K, U, m, s);
      if str == def then Some(false)
      else if d.choice.Some? && !K.choices[d.choice.value].isOptional && d.origType == Bool then
        var sel :- SelectionFromDefaults(K, U, m, d.choice.value);
        var tri :- GetT(m, TriOf(s));
        Some(!(sel == Some(s) && tri == 2))
      else Some(true)
  }

  function AddMinimal(K: Config, prefix: string, U: Users, m: Cache, lines: seq<string>, s: SymId): seq<string>
    requires ConfigOk(K) && SymOk(K, s)
  {
    if KeptInMinimal(K, U, m, s) == Some(true) && SymLine(K, prefix, U, m, s).Some? then
      lines + [SymLine(K, prefix, U, m, s).value]
    else lines
  }

  /** _min_config_contents(), as lines, for the first n defined symbols. */
  function Minimal(K: Config, prefix: string, header: seq<string>, U: Users, m: Cache, n: nat): seq<string>
    requires ConfigOk(K) && n <= |K.definedSyms|
  {
    if n == 0 then header
    else AddMinimal(K, prefix, U, m, Minimal(K, prefix, header, U, m, n - 1), K.definedSyms[n - 1])
  }
}
