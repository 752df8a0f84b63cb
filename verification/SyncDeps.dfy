/**
 * sync_deps(): which symbols are signalled as changed between two builds. The
 * values of the last build are kept in auto.conf.
 */
module SyncDeps {
  import opened Wrappers
  import opened Config
  import opened Values
  import opened Reads
  import opened Meaning
  import opened Deps
  import opened Caches
  import opened Invalidation
  import opened ValueLaws
  import opened ConfText
  import opened Engine
  import opened ConfigFile
  import opened Writers
  import opened SaveLaws

  // auto.conf

  /** A name that occurs in the Kconfig files; not the name of a constant. */
  predicate KnownName(K: Config, name: string) {
    exists s :: 0 <= s < |K.syms| && !K.syms[s].isConst && K.syms[s].name == name
  }

  /** The old value that a line gives, and the symbol it gives it to. */
  function OldVal(K: Config, prefix: string, line: string): Option<(SymId, string)>
    requires DefinedSymsOk(K)
  {
    var (name, val) :- MatchSet(prefix, line);
    LookupInRange(K, name, |K.definedSyms|);
    var s :- Lookup(K, name, |K.definedSyms|);
    if K.syms[s].origType == String then
      var quoted :- MatchQuoted(val);
      Some((s, Unescape(quoted)))
    else Some((s, val))
  }

  /** The `_old_val` attributes after _load_old_vals(). */
  function OldVals(K: Config, prefix: string, lines: seq<string>): map<SymId, string>
    requires DefinedSymsOk(K)
  {
    if lines == [] then map[]
    else
      var before := OldVals(K, prefix, lines[..|lines| - 1]);
      match OldVal(K, prefix, lines[|lines| - 1])
      case None => before
      case Some((s, val)) => before[s := val]
  }

  /** The name in a line whose symbol no longer exists. */
  function GoneName(K: Config, prefix: string, line: string): Option<string> {
    var (name, val) :- MatchSet(prefix, line);
    if KnownName(K, name) then None else Some(name)
  }

  function GoneNames(K: Config, prefix: string, lines: seq<string>): set<string> {
    if lines == [] then {}
    else
      GoneNames(K, prefix, lines[..|lines| - 1]) +
      (match GoneName(K, prefix, lines[|lines| - 1]) case None => {} case Some(name) => {name})
  }

  /** Whether symbol s is signalled, given its current value and its old one. */
  predicate Signalled(K: Config, s: SymId, val: string, write: bool, prev: Option<string>)
    requires SymOk(K, s)
  {
    if write then !(prev.None? && Boolish(K.syms[s].origType) && val == "n") && prev != Some(val)
    else prev.Some?
  }

  /** The line of s in a new auto.conf. */
  function AutoLine(K: Config, prefix: string, U: Users, m: Cache, s: SymId): Option<string>
    requires ConfigOk(K) && SymOk(K, s)
  {
    if Boolish(K.syms[s].origType) && GetT(m, TriOf(s)) == Some(0) then None else SymLine(K, prefix, U, m, s)
  }

  /** _old_vals_contents(), for the first n defined symbols. */
  function AutoConf(K: Config, prefix: string, U: Users, m: Cache, n: nat): seq<string>
    requires ConfigOk(K) && n <= |K.definedSyms|
  {
    if n == 0 then []
    else
      var line := AutoLine(K, prefix, U, m, K.definedSyms[n - 1]);
      AutoConf(K, prefix, U, m, n - 1) + (if line.Some? then [line.value] else [])
  }

  /** The text of auto.conf. */
  function AutoText(K: Config, prefix: string, U: Users, m: Cache): string
    requires ConfigOk(K)
  {
    JoinLines(AutoConf(K, prefix, U, m, |K.definedSyms|))
  }

  /** _load_old_vals(), from the text of auto.conf if there is one. */
  method LoadOldVals(K: Config, prefix: string, autoConf: Option<string>)
    returns (oldVals: map<SymId, string>, touched: set<string>)
    requires ConfigOk(K)
    ensures autoConf.None? ==> oldVals == map[] && touched == {}
    ensures autoConf.Some? ==>
      oldVals == OldVals(K, prefix, ReadLines(autoConf.value)) && touched == GoneNames(K, prefix, ReadLines(autoConf.value))
  {
    oldVals, touched := map[], {};
    if autoConf.Some? {
      var lines := ReadLines(autoConf.value);
      for n := 0 to |lines|
        invariant oldVals == OldVals(K, prefix, lines[..n]) && touched == GoneNames(K, prefix, lines[..n])
      {
        assert lines[..n + 1][..n] == lines[..n];
        var prev := OldVal(K, prefix, lines[n]);
        if prev.Some? {
          oldVals := oldVals[prev.value.0 := prev.value.1];
        }
        var gone := GoneName(K, prefix, lines[n]);
        if gone.Some? {
          touched := touched + {gone.value};
        }
      }
      assert lines[..|lines|] == lines;
    }
  }

  predicate SignalledIn(K: Config, U: Users, m: Cache, s: SymId, oldVals: map<SymId, string>)
    requires ConfigOk(K) && SymOk(K, s)
  {
    var val := GetS(m, StrOf(s));
    var write := WriteToConf(K, U, m, s);
    val.Some? && write.Some? &&
    Signalled(K, s, val.value, write.value, if s in oldVals then Some(oldVals[s]) else None)
  }

  method CheckSym(k: Kconfig, s: SymId, oldVals: map<SymId, string>, ghost m: Cache) returns (r: bool)
    requires k.Valid() && SymOk(k.K, s) && Solves(k.K, k.users, m)
    modifies k`cache
    ensures k.Valid() && r == SignalledIn(k.K, k.users, m, s, oldVals)
  {
    var val := k.StrValue(s);
    CacheIsPart(k.K, k.rank, k.users, k.cache, m);
    var write := k.WriteFlag(s);
    CacheIsPart(k.K, k.rank, k.users, k.cache, m);
    WriteTransfer(k.K, k.users, k.users, k.cache, m, s);
    r := Signalled(k.K, s, val, write, if s in oldVals then Some(oldVals[s]) else None);
  }

  method NewAutoLine(k: Kconfig, prefix: string, s: SymId, ghost m: Cache) returns (line: Option<string>)
    requires k.Valid() && SymOk(k.K, s) && Solves(k.K, k.users, m)
    modifies k`cache
    ensures k.Valid() && line == AutoLine(k.K, prefix, k.users, m, s)
  {
    if Boolish(k.K.syms[s].origType) {
      var tri := k.TriValue(s);
      CacheIsPart(k.K, k.rank, k.users, k.cache, m);
      if tri == 0 {
        return None;
      }
    }
    line := ConfigString(k, prefix, s, m);
  }

  lemma SignalledNone(K: Config, U: Users, m: Cache, oldVals: map<SymId, string>)
    requires ConfigOk(K)
    ensures SignalledNames(K, U, m, oldVals, 0) == {}
  {
  }

  lemma SignalledStep(K: Config, U: Users, m: Cache, oldVals: map<SymId, string>, n: nat)
    requires ConfigOk(K) && 0 < n <= |K.definedSyms|
    ensures
      var s := K.definedSyms[n - 1];
      SignalledNames(K, U, m, oldVals, n) ==
        SignalledNames(K, U, m, oldVals, n - 1) + (if SignalledIn(K, U, m, s, oldVals) then {K.syms[s].name} else {})
  {
  }

  /** One step of CheckSyms. */
  method CheckNext(k: Kconfig, oldVals: map<SymId, string>, ghost m: Cache, n: nat, before: set<string>)
    returns (touched: set<string>)
    requires k.Valid() && Solves(k.K, k.users, m) && n < |k.K.definedSyms|
    requires before == SignalledNames(k.K, k.users, m, oldVals, n)
    modifies k`cache
    ensures k.Valid() && touched == SignalledNames(k.K, k.users, m, oldVals, n + 1)
  {
    var s := k.K.definedSyms[n];
    assert SymOk(k.K, s);
    var changed := CheckSym(k, s, oldVals, m);
    SignalledStep(k.K, k.users, m, oldVals, n + 1);
    touched := before + (if changed then {k.K.syms[s].name} else {});
  }

  method CheckSyms(k: Kconfig, oldVals: map<SymId, string>, ghost m: Cache) returns (touched: set<string>)
    requires k.Valid() && Solves(k.K, k.users, m)
    modifies k`cache
    ensures k.Valid() && touched == SignalledNames(k.K, k.users, m, oldVals, |k.K.definedSyms|)
  {
    hide ConfigOk, UserStateOk, Solves, Justified, Ranked, ChoicesLinked, DependentsOk, SignalledIn, SignalledNames,
         SymDefOk, ConstantsIn, WritesIn, PicksOk, UsersOk, DefinedSymsOk;
    SignalledNone(k.K, k.users, m, oldVals);
    touched := {};
    var count := |k.K.definedSyms|;
    for n := 0 to count
      invariant k.Valid() && touched == SignalledNames(k.K, k.users, m, oldVals, n)
    {
      touched := CheckNext(k, oldVals, m, n, touched);
    }
  }

  method OldValsContents(k: Kconfig, prefix: string, ghost m: Cache) returns (lines: seq<string>)
    requires k.Valid() && Solves(k.K, k.users, m)
    modifies k`cache
    ensures k.Valid() && lines == AutoConf(k.K, prefix, k.users, m, |k.K.definedSyms|)
  {
    var syms := k.K.definedSyms;
    assert forall i :: 0 <= i < |syms| ==> SymOk(k.K, syms[i]);
    hide ConfigOk, UserStateOk, Solves, Justified, Ranked, ChoicesLinked, DependentsOk, AutoLine;
    lines := [];
    for n := 0 to |syms|
      invariant k.Valid() && lines == AutoConf(k.K, prefix, k.users, m, n)
    {
      var line := NewAutoLine(k, prefix, syms[n], m);
      lines := lines + (if line.Some? then [line.value] else []);
    }
  }

  /** sync_deps(): the names that are touched, and the new auto.conf. */
  method Sync(k: Kconfig, prefix: string, autoConf: Option<string>, ghost m: Cache)
    returns (touched: set<string>, newAutoConf: string)
    requires k.Valid() && Solves(k.K, k.users, m)
    modifies k`cache
    ensures k.Valid() && newAutoConf == AutoText(k.K, prefix, k.users, m)
    ensures touched == Touched(k.K, prefix, k.users, m, if autoConf.Some? then ReadLines(autoConf.value) else [])
  {
    var oldVals, gone := LoadOldVals(k.K, prefix, autoConf);
    var changed := CheckSyms(k, oldVals, m);
    touched := gone + changed;
    var lines := OldValsContents(k, prefix, m);
    newAutoConf := JoinLines(lines);
  }

  function SignalledNames(K: Config, U: Users, m: Cache, oldVals: map<SymId, string>, n: nat): set<string>
    requires ConfigOk(K) && n <= |K.definedSyms|
  {
    if n == 0 then {}
    else
      var s := K.definedSyms[n - 1];
      SignalledNames(K, U, m, oldVals, n - 1) + (if SignalledIn(K, U, m, s, oldVals) then {K.syms[s].name} else {})
  }

  function Touched(K: Config, prefix: string, U: Users, m: Cache, lines: seq<string>): set<string>
    requires ConfigOk(K)
  {
    GoneNames(K, prefix, lines) + SignalledNames(K, U, m, OldVals(K, prefix, lines), |K.definedSyms|)
  }

  // The C header

  /** The line of s in autoconf.h; None if it has none. */
  function HeaderLine(K: Config, prefix: string, s: SymId, val: string, write: bool): Option<string>
    requires SymOk(K, s)
  {
    var d := K.syms[s];
    if !write then None
    else if Boolish(d.origType) then
      if val == "y" then Some("#define " + prefix + d.name + " 1")
      else if val == "m" then Some("#define " + prefix + d.name + "_MODULE 1")
      else None
    else if d.origType == String then Some("#define " + prefix + d.name + " \"" + Escape(val) + "\"")
    else Some("#define " + prefix + d.name + " " + (if d.origType == Hex then WithPrefix(val) else val))
  }

  /** What auto.conf remembers of a symbol. */
  function Remembered(K: Config, s: SymId, val: string, write: bool): Option<string>
    requires SymOk(K, s)
  {
    if write && !(Boolish(K.syms[s].origType) && val == "n") then Some(val) else None
  }

  lemma {:induction false} EscapeInjective(a: string, b: string)
    requires Escape(a) == Escape(b)
    ensures a == b
  {
    UnescapeEscape(a);
    UnescapeEscape(b);
  }

  lemma AppendInjective(p: string, a: string, b: string, q: string)
    requires p + a + q == p + b + q
    ensures a == b
  {
    assert |a| == |b|;
    assert (p + a + q)[|p|..|p| + |a|] == a && (p + b + q)[|p|..|p| + |b|] == b;
  }

  /** The values that symbols have: n, m or y for bool and tristate symbols. */
  predicate ProperVal(K: Config, s: SymId, val: string)
    requires SymOk(K, s)
  {
    Boolish(K.syms[s].origType) ==> val == "n" || val == "m" || val == "y"
  }

  /** The header line shows exactly what is remembered, up to the 0x of hex values. */
  lemma HeaderShowsRemembered(K: Config, prefix: string, s: SymId, val: string, write: bool, val': string, write': bool)
    requires SymOk(K, s) && ProperVal(K, s, val) && ProperVal(K, s, val')
    ensures
      var r, r' := Remembered(K, s, val, write), Remembered(K, s, val', write');
      HeaderLine(K, prefix, s, val, write) == HeaderLine(K, prefix, s, val', write') <==>
        r == r' || (K.syms[s].origType == Hex && r.Some? && r'.Some? && WithPrefix(r.value) == WithPrefix(r'.value))
  {
    var d := K.syms[s];
    var h, h' := HeaderLine(K, prefix, s, val, write), HeaderLine(K, prefix, s, val', write');
    if h == h' && h.Some? {
      var p := "#define " + prefix + d.name;
      if d.origType == String {
        assert h.value == (p + " \"") + Escape(val) + "\"" && h'.value == (p + " \"") + Escape(val') + "\"";
        AppendInjective(p + " \"", Escape(val), Escape(val'), "\"");
        EscapeInjective(val, val');
      } else if Boolish(d.origType) {
        assert |p + " 1"| != |p + "_MODULE 1"|;
      } else {
        var x, x' := if d.origType == Hex then WithPrefix(val) else val, if d.origType == Hex then WithPrefix(val') else val';
        assert h.value == (p + " ") + x + "" && h'.value == (p + " ") + x' + "";
        AppendInjective(p + " ", x, x', "");
      }
    }
  }

  // Two successive builds

  /** What the auto.conf of a state remembers of each of the first n defined symbols. */
  ghost predicate Remembers(K: Config, U: Users, m: Cache, oldVals: map<SymId, string>, n: nat)
    requires ConfigOk(K) && n <= |K.definedSyms|
  {
    forall s :: 0 <= s < |K.syms| ==>
      (if s in oldVals then Some(oldVals[s]) else None) ==
        if s in K.definedSyms[..n] then RememberedIn(K, U, m, s) else None
  }

  function RememberedIn(K: Config, U: Users, m: Cache, s: SymId): Option<string>
    requires ConfigOk(K) && SymOk(K, s)
  {
    var val :- GetS(m, StrOf(s));
    var write :- WriteToConf(K, U, m, s);
    Remembered(K, s, val, write)
  }

  predicate NamesReadable(K: Config, prefix: string)
    requires DefinedSymsOk(K)
  {
    NamesOk(K) && '=' !in prefix && OneLine(prefix)
  }

  /** What auto.conf remembers of a state has no line breaks. */
  ghost predicate OneLineVals(K: Config, U: Users, m: Cache)
    requires ConfigOk(K)
  {
    forall s :: 0 <= s < |K.syms| && s in K.definedSyms && RememberedIn(K, U, m, s).Some? ==>
      OneLine(RememberedIn(K, U, m, s).value)
  }

  lemma AutoLineReads(K: Config, prefix: string, U: Users, m: Cache, s: SymId)
    requires ConfigOk(K) && UserStateOk(K, U) && Solves(K, U, m) && NamesReadable(K, prefix)
    requires s in K.definedSyms && SymOk(K, s)
    ensures AutoLine(K, prefix, U, m, s).Some? <==> RememberedIn(K, U, m, s).Some?
    ensures AutoLine(K, prefix, U, m, s).Some? ==>
      OldVal(K, prefix, AutoLine(K, prefix, U, m, s).value) == Some((s, RememberedIn(K, U, m, s).value)) &&
      GoneName(K, prefix, AutoLine(K, prefix, U, m, s).value) == None
  {
    ValuesAreThere(K, U, m, s);
    SolutionKnows(K, U, m, StrOf(s));
    NameOfDefined(K, s);
    assert SymDefOk(K, s);
    var d := K.syms[s];
    var val := GetS(m, StrOf(s)).value;
    hide ConfigOk, UserStateOk, Solves, NamesOk, SymDefOk, Lookup, MatchQuoted, Escape, Unescape, StartsWith;
    if AutoLine(K, prefix, U, m, s).Some? {
      var text := if d.origType == String then "\"" + Escape(val) + "\"" else val;
      SetMatches(prefix, d.name, text);
      assert MatchSet(prefix, AutoLine(K, prefix, U, m, s).value) == Some((d.name, text));
      QuotedCapturesEscape(val, "");
      assert "\"" + Escape(val) + "\"" + "" == "\"" + Escape(val) + "\"";
      UnescapeEscape(val);
      assert KnownName(K, d.name);
    }
  }

  lemma SetMatches(prefix: string, name: string, val: string)
    requires name != "" && '=' !in name
    ensures MatchSet(prefix, prefix + name + "=" + val) == Some((name, val))
  {
    var line := prefix + name + "=" + val;
    var rest := name + ['='] + val;
    FindAfter(name, '=', val);
    assert line == prefix + rest;
    assert line[..|prefix|] == prefix && line[|prefix|..] == rest;
    assert rest[..|name|] == name && rest[|name| + 1..] == val;
  }

  lemma OldValsAppend(K: Config, prefix: string, lines: seq<string>, line: string)
    requires DefinedSymsOk(K)
    ensures
      var prev := OldVal(K, prefix, line);
      var before := OldVals(K, prefix, lines);
      OldVals(K, prefix, lines + [line]) == if prev.None? then before else before[prev.value.0 := prev.value.1]
    ensures GoneName(K, prefix, line).None? ==> GoneNames(K, prefix, lines + [line]) == GoneNames(K, prefix, lines)
  {
    var all := lines + [line];
    assert all[..|all| - 1] == lines && all[|all| - 1] == line;
  }

  lemma AutoConfEmpty(K: Config, prefix: string, U: Users, m: Cache)
    requires ConfigOk(K)
    ensures Remembers(K, U, m, OldVals(K, prefix, []), 0) && GoneNames(K, prefix, []) == {}
  {
  }

  lemma AutoConfStep(K: Config, prefix: string, U: Users, m: Cache, lines: seq<string>, n: nat)
    requires ConfigOk(K) && UserStateOk(K, U) && Solves(K, U, m) && NamesReadable(K, prefix) && 0 < n <= |K.definedSyms|
    requires Remembers(K, U, m, OldVals(K, prefix, lines), n - 1) && GoneNames(K, prefix, lines) == {}
    ensures
      var line := AutoLine(K, prefix, U, m, K.definedSyms[n - 1]);
      var all := lines + (if line.Some? then [line.value] else []);
      Remembers(K, U, m, OldVals(K, prefix, all), n) && GoneNames(K, prefix, all) == {}
  {
    var s := K.definedSyms[n - 1];
    var line := AutoLine(K, prefix, U, m, s);
    assert K.definedSyms[..n] == K.definedSyms[..n - 1] + [s];
    hide ConfigOk, UserStateOk, Solves, NamesReadable, AutoLine, RememberedIn, OldVal, GoneName, OldVals, GoneNames;
    AutoLineReads(K, prefix, U, m, s);
    if line.Some? {
      OldValsAppend(K, prefix, lines, line.value);
    } else {
      assert lines + [] == lines;
    }
  }

  lemma {:induction false} AutoConfRemembers(K: Config, prefix: string, U: Users, m: Cache, n: nat)
    requires ConfigOk(K) && UserStateOk(K, U) && Solves(K, U, m) && NamesReadable(K, prefix) && n <= |K.definedSyms|
    ensures Remembers(K, U, m, OldVals(K, prefix, AutoConf(K, prefix, U, m, n)), n)
    ensures GoneNames(K, prefix, AutoConf(K, prefix, U, m, n)) == {}
  {
    hide ConfigOk, UserStateOk, Solves, NamesReadable, AutoLine, OldVals, GoneNames;
    if n == 0 {
      AutoConfEmpty(K, prefix, U, m);
    } else {
      AutoConfRemembers(K, prefix, U, m, n - 1);
      AutoConfStep(K, prefix, U, m, AutoConf(K, prefix, U, m, n - 1), n);
    }
  }

  lemma AutoLineIsOneLine(K: Config, prefix: string, U: Users, m: Cache, s: SymId)
    requires ConfigOk(K) && UserStateOk(K, U) && Solves(K, U, m) && NamesReadable(K, prefix) && OneLineVals(K, U, m)
    requires s in K.definedSyms && SymOk(K, s) && AutoLine(K, prefix, U, m, s).Some?
    ensures OneLine(AutoLine(K, prefix, U, m, s).value)
  {
    ValuesAreThere(K, U, m, s);
    SolutionKnows(K, U, m, StrOf(s));
    NameOfDefined(K, s);
    AutoLineReads(K, prefix, U, m, s);
    var d := K.syms[s];
    var val := GetS(m, StrOf(s)).value;
    assert OneLine(val);
    EscapeOneLine(val);
    assert OneLine("\"");
    hide ConfigOk, UserStateOk, Solves, NamesOk, OneLine, OneLineVals, Escape;
    OneLineConcat("\"", Escape(val));
    OneLineConcat("\"" + Escape(val), "\"");
    ConfLineIsOneLine(prefix, d.name, if d.origType == String then "\"" + Escape(val) + "\"" else val);
  }

  lemma {:induction false} AutoConfIsOneLine(K: Config, prefix: string, U: Users, m: Cache, n: nat)
    requires ConfigOk(K) && UserStateOk(K, U) && Solves(K, U, m) && NamesReadable(K, prefix) && OneLineVals(K, U, m)
    requires n <= |K.definedSyms|
    ensures forall i :: 0 <= i < |AutoConf(K, prefix, U, m, n)| ==> OneLine(AutoConf(K, prefix, U, m, n)[i])
  {
    if n == 0 {
    } else {
      var s := K.definedSyms[n - 1];
      AutoConfIsOneLine(K, prefix, U, m, n - 1);
      hide ConfigOk, UserStateOk, Solves, NamesReadable, OneLineVals, AutoLine, OneLine;
      if AutoLine(K, prefix, U, m, s).Some? { AutoLineIsOneLine(K, prefix, U, m, s); }
    }
  }

  /** The old values that the next sync will find. */
  function NextOldVals(K: Config, prefix: string, U: Users, m: Cache): map<SymId, string>
    requires ConfigOk(K)
  {
    OldVals(K, prefix, ReadLines(AutoText(K, prefix, U, m)))
  }

  /** Without line breaks in the values, the next sync finds what is remembered, and no names that are gone. */
  lemma OldValsReadBack(K: Config, prefix: string, U: Users, m: Cache)
    requires ConfigOk(K) && UserStateOk(K, U) && Solves(K, U, m) && NamesReadable(K, prefix) && OneLineVals(K, U, m)
    ensures Remembers(K, U, m, NextOldVals(K, prefix, U, m), |K.definedSyms|)
    ensures GoneNames(K, prefix, ReadLines(AutoText(K, prefix, U, m))) == {}
  {
    hide ConfigOk, UserStateOk, Solves, NamesReadable, OneLineVals, AutoConf, OldVals, GoneNames, OneLine, Remembers;
    AutoConfIsOneLine(K, prefix, U, m, |K.definedSyms|);
    LinesReadBack(AutoConf(K, prefix, U, m, |K.definedSyms|));
    AutoConfRemembers(K, prefix, U, m, |K.definedSyms|);
  }

  lemma SignalledMeans(K: Config, U: Users, m: Cache, s: SymId, oldVals: map<SymId, string>, prev: Option<string>)
    requires ConfigOk(K) && UserStateOk(K, U) && Solves(K, U, m) && SymOk(K, s)
    requires prev == if s in oldVals then Some(oldVals[s]) else None
    requires prev.Some? && Boolish(K.syms[s].origType) ==> prev.value != "n"
    ensures SignalledIn(K, U, m, s, oldVals) <==> RememberedIn(K, U, m, s) != prev
  {
    ValuesAreThere(K, U, m, s);
    SolutionKnows(K, U, m, StrOf(s));
  }

  /** A symbol is signalled exactly if what is remembered of it has changed. */
  lemma SignalledIffChanged(K: Config, prefix: string, U: Users, m: Cache, U': Users, m': Cache, s: SymId)
    requires ConfigOk(K) && UserStateOk(K, U) && Solves(K, U, m) && UserStateOk(K, U') && Solves(K, U', m')
    requires NamesReadable(K, prefix) && OneLineVals(K, U, m) && s in K.definedSyms && SymOk(K, s)
    ensures
      SignalledIn(K, U', m', s, NextOldVals(K, prefix, U, m)) <==> RememberedIn(K, U', m', s) != RememberedIn(K, U, m, s)
  {
    OldValsReadBack(K, prefix, U, m);
    assert K.definedSyms[..|K.definedSyms|] == K.definedSyms;
    hide ConfigOk, UserStateOk, Solves, NamesReadable, OneLineVals, NextOldVals, SignalledIn;
    SignalledMeans(K, U', m', s, NextOldVals(K, prefix, U, m), RememberedIn(K, U, m, s));
  }

  // Values with line breaks

  /** Whatever a line gives to a symbol is a part of the line. */
  lemma OldValIsOneLine(K: Config, prefix: string, line: string)
    requires DefinedSymsOk(K) && OneLine(line)
    ensures OldVal(K, prefix, line).Some? ==> OneLine(OldVal(K, prefix, line).value.1)
  {
    if OldVal(K, prefix, line).Some? {
      var (name, val) := MatchSet(prefix, line).value;
      assert forall c :: c in val ==> c in line;
      if MatchQuoted(val).Some? {
        var quoted := MatchQuoted(val).value;
        assert forall c :: c in quoted ==> c in val;
        UnescapeKeepsChars(quoted);
      }
    }
  }

  lemma {:induction false} OldValsAreOneLine(K: Config, prefix: string, lines: seq<string>)
    requires DefinedSymsOk(K) && forall i :: 0 <= i < |lines| ==> OneLine(lines[i])
    ensures forall s :: s in OldVals(K, prefix, lines) ==> OneLine(OldVals(K, prefix, lines)[s])
  {
    if lines == [] {
    } else {
      OldValsAreOneLine(K, prefix, lines[..|lines| - 1]);
      OldValIsOneLine(K, prefix, lines[|lines| - 1]);
    }
  }

  /** A symbol whose value has line breaks is signalled by every sync. */
  lemma BrokenIsSignalled(K: Config, prefix: string, U: Users, m: Cache, s: SymId, text: string)
    requires ConfigOk(K) && UserStateOk(K, U) && Solves(K, U, m) && SymOk(K, s)
    requires RememberedIn(K, U, m, s).Some? && !OneLine(RememberedIn(K, U, m, s).value)
    ensures SignalledIn(K, U, m, s, OldVals(K, prefix, ReadLines(text)))
  {
    var oldVals := OldVals(K, prefix, ReadLines(text));
    LinesAreOneLine(text);
    OldValsAreOneLine(K, prefix, ReadLines(text));
    ValuesAreThere(K, U, m, s);
    SolutionKnows(K, U, m, StrOf(s));
    assert !Boolish(K.syms[s].origType);
    hide ConfigOk, UserStateOk, Solves, OldVals, ReadLines;
    SignalledMeans(K, U, m, s, oldVals, if s in oldVals then Some(oldVals[s]) else None);
  }

  /** The header line of s in a state. */
  function HeaderIn(K: Config, prefix: string, U: Users, m: Cache, s: SymId): Option<string>
    requires ConfigOk(K) && SymOk(K, s)
  {
    var val :- GetS(m, StrOf(s));
    var write :- WriteToConf(K, U, m, s);
    HeaderLine(K, prefix, s, val, write)
  }

  lemma HeaderChanges(K: Config, prefix: string, U: Users, m: Cache, U': Users, m': Cache, s: SymId)
    requires ConfigOk(K) && UserStateOk(K, U) && Solves(K, U, m) && UserStateOk(K, U') && Solves(K, U', m') && SymOk(K, s)
    ensures
      var header := HeaderIn(K, prefix, U', m', s) != HeaderIn(K, prefix, U, m, s);
      var memory := RememberedIn(K, U', m', s) != RememberedIn(K, U, m, s);
      (header ==> memory) && (K.syms[s].origType != Hex ==> (memory ==> header))
  {
    ValuesAreThere(K, U, m, s);
    ValuesAreThere(K, U', m', s);
    SolutionKnows(K, U, m, StrOf(s));
    SolutionKnows(K, U', m', StrOf(s));
    hide ConfigOk, UserStateOk, Solves, HeaderLine, Remembered, WriteToConf;
    HeaderShowsRemembered(K, prefix, s, GetS(m, StrOf(s)).value, WriteToConf(K, U, m, s).value,
                          GetS(m', StrOf(s)).value, WriteToConf(K, U', m', s).value);
  }

  /**
   * No rebuild is missed: between two builds, a symbol whose line in autoconf.h differs
   * is touched; and what is touched differs, except for hex values that only differ in
   * whether they are written with 0x. The values of the first build must not have line
   * breaks; SyncGap has a rebuild that is missed because of one.
   */
  lemma NoRebuildIsMissed(K: Config, prefix: string, U: Users, m: Cache, U': Users, m': Cache, s: SymId)
    requires ConfigOk(K) && UserStateOk(K, U) && Solves(K, U, m) && UserStateOk(K, U') && Solves(K, U', m')
    requires NamesReadable(K, prefix) && OneLineVals(K, U, m) && s in K.definedSyms && SymOk(K, s)
    ensures
      var touched := Touched(K, prefix, U', m', ReadLines(AutoText(K, prefix, U, m)));
      var changed := HeaderIn(K, prefix, U', m', s) != HeaderIn(K, prefix, U, m, s);
      (changed ==> K.syms[s].name in touched) &&
      (K.syms[s].origType != Hex ==> (changed <==> K.syms[s].name in touched))
  {
    HeaderChanges(K, prefix, U, m, U', m', s);
    OldValsReadBack(K, prefix, U, m);
    SignalledIffChanged(K, prefix, U, m, U', m', s);
    assert NamesOk(K);
    hide ConfigOk, UserStateOk, Solves, AutoText, NextOldVals, OneLineVals, SignalledIn, SignalledNames, HeaderIn, RememberedIn;
    assert NextOldVals(K, prefix, U, m) == OldVals(K, prefix, ReadLines(AutoText(K, prefix, U, m))) by { NextOldValsAre(K, prefix, U, m); }
    NameIsTouched(K, U', m', NextOldVals(K, prefix, U, m), s);
  }

  lemma NextOldValsAre(K: Config, prefix: string, U: Users, m: Cache)
    requires ConfigOk(K)
    ensures NextOldVals(K, prefix, U, m) == OldVals(K, prefix, ReadLines(AutoText(K, prefix, U, m)))
  {
  }

  lemma {:induction false} SignalledAmong(K: Config, U: Users, m: Cache, oldVals: map<SymId, string>, n: nat, name: string)
    requires ConfigOk(K) && n <= |K.definedSyms|
    ensures name in SignalledNames(K, U, m, oldVals, n) <==>
      exists i :: 0 <= i < n && K.syms[K.definedSyms[i]].name == name && SignalledIn(K, U, m, K.definedSyms[i], oldVals)
  {
    if n == 0 {
    } else {
      SignalledAmong(K, U, m, oldVals, n - 1, name);
    }
  }

  lemma NameIsTouched(K: Config, U: Users, m: Cache, oldVals: map<SymId, string>, s: SymId)
    requires ConfigOk(K) && NamesOk(K) && s in K.definedSyms && SymOk(K, s)
    ensures K.syms[s].name in SignalledNames(K, U, m, oldVals, |K.definedSyms|) <==> SignalledIn(K, U, m, s, oldVals)
  {
    SignalledAmong(K, U, m, oldVals, |K.definedSyms|, K.syms[s].name);
    var i :| 0 <= i < |K.definedSyms| && K.definedSyms[i] == s;
  }

  /** A second sync without a change touches nothing, exactly if no value has line breaks. */
  lemma SecondSyncIsQuiet(K: Config, prefix: string, U: Users, m: Cache)
    requires ConfigOk(K) && UserStateOk(K, U) && Solves(K, U, m) && NamesReadable(K, prefix)
    ensures Touched(K, prefix, U, m, ReadLines(AutoText(K, prefix, U, m))) == {} <==> OneLineVals(K, U, m)
  {
    var oldVals := NextOldVals(K, prefix, U, m);
    if OneLineVals(K, U, m) {
      OldValsReadBack(K, prefix, U, m);
      forall i | 0 <= i < |K.definedSyms| ensures !SignalledIn(K, U, m, K.definedSyms[i], oldVals) {
        SignalledIffChanged(K, prefix, U, m, U, m, K.definedSyms[i]);
      }
      hide ConfigOk, Solves, UserStateOk, AutoText, OldVals, SignalledIn, SignalledNames, OneLineVals;
      forall name ensures name !in SignalledNames(K, U, m, oldVals, |K.definedSyms|) {
        SignalledAmong(K, U, m, oldVals, |K.definedSyms|, name);
      }
    } else {
      var s :| 0 <= s < |K.syms| && s in K.definedSyms && RememberedIn(K, U, m, s).Some? &&
        !OneLine(RememberedIn(K, U, m, s).value);
      BrokenIsSignalled(K, prefix, U, m, s, AutoText(K, prefix, U, m));
      assert NamesOk(K);
      hide ConfigOk, Solves, UserStateOk, AutoText, OldVals, SignalledIn, SignalledNames, OneLineVals;
      NameIsTouched(K, U, m, oldVals, s);
    }
  }
}
