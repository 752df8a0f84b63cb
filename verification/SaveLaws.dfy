/**
 * Saving and loading: replacing any configuration by a saved one gives every symbol
 * the value it had, and saving again gives the same text.
 */
module SaveLaws {
  import opened Wrappers
  import opened Config
  import opened Values
  import opened Meaning
  import opened Invalidation
  import opened ValueLaws
  import opened Reload
  import opened ConfText
  import opened ConfigFile
  import opened LoadLaws

  /** What the text format needs: plain names, and numbers without white space at their end. */
  ghost predicate Writable(K: Config, prefix: string, m: Cache)
    requires ConfigOk(K)
  {
    && NamesOk(K) && '=' !in prefix && OneLine(prefix)
    && forall s :: 0 <= s < |K.syms| ==> GetS(m, StrOf(s)).Some? && TextOk(K, s, GetS(m, StrOf(s)).value)
  }

  predicate TextOk(K: Config, s: SymId, val: string)
    requires SymOk(K, s)
  {
    OneLine(val) && (Numeric(K.syms[s].origType) ==> val == "" || !IsSpace(val[|val| - 1]))
  }

  /** Symbols that take their value from the environment have no prompt that could override it. */
  ghost predicate AllSaved(K: Config) {
    forall s :: 0 <= s < |K.syms| && HasPrompt(K.syms[s].prompts) ==> !K.syms[s].fromEnv && K.defconfigList != Some(s)
  }

  /** The value of a symbol in the form of a user value. */
  function AsUserVal(K: Config, m: Cache, s: SymId): Option<UserVal>
    requires SymOk(K, s)
  {
    if Boolish(K.syms[s].origType) then
      var t :- GetT(m, TriOf(s));
      Some(TriVal(t))
    else
      var str :- GetS(m, StrOf(s));
      Some(StrVal(str))
  }

  /** What loading the line of s assigns to it. */
  ghost function SavedVal(K: Config, U: Users, m: Cache, s: SymId): Option<UserVal>
    requires ConfigOk(K) && SymOk(K, s)
  {
    if WriteToConf(K, U, m, s) == Some(true) && AsUserVal(K, m, s).Some? &&
       ValidUserVal(K, s, AsUserVal(K, m, s).value)
    then AsUserVal(K, m, s)
    else None
  }

  lemma ValuesAreThere(K: Config, U: Users, m: Cache, s: SymId)
    requires ConfigOk(K) && UserStateOk(K, U) && Solves(K, U, m) && SymOk(K, s)
    ensures AsUserVal(K, m, s).Some? && WriteToConf(K, U, m, s).Some? && GetT(m, Vis(Sym(s))).Some?
    ensures Boolish(K.syms[s].origType) ==> GetS(m, StrOf(s)) == Some(TriToStr(GetT(m, TriOf(s)).value))
  {
    SolutionKnows(K, U, m, TriOf(s));
    SolutionKnows(K, U, m, StrOf(s));
    SolutionKnows(K, U, m, Vis(Sym(s)));
    SolutionKnows(K, U, m, WriteOf(s));
  }

  lemma BoolNeverM(K: Config, U: Users, m: Cache, s: SymId)
    requires ConfigOk(K) && UserStateOk(K, U) && Solves(K, U, m) && SymOk(K, s) && K.syms[s].origType == Bool
    ensures GetT(m, TriOf(s)) != Some(1)
  {
    SolutionKnows(K, U, m, TriOf(s));
    BoolSymVisible(K, U, m, s);
    assert SymDefOk(K, s);
  }

  lemma NameOfDefined(K: Config, s: SymId)
    requires ConfigOk(K) && NamesOk(K) && s in K.definedSyms && SymOk(K, s)
    ensures NameOk(K.syms[s].name) && Lookup(K, K.syms[s].name, |K.definedSyms|) == Some(s)
  {
    var i :| 0 <= i < |K.definedSyms| && K.definedSyms[i] == s;
    LookupFinds(K, i, |K.definedSyms|);
  }

  predicate Named(K: Config, prefix: string, s: SymId)
    requires DefinedSymsOk(K) && SymOk(K, s)
  {
    && NameOk(K.syms[s].name) && Lookup(K, K.syms[s].name, |K.definedSyms|) == Some(s)
    && '=' !in prefix && OneLine(prefix)
  }

  lemma OneLineConcat(a: string, b: string)
    requires OneLine(a) && OneLine(b)
    ensures OneLine(a + b)
  {
  }

  lemma ConfLineIsOneLine(prefix: string, name: string, val: string)
    requires OneLine(prefix) && OneLine(name) && OneLine(val)
    ensures OneLine("# " + prefix + name + NOT_SET) && OneLine(prefix + name + "=" + val)
  {
    assert OneLine("# ") && OneLine(NOT_SET) && OneLine("=");
    hide OneLine;
    OneLineConcat("# ", prefix);
    OneLineConcat("# " + prefix, name);
    OneLineConcat("# " + prefix + name, NOT_SET);
    OneLineConcat(prefix, name);
    OneLineConcat(prefix + name, "=");
    OneLineConcat(prefix + name + "=", val);
  }

  lemma TriLineReads(K: Config, prefix: string, s: SymId, t: Tri)
    requires DefinedSymsOk(K) && SymOk(K, s) && Named(K, prefix, s) && Boolish(K.syms[s].origType)
    requires K.syms[s].origType == Bool ==> t != 1
    ensures
      var line := ConfLine(K, prefix, s, TriToStr(t), true);
      line.Some? && OneLine(line.value) && Assignment(K, prefix, line.value) == Some((s, TriVal(t)))
  {
    var name := K.syms[s].name;
    var val := TriToStr(t);
    assert OneLine(val) && !IsSpace(val[|val| - 1]);
    hide DefinedSymsOk, ParseLine, Lookup, IsSpace, OneLine;
    ConfLineIsOneLine(prefix, name, val);
    if t == 0 {
      UnsetLineReads(prefix, name);
    } else {
      SetLineReads(prefix, name, val);
    }
  }

  lemma TextLineReads(K: Config, prefix: string, s: SymId, val: string)
    requires DefinedSymsOk(K) && SymOk(K, s) && Named(K, prefix, s) && K.syms[s].origType == String && OneLine(val)
    ensures
      var line := ConfLine(K, prefix, s, val, true);
      line.Some? && OneLine(line.value) && Assignment(K, prefix, line.value) == Some((s, StrVal(val)))
  {
    var name := K.syms[s].name;
    var quoted := "\"" + Escape(val) + "\"";
    assert quoted[|quoted| - 1] == '"' && !IsSpace('"');
    assert OneLine("\"");
    hide DefinedSymsOk, ParseLine, Lookup, IsSpace, OneLine, MatchQuoted, Unescape, Escape;
    EscapeOneLine(val);
    OneLineConcat("\"", Escape(val));
    OneLineConcat("\"" + Escape(val), "\"");
    ConfLineIsOneLine(prefix, name, quoted);
    SetLineReads(prefix, name, quoted);
    QuotedCapturesEscape(val, "");
    assert quoted + "" == quoted;
    UnescapeEscape(val);
  }

  lemma NumLineReads(K: Config, prefix: string, s: SymId, val: string)
    requires DefinedSymsOk(K) && SymOk(K, s) && Named(K, prefix, s) && Numeric(K.syms[s].origType) && TextOk(K, s, val)
    ensures
      var line := ConfLine(K, prefix, s, val, true);
      line.Some? && OneLine(line.value) && Assignment(K, prefix, line.value) == Some((s, StrVal(val)))
  {
    var name := K.syms[s].name;
    assert OneLine(val) && (val == "" || !IsSpace(val[|val| - 1]));
    hide DefinedSymsOk, ParseLine, Lookup, IsSpace, OneLine;
    ConfLineIsOneLine(prefix, name, val);
    SetLineReads(prefix, name, val);
  }

  /** The line of a symbol is read back as an assignment of its value to it. */
  lemma LineReads(K: Config, prefix: string, U: Users, m: Cache, s: SymId)
    requires ConfigOk(K) && UserStateOk(K, U) && Solves(K, U, m) && Writable(K, prefix, m)
    requires s in K.definedSyms && SymOk(K, s) && SymLine(K, prefix, U, m, s).Some?
    ensures AsUserVal(K, m, s).Some?
    ensures Assignment(K, prefix, SymLine(K, prefix, U, m, s).value) == Some((s, AsUserVal(K, m, s).value))
    ensures OneLine(SymLine(K, prefix, U, m, s).value)
  {
    NameOfDefined(K, s);
    ValuesAreThere(K, U, m, s);
    assert TextOk(K, s, GetS(m, StrOf(s)).value);
    hide ConfigOk, Solves, UserStateOk, NamesOk, TextOk, NameOk, Lookup, OneLine;
    if K.syms[s].origType == Bool { BoolNeverM(K, U, m, s); }
    match K.syms[s].origType
    case Unknown =>
    case Bool => TriLineReads(K, prefix, s, GetT(m, TriOf(s)).value);
    case Tristate => TriLineReads(K, prefix, s, GetT(m, TriOf(s)).value);
    case String => TextIsOneLine(K, s, GetS(m, StrOf(s)).value); TextLineReads(K, prefix, s, GetS(m, StrOf(s)).value);
    case Int => NumLineReads(K, prefix, s, GetS(m, StrOf(s)).value);
    case Hex => NumLineReads(K, prefix, s, GetS(m, StrOf(s)).value);
  }

  lemma TextIsOneLine(K: Config, s: SymId, val: string)
    requires SymOk(K, s) && TextOk(K, s, val)
    ensures OneLine(val)
  {
  }

  lemma {:induction false} EscapeOneLine(s: string)
    requires OneLine(s)
    ensures OneLine(Escape(s))
  {
    if s == "" {
    } else {
      assert s == [s[0]] + s[1..];
      EscapeCons(s[0], s[1..]);
      EscapeOneLine(s[1..]);
    }
  }

  // Files that record the values of a set of symbols

  ghost predicate RecordsSyms(K: Config, prefix: string, U: Users, m: Cache, lines: seq<string>, done: set<SymId>)
    requires ConfigOk(K)
  {
    forall s :: 0 <= s < |K.syms| ==> SymIn(K, prefix, lines, s) == if s in done then SavedVal(K, U, m, s) else None
  }

  /** Whether a symbol of c among those in done has the value t. */
  ghost predicate HasMember(K: Config, m: Cache, c: ChoiceId, done: set<SymId>, t: Tri) {
    exists s :: s in done && InChoice(K, s, c) && GetT(m, TriOf(s)) == Some(t)
  }

  /** The mode that the values of the symbols in done show for choice c. */
  ghost function SavedMode(K: Config, m: Cache, c: ChoiceId, done: set<SymId>): Option<Tri>
    requires c < |K.choices|
  {
    if HasMember(K, m, c, done, 2) then Some(2)
    else if K.choices[c].origType == Tristate && HasMember(K, m, c, done, 1) then Some(1)
    else None
  }

  /** The only symbol of a choice that is set to y is its selection; the mode is the one that the symbols show. */
  ghost predicate RecordsChoices(K: Config, prefix: string, U: Users, m: Cache, lines: seq<string>, done: set<SymId>)
    requires ConfigOk(K)
  {
    forall c :: 0 <= c < |K.choices| ==> RecordsChoice(K, prefix, m, lines, done, c)
  }

  ghost predicate RecordsChoice(K: Config, prefix: string, m: Cache, lines: seq<string>, done: set<SymId>, c: ChoiceId)
    requires ConfigOk(K) && c < |K.choices|
  {
    && (PickIn(K, prefix, lines, c).Some? ==>
          PickIn(K, prefix, lines, c).value in done && GetP(m, Sel(c)) == Some(PickIn(K, prefix, lines, c)))
    && (forall t :: t in done && GetP(m, Sel(c)) == Some(Some(t)) ==> PickIn(K, prefix, lines, c) == Some(t))
    && ModeIn(K, prefix, lines, c) == SavedMode(K, m, c, done)
  }

  ghost predicate Records(K: Config, prefix: string, U: Users, m: Cache, lines: seq<string>, done: set<SymId>)
    requires ConfigOk(K)
  {
    RecordsSyms(K, prefix, U, m, lines, done) && RecordsChoices(K, prefix, U, m, lines, done)
  }

  /** A line that assigns nothing. */
  predicate IsComment(K: Config, prefix: string, line: string)
    requires DefinedSymsOk(K)
  {
    Assignment(K, prefix, line).None? && OneLine(line)
  }

  lemma CommentRecords(
    K: Config, prefix: string, U: Users, m: Cache, lines: seq<string>, done: set<SymId>, line: string)
    requires ConfigOk(K) && Records(K, prefix, U, m, lines, done) && IsComment(K, prefix, line)
    ensures Records(K, prefix, U, m, lines + [line], done)
  {
    var all := lines + [line];
    assert all[..|all| - 1] == lines && all[|all| - 1] == line;
    forall c | 0 <= c < |K.choices| ensures RecordsChoice(K, prefix, m, all, done, c) {
      assert RecordsChoice(K, prefix, m, lines, done, c);
    }
  }

  lemma NoSelectionOutsideYMode(K: Config, U: Users, m: Cache, c: ChoiceId)
    requires ConfigOk(K) && UserStateOk(K, U) && Solves(K, U, m) && c < |K.choices|
    ensures GetP(m, Sel(c)).Some? && ChoiceTri(K, U, m, c).Some?
    ensures ChoiceTri(K, U, m, c) != Some(2) ==> GetP(m, Sel(c)) == Some(None)
  {
    SolutionKnows(K, U, m, Sel(c));
    ModeKnown(K, U, m, c);
  }

  /** A choice symbol is y exactly if it is the selection, and m only outside y mode; then it is written. */
  lemma OnlySelectionIsY(K: Config, U: Users, m: Cache, s: SymId, c: ChoiceId)
    requires ConfigOk(K) && UserStateOk(K, U) && Solves(K, U, m) && PlainChoices(K) && InChoice(K, s, c) && c < |K.choices|
    ensures GetT(m, TriOf(s)).Some? && GetP(m, Sel(c)).Some? && ChoiceTri(K, U, m, c).Some?
    ensures GetT(m, TriOf(s)) == Some(2) <==> GetP(m, Sel(c)) == Some(Some(s))
    ensures GetT(m, TriOf(s)) == Some(2) ==> ChoiceTri(K, U, m, c) == Some(2)
    ensures GetT(m, TriOf(s)) == Some(1) ==> ChoiceTri(K, U, m, c) != Some(2)
    ensures GetT(m, TriOf(s)) != Some(0) ==> WriteToConf(K, U, m, s) == Some(true)
  {
    assert SymDefOk(K, s) && OwnsSyms(K, c);
    ChoiceModes(K, U, m, c, s);
    NoSelectionOutsideYMode(K, U, m, c);
    InvisibleIsN(K, U, m, s, c);
    hide ConfigOk, Solves, UserStateOk, PlainChoices, ChoiceTri, SymDefOk;
  }

  lemma InvisibleIsN(K: Config, U: Users, m: Cache, s: SymId, c: ChoiceId)
    requires ConfigOk(K) && Solves(K, U, m) && PlainChoices(K) && InChoice(K, s, c) && c < |K.choices|
    ensures GetT(m, TriOf(s)) != Some(0) ==> WriteToConf(K, U, m, s) == Some(true)
  {
    SolutionKnows(K, U, m, TriOf(s));
    SolutionKnows(K, U, m, Vis(Sym(s)));
    assert SymDefOk(K, s) && !K.syms[s].isConst;
    hide ConfigOk, Solves, PlainChoices, SymDefOk, PlainTri;
  }

  lemma SelectionIsOwn(K: Config, U: Users, m: Cache, c: ChoiceId, t: SymId)
    requires ConfigOk(K) && UserStateOk(K, U) && Solves(K, U, m) && PlainChoices(K) && c < |K.choices|
    requires GetP(m, Sel(c)) == Some(Some(t))
    ensures InChoice(K, t, c)
  {
    assert ChoiceDefOk(K, c);
    SolutionKnows(K, U, m, Sel(c));
    ModeKnown(K, U, m, c);
    if ChoiceTri(K, U, m, c) == Some(2) { SelectionInYMode(K, U, m, c); }
    assert OwnsSyms(K, c);
  }

  lemma SymLineRecordsSyms(K: Config, prefix: string, U: Users, m: Cache, lines: seq<string>, done: set<SymId>, s: SymId)
    requires ConfigOk(K) && UserStateOk(K, U) && Solves(K, U, m) && Writable(K, prefix, m)
    requires s in K.definedSyms && SymOk(K, s) && s !in done && RecordsSyms(K, prefix, U, m, lines, done)
    ensures
      var line := SymLine(K, prefix, U, m, s);
      RecordsSyms(K, prefix, U, m, if line.Some? then lines + [line.value] else lines, done + {s})
  {
    var line := SymLine(K, prefix, U, m, s);
    if line.Some? {
      LineReads(K, prefix, U, m, s);
      LineSaves(K, prefix, U, m, s);
      hide ConfigOk, UserStateOk, Solves, Writable, SymLine, RecordsSyms, SavedVal, AsUserVal, Assignment;
      LineRecords(K, prefix, U, m, lines, done, line.value, s, AsUserVal(K, m, s).value);
    } else {
      LineSaves(K, prefix, U, m, s);
      hide ConfigOk, UserStateOk, Solves, Writable, SymLine, SavedVal, SymIn;
    }
  }

  lemma LineSaves(K: Config, prefix: string, U: Users, m: Cache, s: SymId)
    requires ConfigOk(K) && UserStateOk(K, U) && Solves(K, U, m) && SymOk(K, s)
    ensures AsUserVal(K, m, s).Some?
    ensures SavedVal(K, U, m, s) ==
      if SymLine(K, prefix, U, m, s).Some? && ValidUserVal(K, s, AsUserVal(K, m, s).value) then AsUserVal(K, m, s) else None
  {
    ValuesAreThere(K, U, m, s);
    SolutionKnows(K, U, m, StrOf(s));
    hide ConfigOk, UserStateOk, Solves, ValidUserVal, WriteToConf;
  }

  lemma LineRecords(
    K: Config, prefix: string, U: Users, m: Cache, lines: seq<string>, done: set<SymId>, line: string, s: SymId, v: UserVal)
    requires ConfigOk(K) && SymOk(K, s) && s !in done && RecordsSyms(K, prefix, U, m, lines, done)
    requires SavedVal(K, U, m, s) == if ValidUserVal(K, s, v) then Some(v) else None
    requires Assignment(K, prefix, line) == Some((s, v))
    ensures RecordsSyms(K, prefix, U, m, lines + [line], done + {s})
  {
    var all := lines + [line];
    assert all[..|all| - 1] == lines && all[|all| - 1] == line;
    hide ConfigOk, Assignment, ValidUserVal, SavedVal;
  }

  lemma SymLineRecordsChoice(
    K: Config, prefix: string, U: Users, m: Cache, lines: seq<string>, done: set<SymId>, s: SymId)
    requires ConfigOk(K) && UserStateOk(K, U) && Solves(K, U, m) && Writable(K, prefix, m) && PlainChoices(K)
    requires s in K.definedSyms && SymOk(K, s) && s !in done && RecordsChoices(K, prefix, U, m, lines, done)
    ensures
      var line := SymLine(K, prefix, U, m, s);
      RecordsChoices(K, prefix, U, m, if line.Some? then lines + [line.value] else lines, done + {s})
  {
    ValuesAreThere(K, U, m, s);
    SolutionKnows(K, U, m, StrOf(s));
    assert SymDefOk(K, s);
    var line := SymLine(K, prefix, U, m, s);
    var all := if line.Some? then lines + [line.value] else lines;
    if line.Some? { LineReads(K, prefix, U, m, s); }
    forall c | 0 <= c < |K.choices| ensures RecordsChoice(K, prefix, m, all, done + {s}, c) {
      if line.Some? {
        LastLine(K, prefix, lines, line.value, c);
      }
      SymLineRecordsOneChoice(K, prefix, U, m, lines, done, s, c, all);
    }
  }

  lemma SymLineRecordsOneChoice(
    K: Config, prefix: string, U: Users, m: Cache, lines: seq<string>, done: set<SymId>, s: SymId, c: ChoiceId,
    all: seq<string>)
    requires ConfigOk(K) && UserStateOk(K, U) && Solves(K, U, m) && PlainChoices(K) && c < |K.choices|
    requires SymOk(K, s) && s !in done && RecordsChoice(K, prefix, m, lines, done, c)
    requires AsUserVal(K, m, s).Some?
    requires all == lines ==> WriteToConf(K, U, m, s) != Some(true)
    requires all != lines ==>
      var v := AsUserVal(K, m, s).value;
      && PickIn(K, prefix, all, c) == (if Picks(K, s, v, c) then Some(s) else PickIn(K, prefix, lines, c))
      && ModeIn(K, prefix, all, c) == if SetsMode(K, s, v, c) then Some(v.t) else ModeIn(K, prefix, lines, c)
    ensures RecordsChoice(K, prefix, m, all, done + {s}, c)
  {
    assert Boolish(K.choices[c].origType);
    if InChoice(K, s, c) {
      OnlySelectionIsY(K, U, m, s, c);
      MemberAdds(K, U, m, c, done, s);
    } else {
      if GetP(m, Sel(c)) == Some(Some(s)) { SelectionIsOwn(K, U, m, c, s); }
      OtherAddsNothing(K, m, c, done, s);
    }
  }

  lemma OtherAddsNothing(K: Config, m: Cache, c: ChoiceId, done: set<SymId>, s: SymId)
    requires c < |K.choices| && !InChoice(K, s, c)
    ensures SavedMode(K, m, c, done + {s}) == SavedMode(K, m, c, done)
  {
  }

  /** One more symbol of the choice: y and m do not occur together. */
  lemma MemberAdds(K: Config, U: Users, m: Cache, c: ChoiceId, done: set<SymId>, s: SymId)
    requires ConfigOk(K) && UserStateOk(K, U) && Solves(K, U, m) && PlainChoices(K) && c < |K.choices| && InChoice(K, s, c)
    ensures GetT(m, TriOf(s)).Some?
    ensures SavedMode(K, m, c, done + {s}) ==
      var t := GetT(m, TriOf(s)).value;
      if t == 2 || (t == 1 && K.choices[c].origType == Tristate) then Some(t) else SavedMode(K, m, c, done)
  {
    OnlySelectionIsY(K, U, m, s, c);
    if GetT(m, TriOf(s)) == Some(1) && HasMember(K, m, c, done, 2) {
      var y :| y in done && InChoice(K, y, c) && GetT(m, TriOf(y)) == Some(2);
      OnlySelectionIsY(K, U, m, y, c);
    }
    hide ConfigOk, UserStateOk, Solves, PlainChoices, WriteToConf, ChoiceTri;
  }
}
