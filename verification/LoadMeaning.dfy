/**
 * What a configuration file says, line by line of its text: the last line about a symbol
 * decides, each type has its own form of value, and lines of another form change nothing.
 */
module LoadMeaning {
  import opened Wrappers
  import opened Numerals
  import opened Config
  import opened Values
  import opened ConfText
  import opened ConfigFile
  import opened LoadLaws

  // Lines

  predicate Spaces(s: string) { forall i :: 0 <= i < |s| ==> IsSpace(s[i]) }

  predicate Trimmed(s: string) { s == "" || !IsSpace(s[|s| - 1]) }

  lemma {:induction false} StripsSpaces(body: string, space: string)
    requires Trimmed(body) && Spaces(space)
    ensures Rstrip(body + space) == body
  {
    if space == "" {
      assert body + space == body;
    } else {
      assert (body + space)[..|body + space| - 1] == body + space[..|space| - 1];
      StripsSpaces(body, space[..|space| - 1]);
    }
  }

  lemma {:induction false} StripsAtEnd(s: string)
    ensures StartsWith(s, Rstrip(s)) && Trimmed(Rstrip(s)) && Spaces(s[|Rstrip(s)|..])
  {
    if s != "" && IsSpace(s[|s| - 1]) {
      StripsAtEnd(s[..|s| - 1]);
      var r := Rstrip(s);
      assert s[..|r|] == s[..|s| - 1][..|r|];
      assert s[|r|..] == s[..|s| - 1][|r|..] + [s[|s| - 1]];
    }
  }

  /** A line that assigns to the symbol of this name, or says that it is not set. */
  predicate About(prefix: string, name: string, line: string) {
    StartsWith(line, prefix + name + "=") || StartsWith(line, "# " + prefix + name + NOT_SET)
  }

  lemma StartsTwice(s: string, r: string, p: string)
    requires StartsWith(s, r) && StartsWith(r, p)
    ensures StartsWith(s, p)
  {
    assert s[..|p|] == r[..|p|];
  }

  lemma SetIsAbout(prefix: string, line: string)
    ensures MatchSet(prefix, line).Some? ==>
      var (name, val) := MatchSet(prefix, line).value;
      line == prefix + name + "=" + val && StartsWith(line, prefix + name + "=") && '=' !in name
  {
    if MatchSet(prefix, line).Some? {
      var name, val := SetParts(prefix, line);
      hide MatchSet;
      assert line == (prefix + name + "=") + val;
    }
  }

  lemma SetParts(prefix: string, line: string) returns (name: string, val: string)
    requires MatchSet(prefix, line).Some?
    ensures MatchSet(prefix, line) == Some((name, val)) && '=' !in name && line == prefix + (name + "=" + val)
  {
    var rest := line[|prefix|..];
    FindBound(rest, '=');
    FindIsFirst(rest, '=');
    var n := Find(rest, '=');
    name, val := rest[..n], rest[n + 1..];
    assert rest == name + "=" + val;
    StartAndRest(line, prefix);
  }

  lemma UnsetIsAbout(prefix: string, line: string)
    ensures MatchUnset(prefix, line).Some? ==> StartsWith(line, "# " + prefix + MatchUnset(prefix, line).value + NOT_SET)
  {
    if MatchUnset(prefix, line).Some? {
      var name, more := UnsetParts(prefix, line);
      StartAndRest(more, NOT_SET);
      StartsInParts(line, "# " + prefix, name, NOT_SET, more[|NOT_SET|..]);
    }
  }

  lemma UnsetParts(prefix: string, line: string) returns (name: string, more: string)
    requires MatchUnset(prefix, line).Some?
    ensures StartsWith(line, "# " + prefix) && line[|"# " + prefix|..] == name + more
    ensures MatchUnset(prefix, line) == Some(name) && StartsWith(more, NOT_SET)
  {
    var rest := line[|prefix| + 2..];
    FindBound(rest, ' ');
    name, more := rest[..Find(rest, ' ')], rest[Find(rest, ' ')..];
    assert rest == name + more && |"# " + prefix| == |prefix| + 2;
  }

  lemma StartAndRest(s: string, p: string)
    requires StartsWith(s, p)
    ensures s == p + s[|p|..]
  {
    assert s == s[..|p|] + s[|p|..];
  }

  lemma StartsInParts(line: string, a: string, b: string, c: string, d: string)
    requires StartsWith(line, a) && line[|a|..] == b + (c + d)
    ensures StartsWith(line, a + b + c)
  {
    assert line == a + (b + (c + d));
    assert line == (a + b + c) + d;
  }

  /** The name that is read from a line is the one that the line is about. */
  lemma ParsedIsAbout(prefix: string, line: string)
    ensures match ParseLine(prefix, line)
      case SetLine(name, _) => About(prefix, name, line)
      case UnsetLine(name) => About(prefix, name, line)
      case OtherLine => true
  {
    var r := Rstrip(line);
    StripsAtEnd(line);
    SetIsAbout(prefix, r);
    UnsetIsAbout(prefix, r);
    hide Rstrip, MatchSet, MatchUnset, StartsWith;
    match ParseLine(prefix, line)
    case SetLine(name, _) => StartsTwice(line, r, prefix + name + "=");
    case UnsetLine(name) => StartsTwice(line, r, "# " + prefix + name + NOT_SET);
    case OtherLine =>
  }

  lemma OtherLines(K: Config, prefix: string, s: SymId, line: string)
    requires ConfigOk(K) && SymOk(K, s) && !About(prefix, K.syms[s].name, line)
    ensures Assignment(K, prefix, line).Some? ==> Assignment(K, prefix, line).value.0 != s
  {
    ParsedIsAbout(prefix, line);
    assert DefinedSymsOk(K);
    hide About, ParseLine, ConfigOk, DefinedSymsOk;
    match ParseLine(prefix, line)
    case SetLine(name, _) => LookupInRange(K, name, |K.definedSyms|);
    case UnsetLine(name) => LookupInRange(K, name, |K.definedSyms|);
    case OtherLine =>
  }

  // What a value says for each type

  /** q is the text t, in which a backslash may stand before any character and must before quotes and backslashes. */
  ghost predicate Escapes(q: string, t: string) {
    if q == "" then t == ""
    else if q[0] == '\\' then |q| >= 2 && q[1] != '\n' && t != "" && t[0] == q[1] && Escapes(q[2..], t[1..])
    else q[0] != '"' && t != "" && t[0] == q[0] && Escapes(q[1..], t[1..])
  }

  /** The value starts with a string literal for the text t. */
  ghost predicate Quotes(val: string, q: string, t: string) {
    StartsWith(val, "\"" + q + "\"") && Escapes(q, t)
  }

  lemma {:induction false} EscapedIsCaptured(q: string, t: string, rest: string)
    requires Escapes(q, t) && rest != "" && rest[0] == '"'
    ensures QuotedLength(q + rest) == |q| && Unescape(q) == t
  {
    if q == "" {
      assert q + rest == rest;
    } else if q[0] == '\\' {
      EscapedIsCaptured(q[2..], t[1..], rest);
      assert (q + rest)[2..] == q[2..] + rest;
      assert t == [t[0]] + t[1..];
    } else {
      EscapedIsCaptured(q[1..], t[1..], rest);
      assert (q + rest)[1..] == q[1..] + rest;
      assert t == [t[0]] + t[1..];
    }
  }

  lemma {:induction false} CapturedIsEscaped(v: string)
    ensures QuotedLength(v) <= |v| && Escapes(v[..QuotedLength(v)], Unescape(v[..QuotedLength(v)]))
  {
    QuotedLengthBound(v);
    if v == "" || v[0] == '"' {
    } else if v[0] != '\\' {
      CapturedIsEscaped(v[1..]);
      assert v[..QuotedLength(v)][1..] == v[1..][..QuotedLength(v[1..])];
    } else if |v| >= 2 && v[1] != '\n' {
      CapturedIsEscaped(v[2..]);
      assert v[..QuotedLength(v)][2..] == v[2..][..QuotedLength(v[2..])];
    }
  }

  lemma QuotedMeans(val: string, q: string, t: string)
    requires Quotes(val, q, t)
    ensures MatchQuoted(val) == Some(q) && Unescape(q) == t
  {
    var rest := "\"" + val[|q| + 2..];
    assert val == ("\"" + q + "\"") + val[|q| + 2..];
    assert val[1..] == q + rest;
    EscapedIsCaptured(q, t, rest);
    assert val[1..1 + |q|] == q;
  }

  lemma UnquotedMeans(val: string)
    requires MatchQuoted(val).Some?
    ensures Quotes(val, MatchQuoted(val).value, Unescape(MatchQuoted(val).value))
  {
    CapturedIsEscaped(val[1..]);
    var q := MatchQuoted(val).value;
    assert val[1..][..|q|] == q;
    assert val[..|q| + 2] == "\"" + q + "\"";
  }

  function First(val: string): char { if val == "" then ' ' else val[0] }

  function UserOf(U: Users, s: SymId): Option<UserVal> { if s in U.sym then Some(U.sym[s]) else None }

  /**
   * What a value in a file makes of the user value `was` of a symbol: the first character
   * decides for bool and tristate symbols, strings must be quoted, and numbers be numerals,
   * not negative for hex; anything else changes nothing.
   */
  ghost predicate SaysFor(K: Config, s: SymId, val: string, was: Option<UserVal>, now: Option<UserVal>)
    requires SymOk(K, s)
  {
    match K.syms[s].origType
    case Unknown => now == was
    case Bool =>
      && (First(val) == 'n' ==> now == Some(TriVal(0))) && (First(val) == 'y' ==> now == Some(TriVal(2)))
      && (First(val) !in "ny" ==> now == was)
    case Tristate =>
      && (First(val) == 'n' ==> now == Some(TriVal(0))) && (First(val) == 'm' ==> now == Some(TriVal(1)))
      && (First(val) == 'y' ==> now == Some(TriVal(2))) && (First(val) !in "nmy" ==> now == was)
    case String =>
      && (forall q, t :: Quotes(val, q, t) ==> now == Some(StrVal(t)))
      && ((forall q, t :: !Quotes(val, q, t)) ==> now == was)
    case Int => now == if exists n :: ParseInt(val, 10) == Some(n) then Some(StrVal(val)) else was
    case Hex => now == if exists n :: n >= 0 && ParseInt(val, 16) == Some(n) then Some(StrVal(val)) else was
  }

  /** A line that assigns val to the symbol of this name, with spaces at its end. */
  ghost predicate Assigns(prefix: string, name: string, val: string, line: string) {
    exists space :: Spaces(space) && Trimmed(val) && line == prefix + name + "=" + val + space
  }

  /** A line that says that the symbol of this name is not set, and is no assignment. */
  ghost predicate Unsets(prefix: string, name: string, line: string) {
    StartsWith(line, "# " + prefix + name + NOT_SET) && (!StartsWith(line, prefix) || '=' !in line)
  }

  lemma AssignsIsParsed(prefix: string, name: string, val: string, line: string)
    requires Assigns(prefix, name, val, line) && NameOk(name)
    ensures ParseLine(prefix, line) == SetLine(name, val)
  {
    var space :| Spaces(space) && Trimmed(val) && line == prefix + name + "=" + val + space;
    var body := prefix + name + "=" + val;
    assert body[|body| - 1] == if val == "" then '=' else val[|val| - 1];
    StripsSpaces(body, space);
    SetLineReads(prefix, name, val);
    RstripKeeps(body);
  }

  lemma UnsetMatches(prefix: string, name: string, line: string)
    requires StartsWith(line, "# " + prefix + name + NOT_SET) && NameOk(name)
    ensures MatchUnset(prefix, line) == Some(name)
  {
    var more := line[|prefix| + 2 + |name| + |NOT_SET|..];
    var rest := name + NOT_SET + more;
    assert line == "# " + prefix + name + NOT_SET + more;
    assert line[|prefix| + 2..] == rest && line[..|prefix| + 2] == "# " + prefix;
    assert NOT_SET == [' '] + "is not set";
    assert rest == name + [' '] + ("is not set" + more);
    FindAfter(name, ' ', "is not set" + more);
    assert rest[|name|..] == NOT_SET + more && rest[..|name|] == name;
  }

  lemma UnsetsIsParsed(prefix: string, name: string, line: string)
    requires Unsets(prefix, name, line) && NameOk(name)
    ensures ParseLine(prefix, line) == UnsetLine(name)
  {
    var r := Rstrip(line);
    StripsAtEnd(line);
    HeadIsKept(line, "# " + prefix + name + NOT_SET);
    UnsetMatches(prefix, name, r);
    if MatchSet(prefix, r).Some? { SetHasEqual(prefix, line, r); }
  }

  lemma SetHasEqual(prefix: string, line: string, r: string)
    requires StartsWith(line, r) && MatchSet(prefix, r).Some?
    ensures StartsWith(line, prefix) && '=' in line
  {
    var rest := r[|prefix|..];
    FindBound(rest, '=');
    StartsTwice(line, r, prefix);
    assert line[..|r|][|prefix| + Find(rest, '=')] == '=';
  }

  /** Stripping leaves a head that does not end in a space. */
  lemma {:induction false} HeadIsKept(line: string, head: string)
    requires StartsWith(line, head) && head != "" && !IsSpace(head[|head| - 1])
    ensures StartsWith(Rstrip(line), head)
  {
    if IsSpace(line[|line| - 1]) {
      assert |line| == |head| ==> line == head;
      var shorter := line[..|line| - 1];
      assert shorter[..|head|] == line[..|head|];
      HeadIsKept(shorter, head);
    }
  }

  // Whole files

  lemma ValueSays(K: Config, s: SymId, val: string, was: Option<UserVal>)
    requires SymOk(K, s)
    ensures
      var a := SetValueIn(K, s, val);
      (a.Some? ==> a.value.0 == s) &&
      SaysFor(K, s, val, was, if a.Some? && ValidUserVal(K, s, a.value.1) then Some(a.value.1) else was)
  {
    if K.syms[s].origType == String {
      forall q, t | Quotes(val, q, t) ensures MatchQuoted(val) == Some(q) && Unescape(q) == t { QuotedMeans(val, q, t); }
      if MatchQuoted(val).Some? { UnquotedMeans(val); }
    }
  }

  /** No line is about the symbol. */
  predicate Silent(K: Config, prefix: string, s: SymId, lines: seq<string>)
    requires SymOk(K, s)
  {
    forall i :: 0 <= i < |lines| ==> !About(prefix, K.syms[s].name, lines[i])
  }

  lemma {:induction false} SilentLines(K: Config, prefix: string, s: SymId, lines: seq<string>, more: seq<string>)
    requires ConfigOk(K) && SymOk(K, s) && Silent(K, prefix, s, more)
    ensures SymIn(K, prefix, lines + more, s) == SymIn(K, prefix, lines, s)
    decreases |more|
  {
    if more == [] {
      assert lines + more == lines;
    } else {
      var all := lines + more;
      OtherLines(K, prefix, s, more[|more| - 1]);
      assert all[..|all| - 1] == lines + more[..|more| - 1];
      SilentLines(K, prefix, s, lines, more[..|more| - 1]);
    }
  }

  lemma SymbolOfName(K: Config, s: SymId)
    requires ConfigOk(K) && NamesOk(K) && s in K.definedSyms
    ensures SymOk(K, s) && NameOk(K.syms[s].name) && Lookup(K, K.syms[s].name, |K.definedSyms|) == Some(s)
  {
    var i :| 0 <= i < |K.definedSyms| && K.definedSyms[i] == s;
    LookupFinds(K, i, |K.definedSyms|);
  }

  /** What the file leaves as the user value of s, when it replaces a configuration. */
  function LoadedVal(K: Config, prefix: string, U: Users, lines: seq<string>, s: SymId): Option<UserVal>
    requires ConfigOk(K)
  {
    UserOf(Loaded(K, prefix, U, lines), s)
  }

  lemma LoadedIsIn(K: Config, prefix: string, U: Users, lines: seq<string>, s: SymId)
    requires ConfigOk(K) && s in K.definedSyms && SymOk(K, s)
    ensures LoadedVal(K, prefix, U, lines, s) == SymIn(K, prefix, lines, s)
  {
    LoadedSyms(K, prefix, U, lines, s);
  }

  /** A symbol that the file says nothing about has no user value afterwards. */
  lemma SilentFile(K: Config, prefix: string, U: Users, lines: seq<string>, s: SymId)
    requires ConfigOk(K) && s in K.definedSyms && SymOk(K, s) && Silent(K, prefix, s, lines)
    ensures LoadedVal(K, prefix, U, lines, s) == None
  {
    LoadedIsIn(K, prefix, U, lines, s);
    SilentLines(K, prefix, s, [], lines);
    assert [] + lines == lines;
  }

  /** The last line that assigns to a symbol decides, as far as it has the form that the type asks for. */
  lemma LastAssignmentDecides(
    K: Config, prefix: string, U: Users, before: seq<string>, line: string, after: seq<string>, s: SymId, val: string)
    requires ConfigOk(K) && NamesOk(K) && s in K.definedSyms && SymOk(K, s)
    requires Assigns(prefix, K.syms[s].name, val, line) && Silent(K, prefix, s, after)
    ensures SaysFor(K, s, val, LoadedVal(K, prefix, U, before, s), LoadedVal(K, prefix, U, before + [line] + after, s))
  {
    SymbolOfName(K, s);
    AssignsIsParsed(prefix, K.syms[s].name, val, line);
    ValueSays(K, s, val, SymIn(K, prefix, before, s));
    LoadedIsIn(K, prefix, U, before, s);
    LoadedIsIn(K, prefix, U, before + [line] + after, s);
    SilentLines(K, prefix, s, before + [line], after);
    assert (before + [line])[..|before|] == before;
    hide SaysFor, Assigns, Silent, LoadedVal, SetValueIn, ParseLine, ValidUserVal, ConfigOk;
  }

  /** A last line that says that a symbol is not set makes a bool or tristate symbol n, and nothing of others. */
  lemma LastUnsetDecides(
    K: Config, prefix: string, U: Users, before: seq<string>, line: string, after: seq<string>, s: SymId)
    requires ConfigOk(K) && NamesOk(K) && s in K.definedSyms && SymOk(K, s)
    requires Unsets(prefix, K.syms[s].name, line) && Silent(K, prefix, s, after)
    ensures LoadedVal(K, prefix, U, before + [line] + after, s) ==
      if Boolish(K.syms[s].origType) then Some(TriVal(0)) else LoadedVal(K, prefix, U, before, s)
  {
    SymbolOfName(K, s);
    UnsetsIsParsed(prefix, K.syms[s].name, line);
    LoadedIsIn(K, prefix, U, before, s);
    LoadedIsIn(K, prefix, U, before + [line] + after, s);
    SilentLines(K, prefix, s, before + [line], after);
    assert (before + [line])[..|before|] == before;
    hide Unsets, Silent, LoadedVal, ParseLine, ConfigOk;
  }

  /** Merging a file leaves the user values of the symbols that it says nothing about. */
  lemma SilentMerge(K: Config, prefix: string, U: Users, lines: seq<string>, s: SymId)
    requires ConfigOk(K) && SymOk(K, s) && Silent(K, prefix, s, lines)
    ensures UserOf(LoadLines(K, prefix, Loading(U, {}), lines).users, s) == UserOf(U, s)
  {
    LinesLoad(K, prefix, U, lines);
    SilentLines(K, prefix, s, [], lines);
    assert [] + lines == lines;
  }

  // Choices

  predicate SilentOnChoice(K: Config, prefix: string, c: ChoiceId, lines: seq<string>) {
    forall t :: 0 <= t < |K.syms| && InChoice(K, t, c) ==> Silent(K, prefix, t, lines)
  }

  lemma {:induction false} SilentChoice(K: Config, prefix: string, c: ChoiceId, lines: seq<string>, more: seq<string>)
    requires ConfigOk(K) && c < |K.choices| && SilentOnChoice(K, prefix, c, more)
    ensures PickIn(K, prefix, lines + more, c) == PickIn(K, prefix, lines, c)
    ensures ModeIn(K, prefix, lines + more, c) == ModeIn(K, prefix, lines, c)
    decreases |more|
  {
    if more == [] {
      assert lines + more == lines;
    } else {
      var all, last := lines + more, more[|more| - 1];
      AssignmentOk(K, prefix, last);
      if Assignment(K, prefix, last).Some? && InChoice(K, Assignment(K, prefix, last).value.0, c) {
        OtherLines(K, prefix, Assignment(K, prefix, last).value.0, last);
      }
      assert all[..|all| - 1] == lines + more[..|more| - 1];
      SilentChoice(K, prefix, c, lines, more[..|more| - 1]);
    }
  }

  /** A choice has no mode and no selection after a file that says nothing about its symbols. */
  lemma SilentFileOnChoice(K: Config, prefix: string, U: Users, lines: seq<string>, c: ChoiceId)
    requires ConfigOk(K) && c < |K.choices| && SilentOnChoice(K, prefix, c, lines)
    ensures UserPick(Loaded(K, prefix, U, lines), c) == None && UserMode(Loaded(K, prefix, U, lines), c) == None
  {
    LoadedChoices(K, prefix, U, lines, c);
    SilentChoice(K, prefix, c, [], lines);
    assert [] + lines == lines;
  }

  /**
   * The last line about the symbols of a choice that assigns y to one of them makes that one the
   * selection and sets y mode; one that assigns m sets m mode for a tristate choice.
   */
  lemma LastMemberDecides(
    K: Config, prefix: string, U: Users, before: seq<string>, line: string, after: seq<string>, s: SymId, val: string, c: ChoiceId)
    requires ConfigOk(K) && NamesOk(K) && s in K.definedSyms && SymOk(K, s) && K.syms[s].choice == Some(c)
    requires Boolish(K.syms[s].origType) && c < |K.choices| && Boolish(K.choices[c].origType)
    requires Assigns(prefix, K.syms[s].name, val, line) && SilentOnChoice(K, prefix, c, after)
    ensures First(val) == 'y' ==>
      var U' := Loaded(K, prefix, U, before + [line] + after);
      c in U'.pick && U'.pick[c] == s && c in U'.mode && U'.mode[c] == 2
    ensures First(val) == 'm' && K.syms[s].origType == Tristate && K.choices[c].origType == Tristate ==>
      var U' := Loaded(K, prefix, U, before + [line] + after);
      c in U'.mode && U'.mode[c] == 1
  {
    SymbolOfName(K, s);
    AssignsIsParsed(prefix, K.syms[s].name, val, line);
    LoadedChoices(K, prefix, U, before + [line] + after, c);
    SilentChoice(K, prefix, c, before + [line], after);
    LastLine(K, prefix, before, line, c);
    hide Assigns, SilentOnChoice, Loaded, ParseLine, ConfigOk, PickIn, ModeIn;
  }
}
