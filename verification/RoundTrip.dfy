/** The round trips of configuration files: full and minimal configurations. */
module RoundTrip {
  import opened Wrappers
  import opened Config
  import opened Values
  import opened Reads
  import opened Meaning
  import opened Deps
  import opened Invalidation
  import opened ValueLaws
  import opened AssignLaws
  import opened Reload
  import opened ConfText
  import opened ConfigFile
  import opened LoadLaws
  import opened SaveLaws

  // What a full configuration records

  /** The header and the titles of menus and comments do not look like assignments. */
  predicate CommentsOk(K: Config, prefix: string, header: seq<string>, walk: seq<Entry>)
    requires DefinedSymsOk(K)
  {
    && (forall i :: 0 <= i < |header| ==> IsComment(K, prefix, header[i]))
    && (forall i :: 0 <= i < |walk| ==> TitleOk(K, prefix, walk[i]))
  }

  predicate TitleOk(K: Config, prefix: string, e: Entry)
    requires DefinedSymsOk(K)
  {
    match e
    case SymNode(_) => true
    case HeadNode(_, title, _, _) => IsComment(K, prefix, "# " + title)
    case MenuEnd(title, _, _) => IsComment(K, prefix, "# end of " + title)
  }

  lemma {:induction false} HeaderRecords(K: Config, prefix: string, U: Users, m: Cache, header: seq<string>)
    requires ConfigOk(K) && forall i :: 0 <= i < |header| ==> IsComment(K, prefix, header[i])
    ensures Records(K, prefix, U, m, header, {})
    ensures forall i :: 0 <= i < |header| ==> OneLine(header[i])
  {
    if header == [] {
    } else {
      var before := header[..|header| - 1];
      HeaderRecords(K, prefix, U, m, before);
      CommentRecords(K, prefix, U, m, before, {}, header[|header| - 1]);
      assert before + [header[|header| - 1]] == header;
    }
  }

  lemma EmptyIsComment(K: Config, prefix: string)
    requires DefinedSymsOk(K)
    ensures IsComment(K, prefix, "") && IsComment(K, prefix, "#")
  {
    assert Rstrip("") == "" && Rstrip("#") == "#";
    assert MatchUnset(prefix, "").None? && MatchUnset(prefix, "#").None?;
    assert MatchSet(prefix, "#").None? by {
      if StartsWith("#", prefix) { FindBound("#"[|prefix|..], '='); }
    }
  }

  /** The lines so far record the symbols visited so far, and no line contains a line break. */
  ghost predicate LinesRecord(K: Config, prefix: string, U: Users, m: Cache, lines: seq<string>, done: set<SymId>)
    requires ConfigOk(K)
  {
    Records(K, prefix, U, m, lines, done) && forall i :: 0 <= i < |lines| ==> OneLine(lines[i])
  }

  lemma CommentLine(K: Config, prefix: string, U: Users, m: Cache, lines: seq<string>, done: set<SymId>, line: string)
    requires ConfigOk(K) && LinesRecord(K, prefix, U, m, lines, done) && IsComment(K, prefix, line)
    ensures LinesRecord(K, prefix, U, m, lines + [line], done)
  {
    CommentRecords(K, prefix, U, m, lines, done, line);
  }

  lemma SymbolLine(K: Config, prefix: string, U: Users, m: Cache, lines: seq<string>, done: set<SymId>, s: SymId)
    requires ConfigOk(K) && UserStateOk(K, U) && Solves(K, U, m) && Writable(K, prefix, m) && PlainChoices(K)
    requires LinesRecord(K, prefix, U, m, lines, done) && s in K.definedSyms && SymOk(K, s) && s !in done
    ensures
      var line := SymLine(K, prefix, U, m, s);
      LinesRecord(K, prefix, U, m, if line.Some? then lines + [line.value] else lines, done + {s})
  {
    hide ConfigOk, Solves, UserStateOk, PlainChoices, Writable, SymLine, RecordsSyms, RecordsChoices, OneLine;
    SymLineRecordsSyms(K, prefix, U, m, lines, done, s);
    SymLineRecordsChoice(K, prefix, U, m, lines, done, s);
    if SymLine(K, prefix, U, m, s).Some? { LineReads(K, prefix, U, m, s); }
  }

  lemma HeadRecords(K: Config, prefix: string, U: Users, m: Cache, lines: seq<string>, done: set<SymId>, title: string)
    requires ConfigOk(K) && LinesRecord(K, prefix, U, m, lines, done) && IsComment(K, prefix, "# " + title)
    ensures LinesRecord(K, prefix, U, m, lines + ["", "#", "# " + title, "#"], done)
  {
    EmptyIsComment(K, prefix);
    hide ConfigOk, LinesRecord, IsComment;
    CommentLine(K, prefix, U, m, lines, done, "");
    CommentLine(K, prefix, U, m, lines + [""], done, "#");
    CommentLine(K, prefix, U, m, lines + [""] + ["#"], done, "# " + title);
    CommentLine(K, prefix, U, m, lines + [""] + ["#"] + ["# " + title], done, "#");
    assert lines + [""] + ["#"] + ["# " + title] + ["#"] == lines + ["", "#", "# " + title, "#"];
  }

  lemma EntryRecords(K: Config, prefix: string, U: Users, m: Cache, w: Writer, e: Entry)
    requires ConfigOk(K) && UserStateOk(K, U) && Solves(K, U, m) && Writable(K, prefix, m) && PlainChoices(K)
    requires LinesRecord(K, prefix, U, m, w.lines, w.visited) && EntryOk(K, e) && TitleOk(K, prefix, e)
    ensures
      var w' := WriteEntry(K, prefix, U, m, w, e);
      LinesRecord(K, prefix, U, m, w'.lines, w'.visited) && w.visited <= w'.visited &&
      (e.SymNode? ==> e.s in w'.visited)
  {
    assert e.SymNode? ==> SymOk(K, e.s);
    EmptyIsComment(K, prefix);
    hide ConfigOk, Solves, UserStateOk, PlainChoices, Writable, SymLine, LinesRecord, IsComment;
    match e
    case SymNode(s) =>
      if s !in w.visited {
        CommentLine(K, prefix, U, m, w.lines, w.visited, "");
        SymbolLine(K, prefix, U, m, w.lines, w.visited, s);
        SymbolLine(K, prefix, U, m, w.lines + [""], w.visited, s);
        assert w.lines + [] == w.lines;
      }
    case HeadNode(_, title, _, _) => HeadRecords(K, prefix, U, m, w.lines, w.visited, title);
    case MenuEnd(title, _, _) => CommentLine(K, prefix, U, m, w.lines, w.visited, "# end of " + title);
  }

  lemma {:induction false} ContentsRecord(
    K: Config, prefix: string, header: seq<string>, U: Users, m: Cache, walk: seq<Entry>)
    requires ConfigOk(K) && UserStateOk(K, U) && Solves(K, U, m) && Writable(K, prefix, m) && PlainChoices(K)
    requires WalkOk(K, walk) && CommentsOk(K, prefix, header, walk)
    ensures
      var w := Contents(K, prefix, header, U, m, walk);
      LinesRecord(K, prefix, U, m, w.lines, w.visited) && forall s :: SymNode(s) in walk ==> s in w.visited
  {
    if walk == [] {
      HeaderRecords(K, prefix, U, m, header);
    } else {
      var before, e := walk[..|walk| - 1], walk[|walk| - 1];
      assert EntryOk(K, e) && TitleOk(K, prefix, e);
      assert CommentsOk(K, prefix, header, before) && WalkOk(K, before);
      hide ConfigOk, Solves, UserStateOk, PlainChoices, Writable, LinesRecord, IsComment, WriteEntry, CommentsOk, WalkOk;
      ContentsRecord(K, prefix, header, U, m, before);
      EntryRecords(K, prefix, U, m, Contents(K, prefix, header, U, m, before), e);
      assert walk == before + [e];
    }
  }

  // Loading it

  /** A visible symbol has a line. */
  lemma VisibleIsWritten(K: Config, U: Users, m: Cache, s: SymId)
    requires ConfigOk(K) && UserStateOk(K, U) && Solves(K, U, m) && SymOk(K, s) && AllSaved(K)
    requires GetT(m, Vis(Sym(s))) != Some(0) && K.syms[s].origType != Unknown && !IsNmy(K.syms[s])
    ensures WriteToConf(K, U, m, s) == Some(true)
  {
    assert SymDefOk(K, s);
    SolutionKnows(K, U, m, Vis(Sym(s)));
    if !HasPrompt(K.syms[s].prompts) { NoPromptNoVis(K, U, m, K.syms[s].prompts, |K.syms[s].prompts|); }
  }

  /** A number that set_value() would reject came from the defaults. */
  lemma RejectedIsDefault(K: Config, U: Users, m: Cache, s: SymId)
    requires ConfigOk(K) && UserStateOk(K, U) && Solves(K, U, m) && SymOk(K, s) && Numeric(K.syms[s].origType)
    requires Known(K, U, m, StrOf(s)) && !ValidUserVal(K, s, StrVal(m[StrOf(s)].str))
    ensures NumStr(K, U, m, s, 0) == Some(m[StrOf(s)].str)
  {
    SolutionKnows(K, U, m, Vis(Sym(s)));
    var vis := m[Vis(Sym(s))].t;
    assert SymDefOk(K, s);
    assert s in U.sym ==> ValidUserVal(K, s, U.sym[s]);
    hide ConfigOk, Solves, UserStateOk, ActiveRange, DefaultStr;
    assert NumStr(K, U, m, s, vis) == Some(m[StrOf(s)].str);
  }

  ghost predicate Gives(U': Users, s: SymId, x: Option<UserVal>) {
    (s in U'.sym <==> x.Some?) && (s in U'.sym ==> U'.sym[s] == x.value)
  }

  /** U' has for every visible symbol what the file says. */
  ghost predicate HasSaved(K: Config, U: Users, m: Cache, U': Users)
    requires ConfigOk(K)
  {
    && (forall s :: 0 <= s < |K.syms| && Defined(K.syms[s]) ==> Gives(U', s, SavedVal(K, U, m, s)))
    && (forall c :: 0 <= c < |K.choices| && GetP(m, Sel(c)) != Some(None) ==> Some(UserPick(U', c)) == GetP(m, Sel(c)))
    && (forall c :: 0 <= c < |K.choices| ==> UserMode(U', c) == ShownMode(K, m, c))
  }

  function DefinedSet(K: Config): set<SymId> { set i | 0 <= i < |K.definedSyms| :: K.definedSyms[i] }

  lemma MembersDefined(K: Config, s: SymId, c: ChoiceId)
    requires ConfigOk(K) && InChoice(K, s, c)
    ensures s in DefinedSet(K) && s in K.definedSyms
  {
    assert SymDefOk(K, s);
    var i :| 0 <= i < |K.definedSyms| && K.definedSyms[i] == s;
  }

  /** The mode that the symbols of c show. */
  ghost function ShownMode(K: Config, m: Cache, c: ChoiceId): Option<Tri>
    requires c < |K.choices|
  {
    SavedMode(K, m, c, DefinedSet(K))
  }

  function WithMode(U: Users, c: ChoiceId, t: Option<Tri>): Users {
    U.(mode := if t.Some? then U.mode[c := t.value] else U.mode - {c})
  }

  /** A choice whose mode is not the one it has if the user mode is what its symbols show. */
  ghost predicate ModeLost(K: Config, U: Users, m: Cache, c: ChoiceId)
    requires c < |K.choices|
  {
    ChoiceTri(K, WithMode(U, c, ShownMode(K, m, c)), m, c) != ChoiceTri(K, U, m, c)
  }

  /** Some value cannot be loaded from what is saved. */
  ghost predicate Lossy(K: Config, U: Users, m: Cache)
    requires ConfigOk(K)
  {
    || (exists s :: 0 <= s < |K.syms| && YOnlyByDefault(K, U, m, s))
    || (exists c :: 0 <= c < |K.choices| && ModeLost(K, U, m, c))
  }

  /** The same values of all slots, and the same modes of all choices. */
  ghost predicate SameValues(K: Config, U: Users, U': Users, m: Cache, m': Cache)
    requires ConfigOk(K) && Solves(K, U, m) && Solves(K, U', m')
  {
    && (forall k :: KeyOk(K, k) ==> m'[k] == m[k])
    && (forall c :: 0 <= c < |K.choices| ==> ChoiceTri(K, U', m', c) == ChoiceTri(K, U, m, c))
  }

  ghost predicate NoneVisible(K: Config, m: Cache, c: ChoiceId) {
    forall s :: InChoice(K, s, c) ==> GetT(m, Vis(Sym(s))) == Some(0)
  }

  ghost predicate NoneIsM(K: Config, m: Cache, c: ChoiceId) {
    forall s :: InChoice(K, s, c) ==> GetT(m, TriOf(s)) != Some(1)
  }

  /** What the symbols of a choice show in each mode. */
  lemma ShownModeIs(K: Config, U: Users, m: Cache, c: ChoiceId)
    requires ConfigOk(K) && UserStateOk(K, U) && Solves(K, U, m) && PlainChoices(K) && c < |K.choices|
    ensures ChoiceTri(K, U, m, c) == Some(2) ==> ShownMode(K, m, c) == if NoneVisible(K, m, c) then None else Some(2)
    ensures ChoiceTri(K, U, m, c) != Some(2) ==>
      ShownMode(K, m, c) == if K.choices[c].origType != Tristate || NoneIsM(K, m, c) then None else Some(1)
  {
    var all := DefinedSet(K);
    forall s | InChoice(K, s, c)
      ensures s in all && GetT(m, TriOf(s)).Some? && (GetT(m, TriOf(s)) == Some(2) ==> ChoiceTri(K, U, m, c) == Some(2))
      ensures GetT(m, TriOf(s)) == Some(1) ==> ChoiceTri(K, U, m, c) != Some(2)
      ensures GetT(m, TriOf(s)) == Some(2) ==> GetT(m, Vis(Sym(s))) != Some(0)
    {
      OnlySelectionIsY(K, U, m, s, c);
      InvisibleMemberIsN(K, U, m, s, c);
      MembersDefined(K, s, c);
    }
    hide ConfigOk, UserStateOk, Solves, PlainChoices, ChoiceTri, DefinedSet;
    if ChoiceTri(K, U, m, c) == Some(2) { SelectionShows(K, U, m, c); }
  }

  lemma InvisibleMemberIsN(K: Config, U: Users, m: Cache, s: SymId, c: ChoiceId)
    requires ConfigOk(K) && Solves(K, U, m) && PlainChoices(K) && InChoice(K, s, c)
    ensures GetT(m, Vis(Sym(s))) == Some(0) ==> GetT(m, TriOf(s)) == Some(0)
  {
    SolutionKnows(K, U, m, TriOf(s));
    assert SymDefOk(K, s) && !K.syms[s].isConst;
    hide ConfigOk, Solves, PlainChoices, SymDefOk, PlainTri;
  }

  lemma SelectionShows(K: Config, U: Users, m: Cache, c: ChoiceId)
    requires ConfigOk(K) && UserStateOk(K, U) && Solves(K, U, m) && PlainChoices(K) && c < |K.choices|
    requires ChoiceTri(K, U, m, c) == Some(2)
    ensures NoneVisible(K, m, c) || exists s :: InChoice(K, s, c) && GetT(m, TriOf(s)) == Some(2)
  {
    SelectionInYMode(K, U, m, c);
    if m[Sel(c)].pick.Some? {
      var s := m[Sel(c)].pick.value;
      SelectionIsOwn(K, U, m, c, s);
      OnlySelectionIsY(K, U, m, s, c);
    } else {
      forall s | InChoice(K, s, c) ensures GetT(m, Vis(Sym(s))) == Some(0) {
        assert SymDefOk(K, s);
        var j :| 0 <= j < |K.choices[c].syms| && K.choices[c].syms[j] == s;
      }
    }
  }

  /** With the prompts of its symbols under it, a choice loses its mode in exactly two cases. */
  lemma ModeLostWhen(K: Config, U: Users, m: Cache, c: ChoiceId)
    requires ConfigOk(K) && UserStateOk(K, U) && Solves(K, U, m) && PlainChoices(K) && c < |K.choices|
    requires forall s: SymId, j :: InChoice(K, s, c) && 0 <= j < |K.syms[s].prompts| && K.syms[s].prompts[j].Some? ==>
      Under(K, K.syms[s].prompts[j].value, Cho(c))
    ensures
      var mode, d := ChoiceTri(K, U, m, c), K.choices[c];
      ModeLost(K, U, m, c) <==>
        (mode == Some(2) && NoneVisible(K, m, c) && (d.isOptional || ChoiceType(K, m, c) == Some(Tristate))) ||
        (mode == Some(1) && NoneIsM(K, m, c) && d.isOptional)
  {
    ModeKnown(K, U, m, c);
    ShownModeIs(K, U, m, c);
    if ChoiceTri(K, U, m, c) == Some(0) {
      forall s | InChoice(K, s, c) ensures GetT(m, TriOf(s)) != Some(1) {
        assert SymDefOk(K, s) && OwnsSyms(K, c);
        NModeHidesSyms(K, U, m, c, s);
      }
    }
    SolutionKnows(K, U, m, TriOf(K.modules));
    assert Boolish(K.choices[c].origType) && ChoiceType(K, m, c).Some?;
    hide ConfigOk, UserStateOk, Solves, PlainChoices, Under, InChoice, NoneVisible, NoneIsM, ShownMode;
    ModeWithout(K, U, m, c);
  }

  /** The mode of a choice if the user mode is m, y or not set. */
  lemma ModeWithout(K: Config, U: Users, m: Cache, c: ChoiceId)
    requires c < |K.choices| && Boolish(K.choices[c].origType) && ChoiceTri(K, U, m, c).Some? && ChoiceType(K, m, c).Some?
    ensures
      var mode, d := ChoiceTri(K, U, m, c).value, K.choices[c];
      && (mode == 2 ==> ChoiceTri(K, WithMode(U, c, Some(2)), m, c) == Some(2))
      && (mode == 2 ==>
            (ChoiceTri(K, WithMode(U, c, None), m, c) == Some(2) <==> !d.isOptional && ChoiceType(K, m, c) != Some(Tristate)))
      && (mode == 1 ==> d.origType == Tristate && ChoiceTri(K, WithMode(U, c, Some(1)), m, c) == Some(1))
      && (mode == 1 ==> (ChoiceTri(K, WithMode(U, c, None), m, c) == Some(1) <==> !d.isOptional))
      && (mode == 0 ==> ChoiceTri(K, WithMode(U, c, None), m, c) == Some(0))
  {
  }

  lemma SavedRestoresSym(K: Config, U: Users, m: Cache, U': Users, s: SymId)
    requires ConfigOk(K) && UserStateOk(K, U) && Solves(K, U, m) && AllSaved(K)
    requires SymOk(K, s) && Defined(K.syms[s]) && Gives(U', s, SavedVal(K, U, m, s))
    requires GetT(m, Vis(Sym(s))) != Some(0) && !YOnlyByDefault(K, U, m, s) && PlainChoices(K)
    ensures RestoresSym(K, U, m, U', s)
  {
    assert SymDefOk(K, s);
    SolutionKnows(K, U, m, TriOf(s));
    SolutionKnows(K, U, m, StrOf(s));
    if K.syms[s].choice.Some? { MVisibleMember(K, U, m, s); }
    if K.syms[s].origType != Unknown {
      VisibleIsWritten(K, U, m, s);
      if K.syms[s].origType == Bool { BoolNeverM(K, U, m, s); }
      if Numeric(K.syms[s].origType) && SavedVal(K, U, m, s).None? { RejectedIsDefault(K, U, m, s); }
    }
  }

  /** An m-visible choice symbol is a tristate symbol that is m or n. */
  lemma MVisibleMember(K: Config, U: Users, m: Cache, s: SymId)
    requires ConfigOk(K) && Solves(K, U, m) && PlainChoices(K) && SymOk(K, s) && K.syms[s].choice.Some?
    ensures GetT(m, Vis(Sym(s))) == Some(1) ==>
      K.syms[s].origType == Tristate && (GetT(m, TriOf(s)) == Some(0) || GetT(m, TriOf(s)) == Some(1))
  {
    SolutionKnows(K, U, m, Vis(Sym(s)));
    SolutionKnows(K, U, m, TriOf(s));
    assert SymDefOk(K, s) && !K.syms[s].isConst;
    if K.syms[s].origType == Bool { BoolSymVisible(K, U, m, s); }
    hide ConfigOk, Solves, PlainChoices, SymDefOk, PlainTri;
  }

  lemma SavedRestores(K: Config, U: Users, m: Cache, U': Users)
    requires ConfigOk(K) && UserStateOk(K, U) && Solves(K, U, m) && AllSaved(K) && HasSaved(K, U, m, U') && PlainChoices(K)
    requires !Lossy(K, U, m)
    ensures Restores(K, U, m, U')
  {
    forall c | 0 <= c < |K.choices| ensures SameModeAt(K, U, U', m, c) {
      assert !ModeLost(K, U, m, c);
      ModeFromUserMode(K, WithMode(U, c, ShownMode(K, m, c)), U', m, c);
    }
    forall s | 0 <= s < |K.syms| && Defined(K.syms[s]) && GetT(m, Vis(Sym(s))) != Some(0)
      ensures RestoresSym(K, U, m, U', s)
    {
      SavedRestoresSym(K, U, m, U', s);
    }
    forall c | 0 <= c < |K.choices| ensures RestoresChoice(K, U, m, U', c) {
      SolutionKnows(K, U, m, Sel(c));
    }
  }

  /** The user state matters to the mode of a choice only by its mode. */
  lemma ModeFromUserMode(K: Config, U: Users, U': Users, m: Cache, c: ChoiceId)
    requires c < |K.choices| && UserMode(U, c) == UserMode(U', c)
    ensures ChoiceTri(K, U', m, c) == ChoiceTri(K, U, m, c)
  {
  }

  lemma SameMaps(K: Config, U: Users, U': Users, m: Cache, m': Cache)
    requires ConfigOk(K) && Solves(K, U, m) && Solves(K, U', m') && SameValues(K, U, U', m, m')
    ensures m' == m && RestoresModes(K, U, m, U')
  {
    assert forall k :: k in m <==> KeyOk(K, k);
    assert forall k :: k in m' <==> KeyOk(K, k);
  }

  /** A choice that is loaded with a user mode that gives it another mode. */
  lemma ModeLostIsLost(K: Config, U: Users, m: Cache, U': Users, m': Cache, c: ChoiceId, t: Option<Tri>)
    requires ConfigOk(K) && Solves(K, U, m) && Solves(K, U', m') && c < |K.choices| && UserMode(U', c) == t
    requires ChoiceTri(K, WithMode(U, c, t), m, c) != ChoiceTri(K, U, m, c)
    ensures !SameValues(K, U, U', m, m')
  {
    if SameValues(K, U, U', m, m') {
      SameMaps(K, U, U', m, m');
      ModeFromUserMode(K, WithMode(U, c, t), U', m, c);
    }
  }

  /** A symbol that is y over m by default alone is read back as m. */
  lemma YOnlyByDefaultIsLost(K: Config, U: Users, m: Cache, U': Users, m': Cache, s: SymId)
    requires ConfigOk(K) && UserStateOk(K, U) && UserStateOk(K, U') && PlainChoices(K)
    requires Solves(K, U, m) && Solves(K, U', m') && AllSaved(K)
    requires SymOk(K, s) && YOnlyByDefault(K, U, m, s) && Gives(U', s, SavedVal(K, U, m, s))
    ensures !SameValues(K, U, U', m, m')
  {
    if SameValues(K, U, U', m, m') {
      SameMaps(K, U, U', m, m');
      assert SymDefOk(K, s);
      SolutionKnows(K, U, m, Vis(Sym(s)));
      assert Defined(K.syms[s]);
      VisibleIsWritten(K, U, m, s);
      if K.syms[s].origType == Bool { BoolSymVisible(K, U, m, s); }
      var b := BoundsExist(K, U, m, s);
      KeyReadsOk(K, TriOf(s));
      BoundsRestored(K, U, U', m, m', s, b);
      OwnValueReadsBack(K, U, m, s, b);
      UserValueReadsBack(K, U', m', s, 2, b);
    }
  }

  /** Every defined symbol is met in the walk. */
  ghost predicate Covers(K: Config, walk: seq<Entry>) {
    forall s :: s in K.definedSyms ==> SymNode(s) in walk
  }

  /** The user state after replacing any configuration by the saved text. */
  ghost function Reloaded(K: Config, prefix: string, U0: Users, lines: seq<string>): Users
    requires ConfigOk(K)
  {
    Loaded(K, prefix, U0, ReadLines(JoinLines(lines)))
  }

  lemma LoadedHasSavedSyms(K: Config, prefix: string, U: Users, m: Cache, U0: Users, lines: seq<string>, done: set<SymId>)
    requires ConfigOk(K) && RecordsSyms(K, prefix, U, m, lines, done)
    requires forall s :: s in K.definedSyms ==> s in done
    ensures
      var U' := Loaded(K, prefix, U0, lines);
      forall s :: 0 <= s < |K.syms| && Defined(K.syms[s]) ==> Gives(U', s, SavedVal(K, U, m, s))
  {
    var U' := Loaded(K, prefix, U0, lines);
    forall s | 0 <= s < |K.syms| && Defined(K.syms[s]) ensures Gives(U', s, SavedVal(K, U, m, s)) {
      LoadedSyms(K, prefix, U0, lines, s);
    }
  }

  lemma LoadedHasSavedPicks(K: Config, prefix: string, U: Users, m: Cache, U0: Users, lines: seq<string>, done: set<SymId>)
    requires ConfigOk(K) && UserStateOk(K, U) && Solves(K, U, m) && PlainChoices(K)
    requires RecordsChoices(K, prefix, U, m, lines, done)
    requires forall s :: s in K.definedSyms ==> s in done
    ensures forall c :: 0 <= c < |K.choices| && GetP(m, Sel(c)) != Some(None) ==>
      Some(UserPick(Loaded(K, prefix, U0, lines), c)) == GetP(m, Sel(c))
  {
    forall c | 0 <= c < |K.choices| && GetP(m, Sel(c)) != Some(None)
      ensures Some(UserPick(Loaded(K, prefix, U0, lines), c)) == GetP(m, Sel(c))
    {
      SolutionKnows(K, U, m, Sel(c));
      var t := GetP(m, Sel(c)).value.value;
      SelectionIsOwn(K, U, m, c, t);
      assert SymDefOk(K, t) && t in done && RecordsChoice(K, prefix, m, lines, done, c);
      LoadedChoices(K, prefix, U0, lines, c);
    }
  }

  /** The user mode of a choice is what the recorded symbols show. */
  lemma LoadedModes(K: Config, prefix: string, U: Users, m: Cache, U0: Users, lines: seq<string>, done: set<SymId>)
    requires ConfigOk(K) && UserStateOk(K, U) && Solves(K, U, m) && PlainChoices(K) && RecordsChoices(K, prefix, U, m, lines, done)
    ensures forall c :: 0 <= c < |K.choices| ==> UserMode(Loaded(K, prefix, U0, lines), c) == SavedMode(K, m, c, done)
  {
    forall c | 0 <= c < |K.choices| ensures UserMode(Loaded(K, prefix, U0, lines), c) == SavedMode(K, m, c, done) {
      assert RecordsChoice(K, prefix, m, lines, done, c);
      LoadedChoices(K, prefix, U0, lines, c);
      var p := PickIn(K, prefix, lines, c);
      if p.Some? {
        SelectionIsOwn(K, U, m, c, p.value);
        OnlySelectionIsY(K, U, m, p.value, c);
      }
    }
  }

  lemma AllMembersDone(K: Config, m: Cache, c: ChoiceId, done: set<SymId>)
    requires ConfigOk(K) && c < |K.choices| && forall s :: s in K.definedSyms ==> s in done
    ensures SavedMode(K, m, c, done) == ShownMode(K, m, c)
  {
    var all := DefinedSet(K);
    forall s | InChoice(K, s, c) ensures s in done && s in all { MembersDefined(K, s, c); }
    hide ConfigOk;
    assert forall t :: HasMember(K, m, c, done, t) <==> HasMember(K, m, c, all, t);
  }

  lemma ReloadedHasSaved(K: Config, prefix: string, U: Users, m: Cache, U0: Users, lines: seq<string>, done: set<SymId>)
    requires ConfigOk(K) && UserStateOk(K, U) && UserStateOk(K, U0) && Solves(K, U, m) && PlainChoices(K)
    requires Records(K, prefix, U, m, lines, done) && forall i :: 0 <= i < |lines| ==> OneLine(lines[i])
    requires forall s :: s in K.definedSyms ==> s in done
    ensures HasSaved(K, U, m, Reloaded(K, prefix, U0, lines))
    ensures UserStateOk(K, Reloaded(K, prefix, U0, lines))
  {
    hide ConfigOk, Solves, UserStateOk, PlainChoices, RecordsSyms, RecordsChoices, SavedVal, Loaded;
    LinesReadBack(lines);
    LoadedStateOk(K, prefix, U0, lines);
    LoadedHasSavedSyms(K, prefix, U, m, U0, lines, done);
    LoadedHasSavedPicks(K, prefix, U, m, U0, lines, done);
    LoadedModes(K, prefix, U, m, U0, lines, done);
    forall c | 0 <= c < |K.choices| ensures SavedMode(K, m, c, done) == ShownMode(K, m, c) { AllMembersDone(K, m, c, done); }
  }

  /**
   * Replacing any configuration by a saved one gives back all values and modes, exactly if no
   * m-visible symbol is y by a default alone and the symbols of each choice show its mode.
   */
  lemma ConfigRoundTrip(
    K: Config, rank: Key -> nat, prefix: string, header: seq<string>, walk: seq<Entry>,
    U: Users, m: Cache, U0: Users, m': Cache)
    requires ConfigOk(K) && Ranked(K, rank) && PlainChoices(K) && AllSaved(K)
    requires WalkOk(K, walk) && Covers(K, walk) && CommentsOk(K, prefix, header, walk)
    requires UserStateOk(K, U) && Solves(K, U, m) && Writable(K, prefix, m) && UserStateOk(K, U0)
    requires Solves(K, Reloaded(K, prefix, U0, Contents(K, prefix, header, U, m, walk).lines), m')
    ensures SameValues(K, U, Reloaded(K, prefix, U0, Contents(K, prefix, header, U, m, walk).lines), m, m') <==>
            !Lossy(K, U, m)
  {
    var w := Contents(K, prefix, header, U, m, walk);
    var U' := Reloaded(K, prefix, U0, w.lines);
    ContentsRecord(K, prefix, header, U, m, walk);
    ReloadedHasSaved(K, prefix, U, m, U0, w.lines, w.visited);
    hide ConfigOk, Solves, UserStateOk, PlainChoices, HasSaved, Writable, Contents, YOnlyByDefault, ModeLost, Reloaded,
         SameValues;
    SavedSame(K, rank, U, m, U', m');
  }

  /** The same without any text. */
  lemma SavedSame(K: Config, rank: Key -> nat, U: Users, m: Cache, U': Users, m': Cache)
    requires ConfigOk(K) && Ranked(K, rank) && PlainChoices(K) && AllSaved(K) && UserStateOk(K, U) && UserStateOk(K, U')
    requires Solves(K, U, m) && Solves(K, U', m') && HasSaved(K, U, m, U')
    ensures SameValues(K, U, U', m, m') <==> !Lossy(K, U, m)
  {
    hide ConfigOk, Solves, UserStateOk, PlainChoices, HasSaved, YOnlyByDefault, ModeLost, SameValues, Lossy;
    if Lossy(K, U, m) {
      LossyIsLost(K, U, m, U', m');
    } else {
      SavedRestores(K, U, m, U');
      forall k | KeyOk(K, k) ensures k in m && k in m' && m'[k] == m[k] {
        RestoredValues(K, rank, U, U', m, m', k);
      }
      AllRestored(K, U, U', m, m');
    }
  }

  lemma YIsDefined(K: Config, U: Users, m: Cache, s: SymId)
    requires ConfigOk(K) && Solves(K, U, m) && SymOk(K, s) && GetT(m, Vis(Sym(s))) != Some(0)
    requires K.syms[s].origType != Unknown
    ensures Defined(K.syms[s])
  {
    assert SymDefOk(K, s);
    SolutionKnows(K, U, m, Vis(Sym(s)));
  }

  lemma LossyIsLost(K: Config, U: Users, m: Cache, U': Users, m': Cache)
    requires ConfigOk(K) && PlainChoices(K) && AllSaved(K) && UserStateOk(K, U) && UserStateOk(K, U')
    requires Solves(K, U, m) && Solves(K, U', m') && HasSaved(K, U, m, U') && Lossy(K, U, m)
    ensures !SameValues(K, U, U', m, m')
  {
    hide ConfigOk, Solves, UserStateOk, PlainChoices, SameValues, SavedVal;
    if s :| 0 <= s < |K.syms| && YOnlyByDefault(K, U, m, s) {
      YIsDefined(K, U, m, s);
      YOnlyByDefaultIsLost(K, U, m, U', m', s);
    } else {
      var c :| 0 <= c < |K.choices| && ModeLost(K, U, m, c);
      ModeLostIsLost(K, U, m, U', m', c, ShownMode(K, m, c));
    }
  }

  lemma AllRestored(K: Config, U: Users, U': Users, m: Cache, m': Cache)
    requires ConfigOk(K) && Solves(K, U, m) && Solves(K, U', m') && Restores(K, U, m, U')
    requires forall k :: KeyOk(K, k) ==> k in m && k in m' && m'[k] == m[k]
    ensures SameValues(K, U, U', m, m')
  {
    forall c | 0 <= c < |K.choices| ensures ChoiceTri(K, U', m', c) == ChoiceTri(K, U, m, c) {
      ModeKnown(K, U, m, c);
      assert SameModeAt(K, U, U', m, c);
      assert forall k :: k in m <==> k in m';
      assert m' == m;
    }
  }

  // Saving again

  lemma AgreeEverywhere(K: Config, U: Users, U': Users, m: Cache, m': Cache, R: set<Key>)
    requires ConfigOk(K) && Solves(K, U, m) && Solves(K, U', m') && SameValues(K, U, U', m, m')
    requires forall k :: k in R ==> KeyOk(K, k)
    ensures Agree(K, U, U', m, m', R)
  {
    SameMaps(K, U, U', m, m');
    forall c | Vis(Cho(c)) in R ensures SameModeAt(K, U, U', m, c) { assert KeyOk(K, Vis(Cho(c))); }
  }

  lemma SameTest(K: Config, U: Users, U': Users, m: Cache, m': Cache, e: Expr)
    requires ConfigOk(K) && Solves(K, U, m) && Solves(K, U', m') && ExprOk(K, e) && SameValues(K, U, U', m, m')
    ensures NonN(K, U', m', e) == NonN(K, U, m, e)
  {
    ExprReadsOk(K, e);
    AgreeEverywhere(K, U, U', m, m', ExprReads(K, e));
    assert Has(m, ExprReads(K, e)) by {
      forall k | k in ExprReads(K, e) ensures k in m && ValOk(k, m[k]) { SolutionKnows(K, U, m, k); }
    }
    EvalTotal(K, U, m, e);
    EvalTransfer(K, U, U', m, m', e);
  }

  lemma SameLine(K: Config, prefix: string, U: Users, U': Users, m: Cache, m': Cache, s: SymId)
    requires ConfigOk(K) && UserStateOk(K, U) && UserStateOk(K, U') && SymOk(K, s)
    requires Solves(K, U, m) && Solves(K, U', m') && SameValues(K, U, U', m, m')
    ensures SymLine(K, prefix, U', m', s) == SymLine(K, prefix, U, m, s)
  {
    KeyReadsOk(K, WriteOf(s));
    AgreeEverywhere(K, U, U', m, m', KeyReads(K, WriteOf(s)));
    SolutionKnows(K, U, m, WriteOf(s));
    SolutionKnows(K, U, m, StrOf(s));
    SolutionKnows(K, U', m', StrOf(s));
    WriteTransfer(K, U, U', m, m', s);
  }

  /** A configuration with the same values is saved as the same text. */
  lemma {:induction false} SameContents(
    K: Config, prefix: string, header: seq<string>, walk: seq<Entry>, U: Users, U': Users, m: Cache, m': Cache)
    requires ConfigOk(K) && UserStateOk(K, U) && UserStateOk(K, U')
    requires Solves(K, U, m) && Solves(K, U', m') && SameValues(K, U, U', m, m')
    requires WalkOk(K, walk)
    ensures Contents(K, prefix, header, U', m', walk) == Contents(K, prefix, header, U, m, walk)
  {
    if walk == [] {
    } else {
      SameContents(K, prefix, header, walk[..|walk| - 1], U, U', m, m');
      var e := walk[|walk| - 1];
      assert EntryOk(K, e);
      assert e.SymNode? ==> SymOk(K, e.s);
      match e {
        case SymNode(s) => SameLine(K, prefix, U, U', m, m', s);
        case HeadNode(_, _, dep, visible) => SameTest(K, U, U', m, m', dep); SameTest(K, U, U', m, m', visible);
        case MenuEnd(_, dep, visible) => SameTest(K, U, U', m, m', dep); SameTest(K, U, U', m, m', visible);
      }
    }
  }

  /** Saving, loading into any configuration and saving again gives the same text. */
  lemma SavedTextIsStable(
    K: Config, rank: Key -> nat, prefix: string, header: seq<string>, walk: seq<Entry>,
    U: Users, m: Cache, U0: Users, m': Cache)
    requires ConfigOk(K) && Ranked(K, rank) && PlainChoices(K) && AllSaved(K)
    requires WalkOk(K, walk) && Covers(K, walk) && CommentsOk(K, prefix, header, walk)
    requires UserStateOk(K, U) && Solves(K, U, m) && Writable(K, prefix, m) && UserStateOk(K, U0)
    requires Solves(K, Reloaded(K, prefix, U0, Contents(K, prefix, header, U, m, walk).lines), m')
    requires !Lossy(K, U, m)
    ensures
      var lines := Contents(K, prefix, header, U, m, walk).lines;
      Contents(K, prefix, header, Reloaded(K, prefix, U0, lines), m', walk).lines == lines
  {
    var lines := Contents(K, prefix, header, U, m, walk).lines;
    ConfigRoundTrip(K, rank, prefix, header, walk, U, m, U0, m');
    hide ConfigOk, Solves, UserStateOk, PlainChoices, Contents, Reloaded, Lossy, SameValues;
    var U' := ReloadedUsers(K, prefix, U0, lines);
    SameContents(K, prefix, header, walk, U, U', m, m');
  }

  ghost function ReloadedUsers(K: Config, prefix: string, U0: Users, lines: seq<string>): (U': Users)
    requires ConfigOk(K) && UserStateOk(K, U0)
    ensures U' == Reloaded(K, prefix, U0, lines) && UserStateOk(K, U')
  {
    LoadedStateOk(K, prefix, U0, ReadLines(JoinLines(lines)));
    Reloaded(K, prefix, U0, lines)
  }
}
