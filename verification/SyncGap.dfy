/**
 * What a line break in a value does to auto.conf: the text after it is read as a line of
 * its own. Here it makes sync_deps() miss that a symbol has changed.
 */
module SyncGap {
  import opened Wrappers
  import opened Config
  import opened Values
  import opened Reads
  import opened Meaning
  import opened Invalidation
  import opened ValueLaws
  import opened AssignLaws
  import opened ConfText
  import opened ConfigFile
  import opened SaveLaws
  import opened SyncDeps

  const N := Leaf(Sym(0))
  const Y := Leaf(Sym(1))

  function Nmy(name: string): SymDef {
    SymDef(name, Tristate, true, [], [], [], N, N, N, None, false)
  }

  const UNDEFINED := SymDef("MODULES", Unknown, false, [], [], [], N, N, N, None, false)

  /** `config FOO / bool "foo"` */
  const FOO := SymDef("FOO", Bool, false, [Some(Y)], [], [], N, N, Y, None, false)

  /** `config TEXT / string "text"` */
  const TEXT := SymDef("TEXT", String, false, [Some(Y)], [], [], N, N, Y, None, false)

  const GAP := Config([Nmy("n"), Nmy("y"), UNDEFINED, FOO, TEXT], [], [3, 4], 2, None)

  const PREFIX := "CONFIG_"

  /** The value of TEXT. */
  const BROKEN := "\n" + "CONFIG_FOO=y" + "\n"

  /** The user gives FOO the value t. */
  function Given(t: Tri): Users {
    Users(map[3 := TriVal(t), 4 := StrVal(BROKEN)], map[], map[])
  }

  function Rank(k: Key): nat {
    match k
    case TriOf(s) => if s < 3 then 0 else 2
    case Vis(_) => 1
    case StrOf(_) => 3
    case _ => 4
  }

  lemma DefOk(s: SymId)
    requires s < 5
    ensures SymDefOk(GAP, s)
  {
    assert GAP.syms[s] == if s == 0 then Nmy("n") else if s == 1 then Nmy("y") else if s == 2 then UNDEFINED
      else if s == 3 then FOO else TEXT;
  }

  lemma GapOk(t: Tri)
    requires t != 1
    ensures ConfigOk(GAP) && UserStateOk(GAP, Given(t))
  {
    forall s | 0 <= s < |GAP.syms| ensures SymDefOk(GAP, s) { DefOk(s); }
    hide SymDefOk, BROKEN;
    assert DefinedSymsOk(GAP);
    assert GAP.syms[3] == FOO && GAP.syms[4] == TEXT;
  }

  lemma GapNames()
    requires ConfigOk(GAP)
    ensures NamesReadable(GAP, PREFIX)
  {
    assert GAP.syms[3].name == "FOO" && GAP.syms[4].name == "TEXT" && GAP.definedSyms == [3, 4];
    assert "FOO"[0] != "TEXT"[0];
    hide ConfigOk, GAP;
  }

  lemma GapRanked()
    requires ConfigOk(GAP)
    ensures Ranked(GAP, Rank)
  {
    forall k, j | KeyOk(GAP, k) && j in KeyReads(GAP, k) ensures Rank(j) < Rank(k) {
      assert ItemOf(k).Sym? && ItemOf(k).s < 5;
      DefOk(ItemOf(k).s);
    }
  }

  /** A symbol with an unconditional prompt is visible. */
  lemma AlwaysVisible(K: Config, U: Users, m: Cache, s: SymId)
    requires ConfigOk(K) && Solves(K, U, m) && SymOk(K, s) && SymOk(K, 1) && IsNmy(K.syms[1]) && K.syms[1].name == "y"
    requires K.syms[s].choice.None? && K.syms[s].prompts == [Some(Y)]
    ensures GetT(m, Vis(Sym(s))) == Some(2)
  {
    SolutionKnows(K, U, m, TriOf(1));
    SolutionKnows(K, U, m, Vis(Sym(s)));
    assert PromptVis(K, U, m, K.syms[s].prompts, 0) == Some(0);
    assert PromptVis(K, U, m, K.syms[s].prompts, 1) == Some(2);
  }

  lemma FreeBounds(K: Config, U: Users, m: Cache, s: SymId)
    requires ConfigOk(K) && Solves(K, U, m) && SymOk(K, s) && SymDefOk(K, s) && K.syms[s].origType == Bool
    requires K.syms[s].choice.None? && K.syms[s].revDep == N && K.syms[s].weakRevDep == N && K.syms[s].directDep == Y
    requires SymOk(K, 1) && GetT(m, TriOf(0)) == Some(0) && GetT(m, TriOf(1)) == Some(2) && GetT(m, Vis(Sym(s))) == Some(2)
    ensures HasBounds(K, U, m, s, Bounds(2, 0, 0, true))
  {
  }

  /** What is remembered of a bool symbol that the user has set. */
  lemma BoolRemembered(K: Config, U: Users, m: Cache, s: SymId, t: Tri)
    requires ConfigOk(K) && Solves(K, U, m) && SymOk(K, s) && SymDefOk(K, s) && HasBounds(K, U, m, s, Bounds(2, 0, 0, true))
    requires K.syms[s].origType == Bool && K.syms[s].choice.None? && U.sym == U.sym[s := TriVal(t)] && t != 1
    ensures RememberedIn(K, U, m, s) == (if t == 0 then None else Some("y")) && GetT(m, TriOf(s)) == Some(t)
  {
    UserValueReadsBack(K, U, m, s, t, Bounds(2, 0, 0, true));
    SolutionKnows(K, U, m, StrOf(s));
  }

  /** What is remembered of a string symbol that the user has set. */
  lemma TextRemembered(K: Config, U: Users, m: Cache, s: SymId, val: string)
    requires ConfigOk(K) && Solves(K, U, m) && SymOk(K, s) && SymDefOk(K, s) && GetT(m, Vis(Sym(s))) == Some(2)
    requires K.syms[s].origType == String && !K.syms[s].fromEnv && K.defconfigList != Some(s)
    requires U.sym == U.sym[s := StrVal(val)]
    ensures RememberedIn(K, U, m, s) == Some(val) && WriteToConf(K, U, m, s) == Some(true) && GetS(m, StrOf(s)) == Some(val)
  {
    SolutionKnows(K, U, m, StrOf(s));
  }

  lemma GapValues(m: Cache, t: Tri)
    requires t != 1 && ConfigOk(GAP) && Solves(GAP, Given(t), m)
    ensures RememberedIn(GAP, Given(t), m, 3) == (if t == 0 then None else Some("y")) && GetT(m, TriOf(3)) == Some(t)
    ensures RememberedIn(GAP, Given(t), m, 4) == Some(BROKEN)
    ensures WriteToConf(GAP, Given(t), m, 4) == Some(true) && GetS(m, StrOf(4)) == Some(BROKEN)
  {
    var U := Given(t);
    SolutionKnows(GAP, U, m, TriOf(0));
    SolutionKnows(GAP, U, m, TriOf(1));
    AlwaysVisible(GAP, U, m, 3);
    AlwaysVisible(GAP, U, m, 4);
    DefOk(3);
    DefOk(4);
    assert GAP.syms[3] == FOO && GAP.syms[4] == TEXT;
    assert U.sym == U.sym[3 := TriVal(t)] && U.sym == U.sym[4 := StrVal(BROKEN)];
    hide ConfigOk, Solves, SymDefOk, BROKEN;
    FreeBounds(GAP, U, m, 3);
    BoolRemembered(GAP, U, m, 3, t);
    TextRemembered(GAP, U, m, 4, BROKEN);
  }

  // The text

  lemma {:induction false} NothingReplaced(s: string, c: char, rep: string)
    requires c !in s
    ensures Replace(s, c, rep) == s
  {
    if s == "" {
    } else {
      assert s == [s[0]] + s[1..];
      NothingReplaced(s[1..], c, rep);
    }
  }

  const LINES := [PREFIX + "TEXT" + "=" + "\"", PREFIX + "FOO" + "=" + "y", "\""]

  lemma BrokenEscaped()
    ensures Escape(BROKEN) == BROKEN
  {
    NothingReplaced(BROKEN, '\\', "\\\\");
    NothingReplaced(BROKEN, '"', "\\\"");
  }

  lemma AutoLineOf(K: Config, U: Users, m: Cache, s: SymId)
    requires ConfigOk(K) && SymOk(K, s)
    ensures K.syms[s].origType == Bool && GetT(m, TriOf(s)) == Some(0) ==> AutoLine(K, PREFIX, U, m, s) == None
    ensures K.syms[s].origType == String && GetS(m, StrOf(s)) == Some(BROKEN) && WriteToConf(K, U, m, s) == Some(true) ==>
      AutoLine(K, PREFIX, U, m, s) == Some(PREFIX + K.syms[s].name + "=" + ("\"" + BROKEN + "\""))
  {
    BrokenEscaped();
    hide BROKEN, Escape;
  }

  /** The lines before they are written: only TEXT has one. */
  lemma LinesOfGap(m: Cache)
    requires ConfigOk(GAP) && Solves(GAP, Given(0), m)
    ensures AutoConf(GAP, PREFIX, Given(0), m, |GAP.definedSyms|) == [PREFIX + "TEXT" + "=" + ("\"" + BROKEN + "\"")]
  {
    var U := Given(0);
    GapValues(m, 0);
    AutoLineOf(GAP, U, m, 3);
    AutoLineOf(GAP, U, m, 4);
    assert GAP.syms[3] == FOO && GAP.syms[4] == TEXT && GAP.definedSyms == [3, 4];
    hide ConfigOk, Solves, BROKEN, GAP, AutoLine;
    assert AutoConf(GAP, PREFIX, U, m, 0) == [];
    assert AutoConf(GAP, PREFIX, U, m, 1) == [];
  }

  lemma JoinedBroken()
    ensures JoinLines([PREFIX + "TEXT" + "=" + ("\"" + BROKEN + "\"")]) == JoinLines(LINES)
  {
    var a, b, c := PREFIX + "TEXT" + "=" + "\"", PREFIX + "FOO" + "=" + "y", "\"";
    var line := PREFIX + "TEXT" + "=" + ("\"" + BROKEN + "\"");
    assert BROKEN == "\n" + b + "\n";
    hide BROKEN;
    assert [line][1..] == [] && JoinLines([line]) == line + "\n" + JoinLines([]);
    assert LINES == [a, b, c] && LINES[1..] == [b, c] && [b, c][1..] == [c] && [c][1..] == [];
    assert JoinLines([c]) == c + "\n" + JoinLines([]);
    assert JoinLines([b, c]) == b + "\n" + JoinLines([c]);
    assert JoinLines(LINES) == a + "\n" + JoinLines([b, c]);
    assert line == a + "\n" + b + "\n" + c;
  }

  lemma LinesAreSingle()
    ensures forall i :: 0 <= i < |LINES| ==> OneLine(LINES[i])
  {
  }

  /** One symbol, one value, three lines. */
  lemma TextOfGap(m: Cache)
    requires ConfigOk(GAP) && Solves(GAP, Given(0), m)
    ensures ReadLines(AutoText(GAP, PREFIX, Given(0), m)) == LINES
  {
    LinesOfGap(m);
    JoinedBroken();
    LinesAreSingle();
    hide ConfigOk, Solves, AutoConf, BROKEN, LINES, OneLine;
    LinesReadBack(LINES);
  }

  /** The line inside the value of TEXT sets the old value of FOO. */
  lemma OldValsOfGap()
    requires ConfigOk(GAP) && NamesReadable(GAP, PREFIX)
    ensures OldVals(GAP, PREFIX, LINES) == map[3 := "y"] && GoneNames(GAP, PREFIX, LINES) == {}
  {
    var a, b, c := PREFIX + "TEXT" + "=" + "\"", PREFIX + "FOO" + "=" + "y", "\"";
    assert LINES == [] + [a] + [b] + [c];
    LinesMean();
    hide ConfigOk, NamesReadable, GAP, OldVal, GoneName;
    OldValsAppend(GAP, PREFIX, [], a);
    OldValsAppend(GAP, PREFIX, [] + [a], b);
    OldValsAppend(GAP, PREFIX, [] + [a] + [b], c);
  }

  lemma LinesMean()
    requires ConfigOk(GAP) && NamesReadable(GAP, PREFIX)
    ensures OldVal(GAP, PREFIX, PREFIX + "TEXT" + "=" + "\"") == None
    ensures OldVal(GAP, PREFIX, PREFIX + "FOO" + "=" + "y") == Some((3, "y"))
    ensures OldVal(GAP, PREFIX, "\"") == None
    ensures GoneName(GAP, PREFIX, PREFIX + "TEXT" + "=" + "\"") == None
    ensures GoneName(GAP, PREFIX, PREFIX + "FOO" + "=" + "y") == None
    ensures GoneName(GAP, PREFIX, "\"") == None
  {
    NameOfDefined(GAP, 3);
    NameOfDefined(GAP, 4);
    assert GAP.syms[3] == FOO && GAP.syms[4] == TEXT;
    assert KnownName(GAP, "FOO") && KnownName(GAP, "TEXT");
    assert |GAP.definedSyms| == 2;
    hide ConfigOk, GAP, Lookup, KnownName;
    SetMatches(PREFIX, "TEXT", "\"");
    SetMatches(PREFIX, "FOO", "y");
    assert MatchQuoted("\"") == None by { assert "\""[1..] == ""; }
    assert MatchSet(PREFIX, "\"") == None by { assert !StartsWith("\"", PREFIX); }
  }

  /**
   * FOO goes from n to y between two builds, and its line in autoconf.h with it, but it is
   * not touched.
   */
  lemma RebuildIsMissed() returns (m: Cache, m': Cache)
    ensures ConfigOk(GAP) && NamesReadable(GAP, PREFIX) && UserStateOk(GAP, Given(0)) && UserStateOk(GAP, Given(2))
    ensures Solves(GAP, Given(0), m) && Solves(GAP, Given(2), m')
    ensures HeaderIn(GAP, PREFIX, Given(0), m, 3) != HeaderIn(GAP, PREFIX, Given(2), m', 3)
    ensures "FOO" !in Touched(GAP, PREFIX, Given(2), m', ReadLines(AutoText(GAP, PREFIX, Given(0), m)))
  {
    GapOk(0);
    GapOk(2);
    GapNames();
    GapRanked();
    hide ConfigOk, Ranked, Solves, UserStateOk, NamesReadable, AutoText;
    m := AllValues(GAP, Rank, Given(0));
    m' := AllValues(GAP, Rank, Given(2));
    TextOfGap(m);
    OldValsOfGap();
    GapValues(m, 0);
    GapValues(m', 2);
    HeaderChanges(GAP, PREFIX, Given(0), m, Given(2), m', 3);
    FooIsNotTouched(m');
  }

  lemma FooIsNotTouched(m': Cache)
    requires ConfigOk(GAP) && NamesReadable(GAP, PREFIX) && UserStateOk(GAP, Given(2)) && Solves(GAP, Given(2), m')
    ensures |GAP.definedSyms| == 2 && "FOO" !in SignalledNames(GAP, Given(2), m', map[3 := "y"], 2)
  {
    GapValues(m', 2);
    SignalledMeans(GAP, Given(2), m', 3, map[3 := "y"], Some("y"));
    assert GAP.syms[3].name == "FOO" && 3 in GAP.definedSyms && |GAP.definedSyms| == 2;
    hide ConfigOk, Solves, SignalledIn, SignalledNames, NamesReadable;
    assert NamesOk(GAP) by { NamesAreOk(); }
    NameIsTouched(GAP, Given(2), m', map[3 := "y"], 3);
  }

  lemma NamesAreOk()
    requires ConfigOk(GAP) && NamesReadable(GAP, PREFIX)
    ensures NamesOk(GAP)
  {
  }
}
