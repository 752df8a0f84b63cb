/**
 * One small configuration in which the two exceptional cases do occur: an assignable
 * value that is not read back, and a saved value that is not loaded back.
 */
module Counterexamples {
  import opened Wrappers
  import opened Config
  import opened Values
  import opened Reads
  import opened Meaning
  import opened Deps
  import opened Invalidation
  import opened ValueLaws
  import opened AssignLaws
  import opened Reload
  import opened ConfText
  import opened ConfigFile
  import opened SaveLaws
  import opened RoundTrip

  const N := Leaf(Sym(0))
  const M := Leaf(Sym(1))
  const Y := Leaf(Sym(2))

  function Nmy(name: string): SymDef {
    SymDef(name, Tristate, true, [], [], [], N, N, N, None, false)
  }

  /** `config FORCED / tristate "forced" if m`, selected by an m symbol and implied by a y symbol. */
  const FORCED := SymDef("FORCED", Tristate, false, [Some(M)], [], [], M, Y, Y, None, false)

  /** `config LOST / tristate "lost" if m / default y`. */
  const LOST := SymDef("LOST", Tristate, false, [Some(M)], [Default(Y, Y)], [], N, N, Y, None, false)

  const MODULES := SymDef("MODULES", Bool, false, [None], [Default(Y, Y)], [], N, N, Y, None, false)

  const EXAMPLE := Config([Nmy("n"), Nmy("m"), Nmy("y"), MODULES, FORCED, LOST], [], [3, 4, 5], 3, None)

  const NO_USER := Users(map[], map[], map[])

  function Rank(k: Key): nat {
    match k
    case TriOf(s) => if s < 3 then 0 else if s == 3 then 2 else 4
    case Vis(i) => if i == Sym(3) then 1 else 3
    case _ => 5
  }

  lemma DefOk(s: SymId)
    requires s < 6
    ensures SymDefOk(EXAMPLE, s)
  {
    if s < 3 {
      assert EXAMPLE.syms[s] == Nmy(TriToStr(s));
    } else {
      assert EXAMPLE.syms[s] == if s == 3 then MODULES else if s == 4 then FORCED else LOST;
    }
  }

  lemma ExampleOk()
    ensures ConfigOk(EXAMPLE) && UserStateOk(EXAMPLE, NO_USER) && ChoicesLinked(EXAMPLE)
  {
    forall s | 0 <= s < |EXAMPLE.syms| ensures SymDefOk(EXAMPLE, s) && EXAMPLE.syms[s].choice.None? { DefOk(s); }
    hide SymDefOk;
    assert DefinedSymsOk(EXAMPLE);
  }

  lemma ExampleReads(k: Key, j: Key)
    requires ConfigOk(EXAMPLE) && KeyOk(EXAMPLE, k) && j in KeyReads(EXAMPLE, k)
    ensures Rank(j) < Rank(k)
  {
    assert ItemOf(k).Sym? && ItemOf(k).s < 6;
    if k.TriOf? && k.s < 3 {
      NmyReads(EXAMPLE, k);
    } else if k.Vis? && k.i == Sym(3) {
      BoolVisReads(EXAMPLE, 3);
    }
  }

  lemma NmyReads(K: Config, k: Key)
    requires ConfigOk(K) && KeyOk(K, k) && k.TriOf? && IsNmy(K.syms[k.s])
    ensures KeyReads(K, k) == {}
  {
  }

  lemma BoolVisReads(K: Config, s: SymId)
    requires ConfigOk(K) && SymOk(K, s) && K.syms[s].prompts == [None]
    requires K.syms[s].origType == Bool && K.syms[s].choice.None?
    ensures KeyReads(K, Vis(Sym(s))) == {}
  {
  }

  lemma ExampleRanked()
    ensures ConfigOk(EXAMPLE) && Ranked(EXAMPLE, Rank)
  {
    ExampleOk();
    forall k, j | KeyOk(EXAMPLE, k) && j in KeyReads(EXAMPLE, k) ensures Rank(j) < Rank(k) {
      ExampleReads(k, j);
    }
  }

  lemma HiddenY(K: Config, U: Users, m: Cache, s: SymId, no: SymId, yes: SymId)
    requires ConfigOk(K) && Solves(K, U, m) && SymOk(K, s) && SymDefOk(K, s) && !K.syms[s].isConst
    requires K.syms[s].origType == Bool && K.syms[s].choice.None? && K.syms[s].prompts == [None]
    requires K.syms[s].defaults == [Default(Leaf(Sym(yes)), Leaf(Sym(yes)))]
    requires K.syms[s].revDep == Leaf(Sym(no)) && K.syms[s].weakRevDep == Leaf(Sym(no))
    requires GetT(m, TriOf(no)) == Some(0) && GetT(m, TriOf(yes)) == Some(2)
    ensures GetT(m, TriOf(s)) == Some(2)
  {
    SolutionKnows(K, U, m, Vis(Sym(s)));
    SolutionKnows(K, U, m, TriOf(s));
    assert PromptVis(K, U, m, K.syms[s].prompts, 0) == Some(0);
    assert PromptVis(K, U, m, K.syms[s].prompts, 1) == Some(0);
    var ds := K.syms[s].defaults;
    assert ActiveDefault(K, U, m, Bool, ds, 0) == Some(0);
    assert DefaultTri(K, U, m, Bool, ds) == Some(2);
    assert WantedTri(K, U, m, s, 0) == Some(2) && SelectTri(K, U, m, s) == Some(0);
  }

  /** The values of the constants, and of a bool symbol without prompt that is y by default. */
  lemma Basics(U: Users, m: Cache)
    requires ConfigOk(EXAMPLE) && UserStateOk(EXAMPLE, U) && Solves(EXAMPLE, U, m)
    ensures GetT(m, TriOf(0)) == Some(0) && GetT(m, TriOf(1)) == Some(1) && GetT(m, TriOf(2)) == Some(2)
    ensures GetT(m, TriOf(3)) == Some(2)
  {
    forall s | 0 <= s < 3 ensures Known(EXAMPLE, U, m, TriOf(s)) { SolutionKnows(EXAMPLE, U, m, TriOf(s)); }
    DefOk(3);
    assert EXAMPLE.syms[3] == MODULES;
    hide ConfigOk, Solves, UserStateOk, SymDefOk;
    HiddenY(EXAMPLE, U, m, 3, 0, 2);
  }

  lemma VisibleToM(K: Config, U: Users, m: Cache, s: SymId, mod: SymId)
    requires ConfigOk(K) && Solves(K, U, m) && SymOk(K, s) && SymOk(K, mod)
    requires K.syms[s].origType == Tristate && K.syms[s].choice.None? && K.syms[s].prompts == [Some(Leaf(Sym(mod)))]
    requires GetT(m, TriOf(mod)) == Some(1) && GetT(m, TriOf(K.modules)) == Some(2)
    ensures GetT(m, Vis(Sym(s))) == Some(1)
  {
    SolutionKnows(K, U, m, Vis(Sym(s)));
    var cond := Eval(K, U, m, Leaf(Sym(mod)));
    assert PromptVis(K, U, m, K.syms[s].prompts, 0) == Some(0);
    assert PromptVis(K, U, m, K.syms[s].prompts, 1) == Some(1);
  }

  lemma BoundsAre(K: Config, U: Users, m: Cache, s: SymId, rev: SymId, weak: SymId, dep: SymId)
    requires ConfigOk(K) && Solves(K, U, m) && SymOk(K, s) && SymDefOk(K, s)
    requires K.syms[s].origType == Tristate && K.syms[s].choice.None?
    requires K.syms[s].revDep == Leaf(Sym(rev)) && K.syms[s].weakRevDep == Leaf(Sym(weak)) && K.syms[s].directDep == Leaf(Sym(dep))
    requires GetT(m, TriOf(rev)).Some? && GetT(m, TriOf(weak)).Some? && GetT(m, TriOf(dep)).Some?
    requires GetT(m, Vis(Sym(s))) == Some(1) && GetT(m, TriOf(K.modules)) == Some(2)
    ensures HasBounds(K, U, m, s, Bounds(1, GetT(m, TriOf(rev)).value, GetT(m, TriOf(weak)).value, false))
  {
  }

  lemma YByDefault(K: Config, U: Users, m: Cache, s: SymId, no: SymId, yes: SymId)
    requires ConfigOk(K) && Solves(K, U, m) && SymOk(K, s) && SymDefOk(K, s) && !K.syms[s].isConst
    requires K.syms[s].origType == Tristate && K.syms[s].choice.None? && s !in U.sym
    requires K.syms[s].defaults == [Default(Leaf(Sym(yes)), Leaf(Sym(yes)))]
    requires K.syms[s].revDep == Leaf(Sym(no)) && K.syms[s].weakRevDep == Leaf(Sym(no))
    requires GetT(m, TriOf(no)) == Some(0) && GetT(m, TriOf(yes)) == Some(2) && GetT(m, Vis(Sym(s))) == Some(1)
    ensures YOnlyByDefault(K, U, m, s)
  {
    SolutionKnows(K, U, m, TriOf(s));
    var ds := K.syms[s].defaults;
    assert ActiveDefault(K, U, m, Tristate, ds, 0) == Some(0);
    assert DefaultTri(K, U, m, Tristate, ds) == Some(2);
    assert WantedTri(K, U, m, s, 1) == Some(2);
    assert SelectTri(K, U, m, s) == Some(0);
  }

  lemma LostValues(m: Cache)
    requires ConfigOk(EXAMPLE) && UserStateOk(EXAMPLE, NO_USER) && Solves(EXAMPLE, NO_USER, m)
    ensures YOnlyByDefault(EXAMPLE, NO_USER, m, 5)
  {
    DefOk(5);
    Basics(NO_USER, m);
    assert EXAMPLE.syms[5] == LOST;
    hide ConfigOk, Solves, UserStateOk, SymDefOk;
    VisibleToM(EXAMPLE, NO_USER, m, 5, 1);
    YByDefault(EXAMPLE, NO_USER, m, 5, 0, 2);
  }

  lemma ForcedValues(m: Cache)
    requires ConfigOk(EXAMPLE) && UserStateOk(EXAMPLE, NO_USER) && Solves(EXAMPLE, NO_USER, m)
    ensures SymDefOk(EXAMPLE, 4) && HasBounds(EXAMPLE, NO_USER, m, 4, Bounds(1, 1, 2, false))
  {
    DefOk(4);
    Basics(NO_USER, m);
    assert EXAMPLE.syms[4] == FORCED;
    hide ConfigOk, Solves, UserStateOk, SymDefOk;
    VisibleToM(EXAMPLE, NO_USER, m, 4, 1);
    BoundsAre(EXAMPLE, NO_USER, m, 4, 1, 2, 2);
  }

  lemma ForcedReadsBack(m: Cache, m': Cache)
    requires ConfigOk(EXAMPLE) && ChoicesLinked(EXAMPLE) && Ranked(EXAMPLE, Rank) && UserStateOk(EXAMPLE, NO_USER)
    requires Solves(EXAMPLE, NO_USER, m) && Solves(EXAMPLE, AfterSet(EXAMPLE, NO_USER, 4, TriVal(1)), m')
    ensures Assignable(Sym(4)) in m && m[Assignable(Sym(4))] == A([1])
    ensures TriOf(4) in m' && m'[TriOf(4)] == T(2)
  {
    ForcedValues(m);
    var d := EXAMPLE.syms[4];
    assert SymOk(EXAMPLE, 4) && Boolish(d.origType) && !IsNmy(d) && d.choice.None?;
    assert ValidUserVal(EXAMPLE, 4, TriVal(1));
    hide EXAMPLE, NO_USER, ConfigOk, Ranked, Solves, UserStateOk, ChoicesLinked, SymDefOk, HasBounds, AfterSet, ValidUserVal;
    AssignableIsExact(EXAMPLE, Rank, NO_USER, m, m', 4, 1, Bounds(1, 1, 2, false));
  }

  /** `assignable` can list a value that does not take effect: a symbol can be forced past m. */
  lemma ForcedPastMHappens() returns (m: Cache, m': Cache)
    ensures ConfigOk(EXAMPLE) && Ranked(EXAMPLE, Rank) && UserStateOk(EXAMPLE, NO_USER)
    ensures Solves(EXAMPLE, NO_USER, m) && Solves(EXAMPLE, AfterSet(EXAMPLE, NO_USER, 4, TriVal(1)), m')
    ensures Assignable(Sym(4)) in m && m[Assignable(Sym(4))] == A([1])
    ensures TriOf(4) in m' && m'[TriOf(4)] == T(2)
  {
    ExampleOk();
    ExampleRanked();
    hide ConfigOk, Ranked, Solves, ChoicesLinked;
    SetKeepsStateOk(EXAMPLE, NO_USER, 4, TriVal(1));
    m := AllValues(EXAMPLE, Rank, NO_USER);
    m' := AllValues(EXAMPLE, Rank, AfterSet(EXAMPLE, NO_USER, 4, TriVal(1)));
    ForcedReadsBack(m, m');
  }

  const PREFIX := "CONFIG_"

  const WALK := [SymNode(3), SymNode(4), SymNode(5)]

  lemma ExampleWalk()
    requires ConfigOk(EXAMPLE)
    ensures WalkOk(EXAMPLE, WALK) && Covers(EXAMPLE, WALK) && CommentsOk(EXAMPLE, PREFIX, [], WALK)
  {
    assert EXAMPLE.definedSyms == [3, 4, 5];
    assert WALK[0] == SymNode(3) && WALK[1] == SymNode(4) && WALK[2] == SymNode(5);
    hide ConfigOk, EXAMPLE;
  }

  lemma ExamplePlain()
    requires ConfigOk(EXAMPLE)
    ensures PlainChoices(EXAMPLE) && AllSaved(EXAMPLE)
  {
    forall s | 0 <= s < |EXAMPLE.syms| ensures EXAMPLE.syms[s].choice.None? && !EXAMPLE.syms[s].fromEnv {
      if s < 3 {
        assert EXAMPLE.syms[s] == Nmy(TriToStr(s));
      } else {
        assert EXAMPLE.syms[s] == if s == 3 then MODULES else if s == 4 then FORCED else LOST;
      }
    }
    assert EXAMPLE.choices == [] && EXAMPLE.defconfigList.None?;
    hide ConfigOk, EXAMPLE;
  }

  lemma ExampleNames()
    requires ConfigOk(EXAMPLE)
    ensures NamesOk(EXAMPLE)
  {
    assert EXAMPLE.definedSyms == [3, 4, 5];
    assert EXAMPLE.syms[3].name == "MODULES" && EXAMPLE.syms[4].name == "FORCED" && EXAMPLE.syms[5].name == "LOST";
    assert "MODULES"[0] != "FORCED"[0] && "MODULES"[0] != "LOST"[0] && "FORCED"[0] != "LOST"[0];
    hide ConfigOk, EXAMPLE;
  }

  lemma ExampleWritable(m: Cache)
    requires ConfigOk(EXAMPLE) && UserStateOk(EXAMPLE, NO_USER) && Solves(EXAMPLE, NO_USER, m) && NamesOk(EXAMPLE)
    ensures Writable(EXAMPLE, PREFIX, m)
  {
    forall s | 0 <= s < |EXAMPLE.syms|
      ensures GetS(m, StrOf(s)).Some? && TextOk(EXAMPLE, s, GetS(m, StrOf(s)).value)
    {
      if s < 3 { assert EXAMPLE.syms[s] == Nmy(TriToStr(s)); }
      ValuesAreThere(EXAMPLE, NO_USER, m, s);
    }
  }

  /** Whatever the user sets LOST to, it is at most m. */
  lemma LostIsM(U: Users, m: Cache)
    requires ConfigOk(EXAMPLE) && UserStateOk(EXAMPLE, U) && Solves(EXAMPLE, U, m)
    requires UserTri(U, 5) == Some(2) && GetT(m, TriOf(3)) == Some(2)
    ensures GetT(m, TriOf(5)) == Some(1)
  {
    forall s | 0 <= s < 3 ensures Known(EXAMPLE, U, m, TriOf(s)) { SolutionKnows(EXAMPLE, U, m, TriOf(s)); }
    DefOk(5);
    assert EXAMPLE.syms[5] == LOST;
    hide ConfigOk, Solves, UserStateOk, SymDefOk, EXAMPLE;
    VisibleToM(EXAMPLE, U, m, 5, 1);
    BoundsAre(EXAMPLE, U, m, 5, 0, 0, 2);
    UserValueReadsBack(EXAMPLE, U, m, 5, 2, Bounds(1, 0, 0, false));
  }

  /**
   * A tristate symbol that is y only by its default: it is saved as y, and loading that, over
   * any configuration, makes it m.
   */
  lemma YOnlyByDefaultHappens(U0: Users) returns (m: Cache, m': Cache)
    requires UserStateOk(EXAMPLE, U0)
    ensures ConfigOk(EXAMPLE) && Ranked(EXAMPLE, Rank) && WalkOk(EXAMPLE, WALK)
    ensures Solves(EXAMPLE, NO_USER, m) && YOnlyByDefault(EXAMPLE, NO_USER, m, 5)
    ensures Solves(EXAMPLE, Reloaded(EXAMPLE, PREFIX, U0, Contents(EXAMPLE, PREFIX, [], NO_USER, m, WALK).lines), m')
    ensures GetT(m, TriOf(5)) == Some(2) && GetT(m', TriOf(5)) == Some(1)
  {
    ExampleOk();
    ExampleRanked();
    ExampleWalk();
    ExamplePlain();
    ExampleNames();
    hide PlainChoices, AllSaved, Covers, CommentsOk, NamesOk;
    m := AllValues(EXAMPLE, Rank, NO_USER);
    LostValues(m);
    ExampleWritable(m);
    var w := Contents(EXAMPLE, PREFIX, [], NO_USER, m, WALK);
    hide ConfigOk, Ranked, Solves, UserStateOk, YOnlyByDefault, Contents, Reloaded, HasSaved, EXAMPLE;
    ContentsRecord(EXAMPLE, PREFIX, [], NO_USER, m, WALK);
    ReloadedHasSaved(EXAMPLE, PREFIX, NO_USER, m, U0, w.lines, w.visited);
    var U' := Reloaded(EXAMPLE, PREFIX, U0, w.lines);
    m' := AllValues(EXAMPLE, Rank, U');
    ReloadedLost(U', m, m');
  }

  lemma ReloadedLost(U': Users, m: Cache, m': Cache)
    requires ConfigOk(EXAMPLE) && UserStateOk(EXAMPLE, NO_USER) && UserStateOk(EXAMPLE, U')
    requires Solves(EXAMPLE, NO_USER, m) && Solves(EXAMPLE, U', m') && AllSaved(EXAMPLE)
    requires HasSaved(EXAMPLE, NO_USER, m, U') && YOnlyByDefault(EXAMPLE, NO_USER, m, 5)
    ensures GetT(m, TriOf(5)) == Some(2) && GetT(m', TriOf(5)) == Some(1)
  {
    assert EXAMPLE.syms[5] == LOST && SymOk(EXAMPLE, 5);
    assert EXAMPLE.syms[5].origType == Tristate && Defined(EXAMPLE.syms[5]) && !IsNmy(EXAMPLE.syms[5]);
    Basics(U', m');
    hide ConfigOk, Solves, UserStateOk, AllSaved, EXAMPLE, LOST;
    VisibleIsWritten(EXAMPLE, NO_USER, m, 5);
    assert SavedVal(EXAMPLE, NO_USER, m, 5) == Some(TriVal(2));
    LostIsM(U', m');
  }
}
