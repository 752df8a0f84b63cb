/** oldconfig: ask for the value of each visible new symbol and choice until nothing new shows up. */
module OldConfig {
  import opened Wrappers
  import opened Numerals
  import opened Config
  import opened Values
  import opened Reads
  import opened Meaning
  import opened Caches
  import opened Deps
  import opened Invalidation
  import opened ValueLaws
  import opened ConfText
  import opened Engine
  import opened Writers
  import opened OldConfigLaws

  // What an answer leaves behind if it changes no value

  lemma AnsweredPlain(K: Config, rank: Key -> nat, U: Users, m: Cache, m': Cache, s: SymId, v: UserVal)
    requires ConfigOk(K) && Ranked(K, rank) && UserStateOk(K, U) && SymOk(K, s)
    requires Solves(K, U, m) && Solves(K, AfterSet(K, U, s, v), m') && m'[StrOf(s)] == m[StrOf(s)]
    requires UserStateOk(K, AfterSet(K, U, s, v)) && OnlySym(U, AfterSet(K, U, s, v), s)
    requires ValidUserVal(K, s, SymInput(K, s, v))
    ensures m' == m && Answers(K, m, U, AfterSet(K, U, s, v)) && s in AfterSet(K, U, s, v).sym
  {
    hide ConfigOk, Ranked, UserStateOk, Solves, ValidUserVal, SymInput;
    SameValueSameAll(K, rank, U, AfterSet(K, U, s, v), m, m', s);
  }

  lemma AnsweredSelect(
    K: Config, rank: Key -> nat, U: Users, m: Cache, m': Cache, s: SymId, v: UserVal, c: ChoiceId)
    requires ConfigOk(K) && Ranked(K, rank) && UserStateOk(K, U) && SymOk(K, s) && c < |K.choices|
    requires Solves(K, U, m) && Solves(K, AfterSet(K, U, s, v), m') && m'[StrOf(s)] == m[StrOf(s)]
    requires UserStateOk(K, AfterSet(K, U, s, v)) && K.syms[s].choice == Some(c) && !InYMode(K, U, m, c)
    requires Boolish(K.syms[s].origType) && !K.syms[s].isConst && SymInput(K, s, v) == TriVal(2)
    ensures m' == m && Answers(K, m, U, AfterSet(K, U, s, v)) && s in AfterSet(K, U, s, v).sym
  {
    SetSelects(K, U, s, v, c);
    hide ConfigOk, Ranked, UserStateOk, Solves, ValidUserVal, SymInput;
    SelectOutsideYMode(K, rank, U, AfterSet(K, U, s, v), m, m', s, c);
  }

  lemma AnsweredSym(K: Config, rank: Key -> nat, U: Users, m: Cache, m': Cache, s: SymId, v: UserVal)
    requires ConfigOk(K) && ChoicesOk(K) && Ranked(K, rank) && UserStateOk(K, U) && SymOk(K, s)
    requires Solves(K, U, m) && Solves(K, AfterSet(K, U, s, v), m') && m'[StrOf(s)] == m[StrOf(s)]
    requires AsksSym(K, U, m, s) && ValidUserVal(K, s, SymInput(K, s, v))
    ensures m' == m && UserStateOk(K, AfterSet(K, U, s, v))
    ensures Answers(K, m, U, AfterSet(K, U, s, v)) && s in AfterSet(K, U, s, v).sym
  {
    var choice := K.syms[s].choice;
    assert SymDefOk(K, s);
    SetChanges(K, U, s, v);
    hide ConfigOk, ChoicesOk, Ranked, UserStateOk, Solves, Answers, AfterSet, SymInput;
    if choice.Some? && SymInput(K, s, v) == TriVal(2) {
      assert Boolish(K.syms[s].origType);
      AnsweredSelect(K, rank, U, m, m', s, v, choice.value);
    } else {
      AnsweredPlain(K, rank, U, m, m', s, v);
    }
  }

  lemma Rejected(K: Config, U: Users, s: SymId, v: UserVal)
    requires SymOk(K, s)
    ensures !ValidUserVal(K, s, SymInput(K, s, v)) ==> AfterSet(K, U, s, v) == U
  {
  }

  /** The user state after symbols were given user values without changing any selection. */
  ghost predicate OnlyAdds(U: Users, U': Users) {
    U'.mode == U.mode && U'.pick == U.pick && forall s :: s in U.sym ==> s in U'.sym
  }

  lemma MemberOk(K: Config, c: ChoiceId, s: SymId)
    requires ConfigOk(K) && ChoicesOk(K) && c < |K.choices| && s in K.choices[c].syms
    ensures SymOk(K, s) && K.syms[s].choice == Some(c) && Boolish(K.syms[s].origType) && !K.syms[s].isConst
    ensures OwnsSyms(K, c) && ValidUserVal(K, s, TriVal(0)) && ValidUserVal(K, s, TriVal(2))
  {
    assert OwnsSyms(K, c) && ChoiceDefOk(K, c);
    var j :| 0 <= j < |K.choices[c].syms| && K.choices[c].syms[j] == s;
    assert SymDefOk(K, s);
  }

  lemma Deselected(K: Config, U: Users, s: SymId)
    requires ConfigOk(K) && ChoicesLinked(K) && UserStateOk(K, U) && SymOk(K, s) && Boolish(K.syms[s].origType)
    ensures var U' := AfterSet(K, U, s, TriVal(0));
      UserStateOk(K, U') && OnlySym(U, U', s) && OnlyAdds(U, U') && (ValidUserVal(K, s, TriVal(0)) ==> s in U'.sym)
  {
    SetChanges(K, U, s, TriVal(0));
  }

  lemma DeselectedSameAll(K: Config, rank: Key -> nat, U: Users, m: Cache, m': Cache, s: SymId, c: ChoiceId)
    requires ConfigOk(K) && ChoicesOk(K) && Ranked(K, rank) && UserStateOk(K, U) && c < |K.choices|
    requires s in K.choices[c].syms && SymOk(K, s) && InYMode(K, U, m, c)
    requires Solves(K, U, m) && Solves(K, AfterSet(K, U, s, TriVal(0)), m')
    ensures m' == m
  {
    MemberOk(K, c, s);
    assert ChoicesLinked(K);
    hide ConfigOk, ChoicesOk, Ranked, UserStateOk, Solves, AfterSet, ChoicesLinked;
    Deselected(K, U, s);
    DeselectInYMode(K, rank, U, AfterSet(K, U, s, TriVal(0)), m, m', s, c);
  }

  lemma SelectedSameAll(K: Config, rank: Key -> nat, U: Users, m: Cache, m': Cache, s: SymId, c: ChoiceId)
    requires ConfigOk(K) && ChoicesOk(K) && Ranked(K, rank) && UserStateOk(K, U) && c < |K.choices|
    requires s in K.choices[c].syms && SymOk(K, s) && InYMode(K, U, m, c) && ShownAsY(m, s)
    requires Solves(K, U, m) && Solves(K, AfterSet(K, U, s, TriVal(2)), m') && TriOf(s) in m && m[TriOf(s)] == T(2)
    ensures m' == m
  {
    MemberOk(K, c, s);
    SetKeepsStateOk(K, U, s, TriVal(2));
    SetSelects(K, U, s, TriVal(2), c);
    hide ConfigOk, ChoicesOk, Ranked, UserStateOk, Solves, AfterSet, ChoicesLinked;
    SelectSelected(K, rank, U, AfterSet(K, U, s, TriVal(2)), m, m', s, c);
  }

  lemma ChosenAnswers(K: Config, U: Users, s: SymId, c: ChoiceId)
    requires ConfigOk(K) && ChoicesOk(K) && c < |K.choices| && s in K.choices[c].syms && SymOk(K, s)
    ensures var U' := AfterSet(K, U, s, TriVal(2));
      U'.mode == U.mode && U'.pick == U.pick[c := s] && forall t :: t in U.sym ==> t in U'.sym
  {
    MemberOk(K, c, s);
  }

  lemma AnswersTwo(K: Config, m: Cache, U: Users, U': Users, U'': Users, c: ChoiceId)
    requires c < |K.choices| && U'.mode == U.mode && (forall t :: t in U.sym ==> t in U'.sym)
    requires c in U'.pick && U'.pick == U.pick[c := U'.pick[c]] && OnlyAdds(U', U'') && Settled(K, U'', m, c)
    ensures Answers(K, m, U, U'')
  {
  }

  lemma SelectionIsOption(K: Config, U: Users, m: Cache, c: ChoiceId)
    requires ConfigOk(K) && ChoicesOk(K) && UserStateOk(K, U) && Solves(K, U, m) && c < |K.choices|
    requires Options(m, K.choices[c].syms) != []
    ensures Sel(c) in m && m[Sel(c)].P? && m[Sel(c)].pick.Some?
    ensures var s := m[Sel(c)].pick.value;
      s in K.choices[c].syms && ShownAsY(m, s) && TriOf(s) in m && m[TriOf(s)] == T(2)
  {
    var t := Options(m, K.choices[c].syms)[0];
    OptionsAreShown(m, K.choices[c].syms);
    hide ConfigOk, ChoicesOk, UserStateOk, Solves, Known, InYMode, Options;
    HasSelection(K, U, m, c, t);
    var s := m[Sel(c)].pick.value;
    MemberOk(K, c, s);
    SelectionIsY(K, U, m, c, s);
  }

  lemma HasSelection(K: Config, U: Users, m: Cache, c: ChoiceId, t: SymId)
    requires ConfigOk(K) && ChoicesOk(K) && UserStateOk(K, U) && Solves(K, U, m) && c < |K.choices|
    requires t in K.choices[c].syms && ShownAsY(m, t)
    ensures InYMode(K, U, m, c) && Sel(c) in m && m[Sel(c)].P? && m[Sel(c)].pick.Some?
    ensures m[Sel(c)].pick.value in K.choices[c].syms && GetT(m, Vis(Sym(m[Sel(c)].pick.value))) != Some(0)
  {
    hide ConfigOk, ChoicesOk, UserStateOk, Solves;
    ShownAsYInYMode(K, U, m, c, t);
    SelectionInYMode(K, U, m, c);
    var j :| 0 <= j < |K.choices[c].syms| && K.choices[c].syms[j] == t;
  }

  lemma SelectionIsY(K: Config, U: Users, m: Cache, c: ChoiceId, s: SymId)
    requires ConfigOk(K) && Solves(K, U, m) && c < |K.choices| && InYMode(K, U, m, c)
    requires SymOk(K, s) && K.syms[s].choice == Some(c) && Boolish(K.syms[s].origType) && !K.syms[s].isConst
    requires Sel(c) in m && m[Sel(c)] == P(Some(s)) && GetT(m, Vis(Sym(s))) != Some(0)
    ensures ShownAsY(m, s) && TriOf(s) in m && m[TriOf(s)] == T(2)
  {
    NoMVisibleInYMode(K, U, m, s, c);
    hide ConfigOk, Solves;
    ChosenBySelection(K, U, m, s, c);
  }

  lemma OptionsStep(m: Cache, syms: seq<SymId>, n: nat)
    requires n <= |syms|
    ensures Options(m, syms[..n]) ==
      if n == 0 then []
      else Options(m, syms[..n - 1]) + (if GetT(m, Vis(Sym(syms[n - 1]))) == Some(2) then [syms[n - 1]] else [])
  {
    if n > 0 { assert syms[..n][..n - 1] == syms[..n - 1]; }
  }

  /** Input is only taken away, and whenever the flag is raised. */
  predicate Progress(before: seq<string>, inputs: seq<string>, flagBefore: bool, flag: bool) {
    |inputs| <= |before| && (flagBefore ==> flag) && (flag && !flagBefore ==> |inputs| < |before|)
  }

  /** No node is asked about. */
  predicate Quiet(K: Config, U: Users, m: Cache, nodes: seq<Node>)
    requires NodesOk(K, nodes)
  {
    forall n :: 0 <= n < |nodes| ==> !Asks(K, U, m, nodes[n])
  }

  lemma QuietStep(K: Config, U: Users, U': Users, m: Cache, nodes: seq<Node>, n: nat)
    requires ConfigOk(K) && ChoicesOk(K) && UserStateOk(K, U) && UserStateOk(K, U') && NodesOk(K, nodes) && n < |nodes|
    requires Solves(K, U, m) && Solves(K, U', m) && Answers(K, m, U, U')
    requires Quiet(K, U, m, nodes[..n]) && !Asks(K, U', m, nodes[n])
    ensures Quiet(K, U', m, nodes[..n + 1])
  {
    hide ConfigOk, ChoicesOk, UserStateOk, Solves, Answers, Asks;
    forall j | 0 <= j < n ensures !Asks(K, U', m, nodes[j]) {
      assert nodes[..n][j] == nodes[j];
      AnswersStay(K, m, U, U', nodes[j]);
    }
  }

  lemma SymsOk(K: Config, c: ChoiceId)
    requires ConfigOk(K) && c < |K.choices|
    ensures forall j :: 0 <= j < |K.choices[c].syms| ==> SymOk(K, K.choices[c].syms[j])
  {
    assert ChoiceDefOk(K, c);
  }

  lemma SettledNone(U: Users, m: Cache, chosen: SymId)
    ensures SettledTo(U, m, chosen, [])
  {
  }

  lemma SettledNext(U: Users, m: Cache, chosen: SymId, syms: seq<SymId>, n: nat)
    requires n < |syms| && SettledTo(U, m, chosen, syms[..n])
    ensures
      var answered := syms[n] == chosen || !Shown(m, Sym(syms[n])) || syms[n] in U.sym;
      SettledTo(U, m, chosen, syms[..n + 1]) == answered && (!answered ==> !SettledTo(U, m, chosen, syms))
  {
    assert syms[..n + 1] == syms[..n] + [syms[n]];
    assert syms[..n + 1][n] == syms[n];
  }

  lemma SettledStep(U: Users, U': Users, m: Cache, chosen: SymId, syms: seq<SymId>, n: nat)
    requires n < |syms| && SettledTo(U, m, chosen, syms[..n]) && OnlyAdds(U, U')
    requires syms[n] == chosen || !Shown(m, Sym(syms[n])) || syms[n] in U'.sym
    ensures SettledTo(U', m, chosen, syms[..n + 1])
  {
    assert syms[..n + 1] == syms[..n] + [syms[n]];
  }

  lemma SameMode(K: Config, U: Users, U': Users, m: Cache, c: ChoiceId)
    requires U'.mode == U.mode
    ensures InYMode(K, U', m, c) == InYMode(K, U, m, c)
  {
  }

  /** What the user has entered for s with this line: an empty line means its present value, and hex values get a `0x`. */
  ghost function Entered(K: Config, m: Cache, s: SymId, line: string): string
    requires SymOk(K, s)
  {
    var val := if line == "" && GetS(m, StrOf(s)).Some? then GetS(m, StrOf(s)).value else line;
    if K.syms[s].origType == Hex && !StartsWith(val, "0x") && !StartsWith(val, "0X") then "0x" + val else val
  }

  /** The line is a value for s that the symbol accepts. */
  ghost predicate Accepted(K: Config, m: Cache, s: SymId, line: string)
    requires SymOk(K, s)
  {
    line != "?" && ValidUserVal(K, s, SymInput(K, s, StrVal(Entered(K, m, s, line))))
  }

  /** The line takes option s of the choice: by its number, counted from 1, or the present selection if the line is empty. */
  ghost predicate Takes(K: Config, m: Cache, c: ChoiceId, line: string, s: SymId)
    requires c < |K.choices|
  {
    var options := Options(m, K.choices[c].syms);
    if line == "" then GetP(m, Sel(c)) == Some(Some(s))
    else line != "?" && exists n :: 0 <= n < |options| && ParseInt(line, 10) == Some(n + 1) && options[n] == s
  }

  ghost predicate TakesNone(K: Config, m: Cache, c: ChoiceId, line: string)
    requires c < |K.choices|
  {
    forall s :: !Takes(K, m, c, line, s)
  }

  /** None of the first n lines takes an option of the choice. */
  ghost predicate NoneTaken(K: Config, m: Cache, c: ChoiceId, lines: seq<string>, n: int)
    requires c < |K.choices|
  {
    n <= |lines| && forall j :: 0 <= j < n ==> TakesNone(K, m, c, lines[j])
  }

  lemma NoneTakenYet(K: Config, m: Cache, c: ChoiceId, lines: seq<string>)
    requires c < |K.choices|
    ensures NoneTaken(K, m, c, lines, 0)
  {
  }

  lemma NoneTakenNext(K: Config, m: Cache, c: ChoiceId, lines: seq<string>, n: nat)
    requires c < |K.choices| && n < |lines| && NoneTaken(K, m, c, lines, n)
    ensures TakesNone(K, m, c, lines[n]) ==> NoneTaken(K, m, c, lines, n + 1)
  {
    hide TakesNone;
  }

  /** The last line that was entered, when `rest` is left of the lines. */
  ghost function LastLine(lines: seq<string>, rest: seq<string>): string
    requires |rest| < |lines|
  {
    lines[|lines| - |rest| - 1]
  }

  /** `rest` is left of the lines. */
  ghost predicate LeftOf(lines: seq<string>, rest: seq<string>) {
    |rest| <= |lines| && rest == lines[|lines| - |rest|..]
  }

  lemma NextLine(lines: seq<string>, rest: seq<string>)
    requires LeftOf(lines, rest) && rest != []
    ensures LeftOf(lines, rest[1..]) && LastLine(lines, rest[1..]) == rest[0]
  {
  }

  /** Symbols of the choice other than the chosen one have the user value n, as far as they are visible. */
  ghost predicate Zeroed(U: Users, m: Cache, chosen: SymId, syms: seq<SymId>) {
    forall n :: 0 <= n < |syms| && syms[n] != chosen && Shown(m, Sym(syms[n])) ==>
      syms[n] in U.sym && U.sym[syms[n]] == TriVal(0)
  }

  /** Only symbols of the choice other than the chosen one have new user values, and these are n. */
  ghost predicate OnlyZeros(U: Users, U': Users, chosen: SymId, syms: seq<SymId>) {
    forall t :: t in U'.sym ==>
      (t in U.sym && U'.sym[t] == U.sym[t]) || (t != chosen && t in syms && U'.sym[t] == TriVal(0))
  }

  lemma ZeroedStep(U: Users, U': Users, m: Cache, chosen: SymId, syms: seq<SymId>, n: nat)
    requires n < |syms| && Zeroed(U, m, chosen, syms[..n]) && OnlyAdds(U, U') && OnlyZeros(U, U', chosen, syms)
    requires syms[n] == chosen || !Shown(m, Sym(syms[n])) || (syms[n] in U'.sym && U'.sym[syms[n]] == TriVal(0))
    ensures Zeroed(U', m, chosen, syms[..n + 1])
  {
    assert syms[..n + 1] == syms[..n] + [syms[n]];
  }

  /** s is the user selection of the choice and y; other symbols of it may have become n, and nothing else has changed. */
  ghost predicate Selected(U: Users, U': Users, c: ChoiceId, s: SymId, syms: seq<SymId>) {
    && U'.mode == U.mode && U'.pick == U.pick[c := s] && s in U'.sym && U'.sym[s] == TriVal(2)
    && OnlyZeros(U.(sym := U.sym[s := TriVal(2)]), U', s, syms)
  }

  lemma ZerosTwice(U: Users, U': Users, U'': Users, chosen: SymId, syms: seq<SymId>)
    requires OnlyZeros(U, U', chosen, syms) && OnlyZeros(U', U'', chosen, syms)
    ensures OnlyZeros(U, U'', chosen, syms)
  {
  }

  class OldConfig {
    const k: Kconfig
    const nodes: seq<Node>
    /** The lines that the user will enter. */
    var inputs: seq<string>
    var confChanged: bool

    constructor (k: Kconfig, nodes: seq<Node>, inputs: seq<string>)
      requires k.Valid() && ChoicesOk(k.K) && NodesOk(k.K, nodes)
      ensures this.k == k && this.nodes == nodes && this.inputs == inputs && Ready()
    {
      this.k := k;
      this.nodes := nodes;
      this.inputs := inputs;
      confChanged := false;
    }

    ghost predicate Ready()
      reads this, k
    {
      k.Valid() && ChoicesOk(k.K) && NodesOk(k.K, nodes)
    }

    /** All values in the present state. */
    ghost function Present(): (m: Cache)
      requires Ready()
      reads this, k
      ensures Solves(k.K, k.users, m)
    {
      AllValues(k.K, k.rank, k.users)
    }

    method VisNow(i: Item, ghost m: Cache) returns (v: Tri)
      requires Ready() && ItemOk(k.K, i) && Solves(k.K, k.users, m)
      modifies k`cache
      ensures Ready() && GetT(m, Vis(i)) == Some(v)
    {
      v := k.Visibility(i);
      CacheIsPart(k.K, k.rank, k.users, k.cache, m);
    }

    method StrNow(s: SymId, ghost m: Cache) returns (v: string)
      requires Ready() && SymOk(k.K, s) && Solves(k.K, k.users, m)
      modifies k`cache
      ensures Ready() && StrOf(s) in m && m[StrOf(s)] == S(v)
    {
      v := k.StrValue(s);
      CacheIsPart(k.K, k.rank, k.users, k.cache, m);
    }

    method TriNow(s: SymId, ghost m: Cache) returns (v: Tri)
      requires Ready() && SymOk(k.K, s) && Solves(k.K, k.users, m)
      modifies k`cache
      ensures Ready() && TriOf(s) in m && m[TriOf(s)] == T(v)
    {
      v := k.TriValue(s);
      CacheIsPart(k.K, k.rank, k.users, k.cache, m);
    }

    /** Asks for the value of s. Ends with `done` false if there is no more input. */
    method AskSym(s: SymId, ghost m: Cache) returns (done: bool)
      requires Ready() && SymOk(k.K, s) && Solves(k.K, k.users, m) && AsksSym(k.K, k.users, m, s)
      modifies this, k
      ensures Ready() && (old(confChanged) ==> confChanged)
      ensures |inputs| < |old(inputs)| || (!done && confChanged == old(confChanged) && |inputs| <= |old(inputs)|)
      ensures done && !confChanged ==>
        Solves(k.K, k.users, m) && Answers(k.K, m, old(k.users), k.users) && !AsksSym(k.K, k.users, m, s)
      ensures LeftOf(old(inputs), inputs) && (!done ==> inputs == [] && k.users == old(k.users))
      ensures done ==>
        var line := LastLine(old(inputs), inputs);
        Accepted(k.K, m, s, line) && k.users == AfterSet(k.K, old(k.users), s, StrVal(Entered(k.K, m, s, line)))
      ensures forall j :: 0 <= j < |old(inputs)| - |inputs| - (if done then 1 else 0) ==> !Accepted(k.K, m, s, old(inputs)[j])
      ensures done ==> (confChanged <==> old(confChanged) || GetS(Present(), StrOf(s)) != GetS(m, StrOf(s)))
    {
      hide ConfigOk, ChoicesOk, Ranked, Justified, UserStateOk, Solves, Answers, AfterSet, SymInput, ValidUserVal, ChoicesLinked, DependentsOk, ConstantsIn, WritesIn, NodesOk;
      while true
        invariant Ready() && k.users == old(k.users) && confChanged == old(confChanged) && |inputs| <= |old(inputs)|
        invariant LeftOf(old(inputs), inputs)
        invariant forall j :: 0 <= j < |old(inputs)| - |inputs| ==> !Accepted(k.K, m, s, old(inputs)[j])
        decreases |inputs|
      {
        if inputs == [] {
          return false;
        }
        NextLine(old(inputs), inputs);
        var val := inputs[0];
        ghost var line := val;
        inputs := inputs[1..];
        if val == "?" {
          continue;
        }
        if val == "" {
          val := StrNow(s, m);
        }
        if k.K.syms[s].origType == Hex {
          val := WithPrefix(val);
        }
        assert val == Entered(k.K, m, s, line);
        var accepted := TryVal(s, val, m);
        if accepted {
          return true;
        }
      }
      return false;
    }

    /** Assigns val to s if s accepts it, and takes down whether the value of s has changed. */
    method TryVal(s: SymId, val: string, ghost m: Cache) returns (accepted: bool)
      requires Ready() && SymOk(k.K, s) && Solves(k.K, k.users, m) && AsksSym(k.K, k.users, m, s)
      modifies this`confChanged, k
      ensures Ready() && accepted == ValidUserVal(k.K, s, SymInput(k.K, s, StrVal(val)))
      ensures !accepted ==> k.users == old(k.users) && confChanged == old(confChanged)
      ensures accepted ==> k.users == AfterSet(k.K, old(k.users), s, StrVal(val))
      ensures accepted ==> (confChanged <==> old(confChanged) || GetS(Present(), StrOf(s)) != GetS(m, StrOf(s)))
      ensures accepted && !confChanged ==>
        Solves(k.K, k.users, m) && Answers(k.K, m, old(k.users), k.users) && !AsksSym(k.K, k.users, m, s)
    {
      hide ConfigOk, ChoicesOk, Ranked, Justified, UserStateOk, Solves, Answers, AfterSet, SymInput, ValidUserVal, ChoicesLinked, DependentsOk, ConstantsIn, WritesIn, NodesOk;
      var before := StrNow(s, m);
      Rejected(k.K, k.users, s, StrVal(val));
      accepted := k.SetValue(s, StrVal(val));
      if accepted {
        ghost var m' := Present();
        var after := StrNow(s, m');
        if after != before {
          confChanged := true;
        } else {
          AnsweredSym(k.K, k.rank, old(k.users), m, m', s, StrVal(val));
        }
      }
    }

    method SetOther(c: ChoiceId, s: SymId, ghost m: Cache)
      requires Ready() && c < |k.K.choices| && s in k.K.choices[c].syms
      requires !confChanged ==> Solves(k.K, k.users, m) && InYMode(k.K, k.users, m, c)
      modifies k
      ensures Ready() && OnlyAdds(old(k.users), k.users) && s in k.users.sym
      ensures k.users.sym == old(k.users).sym[s := TriVal(0)]
      ensures !confChanged ==> Solves(k.K, k.users, m)
    {
      MemberOk(k.K, c, s);
      Deselected(k.K, k.users, s);
      var _ := k.SetValue(s, TriVal(0));
      if !confChanged {
        DeselectedSameAll(k.K, k.rank, old(k.users), m, Present(), s, c);
      }
    }

    method SetIfOther(c: ChoiceId, s: SymId, ghost m: Cache)
      requires Ready() && c < |k.K.choices| && s in k.K.choices[c].syms && c in k.users.pick
      requires !confChanged ==> Solves(k.K, k.users, m) && InYMode(k.K, k.users, m, c)
      modifies k
      ensures Ready() && OnlyAdds(old(k.users), k.users)
      ensures OnlyZeros(old(k.users), k.users, k.users.pick[c], k.K.choices[c].syms)
      ensures !confChanged ==>
        Solves(k.K, k.users, m) &&
        (s == k.users.pick[c] || !Shown(m, Sym(s)) || (s in k.users.sym && k.users.sym[s] == TriVal(0)))
    {
      MemberOk(k.K, c, s);
      if s != k.users.pick[c] {
        var vis := k.Visibility(Sym(s));
        if !confChanged {
          CacheIsPart(k.K, k.rank, k.users, k.cache, m);
        }
        if vis != 0 {
          SetOther(c, s, m);
        }
      }
    }

    /** Gives all visible symbols but the selected one the user value n. */
    method SetOthers(c: ChoiceId, ghost m: Cache)
      requires Ready() && c < |k.K.choices| && c in k.users.pick
      requires !confChanged ==> Solves(k.K, k.users, m) && InYMode(k.K, k.users, m, c) && ShownAsY(m, k.users.pick[c])
      modifies k
      ensures Ready() && OnlyAdds(old(k.users), k.users)
      ensures OnlyZeros(old(k.users), k.users, k.users.pick[c], k.K.choices[c].syms)
      ensures !confChanged ==> Solves(k.K, k.users, m) && Settled(k.K, k.users, m, c)
      ensures !confChanged ==> Zeroed(k.users, m, k.users.pick[c], k.K.choices[c].syms)
    {
      hide ConfigOk, ChoicesOk, Ranked, Justified, UserStateOk, Solves, ChoicesLinked, DependentsOk, ConstantsIn, WritesIn, NodesOk, InYMode, Shown, ShownAsY;
      var syms := k.K.choices[c].syms;
      ghost var chosen := k.users.pick[c];
      for n := 0 to |syms|
        invariant Ready() && OnlyAdds(old(k.users), k.users) && OnlyZeros(old(k.users), k.users, chosen, syms)
        invariant !confChanged ==> Solves(k.K, k.users, m) && SettledTo(k.users, m, chosen, syms[..n])
        invariant !confChanged ==> Zeroed(k.users, m, chosen, syms[..n])
      {
        ghost var before := k.users;
        SameMode(k.K, old(k.users), k.users, m, c);
        SetIfOther(c, syms[n], m);
        ZerosTwice(old(k.users), before, k.users, chosen, syms);
        if !confChanged {
          SettledStep(before, k.users, m, chosen, syms, n);
          ZeroedStep(before, k.users, m, chosen, syms, n);
        }
      }
      assert syms[..|syms|] == syms;
    }

    method TakeOptions(c: ChoiceId, ghost m: Cache) returns (options: seq<SymId>)
      requires Ready() && c < |k.K.choices| && Solves(k.K, k.users, m)
      modifies k`cache
      ensures Ready() && options == Options(m, k.K.choices[c].syms)
    {
      var syms := k.K.choices[c].syms;
      assert ChoiceDefOk(k.K, c);
      assert forall j :: 0 <= j < |syms| ==> SymOk(k.K, syms[j]);
      hide ConfigOk, ChoicesOk, Ranked, Justified, UserStateOk, Solves, ChoicesLinked, DependentsOk, ConstantsIn, WritesIn, NodesOk, Options, ShownAsY;
      OptionsStep(m, syms, 0);
      options := [];
      for n := 0 to |syms|
        invariant Ready() && options == Options(m, syms[..n])
      {
        OptionsStep(m, syms, n + 1);
        var vis := VisNow(Sym(syms[n]), m);
        options := options + (if vis == 2 then [syms[n]] else []);
      }
      assert syms[..|syms|] == syms;
    }

    /** Makes the option s the user selection, and answers for the other symbols. */
    method Choose(c: ChoiceId, s: SymId, ghost m: Cache)
      requires Ready() && c < |k.K.choices| && s in k.K.choices[c].syms
      requires !confChanged ==> Solves(k.K, k.users, m) && ShownAsY(m, s) && TriOf(s) in m && m[TriOf(s)] == T(2)
      modifies k
      ensures Ready()
      ensures Selected(old(k.users), k.users, c, s, k.K.choices[c].syms)
      ensures !confChanged ==>
        Solves(k.K, k.users, m) && Answers(k.K, m, old(k.users), k.users) && Settled(k.K, k.users, m, c)
      ensures !confChanged ==> Zeroed(k.users, m, s, k.K.choices[c].syms)
    {
      MemberOk(k.K, c, s);
      SetKeepsStateOk(k.K, k.users, s, TriVal(2));
      var _ := k.SetValue(s, TriVal(2));
      ghost var chosen := k.users;
      if !confChanged {
        ShownAsYInYMode(k.K, old(k.users), m, c, s);
        SelectedSameAll(k.K, k.rank, old(k.users), m, Present(), s, c);
      }
      ChosenAnswers(k.K, old(k.users), s, c);
      SameMode(k.K, old(k.users), k.users, m, c);
      SetOthers(c, m);
      if !confChanged {
        AnswersTwo(k.K, m, old(k.users), chosen, k.users, c);
      }
    }

    /** The option of c that a line takes, if any. */
    method OptionOf(answer: string, options: seq<SymId>, c: ChoiceId, ghost m: Cache) returns (chosen: Option<SymId>)
      requires Ready() && c < |k.K.choices| && Solves(k.K, k.users, m)
      requires options == Options(m, k.K.choices[c].syms) && options != []
      modifies k`cache
      ensures Ready()
      ensures chosen.Some? ==> Takes(k.K, m, c, answer, chosen.value) && chosen.value in k.K.choices[c].syms && ShownAsY(m, chosen.value)
      ensures chosen.None? ==> TakesNone(k.K, m, c, answer)
    {
      OptionsAreShown(m, k.K.choices[c].syms);
      hide ConfigOk, ChoicesOk, Ranked, Justified, UserStateOk, Solves, ChoicesLinked, DependentsOk, ConstantsIn, WritesIn, NodesOk, Options, ShownAsY;
      if answer == "?" {
        return None;
      }
      if answer == "" {
        var selection := DefaultOption(c, m);
        return Some(selection);
      }
      var index := ParseInt(answer, 10);
      if index.None? || !(1 <= index.value <= |options|) {
        return None;
      }
      assert ParseInt(answer, 10) == Some(index.value - 1 + 1) && options[index.value - 1] in options;
      return Some(options[index.value - 1]);
    }

    /** Reads lines until one takes an option of c; None if there is no more input. */
    method ReadOption(c: ChoiceId, ghost m: Cache) returns (chosen: Option<SymId>)
      requires Ready() && c < |k.K.choices| && Solves(k.K, k.users, m) && Options(m, k.K.choices[c].syms) != []
      modifies this`inputs, k`cache
      ensures Ready() && LeftOf(old(inputs), inputs)
      ensures chosen.None? ==> inputs == []
      ensures chosen.Some? ==>
        |inputs| < |old(inputs)| && Takes(k.K, m, c, LastLine(old(inputs), inputs), chosen.value) &&
        chosen.value in k.K.choices[c].syms && ShownAsY(m, chosen.value)
      ensures NoneTaken(k.K, m, c, old(inputs), |old(inputs)| - |inputs| - (if chosen.Some? then 1 else 0))
    {
      var options := TakeOptions(c, m);
      hide ConfigOk, ChoicesOk, Ranked, Justified, UserStateOk, Solves, ChoicesLinked, DependentsOk, ConstantsIn, WritesIn, NodesOk, Options, ShownAsY, Takes, TakesNone, NoneTaken;
      NoneTakenYet(k.K, m, c, inputs);
      while inputs != []
        invariant Ready() && LeftOf(old(inputs), inputs)
        invariant NoneTaken(k.K, m, c, old(inputs), |old(inputs)| - |inputs|)
        decreases |inputs|
      {
        NextLine(old(inputs), inputs);
        NoneTakenNext(k.K, m, c, old(inputs), |old(inputs)| - |inputs|);
        var answer := inputs[0];
        inputs := inputs[1..];
        chosen := OptionOf(answer, options, c, m);
        if chosen.Some? {
          return;
        }
      }
      return None;
    }

    /** Asks for the selection of c. */
    method AskChoice(c: ChoiceId, ghost m: Cache) returns (done: bool)
      requires Ready() && c < |k.K.choices| && Solves(k.K, k.users, m) && Options(m, k.K.choices[c].syms) != []
      modifies this, k
      ensures Ready() && (old(confChanged) ==> confChanged)
      ensures |inputs| < |old(inputs)| || (!done && confChanged == old(confChanged) && |inputs| <= |old(inputs)|)
      ensures done && !confChanged ==>
        Solves(k.K, k.users, m) && Answers(k.K, m, old(k.users), k.users) && Settled(k.K, k.users, m, c)
      ensures LeftOf(old(inputs), inputs) && (!done ==> inputs == [] && k.users == old(k.users))
      ensures done ==>
        exists s :: Takes(k.K, m, c, LastLine(old(inputs), inputs), s) &&
          Selected(old(k.users), k.users, c, s, k.K.choices[c].syms) &&
          (confChanged <==> old(confChanged) || GetT(m, TriOf(s)) != Some(2)) &&
          (!confChanged ==> Zeroed(k.users, m, s, k.K.choices[c].syms))
      ensures NoneTaken(k.K, m, c, old(inputs), |old(inputs)| - |inputs| - (if done then 1 else 0))
    {
      SymsOk(k.K, c);
      hide ConfigOk, ChoicesOk, Ranked, Justified, UserStateOk, Solves, ChoicesLinked, DependentsOk, ConstantsIn, WritesIn, NodesOk, Options, Takes, NoneTaken, Answers, Settled, Zeroed, Selected;
      var option := ReadOption(c, m);
      if option.None? {
        return false;
      }
      var chosen := option.value;
      var tri := TriNow(chosen, m);
      if tri != 2 {
        confChanged := true;
      }
      Choose(c, chosen, m);
      return true;
    }

    /** choice.selection, which there is if there are options */
    method DefaultOption(c: ChoiceId, ghost m: Cache) returns (s: SymId)
      requires Ready() && c < |k.K.choices| && Solves(k.K, k.users, m) && Options(m, k.K.choices[c].syms) != []
      modifies k`cache
      ensures Ready() && s in k.K.choices[c].syms && ShownAsY(m, s) && TriOf(s) in m && m[TriOf(s)] == T(2)
      ensures GetP(m, Sel(c)) == Some(Some(s))
    {
      SelectionIsOption(k.K, k.users, m, c);
      var selection := k.SelectionOf(c);
      CacheIsPart(k.K, k.rank, k.users, k.cache, m);
      return selection.value;
    }

    /** Whether s is up for a question, given that it is visible and has a prompt. */
    method SymIsNew(s: SymId, ghost m: Cache) returns (r: bool)
      requires Ready() && SymOk(k.K, s) && Solves(k.K, k.users, m) && Shown(m, Sym(s))
      modifies k`cache
      ensures Ready() && r == AsksSym(k.K, k.users, m, s)
    {
      if s in k.users.sym {
        return false;
      }
      var assignable := k.AssignableValues(Sym(s));
      CacheIsPart(k.K, k.rank, k.users, k.cache, m);
      if |assignable| == 1 {
        return false;
      }
      var choice := k.K.syms[s].choice;
      if choice.Some? {
        assert SymDefOk(k.K, s);
        var mode := ModeNow(choice.value, m);
        return mode != 2;
      }
      return true;
    }

    method ModeNow(c: ChoiceId, ghost m: Cache) returns (mode: Tri)
      requires Ready() && c < |k.K.choices| && Solves(k.K, k.users, m)
      modifies k`cache
      ensures Ready() && ChoiceTri(k.K, k.users, m, c) == Some(mode)
    {
      mode := k.ChoiceMode(c, k.rank(Vis(Cho(c))) + k.rank(TriOf(k.K.modules)) + 1);
      CacheIsPart(k.K, k.rank, k.users, k.cache, m);
      ModeTransfer(k.K, k.users, k.users, k.cache, m, c);
    }

    /** Whether s is a visible symbol that was not asked about, other than the user selection. */
    method IsNewSym(s: SymId, chosen: SymId, ghost m: Cache) returns (r: bool)
      requires Ready() && SymOk(k.K, s) && Solves(k.K, k.users, m)
      modifies k`cache
      ensures Ready() && r == (s != chosen && Shown(m, Sym(s)) && s !in k.users.sym)
    {
      if s == chosen {
        return false;
      }
      var vis := VisNow(Sym(s), m);
      return vis != 0 && s !in k.users.sym;
    }

    /** Whether all visible symbols of c but the user selection were asked about. */
    method NothingNew(c: ChoiceId, chosen: SymId, ghost m: Cache) returns (r: bool)
      requires Ready() && c < |k.K.choices| && Solves(k.K, k.users, m)
      modifies k`cache
      ensures Ready() && r == SettledTo(k.users, m, chosen, k.K.choices[c].syms)
    {
      var syms := k.K.choices[c].syms;
      SymsOk(k.K, c);
      hide ConfigOk, ChoicesOk, Ranked, Justified, UserStateOk, Solves, ChoicesLinked, DependentsOk, ConstantsIn, WritesIn, NodesOk, SettledTo;
      SettledNone(k.users, m, chosen);
      for n := 0 to |syms|
        invariant Ready() && SettledTo(k.users, m, chosen, syms[..n])
      {
        var isNew := IsNewSym(syms[n], chosen, m);
        SettledNext(k.users, m, chosen, syms, n);
        if isNew {
          return false;
        }
      }
      assert syms[..|syms|] == syms;
      return true;
    }

    method IsSettled(c: ChoiceId, ghost m: Cache) returns (r: bool)
      requires Ready() && c < |k.K.choices| && Solves(k.K, k.users, m)
      modifies k`cache
      ensures Ready() && r == Settled(k.K, k.users, m, c)
    {
      if c !in k.users.pick {
        return false;
      }
      var chosen := k.users.pick[c];
      assert PickOk(k.K, c, chosen);
      var vis := VisNow(Sym(chosen), m);
      if vis != 2 {
        return false;
      }
      r := NothingNew(c, chosen, m);
    }

    method VisitSym(s: SymId, ghost m: Cache) returns (done: bool)
      requires Ready() && SymOk(k.K, s) && Solves(k.K, k.users, m) && Shown(m, Sym(s))
      modifies this, k
      ensures Ready() && Progress(old(inputs), inputs, old(confChanged), confChanged)
      ensures done && !confChanged ==>
        Solves(k.K, k.users, m) && Answers(k.K, m, old(k.users), k.users) && !AsksSym(k.K, k.users, m, s)
      ensures !AsksSym(k.K, old(k.users), m, s) ==>
        done && k.users == old(k.users) && inputs == old(inputs) && confChanged == old(confChanged)
    {
      hide ConfigOk, ChoicesOk, Ranked, Justified, UserStateOk, Solves, ChoicesLinked, DependentsOk, ConstantsIn, WritesIn, NodesOk, AsksSym, Settled;
      var isNew := SymIsNew(s, m);
      if !isNew {
        return true;
      }
      done := AskSym(s, m);
    }

    method VisitChoice(c: ChoiceId, ghost m: Cache) returns (done: bool)
      requires Ready() && c < |k.K.choices| && Solves(k.K, k.users, m) && Shown(m, Cho(c))
      modifies this, k
      ensures Ready() && Progress(old(inputs), inputs, old(confChanged), confChanged)
      ensures done && !confChanged ==>
        Solves(k.K, k.users, m) && Answers(k.K, m, old(k.users), k.users) && !AsksChoice(k.K, k.users, m, c)
      ensures !AsksChoice(k.K, old(k.users), m, c) ==>
        done && k.users == old(k.users) && inputs == old(inputs) && confChanged == old(confChanged)
    {
      hide ConfigOk, ChoicesOk, Ranked, Justified, UserStateOk, Solves, ChoicesLinked, DependentsOk, ConstantsIn, WritesIn, NodesOk, Settled, Options, InYMode;
      var settled := IsSettled(c, m);
      if settled {
        return true;
      }
      var options := TakeOptions(c, m);
      if options == [] {
        return true;
      }
      done := AskChoice(c, m);
    }

    /** oldconfig() for one node */
    method Visit(node: Node, ghost m: Cache) returns (done: bool)
      requires Ready() && Solves(k.K, k.users, m)
      requires node.item.Some? ==> ItemOk(k.K, node.item.value)
      modifies this, k
      ensures Ready() && Progress(old(inputs), inputs, old(confChanged), confChanged)
      ensures done && !confChanged ==>
        Solves(k.K, k.users, m) && Answers(k.K, m, old(k.users), k.users) && !Asks(k.K, k.users, m, node)
      ensures !Asks(k.K, old(k.users), m, node) ==>
        done && k.users == old(k.users) && inputs == old(inputs) && confChanged == old(confChanged)
    {
      hide ConfigOk, ChoicesOk, Ranked, Justified, UserStateOk, Solves, ChoicesLinked, DependentsOk, ConstantsIn, WritesIn, NodesOk, Settled, Options, InYMode, SettledTo;
      if node.item.None? {
        return true;
      }
      var vis := VisNow(node.item.value, m);
      if vis == 0 || !node.hasPrompt {
        return true;
      }
      match node.item.value {
        case Sym(s) => done := VisitSym(s, m);
        case Cho(c) => done := VisitChoice(c, m);
      }
    }

    /** One pass over all nodes. */
    method Pass() returns (done: bool, ghost m: Cache)
      requires Ready()
      modifies this, k
      ensures Ready() && (confChanged ==> |inputs| < |old(inputs)|) && |inputs| <= |old(inputs)|
      ensures done && !confChanged ==> Solves(k.K, k.users, m) && Quiet(k.K, k.users, m, nodes)
      ensures Quiet(k.K, old(k.users), old(Present()), nodes) ==>
        done && k.users == old(k.users) && inputs == old(inputs) && !confChanged
    {
      confChanged := false;
      m := Present();
      ghost var quiet := Quiet(k.K, k.users, m, nodes);
      assert old(Present()) == m;
      assert quiet ==> forall n :: 0 <= n < |nodes| ==> !Asks(k.K, k.users, m, nodes[n]);
      assert Quiet(k.K, k.users, m, []);
      hide ConfigOk, ChoicesOk, Ranked, Justified, UserStateOk, Solves, ChoicesLinked, DependentsOk, ConstantsIn, WritesIn, Asks, Quiet, Answers;
      for n := 0 to |nodes|
        invariant Ready() && Progress(old(inputs), inputs, false, confChanged)
        invariant !confChanged ==> Solves(k.K, k.users, m) && Quiet(k.K, k.users, m, nodes[..n])
        invariant quiet ==> k.users == old(k.users) && inputs == old(inputs) && !confChanged
      {
        ghost var before := k.users;
        ghost var sofar := confChanged;
        done := Visit(nodes[n], if confChanged then Present() else m);
        if !done {
          return;
        }
        if !confChanged {
          QuietStep(k.K, before, k.users, m, nodes, n);
        }
      }
      assert nodes[..|nodes|] == nodes;
      return true, m;
    }

    /** The main loop. It ends with `done` when nothing new can show up any more. */
    method Run() returns (done: bool, ghost m: Cache)
      requires Ready()
      modifies this, k
      ensures Ready()
      ensures done ==> Solves(k.K, k.users, m) && Quiet(k.K, k.users, m, nodes)
    {
      while true
        invariant Ready()
        decreases |inputs|
      {
        done, m := Pass();
        if !done || !confChanged {
          return;
        }
      }
      return false, m;
    }
  }
}
