/**
 * The questions of oldconfig: when a node is asked about, and what answering does when
 * it changes no value.
 */
module OldConfigLaws {
  import opened Wrappers
  import opened Config
  import opened Values
  import opened Reads
  import opened Meaning
  import opened Deps
  import opened Invalidation
  import opened ValueLaws
  import opened AssignLaws

  /** A menu node: its symbol or choice, if it has one, and whether it has a prompt. */
  datatype Node = Node(item: Option<Item>, hasPrompt: bool)

  predicate NodesOk(K: Config, nodes: seq<Node>) {
    forall n :: 0 <= n < |nodes| && nodes[n].item.Some? ==> ItemOk(K, nodes[n].item.value)
  }

  /** Choices have their own bool or tristate symbols, whose prompts propagation has put under the choice. */
  ghost predicate ChoicesOk(K: Config)
    requires ConfigOk(K)
  {
    && ChoicesLinked(K)
    && (forall c :: 0 <= c < |K.choices| ==> OwnsSyms(K, c) && Boolish(K.choices[c].origType))
    && (forall s, j ::
          (0 <= s < |K.syms| && 0 <= j < |K.syms[s].prompts| &&
           K.syms[s].choice.Some? && K.syms[s].prompts[j].Some?) ==>
          Under(K, K.syms[s].prompts[j].value, Cho(K.syms[s].choice.value)))
  }

  // When a node is asked about

  predicate Shown(m: Cache, i: Item) { Vis(i) in m && m[Vis(i)].T? && m[Vis(i)].t != 0 }

  predicate ShownAsY(m: Cache, s: SymId) { GetT(m, Vis(Sym(s))) == Some(2) }

  predicate InYMode(K: Config, U: Users, m: Cache, c: ChoiceId) {
    c < |K.choices| && ChoiceTri(K, U, m, c) == Some(2)
  }

  predicate AsksSym(K: Config, U: Users, m: Cache, s: SymId)
    requires SymOk(K, s)
  {
    && Shown(m, Sym(s)) && s !in U.sym
    && Assignable(Sym(s)) in m && m[Assignable(Sym(s))].A? && |m[Assignable(Sym(s))].vals| != 1
    && !(K.syms[s].choice.Some? && InYMode(K, U, m, K.syms[s].choice.value))
  }

  /** The user was asked about all these symbols but the chosen one. */
  predicate SettledTo(U: Users, m: Cache, chosen: SymId, syms: seq<SymId>) {
    forall j :: 0 <= j < |syms| ==> syms[j] == chosen || !Shown(m, Sym(syms[j])) || syms[j] in U.sym
  }

  /** The user has selected a symbol of the choice and has been asked about all others. */
  predicate Settled(K: Config, U: Users, m: Cache, c: ChoiceId)
    requires c < |K.choices|
  {
    c in U.pick && ShownAsY(m, U.pick[c]) && SettledTo(U, m, U.pick[c], K.choices[c].syms)
  }

  function Options(m: Cache, syms: seq<SymId>): seq<SymId> {
    if syms == [] then []
    else
      var s := syms[|syms| - 1];
      Options(m, syms[..|syms| - 1]) + (if ShownAsY(m, s) then [s] else [])
  }

  predicate AsksChoice(K: Config, U: Users, m: Cache, c: ChoiceId)
    requires c < |K.choices|
  {
    Shown(m, Cho(c)) && !Settled(K, U, m, c) && Options(m, K.choices[c].syms) != []
  }

  predicate Asks(K: Config, U: Users, m: Cache, node: Node)
    requires node.item.Some? ==> ItemOk(K, node.item.value)
  {
    match node.item
    case None => false
    case Some(Sym(s)) => node.hasPrompt && AsksSym(K, U, m, s)
    case Some(Cho(c)) => node.hasPrompt && AsksChoice(K, U, m, c)
  }

  lemma {:induction false} OptionsAreShown(m: Cache, syms: seq<SymId>)
    ensures forall s :: s in Options(m, syms) <==> s in syms && ShownAsY(m, s)
  {
    if syms == [] {
    } else {
      OptionsAreShown(m, syms[..|syms| - 1]);
      assert syms == syms[..|syms| - 1] + [syms[|syms| - 1]];
    }
  }

  /** A y-visible symbol of a choice means that the choice is in y mode. */
  lemma ShownAsYInYMode(K: Config, U: Users, m: Cache, c: ChoiceId, s: SymId)
    requires ConfigOk(K) && ChoicesOk(K) && UserStateOk(K, U) && Solves(K, U, m) && c < |K.choices|
    requires s in K.choices[c].syms && ShownAsY(m, s)
    ensures SymOk(K, s) && K.syms[s].choice == Some(c) && InYMode(K, U, m, c)
  {
    MemberOf(K, c, s);
    ModeKnown(K, U, m, c);
    PromptOfMember(K, U, m, c, s);
    hide ConfigOk, ChoicesOk, UserStateOk, Solves, PromptVis, SymDefOk, Under, ChoiceTri, Eval;
    ModeOfLeaf(K, U, m, c);
    PromptsUnder(K, U, m, K.syms[s].prompts, |K.syms[s].prompts|, Cho(c));
  }

  lemma ModeOfLeaf(K: Config, U: Users, m: Cache, c: ChoiceId)
    requires c < |K.choices|
    ensures ExprOk(K, Leaf(Cho(c))) && Eval(K, U, m, Leaf(Cho(c))) == ChoiceTri(K, U, m, c)
  {
  }

  /** A y-visible symbol of a choice has a visible prompt, and a y-visible one in an m-mode choice. */
  lemma PromptOfMember(K: Config, U: Users, m: Cache, c: ChoiceId, s: SymId)
    requires ConfigOk(K) && ChoicesOk(K) && Solves(K, U, m) && c < |K.choices|
    requires s in K.choices[c].syms && ShownAsY(m, s)
    ensures SymOk(K, s) && PromptsOk(K, K.syms[s].prompts)
    ensures var v := PromptVis(K, U, m, K.syms[s].prompts, |K.syms[s].prompts|);
      v.Some? && v != Some(0) && (ChoiceTri(K, U, m, c) == Some(1) ==> v == Some(2))
  {
    MemberOf(K, c, s);
    PromptSeen(K, U, m, s);
    if ChoiceTri(K, U, m, c) == Some(1) {
      assert ChoiceDefOk(K, c);
      hide ConfigOk, ChoicesOk, Solves;
      MModeType(K, U, m, c);
      HiddenInMMode(K, U, m, s, c);
    }
  }

  /** A visible symbol has a visible prompt. */
  lemma PromptSeen(K: Config, U: Users, m: Cache, s: SymId)
    requires ConfigOk(K) && Solves(K, U, m) && SymOk(K, s) && ShownAsY(m, s)
    ensures PromptsOk(K, K.syms[s].prompts)
    ensures var v := PromptVis(K, U, m, K.syms[s].prompts, |K.syms[s].prompts|); v.Some? && v != Some(0)
  {
    SolutionKnows(K, U, m, Vis(Sym(s)));
    assert SymDefOk(K, s) && SymVis(K, U, m, s) == Some(2);
    hide ConfigOk, Solves, SymDefOk, PromptVis;
  }

  /** In an m-mode choice, a symbol is y-visible only if its prompt is. */
  lemma HiddenInMMode(K: Config, U: Users, m: Cache, s: SymId, c: ChoiceId)
    requires ConfigOk(K) && Solves(K, U, m) && SymOk(K, s) && c < |K.choices| && K.syms[s].choice == Some(c) && ShownAsY(m, s)
    requires ChoiceTri(K, U, m, c) == Some(1) && K.choices[c].origType == Tristate && Boolish(K.syms[s].origType)
    requires GetT(m, TriOf(K.modules)).Some? && GetT(m, TriOf(K.modules)) != Some(0)
    ensures PromptsOk(K, K.syms[s].prompts) && PromptVis(K, U, m, K.syms[s].prompts, |K.syms[s].prompts|) == Some(2)
  {
    SolutionKnows(K, U, m, Vis(Sym(s)));
    assert SymDefOk(K, s) && SymVis(K, U, m, s) == Some(2);
    hide ConfigOk, Solves, SymDefOk, PromptVis;
  }

  lemma MemberOf(K: Config, c: ChoiceId, s: SymId)
    requires ConfigOk(K) && ChoicesOk(K) && c < |K.choices| && s in K.choices[c].syms
    ensures SymOk(K, s) && K.syms[s].choice == Some(c) && Boolish(K.syms[s].origType)
    ensures forall j :: 0 <= j < |K.syms[s].prompts| && K.syms[s].prompts[j].Some? ==>
      Under(K, K.syms[s].prompts[j].value, Cho(c))
  {
    assert OwnsSyms(K, c) && ChoiceDefOk(K, c);
    var j :| 0 <= j < |K.choices[c].syms| && K.choices[c].syms[j] == s;
  }

  lemma MModeType(K: Config, U: Users, m: Cache, c: ChoiceId)
    requires ConfigOk(K) && Solves(K, U, m) && c < |K.choices| && Boolish(K.choices[c].origType)
    requires ChoiceTri(K, U, m, c) == Some(1)
    ensures K.choices[c].origType == Tristate && GetT(m, TriOf(K.modules)).Some? && GetT(m, TriOf(K.modules)) != Some(0)
  {
  }

  // What answering leaves alone

  /** If the slots that look at what was changed keep their values, all slots do. */
  lemma {:induction false} SameElsewhere(K: Config, rank: Key -> nat, U: Users, U': Users, m: Cache, m': Cache, k: Key)
    requires ConfigOk(K) && Ranked(K, rank) && UserStateOk(K, U) && UserStateOk(K, U') && U'.mode == U.mode
    requires Solves(K, U, m) && Solves(K, U', m') && KeyOk(K, k)
    requires forall j :: KeyOk(K, j) && OwnMatters(K, m, j) && !SameOwn(U, U', ItemOf(j)) ==> m'[j] == m[j]
    ensures m'[k] == m[k]
    decreases rank(k)
  {
    if !OwnMatters(K, m, k) || SameOwn(U, U', ItemOf(k)) {
      KeyReadsOk(K, k);
      forall j | j in KeyReads(K, k) ensures SameAt(m, m', j) {
        SameElsewhere(K, rank, U, U', m, m', j);
      }
      SolutionKnows(K, U, m, k);
      SolutionKnows(K, U', m', k);
      Transfer(K, U, U', m, m', k);
    }
  }

  lemma StillSolves(K: Config, rank: Key -> nat, U: Users, U': Users, m: Cache, m': Cache)
    requires ConfigOk(K) && Ranked(K, rank) && UserStateOk(K, U) && UserStateOk(K, U') && U'.mode == U.mode
    requires Solves(K, U, m) && Solves(K, U', m')
    requires forall j :: KeyOk(K, j) && OwnMatters(K, m, j) && !SameOwn(U, U', ItemOf(j)) ==> m'[j] == m[j]
    ensures m' == m
  {
    forall k | KeyOk(K, k) ensures m'[k] == m[k] {
      SameElsewhere(K, rank, U, U', m, m', k);
    }
    assert forall k :: k in m <==> KeyOk(K, k);
    assert forall k :: k in m' <==> KeyOk(K, k);
  }

  lemma SameStrSameTri(K: Config, U: Users, U': Users, m: Cache, m': Cache, s: SymId)
    requires ConfigOk(K) && Solves(K, U, m) && Solves(K, U', m') && SymOk(K, s) && Boolish(K.syms[s].origType)
    requires m'[StrOf(s)] == m[StrOf(s)]
    ensures m'[TriOf(s)] == m[TriOf(s)]
  {
    SolutionKnows(K, U, m, StrOf(s));
    SolutionKnows(K, U', m', StrOf(s));
    SolutionKnows(K, U, m, TriOf(s));
    SolutionKnows(K, U', m', TriOf(s));
  }

  /** A symbol is given a user value, and its value stays the same: so do all values. */
  lemma SameValueSameAll(K: Config, rank: Key -> nat, U: Users, U': Users, m: Cache, m': Cache, s: SymId)
    requires ConfigOk(K) && Ranked(K, rank) && UserStateOk(K, U) && UserStateOk(K, U') && SymOk(K, s)
    requires Solves(K, U, m) && Solves(K, U', m') && OnlySym(U, U', s) && m'[StrOf(s)] == m[StrOf(s)]
    ensures m' == m
  {
    if Boolish(K.syms[s].origType) { SameStrSameTri(K, U, U', m, m', s); }
    hide ConfigOk, Ranked, Solves, UserStateOk;
    StillSolves(K, rank, U, U', m, m');
  }

  /** How making s the user selection of its choice changes the user state. */
  ghost predicate Selects(U: Users, U': Users, s: SymId, c: ChoiceId) {
    U' == U.(sym := U'.sym, pick := U'.pick) && U'.pick == U.pick[c := s] &&
    forall z :: z != Sym(s) && z != Cho(c) ==> SameOwn(U, U', z)
  }

  lemma SetSelects(K: Config, U: Users, s: SymId, v: UserVal, c: ChoiceId)
    requires ConfigOk(K) && SymOk(K, s) && K.syms[s].choice == Some(c) && SymInput(K, s, v) == TriVal(2)
    requires Boolish(K.syms[s].origType)
    ensures Selects(U, AfterSet(K, U, s, v), s, c) && AfterSet(K, U, s, v).sym == U.sym[s := TriVal(2)]
  {
  }

  lemma SelectingSameAll(K: Config, rank: Key -> nat, U: Users, U': Users, m: Cache, m': Cache, s: SymId, c: ChoiceId)
    requires ConfigOk(K) && Ranked(K, rank) && UserStateOk(K, U) && UserStateOk(K, U') && SymOk(K, s) && c < |K.choices|
    requires Solves(K, U, m) && Solves(K, U', m') && Selects(U, U', s, c)
    requires m'[TriOf(s)] == m[TriOf(s)] && m'[Sel(c)] == m[Sel(c)] && Boolish(K.syms[s].origType)
    ensures m' == m
  {
    hide ConfigOk, Ranked, Solves, UserStateOk;
    StillSolves(K, rank, U, U', m, m');
  }

  lemma ModeUnchanged(K: Config, rank: Key -> nat, U: Users, U': Users, m: Cache, m': Cache, s: SymId, c: ChoiceId)
    requires ConfigOk(K) && Ranked(K, rank) && UserStateOk(K, U) && UserStateOk(K, U') && SymOk(K, s)
    requires K.syms[s].choice == Some(c) && c < |K.choices| && Boolish(K.syms[s].origType) && !IsNmy(K.syms[s])
    requires Solves(K, U, m) && Solves(K, U', m')
    requires U'.mode == U.mode && forall z :: z != Sym(s) && z != Cho(c) ==> SameOwn(U, U', z)
    ensures m'[Vis(Sym(s))] == m[Vis(Sym(s))] && ChoiceTri(K, U', m', c) == ChoiceTri(K, U, m, c)
  {
    SelectingKeepsBounds(K, rank, U, U', m, m', s, c);
    SolutionKnows(K, U, m, Vis(Cho(c)));
    SolutionKnows(K, U, m, TriOf(K.modules));
    SolutionKnows(K, U', m', Vis(Cho(c)));
    SolutionKnows(K, U', m', TriOf(K.modules));
  }

  /** A choice symbol is set to y while its choice is not in y mode. */
  lemma SelectOutsideYMode(K: Config, rank: Key -> nat, U: Users, U': Users, m: Cache, m': Cache, s: SymId, c: ChoiceId)
    requires ConfigOk(K) && Ranked(K, rank) && UserStateOk(K, U) && UserStateOk(K, U') && SymOk(K, s)
    requires K.syms[s].choice == Some(c) && c < |K.choices| && Boolish(K.syms[s].origType) && !IsNmy(K.syms[s])
    requires Solves(K, U, m) && Solves(K, U', m') && Selects(U, U', s, c)
    requires !InYMode(K, U, m, c) && m'[StrOf(s)] == m[StrOf(s)]
    ensures m' == m
  {
    ModeUnchanged(K, rank, U, U', m, m', s, c);
    ModeKnown(K, U, m, c);
    SolutionKnows(K, U, m, Sel(c));
    SolutionKnows(K, U', m', Sel(c));
    SameStrSameTri(K, U, U', m, m', s);
    SelectingSameAll(K, rank, U, U', m, m', s, c);
  }

  /** The symbol that is y already is selected in a y-mode choice. */
  lemma SelectSelected(K: Config, rank: Key -> nat, U: Users, U': Users, m: Cache, m': Cache, s: SymId, c: ChoiceId)
    requires ConfigOk(K) && Ranked(K, rank) && UserStateOk(K, U) && UserStateOk(K, U') && c < |K.choices| && OwnsSyms(K, c)
    requires s in K.choices[c].syms && SymOk(K, s) && !IsNmy(K.syms[s]) && K.syms[s].choice == Some(c) && Boolish(K.syms[s].origType)
    requires Solves(K, U, m) && Solves(K, U', m') && Selects(U, U', s, c)
    requires InYMode(K, U, m, c) && ShownAsY(m, s) && m[TriOf(s)] == T(2)
    ensures m' == m
  {
    ModeUnchanged(K, rank, U, U', m, m', s, c);
    ChoiceModes(K, U, m, c, s);
    SolutionKnows(K, U', m', Sel(c));
    SolutionKnows(K, U', m', Vis(Sym(s)));
    SolutionKnows(K, U', m', TriOf(s));
    assert m'[Sel(c)] == P(Some(s));
    SelectingSameAll(K, rank, U, U', m, m', s, c);
  }

  lemma SelectionUnchanged(K: Config, rank: Key -> nat, U: Users, U': Users, m: Cache, m': Cache, s: SymId, c: ChoiceId)
    requires ConfigOk(K) && Ranked(K, rank) && UserStateOk(K, U) && UserStateOk(K, U') && c < |K.choices| && SymOk(K, s)
    requires K.syms[s].choice == Some(c) && Boolish(K.syms[s].origType) && !IsNmy(K.syms[s])
    requires Solves(K, U, m) && Solves(K, U', m') && OnlySym(U, U', s)
    ensures m'[Sel(c)] == m[Sel(c)]
  {
    assert Sel(c) in KeyReads(K, TriOf(s)) && KeyOk(K, Sel(c));
    assert rank(Sel(c)) < rank(TriOf(s));
    hide ConfigOk, Solves, Ranked, UserStateOk, KeyReads;
    forall j | KeyOk(K, j) && rank(j) <= rank(Sel(c)) && OwnMatters(K, m, j) ensures SameOwn(U, U', ItemOf(j)) {
      assert j != TriOf(s);
    }
    BelowIsUnchanged(K, rank, U, U', m, m', Sel(c), rank(Sel(c)));
  }

  lemma ChosenBySelection(K: Config, U: Users, m: Cache, s: SymId, c: ChoiceId)
    requires ConfigOk(K) && Solves(K, U, m) && c < |K.choices| && InYMode(K, U, m, c)
    requires SymOk(K, s) && !IsNmy(K.syms[s]) && K.syms[s].choice == Some(c) && Boolish(K.syms[s].origType)
    ensures Known(K, U, m, TriOf(s)) && Known(K, U, m, Vis(Sym(s))) && Known(K, U, m, Sel(c))
    ensures m[TriOf(s)] == T(if m[Vis(Sym(s))] == T(2) && m[Sel(c)] == P(Some(s)) then 2 else 0)
  {
    SolutionKnows(K, U, m, TriOf(s));
    SolutionKnows(K, U, m, Sel(c));
    NoMVisibleInYMode(K, U, m, s, c);
  }

  /** In a y-mode choice, user values of its symbols have no effect. */
  lemma DeselectInYMode(K: Config, rank: Key -> nat, U: Users, U': Users, m: Cache, m': Cache, s: SymId, c: ChoiceId)
    requires ConfigOk(K) && Ranked(K, rank) && UserStateOk(K, U) && UserStateOk(K, U') && c < |K.choices| && SymOk(K, s)
    requires !IsNmy(K.syms[s]) && K.syms[s].choice == Some(c) && Boolish(K.syms[s].origType)
    requires Solves(K, U, m) && Solves(K, U', m') && OnlySym(U, U', s) && InYMode(K, U, m, c)
    ensures m' == m
  {
    hide ConfigOk, Ranked, Solves, UserStateOk, KeyReads, Known;
    ModeUnchanged(K, rank, U, U', m, m', s, c);
    SelectionUnchanged(K, rank, U, U', m, m', s, c);
    ChosenBySelection(K, U, m, s, c);
    ChosenBySelection(K, U', m', s, c);
    StillSolves(K, rank, U, U', m, m');
  }

  // What stays answered

  /** Answers add user values; a user selection only changes outside of y mode, or is then settled. */
  ghost predicate Answers(K: Config, m: Cache, U: Users, U': Users) {
    && U'.mode == U.mode && (forall s :: s in U.sym ==> s in U'.sym)
    && forall c :: 0 <= c < |K.choices| ==>
      UserPick(U', c) == UserPick(U, c) || !InYMode(K, U, m, c) || Settled(K, U', m, c)
  }

  lemma AnswersStay(K: Config, m: Cache, U: Users, U': Users, node: Node)
    requires ConfigOk(K) && ChoicesOk(K) && UserStateOk(K, U) && UserStateOk(K, U')
    requires Solves(K, U, m) && Solves(K, U', m) && Answers(K, m, U, U')
    requires node.item.Some? ==> ItemOk(K, node.item.value)
    requires !Asks(K, U, m, node)
    ensures !Asks(K, U', m, node)
  {
    match node.item
    case None =>
    case Some(Sym(s)) =>
      assert SymDefOk(K, s);
      assert forall c: ChoiceId :: c < |K.choices| ==> ChoiceTri(K, U', m, c) == ChoiceTri(K, U, m, c);
    case Some(Cho(c)) =>
      hide ConfigOk, ChoicesOk, UserStateOk, Solves, InYMode;
      if Options(m, K.choices[c].syms) != [] {
        var s := Options(m, K.choices[c].syms)[0];
        OptionsAreShown(m, K.choices[c].syms);
        ShownAsYInYMode(K, U, m, c, s);
      }
  }
}
