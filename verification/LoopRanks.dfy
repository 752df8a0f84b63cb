/** Without loops, no value depends on itself: a rank of the slots, also for configurations with choices. */
module LoopRanks {
  import opened Wrappers
  import opened Config
  import opened Values
  import opened Reads
  import opened Meaning
  import opened Deps
  import opened DepLoop
  import opened LoopLaws
  import opened LoopComplete

  ghost predicate Leads(G: Graph, i: Item, x: Item)
    requires GraphOk(G)
  {
    exists p :: Way(G, p, i, x)
  }

  /** The items that lead to x, x among them. */
  ghost function Up(G: Graph, x: Item): set<Item>
    requires GraphOk(G)
  {
    set i | i in Items(G.K) && Leads(G, i, x)
  }

  lemma UpHasItself(G: Graph, x: Item)
    requires GraphOk(G) && ItemOk(G.K, x)
    ensures x in Up(G, x)
  {
    assert Way(G, [x], x, x);
  }

  lemma UpGrows(G: Graph, i: Item, x: Item)
    requires GraphOk(G) && ItemOk(G.K, i) && ItemOk(G.K, x) && Linked(G, i, x)
    ensures Up(G, i) <= Up(G, x)
  {
    forall a | a in Up(G, i) ensures a in Up(G, x) {
      var p :| Way(G, p, a, i);
      var q := OneMore(G, p, a, i, x);
    }
  }

  ghost predicate NoLoops(G: Graph)
    requires GraphOk(G)
  {
    forall loop :: !RealLoop(G, loop)
  }

  /** More leads to an item than to what it depends on, except for a symbol and its choice. */
  lemma UpGrowsStrictly(G: Graph, i: Item, x: Item)
    requires GraphOk(G) && NoLoops(G) && ItemOk(G.K, i) && ItemOk(G.K, x) && x in After(G, i)
    requires !(x.Sym? && i.Cho? && G.K.syms[x.s].choice == Some(i.c))
    ensures |Up(G, i)| < |Up(G, x)|
  {
    UpGrows(G, i, x);
    UpHasItself(G, x);
    if x in Up(G, i) {
      var p :| Way(G, p, x, i);
      assert Linked(G, p[0], p[|p| - 1]);
      assert RealLoop(G, p);
    }
    SmallerSet(Up(G, i), Up(G, x), x);
  }

  lemma SmallerSet<T>(a: set<T>, b: set<T>, x: T)
    requires a <= b && x in b && x !in a
    ensures |a| < |b|
  {
    assert a <= b - {x};
    SubsetSize(a, b - {x});
  }

  lemma {:induction false} SubsetSize<T>(a: set<T>, b: set<T>)
    requires a <= b
    ensures |a| <= |b|
  {
    if a == {} {
    } else {
      var x :| x in a;
      SubsetSize(a - {x}, b - {x});
    }
  }

  lemma UpOfMember(G: Graph, s: SymId, c: ChoiceId)
    requires GraphOk(G) && SymOk(G.K, s) && G.K.syms[s].choice == Some(c)
    ensures c < |G.K.choices| && Up(G, Sym(s)) == Up(G, Cho(c))
  {
    assert SymDefOk(G.K, s);
    UpGrows(G, Sym(s), Cho(c));
    UpGrows(G, Cho(c), Sym(s));
  }

  /**
   * The symbols in A, among them MODULES, only depend on symbols in A, and none of them is
   * tristate: looking at MODULES to find the type of a symbol cannot close a loop.
   */
  ghost predicate ModulesApart(K: Config, A: set<SymId>)
    requires ConfigOk(K)
  {
    && K.modules in A
    && (forall s :: s in A ==> SymOk(K, s) && !K.syms[s].isConst && K.syms[s].origType != Tristate)
    && (forall s, i :: s in A && i in DependsOn(K, Sym(s)) ==> i.Sym? && i.s in A)
  }

  /** The order of the slots of a choice and its symbols. */
  function Place(k: Key): (n: nat)
    ensures n < 6
  {
    match k
    case Vis(Cho(_)) => 0
    case Vis(Sym(_)) => 1
    case Sel(_) => 2
    case TriOf(_) => 3
    case StrOf(_) => 4
    case _ => 5
  }

  ghost function KeyRank(G: Graph, A: set<SymId>, k: Key): nat
    requires GraphOk(G)
  {
    if !ItemOk(G.K, ItemOf(k)) || (IsConstItem(G.K, ItemOf(k)) && (k.TriOf? || k.StrOf?)) then Place(k)
    else
      6 * |Up(G, ItemOf(k))| + Place(k) + if ItemOf(k).Sym? && ItemOf(k).s in A then 0 else 6 * |Items(G.K)| + 6
  }

  lemma UpIsBounded(G: Graph, x: Item)
    requires GraphOk(G) && ItemOk(G.K, x)
    ensures 1 <= |Up(G, x)| <= |Items(G.K)|
  {
    UpHasItself(G, x);
    SubsetSize(Up(G, x), Items(G.K));
    SubsetSize({x}, Up(G, x));
  }

  ghost predicate RankOk(G: Graph, A: set<SymId>) {
    GraphFor(G) && NoLoops(G) && ModulesApart(G.K, A) && ChoicesLinked(G.K) && ChoicesOwn(G.K)
  }

  ghost predicate ChoicesOwn(K: Config) {
    forall c, s :: 0 <= c < |K.choices| && s in K.choices[c].syms ==> SymOk(K, s) && K.syms[s].choice == Some(c)
  }

  /** A choice symbol is not in A, because it depends on its choice. */
  lemma MemberNotInA(K: Config, A: set<SymId>, s: SymId)
    requires ConfigOk(K) && ModulesApart(K, A) && ChoicesLinked(K) && SymOk(K, s) && K.syms[s].choice.Some?
    ensures s !in A
  {
    hide DependsOn;
    var i := Cho(K.syms[s].choice.value);
    assert i in DependsOn(K, Sym(s)) && !i.Sym?;
  }

  /** A slot of something that k's item depends on. */
  lemma DependencyRank(G: Graph, A: set<SymId>, k: Key, j: Key)
    requires RankOk(G, A) && KeyOk(G.K, k) && KeyOk(G.K, j) && Live(G.K, ItemOf(k)) && !IsConstItem(G.K, ItemOf(k))
    requires ItemOf(j) in DependsOn(G.K, ItemOf(k)) && (j.Vis? ==> j.i.Cho?) && !j.Sel? && !j.Assignable?
    ensures KeyRank(G, A, j) < KeyRank(G, A, k)
  {
    var i, x := ItemOf(j), ItemOf(k);
    assert x in After(G, i);
    hide ConfigOk, DependsOn, NoLoops, ChoicesLinked, ChoicesOwn, Up;
    assert x.Sym? && x.s in A ==> i.Sym? && i.s in A;
    hide ModulesApart, GraphFor;
    if x.Sym? && i.Cho? && G.K.syms[x.s].choice == Some(i.c) {
      MemberNotInA(G.K, A, x.s);
      UpOfMember(G, x.s, i.c);
    } else {
      UpGrowsStrictly(G, i, x);
    }
  }

  /** A constant, or MODULES where it decides a type. */
  lemma OtherRank(G: Graph, A: set<SymId>, k: Key, j: Key)
    requires RankOk(G, A) && KeyOk(G.K, k) && KeyOk(G.K, j) && Live(G.K, ItemOf(k)) && !IsConstItem(G.K, ItemOf(k))
    requires
      || (IsConstItem(G.K, ItemOf(j)) && (j.TriOf? || j.StrOf?))
      || (j == TriOf(G.K.modules) && UsesModules(G.K, ItemOf(k)))
    ensures KeyRank(G, A, j) < KeyRank(G, A, k)
  {
    UpIsBounded(G, ItemOf(k));
    UpIsBounded(G, ItemOf(j));
    assert UsesModules(G.K, ItemOf(k)) ==> !(ItemOf(k).Sym? && ItemOf(k).s in A);
    hide ConfigOk, Up;
  }

  lemma ChoiceRank(G: Graph, A: set<SymId>, k: Key, j: Key)
    requires RankOk(G, A) && KeyOk(G.K, k) && KeyOk(G.K, j) && ChoiceRead(G.K, k, j)
    requires !IsConstItem(G.K, ItemOf(k)) && !IsConstItem(G.K, ItemOf(j))
    ensures KeyRank(G, A, j) < KeyRank(G, A, k)
  {
    var s, c := if k.Sel? then j.i.s else k.s, if k.Sel? then k.c else j.c;
    assert G.K.syms[s].choice == Some(c);
    MemberNotInA(G.K, A, s);
    UpOfMember(G, s, c);
  }

  lemma LiveRank(G: Graph, A: set<SymId>, k: Key, j: Key)
    requires RankOk(G, A) && KeyOk(G.K, k) && Live(G.K, ItemOf(k)) && j in KeyReads(G.K, k)
    ensures KeyRank(G, A, j) < KeyRank(G, A, k)
  {
    var K := G.K;
    KeyReadsOk(K, k);
    ReadsAreBelow(K, k, j);
    assert ItemOf(k).Sym? ==> SymDefOk(K, ItemOf(k).s);
    assert ItemOf(j).Sym? ==> SymDefOk(K, ItemOf(j).s);
    hide ConfigOk, KeyReads, SymDefOk, AllDependsOn, DependsOn, ChoicesLinked, ChoicesOwn, Up, UsesModules;
    if ItemOf(j) == ItemOf(k) && Slot(j) < Slot(k) {
    } else if ChoiceRead(K, k, j) {
      assert !IsConstItem(K, ItemOf(j)) by { if k.Sel? { assert ChoiceDefOk(K, k.c); } }
      ChoiceRank(G, A, k, j);
    } else if ItemOf(j) in DependsOn(K, ItemOf(k)) {
      DependencyRank(G, A, k, j);
    } else {
      OtherRank(G, A, k, j);
    }
  }

  /** What constants and undefined symbols read. */
  lemma DeadReads(K: Config, k: Key, j: Key)
    requires ConfigOk(K) && KeyOk(K, k) && ItemOf(k).Sym? && !Defined(K.syms[ItemOf(k).s]) && j in KeyReads(K, k)
    ensures IsConstItem(K, ItemOf(k)) && KeyOk(K, j)
    ensures
      || (ItemOf(j) == ItemOf(k) && Place(j) < Place(k) && (k.StrOf? ==> j.TriOf?) && !k.TriOf?)
      || (!k.TriOf? && !k.StrOf? && ((IsConstItem(K, ItemOf(j)) && j.TriOf?) || j == TriOf(K.modules)))
  {
    assert SymDefOk(K, ItemOf(k).s);
  }

  lemma DeadRank(G: Graph, A: set<SymId>, k: Key, j: Key)
    requires GraphOk(G) && ModulesApart(G.K, A) && KeyOk(G.K, k) && ItemOf(k).Sym?
    requires !Defined(G.K.syms[ItemOf(k).s]) && j in KeyReads(G.K, k)
    ensures KeyRank(G, A, j) < KeyRank(G, A, k)
  {
    DeadReads(G.K, k, j);
    UpIsBounded(G, ItemOf(k));
    UpIsBounded(G, Sym(G.K.modules));
    assert G.K.modules in A && ItemOf(k).s !in A && !G.K.syms[G.K.modules].isConst;
    hide ConfigOk, Up, Items, KeyReads, ModulesApart;
  }

  /** If no loop is reported, no value depends on itself. */
  lemma QuietSearchRanks(G: Graph, A: set<SymId>)
    requires GraphFor(G) && ChoicesClosed(G) && SymsApart(G) && ChoicesLinked(G.K) && ModulesApart(G.K, A)
    requires CheckAll(G).1.NoLoop?
    ensures Ranked(G.K, k => if GraphOk(G) then KeyRank(G, A, k) else 0)
  {
    MissedLoops(G);
    forall k, j | KeyOk(G.K, k) && j in KeyReads(G.K, k) ensures KeyRank(G, A, j) < KeyRank(G, A, k) {
      if Live(G.K, ItemOf(k)) {
        LiveRank(G, A, k, j);
      } else {
        DeadRank(G, A, k, j);
      }
    }
  }
}
