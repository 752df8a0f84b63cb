/** The reasoning behind recursive invalidation: what is reached, and why it ends. */
module Invalidation {
  import opened Config
  import opened Values
  import opened Reads
  import opened Deps
  import opened Caches

  ghost predicate DependentsOk(K: Config, dependents: map<Item, set<Item>>)
    requires ConfigOk(K)
  {
    forall i, x :: (i in dependents && x in dependents[i]) <==> (ItemOk(K, x) && i in AllDependsOn(K, x))
  }

  ghost predicate AllLive(K: Config, D: set<Item>) {
    forall z :: z in D ==> ItemOk(K, z) && Live(K, z)
  }

  /** The items with cached values: `_cached_vis` doubles as the flag. */
  ghost function CachedItems(m: Cache): set<Item> {
    set k | k in m && k.Vis? :: k.i
  }

  /** A path of dependencies: each item depends on the one before it. */
  ghost predicate Path(K: Config, p: seq<Item>)
    requires ConfigOk(K)
  {
    p != [] && (|p| > 1 ==> ItemOk(K, p[1]) && p[0] in AllDependsOn(K, p[1]) && Path(K, p[1..]))
  }

  /** Changing i may change z. */
  ghost predicate Influences(K: Config, i: Item, z: Item)
    requires ConfigOk(K)
  {
    exists p :: Path(K, p) && p[0] == i && p[|p| - 1] == z
  }

  /** Nothing is invalidated without a reason: a path from i, or MODULES, which everything may read. */
  ghost predicate Influenced(K: Config, i: Item, D: set<Item>)
    requires ConfigOk(K)
  {
    forall z :: z in D ==> Influences(K, i, z) || Influences(K, i, Sym(K.modules))
  }

  lemma SelfInfluence(K: Config, i: Item)
    requires ConfigOk(K)
    ensures Influences(K, i, i)
  {
    assert Path(K, [i]) && [i][0] == i;
  }

  lemma InfluenceCons(K: Config, i: Item, d: Item, z: Item)
    requires ConfigOk(K) && ItemOk(K, d) && i in AllDependsOn(K, d) && Influences(K, d, z)
    ensures Influences(K, i, z)
  {
    hide ConfigOk, AllDependsOn;
    var p :| Path(K, p) && p[0] == d && p[|p| - 1] == z;
    var q := [i] + p;
    assert q[1..] == p;
    assert Path(K, q) && q[0] == i && q[|q| - 1] == z;
  }

  lemma InfluenceStep(K: Config, i: Item, d: Item, E: set<Item>)
    requires ConfigOk(K) && ItemOk(K, d) && i in AllDependsOn(K, d) && Influenced(K, d, E)
    ensures Influenced(K, i, E)
  {
    forall z | z in E ensures Influences(K, i, z) || Influences(K, i, Sym(K.modules)) {
      InfluenceCons(K, i, d, if Influences(K, d, z) then z else Sym(K.modules));
    }
  }

  lemma AllInfluencedByModules(K: Config, i: Item, D: set<Item>)
    requires ConfigOk(K) && i == Sym(K.modules)
    ensures Influenced(K, i, D)
  {
    SelfInfluence(K, i);
  }

  /** As Cut, while the dependents in todo of i are still to be looked at. */
  ghost predicate CutExcept(K: Config, m: Cache, D: set<Item>, i: Item, todo: set<Item>)
    requires ConfigOk(K)
  {
    (forall y, z :: y in D && ItemOk(K, z) && y in AllDependsOn(K, z) ==> Vis(z) !in m || (y == i && z in todo)) &&
    (Sym(K.modules) in D ==> forall z :: ItemOk(K, z) && Live(K, z) ==> Vis(z) !in m)
  }

  lemma CutOfAll(K: Config, m: Cache, m': Cache, D: set<Item>)
    requires ConfigOk(K) && Dropped(m, m', D) && forall z :: z in D <==> ItemOk(K, z) && Live(K, z)
    ensures Cut(K, m', D)
  {
    forall z | ItemOk(K, z) && Live(K, z) ensures Vis(z) !in m' {
      assert ItemOf(Vis(z)) == z;
    }
    forall y, z | y in D && ItemOk(K, z) && y in AllDependsOn(K, z) ensures Vis(z) !in m' {
      assert Live(K, z);
    }
  }

  lemma DependentIsLive(K: Config, i: Item, x: Item)
    requires ConfigOk(K) && ItemOk(K, x) && i in AllDependsOn(K, x)
    ensures Live(K, x)
  {
  }

  lemma CutStarts(K: Config, dependents: map<Item, set<Item>>, m: Cache, i: Item)
    requires ConfigOk(K) && DependentsOk(K, dependents) && i != Sym(K.modules)
    ensures CutExcept(K, m, {i}, i, if i in dependents then dependents[i] else {})
    ensures i in dependents ==> forall x :: x in dependents[i] ==>
      ItemOk(K, x) && Live(K, x) && i in AllDependsOn(K, x)
  {
    forall x | i in dependents && x in dependents[i] ensures ItemOk(K, x) && i in AllDependsOn(K, x) && Live(K, x) {
      DependentIsLive(K, i, x);
    }
  }

  lemma CutSkips(K: Config, m: Cache, D: set<Item>, i: Item, todo: set<Item>, item: Item)
    requires ConfigOk(K) && CutExcept(K, m, D, i, todo) && Vis(item) !in m
    ensures CutExcept(K, m, D, i, todo - {item})
  {
  }

  lemma CutCombines(K: Config, m: Cache, m': Cache, D: set<Item>, E: set<Item>, i: Item, todo: set<Item>, item: Item)
    requires ConfigOk(K) && CutExcept(K, m, D, i, todo) && Cut(K, m', E) && Dropped(m, m', E) && item in E
    ensures CutExcept(K, m', D + E, i, todo - {item})
  {
    hide ConfigOk, AllDependsOn, ItemOk, Live;
    assert Vis(item) !in m' by { assert ItemOf(Vis(item)) == item; }
  }

  lemma CutEnds(K: Config, m: Cache, D: set<Item>, i: Item)
    requires ConfigOk(K) && CutExcept(K, m, D, i, {})
    ensures Cut(K, m, D)
  {
  }

  lemma DroppedTwice(m: Cache, m': Cache, m'': Cache, D: set<Item>, E: set<Item>)
    requires Dropped(m, m', D) && Dropped(m', m'', E)
    ensures Dropped(m, m'', D + E)
  {
  }

  /** Invalidation ends because fewer items have cached values at every recursive call. */
  lemma CachedShrinks(m: Cache, m': Cache, i: Item, next: Item)
    requires Grown(m', m) && Vis(i) !in m' && Vis(next) in m'
    ensures CachedItems(m') <= CachedItems(m)
    ensures Vis(i) in m ==> CachedItems(m') < CachedItems(m)
  {
    if Vis(i) in m {
      assert i in CachedItems(m) by { assert Vis(i).Vis? && Vis(i).i == i; }
      assert i !in CachedItems(m');
    }
  }

  lemma DropKeepsFlags(K: Config, m: Cache, m': Cache, D: set<Item>)
    requires ConfigOk(K) && Dropped(m, m', D) && AllLive(K, D) && ConstantsIn(K, m) && WritesIn(K, m)
    ensures ConstantsIn(K, m') && WritesIn(K, m')
  {
    forall s | 0 <= s < |K.syms| && IsNmy(K.syms[s]) ensures TriOf(s) in m' {
      assert SymDefOk(K, s) && !Live(K, Sym(s)) && ItemOf(TriOf(s)) == Sym(s);
    }
    forall s | 0 <= s < |K.syms| && WriteOf(s) in m && (TriOf(s) in m' || StrOf(s) in m') ensures WriteOf(s) in m' {
      assert ItemOf(WriteOf(s)) == Sym(s) && ItemOf(TriOf(s)) == Sym(s) && ItemOf(StrOf(s)) == Sym(s);
    }
  }

  // What each change of the user state can touch

  /** U' differs from U only at i and at items that depend on i; the mode only if i is that choice. */
  ghost predicate ChangedAt(K: Config, U: Users, U': Users, i: Item)
    requires ConfigOk(K)
  {
    (forall z :: ItemOk(K, z) ==> SameOwn(U, U', z) || z == i || i in AllDependsOn(K, z)) &&
    (forall c :: UserMode(U, c) != UserMode(U', c) ==> i == Cho(c))
  }

  /** U' differs from U only in the user value of s. */
  ghost predicate OnlySym(U: Users, U': Users, s: SymId) {
    U' == U.(sym := U'.sym) && forall z :: z != Sym(s) ==> SameOwn(U, U', z)
  }

  ghost predicate UserStateOk(K: Config, U: Users) { UsersOk(K, U) && PicksOk(K, U) }

  lemma OnlySymIsChange(K: Config, U: Users, U': Users, s: SymId)
    requires ConfigOk(K) && OnlySym(U, U', s)
    ensures ChangedAt(K, U, U', Sym(s))
  {
    forall c ensures UserMode(U, c) == UserMode(U', c) { assert SameOwn(U, U', Cho(c)); }
  }

  lemma SetKeepsStateOk(K: Config, U: Users, s: SymId, v: UserVal)
    requires ConfigOk(K) && UserStateOk(K, U) && SymOk(K, s)
    ensures UserStateOk(K, AfterSet(K, U, s, v))
  {
    assert SymDefOk(K, s);
    hide ConfigOk, ValidUserVal, ValidMode, SymInput;
  }

  /** Making a choice symbol the user selection touches the choice and a symbol that depends on it. */
  lemma SelectChanges(K: Config, U: Users, s: SymId, v: UserVal)
    requires ConfigOk(K) && ChoicesLinked(K) && SymOk(K, s) && K.syms[s].choice.Some?
    requires SymInput(K, s, v) == TriVal(2)
    ensures ItemOk(K, Cho(K.syms[s].choice.value))
    ensures ChangedAt(K, U, AfterSet(K, U, s, v), Cho(K.syms[s].choice.value))
  {
    var i := Cho(K.syms[s].choice.value);
    assert SymDefOk(K, s) && i in AllDependsOn(K, Sym(s));
    hide ConfigOk, ChoicesLinked, AllDependsOn, ValidUserVal, SymInput;
    var U' := AfterSet(K, U, s, v);
    forall z | ItemOk(K, z) ensures SameOwn(U, U', z) || z == i || i in AllDependsOn(K, z) {
      if z != i && z != Sym(s) { assert SameOwn(U, U', z); }
    }
  }

  lemma SetChanges(K: Config, U: Users, s: SymId, v: UserVal)
    requires ConfigOk(K) && ChoicesLinked(K) && UserStateOk(K, U) && SymOk(K, s)
    ensures UserStateOk(K, AfterSet(K, U, s, v))
    ensures K.syms[s].choice.None? || SymInput(K, s, v) != TriVal(2) ==> OnlySym(U, AfterSet(K, U, s, v), s)
    ensures K.syms[s].choice.Some? && SymInput(K, s, v) == TriVal(2) ==>
      ItemOk(K, Cho(K.syms[s].choice.value)) && ChangedAt(K, U, AfterSet(K, U, s, v), Cho(K.syms[s].choice.value))
  {
    SetKeepsStateOk(K, U, s, v);
    hide ConfigOk, ChoicesLinked, UserStateOk, ChangedAt, ValidUserVal, SymInput;
    if K.syms[s].choice.Some? && SymInput(K, s, v) == TriVal(2) { SelectChanges(K, U, s, v); }
  }

  lemma UnsetChanges(K: Config, U: Users, s: SymId)
    requires ConfigOk(K) && UserStateOk(K, U)
    ensures UserStateOk(K, AfterUnset(U, s)) && OnlySym(U, AfterUnset(U, s), s)
    ensures s !in U.sym ==> AfterUnset(U, s) == U
  {
    if s !in U.sym { assert U.sym - {s} == U.sym; }
  }

  lemma ModeChanges(K: Config, U: Users, c: ChoiceId, v: UserVal)
    requires ConfigOk(K) && UserStateOk(K, U) && c < |K.choices|
    ensures UserStateOk(K, AfterSetMode(K, U, c, v)) && ChangedAt(K, U, AfterSetMode(K, U, c, v), Cho(c))
  {
  }

  lemma UnsetModeChanges(K: Config, U: Users, c: ChoiceId)
    requires ConfigOk(K) && UserStateOk(K, U) && c < |K.choices|
    ensures UserStateOk(K, AfterUnsetChoice(U, c)) && ChangedAt(K, U, AfterUnsetChoice(U, c), Cho(c))
    ensures c !in U.mode && c !in U.pick ==> AfterUnsetChoice(U, c) == U
  {
    if c !in U.mode && c !in U.pick { assert U.mode - {c} == U.mode && U.pick - {c} == U.pick; }
  }
}
