/**
 * The dependency relation between items that drives invalidation, and why
 * stopping the invalidation at items without cached values is safe.
 */
module Deps {
  import opened Wrappers
  import opened Config
  import opened Values
  import opened Reads
  import opened Meaning

  predicate IsConstItem(K: Config, i: Item)
    requires ItemOk(K, i)
  {
    i.Sym? && K.syms[i.s].isConst
  }

  /** A defined symbol or a choice: an item that takes part in invalidation. */
  predicate Live(K: Config, i: Item)
    requires ItemOk(K, i)
  {
    i.Sym? ==> Defined(K.syms[i.s])
  }

  /** An item as a dependency; constants never change and are skipped. */
  function Changeable(K: Config, i: Item): set<Item>
    requires ItemOk(K, i)
  {
    if IsConstItem(K, i) then {} else {i}
  }

  /** The symbols and choices in an expression. */
  function ExprItems(K: Config, e: Expr): set<Item>
    requires ExprOk(K, e)
  {
    match e
    case Leaf(i) => Changeable(K, i)
    case And(l, r) => ExprItems(K, l) + ExprItems(K, r)
    case Or(l, r) => ExprItems(K, l) + ExprItems(K, r)
    case Not(a) => ExprItems(K, a)
    case Compare(_, a, b) => Changeable(K, Sym(a)) + Changeable(K, Sym(b))
  }

  function PromptItems(K: Config, ps: seq<Option<Expr>>, n: nat): set<Item>
    requires PromptsOk(K, ps) && n <= |ps|
  {
    set i, x | 0 <= i < n && ps[i].Some? && x in ExprItems(K, ps[i].value) :: x
  }

  function DefaultItems(K: Config, t: Type, ds: seq<Default>, n: nat): set<Item>
    requires DefaultsOk(K, t, ds) && n <= |ds|
  {
    set i, x | 0 <= i < n && x in ExprItems(K, ds[i].value) + ExprItems(K, ds[i].cond) :: x
  }

  function RangeItems(K: Config, rs: seq<Range>, n: nat): set<Item>
    requires RangesOk(K, rs) && n <= |rs|
  {
    set i, x | 0 <= i < n &&
      x in Changeable(K, Sym(rs[i].low)) + Changeable(K, Sym(rs[i].high)) + ExprItems(K, rs[i].cond) :: x
  }

  function PickItems(K: Config, c: ChoiceId, n: nat): set<Item>
    requires ConfigOk(K) && c < |K.choices| && n <= |K.choices[c].defaults|
  {
    assert ChoiceDefOk(K, c);
    set i, x | 0 <= i < n && x in ExprItems(K, K.choices[c].defaults[i].cond) :: x
  }

  /** The items that x depends on when _build_dep() is done. */
  function DependsOn(K: Config, x: Item): set<Item>
    requires ConfigOk(K) && ItemOk(K, x)
  {
    match x
    case Sym(s) =>
      assert SymDefOk(K, s);
      var d := K.syms[s];
      if !Defined(d) then {}
      else PromptItems(K, d.prompts, |d.prompts|) + DefaultItems(K, d.origType, d.defaults, |d.defaults|) +
           ExprItems(K, d.revDep) + ExprItems(K, d.weakRevDep) + RangeItems(K, d.ranges, |d.ranges|) +
           ExprItems(K, d.directDep)
    case Cho(c) =>
      assert ChoiceDefOk(K, c);
      var d := K.choices[c];
      PromptItems(K, d.prompts, |d.prompts|) + PickItems(K, c, |d.defaults|)
  }

  /** The dependencies that _add_choice_deps() adds: a choice depends on its symbols. */
  function AllDependsOn(K: Config, x: Item): set<Item>
    requires ConfigOk(K) && ItemOk(K, x)
  {
    DependsOn(K, x) + (if x.Sym? then {} else set i | 0 <= i < |K.choices[x.c].syms| :: Sym(K.choices[x.c].syms[i]))
  }

  /** Each choice symbol has its choice in one of its conditions, as propagation leaves it. */
  ghost predicate ChoicesLinked(K: Config)
    requires ConfigOk(K)
  {
    forall s {:trigger DependsOn(K, Sym(s))} :: 0 <= s < |K.syms| && K.syms[s].choice.Some? ==>
      Cho(K.syms[s].choice.value) in DependsOn(K, Sym(s))
  }

  /** How a read slot can belong to an item: own, constant, MODULES, or a dependency of x. */
  ghost predicate Reachable(K: Config, x: Item, j: Key)
    requires ConfigOk(K) && ItemOk(K, x)
  {
    KeyOk(K, j) &&
    (ItemOf(j) == x || IsConstItem(K, ItemOf(j)) || ItemOf(j) == Sym(K.modules) || ItemOf(j) in AllDependsOn(K, x))
  }

  predicate IsTristate(K: Config, x: Item)
    requires ItemOk(K, x)
  {
    (if x.Sym? then K.syms[x.s].origType else K.choices[x.c].origType) == Tristate
  }

  /** Whether x looks at MODULES although it need not depend on it. */
  ghost predicate UsesModules(K: Config, x: Item)
    requires ConfigOk(K) && ItemOk(K, x)
  {
    IsTristate(K, x) || exists c :: 0 <= c < |K.choices| && Cho(c) in DependsOn(K, x) && IsTristate(K, Cho(c))
  }

  /** How a slot read by x can belong to another item. */
  ghost predicate Foreign(K: Config, x: Item, j: Key)
    requires ConfigOk(K) && ItemOk(K, x)
  {
    && KeyOk(K, j)
    && (|| (IsConstItem(K, ItemOf(j)) && (j.TriOf? || j.StrOf?))
        || (j == TriOf(K.modules) && UsesModules(K, x))
        || (ItemOf(j) in DependsOn(K, x) && (j.TriOf? || j.StrOf? || j.Vis?) && (j.Vis? ==> j.i.Cho?)))
  }

  /** What only a choice and its symbols read of each other: the visibilities, and the selection. */
  ghost predicate ChoiceRead(K: Config, k: Key, j: Key)
    requires ConfigOk(K) && KeyOk(K, k)
  {
    || (k.Sel? && j.Vis? && j.i.Sym? && j.i.s in K.choices[k.c].syms)
    || (k.TriOf? && j.Sel? && K.syms[k.s].choice == Some(j.c))
  }

  /** The slots of one item in the order in which they are computed. */
  function Slot(k: Key): nat {
    match k
    case Vis(_) => 0
    case TriOf(_) => 1
    case StrOf(_) => 2
    case _ => 3
  }

  ghost predicate ReadsBelow(K: Config, k: Key, j: Key)
    requires ConfigOk(K) && KeyOk(K, k)
  {
    (ItemOf(j) == ItemOf(k) && Slot(j) < Slot(k)) || Foreign(K, ItemOf(k), j) || ChoiceRead(K, k, j)
  }

  lemma {:induction false} ExprReachable(K: Config, x: Item, e: Expr, j: Key)
    requires ConfigOk(K) && ItemOk(K, x) && ExprOk(K, e)
    requires ExprItems(K, e) <= DependsOn(K, x) && j in ExprReads(K, e)
    ensures Foreign(K, x, j)
  {
    match e
    case Leaf(i) =>
    case And(l, r) => ExprReachable(K, x, if j in ExprReads(K, l) then l else r, j);
    case Or(l, r) => ExprReachable(K, x, if j in ExprReads(K, l) then l else r, j);
    case Not(a) => ExprReachable(K, x, a, j);
    case Compare(_, a, b) =>
      var s := if ItemOf(j) == Sym(a) then a else b;
      assert Changeable(K, Sym(s)) <= ExprItems(K, e);
  }

  lemma PromptReachable(K: Config, x: Item, ps: seq<Option<Expr>>, j: Key)
    requires ConfigOk(K) && ItemOk(K, x) && PromptsOk(K, ps)
    requires PromptItems(K, ps, |ps|) <= DependsOn(K, x) && j in PromptReads(K, ps)
    ensures Foreign(K, x, j)
  {
    var i :| 0 <= i < |ps| && ps[i].Some? && j in ExprReads(K, ps[i].value);
    assert ExprItems(K, ps[i].value) <= PromptItems(K, ps, |ps|);
    ExprReachable(K, x, ps[i].value, j);
  }

  lemma DefaultReachable(K: Config, x: Item, t: Type, ds: seq<Default>, j: Key)
    requires ConfigOk(K) && ItemOk(K, x) && DefaultsOk(K, t, ds)
    requires DefaultItems(K, t, ds, |ds|) <= DependsOn(K, x) && j in DefaultReads(K, t, ds)
    ensures Foreign(K, x, j)
  {
    forall i | 0 <= i < |ds|
      ensures ExprItems(K, ds[i].value) <= DependsOn(K, x) && ExprItems(K, ds[i].cond) <= DependsOn(K, x)
    {
      assert ExprItems(K, ds[i].value) + ExprItems(K, ds[i].cond) <= DefaultItems(K, t, ds, |ds|);
    }
    if i :| 0 <= i < |ds| && j in ExprReads(K, ds[i].cond) {
      ExprReachable(K, x, ds[i].cond, j);
    } else if Boolish(t) {
      var i :| 0 <= i < |ds| && j in ExprReads(K, ds[i].value);
      ExprReachable(K, x, ds[i].value, j);
    } else {
      var i :| 0 <= i < |ds| && j == StrOf(ds[i].value.item.s);
      assert ExprItems(K, ds[i].value) <= DependsOn(K, x);
    }
  }

  lemma RangeReachable(K: Config, x: Item, rs: seq<Range>, j: Key)
    requires ConfigOk(K) && ItemOk(K, x) && RangesOk(K, rs)
    requires RangeItems(K, rs, |rs|) <= DependsOn(K, x) && j in RangeReads(K, rs)
    ensures Foreign(K, x, j)
  {
    forall i | 0 <= i < |rs|
      ensures Changeable(K, Sym(rs[i].low)) <= DependsOn(K, x)
      ensures Changeable(K, Sym(rs[i].high)) <= DependsOn(K, x)
      ensures ExprItems(K, rs[i].cond) <= DependsOn(K, x)
    {
      assert Changeable(K, Sym(rs[i].low)) + Changeable(K, Sym(rs[i].high)) + ExprItems(K, rs[i].cond)
          <= RangeItems(K, rs, |rs|);
    }
    if i :| 0 <= i < |rs| && j in ExprReads(K, rs[i].cond) {
      ExprReachable(K, x, rs[i].cond, j);
    } else {
      var i :| 0 <= i < |rs| && (j == StrOf(rs[i].low) || j == StrOf(rs[i].high));
      assert Changeable(K, Sym(j.s)) <= DependsOn(K, x);
    }
  }

  lemma TypeReachable(K: Config, s: SymId, j: Key)
    requires ConfigOk(K) && ChoicesLinked(K) && SymOk(K, s) && j in TypeReads(K, s)
    ensures Foreign(K, Sym(s), j)
  {
    assert SymDefOk(K, s);
  }

  lemma SymReachable(K: Config, s: SymId, j: Key)
    requires ConfigOk(K) && ChoicesLinked(K) && SymOk(K, s) && Defined(K.syms[s])
    requires SymDefOk(K, s)
    requires
      || j in DefaultReads(K, K.syms[s].origType, K.syms[s].defaults)
      || j in RangeReads(K, K.syms[s].ranges)
      || j in PromptReads(K, K.syms[s].prompts)
      || j in TypeReads(K, s)
      || j in DepReads(K, s)
    ensures Foreign(K, Sym(s), j)
  {
    var d := K.syms[s];
    if j in DefaultReads(K, d.origType, d.defaults) {
      DefaultReachable(K, Sym(s), d.origType, d.defaults, j);
    } else if j in RangeReads(K, d.ranges) {
      RangeReachable(K, Sym(s), d.ranges, j);
    } else if j in PromptReads(K, d.prompts) {
      PromptReachable(K, Sym(s), d.prompts, j);
    } else if j in TypeReads(K, s) {
      TypeReachable(K, s, j);
    } else {
      var e := if j in ExprReads(K, d.revDep) then d.revDep
               else if j in ExprReads(K, d.weakRevDep) then d.weakRevDep else d.directDep;
      ExprReachable(K, Sym(s), e, j);
    }
  }

  lemma ChoiceReachable(K: Config, c: ChoiceId, k: Key, j: Key)
    requires ConfigOk(K) && c < |K.choices| && KeyOk(K, k) && ItemOf(k) == Cho(c) && j in KeyReads(K, k)
    ensures ReadsBelow(K, k, j)
  {
    assert ChoiceDefOk(K, c);
    var d := K.choices[c];
    if k.Vis? && j in PromptReads(K, d.prompts) {
      PromptReachable(K, Cho(c), d.prompts, j);
    } else if k.Sel? {
      if i :| 0 <= i < |d.defaults| && j in ExprReads(K, d.defaults[i].cond) {
        assert ExprItems(K, d.defaults[i].cond) <= PickItems(K, c, |d.defaults|);
        ExprReachable(K, Cho(c), d.defaults[i].cond, j);
      }
    }
  }

  /** What a live item reads is an earlier slot of its own, or belongs to something it depends on. */
  lemma ReadsAreBelow(K: Config, k: Key, j: Key)
    requires ConfigOk(K) && ChoicesLinked(K) && KeyOk(K, k) && Live(K, ItemOf(k)) && j in KeyReads(K, k)
    ensures ReadsBelow(K, k, j)
  {
    match ItemOf(k)
    case Cho(c) => ChoiceReachable(K, c, k, j);
    case Sym(s) =>
      assert SymDefOk(K, s);
      if j == Vis(Sym(s)) && !k.Vis? {
      } else if k == StrOf(s) && j == TriOf(s) && Boolish(K.syms[s].origType) {
      } else if k.TriOf? && K.syms[s].choice.Some? {
        assert j == Sel(K.syms[s].choice.value);
      } else {
        SymReachable(K, s, j);
      }
  }

  /** Whatever slot a live item reads belongs to something whose change reaches the item. */
  lemma ReadsReachable(K: Config, k: Key, j: Key)
    requires ConfigOk(K) && ChoicesLinked(K) && KeyOk(K, k) && Live(K, ItemOf(k)) && j in KeyReads(K, k)
    ensures Reachable(K, ItemOf(k), j)
  {
    KeyReadsOk(K, k);
    ReadsAreBelow(K, k, j);
  }

  // Invalidation

  /** m without the slots of the items in D. */
  ghost predicate Dropped(m: Cache, m': Cache, D: set<Item>) {
    (forall k :: k in m' ==> k in m && m'[k] == m[k]) &&
    (forall k :: k in m ==> (k in m' <==> ItemOf(k) !in D))
  }

  /** No item that keeps its values depends on an item of D. */
  ghost predicate Cut(K: Config, m': Cache, D: set<Item>)
    requires ConfigOk(K)
  {
    (forall y, z :: y in D && ItemOk(K, z) && y in AllDependsOn(K, z) ==> Vis(z) !in m') &&
    (Sym(K.modules) in D ==> forall z :: ItemOk(K, z) && Live(K, z) ==> Vis(z) !in m')
  }

  /** A slot whose value is fixed by the definition of its symbol. */
  predicate Plain(K: Config, k: Key)
    requires KeyOk(K, k)
  {
    match k
    case TriOf(s) => !Boolish(K.syms[s].origType)
    case StrOf(s) => K.syms[s].origType == Unknown
    case WriteOf(s) => K.syms[s].origType == Unknown
    case Assignable(Sym(s)) => !Boolish(K.syms[s].origType)
    case _ => false
  }

  /** The flag: an item with any cached value that can change has its visibility cached. */
  lemma VisIsCached(K: Config, U: Users, m: Cache, k: Key)
    requires ConfigOk(K) && Justified(K, U, m) && k in m && KeyOk(K, k)
    requires Live(K, ItemOf(k)) && !Plain(K, k)
    ensures Vis(ItemOf(k)) in m
  {
    match ItemOf(k)
    case Cho(c) => assert Body(K, U, m, k).Some?;
    case Sym(s) =>
      assert SymDefOk(K, s);
      if k.StrOf? && Boolish(K.syms[s].origType) {
        assert GetT(m, TriOf(s)).Some?;
        assert Body(K, U, m, TriOf(s)).Some?;
      }
  }

  /** Slots of constant and undefined symbols stay justified whatever else is dropped. */
  lemma DeadStaysJustified(K: Config, U: Users, U': Users, m: Cache, m': Cache, k: Key)
    requires ConfigOk(K) && Justified(K, U, m) && k in m && KeyOk(K, k) && !Live(K, ItemOf(k))
    requires forall j :: j in m && ItemOf(j) == ItemOf(k) ==> j in m' && m'[j] == m[j]
    ensures Body(K, U', m', k) == Some(m[k])
  {
    var s := ItemOf(k).s;
    assert SymDefOk(K, s);
    assert Body(K, U, m, k) == Some(m[k]);
    if k.Assignable? && Boolish(K.syms[s].origType) {
      assert GetT(m, Vis(Sym(s))).Some?;
      assert Body(K, U, m, Vis(Sym(s))) == Some(m[Vis(Sym(s))]);
    }
  }

  lemma CutIsRespected(K: Config, m': Cache, D: set<Item>, x: Item, j: Key)
    requires ConfigOk(K) && ItemOk(K, x) && Live(K, x) && Vis(x) in m' && x !in D
    requires Cut(K, m', D) && Reachable(K, x, j)
    requires forall z :: z in D ==> ItemOk(K, z) && Live(K, z)
    ensures ItemOf(j) !in D
  {
    if IsConstItem(K, ItemOf(j)) { assert SymDefOk(K, ItemOf(j).s); }
  }

  lemma KeptReads(K: Config, U: Users, m: Cache, m': Cache, D: set<Item>, k: Key, j: Key)
    requires ConfigOk(K) && ChoicesLinked(K) && Justified(K, U, m)
    requires Dropped(m, m', D) && Cut(K, m', D)
    requires forall z :: z in D ==> ItemOk(K, z) && Live(K, z)
    requires k in m' && KeyOk(K, k) && Live(K, ItemOf(k)) && !Plain(K, k) && j in KeyReads(K, k)
    ensures Vis(ItemOf(k)) in m' && ItemOf(j) !in D
  {
    var x := ItemOf(k);
    assert k in m && x !in D;
    assert Vis(x) in m' by { VisIsCached(K, U, m, k); assert ItemOf(Vis(x)) == x; }
    ReadsReachable(K, k, j);
    CutIsRespected(K, m', D, x, j);
  }

  lemma LiveStaysJustified(K: Config, U: Users, U': Users, m: Cache, m': Cache, D: set<Item>, k: Key)
    requires ConfigOk(K) && ChoicesLinked(K) && Justified(K, U, m) && PicksOk(K, U)
    requires Dropped(m, m', D) && Cut(K, m', D)
    requires forall z :: z in D ==> ItemOk(K, z) && Live(K, z)
    requires forall z :: ItemOk(K, z) ==> SameOwn(U, U', z) || Vis(z) !in m'
    requires forall c :: UserMode(U, c) != UserMode(U', c) ==> Cho(c) in D
    requires k in m' && KeyOk(K, k) && Live(K, ItemOf(k)) && !Plain(K, k)
    ensures Body(K, U', m', k) == Some(m[k])
  {
    var R := KeyReads(K, k);
    forall j | j in R ensures SameAt(m, m', j) && ItemOf(j) !in D {
      KeptReads(K, U, m, m', D, k, j);
    }
    forall c | Vis(Cho(c)) in R ensures UserMode(U, c) == UserMode(U', c) {
      assert ItemOf(Vis(Cho(c))) !in D;
    }
    assert Agree(K, U, U', m, m', R);
    assert Vis(ItemOf(k)) in m' by { VisIsCached(K, U, m, k); }
    assert Body(K, U, m, k) == Some(m[k]);
    Transfer(K, U, U', m, m', k);
  }

  /**
   * Pruned invalidation is enough: dropping the items of D leaves a justified map
   * for the changed user state, if nothing that is kept depends on D and the user
   * state changed only at items that are not kept.
   */
  lemma DropKeepsJustified(K: Config, U: Users, U': Users, m: Cache, m': Cache, D: set<Item>)
    requires ConfigOk(K) && ChoicesLinked(K) && Justified(K, U, m) && PicksOk(K, U)
    requires Dropped(m, m', D) && Cut(K, m', D)
    requires forall z :: z in D ==> ItemOk(K, z) && Live(K, z)
    requires forall z :: ItemOk(K, z) ==> SameOwn(U, U', z) || Vis(z) !in m'
    requires forall c :: UserMode(U, c) != UserMode(U', c) ==> Cho(c) in D
    ensures Justified(K, U', m')
  {
    forall k | k in m' ensures KeyOk(K, k) && Body(K, U', m', k) == Some(m'[k]) {
      assert Body(K, U, m, k) == Some(m[k]);
      if !Live(K, ItemOf(k)) {
        DeadStaysJustified(K, U, U', m, m', k);
      } else if !Plain(K, k) {
        LiveStaysJustified(K, U, U', m, m', D, k);
      }
    }
  }

  /** A user value on a symbol without a prompt has no effect, so nothing is invalidated for it. */
  lemma PromptlessKeepsJustified(K: Config, U: Users, U': Users, m: Cache, s: SymId)
    requires ConfigOk(K) && Justified(K, U, m) && PicksOk(K, U) && SymOk(K, s)
    requires !HasPrompt(K.syms[s].prompts)
    requires U' == U.(sym := U'.sym) && forall z :: z != Sym(s) ==> SameOwn(U, U', z)
    ensures Justified(K, U', m)
  {
    forall k | k in m ensures Body(K, U', m, k) == Some(m[k]) {
      assert Body(K, U, m, k) == Some(m[k]);
      if ItemOf(k) == Sym(s) && !Plain(K, k) {
        if Live(K, Sym(s)) {
          VisIsCached(K, U, m, k);
          NoPromptNoVis(K, U, m, K.syms[s].prompts, |K.syms[s].prompts|);
          assert Body(K, U, m, Vis(Sym(s))) == Some(m[Vis(Sym(s))]);
          Transfer(K, U, U', m, m, k);
        } else {
          DeadStaysJustified(K, U, U', m, m, k);
        }
      } else if !Plain(K, k) {
        Transfer(K, U, U', m, m, k);
      }
    }
  }

  lemma {:induction false} NoPromptNoVis(K: Config, U: Users, m: Cache, ps: seq<Option<Expr>>, n: nat)
    requires PromptsOk(K, ps) && !HasPrompt(ps) && n <= |ps|
    ensures PromptVis(K, U, m, ps, n) == Some(0)
  {
    if n == 0 {
    } else {
      NoPromptNoVis(K, U, m, ps, n - 1);
    }
  }
}
