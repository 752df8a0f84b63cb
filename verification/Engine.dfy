/**
 * The Kconfig instance with its memoised values. The mutable attributes of the
 * Symbol and Choice objects are columns of this object: `cache` holds the
 * `_cached_*` attributes (a missing slot is None), `users` the user values.
 */
module Engine {
  import opened Wrappers
  import opened Numerals
  import opened Config
  import opened Values
  import opened Reads
  import opened Meaning
  import opened Deps
  import opened Caches
  import opened Invalidation
  import DepTable

  class Kconfig {
    const K: Config
    ghost const rank: Key -> nat
    const dependents: map<Item, set<Item>>
    var cache: Cache
    var users: Users
    var wasSet: set<Item>

    constructor (K: Config, ghost rank: Key -> nat)
      requires ConfigOk(K) && ChoicesLinked(K) && Ranked(K, rank)
      ensures this.K == K && this.rank == rank && Valid()
      ensures users == Users(map[], map[], map[]) && wasSet == {}
    {
      var deps := new DepTable.Dependents(K);
      deps.BuildDep();
      deps.AddChoiceDeps();
      this.K := K;
      this.rank := rank;
      dependents := deps.table;
      cache := NmyValues(K);
      users := Users(map[], map[], map[]);
      wasSet := {};
      new;
      assert DependentsOk(K, dependents) by {
        forall i, x ensures (i in dependents && x in dependents[i]) <==> (ItemOk(K, x) && i in AllDependsOn(K, x)) {
          assert deps.Edge(i, x) <==> ItemOk(K, x) && i in AllDependsOn(K, x);
        }
      }
      NmyJustified(K, users);
    }

    /** What holds of the definitions alone. */
    ghost predicate Sound() {
      ConfigOk(K) && ChoicesLinked(K) && Ranked(K, rank) && DependentsOk(K, dependents)
    }

    ghost predicate Valid()
      reads `cache, `users
    {
      Sound() && UserStateOk(K, users) && Justified(K, users, cache) &&
      ConstantsIn(K, cache) && WritesIn(K, cache)
    }

    /** What every read does: it only adds entries. */
    twostate predicate Reading()
      requires old(Valid())
      reads `cache, `users
    {
      Valid() && users == old(users) && Grown(old(cache), cache)
    }

    // expr_value()

    method ChoiceTypeOf(c: ChoiceId, ghost b: nat) returns (r: Type)
      requires Valid() && c < |K.choices|
      requires K.choices[c].origType == Tristate ==> rank(TriOf(K.modules)) < b
      modifies `cache
      ensures Reading() && ChoiceType(K, cache, c) == Some(r)
      decreases b, 0
    {
      if K.choices[c].origType == Tristate {
        var modules := TriValue(K.modules);
        return if modules == 0 then Bool else Tristate;
      }
      return K.choices[c].origType;
    }

    /** Choice.tri_value. */
    method ChoiceMode(c: ChoiceId, ghost b: nat) returns (r: Tri)
      requires Valid() && c < |K.choices| && rank(Vis(Cho(c))) < b
      requires K.choices[c].origType == Tristate ==> rank(TriOf(K.modules)) < b
      modifies `cache
      ensures Reading() && ChoiceTri(K, users, cache, c) == Some(r)
      decreases b, 1
    {
      var val: Tri := if K.choices[c].isOptional then 0 else 1;
      if c in users.mode {
        val := Max(val, users.mode[c]);
      }
      var vis := Visibility(Cho(c));
      val := Min(val, vis);
      if val == 1 {
        var ty := ChoiceTypeOf(c, b);
        return if ty == Bool then 2 else 1;
      }
      return val;
    }

    /** Symbol.type. */
    method SymTypeOf(s: SymId, ghost b: nat) returns (r: Type)
      requires Valid() && SymOk(K, s)
      requires Below(rank, TypeReads(K, s), b)
      modifies `cache
      ensures Reading() && SymType(K, users, cache, s) == Some(r)
      decreases b, 2
    {
      assert SymDefOk(K, s);
      var d := K.syms[s];
      if d.origType == Tristate {
        assert TriOf(K.modules) in TypeReads(K, s);
        var mode: Tri := 0;
        if d.choice.Some? {
          assert Vis(Cho(d.choice.value)) in TypeReads(K, s);
          mode := ChoiceMode(d.choice.value, b);
        }
        if mode == 2 {
          return Bool;
        }
        ghost var before := cache;
        var modules := TriValue(K.modules);
        if d.choice.Some? { ModeTransfer(K, users, users, before, cache, d.choice.value); }
        return if modules == 0 then Bool else Tristate;
      }
      return d.origType;
    }

    method SymToNum(s: SymId, ghost b: nat) returns (r: Option<int>)
      requires Valid() && SymOk(K, s) && rank(TriOf(s)) < b && rank(StrOf(s)) < b
      modifies `cache
      ensures Reading() && SymNum(K, cache, s) == Some(r)
      decreases b, 0
    {
      if Boolish(K.syms[s].origType) {
        var t := TriValue(s);
        return Some(t);
      }
      var str := StrValue(s);
      return ParseInt(str, TypeBase(K.syms[s].origType));
    }

    method StrComp(a: SymId, c: SymId, ghost b: nat) returns (r: int)
      requires Valid() && SymOk(K, a) && SymOk(K, c) && rank(StrOf(a)) < b && rank(StrOf(c)) < b
      modifies `cache
      ensures Reading() && CompareStrs(cache, a, c) == Some(r)
      decreases b, 0
    {
      var x := StrValue(a);
      var y := StrValue(c);
      return StrCmp(x, y);
    }

    method RelationValue(a: SymId, c: SymId, ghost b: nat) returns (r: int)
      requires Valid() && SymOk(K, a) && SymOk(K, c)
      requires rank(TriOf(a)) < b && rank(StrOf(a)) < b && rank(TriOf(c)) < b && rank(StrOf(c)) < b
      modifies `cache
      ensures Reading() && CompareSyms(K, cache, a, c) == Some(r)
      decreases b, 1
    {
      hide Justified, Ranked, ConfigOk, ChoicesLinked, UserStateOk, DependentsOk, ConstantsIn, WritesIn;
      if K.syms[a].origType == String && K.syms[c].origType == String {
        r := StrComp(a, c, b);
        return;
      }
      var x := SymToNum(a, b);
      if x.None? {
        r := StrComp(a, c, b);
        return;
      }
      var y := SymToNum(c, b);
      if y.None? {
        r := StrComp(a, c, b);
        return;
      }
      return x.value - y.value;
    }

    method ExprValue(e: Expr, ghost b: nat) returns (r: Tri)
      requires Valid() && ExprOk(K, e)
      requires Below(rank, ExprReads(K, e), b)
      modifies `cache
      ensures Reading() && Eval(K, users, cache, e) == Some(r)
      decreases b, 3, e
    {
      hide Justified, Ranked, ConfigOk, ChoicesLinked, UserStateOk, DependentsOk, ConstantsIn, WritesIn;
      match e
      case Leaf(Sym(s)) =>
        assert TriOf(s) in ExprReads(K, e);
        r := TriValue(s);
      case Leaf(Cho(c)) =>
        assert Vis(Cho(c)) in ExprReads(K, e);
        r := ChoiceMode(c, b);
      case And(left, right) =>
        var v1 := ExprValue(left, b);
        if v1 == 0 {
          return 0;
        }
        ghost var before := cache;
        var v2 := ExprValue(right, b);
        EvalGrown(K, users, before, cache, left);
        return Min(v1, v2);
      case Or(left, right) =>
        var v1 := ExprValue(left, b);
        if v1 == 2 {
          return 2;
        }
        ghost var before := cache;
        var v2 := ExprValue(right, b);
        EvalGrown(K, users, before, cache, left);
        return Max(v1, v2);
      case Not(arg) =>
        var v := ExprValue(arg, b);
        return 2 - v;
      case Compare(rel, x, y) =>
        assert {TriOf(x), StrOf(x), TriOf(y), StrOf(y)} <= ExprReads(K, e);
        var comp := RelationValue(x, y, b);
        return if Holds(rel, comp) then 2 else 0;
    }

    // Visibility

    method PromptVisibility(ps: seq<Option<Expr>>, ghost b: nat) returns (vis: Tri)
      requires Valid() && PromptsOk(K, ps)
      requires Below(rank, PromptReads(K, ps), b)
      modifies `cache
      ensures Reading() && PromptVis(K, users, cache, ps, |ps|) == Some(vis)
      decreases b, 4
    {
      hide Justified, Ranked, ConfigOk, ChoicesLinked, UserStateOk, DependentsOk, ConstantsIn, WritesIn;
      vis := 0;
      for i := 0 to |ps|
        invariant Reading() && PromptVis(K, users, cache, ps, i) == Some(vis)
      {
        if ps[i].Some? {
          assert ExprReads(K, ps[i].value) <= PromptReads(K, ps);
          ghost var before := cache;
          var cond := ExprValue(ps[i].value, b);
          PromptGrown(K, users, before, cache, ps, i);
          vis := Max(vis, cond);
        }
      }
    }

    method SymVisibility(s: SymId, ghost b: nat) returns (vis: Tri)
      requires Valid() && SymOk(K, s)
      requires Below(rank, KeyReads(K, Vis(Sym(s))), b)
      modifies `cache
      ensures Reading() && SymVis(K, users, cache, s) == Some(vis)
      decreases b, 5
    {
      assert SymDefOk(K, s);
      var d := K.syms[s];
      vis := PromptVisibility(d.prompts, b);
      ghost var c1 := cache;
      if d.choice.Some? {
        var c := d.choice.value;
        assert Vis(Cho(c)) in TypeReads(K, s);
        if K.choices[c].origType == Tristate { assert TriOf(K.modules) in TypeReads(K, s); }
        if K.choices[c].origType == Tristate && d.origType != Tristate {
          var mode := ChoiceMode(c, b);
          PromptGrown(K, users, c1, cache, d.prompts, |d.prompts|);
          if mode != 2 {
            return 0;
          }
        } else if d.origType == Tristate && vis == 1 {
          var mode := ChoiceMode(c, b);
          PromptGrown(K, users, c1, cache, d.prompts, |d.prompts|);
          if mode == 2 {
            return 0;
          }
        }
      }
      if vis == 1 {
        ghost var c2 := cache;
        var ty := SymTypeOf(s, b);
        PromptGrown(K, users, c1, cache, d.prompts, |d.prompts|);
        if d.choice.Some? && ChoiceTri(K, users, c2, d.choice.value).Some? {
          ModeTransfer(K, users, users, c2, cache, d.choice.value);
        }
        if ty != Tristate {
          return 2;
        }
      }
    }

    method ChoiceVisibility(c: ChoiceId, ghost b: nat) returns (vis: Tri)
      requires Valid() && c < |K.choices|
      requires Below(rank, KeyReads(K, Vis(Cho(c))), b)
      modifies `cache
      ensures Reading() && ChoiceVis(K, users, cache, c) == Some(vis)
      decreases b, 5
    {
      assert ChoiceDefOk(K, c);
      var d := K.choices[c];
      vis := PromptVisibility(d.prompts, b);
      if vis == 1 {
        ghost var before := cache;
        if d.origType == Tristate { assert TriOf(K.modules) in KeyReads(K, Vis(Cho(c))); }
        var ty := ChoiceTypeOf(c, b);
        PromptGrown(K, users, before, cache, d.prompts, |d.prompts|);
        if ty != Tristate {
          return 2;
        }
      }
    }

    method Visibility(i: Item) returns (r: Tri)
      requires Valid() && ItemOk(K, i)
      modifies `cache
      ensures Reading() && Vis(i) in cache && cache[Vis(i)] == T(r)
      decreases rank(Vis(i)), 9
    {
      if Vis(i) in cache {
        assert Body(K, users, cache, Vis(i)) == Some(cache[Vis(i)]);
        return cache[Vis(i)].t;
      }
      match i {
        case Sym(s) => r := SymVisibility(s, rank(Vis(i)));
        case Cho(c) => r := ChoiceVisibility(c, rank(Vis(i)));
      }
      AddJustified(K, users, cache, Vis(i), T(r));
      cache := cache[Vis(i) := T(r)];
    }

    // tri_value

    method FindDefault(t: Type, ds: seq<Default>, ghost b: nat) returns (r: nat)
      requires Valid() && DefaultsOk(K, t, ds) && Below(rank, DefaultReads(K, t, ds), b)
      modifies `cache
      ensures Reading() && ActiveDefault(K, users, cache, t, ds, 0) == Some(r) && r <= |ds|
      decreases b, 4
    {
      hide Justified, Ranked, ConfigOk, ChoicesLinked, UserStateOk, DependentsOk, ConstantsIn, WritesIn, DefaultReads, ActiveDefault;
      DefaultShape(K, t, ds, rank, b);
      r := 0;
      while r < |ds|
        invariant Reading() && r <= |ds| && Inactive(K, users, cache, t, ds, r)
      {
        ghost var before := cache;
        var cond := ExprValue(ds[r].cond, b);
        InactiveGrown(K, users, before, cache, t, ds, r);
        if cond != 0 {
          break;
        }
        r := r + 1;
      }
      SkipInactive(K, users, cache, t, ds, r, 0);
      ActiveDefaultHere(K, users, cache, t, ds, r);
    }

    method DefaultTriValue(t: Type, ds: seq<Default>, ghost b: nat) returns (val: Tri)
      requires Valid() && DefaultsOk(K, t, ds) && Boolish(t)
      requires Below(rank, DefaultReads(K, t, ds), b)
      modifies `cache
      ensures Reading() && DefaultTri(K, users, cache, t, ds) == Some(val)
      decreases b, 5
    {
      hide Justified, Ranked, ConfigOk, ChoicesLinked, UserStateOk, DependentsOk, ConstantsIn, WritesIn;
      var i := FindDefault(t, ds, b);
      if i == |ds| {
        return 0;
      }
      assert ExprReads(K, ds[i].cond) <= DefaultReads(K, t, ds) && ExprReads(K, ds[i].value) <= DefaultReads(K, t, ds);
      ghost var c1 := cache;
      var cond := ExprValue(ds[i].cond, b);
      ghost var c2 := cache;
      val := ExprValue(ds[i].value, b);
      EvalGrown(K, users, c2, cache, ds[i].cond);
      ActiveDefaultTransfer(K, users, users, c1, cache, t, ds, 0);
      val := Min(val, cond);
    }

    method ImplyValue(s: SymId, ghost b: nat) returns (r: Tri)
      requires Valid() && SymOk(K, s)
      requires Below(rank, DepReads(K, s), b)
      modifies `cache
      ensures Reading() && ImplyTri(K, users, cache, s) == Some(r)
      decreases b, 5
    {
      assert SymDefOk(K, s);
      hide Justified, Ranked, ConfigOk, ChoicesLinked, UserStateOk, DependentsOk, ConstantsIn, WritesIn;
      r := ExprValue(K.syms[s].weakRevDep, b);
      if r != 0 {
        ghost var before := cache;
        var dep := ExprValue(K.syms[s].directDep, b);
        EvalGrown(K, users, before, cache, K.syms[s].weakRevDep);
        if dep == 0 {
          r := 0;
        }
      }
    }

    method SelectValue(s: SymId, ghost b: nat) returns (r: Tri)
      requires Valid() && SymOk(K, s)
      requires Below(rank, DepReads(K, s), b)
      modifies `cache
      ensures Reading() && SelectTri(K, users, cache, s) == Some(r)
      decreases b, 5
    {
      assert SymDefOk(K, s);
      hide Justified, Ranked, ConfigOk, ChoicesLinked, UserStateOk, DependentsOk, ConstantsIn, WritesIn;
      r := ExprValue(K.syms[s].revDep, b);
      if r != 0 {
        // read for the warning about unmet direct dependencies
        ghost var before := cache;
        var dep := ExprValue(K.syms[s].directDep, b);
        EvalGrown(K, users, before, cache, K.syms[s].revDep);
      }
    }

    method WantedValue(s: SymId, vis: Tri, ghost b: nat) returns (val: Tri)
      requires Valid() && SymOk(K, s) && Boolish(K.syms[s].origType)
      requires Below(rank, PlainReads(K, s), b)
      modifies `cache
      ensures Reading() && WantedTri(K, users, cache, s, vis) == Some(val)
      decreases b, 6
    {
      assert SymDefOk(K, s);
      hide Justified, Ranked, ConfigOk, ChoicesLinked, UserStateOk, DependentsOk, ConstantsIn, WritesIn;
      if vis != 0 && UserTri(users, s).Some? {
        return Min(UserTri(users, s).value, vis);
      }
      var d := K.syms[s];
      val := DefaultTriValue(d.origType, d.defaults, b);
      ghost var before := cache;
      var weak := ImplyValue(s, b);
      DefaultTriTransfer(K, users, users, before, cache, d.origType, d.defaults);
      val := Max(weak, val);
    }

    method Promoted(s: SymId, val: Tri, ghost b: nat) returns (r: Tri)
      requires Valid() && SymOk(K, s)
      requires Below(rank, DepReads(K, s) + TypeReads(K, s), b)
      modifies `cache
      ensures Reading() && Promote(K, users, cache, s, val) == Some(r)
      decreases b, 6
    {
      assert SymDefOk(K, s);
      hide Justified, Ranked, ConfigOk, ChoicesLinked, UserStateOk, DependentsOk, ConstantsIn, WritesIn;
      if val != 1 {
        return val;
      }
      var ty := SymTypeOf(s, b);
      if ty == Bool {
        return 2;
      }
      ghost var before := cache;
      assert ExprReads(K, K.syms[s].weakRevDep) <= DepReads(K, s) + TypeReads(K, s);
      var weak := ExprValue(K.syms[s].weakRevDep, b);
      TypeTransfer(K, users, users, before, cache, s);
      return if weak == 2 then 2 else 1;
    }

    /** A bool or tristate symbol outside choices; `write` is its _write_to_conf. */
    method PlainTriValue(s: SymId, vis: Tri, ghost b: nat) returns (val: Tri, write: bool)
      requires Valid() && SymOk(K, s) && Boolish(K.syms[s].origType) && !IsNmy(K.syms[s])
      requires K.syms[s].choice.None? && GetT(cache, Vis(Sym(s))) == Some(vis)
      requires Below(rank, PlainReads(K, s), b)
      modifies `cache
      ensures Reading() && PlainTri(K, users, cache, s, vis) == Some(val)
      ensures WriteToConf(K, users, cache, s) == Some(write)
      decreases b, 7
    {
      hide Justified, Ranked, ConfigOk, ChoicesLinked, UserStateOk, DependentsOk, ConstantsIn, WritesIn;
      val := WantedValue(s, vis, b);
      write := vis != 0 || val != 0;
      ghost var c1, v1 := cache, val;
      var rev := SelectValue(s, b);
      write := write || rev != 0;
      val := Max(rev, val);
      ghost var c2, v2 := cache, val;
      val := Promoted(s, val, b);
      WantedTransfer(K, users, users, c1, cache, s, vis);
      SelectTransfer(K, users, users, c2, cache, s);
    }

    method ChoiceSymTriValue(s: SymId, c: ChoiceId, vis: Tri) returns (r: Tri)
      requires Valid() && SymOk(K, s) && K.syms[s].choice == Some(c) && Boolish(K.syms[s].origType) && !IsNmy(K.syms[s])
      requires Sel(c) in KeyReads(K, TriOf(s)) && c < |K.choices|
      modifies `cache
      ensures Reading() && ChoiceSymTri(users, cache, s, c, vis) == Some(r)
      decreases rank(TriOf(s)), 8
    {
      if vis == 2 {
        var sel := SelectionOf(c);
        return if sel == Some(s) then 2 else 0;
      }
      return if vis != 0 && UserTri(users, s).Some? && UserTri(users, s).value != 0 then 1 else 0;
    }

    /** Stores a value together with its _write_to_conf. */
    method Remember(s: SymId, k: Key, v: Val, write: bool)
      requires Valid() && SymOk(K, s) && (k == TriOf(s) || k == StrOf(s))
      requires Body(K, users, cache, k) == Some(v) && WriteToConf(K, users, cache, s) == Some(write)
      modifies `cache
      ensures Reading() && k in cache && cache[k] == v && WriteOf(s) in cache && cache[WriteOf(s)] == B(write)
    {
      AddJustified(K, users, cache, WriteOf(s), B(write));
      ghost var before := cache;
      cache := cache[WriteOf(s) := B(write)];
      Transfer(K, users, users, before, cache, k);
      AddJustified(K, users, cache, k, v);
      cache := cache[k := v];
    }

    method TriValue(s: SymId) returns (r: Tri)
      requires Valid() && SymOk(K, s)
      modifies `cache
      ensures Reading() && TriOf(s) in cache && cache[TriOf(s)] == T(r)
      decreases rank(TriOf(s)), 9
    {
      if TriOf(s) in cache {
        assert Body(K, users, cache, TriOf(s)) == Some(cache[TriOf(s)]);
        return cache[TriOf(s)].t;
      }
      assert SymDefOk(K, s);
      var d := K.syms[s];
      if !Boolish(d.origType) {
        AddJustified(K, users, cache, TriOf(s), T(0));
        cache := cache[TriOf(s) := T(0)];
        return 0;
      }
      assert Vis(Sym(s)) in KeyReads(K, TriOf(s));
      var vis := Visibility(Sym(s));
      var write := vis != 0;
      if d.choice.None? {
        r, write := PlainTriValue(s, vis, rank(TriOf(s)));
      } else {
        r := ChoiceSymTriValue(s, d.choice.value, vis);
      }
      Remember(s, TriOf(s), T(r), write);
    }

    // str_value

    method FindRange(base: nat, rs: seq<Range>, ghost b: nat) returns (r: Option<(int, int)>)
      requires Valid() && RangesOk(K, rs)
      requires Below(rank, RangeReads(K, rs), b)
      modifies `cache
      ensures Reading() && ActiveRange(K, users, cache, base, rs, 0) == Some(r)
      decreases b, 4
    {
      hide Justified, Ranked, ConfigOk, ChoicesLinked, UserStateOk, DependentsOk, ConstantsIn, WritesIn;
      var i := 0;
      while i < |rs|
        invariant Reading() && i <= |rs| && NoRange(K, users, cache, rs, i)
      {
        assert ExprReads(K, rs[i].cond) <= RangeReads(K, rs);
        ghost var c0 := cache;
        var cond := ExprValue(rs[i].cond, b);
        ghost var c1 := cache;
        NoRangeGrown(K, users, c0, c1, rs, i);
        if cond != 0 {
          assert StrOf(rs[i].low) in RangeReads(K, rs) && StrOf(rs[i].high) in RangeReads(K, rs);
          var low := StrValue(rs[i].low);
          var high := StrValue(rs[i].high);
          EvalGrown(K, users, c1, cache, rs[i].cond);
          NoRangeGrown(K, users, c1, cache, rs, i);
          SkipRanges(K, users, cache, base, rs, i, 0);
          return Some((NumOrZero(low, base), NumOrZero(high, base)));
        }
        i := i + 1;
      }
      SkipRanges(K, users, cache, base, rs, i, 0);
      return None;
    }

    method DefaultStrValue(t: Type, ds: seq<Default>, ghost b: nat) returns (r: Option<string>)
      requires Valid() && DefaultsOk(K, t, ds) && !Boolish(t) && t != Unknown
      requires Below(rank, DefaultReads(K, t, ds), b)
      modifies `cache
      ensures Reading() && DefaultStr(K, users, cache, t, ds) == Some(r)
      decreases b, 5
    {
      var i := FindDefault(t, ds, b);
      hide Justified, Ranked, ConfigOk, ChoicesLinked, UserStateOk, DependentsOk, ConstantsIn, WritesIn;
      if i == |ds| {
        return None;
      }
      assert ExprOk(K, ds[i].value);
      var def := ds[i].value.item.s;
      assert StrOf(def) in DefaultReads(K, t, ds);
      ghost var before := cache;
      var str := StrValue(def);
      ActiveDefaultTransfer(K, users, users, before, cache, t, ds, 0);
      return Some(str);
    }

    method NumValue(s: SymId, vis: Tri, ghost b: nat) returns (val: string, write: bool)
      requires Valid() && SymOk(K, s) && Numeric(K.syms[s].origType) && GetT(cache, Vis(Sym(s))) == Some(vis)
      requires Below(rank, KeyReads(K, StrOf(s)), b)
      modifies `cache
      ensures Reading() && NumStr(K, users, cache, s, vis) == Some(val)
      ensures WriteToConf(K, users, cache, s) == Some(write)
      decreases b, 6
    {
      assert SymDefOk(K, s);
      hide Justified, Ranked, ConfigOk, ChoicesLinked, UserStateOk, DependentsOk, ConstantsIn, WritesIn;
      var d := K.syms[s];
      var base := TypeBase(d.origType);
      write := vis != 0;
      var range := FindRange(base, d.ranges, b);
      var user := UserNum(users, s, vis, range, base);
      if user.Some? {
        val := user.value;
      } else {
        ghost var before := cache;
        var def := DefaultStrValue(d.origType, d.defaults, b);
        RangeTransfer(K, users, users, before, cache, base, d.ranges, 0);
        write := write || def.Some?;
        val := Clamp(range, base, if def.Some? then def.value else "");
      }
      if d.fromEnv || K.defconfigList == Some(s) {
        write := false;
      }
    }

    method TextValue(s: SymId, vis: Tri, ghost b: nat) returns (val: string, write: bool)
      requires Valid() && SymOk(K, s) && K.syms[s].origType == String && GetT(cache, Vis(Sym(s))) == Some(vis)
      requires Below(rank, KeyReads(K, StrOf(s)), b)
      modifies `cache
      ensures Reading() && TextStr(K, users, cache, s, vis) == Some(val)
      ensures WriteToConf(K, users, cache, s) == Some(write)
      decreases b, 6
    {
      assert SymDefOk(K, s);
      hide Justified, Ranked, ConfigOk, ChoicesLinked, UserStateOk, DependentsOk, ConstantsIn, WritesIn;
      var d := K.syms[s];
      write := vis != 0;
      if vis != 0 && UserStr(users, s).Some? {
        val := UserStr(users, s).value;
      } else {
        var def := DefaultStrValue(String, d.defaults, b);
        write := write || def.Some?;
        val := if def.Some? then def.value else "";
      }
      if d.fromEnv || K.defconfigList == Some(s) {
        write := false;
      }
    }

    method StrValue(s: SymId) returns (r: string)
      requires Valid() && SymOk(K, s)
      modifies `cache
      ensures Reading() && StrOf(s) in cache && cache[StrOf(s)] == S(r)
      decreases rank(StrOf(s)), 9
    {
      if StrOf(s) in cache {
        assert Body(K, users, cache, StrOf(s)) == Some(cache[StrOf(s)]);
        return cache[StrOf(s)].str;
      }
      assert SymDefOk(K, s);
      var d := K.syms[s];
      if Boolish(d.origType) || d.origType == Unknown {
        if d.origType == Unknown {
          r := d.name;
        } else {
          assert TriOf(s) in KeyReads(K, StrOf(s));
          var t := TriValue(s);
          r := TriToStr(t);
        }
        AddJustified(K, users, cache, StrOf(s), S(r));
        cache := cache[StrOf(s) := S(r)];
        return;
      }
      assert Vis(Sym(s)) in KeyReads(K, StrOf(s));
      var vis := Visibility(Sym(s));
      var write;
      if d.origType == String {
        r, write := TextValue(s, vis, rank(StrOf(s)));
      } else {
        r, write := NumValue(s, vis, rank(StrOf(s)));
      }
      Remember(s, StrOf(s), S(r), write);
    }

    // selection

    method FirstVisibleSym(syms: seq<SymId>, ghost b: nat) returns (r: Option<SymId>)
      requires Valid()
      requires forall j :: 0 <= j < |syms| ==> SymOk(K, syms[j]) && rank(Vis(Sym(syms[j]))) < b
      modifies `cache
      ensures Reading() && FirstVisible(cache, syms, 0) == Some(r)
      decreases b, 4
    {
      hide Justified, Ranked, ConfigOk, ChoicesLinked, UserStateOk, DependentsOk, ConstantsIn, WritesIn, FirstVisible;
      var i := 0;
      while i < |syms|
        invariant Reading() && i <= |syms| && Invisible(cache, syms, i)
      {
        var vis := Visibility(Sym(syms[i]));
        if vis != 0 {
          SkipInvisible(cache, syms, i, 0);
          FirstVisibleHere(cache, syms, i);
          return Some(syms[i]);
        }
        i := i + 1;
      }
      SkipInvisible(cache, syms, i, 0);
      FirstVisibleHere(cache, syms, i);
      return None;
    }

    method DefaultSelection(c: ChoiceId, ghost b: nat) returns (r: Option<SymId>)
      requires Valid() && c < |K.choices|
      requires Below(rank, SelReads(K, c), b)
      modifies `cache
      ensures Reading() && SelectionFromDefaults(K, users, cache, c) == Some(r)
      decreases b, 6
    {
      ChoiceShape(K, c, rank, b);
      r := PickDefault(c, b);
      if r.None? {
        ghost var before := cache;
        r := FirstVisibleSym(K.choices[c].syms, b);
        DefaultPickTransfer(K, users, users, before, cache, c, 0);
      }
    }

    method PickApplies(d: Pick, ghost b: nat) returns (r: bool)
      requires Valid() && ExprOk(K, d.cond) && SymOk(K, d.sym)
      requires Below(rank, ExprReads(K, d.cond), b) && rank(Vis(Sym(d.sym))) < b
      modifies `cache
      ensures Reading() && Applies(K, users, cache, d, r)
      decreases b, 4
    {
      hide Justified, Ranked, ConfigOk, ChoicesLinked, UserStateOk, DependentsOk, ConstantsIn, WritesIn;
      var cond := ExprValue(d.cond, b);
      if cond == 0 {
        return false;
      }
      ghost var before := cache;
      var vis := Visibility(Sym(d.sym));
      EvalGrown(K, users, before, cache, d.cond);
      return vis != 0;
    }

    method PickDefault(c: ChoiceId, ghost b: nat) returns (r: Option<SymId>)
      requires Valid() && c < |K.choices|
      requires Below(rank, SelReads(K, c), b)
      modifies `cache
      ensures Reading() && DefaultPick(K, users, cache, c, 0) == Some(r)
      decreases b, 5
    {
      hide Justified, Ranked, ConfigOk, ChoicesLinked, UserStateOk, DependentsOk, ConstantsIn, WritesIn, DefaultPick, SelReads, SelectionFromDefaults;
      ChoiceShape(K, c, rank, b);
      var ds := K.choices[c].defaults;
      for i := 0 to |ds|
        invariant Reading() && Passed(K, users, cache, c, i)
      {
        ghost var before := cache;
        var applies := PickApplies(ds[i], b);
        PassedGrown(K, users, before, cache, c, i);
        if applies {
          SkipPassed(K, users, cache, c, i, 0);
          DefaultPickHere(K, users, cache, c, i);
          return Some(ds[i].sym);
        }
      }
      SkipPassed(K, users, cache, c, |ds|, 0);
      DefaultPickHere(K, users, cache, c, |ds|);
      return None;
    }

    method SelectionOf(c: ChoiceId) returns (r: Option<SymId>)
      requires Valid() && c < |K.choices|
      modifies `cache
      ensures Reading() && Sel(c) in cache && cache[Sel(c)] == P(r)
      decreases rank(Sel(c)), 9
    {
      if Sel(c) in cache {
        assert Body(K, users, cache, Sel(c)) == Some(cache[Sel(c)]);
        return cache[Sel(c)].pick;
      }
      r := NewSelection(c, rank(Sel(c)));
      AddJustified(K, users, cache, Sel(c), P(r));
      cache := cache[Sel(c) := P(r)];
    }

    method NewSelection(c: ChoiceId, ghost b: nat) returns (r: Option<SymId>)
      requires Valid() && c < |K.choices|
      requires Below(rank, SelReads(K, c), b)
      modifies `cache
      ensures Reading() && Selection(K, users, cache, c) == Some(r)
      decreases b, 7
    {
      assert Vis(Cho(c)) in SelReads(K, c);
      if K.choices[c].origType == Tristate { assert TriOf(K.modules) in SelReads(K, c); }
      var mode := ChoiceMode(c, b);
      if mode != 2 {
        return None;
      }
      ghost var before := cache;
      if c in users.pick {
        var pick := users.pick[c];
        assert Vis(Sym(pick)) in SelReads(K, c);
        assert ChoiceDefOk(K, c);
        var vis := Visibility(Sym(pick));
        ModeTransfer(K, users, users, before, cache, c);
        if vis != 0 {
          return Some(pick);
        }
      }
      r := DefaultSelection(c, b);
      ModeTransfer(K, users, users, before, cache, c);
    }

    // assignable

    /** The values of a y-visible symbol that is not selected to y. */
    method FullyAssignable(s: SymId, rev: Tri, ghost b: nat) returns (r: seq<Tri>, ghost weakIsY: bool)
      requires Valid() && SymOk(K, s) && SymDefOk(K, s) && rev != 2
      requires Below(rank, ExprReads(K, K.syms[s].weakRevDep), b) && Below(rank, TypeReads(K, s), b)
      modifies `cache
      ensures Reading() && SymType(K, users, cache, s).Some?
      ensures SymType(K, users, cache, s) != Some(Bool) ==>
        Eval(K, users, cache, K.syms[s].weakRevDep).Some? && weakIsY == (Eval(K, users, cache, K.syms[s].weakRevDep) == Some(2))
      ensures SymType(K, users, cache, s) == Some(Bool) ==> weakIsY
      ensures r == if rev == 0 then (if weakIsY then [0, 2] else [0, 1, 2]) else (if weakIsY then [2] else [1, 2])
      decreases b, 6
    {
      hide Justified, Ranked, ConfigOk, ChoicesLinked, UserStateOk, DependentsOk, ConstantsIn, WritesIn;
      var ty := SymTypeOf(s, b);
      var weak: Tri := 2;
      if ty != Bool {
        ghost var before := cache;
        weak := ExprValue(K.syms[s].weakRevDep, b);
        TypeTransfer(K, users, users, before, cache, s);
      }
      weakIsY := weak == 2;
      r := if rev == 0 then (if weak == 2 then [0, 2] else [0, 1, 2]) else (if weak == 2 then [2] else [1, 2]);
    }

    method SymAssignableValues(s: SymId, ghost b: nat) returns (r: seq<Tri>)
      requires Valid() && SymOk(K, s) && Boolish(K.syms[s].origType) && b == rank(Assignable(Sym(s)))
      modifies `cache
      ensures Reading() && SymAssignable(K, users, cache, s) == Some(r)
      decreases b, 7
    {
      hide Justified, Ranked, ConfigOk, ChoicesLinked, UserStateOk, DependentsOk, ConstantsIn, WritesIn, KeyReads, SymDefOk, SymType;
      AssignableShape(K, s, rank);
      var d := K.syms[s];
      var vis := Visibility(Sym(s));
      if vis == 0 {
        return [];
      }
      var rev := ExprValue(d.revDep, b);
      if (vis == 2 && d.choice.Some?) || rev == 2 {
        return [2];
      }
      ghost var before := cache;
      if vis == 2 {
        ghost var weakIsY;
        r, weakIsY := FullyAssignable(s, rev, b);
        EvalGrown(K, users, before, cache, d.revDep);
      } else if rev == 0 {
        var weak := ExprValue(d.weakRevDep, b);
        EvalGrown(K, users, before, cache, d.revDep);
        return if weak != 2 then [0, 1] else [0, 2];
      } else {
        return [1];
      }
    }

    method ChoiceAssignableValues(c: ChoiceId, ghost b: nat) returns (r: seq<Tri>)
      requires Valid() && c < |K.choices| && b == rank(Assignable(Cho(c)))
      modifies `cache
      ensures Reading() && ChoiceAssignable(K, cache, c) == Some(r)
      decreases b, 7
    {
      assert Vis(Cho(c)) in KeyReads(K, Assignable(Cho(c)));
      var vis := Visibility(Cho(c));
      var optional := K.choices[c].isOptional;
      if vis == 0 {
        return [];
      }
      if vis == 2 {
        if K.choices[c].origType == Tristate { assert TriOf(K.modules) in KeyReads(K, Assignable(Cho(c))); }
        var ty := ChoiceTypeOf(c, b);
        return if optional then (if ty == Bool then [0, 2] else [0, 1, 2]) else (if ty == Bool then [2] else [1, 2]);
      }
      return if optional then [0, 1] else [1];
    }

    method AssignableValues(i: Item) returns (r: seq<Tri>)
      requires Valid() && ItemOk(K, i)
      modifies `cache
      ensures Reading() && Assignable(i) in cache && cache[Assignable(i)] == A(r)
      decreases rank(Assignable(i)), 9
    {
      if Assignable(i) in cache {
        assert Body(K, users, cache, Assignable(i)) == Some(cache[Assignable(i)]);
        return cache[Assignable(i)].vals;
      }
      match i {
        case Sym(s) =>
          r := [];
          if Boolish(K.syms[s].origType) {
            r := SymAssignableValues(s, rank(Assignable(i)));
          }
        case Cho(c) => r := ChoiceAssignableValues(c, rank(Assignable(i)));
      }
      AddJustified(K, users, cache, Assignable(i), A(r));
      cache := cache[Assignable(i) := A(r)];
    }

    // Invalidation

    method Invalidate(i: Item)
      requires Sound()
      modifies `cache
      ensures Dropped(old(cache), cache, {i})
    {
      cache := map k | k in cache && ItemOf(k) != i :: cache[k];
    }

    /** Constants and undefined symbols never change value and keep their slots. */
    method InvalidateAll() returns (ghost D: set<Item>)
      requires Sound()
      modifies `cache
      ensures Dropped(old(cache), cache, D)
      ensures forall z :: z in D <==> ItemOk(K, z) && Live(K, z)
    {
      D := {};
      for n := 0 to |K.definedSyms|
        invariant Dropped(old(cache), cache, D)
        invariant forall z :: z in D <==> z.Sym? && z.s in K.definedSyms[..n]
      {
        Invalidate(Sym(K.definedSyms[n]));
        D := D + {Sym(K.definedSyms[n])};
      }
      for c := 0 to |K.choices|
        invariant Dropped(old(cache), cache, D)
        invariant forall z :: z in D <==> if z.Sym? then z.s in K.definedSyms else z.c < c
      {
        Invalidate(Cho(c));
        D := D + {Cho(c)};
      }
    }

    /**
     * Drops the slots of i and of all that may depend on them (D), stopping at items
     * without cached values. Everything else is kept.
     */
    method RecInvalidate(i: Item) returns (ghost D: set<Item>)
      requires Sound() && ItemOk(K, i) && Live(K, i)
      modifies `cache
      ensures Dropped(old(cache), cache, D) && i in D
      ensures AllLive(K, D) && Cut(K, cache, D)
      ensures Influenced(K, i, D)
      decreases CachedItems(cache), if Vis(i) in cache then 0 else 1
    {
      hide Justified, Ranked, ConfigOk, ChoicesLinked, UserStateOk, AllDependsOn, Path, Influences, CutExcept, Cut, DependentsOk;
      if i == Sym(K.modules) {
        D := InvalidateAll();
        AllInfluencedByModules(K, i, D);
        CutOfAll(K, old(cache), cache, D);
        return;
      }
      Invalidate(i);
      D := {i};
      SelfInfluence(K, i);
      CutStarts(K, dependents, cache, i);
      var todo := if i in dependents then dependents[i] else {};
      ghost var all := todo;
      while todo != {}
        invariant todo <= all
        invariant Dropped(old(cache), cache, D) && i in D
        invariant AllLive(K, D) && CutExcept(K, cache, D, i, todo)
        invariant Influenced(K, i, D)
        decreases todo
      {
        var item :| item in todo;
        if Vis(item) in cache {
          CachedShrinks(old(cache), cache, i, item);
          ghost var before := cache;
          ghost var E := RecInvalidate(item);
          InfluenceStep(K, i, item, E);
          CutCombines(K, before, cache, D, E, i, todo, item);
          DroppedTwice(old(cache), before, cache, D, E);
          D := D + E;
        } else {
          CutSkips(K, cache, D, i, todo, item);
        }
        todo := todo - {item};
      }
      CutEnds(K, cache, D, i);
    }

    /** All that a cache in the user state U has to satisfy. */
    ghost predicate CacheOk(U: Users)
      requires Sound()
      reads `cache
    {
      Justified(K, U, cache) && ConstantsIn(K, cache) && WritesIn(K, cache)
    }

    /** After a change of the user state: what it may have changed is forgotten. */
    method InvalidateFor(i: Item, ghost before: Users)
      requires Sound() && ItemOk(K, i) && Live(K, i)
      requires UserStateOk(K, before) && CacheOk(before) && UserStateOk(K, users) && ChangedAt(K, before, users, i)
      modifies `cache
      ensures Valid() && Grown(cache, old(cache))
    {
      ghost var D := RecInvalidate(i);
      hide Justified, Ranked, ConfigOk, ChoicesLinked, UsersOk, DependentsOk;
      DropKeepsFlags(K, old(cache), cache, D);
      forall z | ItemOk(K, z) ensures SameOwn(before, users, z) || Vis(z) !in cache {
        if z == i { assert ItemOf(Vis(z)) in D; }
      }
      DropKeepsJustified(K, before, users, old(cache), cache, D);
    }

    /** User values have no effect on symbols without a prompt, which are left alone. */
    method InvalidateIfHasPrompt(s: SymId, ghost before: Users)
      requires Sound() && SymOk(K, s)
      requires UserStateOk(K, before) && CacheOk(before) && UserStateOk(K, users) && OnlySym(before, users, s)
      modifies `cache
      ensures Valid() && Grown(cache, old(cache))
    {
      for n := 0 to |K.syms[s].prompts|
        invariant cache == old(cache)
        invariant forall j :: 0 <= j < n ==> K.syms[s].prompts[j].None?
      {
        if K.syms[s].prompts[n].Some? {
          OnlySymIsChange(K, before, users, s);
          InvalidateFor(Sym(s), before);
          return;
        }
      }
      PromptlessKeepsJustified(K, before, users, cache, s);
    }

    /** Symbol.set_value() */
    method SetValue(s: SymId, value: UserVal) returns (ok: bool)
      requires Valid() && SymOk(K, s)
      modifies `cache, `users, `wasSet
      ensures Valid() && users == AfterSet(K, old(users), s, value)
      ensures ok == ValidUserVal(K, s, SymInput(K, s, value))
      ensures wasSet == old(wasSet) + (if ok then MarkedBySet(K, s, value) else {})
      ensures Grown(cache, old(cache))
    {
      var x := SymInput(K, s, value);
      var choice := K.syms[s].choice;
      if choice.None? && s in users.sym && users.sym[s] == x {
        assert UsersOk(K, users);
        wasSet := wasSet + {Sym(s)};
        assert users.sym[s := x] == users.sym;
        return true;
      }
      if !ValidUserVal(K, s, x) {
        return false;
      }
      hide Justified, Ranked, ConfigOk, ChoicesLinked, UserStateOk, DependentsOk, ConstantsIn, WritesIn, ValidUserVal;
      SetChanges(K, users, s, value);
      ghost var before := users;
      users := users.(sym := users.sym[s := x]);
      wasSet := wasSet + {Sym(s)};
      if choice.Some? && x == TriVal(2) {
        users := users.(pick := users.pick[choice.value := s]);
        wasSet := wasSet + {Cho(choice.value)};
        InvalidateFor(Cho(choice.value), before);
      } else {
        InvalidateIfHasPrompt(s, before);
      }
      return true;
    }

    /** Symbol.unset_value() */
    method UnsetValue(s: SymId)
      requires Valid() && SymOk(K, s)
      modifies `cache, `users
      ensures Valid() && users == AfterUnset(old(users), s)
      ensures Grown(cache, old(cache))
    {
      hide Justified, Ranked, ConfigOk, ChoicesLinked, UserStateOk, DependentsOk, ConstantsIn, WritesIn, ValidUserVal;
      UnsetChanges(K, users, s);
      if s in users.sym {
        ghost var before := users;
        users := users.(sym := users.sym - {s});
        InvalidateIfHasPrompt(s, before);
      }
    }

    /** Choice.set_value() */
    method SetMode(c: ChoiceId, value: UserVal) returns (ok: bool)
      requires Valid() && c < |K.choices|
      modifies `cache, `users, `wasSet
      ensures Valid() && users == AfterSetMode(K, old(users), c, value)
      ensures ok == (Normalize(value).TriVal? && ValidMode(K.choices[c].origType, Normalize(value).t))
      ensures wasSet == old(wasSet) + (if ok then {Cho(c)} else {})
      ensures Grown(cache, old(cache))
    {
      var x := Normalize(value);
      if c in users.mode && x == TriVal(users.mode[c]) {
        assert UsersOk(K, users);
        wasSet := wasSet + {Cho(c)};
        assert users.mode[c := x.t] == users.mode;
        return true;
      }
      if !(x.TriVal? && ValidMode(K.choices[c].origType, x.t)) {
        return false;
      }
      hide Justified, Ranked, ConfigOk, ChoicesLinked, UserStateOk, DependentsOk, ConstantsIn, WritesIn, ValidUserVal;
      ModeChanges(K, users, c, value);
      ghost var before := users;
      users := users.(mode := users.mode[c := x.t]);
      wasSet := wasSet + {Cho(c)};
      InvalidateFor(Cho(c), before);
      return true;
    }

    /** Choice.unset_value() */
    method UnsetMode(c: ChoiceId)
      requires Valid() && c < |K.choices|
      modifies `cache, `users
      ensures Valid() && users == AfterUnsetChoice(old(users), c)
      ensures Grown(cache, old(cache))
    {
      hide Justified, Ranked, ConfigOk, ChoicesLinked, UserStateOk, DependentsOk, ConstantsIn, WritesIn, ValidUserVal;
      UnsetModeChanges(K, users, c);
      if c in users.mode || c in users.pick {
        ghost var before := users;
        users := users.(mode := users.mode - {c}, pick := users.pick - {c});
        InvalidateFor(Cho(c), before);
      }
    }

    /** Forgets what was set, before a configuration is replaced. */
    method ClearWasSet()
      requires Valid()
      modifies `wasSet
      ensures Valid() && wasSet == {}
    {
      wasSet := {};
    }

    /** str_value, then _write_to_conf, which is set along with the value; it is initially false. */
    method WriteFlag(s: SymId) returns (r: bool)
      requires Valid() && SymOk(K, s)
      modifies `cache
      ensures Reading() && WriteToConf(K, users, cache, s) == Some(r)
    {
      var val := StrValue(s);
      assert Body(K, users, cache, StrOf(s)).Some?;
      if WriteOf(s) in cache {
        assert Body(K, users, cache, WriteOf(s)) == Some(cache[WriteOf(s)]);
        return cache[WriteOf(s)].flag;
      }
      return false;
    }

    /** Any of the value properties. */
    method Read(k: Key) returns (v: Val)
      requires Valid() && KeyOk(K, k)
      modifies `cache
      ensures Reading() && v == Value(K, rank, users, k)
    {
      match k {
        case Vis(i) => var r := Visibility(i); v := T(r);
        case TriOf(s) => var r := TriValue(s); v := T(r);
        case StrOf(s) => var r := StrValue(s); v := S(r);
        case WriteOf(s) => var r := WriteFlag(s); v := B(r);
        case Sel(c) => var r := SelectionOf(c); v := P(r);
        case Assignable(i) => var r := AssignableValues(i); v := A(r);
      }
      ghost var m := cache;
      if k.WriteOf? {
        AddJustified(K, users, cache, k, v);
        m := cache[k := v];
      }
      JustifiedIsRight(K, rank, users, m, k);
    }
  }
}
