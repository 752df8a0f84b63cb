/** The methods that write configuration files from the engine. */
module Writers {
  import opened Wrappers
  import opened Config
  import opened Values
  import opened Reads
  import opened Meaning
  import opened Caches
  import opened Engine
  import opened ConfigFile

  /** What is cached is part of all values. */
  lemma CacheIsPart(K: Config, rank: Key -> nat, U: Users, cache: Cache, m: Cache)
    requires ConfigOk(K) && Ranked(K, rank) && PicksOk(K, U) && Justified(K, U, cache) && Solves(K, U, m)
    ensures Grown(cache, m)
  {
    forall k | k in cache ensures k in m && m[k] == cache[k] {
      JustifiedIsRight(K, rank, U, cache, k);
      JustifiedIsRight(K, rank, U, m, k);
    }
  }

  lemma {:induction false} BoundExists(rank: Key -> nat, R: set<Key>)
    ensures exists b: nat :: Below(rank, R, b)
  {
    if R == {} {
      assert Below(rank, R, 0);
    } else {
      var k :| k in R;
      BoundExists(rank, R - {k});
      var b: nat :| Below(rank, R - {k}, b);
      assert Below(rank, R, b + rank(k) + 1);
    }
  }

  method EvalNow(k: Kconfig, e: Expr, ghost m: Cache) returns (v: Tri)
    requires k.Valid() && ExprOk(k.K, e) && Solves(k.K, k.users, m)
    modifies k`cache
    ensures k.Valid() && Eval(k.K, k.users, m, e) == Some(v)
  {
    BoundExists(k.rank, ExprReads(k.K, e));
    ghost var b: nat :| Below(k.rank, ExprReads(k.K, e), b);
    v := k.ExprValue(e, b);
    CacheIsPart(k.K, k.rank, k.users, k.cache, m);
    EvalGrown(k.K, k.users, k.cache, m, e);
  }

  /** config_string */
  method ConfigString(k: Kconfig, prefix: string, s: SymId, ghost m: Cache) returns (line: Option<string>)
    requires k.Valid() && SymOk(k.K, s) && Solves(k.K, k.users, m)
    modifies k`cache
    ensures k.Valid() && line == SymLine(k.K, prefix, k.users, m, s)
  {
    var val := k.StrValue(s);
    CacheIsPart(k.K, k.rank, k.users, k.cache, m);
    var write := k.WriteFlag(s);
    CacheIsPart(k.K, k.rank, k.users, k.cache, m);
    WriteTransfer(k.K, k.users, k.users, k.cache, m, s);
    line := ConfLine(k.K, prefix, s, val, write);
  }

  method NonNNow(k: Kconfig, dep: Expr, ghost m: Cache) returns (r: bool)
    requires k.Valid() && ExprOk(k.K, dep) && Solves(k.K, k.users, m)
    modifies k`cache
    ensures k.Valid() && r == NonN(k.K, k.users, m, dep)
  {
    var v := EvalNow(k, dep, m);
    r := v != 0;
  }

  /** What _config_contents() does at one point of its walk. */
  method WriteNode(
    k: Kconfig, prefix: string, e: Entry, lines: seq<string>, visited: set<SymId>, afterEnd: bool, ghost m: Cache)
    returns (lines': seq<string>, visited': set<SymId>, afterEnd': bool)
    requires k.Valid() && EntryOk(k.K, e) && Solves(k.K, k.users, m)
    modifies k`cache
    ensures k.Valid()
    ensures Writer(lines', visited', afterEnd') ==
      WriteEntry(k.K, prefix, k.users, m, Writer(lines, visited, afterEnd), e)
  {
    lines', visited', afterEnd' := lines, visited, afterEnd;
    match e {
      case SymNode(s) =>
        if s in visited {
          return;
        }
        visited' := visited + {s};
        var line := ConfigString(k, prefix, s, m);
        if line.Some? {
          if afterEnd {
            afterEnd' := false;
            lines' := lines' + [""];
          }
          lines' := lines' + [line.value];
        }
      case HeadNode(isMenu, title, dep, visible) =>
        var shown := NonNNow(k, dep, m);
        if shown && isMenu {
          shown := NonNNow(k, visible, m);
        }
        if shown {
          lines' := lines' + ["", "#", "# " + title, "#"];
          afterEnd' := false;
        }
      case MenuEnd(title, dep, visible) =>
        var shown := NonNNow(k, dep, m);
        if shown {
          shown := NonNNow(k, visible, m);
        }
        if shown {
          lines' := lines' + ["# end of " + title];
          afterEnd' := true;
        }
    }
  }

  // Minimal configurations

  /** _str_default() for bool and tristate symbols outside choices. */
  method DefaultTriText(k: Kconfig, s: SymId, ghost m: Cache) returns (r: string)
    requires k.Valid() && SymOk(k.K, s) && Boolish(k.K.syms[s].origType) && k.K.syms[s].choice.None?
    requires Solves(k.K, k.users, m)
    modifies k`cache
    ensures k.Valid() && StrDefault(k.K, k.users, m, s) == Some(r)
  {
    var K := k.K;
    assert SymDefOk(K, s);
    var d := K.syms[s];
    ghost var R := DefaultReads(K, d.origType, d.defaults) + TypeReads(K, s);
    BoundExists(k.rank, R);
    ghost var b: nat :| Below(k.rank, R, b);
    hide ConfigOk, Ranked, Justified;
    var def := k.DefaultTriValue(d.origType, d.defaults, b);
    CacheIsPart(K, k.rank, k.users, k.cache, m);
    DefaultTriTransfer(K, k.users, k.users, k.cache, m, d.origType, d.defaults);
    var rev := EvalNow(k, d.revDep, m);
    var weak := EvalNow(k, d.weakRevDep, m);
    var val := Max(Max(rev, weak), def);
    if val == 1 {
      var ty := k.SymTypeOf(s, b);
      CacheIsPart(K, k.rank, k.users, k.cache, m);
      TypeTransfer(K, k.users, k.users, k.cache, m, s);
      if ty == Bool {
        val := 2;
      }
    }
    r := TriToStr(val);
  }

  /** _str_default() */
  method StrDefaultNow(k: Kconfig, s: SymId, ghost m: Cache) returns (r: string)
    requires k.Valid() && SymOk(k.K, s) && Solves(k.K, k.users, m)
    modifies k`cache
    ensures k.Valid() && StrDefault(k.K, k.users, m, s) == Some(r)
  {
    var K := k.K;
    assert SymDefOk(K, s);
    var d := K.syms[s];
    if Boolish(d.origType) {
      if d.choice.Some? {
        return "n";
      }
      r := DefaultTriText(k, s, m);
    } else if d.origType == Unknown {
      r := "";
    } else {
      ghost var R := DefaultReads(K, d.origType, d.defaults);
      BoundExists(k.rank, R);
      ghost var b: nat :| Below(k.rank, R, b);
      var def := k.DefaultStrValue(d.origType, d.defaults, b);
      CacheIsPart(K, k.rank, k.users, k.cache, m);
      DefaultStrTransfer(K, k.users, k.users, k.cache, m, d.origType, d.defaults);
      r := if def.Some? then def.value else "";
    }
  }

  method DefaultSelectionNow(k: Kconfig, c: ChoiceId, ghost m: Cache) returns (r: Option<SymId>)
    requires k.Valid() && c < |k.K.choices| && Solves(k.K, k.users, m)
    modifies k`cache
    ensures k.Valid() && SelectionFromDefaults(k.K, k.users, m, c) == Some(r)
  {
    BoundExists(k.rank, SelReads(k.K, c));
    ghost var b: nat :| Below(k.rank, SelReads(k.K, c), b);
    r := k.DefaultSelection(c, b);
    CacheIsPart(k.K, k.rank, k.users, k.cache, m);
    FromDefaultsTransfer(k.K, k.users, k.users, k.cache, m, c);
  }

  /** Whether a symbol of a choice is kept, once its value is not the default. */
  method IsKeptInChoice(k: Kconfig, s: SymId, ghost m: Cache) returns (r: bool)
    requires k.Valid() && SymOk(k.K, s) && Solves(k.K, k.users, m) && SymDefOk(k.K, s) && k.K.syms[s].choice.Some?
    modifies k`cache
    ensures k.Valid() && GetT(m, TriOf(s)).Some?
    ensures
      var sel := SelectionFromDefaults(k.K, k.users, m, k.K.syms[s].choice.value);
      sel.Some? && r == !(sel.value == Some(s) && GetT(m, TriOf(s)) == Some(2))
  {
    var K := k.K;
    hide ConfigOk, Ranked, Justified;
    var sel := DefaultSelectionNow(k, K.syms[s].choice.value, m);
    var tri := k.TriValue(s);
    CacheIsPart(K, k.rank, k.users, k.cache, m);
    r := !(sel == Some(s) && tri == 2);
  }

  /** The tests of _min_config_contents() for one symbol. */
  method IsKept(k: Kconfig, s: SymId, ghost m: Cache) returns (r: bool)
    requires k.Valid() && SymOk(k.K, s) && Solves(k.K, k.users, m)
    modifies k`cache
    ensures k.Valid() && KeptInMinimal(k.K, k.users, m, s) == Some(r)
  {
    var K := k.K;
    assert SymDefOk(K, s);
    hide ConfigOk, Ranked, Justified;
    var d := K.syms[s];
    if d.choice.None? {
      var vis := k.Visibility(Sym(s));
      CacheIsPart(K, k.rank, k.users, k.cache, m);
      var rev := EvalNow(k, d.revDep, m);
      if vis <= rev {
        return false;
      }
    }
    var str := k.StrValue(s);
    CacheIsPart(K, k.rank, k.users, k.cache, m);
    var def := StrDefaultNow(k, s, m);
    if str == def {
      return false;
    }
    if d.choice.Some? && !K.choices[d.choice.value].isOptional && d.origType == Bool {
      r := IsKeptInChoice(k, s, m);
      return r;
    }
    return true;
  }

  method MinimalLine(k: Kconfig, prefix: string, s: SymId, lines: seq<string>, ghost m: Cache)
    returns (lines': seq<string>)
    requires k.Valid() && SymOk(k.K, s) && Solves(k.K, k.users, m)
    modifies k`cache
    ensures k.Valid() && lines' == AddMinimal(k.K, prefix, k.users, m, lines, s)
  {
    lines' := lines;
    var kept := IsKept(k, s, m);
    if kept {
      var line := ConfigString(k, prefix, s, m);
      if line.Some? {
        lines' := lines' + [line.value];
      }
    }
  }

  /** One step of _min_config_contents(). */
  method MinimalNext(k: Kconfig, prefix: string, ghost header: seq<string>, n: nat, lines: seq<string>, ghost m: Cache)
    returns (lines': seq<string>)
    requires k.Valid() && Solves(k.K, k.users, m) && n < |k.K.definedSyms|
    requires lines == Minimal(k.K, prefix, header, k.users, m, n)
    modifies k`cache
    ensures k.Valid() && lines' == Minimal(k.K, prefix, header, k.users, m, n + 1)
  {
    var s := k.K.definedSyms[n];
    assert SymOk(k.K, s);
    hide ConfigOk, Solves, Ranked, Justified, AddMinimal;
    lines' := MinimalLine(k, prefix, s, lines, m);
  }

  lemma MinimalHeader(K: Config, prefix: string, header: seq<string>, U: Users, m: Cache)
    requires ConfigOk(K)
    ensures Minimal(K, prefix, header, U, m, 0) == header
  {
  }

  /** _min_config_contents() */
  method MinConfigContents(k: Kconfig, prefix: string, header: seq<string>, ghost m: Cache) returns (lines: seq<string>)
    requires k.Valid() && Solves(k.K, k.users, m)
    modifies k`cache
    ensures k.Valid() && lines == Minimal(k.K, prefix, header, k.users, m, |k.K.definedSyms|)
  {
    hide ConfigOk, Solves, Justified, Ranked, SymDefOk, ConstantsIn, WritesIn, PicksOk, UsersOk, DefinedSymsOk, Minimal;
    MinimalHeader(k.K, prefix, header, k.users, m);
    lines := header;
    var count := |k.K.definedSyms|;
    for n := 0 to count
      invariant k.Valid() && lines == Minimal(k.K, prefix, header, k.users, m, n)
    {
      lines := MinimalNext(k, prefix, header, n, lines, m);
    }
  }
}
