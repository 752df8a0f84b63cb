/** What depends on what: an item depends on the items that occur in its properties. */
module DepMeaning {
  import opened Wrappers
  import opened Config
  import opened Deps

  predicate Occurs(e: Expr, i: Item) {
    match e
    case Leaf(j) => j == i
    case And(l, r) => Occurs(l, i) || Occurs(r, i)
    case Or(l, r) => Occurs(l, i) || Occurs(r, i)
    case Not(a) => Occurs(a, i)
    case Compare(_, a, b) => i == Sym(a) || i == Sym(b)
  }

  lemma {:induction false} ItemsOccur(K: Config, e: Expr, i: Item)
    requires ExprOk(K, e)
    ensures i in ExprItems(K, e) <==> ItemOk(K, i) && Occurs(e, i) && !IsConstItem(K, i)
  {
    match e
    case Leaf(_) =>
    case And(l, r) => ItemsOccur(K, l, i); ItemsOccur(K, r, i);
    case Or(l, r) => ItemsOccur(K, l, i); ItemsOccur(K, r, i);
    case Not(a) => ItemsOccur(K, a, i);
    case Compare(_, _, _) =>
  }

  ghost predicate InPrompt(ps: seq<Option<Expr>>, i: Item) {
    exists j :: 0 <= j < |ps| && ps[j].Some? && Occurs(ps[j].value, i)
  }

  /** i occurs in a prompt, default, range, or dependency of the symbol. */
  ghost predicate SymMentions(d: SymDef, i: Item) {
    || InPrompt(d.prompts, i) || Occurs(d.revDep, i) || Occurs(d.weakRevDep, i) || Occurs(d.directDep, i)
    || InDefaults(d.defaults, i) || InRanges(d.ranges, i)
  }

  ghost predicate ChoiceMentions(d: ChoiceDef, i: Item) {
    InPrompt(d.prompts, i) || exists j :: 0 <= j < |d.defaults| && Occurs(d.defaults[j].cond, i)
  }

  lemma AllItemsOccur(K: Config)
    ensures forall e, i :: ExprOk(K, e) ==> (i in ExprItems(K, e) <==> ItemOk(K, i) && Occurs(e, i) && !IsConstItem(K, i))
  {
    forall e, i | ExprOk(K, e)
      ensures i in ExprItems(K, e) <==> ItemOk(K, i) && Occurs(e, i) && !IsConstItem(K, i)
    {
      ItemsOccur(K, e, i);
    }
  }

  lemma PromptsOccur(K: Config, ps: seq<Option<Expr>>, i: Item)
    requires PromptsOk(K, ps)
    ensures i in PromptItems(K, ps, |ps|) <==> InPrompt(ps, i) && ItemOk(K, i) && !IsConstItem(K, i)
  {
    AllItemsOccur(K);
  }

  ghost predicate InDefaults(ds: seq<Default>, i: Item) {
    exists j :: 0 <= j < |ds| && (Occurs(ds[j].value, i) || Occurs(ds[j].cond, i))
  }

  lemma DefaultsOccur(K: Config, t: Type, ds: seq<Default>, i: Item)
    requires DefaultsOk(K, t, ds)
    ensures i in DefaultItems(K, t, ds, |ds|) <==> InDefaults(ds, i) && ItemOk(K, i) && !IsConstItem(K, i)
  {
    forall j | 0 <= j < |ds|
      ensures i in ExprItems(K, ds[j].value) + ExprItems(K, ds[j].cond) <==>
        ItemOk(K, i) && !IsConstItem(K, i) && (Occurs(ds[j].value, i) || Occurs(ds[j].cond, i))
    {
      ItemsOccur(K, ds[j].value, i);
      ItemsOccur(K, ds[j].cond, i);
    }
  }

  ghost predicate InRanges(rs: seq<Range>, i: Item) {
    exists j :: 0 <= j < |rs| && (i == Sym(rs[j].low) || i == Sym(rs[j].high) || Occurs(rs[j].cond, i))
  }

  lemma RangesOccur(K: Config, rs: seq<Range>, i: Item)
    requires RangesOk(K, rs)
    ensures i in RangeItems(K, rs, |rs|) <==> InRanges(rs, i) && ItemOk(K, i) && !IsConstItem(K, i)
  {
    AllItemsOccur(K);
    if i in RangeItems(K, rs, |rs|) {
      var j :| 0 <= j < |rs| &&
        i in Changeable(K, Sym(rs[j].low)) + Changeable(K, Sym(rs[j].high)) + ExprItems(K, rs[j].cond);
      assert ExprOk(K, rs[j].cond);
    }
    if InRanges(rs, i) && ItemOk(K, i) && !IsConstItem(K, i) {
      var j :| 0 <= j < |rs| && (i == Sym(rs[j].low) || i == Sym(rs[j].high) || Occurs(rs[j].cond, i));
      assert ExprOk(K, rs[j].cond);
      assert i in Changeable(K, Sym(rs[j].low)) + Changeable(K, Sym(rs[j].high)) + ExprItems(K, rs[j].cond);
    }
  }

  /** A defined symbol depends on exactly the items other than constants that occur in its properties. */
  lemma SymDependsOn(K: Config, s: SymId, i: Item)
    requires ConfigOk(K) && SymOk(K, s)
    ensures i in DependsOn(K, Sym(s)) <==>
      Defined(K.syms[s]) && SymMentions(K.syms[s], i) && ItemOk(K, i) && !IsConstItem(K, i)
  {
    assert SymDefOk(K, s);
    var d := K.syms[s];
    PromptsOccur(K, d.prompts, i);
    DefaultsOccur(K, d.origType, d.defaults, i);
    RangesOccur(K, d.ranges, i);
    ItemsOccur(K, d.revDep, i);
    ItemsOccur(K, d.weakRevDep, i);
    ItemsOccur(K, d.directDep, i);
    hide ConfigOk, SymDefOk, InPrompt, InDefaults, InRanges, PromptItems, DefaultItems, RangeItems, ExprItems, Occurs;
  }

  /** And so does a choice, and on its symbols. */
  lemma ChoiceDependsOn(K: Config, c: ChoiceId, i: Item)
    requires ConfigOk(K) && c < |K.choices|
    ensures i in AllDependsOn(K, Cho(c)) <==>
      || (ChoiceMentions(K.choices[c], i) && ItemOk(K, i) && !IsConstItem(K, i))
      || (i.Sym? && i.s in K.choices[c].syms)
  {
    assert ChoiceDefOk(K, c);
    AllItemsOccur(K);
  }
}
