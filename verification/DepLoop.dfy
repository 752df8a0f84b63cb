/**
 * The depth-first search for dependency loops: what a reported loop is, and what
 * follows when no loop is reported.
 */
module DepLoop {
  import opened Wrappers
  import opened Config

  /** `dependents` gives each `_dependents` set in the order in which it is iterated over. */
  datatype Graph = Graph(K: Config, dependents: map<Item, seq<Item>>)

  predicate GraphOk(G: Graph) {
    ConfigOk(G.K) &&
    forall i, k :: i in G.dependents && 0 <= k < |G.dependents[i]| ==> ItemOk(G.K, G.dependents[i][k])
  }

  function After(G: Graph, i: Item): seq<Item> {
    if i in G.dependents then G.dependents[i] else []
  }

  /** A call of _check_dep_loop_sym() or of _check_dep_loop_choice(). */
  datatype Visit = OfSym(s: SymId, ignoreChoice: bool) | OfChoice(c: ChoiceId, skip: Option<SymId>)

  function Visited(w: Visit): Item {
    match w
    case OfSym(s, _) => Sym(s)
    case OfChoice(c, _) => Cho(c)
  }

  predicate VisitOk(G: Graph, w: Visit) { ItemOk(G.K, Visited(w)) }

  predicate VisitsOk(G: Graph, ws: seq<Visit>) { forall k :: 0 <= k < |ws| ==> VisitOk(G, ws[k]) }

  function VisitDependent(i: Item): Visit {
    match i
    case Sym(s) => OfSym(s, false)
    case Cho(c) => OfChoice(c, None)
  }

  function VisitDependents(items: seq<Item>): (ws: seq<Visit>)
    ensures |ws| == |items| && forall k :: 0 <= k < |items| ==> ws[k] == VisitDependent(items[k])
  {
    seq(|items|, k requires 0 <= k < |items| => VisitDependent(items[k]))
  }

  function VisitMembers(syms: seq<SymId>, skip: Option<SymId>): (ws: seq<Visit>)
    ensures forall w :: w in ws <==> w.OfSym? && w.ignoreChoice && w.s in syms && skip != Some(w.s)
  {
    if syms == [] then []
    else (if skip == Some(syms[0]) then [] else [OfSym(syms[0], true)]) + VisitMembers(syms[1..], skip)
  }

  /** The calls that a call makes if it finds its item unvisited. */
  function Calls(G: Graph, w: Visit): (ws: seq<Visit>)
    requires GraphOk(G) && VisitOk(G, w)
    ensures VisitsOk(G, ws)
  {
    match w
    case OfSym(s, ignoreChoice) =>
      assert SymDefOk(G.K, s);
      VisitDependents(After(G, Sym(s))) +
      (if G.K.syms[s].choice.Some? && !ignoreChoice then [OfChoice(G.K.syms[s].choice.value, Some(s))] else [])
    case OfChoice(c, skip) =>
      assert ChoiceDefOk(G.K, c);
      VisitMembers(G.K.choices[c].syms, skip)
  }

  /** None, a part of a loop found on the call stack, or an exception that shows a loop. */
  datatype Outcome = NoLoop | Partial(loop: seq<Item>) | Found(loop: seq<Item>)

  /** The items whose `_visited` is 1, and those for which it is 2, in the order in which it became 2. */
  datatype Marks = Marks(active: set<Item>, done: seq<Item>)

  function Items(K: Config): set<Item> {
    (set s | 0 <= s < |K.syms| :: Sym(s)) + (set c | 0 <= c < |K.choices| :: Cho(c))
  }

  function Unvisited(G: Graph, v: Marks): set<Item> {
    set i | i in Items(G.K) && i !in v.active && i !in v.done
  }

  /** _found_dep_loop() */
  function FoundDepLoop(loop: seq<Item>, cur: Item): Outcome
    requires loop != []
  {
    if cur != loop[0] then Partial(loop + [cur]) else Found(loop)
  }

  function Search(G: Graph, v: Marks, w: Visit): (r: (Marks, Outcome))
    requires GraphOk(G) && VisitOk(G, w)
    ensures Unvisited(G, r.0) <= Unvisited(G, v)
    ensures r.1.NoLoop? ==> r.0.active == v.active
    ensures r.1.Partial? ==> r.1.loop != []
    decreases Unvisited(G, v), 0
  {
    var i := Visited(w);
    if i in v.done then (v, NoLoop)
    else if i in v.active then (v, Partial([i]))
    else
      assert i in Unvisited(G, v);
      var (v', out) := SearchAll(G, v.(active := v.active + {i}), i, Calls(G, w));
      if out.NoLoop? then (Marks(v'.active - {i}, v'.done + [i]), NoLoop) else (v', out)
  }

  /** The calls that the call for item i makes. */
  function SearchAll(G: Graph, v: Marks, i: Item, ws: seq<Visit>): (r: (Marks, Outcome))
    requires GraphOk(G) && VisitsOk(G, ws)
    ensures Unvisited(G, r.0) <= Unvisited(G, v)
    ensures r.1.NoLoop? ==> r.0.active == v.active
    ensures r.1.Partial? ==> r.1.loop != []
    decreases Unvisited(G, v), |ws|
  {
    if ws == [] then (v, NoLoop)
    else
      var (v', out) := Search(G, v, ws[0]);
      if out.Partial? then (v', FoundDepLoop(out.loop, i))
      else if out.Found? then (v', out)
      else SearchAll(G, v', i, ws[1..])
  }

  /** The loop of Kconfig.__init__() over the defined symbols, from the n-th symbol on. */
  function SearchFrom(G: Graph, v: Marks, n: nat): (Marks, Outcome)
    requires GraphOk(G) && n <= |G.K.definedSyms|
    decreases |G.K.definedSyms| - n
  {
    if n == |G.K.definedSyms| then (v, NoLoop)
    else
      var (v', out) := Search(G, v, OfSym(G.K.definedSyms[n], false));
      if out.Found? then (v', out) else SearchFrom(G, v', n + 1)
  }

  function CheckAll(G: Graph): (Marks, Outcome)
    requires GraphOk(G)
  {
    SearchFrom(G, Marks({}, []), 0)
  }

  lemma SearchMarked(G: Graph, v: Marks, w: Visit)
    requires GraphOk(G) && VisitOk(G, w)
    ensures Visited(w) in v.done ==> Search(G, v, w) == (v, NoLoop)
    ensures Visited(w) in v.active && Visited(w) !in v.done ==> Search(G, v, w) == (v, Partial([Visited(w)]))
  {
  }

  lemma SearchUnfolds(G: Graph, v: Marks, w: Visit)
    requires GraphOk(G) && VisitOk(G, w) && Visited(w) !in v.active && Visited(w) !in v.done
    ensures
      var v' := v.(active := v.active + {Visited(w)});
      var all := SearchAll(G, v', Visited(w), Calls(G, w));
      Unvisited(G, v') < Unvisited(G, v) &&
      Search(G, v, w) == if all.1.NoLoop? then (Marks(v.active, all.0.done + [Visited(w)]), NoLoop) else all
  {
    assert Visited(w) in Unvisited(G, v);
    assert v.active + {Visited(w)} - {Visited(w)} == v.active;
  }

  lemma SymCalls(G: Graph, s: SymId, ignoreChoice: bool)
    requires GraphOk(G) && SymOk(G.K, s)
    ensures
      var n := |After(G, Sym(s))|;
      var ws := Calls(G, OfSym(s, ignoreChoice));
      var choice := G.K.syms[s].choice;
      && n <= |ws|
      && (forall k :: 0 <= k < n ==> ItemOk(G.K, After(G, Sym(s))[k]) && ws[k] == VisitDependent(After(G, Sym(s))[k]))
      && ws[n..] == (if choice.Some? && !ignoreChoice then [OfChoice(choice.value, Some(s))] else [])
      && (choice.Some? ==> choice.value < |G.K.choices|)
  {
    assert SymDefOk(G.K, s);
  }

  lemma ChoiceCalls(G: Graph, c: ChoiceId, skip: Option<SymId>)
    requires GraphOk(G) && c < |G.K.choices|
    ensures Calls(G, OfChoice(c, skip)) == VisitMembers(G.K.choices[c].syms, skip)
    ensures forall k :: 0 <= k < |G.K.choices[c].syms| ==> SymOk(G.K, G.K.choices[c].syms[k])
  {
    assert ChoiceDefOk(G.K, c);
  }

  lemma NoMembers(skip: Option<SymId>)
    ensures VisitMembers([], skip) == []
  {
  }

  lemma MembersStep(syms: seq<SymId>, skip: Option<SymId>, n: nat)
    requires n < |syms|
    ensures
      var ws, rest := VisitMembers(syms[n..], skip), VisitMembers(syms[n + 1..], skip);
      if skip == Some(syms[n]) then ws == rest else |ws| > 0 && ws[0] == OfSym(syms[n], true) && ws[1..] == rest
  {
    assert syms[n..][1..] == syms[n + 1..];
  }

  // The search with its `_visited` attributes

  class LoopSearch {
    const G: Graph
    var visited: map<Item, nat>
    ghost var marks: Marks

    ghost predicate Valid()
      reads this
    {
      && GraphOk(G)
      && (forall i :: i in visited ==> visited[i] <= 2)
      && (forall i :: i in marks.active <==> i in visited && visited[i] == 1)
      && (forall i :: i in marks.done <==> i in visited && visited[i] == 2)
    }

    constructor (G: Graph)
      requires GraphOk(G)
      ensures Valid() && this.G == G && marks == Marks({}, [])
    {
      this.G := G;
      visited := map[];
      marks := Marks({}, []);
    }

    method Begin(i: Item)
      requires Valid() && i !in marks.active && i !in marks.done
      modifies this
      ensures Valid() && marks == old(marks).(active := old(marks).active + {i})
    {
      visited := visited[i := 1];
      marks := marks.(active := marks.active + {i});
    }

    method Finish(i: Item)
      requires Valid() && i in marks.active
      modifies this
      ensures Valid() && marks == Marks(old(marks).active - {i}, old(marks).done + [i])
    {
      visited := visited[i := 2];
      marks := Marks(marks.active - {i}, marks.done + [i]);
    }

    method CheckDepLoopSym(s: SymId, ignoreChoice: bool) returns (r: Outcome)
      requires Valid() && SymOk(G.K, s)
      modifies this
      ensures Valid() && (marks, r) == Search(G, old(marks), OfSym(s, ignoreChoice))
      decreases Unvisited(G, marks), 1
    {
      hide ConfigOk, SymDefOk, Unvisited, Search, After, Calls;
      if Sym(s) in visited && visited[Sym(s)] == 1 {
        // Return the symbol as the first element of the loop
        SearchMarked(G, marks, OfSym(s, ignoreChoice));
        return Partial([Sym(s)]);
      } else if Sym(s) in visited && visited[Sym(s)] == 2 {
        SearchMarked(G, marks, OfSym(s, ignoreChoice));
        return NoLoop;
      }
      SearchUnfolds(G, marks, OfSym(s, ignoreChoice));
      SymCalls(G, s, ignoreChoice);
      var dependents := After(G, Sym(s));
      var choice := G.K.syms[s].choice;
      ghost var ws := Calls(G, OfSym(s, ignoreChoice));
      Begin(Sym(s));
      ghost var all := SearchAll(G, marks, Sym(s), ws);
      assert ws[0..] == ws;
      for n := 0 to |dependents|
        invariant Valid() && Unvisited(G, marks) < old(Unvisited(G, marks))
        invariant marks.active == old(marks.active) + {Sym(s)}
        invariant SearchAll(G, marks, Sym(s), ws[n..]) == all
      {
        assert ws[n..][0] == VisitDependent(dependents[n]) && ws[n..][1..] == ws[n + 1..];
        match dependents[n] {
          case Cho(c) => r := CheckDepLoopChoice(c, None);
          case Sym(d) => r := CheckDepLoopSym(d, false);
        }
        if r.Partial? {
          return FoundDepLoop(r.loop, Sym(s));
        } else if r.Found? {
          return;
        }
      }
      if choice.Some? && !ignoreChoice {
        r := CheckDepLoopChoice(choice.value, Some(s));
        if r.Partial? {
          return FoundDepLoop(r.loop, Sym(s));
        } else if r.Found? {
          return;
        }
      }
      Finish(Sym(s));
      return NoLoop;
    }

    method CheckDepLoopChoice(c: ChoiceId, skip: Option<SymId>) returns (r: Outcome)
      requires Valid() && c < |G.K.choices|
      modifies this
      ensures Valid() && (marks, r) == Search(G, old(marks), OfChoice(c, skip))
      decreases Unvisited(G, marks), 1
    {
      hide ConfigOk, ChoiceDefOk, Unvisited, Search, After, Calls, VisitMembers;
      assert VisitMembers([], skip) == [] by { NoMembers(skip); }
      if Cho(c) in visited && visited[Cho(c)] == 1 {
        SearchMarked(G, marks, OfChoice(c, skip));
        return Partial([Cho(c)]);
      } else if Cho(c) in visited && visited[Cho(c)] == 2 {
        SearchMarked(G, marks, OfChoice(c, skip));
        return NoLoop;
      }
      SearchUnfolds(G, marks, OfChoice(c, skip));
      ChoiceCalls(G, c, skip);
      var syms := G.K.choices[c].syms;
      Begin(Cho(c));
      ghost var all := SearchAll(G, marks, Cho(c), VisitMembers(syms, skip));
      assert syms[0..] == syms;
      for n := 0 to |syms|
        invariant Valid() && Unvisited(G, marks) < old(Unvisited(G, marks))
        invariant marks.active == old(marks.active) + {Cho(c)}
        invariant SearchAll(G, marks, Cho(c), VisitMembers(syms[n..], skip)) == all
      {
        MembersStep(syms, skip, n);
        if skip != Some(syms[n]) {
          r := CheckDepLoopSym(syms[n], true);
          if r.Partial? {
            return FoundDepLoop(r.loop, Cho(c));
          } else if r.Found? {
            return;
          }
        }
      }
      assert syms[|syms|..] == [];
      Finish(Cho(c));
      return NoLoop;
    }

    method CheckDepLoops() returns (r: Outcome)
      requires Valid() && marks == Marks({}, [])
      modifies this
      ensures Valid() && (marks, r) == CheckAll(G)
    {
      var syms := G.K.definedSyms;
      for n := 0 to |syms|
        invariant Valid() && SearchFrom(G, marks, n) == CheckAll(G)
      {
        r := CheckDepLoopSym(syms[n], false);
        if r.Found? {
          return;
        }
      }
      return NoLoop;
    }
  }
}
