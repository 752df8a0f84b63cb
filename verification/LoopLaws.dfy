/** What a reported dependency loop is, and what the search guarantees when it reports none. */
module LoopLaws {
  import opened Wrappers
  import opened Config
  import opened Deps
  import opened DepLoop

  /** x depends on i, or one of them is a choice and the other a symbol of it. */
  ghost predicate Linked(G: Graph, i: Item, x: Item)
    requires GraphOk(G) && ItemOk(G.K, i) && ItemOk(G.K, x)
  {
    || x in After(G, i)
    || (i.Sym? && x.Cho? && G.K.syms[i.s].choice == Some(x.c))
    || (i.Cho? && x.Sym? && x.s in G.K.choices[i.c].syms)
  }

  ghost predicate ItemsOk(G: Graph, loop: seq<Item>) { forall k :: 0 <= k < |loop| ==> ItemOk(G.K, loop[k]) }

  /** Each item but the first leads to the one before it. */
  ghost predicate Chain(G: Graph, loop: seq<Item>)
    requires GraphOk(G)
  {
    ItemsOk(G, loop) && forall k :: 0 < k < |loop| ==> Linked(G, loop[k], loop[k - 1])
  }

  /**
   * A loop: its items are different, each leads to the one before it, and the first to the
   * last. Going from a symbol to its choice and straight back does not make a loop.
   */
  ghost predicate RealLoop(G: Graph, loop: seq<Item>)
    requires GraphOk(G)
  {
    && loop != [] && Distinct(loop) && Chain(G, loop)
    && Linked(G, loop[0], loop[|loop| - 1])
    && (|loop| == 2 ==> !Bounce(G, loop[0], loop[1]) && !Bounce(G, loop[1], loop[0]))
  }

  ghost predicate Bounce(G: Graph, i: Item, x: Item) {
    i.Sym? && x.Cho? && x !in After(G, i)
  }

  lemma CallsAreLinked(G: Graph, w: Visit, w': Visit)
    requires GraphOk(G) && VisitOk(G, w) && w' in Calls(G, w)
    ensures VisitOk(G, w') && Linked(G, Visited(w), Visited(w'))
  {
  }

  lemma CallsDoNotBounce(G: Graph, w: Visit, w': Visit, w'': Visit)
    requires GraphOk(G) && VisitOk(G, w) && w' in Calls(G, w) && VisitOk(G, w')
    requires w'' in Calls(G, w') && Visited(w'') == Visited(w)
    ensures !Bounce(G, Visited(w), Visited(w')) && !Bounce(G, Visited(w'), Visited(w))
  {
  }

  /** The part of a loop that the call for w hands to its caller. */
  ghost predicate PartOk(G: Graph, v: Marks, w: Visit, loop: seq<Item>)
    requires GraphOk(G) && VisitOk(G, w)
  {
    && loop != [] && Distinct(loop) && Chain(G, loop)
    && loop[|loop| - 1] == Visited(w) && loop[0] in v.active
    && (forall k :: 0 < k < |loop| ==> loop[k] !in v.active)
    && (|loop| > 1 ==> exists w' :: w' in Calls(G, w) && Visited(w') == loop[|loop| - 2])
  }

  ghost predicate OutcomeOk(G: Graph, v: Marks, w: Visit, out: Outcome)
    requires GraphOk(G) && VisitOk(G, w)
  {
    match out
    case NoLoop => true
    case Partial(loop) => PartOk(G, v, w, loop)
    case Found(loop) => RealLoop(G, loop)
  }

  /** The call for w, with item i now active, has found a loop in its call for w'. */
  lemma LoopGrows(G: Graph, v: Marks, w: Visit, w': Visit, loop: seq<Item>)
    requires GraphOk(G) && VisitOk(G, w) && w' in Calls(G, w) && VisitOk(G, w') && Visited(w) !in v.active
    requires PartOk(G, v.(active := v.active + {Visited(w)}), w', loop)
    ensures OutcomeOk(G, v, w, FoundDepLoop(loop, Visited(w)))
  {
    CallsAreLinked(G, w, w');
    hide ConfigOk, Calls, Linked, Bounce;
    if Visited(w) == loop[0] {
      if |loop| == 2 {
        var w'' :| w'' in Calls(G, w') && Visited(w'') == loop[0];
        CallsDoNotBounce(G, w, w', w'');
      }
    } else {
      ChainGrows(G, loop, Visited(w));
    }
  }

  lemma ChainGrows(G: Graph, loop: seq<Item>, i: Item)
    requires GraphOk(G) && loop != [] && Chain(G, loop) && ItemOk(G.K, i) && Linked(G, i, loop[|loop| - 1])
    ensures Chain(G, loop + [i])
  {
    hide ConfigOk, Linked;
  }

  lemma {:induction false} SearchOutcome(G: Graph, v: Marks, w: Visit)
    requires GraphOk(G) && VisitOk(G, w)
    ensures var (v', out) := Search(G, v, w);
      v.done <= v'.done && (out.NoLoop? ==> Visited(w) in v'.done) && OutcomeOk(G, v, w, out)
    decreases Unvisited(G, v), 0
  {
    SearchMarked(G, v, w);
    if Visited(w) !in v.done && Visited(w) !in v.active {
      SearchUnfolds(G, v, w);
      SearchAllOutcome(G, v, w, v.(active := v.active + {Visited(w)}), Calls(G, w));
    }
  }

  lemma {:induction false} SearchAllOutcome(G: Graph, v0: Marks, w: Visit, v: Marks, ws: seq<Visit>)
    requires GraphOk(G) && VisitOk(G, w) && VisitsOk(G, ws) && forall w' :: w' in ws ==> w' in Calls(G, w)
    requires Visited(w) !in v0.active && v.active == v0.active + {Visited(w)}
    ensures var (v', out) := SearchAll(G, v, Visited(w), ws);
      && v.done <= v'.done && OutcomeOk(G, v0, w, out)
      && (out.NoLoop? ==> forall w' :: w' in ws ==> Visited(w') in v'.done)
    decreases Unvisited(G, v), |ws|
  {
    if ws == [] {
    } else {
      SearchOutcome(G, v, ws[0]);
      var (v', out) := Search(G, v, ws[0]);
      hide ConfigOk, Calls, PartOk, RealLoop, Unvisited;
      if out.Partial? {
        PartOfActive(G, v, v0.(active := v0.active + {Visited(w)}), ws[0], out.loop);
        LoopGrows(G, v0, w, ws[0], out.loop);
      } else if out.NoLoop? {
        SearchAllOutcome(G, v0, w, v', ws[1..]);
      }
    }
  }

  lemma PartOfActive(G: Graph, v: Marks, v': Marks, w: Visit, loop: seq<Item>)
    requires GraphOk(G) && VisitOk(G, w) && v.active == v'.active && PartOk(G, v, w, loop)
    ensures PartOk(G, v', w, loop)
  {
  }

  /** Whatever the search reports is a loop, and it never ends inside of one. */
  lemma {:induction false} SearchFromOutcome(G: Graph, v: Marks, n: nat)
    requires GraphOk(G) && n <= |G.K.definedSyms| && v.active == {}
    ensures var (v', out) := SearchFrom(G, v, n);
      && (out.Found? ==> RealLoop(G, out.loop))
      && !out.Partial? && v.done <= v'.done
      && (out.NoLoop? ==> v'.active == {} && forall k :: n <= k < |G.K.definedSyms| ==> Sym(G.K.definedSyms[k]) in v'.done)
    decreases |G.K.definedSyms| - n
  {
    if n < |G.K.definedSyms| {
      var w := OfSym(G.K.definedSyms[n], false);
      SearchOutcome(G, v, w);
      var (v', out) := Search(G, v, w);
      if out.NoLoop? {
        SearchFromOutcome(G, v', n + 1);
      }
    }
  }

  // The order in which items are finished

  /** Whatever depends on a finished symbol was finished before it. */
  ghost predicate Ordered(G: Graph, done: seq<Item>) {
    forall k, x :: 0 <= k < |done| && done[k].Sym? && x in After(G, done[k]) ==> x in done[..k]
  }

  lemma {:induction false} SearchKeepsOrder(G: Graph, v: Marks, w: Visit)
    requires GraphOk(G) && VisitOk(G, w) && Ordered(G, v.done)
    ensures Ordered(G, Search(G, v, w).0.done)
    decreases Unvisited(G, v), 0
  {
    SearchMarked(G, v, w);
    if Visited(w) !in v.done && Visited(w) !in v.active {
      SearchUnfolds(G, v, w);
      var v1 := v.(active := v.active + {Visited(w)});
      SearchAllOutcome(G, v, w, v1, Calls(G, w));
      SearchAllKeepsOrder(G, v1, Visited(w), Calls(G, w));
      var (v', out) := SearchAll(G, v1, Visited(w), Calls(G, w));
      if out.NoLoop? {
        FinishKeepsOrder(G, v'.done, w);
      }
    }
  }

  lemma {:induction false} SearchAllKeepsOrder(G: Graph, v: Marks, i: Item, ws: seq<Visit>)
    requires GraphOk(G) && VisitsOk(G, ws) && Ordered(G, v.done)
    ensures Ordered(G, SearchAll(G, v, i, ws).0.done)
    decreases Unvisited(G, v), |ws|
  {
    if ws == [] {
    } else {
      SearchKeepsOrder(G, v, ws[0]);
      var (v', out) := Search(G, v, ws[0]);
      if out.NoLoop? {
        SearchAllKeepsOrder(G, v', i, ws[1..]);
      }
    }
  }

  lemma FinishKeepsOrder(G: Graph, done: seq<Item>, w: Visit)
    requires GraphOk(G) && VisitOk(G, w) && Ordered(G, done)
    requires forall w' :: w' in Calls(G, w) ==> Visited(w') in done
    ensures Ordered(G, done + [Visited(w)])
  {
    var all := done + [Visited(w)];
    forall k, x | 0 <= k < |all| && all[k].Sym? && x in After(G, all[k]) ensures x in all[..k] {
      if k < |done| {
        assert all[..k] == done[..k];
      } else {
        assert all[..k] == done;
        var n :| 0 <= n < |After(G, all[k])| && After(G, all[k])[n] == x;
        assert Calls(G, w)[n] == VisitDependent(x);
      }
    }
  }

  lemma {:induction false} SearchFromKeepsOrder(G: Graph, v: Marks, n: nat)
    requires GraphOk(G) && n <= |G.K.definedSyms| && Ordered(G, v.done)
    ensures Ordered(G, SearchFrom(G, v, n).0.done)
    decreases |G.K.definedSyms| - n
  {
    if n < |G.K.definedSyms| {
      SearchKeepsOrder(G, v, OfSym(G.K.definedSyms[n], false));
      var (v', out) := Search(G, v, OfSym(G.K.definedSyms[n], false));
      if !out.Found? {
        SearchFromKeepsOrder(G, v', n + 1);
      }
    }
  }

  // Main results

  /** The graph that _build_dep() leaves. */
  ghost predicate GraphFor(G: Graph) {
    GraphOk(G) && forall i, x :: x in After(G, i) <==> ItemOk(G.K, x) && i in DependsOn(G.K, x)
  }

  /** Symbols each of which depends on the next one, and the last one on the first. */
  ghost predicate SymLoop(G: Graph, loop: seq<Item>) {
    && loop != []
    && (forall k :: 0 <= k < |loop| ==> loop[k].Sym?)
    && (forall k :: 0 < k < |loop| ==> loop[k - 1] in After(G, loop[k]))
    && loop[|loop| - 1] in After(G, loop[0])
  }

  /** A reported dependency loop is a loop. */
  lemma ReportedLoopIsReal(G: Graph)
    requires GraphOk(G)
    ensures var out := CheckAll(G).1; !out.Partial? && (out.Found? ==> RealLoop(G, out.loop))
  {
    SearchFromOutcome(G, Marks({}, []), 0);
  }

  /** If no loop is reported, all defined symbols are finished, in an order of their dependencies. */
  lemma QuietSearchOrders(G: Graph)
    requires GraphOk(G) && CheckAll(G).1.NoLoop?
    ensures var v := CheckAll(G).0;
      && v.active == {} && Ordered(G, v.done)
      && forall s :: 0 <= s < |G.K.syms| && Defined(G.K.syms[s]) ==> Sym(s) in v.done
  {
    SearchFromOutcome(G, Marks({}, []), 0);
    SearchFromKeepsOrder(G, Marks({}, []), 0);
  }

  /** The items of a loop cannot all be finished before one another. */
  lemma {:induction false} NoLoopInOrder(G: Graph, done: seq<Item>, loop: seq<Item>, k: nat, p: nat)
    requires Ordered(G, done) && SymLoop(G, loop) && k < |loop| && p < |done| && done[p] == loop[k]
    ensures false
    decreases p
  {
    var k' := if k == 0 then |loop| - 1 else k - 1;
    assert loop[k'] in After(G, done[p]);
    assert loop[k'] in done[..p];
    var p' :| 0 <= p' < p && done[p'] == loop[k'];
    NoLoopInOrder(G, done, loop, k', p');
  }

  /** With or without choices: if no loop is reported, no symbols depend on each other in a loop. */
  lemma NoSymLoopIsMissed(G: Graph, loop: seq<Item>)
    requires GraphFor(G) && CheckAll(G).1.NoLoop?
    ensures !SymLoop(G, loop)
  {
    if SymLoop(G, loop) {
      QuietSearchOrders(G);
      var done := CheckAll(G).0.done;
      assert loop[|loop| - 1] in After(G, loop[0]);
      var s := loop[|loop| - 1].s;
      assert ItemOk(G.K, Sym(s)) && Defined(G.K.syms[s]);
      var p :| 0 <= p < |done| && done[p] == loop[|loop| - 1];
      NoLoopInOrder(G, done, loop, |loop| - 1, p);
    }
  }
}
