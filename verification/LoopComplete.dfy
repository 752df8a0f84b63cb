/**
 * When the search finds every dependency loop, and that evaluation ends if there is none.
 * A choice and its symbols hang together: the mode of the choice decides which symbols
 * are visible, and the visible symbols decide the selection.
 */
module LoopComplete {
  import opened Wrappers
  import opened Config
  import opened Deps
  import opened DepLoop
  import opened LoopLaws

  /**
   * Choices have their own symbols, and whatever depends on a choice is one of its symbols
   * or depends on one of them.
   */
  ghost predicate ChoicesClosed(G: Graph)
    requires GraphOk(G)
  {
    && (forall c, s :: 0 <= c < |G.K.choices| && s in G.K.choices[c].syms ==> SymOk(G.K, s) && G.K.syms[s].choice == Some(c))
    && (forall c, x :: 0 <= c < |G.K.choices| && x in After(G, Cho(c)) ==> FollowsMember(G, c, x))
  }

  ghost predicate FollowsMember(G: Graph, c: ChoiceId, x: Item)
    requires c < |G.K.choices|
  {
    var syms := G.K.choices[c].syms;
    (x.Sym? && x.s in syms) || exists s :: s in syms && x in After(G, Sym(s))
  }

  /** Each item leads to the one before it, between symbols of a choice, without the choice. */
  ghost predicate SideWay(G: Graph, c: ChoiceId, p: seq<Item>)
    requires GraphOk(G) && c < |G.K.choices|
  {
    && p != [] && Chain(G, p) && Cho(c) !in p
    && p[0].Sym? && p[0].s in G.K.choices[c].syms
    && p[|p| - 1].Sym? && p[|p| - 1].s in G.K.choices[c].syms
  }

  /** No symbol of a choice leads to another symbol of the choice but through the choice. */
  ghost predicate SymsApart(G: Graph)
    requires GraphOk(G)
  {
    forall c, p :: 0 <= c < |G.K.choices| && SideWay(G, c, p) ==> p[0] == p[|p| - 1]
  }

  // The order in which choices are finished

  /** Whatever depends on a symbol of a finished choice was finished before the choice. */
  ghost predicate ChoicesOrdered(G: Graph, done: seq<Item>) {
    forall k :: 0 <= k < |done| && done[k].Cho? && done[k].c < |G.K.choices| ==> AfterMembers(G, done[k].c, done[..k])
  }

  ghost predicate AfterMembers(G: Graph, c: ChoiceId, done: seq<Item>)
    requires c < |G.K.choices|
  {
    forall s, x :: s in G.K.choices[c].syms && x in After(G, Sym(s)) ==> x in done
  }

  /** A choice is entered through a symbol when all that depends on the symbol is finished. */
  ghost predicate Ready(G: Graph, done: seq<Item>, w: Visit) {
    w.OfChoice? && w.skip.Some? ==> forall x :: x in After(G, Sym(w.skip.value)) ==> x in done
  }

  /** The calls in ws, in their order, are ready when they are made. */
  ghost predicate ReadyInTurn(G: Graph, done: seq<Item>, ws: seq<Visit>) {
    forall k, x ::
      0 <= k < |ws| && ws[k].OfChoice? && ws[k].skip.Some? && x in After(G, Sym(ws[k].skip.value)) ==>
      x in done || exists j :: 0 <= j < k && Visited(ws[j]) == x
  }

  lemma CallsAreReady(G: Graph, done: seq<Item>, w: Visit)
    requires GraphOk(G) && VisitOk(G, w)
    ensures ReadyInTurn(G, done, Calls(G, w))
  {
    var ws := Calls(G, w);
    match w
    case OfChoice(c, skip) => ChoiceCalls(G, c, skip);
    case OfSym(s, ignoreChoice) =>
      SymCalls(G, s, ignoreChoice);
      var n := |After(G, Sym(s))|;
      forall k, x | 0 <= k < |ws| && ws[k].OfChoice? && ws[k].skip.Some? && x in After(G, Sym(ws[k].skip.value))
        ensures exists j :: 0 <= j < k && Visited(ws[j]) == x
      {
        assert k >= n && ws[k] == ws[n..][k - n];
        var j :| 0 <= j < n && After(G, Sym(s))[j] == x;
        assert Visited(ws[j]) == x;
      }
  }

  lemma {:induction false} SearchKeepsChoices(G: Graph, v: Marks, w: Visit)
    requires GraphOk(G) && VisitOk(G, w) && Ordered(G, v.done) && ChoicesOrdered(G, v.done) && Ready(G, v.done, w)
    ensures ChoicesOrdered(G, Search(G, v, w).0.done)
    decreases Unvisited(G, v), 0
  {
    SearchMarked(G, v, w);
    if Visited(w) !in v.done && Visited(w) !in v.active {
      SearchUnfolds(G, v, w);
      var v1 := v.(active := v.active + {Visited(w)});
      var ws := Calls(G, w);
      CallsAreReady(G, v1.done, w);
      SearchAllOutcome(G, v, w, v1, ws);
      SearchAllKeepsOrder(G, v1, Visited(w), ws);
      SearchAllKeepsChoices(G, v1, Visited(w), ws);
      var (v', out) := SearchAll(G, v1, Visited(w), ws);
      if out.NoLoop? {
        hide ConfigOk, Calls, Search, SearchAll, Unvisited;
        FinishKeepsChoices(G, v.done, v'.done, w);
      }
    }
  }

  lemma {:induction false} SearchAllKeepsChoices(G: Graph, v: Marks, i: Item, ws: seq<Visit>)
    requires GraphOk(G) && VisitsOk(G, ws) && Ordered(G, v.done) && ChoicesOrdered(G, v.done) && ReadyInTurn(G, v.done, ws)
    ensures ChoicesOrdered(G, SearchAll(G, v, i, ws).0.done)
    decreases Unvisited(G, v), |ws|
  {
    if ws == [] {
    } else {
      SearchKeepsChoices(G, v, ws[0]);
      SearchKeepsOrder(G, v, ws[0]);
      SearchOutcome(G, v, ws[0]);
      var (v', out) := Search(G, v, ws[0]);
      if out.NoLoop? {
        NextIsReady(G, v.done, v'.done, ws);
        SearchAllKeepsChoices(G, v', i, ws[1..]);
      }
    }
  }

  lemma NextIsReady(G: Graph, done: seq<Item>, done': seq<Item>, ws: seq<Visit>)
    requires ws != [] && ReadyInTurn(G, done, ws) && done <= done' && Visited(ws[0]) in done'
    ensures ReadyInTurn(G, done', ws[1..])
  {
    var rest := ws[1..];
    forall k, x | 0 <= k < |rest| && rest[k].OfChoice? && rest[k].skip.Some? && x in After(G, Sym(rest[k].skip.value))
      ensures x in done' || exists j :: 0 <= j < k && Visited(rest[j]) == x
    {
      assert rest[k] == ws[k + 1];
      if x !in done {
        var j :| 0 <= j < k + 1 && Visited(ws[j]) == x;
        if j > 0 { assert Visited(rest[j - 1]) == x; }
      }
    }
  }

  lemma FinishKeepsChoices(G: Graph, done: seq<Item>, done': seq<Item>, w: Visit)
    requires GraphOk(G) && VisitOk(G, w) && done <= done' && Ready(G, done, w)
    requires Ordered(G, done') && ChoicesOrdered(G, done')
    requires forall w' :: w' in Calls(G, w) ==> Visited(w') in done'
    ensures ChoicesOrdered(G, done' + [Visited(w)])
  {
    var all := done' + [Visited(w)];
    if w.OfChoice? {
      forall s, x | s in G.K.choices[w.c].syms && x in After(G, Sym(s)) ensures x in done' {
        if w.skip != Some(s) {
          ChoiceCalls(G, w.c, w.skip);
          assert OfSym(s, true) in Calls(G, w);
          var p :| 0 <= p < |done'| && done'[p] == Sym(s);
          assert x in done'[..p];
        }
      }
      assert AfterMembers(G, w.c, done');
    }
    forall k | 0 <= k < |all| && all[k].Cho? && all[k].c < |G.K.choices| ensures AfterMembers(G, all[k].c, all[..k]) {
      assert all[..k] == done'[..k];
    }
  }

  lemma {:induction false} SearchFromKeepsChoices(G: Graph, v: Marks, n: nat)
    requires GraphOk(G) && n <= |G.K.definedSyms| && Ordered(G, v.done) && ChoicesOrdered(G, v.done)
    ensures ChoicesOrdered(G, SearchFrom(G, v, n).0.done)
    decreases |G.K.definedSyms| - n
  {
    if n < |G.K.definedSyms| {
      var w := OfSym(G.K.definedSyms[n], false);
      SearchKeepsChoices(G, v, w);
      SearchKeepsOrder(G, v, w);
      var (v', out) := Search(G, v, w);
      if !out.Found? { SearchFromKeepsChoices(G, v', n + 1); }
    }
  }

  // No loop in such an order

  /** The loop, gone round by one item. */
  function Turn(loop: seq<Item>): seq<Item>
    requires loop != []
  {
    [loop[|loop| - 1]] + loop[..|loop| - 1]
  }

  lemma TurnedLoop(G: Graph, loop: seq<Item>)
    requires GraphOk(G) && RealLoop(G, loop)
    ensures RealLoop(G, Turn(loop))
  {
    hide ConfigOk, Linked, Bounce;
    var t := Turn(loop);
    forall k | 0 < k < |t| ensures Linked(G, t[k], t[k - 1]) { assert t[k] == loop[k - 1]; }
  }

  /** A loop does not go from a symbol to its choice and on to another symbol of it. */
  lemma NotThroughChoice(G: Graph, loop: seq<Item>, c: ChoiceId, z: Item)
    requires GraphOk(G) && ChoicesClosed(G) && SymsApart(G) && RealLoop(G, loop) && |loop| >= 2 && c < |G.K.choices|
    requires loop[|loop| - 1].Sym? && loop[|loop| - 1].s in G.K.choices[c].syms && loop[|loop| - 2] == Cho(c)
    requires z == if |loop| >= 3 then loop[|loop| - 3] else loop[1]
    requires FollowsMember(G, c, z)
    ensures z in After(G, loop[|loop| - 1]) || z == loop[|loop| - 1]
  {
    var s := loop[|loop| - 1];
    var p := [s] + loop[..|loop| - 2];
    ChainWithout(G, loop, c);
    assert forall t :: t in G.K.choices[c].syms ==> SymOk(G.K, t);
    hide ConfigOk, ChoicesClosed, RealLoop, Chain;
    if z.Sym? && z.s in G.K.choices[c].syms {
      assert SideWay(G, c, p);
    } else {
      var t :| t in G.K.choices[c].syms && z in After(G, Sym(t));
      assert Linked(G, Sym(t), z);
      ChainGrows(G, p, Sym(t));
      assert SideWay(G, c, p + [Sym(t)]);
    }
  }

  lemma ChainWithout(G: Graph, loop: seq<Item>, c: ChoiceId)
    requires GraphOk(G) && RealLoop(G, loop) && |loop| >= 2 && loop[|loop| - 2] == Cho(c)
    ensures
      var p := [loop[|loop| - 1]] + loop[..|loop| - 2];
      Chain(G, p) && Cho(c) !in p && p[|p| - 1] == if |loop| >= 3 then loop[|loop| - 3] else loop[1]
  {
    hide ConfigOk, Linked;
    var p := [loop[|loop| - 1]] + loop[..|loop| - 2];
    forall k | 0 < k < |p| ensures Linked(G, p[k], p[k - 1]) { assert p[k] == loop[k - 1]; }
  }

  ghost predicate Orderly(G: Graph, done: seq<Item>)
    requires GraphOk(G)
  {
    ChoicesClosed(G) && SymsApart(G) && Ordered(G, done) && ChoicesOrdered(G, done)
  }

  /** From an item of a loop, a later one was finished earlier: that cannot go on. */
  lemma {:induction false} NoRealLoopInOrder(G: Graph, done: seq<Item>, loop: seq<Item>, p: nat)
    requires GraphOk(G) && Orderly(G, done) && RealLoop(G, loop) && p < |done| && done[p] == loop[|loop| - 1]
    ensures false
    decreases p
  {
    var turned := Turn(loop);
    TurnedLoop(G, loop);
    TurnedLoop(G, turned);
    var cur, y, z := done[p], turned[|turned| - 1], Turn(turned)[|turned| - 1];
    var earlier := EarlierItem(G, done, loop, p, cur, y, z);
    var q :| 0 <= q < p && done[q] == earlier;
    if earlier == y {
      NoRealLoopInOrder(G, done, turned, q);
    } else {
      NoRealLoopInOrder(G, done, Turn(turned), q);
    }
  }

  /** Of the two items that follow in the loop, one was finished earlier. */
  lemma EarlierItem(G: Graph, done: seq<Item>, loop: seq<Item>, p: nat, cur: Item, y: Item, z: Item) returns (e: Item)
    requires GraphOk(G) && Orderly(G, done) && RealLoop(G, loop) && p < |done| && cur == done[p] == loop[|loop| - 1]
    requires y == Turn(loop)[|loop| - 1] && z == Turn(Turn(loop))[|loop| - 1]
    ensures (e == y || e == z) && e in done[..p]
  {
    var n := |loop|;
    assert n >= 2 ==> y == loop[n - 2];
    assert n >= 3 ==> z == loop[n - 3];
    assert Linked(G, cur, y);
    match cur
    case Sym(s) =>
      if y in After(G, cur) {
        e := y;
      } else {
        var c := y.c;
        assert n >= 2 && s in G.K.choices[c].syms by { assert SymDefOk(G.K, s); }
        assert Linked(G, y, z) by { TurnedLoop(G, loop); }
        assert FollowsMember(G, c, z);
        NotThroughChoice(G, loop, c, z);
        if z == cur { assert false; }
        e := z;
      }
    case Cho(c) =>
      assert FollowsMember(G, c, y);
      assert AfterMembers(G, c, done[..p]);
      if s :| s in G.K.choices[c].syms && y in After(G, Sym(s)) {
        e := y;
      } else {
        assert y.Sym? && y.s in G.K.choices[c].syms;
        assert Linked(G, y, z) by { TurnedLoop(G, loop); }
        if z !in After(G, y) { assert false; }
        e := z;
      }
  }

  // Ways without repetition

  /** Each item leads to the one before it, from i to x, and none is passed twice. */
  ghost predicate Way(G: Graph, p: seq<Item>, i: Item, x: Item)
    requires GraphOk(G)
  {
    p != [] && Distinct(p) && Chain(G, p) && p[|p| - 1] == i && p[0] == x
  }

  lemma OneMore(G: Graph, p: seq<Item>, i: Item, x: Item, y: Item) returns (q: seq<Item>)
    requires GraphOk(G) && Way(G, p, i, x) && ItemOk(G.K, y) && Linked(G, x, y)
    ensures Way(G, q, i, y) && forall z :: z in q ==> z in p || z == y
  {
    hide ConfigOk, Linked;
    if y in p {
      var k :| 0 <= k < |p| && p[k] == y;
      q := p[k..];
    } else {
      q := [y] + p;
    }
  }

  lemma {:induction false} Shortened(G: Graph, p: seq<Item>) returns (q: seq<Item>)
    requires GraphOk(G) && p != [] && Chain(G, p)
    ensures Way(G, q, p[|p| - 1], p[0]) && forall z :: z in q ==> z in p
  {
    hide ConfigOk, Linked;
    if |p| == 1 {
      q := p;
    } else {
      var rest := Shortened(G, p[1..]);
      assert Linked(G, p[1], p[0]);
      q := OneMore(G, rest, p[|p| - 1], p[1], p[0]);
    }
  }

  // Main results

  lemma SideWayIsLoop(G: Graph, c: ChoiceId, p: seq<Item>) returns (loop: seq<Item>)
    requires GraphOk(G) && ChoicesClosed(G) && c < |G.K.choices| && SideWay(G, c, p) && p[0] != p[|p| - 1]
    ensures RealLoop(G, loop)
  {
    var q := Shortened(G, p);
    loop := [Cho(c)] + q;
    assert Linked(G, q[0], Cho(c)) && Linked(G, Cho(c), q[|q| - 1]);
    loop := q + [Cho(c)];
    hide ConfigOk, Linked, ChoicesClosed, SideWay;
    assert |q| >= 2;
    ChainGrows(G, q, Cho(c));
  }

  lemma FollowerIsDefined(G: Graph, i: Item, x: Item)
    requires GraphFor(G) && ItemOk(G.K, i) && ItemOk(G.K, x) && Linked(G, i, x) && x.Sym?
    ensures Defined(G.K.syms[x.s])
  {
    if x in After(G, i) {
      assert i in DependsOn(G.K, x);
    } else {
      assert ChoiceDefOk(G.K, i.c);
    }
  }

  lemma ChoiceFollowerIsDone(G: Graph, done: seq<Item>, c: ChoiceId, x: Item)
    requires GraphOk(G) && ChoicesClosed(G) && Ordered(G, done) && c < |G.K.choices| && x.Cho? && x in After(G, Cho(c))
    requires forall s :: 0 <= s < |G.K.syms| && Defined(G.K.syms[s]) ==> Sym(s) in done
    ensures x in done
  {
    assert FollowsMember(G, c, x) && ChoiceDefOk(G.K, c);
    var s :| s in G.K.choices[c].syms && x in After(G, Sym(s));
    var p :| 0 <= p < |done| && done[p] == Sym(s);
    assert x in done[..p];
  }

  /** Some item of every loop is finished. */
  lemma SomeIsDone(G: Graph, done: seq<Item>, loop: seq<Item>) returns (turned: seq<Item>)
    requires GraphFor(G) && ChoicesClosed(G) && RealLoop(G, loop) && Ordered(G, done)
    requires forall s :: 0 <= s < |G.K.syms| && Defined(G.K.syms[s]) ==> Sym(s) in done
    ensures RealLoop(G, turned) && turned[|turned| - 1] in done
  {
    turned := Turn(loop);
    TurnedLoop(G, loop);
    var i, x := loop[|loop| - 1], turned[|turned| - 1];
    assert Linked(G, loop[0], i) && Linked(G, i, x);
    if i.Sym? {
      FollowerIsDefined(G, loop[0], i);
      turned := loop;
    } else if x.Sym? {
      FollowerIsDefined(G, i, x);
    } else {
      ChoiceFollowerIsDone(G, done, i.c, x);
    }
  }

  /** If nothing is reported, there is no loop unless a symbol of a choice leads around the choice to another one. */
  lemma MissedLoops(G: Graph)
    requires GraphFor(G) && ChoicesClosed(G) && CheckAll(G).1.NoLoop?
    ensures (exists loop :: RealLoop(G, loop)) <==> !SymsApart(G)
  {
    if !SymsApart(G) {
      var c, p :| 0 <= c < |G.K.choices| && SideWay(G, c, p) && p[0] != p[|p| - 1];
      var loop := SideWayIsLoop(G, c, p);
    } else {
      var done := CheckAll(G).0.done;
      QuietSearchOrders(G);
      SearchFromKeepsChoices(G, Marks({}, []), 0);
      hide ConfigOk, CheckAll, ChoicesClosed, SymsApart, Ordered, ChoicesOrdered, RealLoop;
      if loop :| RealLoop(G, loop) {
        var turned := SomeIsDone(G, done, loop);
        var p :| 0 <= p < |done| && done[p] == turned[|turned| - 1];
        NoRealLoopInOrder(G, done, turned, p);
      }
    }
  }

  /** A loop is reported exactly if there is one, if symbols of a choice do not lead around it to each other. */
  lemma LoopIffReported(G: Graph)
    requires GraphFor(G) && ChoicesClosed(G) && SymsApart(G)
    ensures CheckAll(G).1.Found? <==> exists loop :: RealLoop(G, loop)
  {
    ReportedLoopIsReal(G);
    if CheckAll(G).1.NoLoop? { MissedLoops(G); }
  }

  /** Without choices the conditions hold, and a loop is one of symbols that depend on each other. */
  lemma NoChoicesApart(G: Graph)
    requires GraphFor(G) && G.K.choices == []
    ensures ChoicesClosed(G) && SymsApart(G) && forall loop :: RealLoop(G, loop) ==> SymLoop(G, loop)
  {
    forall loop | RealLoop(G, loop) ensures SymLoop(G, loop) { RealLoopIsSymLoop(G, loop); }
  }

  lemma RealLoopIsSymLoop(G: Graph, loop: seq<Item>)
    requires GraphOk(G) && G.K.choices == [] && RealLoop(G, loop)
    ensures SymLoop(G, loop)
  {
    forall k | 0 <= k < |loop| ensures loop[k].Sym? { assert ItemOk(G.K, loop[k]); }
  }
}
