/**
 * Where each menu node ends up. A symbol takes in the siblings after it that depend on it,
 * and those that depend on what it has taken in; after finalisation the parent of a node is
 * the innermost node around it, in this sense, that has a prompt or is a choice.
 */
module MenuPlaces {
  import opened Wrappers
  import opened MenuTree
  import opened MenuLinks

  // Which siblings a symbol takes in

  /** Sibling k could go in the implicit submenu of sibling i: it depends on i, and so far everything behind i is below i. */
  predicate Candidate(I: Info, sib: seq<Menu>, i: nat, k: nat)
    requires i < k < |sib|
    decreases k, 1, 0
  {
    I.isSym(sib[i].node) && I.autoDep(sib[i].node, sib[k].node) && forall j :: i < j < k ==> Under(I, sib, i, j)
  }

  /** The sibling whose submenu k goes in: the last candidate before k. */
  function Taker(I: Info, sib: seq<Menu>, k: nat): (r: Option<nat>)
    requires k < |sib|
    ensures r.Some? ==> r.value < k && Candidate(I, sib, r.value, k)
    ensures forall i :: (if r.Some? then r.value + 1 else 0) <= i < k ==> !Candidate(I, sib, i, k)
    decreases k, 3, 0
  {
    LastCandidate(I, sib, k, k)
  }

  function LastCandidate(I: Info, sib: seq<Menu>, k: nat, n: nat): (r: Option<nat>)
    requires n <= k < |sib|
    ensures r.Some? ==> r.value < n && Candidate(I, sib, r.value, k)
    ensures forall i :: (if r.Some? then r.value + 1 else 0) <= i < n ==> !Candidate(I, sib, i, k)
    decreases k, 2, n
  {
    if n == 0 then None
    else if Candidate(I, sib, n - 1, k) then Some(n - 1)
    else LastCandidate(I, sib, k, n - 1)
  }

  /** Sibling k is in the submenu of i or of something below i. */
  predicate Under(I: Info, sib: seq<Menu>, i: nat, k: nat)
    requires i < k < |sib|
    decreases k, 4, 0
  {
    var t := Taker(I, sib, k);
    t.Some? && (t.value == i || (i < t.value && Under(I, sib, i, t.value)))
  }

  lemma {:induction false} UnderIsTransitive(I: Info, sib: seq<Menu>, i: nat, j: nat, k: nat)
    requires i < j < k < |sib| && Under(I, sib, i, j) && Under(I, sib, j, k)
    ensures Under(I, sib, i, k)
    decreases k
  {
    var t := Taker(I, sib, k).value;
    if t != j { UnderIsTransitive(I, sib, i, j, t); }
  }

  /** A symbol takes in an unbroken run of siblings. */
  lemma {:induction false} UnbrokenRun(I: Info, sib: seq<Menu>, i: nat, j: nat, k: nat)
    requires i < j <= k < |sib| && Under(I, sib, i, k)
    ensures Under(I, sib, i, j)
    decreases k
  {
    var t := Taker(I, sib, k).value;
    if j < k {
      if t < j {
        assert Candidate(I, sib, t, k) && Under(I, sib, t, j);
        if t != i { UnderIsTransitive(I, sib, i, t, j); }
      } else {
        UnbrokenRun(I, sib, i, j, t);
      }
    }
  }

  // Where nodes are

  predicate Keeps(I: Info, n: Node) { I.hasPrompt(n) || I.isChoice(n) }

  /** The parent of sibling k: the innermost symbol with a prompt that took it in, or else the parent of all. */
  function Home(I: Info, sib: seq<Menu>, home: Node, k: nat): Node
    requires k < |sib|
    decreases k
  {
    match Taker(I, sib, k)
    case None => home
    case Some(i) => if Keeps(I, sib[i].node) then sib[i].node else Home(I, sib, home, i)
  }

  /** The parent of what is inside sibling k. */
  function Inside(I: Info, sib: seq<Menu>, home: Node, k: nat): Node
    requires k < |sib|
  {
    if Keeps(I, sib[k].node) then sib[k].node else Home(I, sib, home, k)
  }

  /**
   * p is the place of x in the parsed menus ms, which are inside `home`: the innermost node around x
   * that has a prompt or is a choice, where the symbols that take in x count as around it.
   */
  ghost predicate Place(I: Info, ms: seq<Menu>, home: Node, x: Node, p: Node)
    decreases ms
  {
    exists k :: 0 <= k < |ms| && PlaceAt(I, ms, home, k, x, p)
  }

  ghost predicate PlaceAt(I: Info, ms: seq<Menu>, home: Node, k: nat, x: Node, p: Node)
    requires k < |ms|
    decreases ms, 0
  {
    || (x == ms[k].node && !I.isIf(x) && p == Home(I, ms, home, k))
    || Place(I, ms[k].kids, Inside(I, ms, home, k), x, p)
  }

  /** p is the parent of x in the menus ms, whose parent is par. */
  ghost predicate HasParent(ms: seq<Menu>, par: Node, x: Node, p: Node)
    decreases ms
  {
    ms != [] &&
    ((x == ms[0].node && p == par) || HasParent(ms[0].kids, ms[0].node, x, p) || HasParent(ms[1..], par, x, p))
  }

  lemma {:induction false} ParentInAppend(a: seq<Menu>, b: seq<Menu>, par: Node, x: Node, p: Node)
    ensures HasParent(a + b, par, x, p) <==> HasParent(a, par, x, p) || HasParent(b, par, x, p)
  {
    if a == [] {
      assert a + b == b;
    } else {
      assert (a + b)[1..] == a[1..] + b;
      ParentInAppend(a[1..], b, par, x, p);
    }
  }

  // One level

  /** The parent of x once the level that m is in is finished and inside `home`. */
  ghost predicate LevelPlace(I: Info, m: Menu, home: Node, x: Node, p: Node) {
    || (x == m.node && !I.isIf(x) && p == home)
    || HasParent(m.kids, if Keeps(I, m.node) then m.node else home, x, p)
  }

  ghost predicate LevelPlaces(I: Info, ms: seq<Menu>, home: Node, x: Node, p: Node) {
    ms != [] && (LevelPlace(I, ms[0], home, x, p) || LevelPlaces(I, ms[1..], home, x, p))
  }

  lemma {:induction false} LevelPlacesAppend(I: Info, a: seq<Menu>, b: seq<Menu>, home: Node, x: Node, p: Node)
    ensures LevelPlaces(I, a + b, home, x, p) <==> LevelPlaces(I, a, home, x, p) || LevelPlaces(I, b, home, x, p)
  {
    if a == [] {
      assert a + b == b;
    } else {
      assert (a + b)[1..] == a[1..] + b;
      LevelPlacesAppend(I, a[1..], b, home, x, p);
    }
  }

  /** In tidy menus nothing moves. */
  lemma {:induction false} TidyPlaces(I: Info, ms: seq<Menu>, home: Node, x: Node, p: Node)
    requires Tidy(I, ms)
    ensures LevelPlaces(I, ms, home, x, p) <==> HasParent(ms, home, x, p)
  {
    if ms == [] {
    } else {
      TidyPlaces(I, ms[1..], home, x, p);
    }
  }

  lemma {:induction false} FlattenPlaces(I: Info, ms: seq<Menu>, home: Node, x: Node, p: Node)
    requires TidyBelow(I, ms)
    ensures LevelPlaces(I, Flatten(I, ms), home, x, p) <==> LevelPlaces(I, ms, home, x, p)
    decreases Size(ms)
  {
    if ms == [] {
    } else {
      var r := Flatten(I, ms);
      if Flattens(I, ms[0]) {
        var moved := ms[0].kids + ms[1..];
        SizeAppend(ms[0].kids, ms[1..]);
        TidyAll(I, ms[0].kids);
        FlattenPlaces(I, moved, home, x, p);
        assert r[0] == Menu(ms[0].node, []) && r[1..] == Flatten(I, moved);
        LevelPlacesAppend(I, ms[0].kids, ms[1..], home, x, p);
        TidyPlaces(I, ms[0].kids, home, x, p);
      } else {
        FlattenPlaces(I, ms[1..], home, x, p);
        assert r[0] == ms[0] && r[1..] == Flatten(I, ms[1..]);
      }
    }
  }

  /** Nodes that are left without children, or keep them, are where they should be. */
  predicate Flat(I: Info, ms: seq<Menu>) {
    forall k :: 0 <= k < |ms| ==> ms[k].kids == [] || Keeps(I, ms[k].node)
  }

  lemma {:induction false} FlattenIsFlat(I: Info, ms: seq<Menu>)
    requires TidyBelow(I, ms)
    ensures Flat(I, Flatten(I, ms))
    decreases Size(ms)
  {
    if ms == [] {
    } else if Flattens(I, ms[0]) {
      SizeAppend(ms[0].kids, ms[1..]);
      TidyAll(I, ms[0].kids);
      FlattenIsFlat(I, ms[0].kids + ms[1..]);
    } else {
      FlattenIsFlat(I, ms[1..]);
    }
  }

  lemma {:induction false} RemoveIfsPlaces(I: Info, ms: seq<Menu>, home: Node, x: Node, p: Node)
    requires InfoOk(I) && Flat(I, ms)
    ensures HasParent(RemoveIfs(I, ms), home, x, p) <==> LevelPlaces(I, ms, home, x, p)
  {
    if ms == [] {
    } else {
      RemoveIfsPlaces(I, ms[1..], home, x, p);
      var rest := RemoveIfs(I, ms[1..]);
      assert ([ms[0]] + rest)[1..] == rest;
      if I.isIf(ms[0].node) { assert ms[0].kids == []; }
    }
  }

  lemma LevelHasPlaces(I: Info, ms: seq<Menu>, home: Node, x: Node, p: Node)
    requires InfoOk(I) && TidyBelow(I, ms)
    ensures HasParent(Level(I, ms), home, x, p) <==> LevelPlaces(I, ms, home, x, p)
  {
    FlattenPlaces(I, ms, home, x, p);
    FlattenIsFlat(I, ms);
    RemoveIfsPlaces(I, Flatten(I, ms), home, x, p);
  }

  // Finalisation, sibling by sibling

  /** What the siblings from j up to r say about x. */
  ghost predicate PlaceIn(I: Info, sib: seq<Menu>, home: Node, j: nat, r: nat, x: Node, p: Node)
    requires j <= r <= |sib|
  {
    exists k :: j <= k < r && PlaceAt(I, sib, home, k, x, p)
  }

  /** Nothing from i on takes in sibling r. */
  ghost predicate Closed(I: Info, sib: seq<Menu>, i: nat, r: nat)
    requires i <= r <= |sib|
  {
    r < |sib| ==> forall t :: i <= t < r ==> !Candidate(I, sib, t, r)
  }

  ghost predicate AllUnder(I: Info, sib: seq<Menu>, i: nat, j: nat, r: nat)
    requires i < j && r <= |sib|
  {
    forall k :: j <= k < r ==> Under(I, sib, i, k)
  }

  lemma {:induction false} LeavesOfSuffix(I: Info, sib: seq<Menu>, j: nat)
    requires SymsAreLeaves(I, sib) && j <= |sib|
    ensures SymsAreLeaves(I, sib[j..])
  {
    if j == 0 {
      assert sib[0..] == sib;
    } else {
      LeavesOfSuffix(I, sib[1..], j - 1);
      assert sib[1..][j - 1..] == sib[j..];
    }
  }

  lemma SuffixParts(I: Info, sib: seq<Menu>, j: nat)
    requires SymsAreLeaves(I, sib) && j < |sib|
    ensures sib[j..][0] == sib[j] && sib[j..][1..] == sib[j + 1..] && SymsAreLeaves(I, sib[j..])
    ensures (I.isSym(sib[j].node) ==> sib[j].kids == []) && SymsAreLeaves(I, sib[j].kids)
    ensures Size(sib[j..]) == 1 + Size(sib[j].kids) + Size(sib[j + 1..])
  {
    LeavesOfSuffix(I, sib, j);
    assert sib[j..] == [sib[j]] + sib[j + 1..];
  }

  /** Finalizing sibling i takes it and those from i to r, all below i, off the list, and puts everything in its place. */
  lemma {:induction false} HeadPlaces(I: Info, sib: seq<Menu>, home: Node, i: nat, x: Node, p: Node) returns (r: nat)
    requires InfoOk(I) && SymsAreLeaves(I, sib) && i < |sib|
    ensures i < r <= |sib| && AllUnder(I, sib, i, i + 1, r) && Closed(I, sib, i, r)
    ensures FinalizeHead(I, sib[i..]) == [FinalizeHead(I, sib[i..])[0]] + sib[r..]
    ensures LevelPlace(I, FinalizeHead(I, sib[i..])[0], Home(I, sib, home, i), x, p) <==> PlaceIn(I, sib, home, i, r, x, p)
    decreases Size(sib[i..]), 1
  {
    SuffixParts(I, sib, i);
    var m, hh := sib[i], Inside(I, sib, home, i);
    var t := FinalizeHead(I, sib[i..])[0];
    hide Level, HasParent, Taker, Candidate, Under, Home, Closed, AllUnder, LevelPlaces, Tidy, Absorb, FinalizeAll;
    if I.isSym(m.node) {
      r := AbsorbPlaces(I, sib, home, i, i + 1, x, p);
      var kids := Absorb(I, m.node, sib[i + 1..]).0;
      AbsorbTidies(I, m.node, sib[i + 1..]);
      LevelHasPlaces(I, kids, hh, x, p);
      assert t == Menu(m.node, Level(I, kids));
      assert !Place(I, m.kids, hh, x, p);
    } else {
      r := i + 1;
      AllPlaces(I, m.kids, hh, 0, x, p);
      FinalizeAllTidies(I, m.kids);
      LevelHasPlaces(I, FinalizeAll(I, m.kids), hh, x, p);
      assert t == Menu(m.node, Level(I, FinalizeAll(I, m.kids)));
    }
    assert PlaceIn(I, sib, home, i, r, x, p) <==>
      PlaceAt(I, sib, home, i, x, p) || PlaceIn(I, sib, home, i + 1, r, x, p);
  }

  lemma {:induction false} AbsorbPlaces(I: Info, sib: seq<Menu>, home: Node, i: nat, j: nat, x: Node, p: Node) returns (r: nat)
    requires InfoOk(I) && SymsAreLeaves(I, sib) && i < j <= |sib| && I.isSym(sib[i].node)
    requires AllUnder(I, sib, i, i + 1, j) && Closed(I, sib, i + 1, j)
    ensures j <= r <= |sib| && AllUnder(I, sib, i, i + 1, r) && Closed(I, sib, i, r)
    ensures Absorb(I, sib[i].node, sib[j..]).1 == sib[r..]
    ensures LevelPlaces(I, Absorb(I, sib[i].node, sib[j..]).0, Inside(I, sib, home, i), x, p) <==> PlaceIn(I, sib, home, j, r, x, p)
    decreases Size(sib[j..]), 2
  {
    if j == |sib| || !I.autoDep(sib[i].node, sib[j].node) {
      r := j;
    } else {
      SuffixParts(I, sib, j);
      assert Taker(I, sib, j) == Some(i) by { assert Candidate(I, sib, i, j); }
      var q := HeadPlaces(I, sib, home, j, x, p);
      forall k | j < k < q ensures Under(I, sib, i, k) { UnderIsTransitive(I, sib, i, j, k); }
      ClosedBehind(I, sib, i + 1, j, q);
      var t := FinalizeHead(I, sib[j..])[0];
      assert FinalizeHead(I, sib[j..])[1..] == sib[q..];
      r := AbsorbPlaces(I, sib, home, i, q, x, p);
      var kids := Absorb(I, sib[i].node, sib[q..]).0;
      assert ([t] + kids)[1..] == kids;
      assert PlaceIn(I, sib, home, j, r, x, p) <==> PlaceIn(I, sib, home, j, q, x, p) || PlaceIn(I, sib, home, q, r, x, p);
    }
  }

  /** What has not taken in j takes in nothing behind j either. */
  lemma ClosedBehind(I: Info, sib: seq<Menu>, i: nat, j: nat, q: nat)
    requires i <= j < q <= |sib| && Closed(I, sib, j, q)
    requires match Taker(I, sib, j) case Some(t) => t < i case None => true
    ensures Closed(I, sib, i, q)
  {
    if q < |sib| {
      forall t | i <= t < j ensures !Candidate(I, sib, t, q) { assert !Under(I, sib, t, j); }
    }
  }

  lemma {:induction false} AllPlaces(I: Info, sib: seq<Menu>, home: Node, j: nat, x: Node, p: Node)
    requires InfoOk(I) && SymsAreLeaves(I, sib) && j <= |sib| && Closed(I, sib, 0, j)
    ensures LevelPlaces(I, FinalizeAll(I, sib[j..]), home, x, p) <==> PlaceIn(I, sib, home, j, |sib|, x, p)
    ensures j == 0 ==> (LevelPlaces(I, FinalizeAll(I, sib), home, x, p) <==> Place(I, sib, home, x, p))
    decreases Size(sib[j..]), 2
  {
    if j < |sib| {
      SuffixParts(I, sib, j);
      assert Taker(I, sib, j) == None;
      var q := HeadPlaces(I, sib, home, j, x, p);
      ClosedBehind(I, sib, 0, j, q);
      var t := FinalizeHead(I, sib[j..])[0];
      assert FinalizeHead(I, sib[j..])[1..] == sib[q..];
      AllPlaces(I, sib, home, q, x, p);
      var rest := FinalizeAll(I, sib[q..]);
      assert ([t] + rest)[1..] == rest;
      assert PlaceIn(I, sib, home, j, |sib|, x, p) <==>
        PlaceIn(I, sib, home, j, q, x, p) || PlaceIn(I, sib, home, q, |sib|, x, p);
    }
    if j == 0 { assert sib[0..] == sib; }
  }

  // Main results

  /** In the finalized tree each node that is no `if` is in its place, and nothing else is. */
  lemma FinalizedPlaces(I: Info, top: Menu, x: Node, p: Node)
    requires InfoOk(I) && SymsAreLeaves(I, [top]) && !I.isSym(top.node)
    ensures HasParent(FinalizeHead(I, [top])[0].kids, top.node, x, p) <==> Place(I, top.kids, top.node, x, p)
  {
    assert SymsAreLeaves(I, top.kids);
    AllPlaces(I, top.kids, top.node, 0, x, p);
    FinalizeAllTidies(I, top.kids);
    LevelHasPlaces(I, FinalizeAll(I, top.kids), top.node, x, p);
  }

  lemma {:induction false} SegParents(L: Links, first: Option<Node>, tail: Option<Node>, par: Node, ms: seq<Menu>, x: Node, p: Node)
    requires Seg(L, first, tail, Some(par), ms) && HasParent(ms, par, x, p)
    ensures At(L.parent, x) == Some(p)
    decreases ms
  {
    if x == ms[0].node && p == par {
    } else if HasParent(ms[0].kids, ms[0].node, x, p) {
      SegParents(L, At(L.list, ms[0].node), None, ms[0].node, ms[0].kids, x, p);
    } else {
      SegParents(L, At(L.next, ms[0].node), tail, par, ms[1..], x, p);
    }
  }

  /** Pointer surgery leaves the `parent` of each node at its place. */
  method FinalizeAndPlace(t: Tree, top: Node, ghost kids: seq<Menu>)
    requires Seg(t.Now(), Some(top), None, None, [Menu(top, kids)]) && Unique([Menu(top, kids)])
    requires InfoOk(t.I) && SymsAreLeaves(t.I, [Menu(top, kids)]) && !t.I.isSym(top)
    modifies t
    ensures forall x: Node, p: Node :: Place(t.I, kids, top, x, p) ==> At(t.Now().parent, x) == Some(p)
  {
    ghost var parsed := [Menu(top, kids)];
    ghost var done := FinalizeHead(t.I, parsed);
    t.FinalizeNode(top, None, parsed);
    assert parsed[1..] == [] && done == [Menu(top, done[0].kids)];
    forall x: Node, p: Node | Place(t.I, kids, top, x, p) ensures At(t.Now().parent, x) == Some(p) {
      FinalizedPlaces(t.I, Menu(top, kids), x, p);
      SegParents(t.Now(), At(t.Now().list, top), None, top, done[0].kids, x, p);
    }
  }
}
