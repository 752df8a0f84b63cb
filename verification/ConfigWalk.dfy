/** _config_contents() on the links of the menu tree: the walk that also says when menus are left. */
module ConfigWalk {
  import opened Wrappers
  import opened Config
  import opened Values
  import opened Meaning
  import opened MenuTree
  import opened MenuLinks
  import opened MenuWalk
  import opened Engine
  import opened ConfigFile
  import opened Writers
  import opened RoundTrip

  datatype Event = Visit(n: Node) | Leave(n: Node)

  /** The nodes in pre-order, each with children left after its children. */
  function Events(ms: seq<Menu>): seq<Event> {
    if ms == [] then []
    else [Visit(ms[0].node)] + Inner(ms[0]) + Events(ms[1..])
  }

  function Inner(m: Menu): seq<Event> {
    if m.kids == [] then [] else Events(m.kids) + [Leave(m.node)]
  }

  /** What the nodes write when they are met and when they are left: symbols, menus and comments do, choices do not. */
  datatype Texts = Texts(entry: Node -> Option<Entry>, end: Node -> Option<Entry>)

  ghost predicate TextsOk(K: Config, X: Texts) {
    forall n ::
      (X.entry(n).Some? ==> EntryOk(K, X.entry(n).value)) && (X.end(n).Some? ==> EntryOk(K, X.end(n).value))
  }

  function EntryOf(X: Texts, e: Event): Option<Entry> {
    match e
    case Visit(n) => X.entry(n)
    case Leave(n) => X.end(n)
  }

  function Entries(X: Texts, es: seq<Event>): (r: seq<Entry>)
    ensures forall e :: e in es && EntryOf(X, e).Some? ==> EntryOf(X, e).value in r
  {
    if es == [] then []
    else (match EntryOf(X, es[0]) case None => [] case Some(e) => [e]) + Entries(X, es[1..])
  }

  lemma {:induction false} EntriesOk(K: Config, X: Texts, es: seq<Event>)
    requires TextsOk(K, X)
    ensures WalkOk(K, Entries(X, es))
  {
    if es == [] {
    } else {
      EntriesOk(K, X, es[1..]);
    }
  }

  lemma EntriesCons(X: Texts, e: Event, es: seq<Event>)
    ensures Entries(X, [e] + es) == (match EntryOf(X, e) case None => [] case Some(x) => [x]) + Entries(X, es)
  {
    assert ([e] + es)[1..] == es;
  }

  // What is still to come

  /** After the current node, its children and the siblings after it. */
  function Later(path: Path): seq<Event> {
    if path == [] || path[0] == [] then []
    else
      Events(path[0][1..]) + (if |path| > 1 && path[1] != [] then [Leave(path[1][0].node)] + Later(path[1..]) else [])
  }

  function ToCome(path: Path): seq<Event> {
    if path == [] || path[0] == [] then [] else Inner(path[0][0]) + Later(path)
  }

  /** Going to the first of some siblings. */
  lemma ToComeCons(ms: seq<Menu>, path: Path)
    requires ms != []
    ensures [Visit(ms[0].node)] + ToCome([ms] + path) ==
      Events(ms) + if path != [] && path[0] != [] then [Leave(path[0][0].node)] + Later(path) else []
  {
    var all := [ms] + path;
    assert all[1..] == path && all[0] == ms && (|all| > 1 ==> all[1] == path[0]);
    var up := if path != [] && path[0] != [] then [Leave(path[0][0].node)] + Later(path) else [];
    assert Later(all) == Events(ms[1..]) + up;
    assert ToCome(all) == Inner(ms[0]) + (Events(ms[1..]) + up);
  }

  lemma Down(L: Links, path: Path)
    requires path != [] && OnPath(L, path) && path[0] != [] && path[0][0].node in L.list
    ensures var kids := path[0][0].kids;
      && kids != [] && L.list[path[0][0].node] == kids[0].node && OnPath(L, [kids] + path)
      && ToCome(path) == [Visit(kids[0].node)] + ToCome([kids] + path)
  {
    GoDown(L, path);
    hide OnPath, Events;
    ToComeCons(path[0][0].kids, path);
  }

  lemma On(L: Links, path: Path)
    requires path != [] && OnPath(L, path) && path[0] != [] && path[0][0].node in L.next
    ensures var rest := path[0][1..];
      && rest != [] && L.next[path[0][0].node] == rest[0].node && OnPath(L, [rest] + path[1..])
      && Later(path) == [Visit(rest[0].node)] + ToCome([rest] + path[1..])
  {
    GoOn(L, path);
    hide OnPath, Events;
    ToComeCons(path[0][1..], path[1..]);
  }

  lemma Out(L: Links, path: Path)
    requires path != [] && OnPath(L, path) && path[0] != [] && path[0][0].node !in L.next
    ensures At(L.parent, path[0][0].node) == ParentOn(path) && OnPath(L, path[1..])
    ensures |path| > 1 ==> path[1] != [] && path[1..][0] == path[1] && Later(path) == [Leave(path[1][0].node)] + Later(path[1..])
    ensures |path| == 1 ==> Later(path) == []
  {
    GoUp(L, path);
    Current(L, path);
    assert path[0][1..] == [];
  }

  lemma NoInner(L: Links, path: Path)
    requires path != [] && OnPath(L, path) && path[0] != [] && path[0][0].node !in L.list
    ensures ToCome(path) == Later(path)
  {
    Current(L, path);
  }

  // The writer

  /** What is written so far: the entries of the events that are past. */
  ghost predicate Wrote(
    k: Kconfig, prefix: string, header: seq<string>, X: Texts, m: Cache, past: seq<Entry>, w: Writer)
    requires k.Valid()
    reads k
  {
    WalkOk(k.K, past) && w == Contents(k.K, prefix, header, k.users, m, past)
  }

  /** The text of one node, or of leaving it. */
  method WriteEvent(
    k: Kconfig, prefix: string, ghost header: seq<string>, X: Texts, e: Event, w: Writer, ghost m: Cache,
    ghost past: seq<Entry>)
    returns (w': Writer, ghost past': seq<Entry>)
    requires k.Valid() && Solves(k.K, k.users, m) && TextsOk(k.K, X) && Wrote(k, prefix, header, X, m, past, w)
    modifies k`cache
    ensures k.Valid() && Wrote(k, prefix, header, X, m, past', w')
    ensures past' == past + match EntryOf(X, e) case None => [] case Some(x) => [x]
  {
    var entry := EntryOf(X, e);
    if entry.None? {
      assert past + [] == past;
      return w, past;
    }
    assert EntryOk(k.K, entry.value);
    past' := past + [entry.value];
    assert past'[..|past'| - 1] == past;
    hide Solves, Contents;
    var lines, visited, afterEnd := WriteNode(k, prefix, entry.value, w.lines, w.visited, w.afterEnd, m);
    w' := Writer(lines, visited, afterEnd);
    assert Contents(k.K, prefix, header, k.users, m, past') == w' by {
      ContentsSnoc(k.K, prefix, header, k.users, m, past, entry.value);
    }
  }

  lemma ContentsSnoc(K: Config, prefix: string, header: seq<string>, U: Users, m: Cache, past: seq<Entry>, e: Entry)
    requires ConfigOk(K) && WalkOk(K, past) && EntryOk(K, e)
    ensures WalkOk(K, past + [e])
    ensures Contents(K, prefix, header, U, m, past + [e]) ==
      WriteEntry(K, prefix, U, m, Contents(K, prefix, header, U, m, past), e)
  {
    assert (past + [e])[..|past|] == past;
  }

  /** Up to the next node that has a sibling after it, with the texts for leaving menus on the way. */
  method GoOut(
    k: Kconfig, prefix: string, ghost header: seq<string>, L: Links, X: Texts, node: Node, w: Writer, ghost m: Cache,
    ghost past: seq<Entry>, ghost path: Path, ghost total: seq<Entry>)
    returns (r: Node, done: bool, w': Writer, ghost past': seq<Entry>, ghost path': Path)
    requires k.Valid() && Solves(k.K, k.users, m) && TextsOk(k.K, X) && Wrote(k, prefix, header, X, m, past, w)
    requires path != [] && path[0] != [] && OnPath(L, path) && path[0][0].node == node && node !in L.next
    requires past + Entries(X, Later(path)) == total
    modifies k`cache
    ensures k.Valid() && Wrote(k, prefix, header, X, m, past', w')
    ensures done ==> past' == total
    ensures !done ==> path' != [] && path'[0] != [] && OnPath(L, path') && path'[0][0].node == r
    ensures !done ==> past' + Entries(X, [Visit(r)] + ToCome(path')) == total && |ToCome(path')| < |Later(path)|
  {
    hide OnPath, Solves, TextsOk, Wrote, Entries, Later, ToCome;
    r, w', past', path' := node, w, past, path;
    while r in L.parent
      invariant k.Valid() && Wrote(k, prefix, header, X, m, past', w')
      invariant path' != [] && path'[0] != [] && OnPath(L, path') && path'[0][0].node == r && r !in L.next
      invariant past' + Entries(X, Later(path')) == total && |Later(path')| <= |Later(path)|
      decreases |path'|
    {
      Out(L, path');
      r := L.parent[r];
      EntriesCons(X, Leave(r), Later(path'[1..]));
      w', past' := WriteEvent(k, prefix, header, X, Leave(r), w', m, past');
      path' := path'[1..];
      if r in L.next {
        On(L, path');
        r, path' := L.next[r], [path'[0][1..]] + path'[1..];
        return r, false, w', past', path';
      }
    }
    Out(L, path');
    NoEntries(X);
    done := true;
  }

  /** One step of the walk. */
  method GoNext(
    k: Kconfig, prefix: string, ghost header: seq<string>, L: Links, X: Texts, node: Node, w: Writer, ghost m: Cache,
    ghost past: seq<Entry>, ghost path: Path, ghost total: seq<Entry>)
    returns (r: Node, done: bool, w': Writer, ghost past': seq<Entry>, ghost path': Path)
    requires k.Valid() && Solves(k.K, k.users, m) && TextsOk(k.K, X) && Wrote(k, prefix, header, X, m, past, w)
    requires path != [] && path[0] != [] && OnPath(L, path) && path[0][0].node == node
    requires past + Entries(X, ToCome(path)) == total
    modifies k`cache
    ensures k.Valid() && Wrote(k, prefix, header, X, m, past', w')
    ensures done ==> past' == total
    ensures !done ==> path' != [] && path'[0] != [] && OnPath(L, path') && path'[0][0].node == r
    ensures !done ==> past' + Entries(X, [Visit(r)] + ToCome(path')) == total && |ToCome(path')| < |ToCome(path)|
  {
    hide OnPath, Solves, TextsOk, Wrote, Entries, Later, ToCome;
    if node in L.list {
      Down(L, path);
      return L.list[node], false, w, past, [path[0][0].kids] + path;
    }
    NoInner(L, path);
    if node in L.next {
      On(L, path);
      return L.next[node], false, w, past, [path[0][1..]] + path[1..];
    }
    r, done, w', past', path' := GoOut(k, prefix, header, L, X, node, w, m, past, path, total);
  }

  /** One round of the loop of _config_contents(): to the next node, and its text. */
  method WriteNext(
    k: Kconfig, prefix: string, ghost header: seq<string>, L: Links, X: Texts, node: Node, w: Writer, ghost m: Cache,
    ghost past: seq<Entry>, ghost path: Path, ghost total: seq<Entry>)
    returns (r: Node, done: bool, w': Writer, ghost past': seq<Entry>, ghost path': Path)
    requires k.Valid() && Solves(k.K, k.users, m) && TextsOk(k.K, X) && Wrote(k, prefix, header, X, m, past, w)
    requires path != [] && path[0] != [] && OnPath(L, path) && path[0][0].node == node
    requires past + Entries(X, ToCome(path)) == total
    modifies k`cache
    ensures k.Valid() && Wrote(k, prefix, header, X, m, past', w')
    ensures done ==> past' == total
    ensures !done ==> path' != [] && path'[0] != [] && OnPath(L, path') && path'[0][0].node == r
    ensures !done ==> past' + Entries(X, ToCome(path')) == total && |ToCome(path')| < |ToCome(path)|
  {
    hide OnPath, Solves, TextsOk, Wrote, Entries, ToCome;
    r, done, w', past', path' := GoNext(k, prefix, header, L, X, node, w, m, past, path, total);
    if done {
      return;
    }
    EntriesCons(X, Visit(r), ToCome(path'));
    w', past' := WriteEvent(k, prefix, header, X, Visit(r), w', m, past');
  }

  lemma NoEntries(X: Texts)
    ensures Entries(X, []) == []
  {
  }

  /** All that the walk below top meets and leaves. */
  function Walk(X: Texts, top: Node, kids: seq<Menu>): seq<Entry> { Entries(X, Inner(Menu(top, kids))) }

  lemma StartWalk(L: Links, X: Texts, top: Node, kids: seq<Menu>) returns (path: Path)
    requires Seg(L, Some(top), None, None, [Menu(top, kids)])
    ensures path != [] && path[0] != [] && path[0][0].node == top && OnPath(L, path)
    ensures [] + Entries(X, ToCome(path)) == Walk(X, top, kids)
  {
    path := Start(L, top, kids);
    path := [[Menu(top, kids)]];
    assert path[0][1..] == [] && path[1..] == [] && Later(path) == [];
    assert ToCome(path) == Inner(Menu(top, kids));
  }

  lemma WalkIsOk(K: Config, X: Texts, top: Node, kids: seq<Menu>)
    requires TextsOk(K, X)
    ensures WalkOk(K, Walk(X, top, kids))
  {
    EntriesOk(K, X, Inner(Menu(top, kids)));
  }

  lemma WroteNothing(k: Kconfig, prefix: string, header: seq<string>, X: Texts, m: Cache)
    requires k.Valid()
    ensures Wrote(k, prefix, header, X, m, [], Writer(header, {}, false))
  {
  }

  lemma WroteAll(k: Kconfig, prefix: string, header: seq<string>, X: Texts, m: Cache, past: seq<Entry>, w: Writer)
    requires k.Valid() && Wrote(k, prefix, header, X, m, past, w)
    ensures WalkOk(k.K, past) && w.lines == Contents(k.K, prefix, header, k.users, m, past).lines
  {
  }

  /** _config_contents() */
  method ConfigContents(
    k: Kconfig, prefix: string, header: seq<string>, L: Links, top: Node, X: Texts, ghost kids: seq<Menu>, ghost m: Cache)
    returns (lines: seq<string>)
    requires k.Valid() && Solves(k.K, k.users, m) && TextsOk(k.K, X) && Seg(L, Some(top), None, None, [Menu(top, kids)])
    modifies k`cache
    ensures k.Valid() && WalkOk(k.K, Walk(X, top, kids))
    ensures lines == Contents(k.K, prefix, header, k.users, m, Walk(X, top, kids)).lines
  {
    hide OnPath, Seg, Solves, TextsOk, Wrote, Entries, Later, ToCome, Walk, Contents, WalkOk;
    var node, w := top, Writer(header, {}, false);
    ghost var total := Walk(X, top, kids);
    ghost var past: seq<Entry> := [];
    ghost var path: Path := StartWalk(L, X, top, kids);
    WalkIsOk(k.K, X, top, kids);
    WroteNothing(k, prefix, header, X, m);
    while true
      invariant k.Valid() && Wrote(k, prefix, header, X, m, past, w)
      invariant path != [] && path[0] != [] && OnPath(L, path) && path[0][0].node == node
      invariant past + Entries(X, ToCome(path)) == total
      decreases |ToCome(path)|
    {
      var done;
      node, done, w, past, path := WriteNext(k, prefix, header, L, X, node, w, m, past, path, total);
      if done {
        WroteAll(k, prefix, header, X, m, past, w);
        return w.lines;
      }
    }
  }

  // The walk covers all symbols

  lemma {:induction false} EventsVisit(ms: seq<Menu>, n: Node)
    requires n in Preorder(ms)
    ensures Visit(n) in Events(ms)
  {
    if n == ms[0].node {
    } else if n in Preorder(ms[0].kids) {
      EventsVisit(ms[0].kids, n);
    } else {
      EventsVisit(ms[1..], n);
    }
  }

  /** Each defined symbol has a node in the tree as it was parsed. */
  ghost predicate HasNodes(K: Config, X: Texts, I: Info, kids: seq<Menu>) {
    forall s :: s in K.definedSyms ==> exists n :: n in Preorder(kids) && !I.isIf(n) && X.entry(n) == Some(SymNode(s))
  }

  /** The walk over the finalized tree meets every defined symbol. */
  lemma WalkCovers(K: Config, X: Texts, I: Info, top: Node, kids: seq<Menu>)
    requires InfoOk(I) && SymsAreLeaves(I, [Menu(top, kids)]) && !I.isSym(top) && HasNodes(K, X, I, kids)
    ensures Covers(K, Walk(X, top, FinalizeHead(I, [Menu(top, kids)])[0].kids))
  {
    var final := FinalizeHead(I, [Menu(top, kids)])[0];
    FinalizedOrder(I, Menu(top, kids));
    forall s | s in K.definedSyms ensures SymNode(s) in Walk(X, top, final.kids) {
      var n :| n in Preorder(kids) && !I.isIf(n) && X.entry(n) == Some(SymNode(s));
      NonIfsKeep(I, Preorder(kids), n);
      EventsVisit(final.kids, n);
      assert EntryOf(X, Visit(n)) == Some(SymNode(s));
    }
  }

  lemma {:induction false} NonIfsKeep(I: Info, nodes: seq<Node>, n: Node)
    requires n in nodes && !I.isIf(n)
    ensures n in NonIfs(I, nodes)
  {
    if n == nodes[0] {
    } else {
      NonIfsKeep(I, nodes[1..], n);
    }
  }

  /** A parsed tree is finalized, and the configuration written from it contains every defined symbol. */
  method FinalizeAndWrite(
    k: Kconfig, prefix: string, header: seq<string>, t: Tree, top: Node, X: Texts, ghost kids: seq<Menu>, ghost m: Cache)
    returns (lines: seq<string>, ghost walk: seq<Entry>)
    requires k.Valid() && Solves(k.K, k.users, m) && TextsOk(k.K, X) && HasNodes(k.K, X, t.I, kids)
    requires Seg(t.Now(), Some(top), None, None, [Menu(top, kids)]) && Unique([Menu(top, kids)])
    requires InfoOk(t.I) && SymsAreLeaves(t.I, [Menu(top, kids)]) && !t.I.isSym(top)
    modifies t, k`cache
    ensures k.Valid() && WalkOk(k.K, walk) && Covers(k.K, walk)
    ensures lines == Contents(k.K, prefix, header, k.users, m, walk).lines
  {
    ghost var parsed := [Menu(top, kids)];
    ghost var done := FinalizeHead(t.I, parsed);
    t.FinalizeNode(top, None, parsed);
    FinalizedOrder(t.I, Menu(top, kids));
    assert parsed[1..] == [] && done == [Menu(top, done[0].kids)];
    WalkCovers(k.K, X, t.I, top, kids);
    walk := Walk(X, top, done[0].kids);
    hide Solves, TextsOk, HasNodes, Seg, Contents, Covers, Walk;
    lines := ConfigContents(k, prefix, header, t.Now(), top, X, done[0].kids, m);
  }

  // What the order of the events means

  function Visits(es: seq<Event>): seq<Node> {
    if es == [] then [] else (if es[0].Visit? then [es[0].n] else []) + Visits(es[1..])
  }

  lemma {:induction false} VisitsAppend(a: seq<Event>, b: seq<Event>)
    ensures Visits(a + b) == Visits(a) + Visits(b)
  {
    if a == [] {
      assert a + b == b;
    } else {
      var rest := a[1..] + b;
      assert (a + b)[1..] == rest && (a + b)[0] == a[0];
      VisitsAppend(a[1..], b);
      var first := if a[0].Visit? then [a[0].n] else [];
      assert Visits(a + b) == first + Visits(rest) && Visits(a) == first + Visits(a[1..]);
      assert first + (Visits(a[1..]) + Visits(b)) == (first + Visits(a[1..])) + Visits(b);
    }
  }

  /** The nodes are met in pre-order. */
  lemma {:induction false} VisitsInOrder(ms: seq<Menu>)
    ensures Visits(Events(ms)) == Preorder(ms)
  {
    if ms == [] {
    } else {
      var n, kids := ms[0].node, ms[0].kids;
      VisitsInOrder(kids);
      VisitsInOrder(ms[1..]);
      assert [Leave(n)][1..] == [] && [Visit(n)][1..] == [];
      VisitsAppend([Visit(n)] + Inner(ms[0]), Events(ms[1..]));
      VisitsAppend([Visit(n)], Inner(ms[0]));
      VisitsAppend(Events(kids), [Leave(n)]);
    }
  }

  /** m is one of the menus or somewhere below one. */
  predicate Within(m: Menu, ms: seq<Menu>) {
    ms != [] && (m == ms[0] || Within(m, ms[0].kids) || Within(m, ms[1..]))
  }

  /** A node is left directly behind everything that is met below it, and not at all if it has no children. */
  lemma {:induction false} LeftBehindKids(ms: seq<Menu>, m: Menu) returns (a: seq<Event>, b: seq<Event>)
    requires Within(m, ms)
    ensures Events(ms) == a + ([Visit(m.node)] + Events(m.kids) + (if m.kids == [] then [] else [Leave(m.node)])) + b
  {
    var first, rest := ms[0], Events(ms[1..]);
    var block := [Visit(m.node)] + Events(m.kids) + (if m.kids == [] then [] else [Leave(m.node)]);
    if m == first {
      a, b := [], rest;
      assert [] + block + rest == block + rest;
      assert Events(ms) == block + rest;
    } else if Within(m, first.kids) {
      a, b := LeftBehindKids(first.kids, m);
      assert Events(ms) == [Visit(first.node)] + (a + block + b + [Leave(first.node)]) + rest;
      Regroup([Visit(first.node)], a, block, b, [Leave(first.node)], rest);
      a, b := [Visit(first.node)] + a, b + [Leave(first.node)] + rest;
    } else {
      a, b := LeftBehindKids(ms[1..], m);
      var head := [Visit(first.node)] + Inner(first);
      assert Events(ms) == head + (a + block + b);
      assert head + (a + block + b) == (head + a) + block + b;
      a := head + a;
    }
  }

  lemma Regroup<T>(v: seq<T>, a: seq<T>, x: seq<T>, b: seq<T>, l: seq<T>, rest: seq<T>)
    ensures v + (a + x + b + l) + rest == (v + a) + x + (b + l + rest)
  {
    var whole := a + x + b + l;
    assert v + whole + rest == v + (whole + rest);
    assert whole + rest == a + (x + (b + l + rest));
    assert v + (a + (x + (b + l + rest))) == (v + a) + (x + (b + l + rest));
  }
}
