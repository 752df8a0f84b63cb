/** What single handlers of menuconfig do: where the selection goes, and how the text around the cursor changes. */
module NavMeaning {
  import opened Wrappers
  import opened MenuNav
  import EditBox

  // The list

  /** End and Home go where pressing Down and Up often enough leads, and End shows as many entries as fit. */
  lemma EndAndHome(v: State, n: nat)
    requires InWindow(v) && n >= |v.shown|
    ensures Press(v, End).Some? && Press(v, End).value.sel == NextTimes(v, n).sel == |v.shown| - 1
    ensures Press(v, Home).Some? && Press(v, Home).value.sel == PrevTimes(v, n).sel == 0
    ensures
      var scroll := Press(v, End).value.scroll;
      if |v.shown| <= v.height then scroll == 0 else scroll + v.height == |v.shown|
    ensures Press(v, Home).value.scroll == 0
  {
    TimesInWindow(v, n);
  }

  /** The selected entry is SCROLL_OFFSET rows away from the edges of the window, as far as the list goes on there. */
  predicate Roomy(v: State) {
    && (v.scroll == 0 || v.sel - v.scroll >= SCROLL_OFFSET)
    && (v.scroll >= MaxScroll(v.shown, v.height) || v.scroll + v.height - v.sel > SCROLL_OFFSET)
  }

  /** Up and Down keep it so if the window has room for that, and move by one entry. */
  lemma MovesKeepRoom(v: State)
    requires InWindow(v) && v.height > 2 * SCROLL_OFFSET && Roomy(v)
    ensures Roomy(Next(v)) && Roomy(Prev(v))
    ensures Next(v).scroll - v.scroll in {0, 1} && v.scroll - Prev(v).scroll in {0, 1}
  {
  }

  /** Centring puts the entry in the middle unless the list begins or ends before that. */
  lemma CenteredRow(v: State)
    requires InWindow(v)
    ensures
      var scroll := Centered(v).scroll;
      && 0 <= scroll <= MaxScroll(v.shown, v.height)
      && (v.sel - scroll < v.height / 2 ==> scroll == 0)
      && (v.sel - scroll > v.height / 2 ==> scroll == MaxScroll(v.shown, v.height))
  {
  }

  /** The cursor goes to the first of the nodes that is in the list; it stays if none is. */
  lemma {:induction false} FirstShownMeans(v: State, nodes: seq<Node>, k: nat)
    requires k <= |nodes| && forall j :: 0 <= j < k ==> nodes[j] !in v.shown
    requires k < |nodes| ==> nodes[k] in v.shown
    ensures k == |nodes| ==> OnFirstShown(v, nodes) == v
    ensures k < |nodes| ==> SameMenu(v, OnFirstShown(v, nodes)) && HasSel(OnFirstShown(v, nodes))
    ensures k < |nodes| ==> v.shown[OnFirstShown(v, nodes).sel] == nodes[k]
  {
    if k > 0 { FirstShownMeans(v, nodes[1..], k - 1); }
  }

  /** Entering a menu shows its entries, with the cursor on the first shown node of the selected symbol or on the first entry. */
  lemma EnteredMenu(v: State, menu: Node, k: nat)
    requires InWindow(v) && Enter(v, menu).1
    requires
      var chosen := v.world.chosen(menu);
      k <= |chosen| && (forall j :: 0 <= j < k ==> chosen[j] !in v.world.lists(menu, v.showAll)) &&
      (k < |chosen| ==> chosen[k] in v.world.lists(menu, v.showAll))
    ensures
      var v' := Enter(v, menu).0;
      && v'.menu == menu && v'.shown == v.world.lists(menu, v.showAll) && v'.rows == v.rows + [v.sel - v.scroll] && HasSel(v')
      && if k < |v.world.chosen(menu)| then v'.shown[v'.sel] == v.world.chosen(menu)[k] else v'.sel == 0
  {
    var shown := v.world.lists(menu, v.showAll);
    var v' := v.(rows := v.rows + [v.sel - v.scroll], menu := menu, shown := shown, sel := 0, scroll := 0);
    FirstShownMeans(v', v.world.chosen(menu), k);
  }

  lemma {:induction false} LastInMeans(list: seq<Node>, among: seq<Node>, p: int)
    requires -1 <= p < |list| && forall q :: p < q < |list| ==> list[q] !in among
    requires p >= 0 ==> list[p] in among
    ensures LastIn(list, among) == if p >= 0 then IndexOf(among, list[p]) else None
    decreases |list|
  {
    if p < |list| - 1 { LastInMeans(list[..|list| - 1], among, p); }
  }

  lemma {:induction false} FirstInMeans(list: seq<Node>, among: seq<Node>, p: nat)
    requires p <= |list| && forall q :: 0 <= q < p ==> list[q] !in among
    requires p < |list| ==> list[p] in among
    ensures FirstIn(list, among) == if p < |list| then IndexOf(among, list[p]) else None
    decreases |list|
  {
    if p > 0 { FirstInMeans(list[1..], among, p - 1); }
  }

  /** With another list the last entry up to the selected one that is in it becomes selected, or else the first one after it. */
  lemma ClosestMeans(shown: seq<Node>, sel: nat, among: seq<Node>, p: int, r: nat)
    requires sel < |shown| && -1 <= p <= sel < r <= |shown|
    requires (forall q :: p < q <= sel ==> shown[q] !in among) && (p >= 0 ==> shown[p] in among)
    requires (forall q :: sel < q < r ==> shown[q] !in among) && (r < |shown| ==> shown[r] in among)
    ensures Closest(shown, sel, among) ==
      if p >= 0 then IndexOf(among, shown[p]) else if r < |shown| then IndexOf(among, shown[r]) else None
  {
    var before, after := shown[..sel + 1], shown[sel + 1..];
    LastInMeans(before, among, p);
    FirstInMeans(after, among, r - (sel + 1));
  }

  /** Changing values keeps the selected node, in its row if the list is long enough above it. */
  lemma UpdateKeepsNode(v: State, world: World)
    requires InWindow(v) && Update(v, world).Some?
    ensures
      var v' := Update(v, world).value;
      && v'.shown == world.lists(v.menu, v.showAll) && HasSel(v') && v'.shown[v'.sel] == v.shown[v.sel]
      && (v'.sel - v'.scroll == v.sel - v.scroll || (v'.scroll == 0 && v'.sel < v.sel - v.scroll))
    ensures Update(v, world).value.menu == v.menu && Update(v, world).value.rows == v.rows
  {
  }

  /** Jumping to a node that is not entered shows the menu it is in, with the node selected, and forgets the rows. */
  lemma JumpShowsNode(v: State, node: Node)
    requires InWindow(v) && Jump(v, node).Some? && v.world.firstChild(node).None?
    ensures
      var v' := Jump(v, node).value;
      && v'.menu == v.world.parent(node) && v'.rows == [] && HasSel(v') && v'.shown[v'.sel] == node
      && v'.shown == v.world.lists(v'.menu, v'.showAll)
      && (v'.showAll <==> v.showAll || node !in v.world.lists(v'.menu, false))
  {
  }

  /** Jumping into a menu or choice shows its entries, with the cursor in the list, and forgets the rows. */
  lemma JumpIntoMenu(v: State, node: Node)
    requires InWindow(v) && Jump(v, node).Some? && v.world.firstChild(node).Some?
    ensures
      var v' := Jump(v, node).value;
      v'.menu == node && v'.rows == [] && HasSel(v') && v'.shown == v.world.lists(node, v'.showAll)
  {
    JumpInWindow(v, node);
    var v' := Located(v, node, v.world.firstChild(node).value).value;
    var v'' := if !v.showAll && v'.showAll then ToggleAll(v') else v';
    OnFirstShownSameMenu(Centered(v''), v.world.chosen(node));
  }

  /** A resize leaves three rows besides the menu and the help, and scrolls only as far as the selected entry needs. */
  lemma ResizeKeepsNode(v: State, screenHeight: int, helpHeight: int)
    requires InWindow(v)
    ensures
      var v' := Resize(v, screenHeight, helpHeight);
      && v' == v.(height := v'.height, scroll := v'.scroll)
      && (v'.height + helpHeight + 3 == screenHeight || (v'.height == 1 && screenHeight - helpHeight < 4))
      && (if v.sel < v.scroll + v'.height then v'.scroll == v.scroll else v'.scroll + v'.height - 1 == v.sel)
  {
  }

  // The edit box

  /** The text before and behind the cursor. */
  datatype Zipper = Zipper(before: string, behind: string)

  function Around(e: EditBox.Edit): Zipper
    requires EditBox.CursorOk(e)
  {
    Zipper(e.s[..e.i], e.s[e.i..])
  }

  /** The editing commands on the text before and behind the cursor. */
  function OnZipper(key: EditBox.Key, z: Zipper): Zipper {
    var x, y := z.before, z.behind;
    match key
    case Left => if x == "" then z else Zipper(x[..|x| - 1], [x[|x| - 1]] + y)
    case Right => if y == "" then z else Zipper(x + [y[0]], y[1..])
    case Home => Zipper("", x + y)
    case End => Zipper(x + y, "")
    case Backspace => Zipper(if x == "" then "" else x[..|x| - 1], y)
    case Delete => Zipper(x, if y == "" then "" else y[1..])
    case EraseWord => Zipper(x[..EditBox.WordStart(x)], y)
    case EraseRight => Zipper(x, "")
    case EraseLeft => Zipper("", y)
    case Insert(c) => Zipper(x + [c], y)
    case Other => z
  }

  lemma Cut(s: string, i: nat, x: string, y: string)
    requires s == x + y && i == |x|
    ensures s[..i] == x && s[i..] == y
  {
  }

  lemma MovesAtCursor(key: EditBox.Key, e: EditBox.Edit)
    requires EditBox.CursorOk(e) && (key.Left? || key.Right? || key.Home? || key.End?)
    ensures Around(EditBox.Edited(key, e)) == OnZipper(key, Around(e))
  {
    var x, y := e.s[..e.i], e.s[e.i..];
    assert e.s == x + y;
    match key {
      case Left => if e.i > 0 { Cut(e.s, e.i - 1, x[..|x| - 1], [x[|x| - 1]] + y); }
      case Right => if y != "" { Cut(e.s, e.i + 1, x + [y[0]], y[1..]); }
      case _ =>
    }
  }

  lemma ErasesAtCursor(key: EditBox.Key, e: EditBox.Edit)
    requires EditBox.CursorOk(e) && !(key.Left? || key.Right? || key.Home? || key.End?)
    ensures Around(EditBox.Edited(key, e)) == OnZipper(key, Around(e))
  {
    hide EditBox.WordStart;
    var x, y := e.s[..e.i], e.s[e.i..];
    var e' := EditBox.Edited(key, e);
    match key {
      case Backspace => if e.i > 0 { Cut(e'.s, e.i - 1, x[..|x| - 1], y); }
      case Delete => Cut(e'.s, e.i, x, if y == "" then "" else y[1..]);
      case EraseWord => Cut(e'.s, EditBox.WordStart(x), x[..EditBox.WordStart(x)], y);
      case Insert(c) => Cut(e'.s, e.i + 1, x + [c], y);
      case _ =>
    }
  }

  /** Editing by indices does the same as editing the two texts at the cursor. */
  lemma EditsAtCursor(key: EditBox.Key, e: EditBox.Edit)
    requires EditBox.CursorOk(e)
    ensures EditBox.CursorOk(EditBox.Edited(key, e)) && Around(EditBox.Edited(key, e)) == OnZipper(key, Around(e))
  {
    EditBox.EditKeepsCursor(key, e);
    hide Around, OnZipper, EditBox.Edited;
    if key.Left? || key.Right? || key.Home? || key.End? { MovesAtCursor(key, e); } else { ErasesAtCursor(key, e); }
  }
}
