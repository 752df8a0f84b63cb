/**
 * The navigation state of menuconfig: which menu is shown, which entry is selected,
 * and how far the list is scrolled.
 */
module MenuNav {
  import opened Wrappers

  const SCROLL_OFFSET := 5
  const PG_JUMP := 6

  type Node = nat

  /**
   * What navigation asks of the configuration: the entries of a menu, with and without
   * show-all, the menu around a node, the menus, the nodes of the selected symbol of a
   * choice, and the first child of a menu or choice that is jumped into.
   */
  datatype World = World(
    top: Node,
    lists: (Node, bool) -> seq<Node>,
    parent: Node -> Node,
    isMenu: Node -> bool,
    chosen: Node -> seq<Node>,
    firstChild: Node -> Option<Node>)

  datatype State = State(
    world: World,
    menu: Node,
    shown: seq<Node>,
    sel: int,
    scroll: int,
    showAll: bool,
    rows: seq<int>,
    height: int)

  function Max(a: int, b: int): int { if a < b then b else a }

  function Min(a: int, b: int): int { if b < a then b else a }

  function MaxScroll(shown: seq<Node>, height: int): int { Max(0, |shown| - height) }

  function IndexOf(list: seq<Node>, n: Node): (r: Option<nat>)
    ensures r.Some? <==> n in list
    ensures r.Some? ==> r.value < |list| && list[r.value] == n && n !in list[..r.value]
  {
    if list == [] then None
    else if list[0] == n then Some(0)
    else
      var i :- IndexOf(list[1..], n);
      assert list[..i + 1] == [list[0]] + list[1..][..i];
      Some(i + 1)
  }

  // The handlers; None is an exception

  function Next(v: State): State {
    if v.sel < |v.shown| - 1 then
      var sel := v.sel + 1;
      v.(sel := sel,
         scroll := if sel >= v.scroll + v.height - SCROLL_OFFSET && v.scroll < MaxScroll(v.shown, v.height)
                   then v.scroll + 1 else v.scroll)
    else v
  }

  function Prev(v: State): State {
    if v.sel > 0 then
      var sel := v.sel - 1;
      v.(sel := sel, scroll := if sel < v.scroll + SCROLL_OFFSET then Max(v.scroll - 1, 0) else v.scroll)
    else v
  }

  function NextTimes(v: State, n: nat): State {
    if n == 0 then v else Next(NextTimes(v, n - 1))
  }

  function PrevTimes(v: State, n: nat): State {
    if n == 0 then v else Prev(PrevTimes(v, n - 1))
  }

  function Last(v: State): State {
    v.(sel := |v.shown| - 1, scroll := MaxScroll(v.shown, v.height))
  }

  function First(v: State): State {
    v.(sel := 0, scroll := 0)
  }

  function Centered(v: State): State {
    v.(scroll := Min(Max(v.sel - v.height / 2, 0), MaxScroll(v.shown, v.height)))
  }

  /** Puts the cursor on the first of the nodes that is shown. */
  function OnFirstShown(v: State, nodes: seq<Node>): State {
    if nodes == [] then v
    else match IndexOf(v.shown, nodes[0])
      case Some(i) => Centered(v.(sel := i))
      case None => OnFirstShown(v, nodes[1..])
  }

  function Enter(v: State, menu: Node): (State, bool) {
    var shown := v.world.lists(menu, v.showAll);
    if !v.world.isMenu(menu) || shown == [] then (v, false)
    else
      var v' := v.(rows := v.rows + [v.sel - v.scroll], menu := menu, shown := shown, sel := 0, scroll := 0);
      (OnFirstShown(v', v.world.chosen(menu)), true)
  }

  function Leave(v: State): Option<State> {
    if v.menu == v.world.top then Some(v)
    else
      var parent := v.world.parent(v.menu);
      var shown := v.world.lists(parent, v.showAll);
      var sel :- IndexOf(shown, v.menu);
      var v' := v.(menu := parent, shown := shown, sel := sel);
      if v.rows != [] then
        var row := Min(v.rows[|v.rows| - 1], v.height - 1);
        Some(v'.(rows := v.rows[..|v.rows| - 1], scroll := Max(sel - row, 0)))
      else Some(Centered(v'))
  }

  /** The last node of the list that is in `among`, as an index in `among`. */
  function LastIn(list: seq<Node>, among: seq<Node>): (r: Option<nat>)
    ensures r.Some? ==> r.value < |among|
  {
    if list == [] then None
    else if list[|list| - 1] in among then IndexOf(among, list[|list| - 1])
    else LastIn(list[..|list| - 1], among)
  }

  function FirstIn(list: seq<Node>, among: seq<Node>): (r: Option<nat>)
    ensures r.Some? ==> r.value < |among|
  {
    if list == [] then None
    else if list[0] in among then IndexOf(among, list[0])
    else FirstIn(list[1..], among)
  }

  /** The entry to select in the new list: the selected one, or the closest one, first before it, then after it. */
  function Closest(shown: seq<Node>, sel: nat, among: seq<Node>): (r: Option<nat>)
    requires sel < |shown|
    ensures r.Some? ==> r.value < |among|
  {
    var before := LastIn(shown[..sel + 1], among);
    if before.Some? then before else FirstIn(shown[sel + 1..], among)
  }

  predicate HasSel(v: State) { 0 <= v.sel < |v.shown| }

  function ToggleAll(v: State): State
    requires HasSel(v)
  {
    var shown := v.world.lists(v.menu, !v.showAll);
    match Closest(v.shown, v.sel, shown)
    case None => v.(showAll := true)
    case Some(sel) =>
      v.(showAll := !v.showAll, shown := shown, sel := sel, scroll := Max(sel - (v.sel - v.scroll), 0))
  }

  /** _update_menu(), after a value was changed. */
  function Update(v: State, world: World): Option<State>
    requires HasSel(v)
  {
    var shown := world.lists(v.menu, v.showAll);
    var sel :- IndexOf(shown, v.shown[v.sel]);
    Some(v.(world := world, shown := shown, sel := sel, scroll := Max(sel - (v.sel - v.scroll), 0)))
  }

  /** _resize_main() */
  function Resize(v: State, screenHeight: int, helpHeight: int): State {
    var height := Max(screenHeight - helpHeight - 3, 1);
    v.(height := height, scroll := if v.sel - v.scroll >= height then v.sel - height + 1 else v.scroll)
  }

  /** The menu with the target selected, with show-all turned on if it is not shown otherwise. */
  function Located(v: State, menu: Node, target: Node): Option<State> {
    var showAll := v.showAll || target !in v.world.lists(menu, v.showAll);
    var shown := v.world.lists(menu, showAll);
    var sel :- IndexOf(shown, target);
    Some(v.(rows := [], menu := menu, showAll := showAll, shown := shown, sel := sel))
  }

  /** _jump_to() */
  function Jump(v: State, node: Node): Option<State> {
    var child := v.world.firstChild(node);
    var menu := if child.Some? then node else v.world.parent(node);
    var v' :- Located(v, menu, if child.Some? then child.value else node);
    var v'' := if child.Some? && !v.showAll && v'.showAll then ToggleAll(v') else v';
    Some(if child.Some? then OnFirstShown(Centered(v''), v.world.chosen(menu)) else Centered(v''))
  }

  datatype Key =
    | Down | Up | PageDown | PageUp | End | Home | Right | Left | All
    | Changed(world: World)
    | Resized(screenHeight: int, helpHeight: int)
    | JumpTo(node: Node)

  function Press(v: State, key: Key): Option<State>
    requires HasSel(v)
  {
    match key
    case Down => Some(Next(v))
    case Up => Some(Prev(v))
    case PageDown => Some(NextTimes(v, PG_JUMP))
    case PageUp => Some(PrevTimes(v, PG_JUMP))
    case End => Some(Last(v))
    case Home => Some(First(v))
    case Right => Some(Enter(v, v.shown[v.sel]).0)
    case Left => Leave(v)
    case All => Some(ToggleAll(v))
    case Changed(world) => Update(v, world)
    case Resized(screenHeight, helpHeight) => Some(Resize(v, screenHeight, helpHeight))
    case JumpTo(node) => Jump(v, node)
  }

  // The selected entry stays in the window

  predicate InWindow(v: State) {
    && v.height >= 1 && HasSel(v) && 0 <= v.scroll <= v.sel < v.scroll + v.height
    && forall k :: 0 <= k < |v.rows| ==> v.rows[k] >= 0
  }

  lemma CenteredInWindow(v: State)
    requires v.height >= 1 && HasSel(v) && forall k :: 0 <= k < |v.rows| ==> v.rows[k] >= 0
    ensures InWindow(Centered(v))
  {
  }

  lemma {:induction false} OnFirstShownInWindow(v: State, nodes: seq<Node>)
    requires InWindow(v)
    ensures InWindow(OnFirstShown(v, nodes))
  {
    if nodes == [] {
    } else {
      if v.shown != [] && nodes[0] in v.shown {
        CenteredInWindow(v.(sel := IndexOf(v.shown, nodes[0]).value));
      } else {
        OnFirstShownInWindow(v, nodes[1..]);
      }
    }
  }

  lemma {:induction false} TimesInWindow(v: State, n: nat)
    requires InWindow(v)
    ensures InWindow(NextTimes(v, n)) && InWindow(PrevTimes(v, n))
    ensures NextTimes(v, n).sel == Min(v.sel + n, |v.shown| - 1) && PrevTimes(v, n).sel == Max(v.sel - n, 0)
    ensures NextTimes(v, n).shown == PrevTimes(v, n).shown == v.shown
  {
    if n == 0 {
    } else {
      TimesInWindow(v, n - 1);
    }
  }

  lemma JumpInWindow(v: State, node: Node)
    requires InWindow(v) && Jump(v, node).Some?
    ensures InWindow(Jump(v, node).value)
  {
    var child := v.world.firstChild(node);
    var menu := if child.Some? then node else v.world.parent(node);
    var v' := Located(v, menu, if child.Some? then child.value else node).value;
    var v'' := if child.Some? && !v.showAll && v'.showAll then ToggleAll(v') else v';
    CenteredInWindow(v'');
    OnFirstShownInWindow(Centered(v''), v.world.chosen(menu));
  }

  lemma EnterInWindow(v: State, menu: Node)
    requires InWindow(v)
    ensures InWindow(Enter(v, menu).0)
  {
    var shown := v.world.lists(menu, v.showAll);
    if v.world.isMenu(menu) && shown != [] {
      var v' := v.(rows := v.rows + [v.sel - v.scroll], menu := menu, shown := shown, sel := 0, scroll := 0);
      OnFirstShownInWindow(v', v.world.chosen(menu));
    }
  }

  lemma LeaveInWindow(v: State)
    requires InWindow(v) && Leave(v).Some?
    ensures InWindow(Leave(v).value)
  {
  }

  lemma PressInWindow(v: State, key: Key)
    requires InWindow(v) && Press(v, key).Some?
    ensures InWindow(Press(v, key).value)
  {
    match key {
      case PageDown => TimesInWindow(v, PG_JUMP);
      case PageUp => TimesInWindow(v, PG_JUMP);
      case Right => EnterInWindow(v, v.shown[v.sel]);
      case Left => LeaveInWindow(v);
      case JumpTo(node) => JumpInWindow(v, node);
      case _ =>
    }
  }

  /** What all the keys do, one after the other; None if one of them raises an exception. */
  function PressAll(v: State, keys: seq<Key>): Option<State>
    requires InWindow(v)
    decreases |keys|
  {
    if keys == [] then Some(v)
    else
      var v' :- Press(v, keys[0]);
      PressInWindow(v, keys[0]);
      PressAll(v', keys[1..])
  }

  /** After any keys, and any changes of values and window sizes, the selected entry is in the window. */
  lemma {:induction false} SelectionStaysInWindow(v: State, keys: seq<Key>)
    requires InWindow(v) && PressAll(v, keys).Some?
    ensures InWindow(PressAll(v, keys).value)
    decreases |keys|
  {
    if keys == [] {
    } else {
      PressInWindow(v, keys[0]);
      SelectionStaysInWindow(Press(v, keys[0]).value, keys[1..]);
    }
  }

  // Going into a menu and back

  predicate MovesOnly(key: Key) {
    key.Down? || key.Up? || key.PageDown? || key.PageUp? || key.End? || key.Home?
  }

  /** v' shows the same menu as v, maybe with another entry selected. */
  ghost predicate SameMenu(v: State, v': State) {
    v' == v.(sel := v'.sel, scroll := v'.scroll)
  }

  lemma {:induction false} TimesSameMenu(v: State, n: nat)
    ensures SameMenu(v, NextTimes(v, n)) && SameMenu(v, PrevTimes(v, n))
  {
    if n == 0 {
    } else {
      TimesSameMenu(v, n - 1);
    }
  }

  lemma {:induction false} MovesStay(v: State, keys: seq<Key>)
    requires InWindow(v) && forall k :: 0 <= k < |keys| ==> MovesOnly(keys[k])
    ensures PressAll(v, keys).Some? && SameMenu(v, PressAll(v, keys).value) && InWindow(PressAll(v, keys).value)
    decreases |keys|
  {
    if keys == [] {
    } else {
      TimesSameMenu(v, PG_JUMP);
      PressInWindow(v, keys[0]);
      MovesStay(Press(v, keys[0]).value, keys[1..]);
    }
  }

  lemma {:induction false} OnFirstShownSameMenu(v: State, nodes: seq<Node>)
    ensures SameMenu(v, OnFirstShown(v, nodes))
  {
    if nodes == [] {
    } else {
      OnFirstShownSameMenu(v, nodes[1..]);
    }
  }

  /** What is shown is the list of the current menu, and each entry of it belongs to that menu. */
  ghost predicate Consistent(v: State) {
    && v.shown == v.world.lists(v.menu, v.showAll) && Distinct(v.shown)
    && forall k :: 0 <= k < |v.shown| ==> v.shown[k] != v.world.top && v.world.parent(v.shown[k]) == v.menu
  }

  /** The selected menu of v is shown instead. */
  ghost predicate Inside(v: State, inside: State)
    requires HasSel(v)
  {
    inside == v.(menu := v.shown[v.sel], shown := inside.shown, sel := inside.sel, scroll := inside.scroll,
                 rows := v.rows + [v.sel - v.scroll])
  }

  lemma EnterIsInside(v: State)
    requires InWindow(v) && Enter(v, v.shown[v.sel]).1
    ensures Inside(v, Enter(v, v.shown[v.sel]).0) && InWindow(Enter(v, v.shown[v.sel]).0)
  {
    var menu := v.shown[v.sel];
    PressInWindow(v, Right);
    OnFirstShownSameMenu(
      v.(rows := v.rows + [v.sel - v.scroll], menu := menu, shown := v.world.lists(menu, v.showAll), sel := 0, scroll := 0),
      v.world.chosen(menu));
  }

  lemma LeaveRestores(v: State, inside: State)
    requires InWindow(v) && Consistent(v)
    requires Inside(v, inside)
    ensures Leave(inside) == Some(v)
  {
    assert inside.rows[..|inside.rows| - 1] == v.rows;
    assert IndexOf(v.shown, v.shown[v.sel]) == Some(v.sel);
  }

  /** Leaving an entered menu, after any moves inside it, gives back the exact state before. */
  lemma EnterThenLeave(v: State, keys: seq<Key>)
    requires InWindow(v) && Consistent(v) && forall k :: 0 <= k < |keys| ==> MovesOnly(keys[k])
    requires Enter(v, v.shown[v.sel]).1
    ensures InWindow(Enter(v, v.shown[v.sel]).0) && PressAll(Enter(v, v.shown[v.sel]).0, keys).Some?
    ensures Leave(PressAll(Enter(v, v.shown[v.sel]).0, keys).value) == Some(v)
  {
    EnterIsInside(v);
    var inside := Enter(v, v.shown[v.sel]).0;
    hide Press, PressAll, Leave, Enter, Consistent, InWindow;
    MovesStay(inside, keys);
    LeaveRestores(v, PressAll(inside, keys).value);
  }

  // Turning show-all on and off

  /** The entries of `few` are entries of `all`, in the same order. */
  predicate Among(few: seq<Node>, all: seq<Node>) {
    if few == [] then true
    else if all == [] then false
    else if few[0] == all[0] then Among(few[1..], all[1..])
    else Among(few, all[1..])
  }

  lemma {:induction false} AmongIndex(few: seq<Node>, all: seq<Node>, k: nat) returns (j: nat)
    requires Among(few, all) && k < |few|
    ensures k <= j < |all| && all[j] == few[k]
    decreases |all|
  {
    if few[0] == all[0] {
      if k == 0 {
        j := 0;
      } else {
        j := AmongIndex(few[1..], all[1..], k - 1);
        j := j + 1;
      }
    } else {
      j := AmongIndex(few, all[1..], k);
      j := j + 1;
    }
  }

  lemma DistinctIndex(list: seq<Node>, k: nat)
    requires Distinct(list) && k < |list|
    ensures IndexOf(list, list[k]) == Some(k)
  {
  }

  lemma SelectedIsClosest(shown: seq<Node>, sel: nat, among: seq<Node>)
    requires sel < |shown| && shown[sel] in among
    ensures Closest(shown, sel, among) == IndexOf(among, shown[sel])
  {
    assert shown[..sel + 1][sel] == shown[sel];
  }

  /** Turning show-all on and off again gives back the exact state. */
  lemma ToggleTwice(v: State)
    requires InWindow(v) && Consistent(v) && !v.showAll
    requires Distinct(v.world.lists(v.menu, true)) && Among(v.shown, v.world.lists(v.menu, true))
    ensures HasSel(ToggleAll(v)) && ToggleAll(v).showAll && ToggleAll(v).shown == v.world.lists(v.menu, true)
    ensures ToggleAll(v).sel - ToggleAll(v).scroll == v.sel - v.scroll
    ensures ToggleAll(ToggleAll(v)) == v
  {
    var all := v.world.lists(v.menu, true);
    var node := v.shown[v.sel];
    var j := AmongIndex(v.shown, all, v.sel);
    DistinctIndex(all, j);
    DistinctIndex(v.shown, v.sel);
    SelectedIsClosest(v.shown, v.sel, all);
    SelectedIsClosest(all, j, v.shown);
  }

  // The handlers as they run

  class Menuconfig {
    var world: World
    var curMenu: Node
    var shown: seq<Node>
    var selNode: int
    var menuScroll: int
    var showAll: bool
    var parentRows: seq<int>
    var height: int

    function Now(): State
      reads this
    {
      State(world, curMenu, shown, selNode, menuScroll, showAll, parentRows, height)
    }

    /** The selected entry is in the window. */
    predicate Valid()
      reads this
    {
      InWindow(Now())
    }

    /** _init(). The top menu has entries. */
    constructor (world: World, screenHeight: int, helpHeight: int)
      requires world.lists(world.top, false) != []
      ensures Valid()
      ensures Now() == State(world, world.top, world.lists(world.top, false), 0, 0, false, [],
                             Max(screenHeight - helpHeight - 3, 1))
    {
      this.world := world;
      curMenu := world.top;
      shown := world.lists(world.top, false);
      selNode, menuScroll, showAll := 0, 0, false;
      parentRows := [];
      height := Max(screenHeight - helpHeight - 3, 1);
    }

    method SelectNext()
      requires Valid()
      modifies this
      ensures Valid() && Now() == Next(old(Now()))
    {
      if selNode < |shown| - 1 {
        selNode := selNode + 1;
        if selNode >= menuScroll + height - SCROLL_OFFSET && menuScroll < MaxScroll(shown, height) {
          menuScroll := menuScroll + 1;
        }
      }
    }

    method SelectPrev()
      requires Valid()
      modifies this
      ensures Valid() && Now() == Prev(old(Now()))
    {
      if selNode > 0 {
        selNode := selNode - 1;
        if selNode < menuScroll + SCROLL_OFFSET {
          menuScroll := Max(menuScroll - 1, 0);
        }
      }
    }

    method PageNext()
      requires Valid()
      modifies this
      ensures Valid() && Now() == NextTimes(old(Now()), PG_JUMP)
    {
      for n := 0 to PG_JUMP
        invariant Valid() && Now() == NextTimes(old(Now()), n)
      {
        SelectNext();
      }
    }

    method PagePrev()
      requires Valid()
      modifies this
      ensures Valid() && Now() == PrevTimes(old(Now()), PG_JUMP)
    {
      for n := 0 to PG_JUMP
        invariant Valid() && Now() == PrevTimes(old(Now()), n)
      {
        SelectPrev();
      }
    }

    method CenterVertically()
      modifies this
      ensures Now() == Centered(old(Now()))
    {
      menuScroll := Min(Max(selNode - height / 2, 0), MaxScroll(shown, height));
    }

    method SelectSelectedChoiceSym(nodes: seq<Node>)
      modifies this
      ensures Now() == OnFirstShown(old(Now()), nodes)
    {
      assert nodes[0..] == nodes;
      for n := 0 to |nodes|
        invariant Now() == old(Now()) && OnFirstShown(old(Now()), nodes) == OnFirstShown(Now(), nodes[n..])
      {
        assert nodes[n..][1..] == nodes[n + 1..];
        var i := IndexOf(shown, nodes[n]);
        if i.Some? {
          selNode := i.value;
          CenterVertically();
          return;
        }
      }
    }

    method EnterMenu(menu: Node) returns (ok: bool)
      requires Valid()
      modifies this
      ensures Valid() && (Now(), ok) == Enter(old(Now()), menu)
    {
      EnterInWindow(Now(), menu);
      hide InWindow;
      if !world.isMenu(menu) {
        return false;
      }
      var shownSub := world.lists(menu, showAll);
      if shownSub == [] {
        return false;
      }
      parentRows := parentRows + [selNode - menuScroll];
      curMenu := menu;
      shown := shownSub;
      selNode, menuScroll := 0, 0;
      SelectSelectedChoiceSym(world.chosen(menu));
      return true;
    }

    /** Not ok: the menu is not among the entries of its parent, which raises an exception. */
    method LeaveMenu() returns (ok: bool)
      requires Valid()
      modifies this
      ensures ok ==> Valid()
      ensures ok == Leave(old(Now())).Some? && (ok ==> Now() == Leave(old(Now())).value)
    {
      if Leave(Now()).Some? { LeaveInWindow(Now()); }
      hide InWindow;
      if curMenu == world.top {
        return true;
      }
      var parent := world.parent(curMenu);
      shown := world.lists(parent, showAll);
      var i := IndexOf(shown, curMenu);
      if i.None? {
        return false;
      }
      selNode := i.value;
      curMenu := parent;
      if parentRows != [] {
        var screenRow := Min(parentRows[|parentRows| - 1], height - 1);
        parentRows := parentRows[..|parentRows| - 1];
        menuScroll := Max(selNode - screenRow, 0);
      } else {
        CenterVertically();
      }
      return true;
    }

    method ClosestShown(newShown: seq<Node>) returns (r: Option<nat>)
      requires HasSel(Now())
      ensures r == Closest(shown, selNode, newShown)
    {
      var n := selNode;
      assert shown[..selNode + 1][..n + 1] == shown[..selNode + 1];
      while n >= 0
        invariant -1 <= n <= selNode
        invariant LastIn(shown[..selNode + 1], newShown) == LastIn(shown[..n + 1], newShown)
      {
        if shown[n] in newShown {
          return IndexOf(newShown, shown[n]);
        }
        assert shown[..n + 1][..n] == shown[..n];
        n := n - 1;
      }
      var rest := shown[selNode + 1..];
      assert rest[0..] == rest;
      for j := 0 to |rest|
        invariant FirstIn(rest, newShown) == FirstIn(rest[j..], newShown)
      {
        if rest[j] in newShown {
          return IndexOf(newShown, rest[j]);
        }
        assert rest[j..][1..] == rest[j + 1..];
      }
      return None;
    }

    method ToggleShowAll()
      requires HasSel(Now())
      modifies this
      ensures old(Valid()) ==> Valid()
      ensures Now() == ToggleAll(old(Now()))
    {
      var oldRow := selNode - menuScroll;
      showAll := !showAll;
      var newShown := world.lists(curMenu, showAll);
      var i := ClosestShown(newShown);
      if i.None? {
        showAll := true;
        return;
      }
      selNode := i.value;
      shown := newShown;
      menuScroll := Max(selNode - oldRow, 0);
    }

    method UpdateMenu(world': World) returns (ok: bool)
      requires Valid()
      modifies this
      ensures ok ==> Valid()
      ensures ok == Update(old(Now()), world').Some? && (ok ==> Now() == Update(old(Now()), world').value)
    {
      world := world';
      var oldRow := selNode - menuScroll;
      var selected := shown[selNode];
      shown := world.lists(curMenu, showAll);
      var i := IndexOf(shown, selected);
      if i.None? {
        return false;
      }
      selNode := i.value;
      menuScroll := Max(selNode - oldRow, 0);
      return true;
    }

    method ResizeMain(screenHeight: int, helpHeight: int)
      requires Valid()
      modifies this
      ensures Valid() && Now() == Resize(old(Now()), screenHeight, helpHeight)
    {
      var winHeight := screenHeight - helpHeight - 3;
      if winHeight < 1 {
        winHeight := 1;
      }
      height := winHeight;
      if selNode - menuScroll >= winHeight {
        menuScroll := selNode - winHeight + 1;
      }
    }

    /** The first part of _jump_to(). */
    method ShowNode(menu: Node, node: Node) returns (ok: bool)
      modifies this
      ensures ok == Located(old(Now()), menu, node).Some? && (ok ==> Now() == Located(old(Now()), menu, node).value)
    {
      parentRows := [];
      curMenu := menu;
      shown := world.lists(menu, showAll);
      if node !in shown {
        showAll := true;
        shown := world.lists(menu, showAll);
      }
      var i := IndexOf(shown, node);
      if i.None? {
        return false;
      }
      selNode := i.value;
      return true;
    }

    method JumpToNode(target: Node) returns (ok: bool)
      requires Valid()
      modifies this
      ensures ok ==> Valid()
      ensures ok == Jump(old(Now()), target).Some? && (ok ==> Now() == Jump(old(Now()), target).value)
    {
      if Jump(Now(), target).Some? { JumpInWindow(Now(), target); }
      hide InWindow, ToggleAll, Centered, OnFirstShown;
      var oldShowAll := showAll;
      var child := world.firstChild(target);
      if child.Some? {
        ok := ShowNode(target, child.value);
      } else {
        ok := ShowNode(world.parent(target), target);
      }
      if !ok {
        return;
      }
      if child.Some? && !oldShowAll && showAll {
        ToggleShowAll();
      }
      CenterVertically();
      if child.Some? {
        SelectSelectedChoiceSym(world.chosen(curMenu));
      }
    }
  }
}
