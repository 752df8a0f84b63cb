/** The edit box of menuconfig: editing commands, and scrolling that follows the cursor. */
module EditBox {
  import opened ConfText
  import MenuNav

  datatype Key = Left | Right | Home | End | Backspace | Delete | EraseWord | EraseRight | EraseLeft | Insert(c: char) | Other

  /** The text, the cursor, and the index of the leftmost character in the box. */
  datatype Edit = Edit(s: string, i: int, hscroll: int)

  predicate CursorOk(e: Edit) { 0 <= e.i <= |e.s| }

  predicate IsWord(c: char) { 'a' <= c <= 'z' || 'A' <= c <= 'Z' || '0' <= c <= '9' || c == '_' }

  predicate Spaces(s: string) { forall k :: 0 <= k < |s| ==> IsSpace(s[k]) }

  predicate Word(s: string) { forall k :: 0 <= k < |s| ==> IsWord(s[k]) }

  /** The characters that one erasure removes, without the spaces after them: `\w*|\W` */
  predicate Erasable(s: string) { Word(s) || (|s| == 1 && !IsWord(s[0])) }

  /** `(?:\w*|\W)\s*$` matches all of s. */
  ghost predicate ErasableWord(s: string) {
    exists n :: 0 <= n <= |s| && Erasable(s[..n]) && Spaces(s[n..])
  }

  /** Where the search for that expression finds its first match in s. */
  function WordStart(s: string): (n: nat)
    ensures n <= |s|
  {
    if s == "" then 0
    else if IsSpace(s[|s| - 1]) then WordStart(s[..|s| - 1])
    else if IsWord(s[|s| - 1]) then RunStart(s)
    else |s| - 1
  }

  function RunStart(s: string): (n: nat)
    ensures n <= |s| && Word(s[n..]) && (n > 0 ==> !IsWord(s[n - 1]))
  {
    if s == "" || !IsWord(s[|s| - 1]) then |s| else RunStart(s[..|s| - 1])
  }

  lemma ErasableTo(s: string, n: nat)
    requires n <= |s| && Erasable(s[..n]) && Spaces(s[n..])
    ensures ErasableWord(s)
  {
  }

  lemma SpaceAppended(s: string, c: char)
    requires ErasableWord(s) && IsSpace(c)
    ensures ErasableWord(s + [c])
  {
    var n :| 0 <= n <= |s| && Erasable(s[..n]) && Spaces(s[n..]);
    assert (s + [c])[..n] == s[..n] && (s + [c])[n..] == s[n..] + [c];
    ErasableTo(s + [c], n);
  }

  lemma SpaceRemoved(s: string)
    requires s != "" && ErasableWord(s) && IsSpace(s[|s| - 1])
    ensures ErasableWord(s[..|s| - 1])
  {
    var n :| 0 <= n <= |s| && Erasable(s[..n]) && Spaces(s[n..]);
    var t := s[..|s| - 1];
    if n < |s| {
      assert t[..n] == s[..n] && t[n..] == s[n..][..|s| - 1 - n];
      ErasableTo(t, n);
    } else {
      assert s[..n] == s;
      ErasableTo(t, 0);
    }
  }

  lemma NoSpaceAtEnd(s: string)
    requires s != "" && ErasableWord(s) && !IsSpace(s[|s| - 1])
    ensures Erasable(s)
  {
    var n :| 0 <= n <= |s| && Erasable(s[..n]) && Spaces(s[n..]);
    assert s[..|s|] == s;
    if n < |s| { LastIsSpace(s, n); }
  }

  lemma LastIsSpace(s: string, n: nat)
    requires n < |s| && Spaces(s[n..])
    ensures IsSpace(s[|s| - 1])
  {
    assert s[n..][|s| - 1 - n] == s[|s| - 1];
  }

  /** CTRL-W erases a word or one other character, and the spaces after it. */
  lemma {:induction false} WordStartErases(s: string)
    ensures ErasableWord(s[WordStart(s)..])
  {
    var n := WordStart(s);
    if s == "" {
      ErasableTo("", 0);
    } else if IsSpace(s[|s| - 1]) {
      var t := s[..|s| - 1];
      WordStartErases(t);
      SpaceAppended(t[n..], s[|s| - 1]);
      assert s[n..] == t[n..] + [s[|s| - 1]];
    } else {
      assert s[n..][..|s| - n] == s[n..];
      ErasableTo(s[n..], |s| - n);
    }
  }

  /** No earlier place would do. */
  lemma {:induction false} WordStartIsFirst(s: string, p: nat)
    requires p <= |s| && ErasableWord(s[p..])
    ensures WordStart(s) <= p
  {
    if p < |s| {
      var u := s[p..];
      if IsSpace(s[|s| - 1]) {
        SpaceRemoved(u);
        assert s[..|s| - 1][p..] == u[..|u| - 1];
        WordStartIsFirst(s[..|s| - 1], p);
      } else {
        var n := RunStart(s);
        assert p < n ==> u[n - 1 - p] == s[n - 1];
        assert u[|u| - 1] == s[|s| - 1];
        NoSpaceAtEnd(u);
      }
    }
  }

  // The editing commands

  function Edited(key: Key, e: Edit): Edit
    requires CursorOk(e)
  {
    var s, i := e.s, e.i;
    match key
    case Left => if i > 0 then e.(i := i - 1) else e
    case Right => if i < |s| then e.(i := i + 1) else e
    case Home => e.(i := 0)
    case End => e.(i := |s|)
    case Backspace => if i > 0 then e.(s := s[..i - 1] + s[i..], i := i - 1) else e
    case Delete => e.(s := s[..i] + (if i < |s| then s[i + 1..] else ""))
    case EraseWord => e.(s := s[..WordStart(s[..i])] + s[i..], i := WordStart(s[..i]))
    case EraseRight => e.(s := s[..i])
    case EraseLeft => e.(s := s[i..], i := 0)
    case Insert(c) => e.(s := s[..i] + [c] + s[i..], i := i + 1)
    case Other => e
  }

  /** The horizontal scroll is adjusted to the cursor. */
  function Scrolled(e: Edit, width: int): Edit {
    if e.i < e.hscroll + MenuNav.SCROLL_OFFSET then e.(hscroll := MenuNav.Max(e.i - MenuNav.SCROLL_OFFSET, 0))
    else if e.i >= e.hscroll + width - MenuNav.SCROLL_OFFSET then
      e.(hscroll := MenuNav.Min(e.i - width + MenuNav.SCROLL_OFFSET + 1, MenuNav.Max(|e.s| - width + 1, 0)))
    else e
  }

  /** _edit_text() */
  method EditText(key: Key, s0: string, i0: int, hscroll0: int, width: int) returns (s: string, i: int, hscroll: int)
    requires CursorOk(Edit(s0, i0, hscroll0))
    ensures Edit(s, i, hscroll) == Scrolled(Edited(key, Edit(s0, i0, hscroll0)), width)
  {
    s, i, hscroll := s0, i0, hscroll0;
    match key {
      case Left =>
        if i > 0 {
          i := i - 1;
        }
      case Right =>
        if i < |s| {
          i := i + 1;
        }
      case Home => i := 0;
      case End => i := |s|;
      case Backspace =>
        if i > 0 {
          s := s[..i - 1] + s[i..];
          i := i - 1;
        }
      case Delete => s := s[..i] + (if i < |s| then s[i + 1..] else "");
      case EraseWord =>
        var start := WordStart(s[..i]);
        s := s[..start] + s[i..];
        i := start;
      case EraseRight => s := s[..i];
      case EraseLeft =>
        s := s[i..];
        i := 0;
      case Insert(c) =>
        s := s[..i] + [c] + s[i..];
        i := i + 1;
      case Other =>
    }
    if i < hscroll + MenuNav.SCROLL_OFFSET {
      hscroll := MenuNav.Max(i - MenuNav.SCROLL_OFFSET, 0);
    } else if i >= hscroll + width - MenuNav.SCROLL_OFFSET {
      var maxScroll := MenuNav.Max(|s| - width + 1, 0);
      hscroll := MenuNav.Min(i - width + MenuNav.SCROLL_OFFSET + 1, maxScroll);
    }
  }

  // What every key keeps

  predicate InBox(e: Edit, width: int) {
    CursorOk(e) && e.hscroll >= 0 && 0 <= e.i - e.hscroll < width
  }

  /** The cursor is at an edge of the box only at the beginning or the end of the text. */
  predicate AwayFromEdges(e: Edit, width: int) {
    (e.i == e.hscroll ==> e.i == 0) && (e.i - e.hscroll == width - 1 ==> e.i == |e.s|)
  }

  lemma EditKeepsCursor(key: Key, e: Edit)
    requires CursorOk(e)
    ensures CursorOk(Edited(key, e)) && Edited(key, e).hscroll == e.hscroll
  {
  }

  /** Scrolling brings the cursor into the box, wherever it was, exactly if the box has at least six columns. */
  lemma ScrollingShowsCursor(width: int)
    ensures (forall e :: CursorOk(e) && e.hscroll >= 0 ==> InBox(Scrolled(e, width), width)) <==> width >= 6
  {
    if width < 6 {
      var e := Edit("12345", 5, 1);
      assert CursorOk(e) && !InBox(Scrolled(e, width), width);
    }
  }

  /** It keeps the cursor away from the edges, but at the ends of the text, exactly if there are at least seven. */
  lemma ScrollingAvoidsEdges(width: int)
    requires width >= 6
    ensures (forall e :: CursorOk(e) && e.hscroll >= 0 ==> AwayFromEdges(Scrolled(e, width), width)) <==> width >= 7
  {
    if width == 6 {
      var e := Edit("123456", 5, 1);
      assert CursorOk(e) && !AwayFromEdges(Scrolled(e, width), width);
    }
  }

  function PressAll(keys: seq<Key>, e: Edit, width: int): Edit
    requires CursorOk(e)
  {
    if keys == [] then e
    else
      EditKeepsCursor(keys[0], e);
      PressAll(keys[1..], Scrolled(Edited(keys[0], e), width), width)
  }

  /** The state in which an input box with the text s is opened: the cursor is behind the text. */
  function Opened(s: string, width: int): (e: Edit)
    ensures width >= 1 ==> InBox(e, width)
  {
    Edit(s, |s|, MenuNav.Max(|s| - width + 1, 0))
  }

  lemma {:induction false} KeysKeepBox(keys: seq<Key>, e: Edit, width: int)
    requires width >= 6 && InBox(e, width)
    ensures InBox(PressAll(keys, e, width), width)
  {
    if keys == [] {
    } else {
      EditKeepsCursor(keys[0], e);
      ScrollingShowsCursor(width);
      KeysKeepBox(keys[1..], Scrolled(Edited(keys[0], e), width), width);
    }
  }

  /** From opening the box, over every sequence of keys, the cursor stays in the text and in the box. */
  lemma CursorStaysInBox(keys: seq<Key>, s: string, width: int)
    requires width >= 6
    ensures InBox(PressAll(keys, Opened(s, width), width), width)
  {
    KeysKeepBox(keys, Opened(s, width), width);
  }

  /** Erasing undoes inserting, and the two ways of cutting the text take it apart at the cursor. */
  lemma EditsUndone(e: Edit, c: char)
    requires CursorOk(e)
    ensures Edited(Backspace, Edited(Insert(c), e)) == e
    ensures Edited(EraseRight, e).s + Edited(EraseLeft, e).s == e.s
    ensures e.i < |e.s| ==> Edited(Backspace, Edited(Right, e)).s == Edited(Delete, e).s
  {
    var s := e.s[..e.i] + [c] + e.s[e.i..];
    assert s[..e.i] == e.s[..e.i] && s[e.i + 1..] == e.s[e.i..];
  }
}
