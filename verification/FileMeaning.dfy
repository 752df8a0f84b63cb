/**
 * What a configuration file contains: the line of each symbol, where it stands, and which
 * symbols have none in a minimal file.
 */
module FileMeaning {
  import opened Wrappers
  import opened Config
  import opened Values
  import opened Meaning
  import opened Invalidation
  import opened ValueLaws
  import opened ConfText
  import opened ConfigFile
  import opened ExprMeaning
  import opened SlotMeaning
  import opened LoadMeaning
  import opened MinimalLaws

  // Lines

  /** Only quotes and backslashes have a backslash before them. */
  ghost predicate NothingElseEscaped(q: string) {
    q == "" || if q[0] == '\\' then |q| >= 2 && q[1] in "\"\\" && NothingElseEscaped(q[2..]) else NothingElseEscaped(q[1..])
  }

  lemma {:induction false} EscapeEscapes(s: string)
    ensures Escapes(Escape(s), s) && NothingElseEscaped(Escape(s))
  {
    if s == "" {
    } else {
      assert s == [s[0]] + s[1..];
      EscapeCons(s[0], s[1..]);
      EscapeEscapes(s[1..]);
      var rest := Escape(s[1..]);
      if s[0] == '\\' || s[0] == '"' {
        assert Escape(s)[2..] == rest;
      } else {
        assert Escape(s)[1..] == rest;
      }
    }
  }

  /** The text of the line of a symbol with this value. */
  ghost predicate LineOf(K: Config, prefix: string, m: Cache, s: SymId, line: string)
    requires SymOk(K, s)
  {
    var d := K.syms[s];
    if Boolish(d.origType) then
      && (GetT(m, TriOf(s)) == Some(0) ==> line == "# " + prefix + d.name + " is not set")
      && (GetT(m, TriOf(s)) == Some(1) ==> line == prefix + d.name + "=m")
      && (GetT(m, TriOf(s)) == Some(2) ==> line == prefix + d.name + "=y")
    else if d.origType == String then
      exists q, t :: line == prefix + d.name + "=" + ("\"" + q + "\"") && GetS(m, StrOf(s)) == Some(t) &&
        Escapes(q, t) && NothingElseEscaped(q)
    else exists t :: line == prefix + d.name + "=" + t && GetS(m, StrOf(s)) == Some(t)
  }

  /** A symbol has a line exactly if it is written, and the line gives its value. */
  lemma LineMeans(K: Config, prefix: string, U: Users, m: Cache, s: SymId)
    requires ConfigOk(K) && Solves(K, U, m) && SymOk(K, s)
    ensures Known(K, U, m, WriteOf(s)) && (SymLine(K, prefix, U, m, s).Some? <==> m[WriteOf(s)].flag)
    ensures SymLine(K, prefix, U, m, s).Some? ==> LineOf(K, prefix, m, s, SymLine(K, prefix, U, m, s).value)
  {
    SolutionKnows(K, U, m, WriteOf(s));
    SolutionKnows(K, U, m, StrOf(s));
    SolutionKnows(K, U, m, TriOf(s));
    EscapeEscapes(m[StrOf(s)].str);
    hide WriteToConf, ConfigOk, Solves;
    var d := K.syms[s];
    if SymLine(K, prefix, U, m, s).Some? && Boolish(d.origType) && m[TriOf(s)].t != 0 {
      var v := m[StrOf(s)].str;
      assert v == if m[TriOf(s)].t == 1 then "m" else "y";
      assert prefix + d.name + "=" + v == prefix + d.name + ("=" + v);
    }
  }

  // Which symbol a line is about

  /** A line that assigns does not say that something is not set. */
  lemma {:induction false} NotBoth(line: string, prefix: string, t: string, s: string)
    requires NameOk(t) && StartsWith(line, prefix + t + "=")
    ensures !StartsWith(line, "# " + prefix + s)
    decreases |prefix|
  {
    var yes, no := prefix + t + "=", "# " + prefix + s;
    assert |prefix| == 1 ==> yes[1] == t[0];
    assert |prefix| == 0 ==> yes == t + "=" && yes[1] == if |t| == 1 then '=' else t[1];
    if StartsWith(line, no) {
      SameStart(line, yes, no);
      if |prefix| >= 2 {
        assert prefix == "# " + prefix[2..];
        assert yes[2..] == prefix[2..] + t + "=" && no[2..] == "# " + prefix[2..] + s;
        StartsBehind(line, yes);
        StartsBehind(line, no);
        NotBoth(line[2..], prefix[2..], t, s);
      }
    }
  }

  lemma SameStart(line: string, p: string, q: string)
    requires StartsWith(line, p) && StartsWith(line, q) && |p| >= 2 && |q| >= 2
    ensures p[0] == q[0] && p[1] == q[1] && line[0] == p[0] && line[1] == p[1]
  {
    assert line[..|p|][0] == line[0] && line[..|p|][1] == line[1];
    assert line[..|q|][0] == line[0] && line[..|q|][1] == line[1];
  }

  lemma StartsBehind(line: string, p: string)
    requires StartsWith(line, p) && |p| >= 2
    ensures StartsWith(line[2..], p[2..])
  {
    assert line[2..][..|p| - 2] == line[..|p|][2..];
  }

  /** What stands before the first c is known from the start of a text. */
  lemma SameUpTo(line: string, p: string, x: string, y: string, c: char)
    requires c !in x && c !in y && StartsWith(line, p + x + [c]) && StartsWith(line, p + y + [c])
    ensures x == y
  {
    var rest := line[|p|..];
    var a, b := line[|p + x + [c]|..], line[|p + y + [c]|..];
    assert line == (p + x + [c]) + a && line == (p + y + [c]) + b;
    assert rest == x + [c] + a && rest == y + [c] + b;
    FindAfter(x, c, a);
    FindAfter(y, c, b);
    assert rest[..|x|] == x && rest[..|y|] == y;
  }

  /** The line of one symbol is about no symbol of another name. */
  lemma LineIsAbout(K: Config, prefix: string, m: Cache, s: SymId, name: string, line: string)
    requires SymOk(K, s) && GetT(m, TriOf(s)).Some? && LineOf(K, prefix, m, s, line)
    requires NameOk(K.syms[s].name) && NameOk(name)
    ensures About(prefix, name, line) <==> name == K.syms[s].name
  {
    var own := K.syms[s].name;
    var assigns, unsets := prefix + own + "=", "# " + prefix + own + NOT_SET;
    assert StartsWith(line, assigns) || StartsWith(line, unsets) by { LineStarts(K, prefix, m, s, line); }
    hide LineOf, NameOk;
    if StartsWith(line, assigns) {
      NotBoth(line, prefix, own, name + NOT_SET);
      assert "# " + prefix + (name + NOT_SET) == "# " + prefix + name + NOT_SET;
      if StartsWith(line, prefix + name + "=") { SameNameSet(line, prefix, own, name); }
    } else {
      if StartsWith(line, prefix + name + "=") {
        assert "# " + prefix + (own + NOT_SET) == unsets;
        NotBoth(line, prefix, name, own + NOT_SET);
      }
      if StartsWith(line, "# " + prefix + name + NOT_SET) { SameNameUnset(line, "# " + prefix, own, name); }
    }
  }

  lemma SameNameSet(line: string, p: string, x: string, y: string)
    requires NameOk(x) && NameOk(y) && StartsWith(line, p + x + "=") && StartsWith(line, p + y + "=")
    ensures x == y
  {
    SameUpTo(line, p, x, y, '=');
  }

  lemma SameNameUnset(line: string, p: string, x: string, y: string)
    requires NameOk(x) && NameOk(y) && StartsWith(line, p + x + NOT_SET) && StartsWith(line, p + y + NOT_SET)
    ensures x == y
  {
    StartOfSpace(line, p, x);
    StartOfSpace(line, p, y);
    SameUpTo(line, p, x, y, ' ');
  }

  lemma StartOfSpace(line: string, p: string, x: string)
    requires StartsWith(line, p + x + NOT_SET)
    ensures StartsWith(line, p + x + [' '])
  {
    assert NOT_SET == [' '] + "is not set";
    assert line[..|p + x + [' ']|] == line[..|p + x + NOT_SET|][..|p + x + [' ']|];
  }

  lemma LineStarts(K: Config, prefix: string, m: Cache, s: SymId, line: string)
    requires SymOk(K, s) && GetT(m, TriOf(s)).Some? && LineOf(K, prefix, m, s, line)
    ensures StartsWith(line, prefix + K.syms[s].name + "=") || StartsWith(line, "# " + prefix + K.syms[s].name + NOT_SET)
  {
    var d := K.syms[s];
    assert prefix + d.name + "=m" == prefix + d.name + "=" + "m";
    assert prefix + d.name + "=y" == prefix + d.name + "=" + "y";
  }

  // Minimal files

  lemma {:induction false} MinimalMentions(
    K: Config, prefix: string, header: seq<string>, U: Users, m: Cache, n: nat, s: SymId)
    requires ConfigOk(K) && NamesOk(K) && Solves(K, U, m) && s in K.definedSyms && SymOk(K, s) && n <= |K.definedSyms|
    requires Silent(K, prefix, s, header)
    ensures Silent(K, prefix, s, Minimal(K, prefix, header, U, m, n)) <==>
      !(s in K.definedSyms[..n] && KeptInMinimal(K, U, m, s) == Some(true) && SymLine(K, prefix, U, m, s).Some?)
  {
    if n == 0 {
    } else {
      var t := K.definedSyms[n - 1];
      MinimalMentions(K, prefix, header, U, m, n - 1, s);
      assert K.definedSyms[..n] == K.definedSyms[..n - 1] + [t];
      WritesAbout(K, prefix, U, m, t, s);
      var lines := Minimal(K, prefix, header, U, m, n - 1);
      hide ConfigOk, NamesOk, Solves, KeptInMinimal, SymLine, About, Silent;
      assert Minimal(K, prefix, header, U, m, n) == AddMinimal(K, prefix, U, m, lines, t);
      if SymLine(K, prefix, U, m, t).Some? { SilentAppend(K, prefix, s, lines, SymLine(K, prefix, U, m, t).value); }
      hide Minimal;
    }
  }

  lemma SilentAppend(K: Config, prefix: string, s: SymId, lines: seq<string>, line: string)
    requires SymOk(K, s)
    ensures Silent(K, prefix, s, lines + [line]) <==> Silent(K, prefix, s, lines) && !About(prefix, K.syms[s].name, line)
  {
    var all := lines + [line];
    assert all[|lines|] == line && forall i :: 0 <= i < |lines| ==> all[i] == lines[i];
    hide About;
  }

  lemma WritesAbout(K: Config, prefix: string, U: Users, m: Cache, t: SymId, s: SymId)
    requires ConfigOk(K) && NamesOk(K) && Solves(K, U, m) && s in K.definedSyms && SymOk(K, s) && t in K.definedSyms
    ensures SymOk(K, t)
    ensures SymLine(K, prefix, U, m, t).Some? ==> (About(prefix, K.syms[s].name, SymLine(K, prefix, U, m, t).value) <==> t == s)
  {
    SymbolOfName(K, s);
    SymbolOfName(K, t);
    SolutionKnows(K, U, m, TriOf(t));
    LineMeans(K, prefix, U, m, t);
    hide ConfigOk, NamesOk, Solves, SymLine, NameOk, About, LineOf;
    if SymLine(K, prefix, U, m, t).Some? {
      LineIsAbout(K, prefix, m, t, K.syms[s].name, SymLine(K, prefix, U, m, t).value);
    }
  }

  /** A symbol with a line in the full configuration file has none in the minimal one exactly if it is left out. */
  lemma MinimalIsMinimal(
    K: Config, rank: Key -> nat, prefix: string, header: seq<string>, U: Users, m: Cache, m0: Cache, s: SymId)
    requires ConfigOk(K) && NamesOk(K) && Ranked(K, rank) && UserStateOk(K, U)
    requires s in K.definedSyms && SymOk(K, s) && SymDefOk(K, s)
    requires Solves(K, U, m) && Solves(K, AfterUnset(U, s), m0) && m.Keys >= {WriteOf(s)} && m[WriteOf(s)] == B(true)
    requires Silent(K, prefix, s, header)
    ensures Silent(K, prefix, s, Minimal(K, prefix, header, U, m, |K.definedSyms|)) <==> LeftOut(K, U, m, m0, s)
  {
    assert K.definedSyms[..|K.definedSyms|] == K.definedSyms;
    MinimalMentions(K, prefix, header, U, m, |K.definedSyms|, s);
    LineMeans(K, prefix, U, m, s);
    var i := SomeDefaultIsFirst(K, U, m, K.syms[s].origType, K.syms[s].defaults, 0);
    WrittenMeans(K, U, m, s, i);
    KeptIsNotLeftOut(K, rank, U, m, m0, s);
  }

  /** No symbol without a line in the full file has one in the minimal file. */
  lemma MinimalIsPart(K: Config, prefix: string, header: seq<string>, U: Users, m: Cache, s: SymId)
    requires ConfigOk(K) && NamesOk(K) && Solves(K, U, m) && s in K.definedSyms && SymOk(K, s)
    requires m.Keys >= {WriteOf(s)} && m[WriteOf(s)] == B(false) && Silent(K, prefix, s, header)
    ensures Silent(K, prefix, s, Minimal(K, prefix, header, U, m, |K.definedSyms|))
  {
    MinimalMentions(K, prefix, header, U, m, |K.definedSyms|, s);
    LineMeans(K, prefix, U, m, s);
  }

  // Full files

  /** Whether the entry at position n of the walk adds something to the file. */
  ghost predicate Shows(K: Config, prefix: string, U: Users, m: Cache, walk: seq<Entry>, n: nat)
    requires ConfigOk(K) && WalkOk(K, walk) && n < |walk|
  {
    assert EntryOk(K, walk[n]);
    match walk[n]
    case SymNode(s) => (forall j :: 0 <= j < n ==> walk[j] != walk[n]) && SymLine(K, prefix, U, m, s).Some?
    case HeadNode(isMenu, _, dep, visible) => Truth(K, U, m, dep) != 0 && (isMenu ==> Truth(K, U, m, visible) != 0)
    case MenuEnd(_, dep, visible) => Truth(K, U, m, dep) != 0 && Truth(K, U, m, visible) != 0
  }

  /** The last thing in the file before position n is the end of a menu. */
  ghost predicate BehindEnd(K: Config, prefix: string, U: Users, m: Cache, walk: seq<Entry>, n: nat)
    requires ConfigOk(K) && WalkOk(K, walk) && n <= |walk|
  {
    exists j :: 0 <= j < n && walk[j].MenuEnd? && Shows(K, prefix, U, m, walk, j) &&
      forall k :: j < k < n ==> !Shows(K, prefix, U, m, walk, k)
  }

  /** What the entry at position n adds. */
  ghost function Piece(K: Config, prefix: string, U: Users, m: Cache, walk: seq<Entry>, n: nat): seq<string>
    requires ConfigOk(K) && WalkOk(K, walk) && n < |walk|
  {
    assert EntryOk(K, walk[n]);
    if !Shows(K, prefix, U, m, walk, n) then []
    else
      match walk[n]
      case SymNode(s) =>
        (if BehindEnd(K, prefix, U, m, walk, n) then [""] else []) + [SymLine(K, prefix, U, m, s).value]
      case HeadNode(_, title, _, _) => ["", "#", "# " + title, "#"]
      case MenuEnd(title, _, _) => ["# end of " + title]
  }

  ghost predicate WriterAt(K: Config, prefix: string, U: Users, m: Cache, walk: seq<Entry>, n: nat, w: Writer)
    requires ConfigOk(K) && WalkOk(K, walk) && n <= |walk|
  {
    && (forall s :: s in w.visited <==> SymNode(s) in walk[..n])
    && (w.afterEnd <==> BehindEnd(K, prefix, U, m, walk, n))
  }

  lemma BehindEndNext(K: Config, prefix: string, U: Users, m: Cache, walk: seq<Entry>, n: nat)
    requires ConfigOk(K) && WalkOk(K, walk) && n < |walk|
    ensures BehindEnd(K, prefix, U, m, walk, n + 1) <==>
      if Shows(K, prefix, U, m, walk, n) then walk[n].MenuEnd? else BehindEnd(K, prefix, U, m, walk, n)
  {
    hide Shows;
    if Shows(K, prefix, U, m, walk, n) {
      assert walk[n].MenuEnd? ==> BehindEnd(K, prefix, U, m, walk, n + 1);
    } else if BehindEnd(K, prefix, U, m, walk, n) {
      var j :| 0 <= j < n && walk[j].MenuEnd? && Shows(K, prefix, U, m, walk, j) &&
        forall k :: j < k < n ==> !Shows(K, prefix, U, m, walk, k);
      assert forall k :: j < k < n + 1 ==> !Shows(K, prefix, U, m, walk, k);
    }
  }

  lemma WriterNext(K: Config, prefix: string, U: Users, m: Cache, walk: seq<Entry>, n: nat, w: Writer)
    requires ConfigOk(K) && Solves(K, U, m) && WalkOk(K, walk) && n < |walk| && WriterAt(K, prefix, U, m, walk, n, w)
    ensures EntryOk(K, walk[n])
    ensures
      var w' := WriteEntry(K, prefix, U, m, w, walk[n]);
      w'.lines == w.lines + Piece(K, prefix, U, m, walk, n) && WriterAt(K, prefix, U, m, walk, n + 1, w')
  {
    assert EntryOk(K, walk[n]);
    assert walk[..n + 1] == walk[..n] + [walk[n]];
    BehindEndNext(K, prefix, U, m, walk, n);
    match walk[n]
    case SymNode(s) => assert s in w.visited <==> exists j :: 0 <= j < n && walk[j] == walk[n];
    case HeadNode(_, _, dep, visible) =>
      TruthIsEval(K, U, m, dep);
      TruthIsEval(K, U, m, visible);
    case MenuEnd(_, dep, visible) =>
      TruthIsEval(K, U, m, dep);
      TruthIsEval(K, U, m, visible);
  }

  lemma {:induction false} WriterIsAt(K: Config, prefix: string, header: seq<string>, U: Users, m: Cache, walk: seq<Entry>, n: nat)
    requires ConfigOk(K) && Solves(K, U, m) && WalkOk(K, walk) && n <= |walk|
    ensures WalkOk(K, walk[..n]) && WriterAt(K, prefix, U, m, walk, n, Contents(K, prefix, header, U, m, walk[..n]))
  {
    if n == 0 {
    } else {
      WriterIsAt(K, prefix, header, U, m, walk, n - 1);
      assert walk[..n][..n - 1] == walk[..n - 1];
      WriterNext(K, prefix, U, m, walk, n - 1, Contents(K, prefix, header, U, m, walk[..n - 1]));
    }
  }

  /**
   * The file is the header and what each entry of the walk adds: each symbol with a line has it where
   * it occurs first, with an empty line before it behind the end of a menu; menus and comments have
   * headings as far as their conditions are met, and menus are closed under the same conditions.
   */
  lemma ContentsMean(K: Config, prefix: string, header: seq<string>, U: Users, m: Cache, walk: seq<Entry>, n: nat)
    requires ConfigOk(K) && Solves(K, U, m) && WalkOk(K, walk) && n < |walk|
    ensures Contents(K, prefix, header, U, m, []).lines == header
    ensures WalkOk(K, walk[..n]) && WalkOk(K, walk[..n + 1])
    ensures Contents(K, prefix, header, U, m, walk[..n + 1]).lines ==
      Contents(K, prefix, header, U, m, walk[..n]).lines + Piece(K, prefix, U, m, walk, n)
  {
    WriterIsAt(K, prefix, header, U, m, walk, n);
    assert walk[..n + 1][..n] == walk[..n];
    WriterNext(K, prefix, U, m, walk, n, Contents(K, prefix, header, U, m, walk[..n]));
  }
}
