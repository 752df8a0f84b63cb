/**
 * The text of one line of a .config file: escaping, quoted strings, and the two
 * patterns that a line is matched against. A line is given without its line break.
 */
module ConfText {
  import opened Wrappers

  predicate IsSpace(c: char) {
    c == ' ' || c == '\t' || c == '\n' || c == '\r' || c == '\U{000B}' || c == '\U{000C}'
  }

  /** str.rstrip() */
  function Rstrip(s: string): string {
    if s != "" && IsSpace(s[|s| - 1]) then Rstrip(s[..|s| - 1]) else s
  }

  /** str.replace() for a single character. */
  function Replace(s: string, c: char, rep: string): string {
    if s == "" then "" else (if s[0] == c then rep else [s[0]]) + Replace(s[1..], c, rep)
  }

  /** escape(): first the backslashes, then the quotes. */
  function Escape(s: string): string {
    Replace(Replace(s, '\\', "\\\\"), '"', "\\\"")
  }

  /** unescape(): a backslash and any character but a line break become that character. */
  function Unescape(s: string): string {
    if |s| >= 2 && s[0] == '\\' && s[1] != '\n' then [s[1]] + Unescape(s[2..])
    else if s == "" then ""
    else [s[0]] + Unescape(s[1..])
  }

  /** The length of the longest run of unescaped or escaped characters. */
  function QuotedLength(s: string): nat {
    if s == "" || s[0] == '"' then 0
    else if s[0] != '\\' then 1 + QuotedLength(s[1..])
    else if |s| >= 2 && s[1] != '\n' then 2 + QuotedLength(s[2..])
    else 0
  }

  lemma {:induction false} QuotedLengthBound(s: string)
    ensures QuotedLength(s) <= |s|
  {
    if s == "" || s[0] == '"' {
    } else if s[0] != '\\' {
      QuotedLengthBound(s[1..]);
    } else if |s| >= 2 && s[1] != '\n' {
      QuotedLengthBound(s[2..]);
    }
  }

  /** What a quoted string literal at the start of val contains. */
  function MatchQuoted(val: string): Option<string> {
    if val == "" || val[0] != '"' then None
    else
      QuotedLengthBound(val[1..]);
      var n := QuotedLength(val[1..]);
      if n < |val| - 1 && val[1 + n] == '"' then Some(val[1..1 + n]) else None
  }

  // escape() one character at a time

  function EscapeChar(c: char): string {
    if c == '\\' then "\\\\" else if c == '"' then "\\\"" else [c]
  }

  lemma {:induction false} ReplaceConcat(a: string, b: string, c: char, rep: string)
    ensures Replace(a + b, c, rep) == Replace(a, c, rep) + Replace(b, c, rep)
  {
    if a == "" {
      assert a + b == b;
    } else {
      ReplaceConcat(a[1..], b, c, rep);
      assert (a + b)[1..] == a[1..] + b;
      var first := if a[0] == c then rep else [a[0]];
      var rest, more := Replace(a[1..], c, rep), Replace(b, c, rep);
      assert first + (rest + more) == (first + rest) + more;
    }
  }

  lemma EscapeCons(c: char, s: string)
    ensures Escape([c] + s) == EscapeChar(c) + Escape(s)
  {
    var first := Replace([c], '\\', "\\\\");
    assert ([c] + s)[1..] == s;
    ReplaceConcat(first, Replace(s, '\\', "\\\\"), '"', "\\\"");
    assert Replace("\\\\", '"', "\\\"") == "\\\\" by {
      assert "\\\\"[1..] == "\\" && "\\"[1..] == "";
      assert Replace("", '"', "\\\"") == "";
      assert Replace("\\", '"', "\\\"") == "\\";
    }
    assert [c][1..] == "";
    assert Replace([c], '"', "\\\"") == if c == '"' then "\\\"" else [c];
    assert Replace([c], '\\', "\\\\") == if c == '\\' then "\\\\" else [c];
  }

  /** unescape(escape(s)) == s, for every string. */
  lemma {:induction false} UnescapeEscape(s: string)
    ensures Unescape(Escape(s)) == s
  {
    if s == "" {
    } else {
      assert s == [s[0]] + s[1..];
      EscapeCons(s[0], s[1..]);
      UnescapeEscape(s[1..]);
      var rest := Escape(s[1..]);
      if s[0] == '\\' || s[0] == '"' {
        assert ("\\" + [s[0]] + rest)[2..] == rest;
        assert Escape(s) == "\\" + [s[0]] + rest;
      } else {
        assert ([s[0]] + rest)[1..] == rest;
      }
    }
  }

  lemma {:induction false} QuotedLengthOfEscape(s: string, rest: string)
    requires rest != "" && rest[0] == '"'
    ensures QuotedLength(Escape(s) + rest) == |Escape(s)|
  {
    if s == "" {
      assert Escape(s) == "" && "" + rest == rest;
    } else {
      assert s == [s[0]] + s[1..];
      EscapeCons(s[0], s[1..]);
      QuotedLengthOfEscape(s[1..], rest);
      var e := Escape(s[1..]);
      if s[0] == '\\' || s[0] == '"' {
        assert (Escape(s) + rest)[2..] == e + rest;
      } else {
        assert (Escape(s) + rest)[1..] == e + rest;
      }
    }
  }

  /** The pattern for quoted strings captures exactly what was escaped, whatever follows. */
  lemma QuotedCapturesEscape(s: string, rest: string)
    ensures MatchQuoted("\"" + Escape(s) + "\"" + rest) == Some(Escape(s))
  {
    var val := "\"" + Escape(s) + "\"" + rest;
    QuotedLengthOfEscape(s, "\"" + rest);
    assert val[1..] == Escape(s) + ("\"" + rest);
    var n := |Escape(s)|;
    assert val[1 + n] == '"' && val[1..1 + n] == Escape(s);
  }

  // Lines

  predicate StartsWith(s: string, p: string) {
    |p| <= |s| && s[..|p|] == p
  }

  /** A hexadecimal value as the user interfaces and the C header write it. */
  function WithPrefix(val: string): string {
    if StartsWith(val, "0x") || StartsWith(val, "0X") then val else "0x" + val
  }

  /** The index of the first c in s; |s| if there is none. */
  function Find(s: string, c: char): nat {
    if s == "" || s[0] == c then 0 else 1 + Find(s[1..], c)
  }

  lemma {:induction false} FindBound(s: string, c: char)
    ensures Find(s, c) <= |s| && (Find(s, c) < |s| ==> s[Find(s, c)] == c)
    ensures Find(s, c) == |s| <==> c !in s
  {
    if s != "" && s[0] != c {
      FindBound(s[1..], c);
      assert s == [s[0]] + s[1..];
    }
  }

  lemma {:induction false} FindAfter(name: string, c: char, rest: string)
    requires c !in name
    ensures Find(name + [c] + rest, c) == |name|
  {
    if name == "" {
      assert name + [c] + rest == [c] + rest;
    } else {
      FindAfter(name[1..], c, rest);
      assert (name + [c] + rest)[1..] == name[1..] + [c] + rest;
    }
  }

  datatype Line = SetLine(name: string, val: string) | UnsetLine(name: string) | OtherLine

  /** `<prefix>([^=]+)=(.*)` */
  function MatchSet(prefix: string, line: string): Option<(string, string)> {
    if !StartsWith(line, prefix) then None
    else
      var rest := line[|prefix|..];
      FindBound(rest, '=');
      var n := Find(rest, '=');
      if 0 < n < |rest| then Some((rest[..n], rest[n + 1..])) else None
  }

  const NOT_SET := " is not set"

  /** `# <prefix>([^ ]+) is not set` */
  function MatchUnset(prefix: string, line: string): Option<string> {
    if !StartsWith(line, "# " + prefix) then None
    else
      var rest := line[|prefix| + 2..];
      FindBound(rest, ' ');
      var n := Find(rest, ' ');
      if 0 < n && StartsWith(rest[n..], NOT_SET) then Some(rest[..n]) else None
  }

  function ParseLine(prefix: string, text: string): Line {
    var line := Rstrip(text);
    match MatchSet(prefix, line)
    case Some((name, val)) => SetLine(name, val)
    case None =>
      match MatchUnset(prefix, line)
      case Some(name) => UnsetLine(name)
      case None => OtherLine
  }

  lemma RstripKeeps(s: string)
    requires s == "" || !IsSpace(s[|s| - 1])
    ensures Rstrip(s) == s
  {
  }

  /** An assignment line is read back as it was written if nothing at its end is stripped. */
  lemma SetLineReads(prefix: string, name: string, val: string)
    requires name != "" && '=' !in name && (val == "" || !IsSpace(val[|val| - 1]))
    ensures ParseLine(prefix, prefix + name + "=" + val) == SetLine(name, val)
  {
    var line := prefix + name + "=" + val;
    assert line[|line| - 1] == if val == "" then '=' else val[|val| - 1];
    RstripKeeps(line);
    FindAfter(name, '=', val);
    assert line[|prefix|..] == name + ['='] + val;
    assert (name + ['='] + val)[|name| + 1..] == val;
  }

  lemma UnsetLineReads(prefix: string, name: string)
    requires '=' !in prefix && name != "" && '=' !in name && ' ' !in name
    ensures ParseLine(prefix, "# " + prefix + name + NOT_SET) == UnsetLine(name)
  {
    var line := "# " + prefix + name + NOT_SET;
    assert line[|line| - 1] == 't';
    RstripKeeps(line);
    assert '=' !in line;
    assert MatchSet(prefix, line).None? by {
      if StartsWith(line, prefix) {
        var rest := line[|prefix|..];
        assert forall c :: c in rest ==> c in line;
        FindBound(rest, '=');
      }
    }
    var rest := name + NOT_SET;
    assert line[|prefix| + 2..] == rest;
    assert NOT_SET == [' '] + "is not set";
    assert rest == name + [' '] + "is not set";
    FindAfter(name, ' ', "is not set");
    assert rest[|name|..] == NOT_SET;
    assert line[..|prefix| + 2] == "# " + prefix;
  }

  // Files

  /** Reading in text mode: "\r\n" and "\r" become "\n". */
  function Universal(s: string): string {
    if |s| >= 2 && s[0] == '\r' && s[1] == '\n' then "\n" + Universal(s[2..])
    else if s == "" then ""
    else (if s[0] == '\r' then "\n" else [s[0]]) + Universal(s[1..])
  }

  /** Each line is followed by a line break. */
  function JoinLines(lines: seq<string>): string {
    if lines == [] then "" else lines[0] + "\n" + JoinLines(lines[1..])
  }

  /** Iterating over an open file, without the line breaks. */
  function SplitLines(s: string): seq<string> {
    if s == "" then []
    else
      FindBound(s, '\n');
      var n := Find(s, '\n');
      if n == |s| then [s] else [s[..n]] + SplitLines(s[n + 1..])
  }

  /** The lines of a file that is read in text mode. */
  function ReadLines(text: string): seq<string> { SplitLines(Universal(text)) }

  predicate OneLine(s: string) {
    '\n' !in s && '\r' !in s
  }

  lemma {:induction false} UniversalKeeps(s: string)
    requires '\r' !in s
    ensures Universal(s) == s
  {
    if s == "" {
    } else {
      assert s == [s[0]] + s[1..];
      UniversalKeeps(s[1..]);
    }
  }

  lemma {:induction false} JoinHasNoCr(lines: seq<string>)
    requires forall i :: 0 <= i < |lines| ==> OneLine(lines[i])
    ensures '\r' !in JoinLines(lines)
  {
    if lines == [] {
    } else {
      JoinHasNoCr(lines[1..]);
    }
  }

  /** What is written line by line is read back line by line. */
  lemma {:induction false} LinesReadBack(lines: seq<string>)
    requires forall i :: 0 <= i < |lines| ==> OneLine(lines[i])
    ensures ReadLines(JoinLines(lines)) == lines
  {
    JoinHasNoCr(lines);
    UniversalKeeps(JoinLines(lines));
    if lines != [] {
      var rest := JoinLines(lines[1..]);
      var text := lines[0] + "\n" + rest;
      assert "\n" == ['\n'];
      FindAfter(lines[0], '\n', rest);
      assert text[..|lines[0]|] == lines[0] && text[|lines[0]| + 1..] == rest;
      LinesReadBack(lines[1..]);
      JoinHasNoCr(lines[1..]);
      UniversalKeeps(rest);
    }
  }

  lemma {:induction false} UniversalHasNoCr(s: string)
    ensures '\r' !in Universal(s)
  {
    if |s| >= 2 && s[0] == '\r' && s[1] == '\n' {
      UniversalHasNoCr(s[2..]);
    } else if s != "" {
      UniversalHasNoCr(s[1..]);
    }
  }

  lemma {:induction false} SplitHasNoBreaks(s: string)
    requires '\r' !in s
    ensures forall i :: 0 <= i < |SplitLines(s)| ==> OneLine(SplitLines(s)[i])
  {
    if s == "" {
    } else {
      FindBound(s, '\n');
      var n := Find(s, '\n');
      FindIsFirst(s, '\n');
      if n < |s| { SplitHasNoBreaks(s[n + 1..]); }
    }
  }

  lemma {:induction false} FindIsFirst(s: string, c: char)
    ensures Find(s, c) <= |s| && c !in s[..Find(s, c)]
  {
    if s != "" && s[0] != c {
      FindIsFirst(s[1..], c);
      assert s[..Find(s, c)] == [s[0]] + s[1..][..Find(s[1..], c)];
    }
  }

  /** Whatever a file contains, its lines contain no line breaks. */
  lemma LinesAreOneLine(text: string)
    ensures forall i :: 0 <= i < |ReadLines(text)| ==> OneLine(ReadLines(text)[i])
  {
    UniversalHasNoCr(text);
    SplitHasNoBreaks(Universal(text));
  }

  lemma {:induction false} UnescapeKeepsChars(s: string)
    ensures forall c :: c in Unescape(s) ==> c in s
  {
    if |s| >= 2 && s[0] == '\\' && s[1] != '\n' {
      UnescapeKeepsChars(s[2..]);
    } else if s != "" {
      UnescapeKeepsChars(s[1..]);
    }
  }
}
