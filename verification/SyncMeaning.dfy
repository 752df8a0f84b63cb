/** What a sync touches for symbols that are gone, and the lines of the C header and of auto.conf. */
module SyncMeaning {
  import opened Wrappers
  import opened Config
  import opened Values
  import opened Meaning
  import opened ValueLaws
  import opened ConfText
  import opened ConfigFile
  import opened SyncDeps
  import opened LoadMeaning
  import opened FileMeaning

  /** The line assigns to this name. */
  ghost predicate AssignsTo(prefix: string, name: string, line: string) {
    exists val :: name != "" && '=' !in name && line == prefix + name + "=" + val
  }

  /** The name does not occur in the Kconfig files. */
  ghost predicate Gone(K: Config, name: string) {
    forall s :: 0 <= s < |K.syms| && K.syms[s].name == name ==> K.syms[s].isConst
  }

  lemma GoneNameIs(K: Config, prefix: string, line: string, name: string)
    ensures GoneName(K, prefix, line) == Some(name) <==> AssignsTo(prefix, name, line) && Gone(K, name)
  {
    SetIsAbout(prefix, line);
    if AssignsTo(prefix, name, line) {
      var val :| name != "" && '=' !in name && line == prefix + name + "=" + val;
      SetMatches(prefix, name, val);
    }
  }

  /** Exactly the names that auto.conf assigns to and that no longer occur are touched because they are gone. */
  lemma {:induction false} GoneNamesAre(K: Config, prefix: string, lines: seq<string>, name: string)
    ensures name in GoneNames(K, prefix, lines) <==>
      Gone(K, name) && exists i :: 0 <= i < |lines| && AssignsTo(prefix, name, lines[i])
    decreases |lines|
  {
    if lines == [] {
    } else {
      var front, last := lines[..|lines| - 1], lines[|lines| - 1];
      GoneNamesAre(K, prefix, front, name);
      GoneNameIs(K, prefix, last, name);
      assert lines == front + [last];
    }
  }

  lemma {:induction false} SignalledAre(K: Config, U: Users, m: Cache, oldVals: map<SymId, string>, n: nat, name: string)
    requires ConfigOk(K) && n <= |K.definedSyms|
    ensures name in SignalledNames(K, U, m, oldVals, n) <==>
      exists i :: 0 <= i < n && SignalledIn(K, U, m, K.definedSyms[i], oldVals) && K.syms[K.definedSyms[i]].name == name
  {
    hide SignalledIn;
    if n == 0 {
    } else {
      SignalledAre(K, U, m, oldVals, n - 1, name);
    }
  }

  /** A sync touches the names that are gone and those of the symbols that are signalled, and no others. */
  lemma TouchedAre(K: Config, prefix: string, U: Users, m: Cache, lines: seq<string>, name: string)
    requires ConfigOk(K)
    ensures name in Touched(K, prefix, U, m, lines) <==>
      || (Gone(K, name) && exists i :: 0 <= i < |lines| && AssignsTo(prefix, name, lines[i]))
      || (exists i :: 0 <= i < |K.definedSyms| && K.syms[K.definedSyms[i]].name == name &&
            SignalledIn(K, U, m, K.definedSyms[i], OldVals(K, prefix, lines)))
  {
    GoneNamesAre(K, prefix, lines, name);
    SignalledAre(K, U, m, OldVals(K, prefix, lines), |K.definedSyms|, name);
    hide SignalledIn, OldVals, GoneNames;
  }

  predicate HasHexPrefix(text: string) { StartsWith(text, "0x") || StartsWith(text, "0X") }

  /** The definition of a symbol in the C header, from its value. */
  ghost predicate DefineOf(K: Config, prefix: string, m: Cache, s: SymId, line: Option<string>)
    requires SymOk(K, s) && GetS(m, StrOf(s)).Some?
  {
    var head, text := "#define " + prefix + K.syms[s].name, GetS(m, StrOf(s)).value;
    match K.syms[s].origType
    case String => exists q :: line == Some(head + " \"" + q + "\"") && Escapes(q, text) && NothingElseEscaped(q)
    case Hex => line == Some(head + " " + (if HasHexPrefix(text) then text else "0x" + text))
    case Bool => TriDefine(m, s, head, line)
    case Tristate => TriDefine(m, s, head, line)
    case _ => line == Some(head + " " + text)
  }

  /** y is defined as 1, m under the name of the module, and n not at all. */
  ghost predicate TriDefine(m: Cache, s: SymId, head: string, line: Option<string>) {
    && (GetT(m, TriOf(s)) == Some(0) ==> line == None)
    && (GetT(m, TriOf(s)) == Some(1) ==> line == Some(head + "_MODULE 1"))
    && (GetT(m, TriOf(s)) == Some(2) ==> line == Some(head + " 1"))
  }

  /** The C header defines exactly the symbols that are written, by their values. */
  lemma HeaderMeans(K: Config, prefix: string, U: Users, m: Cache, s: SymId)
    requires ConfigOk(K) && Solves(K, U, m) && SymOk(K, s)
    ensures Known(K, U, m, WriteOf(s)) && Known(K, U, m, StrOf(s))
    ensures !m[WriteOf(s)].flag ==> HeaderIn(K, prefix, U, m, s) == None
    ensures m[WriteOf(s)].flag ==> DefineOf(K, prefix, m, s, HeaderIn(K, prefix, U, m, s))
  {
    SolutionKnows(K, U, m, WriteOf(s));
    SolutionKnows(K, U, m, StrOf(s));
    SolutionKnows(K, U, m, TriOf(s));
    EscapeEscapes(m[StrOf(s)].str);
    hide WriteToConf, ConfigOk, Solves, Escapes, NothingElseEscaped, Escape;
  }

  /** auto.conf has the lines of the configuration file, but none for n. */
  lemma AutoLineMeans(K: Config, prefix: string, U: Users, m: Cache, s: SymId)
    requires ConfigOk(K) && Solves(K, U, m) && SymOk(K, s)
    ensures Known(K, U, m, WriteOf(s)) && Known(K, U, m, TriOf(s))
    ensures AutoLine(K, prefix, U, m, s).Some? <==> m[WriteOf(s)].flag && !(Boolish(K.syms[s].origType) && m[TriOf(s)].t == 0)
    ensures AutoLine(K, prefix, U, m, s).Some? ==> LineOf(K, prefix, m, s, AutoLine(K, prefix, U, m, s).value)
  {
    LineMeans(K, prefix, U, m, s);
    SolutionKnows(K, U, m, TriOf(s));
  }
}
