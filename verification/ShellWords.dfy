/** Quoting for the link line that the build script hands to a POSIX shell, and the shell's own
    reading of it (sections 2.2.1 to 2.2.3 and 2.3 of the Shell Command Language). */
module ShellWords {
  import opened Basics

  // ---------------------------------------------------------------- the shell

  datatype Mode = Bare | Single | Double

  /** Unquoted characters that do more than stand for themselves. */
  predicate Active(c: char, startsWord: bool) {
    c in {'|', '&', ';', '<', '>', '(', ')', '$', '`', '*', '?', '[', '\n'} || (startsWord && c in {'#', '~'})
  }

  predicate Blank(c: char) {
    c == ' ' || c == '\t'
  }

  function Close(done: seq<string>, word: Option<string>): seq<string> {
    if word.Some? then done + [word.value] else done
  }

  function Grow(word: Option<string>, c: char): Option<string> {
    Some(Begun(word) + [c])
  }

  function Begun(word: Option<string>): string {
    if word.Some? then word.value else []
  }

  /** The words of a command line, or `None` when it needs more than quoting to be understood:
      an operator, an expansion, a pattern, a comment or a quote that is not closed. */
  function Words(s: string, mode: Mode, word: Option<string>, done: seq<string>): Option<seq<string>>
    decreases |s|
  {
    if s == [] then (if mode == Bare then Some(Close(done, word)) else None)
    else
      var c, rest := s[0], s[1..];
      match mode
      case Single => if c == '\'' then Words(rest, Bare, word, done) else Words(rest, Single, Grow(word, c), done)
      case Double =>
        if c == '"' then Words(rest, Bare, word, done)
        else if c in {'$', '`'} then None
        else if c == '\\' && rest != [] && rest[0] in {'$', '`', '"', '\\'} then Words(rest[1..], Double, Grow(word, rest[0]), done)
        else if c == '\\' && rest != [] && rest[0] == '\n' then Words(rest[1..], Double, word, done)
        else Words(rest, Double, Grow(word, c), done)
      case Bare =>
        if Blank(c) then Words(rest, Bare, None, Close(done, word))
        else if c == '\'' then Words(rest, Single, Some(Begun(word)), done)
        else if c == '"' then Words(rest, Double, Some(Begun(word)), done)
        else if c == '\\' then
          if rest == [] then None
          else if rest[0] == '\n' then Words(rest[1..], Bare, word, done)
          else Words(rest[1..], Bare, Grow(word, rest[0]), done)
        else if Active(c, word.None?) then None
        else Words(rest, Bare, Grow(word, c), done)
  }

  function Split(line: string): Option<seq<string>> {
    Words(line, Bare, None, [])
  }

  // -------------------------------------------------------------- the build script

  /** Every single quote replaced by: close, a quoted quote, reopen. */
  function Escaped(value: string): string {
    if value == [] then []
    else (if value[0] == '\'' then "'\"'\"'" else [value[0]]) + Escaped(value[1..])
  }

  function ShellQuote(value: string): string {
    "'" + Escaped(value) + "'"
  }

  /** Inside the quotes, and then past the closing one. */
  lemma {:induction false} EscapedReads(value: string, rest: string, word: string, done: seq<string>)
    ensures Words(Escaped(value) + "'" + rest, Single, Some(word), done) == Words(rest, Bare, Some(word + value), done)
    decreases |value|
  {
    if value == [] {
      assert Escaped(value) + "'" + rest == "'" + rest;
      assert word + value == word;
    } else {
      var tail := Escaped(value[1..]) + "'" + rest;
      EscapedReads(value[1..], rest, word + [value[0]], done);
      assert word + [value[0]] + value[1..] == word + value;
      if value[0] == '\'' {
        assert Escaped(value) + "'" + rest == "'\"'\"'" + tail;
        QuoteReads(tail, word, done);
      } else {
        assert Escaped(value) + "'" + rest == [value[0]] + tail;
      }
    }
  }

  /** A quote, spelled in five characters, from inside quotes back to inside quotes. */
  lemma QuoteReads(tail: string, word: string, done: seq<string>)
    ensures Words("'\"'\"'" + tail, Single, Some(word), done) == Words(tail, Single, Some(word + "'"), done)
  {
    var s := "'\"'\"'" + tail;
    assert s[1..] == "\"'\"'" + tail && s[2..] == "'\"'" + tail && s[3..] == "\"'" + tail && s[4..] == "'" + tail;
    assert Words("'" + tail, Bare, Some(word + "'"), done) == Words(tail, Single, Some(word + "'"), done);
    assert Words("\"'" + tail, Double, Some(word + "'"), done) == Words("'" + tail, Bare, Some(word + "'"), done);
    assert Words("'\"'" + tail, Double, Some(word), done) == Words("\"'" + tail, Double, Some(word + "'"), done);
    assert Words("\"'\"'" + tail, Bare, Some(word), done) == Words("'\"'" + tail, Double, Some(word), done);
  }

  lemma QuotedReads(value: string, rest: string, done: seq<string>)
    ensures Words(ShellQuote(value) + rest, Bare, None, done) == Words(rest, Bare, Some(value), done)
  {
    var tail := Escaped(value) + "'" + rest;
    assert ShellQuote(value) + rest == "'" + tail;
    EscapedReads(value, rest, "", done);
    assert "" + value == value;
  }

  /** For every string the shell reads the quoted form as that one word. */
  lemma QuoteRoundTrip(value: string)
    ensures Split(ShellQuote(value)) == Some([value])
  {
    QuotedReads(value, "", []);
    assert ShellQuote(value) + "" == ShellQuote(value);
    assert Close([], Some(value)) == [value];
  }

  // ------------------------------------------------------------------ link line

  predicate SafeChar(c: char) {
    'a' <= c <= 'z' || 'A' <= c <= 'Z' || '0' <= c <= '9' || c in {'-', '_', '+', '.', ',', '=', ':', '/'}
  }

  /** What the maintainer check lets through. */
  predicate SafeFlag(flag: string) {
    flag != [] && forall i | 0 <= i < |flag| :: SafeChar(flag[i])
  }

  function Join(pieces: seq<string>): string {
    if pieces == [] then []
    else if |pieces| == 1 then pieces[0]
    else pieces[0] + " " + Join(pieces[1..])
  }

  const GCC_RUNTIME: string := "-lgcc_s"

  function Replaced(flag: string, runtime: string): string {
    if flag == GCC_RUNTIME then ShellQuote(runtime) else flag
  }

  /** `runtime` is the first candidate library that exists. */
  function ResolveSystemLinkFlags(hostKey: string, flags: seq<string>, runtime: Option<string>): Option<seq<string>> {
    if hostKey != "linux-arm64" || GCC_RUNTIME !in flags then Some(flags)
    else if runtime.None? then None
    else Some(seq(|flags|, i requires 0 <= i < |flags| => Replaced(flags[i], runtime.value)))
  }

  function LinkLine(library: string, hostKey: string, flags: seq<string>, runtime: Option<string>): Option<string> {
    match ResolveSystemLinkFlags(hostKey, flags, runtime)
    case None => None
    case Some(resolved) => Some(Join([ShellQuote(library)] + resolved))
  }

  /** There is no line exactly when the runtime has to be replaced and none was found. */
  lemma LinkLineFails(library: string, hostKey: string, flags: seq<string>, runtime: Option<string>)
    ensures LinkLine(library, hostKey, flags, runtime).None?
       <==> hostKey == "linux-arm64" && (exists i :: 0 <= i < |flags| && flags[i] == "-lgcc_s") && runtime.None?
  {
    assert GCC_RUNTIME in flags <==> exists i :: 0 <= i < |flags| && flags[i] == "-lgcc_s";
  }

  /** A piece reads as the word `value`, whatever follows it. */
  ghost predicate Reads(piece: string, value: string) {
    forall rest, done :: Words(piece + rest, Bare, None, done) == Words(rest, Bare, Some(value), done)
  }

  lemma {:induction false} FlagReadsFrom(flag: string, rest: string, word: string, done: seq<string>)
    requires forall i | 0 <= i < |flag| :: SafeChar(flag[i])
    ensures Words(flag + rest, Bare, Some(word), done) == Words(rest, Bare, Some(word + flag), done)
    decreases |flag|
  {
    if flag == [] {
      assert flag + rest == rest && word + flag == word;
    } else {
      assert SafeChar(flag[0]);
      assert (flag + rest)[1..] == flag[1..] + rest;
      FlagReadsFrom(flag[1..], rest, word + [flag[0]], done);
      assert word + [flag[0]] + flag[1..] == word + flag;
    }
  }

  lemma FlagReads(flag: string)
    requires SafeFlag(flag)
    ensures Reads(flag, flag)
  {
    hide Words;
    forall rest, done ensures Words(flag + rest, Bare, None, done) == Words(rest, Bare, Some(flag), done) {
      FlagBegins(flag, rest, done);
    }
  }

  lemma FlagBegins(flag: string, rest: string, done: seq<string>)
    requires SafeFlag(flag)
    ensures Words(flag + rest, Bare, None, done) == Words(rest, Bare, Some(flag), done)
  {
    var c := flag[0];
    assert SafeChar(c);
    SafeReads(c, flag[1..] + rest, done);
    hide Words;
    FlagReadsFrom(flag[1..], rest, [c], done);
    assert flag + rest == [c] + (flag[1..] + rest) && [c] + flag[1..] == flag;
  }

  lemma SafeReads(c: char, rest: string, done: seq<string>)
    requires SafeChar(c)
    ensures Words([c] + rest, Bare, None, done) == Words(rest, Bare, Some([c]), done)
  {
    assert ([c] + rest)[1..] == rest && [] + [c] == [c];
  }

  lemma QuoteReadsAlways(value: string)
    ensures Reads(ShellQuote(value), value)
  {
    forall rest, done ensures Words(ShellQuote(value) + rest, Bare, None, done) == Words(rest, Bare, Some(value), done) {
      QuotedReads(value, rest, done);
    }
  }

  /** Words that read as themselves, joined by spaces, split into themselves. */
  lemma {:induction false} JoinReads(pieces: seq<string>, values: seq<string>, done: seq<string>)
    requires |pieces| == |values| && forall i | 0 <= i < |pieces| :: Reads(pieces[i], values[i])
    ensures Words(Join(pieces), Bare, None, done) == Some(done + values)
    decreases |pieces|
  {
    if |pieces| == 0 {
      assert done + values == done;
    } else if |pieces| == 1 {
      assert Reads(pieces[0], values[0]);
      assert pieces[0] + "" == pieces[0];
      assert Words("", Bare, Some(values[0]), done) == Some(done + [values[0]]);
      assert values == [values[0]];
    } else {
      assert Reads(pieces[0], values[0]);
      var rest := " " + Join(pieces[1..]);
      assert Join(pieces) == pieces[0] + rest;
      assert Words(rest, Bare, Some(values[0]), done) == Words(Join(pieces[1..]), Bare, None, done + [values[0]]) by {
        assert rest[1..] == Join(pieces[1..]);
      }
      JoinReads(pieces[1..], values[1..], done + [values[0]]);
      assert done + [values[0]] + values[1..] == done + values;
    }
  }

  /** The word a flag stands for: itself, or the runtime library in its place. */
  function MeantFlag(hostKey: string, flag: string, runtime: Option<string>): string {
    if hostKey == "linux-arm64" && flag == GCC_RUNTIME && runtime.Some? then runtime.value else flag
  }

  lemma ResolvedReads(hostKey: string, flags: seq<string>, runtime: Option<string>, i: nat)
    requires i < |flags| && SafeFlag(flags[i]) && ResolveSystemLinkFlags(hostKey, flags, runtime).Some?
    ensures var resolved := ResolveSystemLinkFlags(hostKey, flags, runtime).value;
            |resolved| == |flags| && Reads(resolved[i], MeantFlag(hostKey, flags[i], runtime))
  {
    hide Reads;
    hide ShellQuote;
    FlagReads(flags[i]);
    if runtime.Some? { QuoteReadsAlways(runtime.value); }
    assert flags[i] in flags;
  }

  /** The words the line means: the library, then the flags with the runtime in place of its flag. */
  function Meant(library: string, hostKey: string, flags: seq<string>, runtime: Option<string>): seq<string> {
    [library] + seq(|flags|, i requires 0 <= i < |flags| => MeantFlag(hostKey, flags[i], runtime))
  }

  /** Whatever the paths contain, the link line splits back into the library and the flags. */
  lemma LinkLineRoundTrip(library: string, hostKey: string, flags: seq<string>, runtime: Option<string>)
    requires forall i | 0 <= i < |flags| :: SafeFlag(flags[i])
    requires LinkLine(library, hostKey, flags, runtime).Some?
    ensures Split(LinkLine(library, hostKey, flags, runtime).value) == Some(Meant(library, hostKey, flags, runtime))
  {
    hide MeantFlag;
    hide Join;
    hide Replaced;
    hide Reads;
    hide Words;
    hide ShellQuote;
    var resolved := ResolveSystemLinkFlags(hostKey, flags, runtime).value;
    var pieces := [ShellQuote(library)] + resolved;
    var values := Meant(library, hostKey, flags, runtime);
    QuoteReadsAlways(library);
    forall i | 0 <= i < |pieces| ensures Reads(pieces[i], values[i]) {
      if i > 0 {
        ResolvedReads(hostKey, flags, runtime, i - 1);
        assert values[i] == MeantFlag(hostKey, flags[i - 1], runtime);
      }
    }
    JoinReads(pieces, values, []);
    assert [] + values == values;
  }
}
