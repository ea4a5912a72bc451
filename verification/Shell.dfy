/**
 * Quoting words for a shell, against the shell's own rules: sections 2.2.1 (escape character) and
 * 2.2.2 (single-quotes) of the POSIX.1-2017 Shell Command Language.
 */
module Shell {
  import opened Common

  predicate IsSafeShellChar(c: char) {
    'a' <= c <= 'z' || 'A' <= c <= 'Z' || '0' <= c <= '9' || c in {'-', '_', '.', '/', ':', '=', ','}
  }

  /** `s` with every single quote closed, escaped and reopened. */
  function EscapeQuotes(s: string): string {
    if s == "" then "" else (if s[0] == '\'' then "'\\''" else [s[0]]) + EscapeQuotes(s[1..])
  }

  function PosixQuote(s: string): string {
    if s != "" && forall i :: 0 <= i < |s| ==> IsSafeShellChar(s[i]) then s
    else "'" + EscapeQuotes(s) + "'"
  }

  /** The words of a command line: each quoted, separated by spaces. */
  function CommandLine(words: seq<string>): string {
    if words == [] then ""
    else if |words| == 1 then PosixQuote(words[0])
    else PosixQuote(words[0]) + " " + CommandLine(words[1..])
  }

  // ---- The shell's side --------------------------------------------------------------------

  predicate IsBlank(c: char) { c == ' ' || c == '\t' }

  /** Unquoted, these make the shell do more than split: operators, expansions, globs, comments. */
  predicate IsSpecial(c: char) {
    c in {'|', '&', ';', '<', '>', '(', ')', '$', '`', '"', '*', '?', '[', '#', '~', '%', '\n'}
  }

  /**
   * The words a shell reads from `line`, or None when a quote is left open or something other than
   * a plain word appears. `word` is the word being read, if any; `quoted` says a single quote is open.
   */
  function Split(line: string, word: Option<string>, quoted: bool): Option<seq<string>>
    decreases |line|
  {
    if line == "" then
      if quoted then None else Some(if word.Some? then [word.value] else [])
    else
      var c, rest := line[0], line[1..];
      var read := if word.Some? then word.value else "";
      if quoted then
        if c == '\'' then Split(rest, Some(read), false) else Split(rest, Some(read + [c]), true)
      else if c == '\'' then Split(rest, Some(read), true)
      else if c == '\\' then
        if rest == "" then None
        else if rest[0] == '\n' then Split(rest[1..], word, false)
        else Split(rest[1..], Some(read + [rest[0]]), false)
      else if IsBlank(c) then
        match Split(rest, None, false)
        case None => None
        case Some(words) => Some(if word.Some? then [word.value] + words else words)
      else if IsSpecial(c) then None
      else Split(rest, Some(read + [c]), false)
  }

  // ---- Round trip --------------------------------------------------------------------------

  lemma SafeStart(c: char, rest: string)
    requires IsSafeShellChar(c)
    ensures Split([c] + rest, None, false) == Split(rest, Some([c]), false)
  {
    assert ([c] + rest)[1..] == rest && "" + [c] == [c];
  }

  lemma {:induction false} SafeRun(s: string, rest: string, read: string)
    requires forall i :: 0 <= i < |s| ==> IsSafeShellChar(s[i])
    ensures Split(s + rest, Some(read), false) == Split(rest, Some(read + s), false)
  {
    if s == "" {
      assert s + rest == rest && read + s == read;
    } else {
      assert IsSafeShellChar(s[0]);
      assert (s + rest)[1..] == s[1..] + rest && (s + rest)[0] == s[0];
      SafeRun(s[1..], rest, read + [s[0]]);
      assert read + [s[0]] + s[1..] == read + s;
    }
  }

  /** An escaped quote closes the quotes, adds a quote and opens them again. */
  lemma QuoteInside(rest: string, read: string)
    ensures Split("'\\''" + rest, Some(read), true) == Split(rest, Some(read + "'"), true)
  {
    var line := "'\\''" + rest;
    assert line[1..] == "\\''" + rest;
    assert line[1..][1..] == "''" + rest;
    assert line[1..][1..][1..] == "'" + rest;
    assert line[1..][1..][1..][1..] == rest;
    assert Split(line[1..][1..][1..], Some(read + "'"), false) == Split(rest, Some(read + "'"), true);
    assert Split(line[1..], Some(read), false) == Split(line[1..][1..][1..], Some(read + "'"), false);
  }

  lemma {:induction false} QuotedRun(s: string, rest: string, read: string)
    ensures Split(EscapeQuotes(s) + "'" + rest, Some(read), true) == Split(rest, Some(read + s), false)
  {
    var line := EscapeQuotes(s) + "'" + rest;
    if s == "" {
      assert line == "'" + rest && line[1..] == rest && read + s == read;
    } else {
      var more := EscapeQuotes(s[1..]) + "'" + rest;
      if s[0] == '\'' {
        assert line == "'\\''" + more;
        QuoteInside(more, read);
      } else {
        assert line == [s[0]] + more && line[1..] == more;
      }
      QuotedRun(s[1..], rest, read + [s[0]]);
      assert read + [s[0]] + s[1..] == read + s;
    }
  }

  /** Whatever follows a quoted word, the shell reads exactly that word first. */
  lemma QuotedWordIsRead(s: string, rest: string)
    ensures Split(PosixQuote(s) + rest, None, false) == Split(rest, Some(s), false)
  {
    if s != "" && forall i :: 0 <= i < |s| ==> IsSafeShellChar(s[i]) {
      assert IsSafeShellChar(s[0]);
      assert s + rest == [s[0]] + (s[1..] + rest) && [s[0]] + s[1..] == s;
      SafeStart(s[0], s[1..] + rest);
      SafeRun(s[1..], rest, [s[0]]);
    } else {
      var line := PosixQuote(s) + rest;
      assert line == "'" + (EscapeQuotes(s) + "'" + rest);
      assert line[1..] == EscapeQuotes(s) + "'" + rest;
      QuotedRun(s, rest, "");
      assert "" + s == s;
    }
  }

  /** The shell reads back exactly the words that were quoted, whatever they contain. */
  lemma {:induction false} QuotingRoundTrips(words: seq<string>)
    ensures Split(CommandLine(words), None, false) == Some(words)
  {
    if |words| == 1 {
      QuotedWordIsRead(words[0], "");
      assert words == [words[0]];
      assert PosixQuote(words[0]) + "" == PosixQuote(words[0]);
    } else if |words| > 1 {
      var rest := " " + CommandLine(words[1..]);
      QuotedWordIsRead(words[0], rest);
      assert CommandLine(words) == PosixQuote(words[0]) + rest;
      assert rest[0] == ' ' && rest[1..] == CommandLine(words[1..]);
      QuotingRoundTrips(words[1..]);
      assert Split(rest, Some(words[0]), false) == Some([words[0]] + words[1..]);
      assert words == [words[0]] + words[1..];
    }
  }

  /** Different word lists make different command lines. */
  lemma CommandLinesDiffer(a: seq<string>, b: seq<string>)
    requires CommandLine(a) == CommandLine(b)
    ensures a == b
  {
    QuotingRoundTrips(a);
    QuotingRoundTrips(b);
  }

  /** Quoting leaves a word as it is exactly when it has characters and all are safe; else it is put in quotes. */
  lemma BareIff(s: string)
    ensures PosixQuote(s) == s <==> s != "" && forall i :: 0 <= i < |s| ==>
      'a' <= s[i] <= 'z' || 'A' <= s[i] <= 'Z' || '0' <= s[i] <= '9' || s[i] in "-_./:=,"
    ensures PosixQuote(s) != s ==> PosixQuote(s)[0] == '\'' && PosixQuote(s)[|PosixQuote(s)| - 1] == '\''
  {
    assert forall c :: IsSafeShellChar(c) <==>
      'a' <= c <= 'z' || 'A' <= c <= 'Z' || '0' <= c <= '9' || c in "-_./:=,";
    EscapedIsNoShorter(s);
    hide EscapeQuotes, IsSafeShellChar;
  }

  lemma {:induction false} EscapedIsNoShorter(s: string)
    ensures |EscapeQuotes(s)| >= |s|
  {
    if s != "" {
      EscapedIsNoShorter(s[1..]);
    }
  }

  /** A word quoting leaves as it is stands for itself. */
  lemma BareWordIsLeftAlone(s: string)
    requires PosixQuote(s) == s
    ensures s != "" && Split(s, None, false) == Some([s])
  {
    QuotedWordIsRead(s, "");
    assert s + "" == s;
  }
}
