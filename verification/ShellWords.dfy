/** The retry command and how a POSIX shell reads it back (shellQuote and printOutcome in internal/restore/restore.go;
    sections 2.2 and 2.3 of the Shell Command Language, IEEE Std 1003.1-2017). */
module ShellWords {
  import opened Common

  const DEFAULT_IMAGE := "debian:13-slim"

  // ---------- the shell ----------

  predicate Blank(c: char) {
    c == ' ' || c == '\t'
  }

  /** Characters that can mean something to a shell when they are not quoted, besides quotes and blanks. */
  predicate Special(c: char) {
    c in {'|', '&', ';', '<', '>', '(', ')', '$', '`', '\n', '*', '?', '[', '#', '~'}
  }

  function Grown(word: Option<string>, more: string): Option<string> {
    Some((if word.Some? then word.value else "") + more)
  }

  /** Position of the first single quote, or the length. */
  function QuoteAt(s: string): (n: nat)
    ensures n <= |s|
    ensures n < |s| ==> s[n] == '\''
    ensures forall i :: 0 <= i < n ==> s[i] != '\''
  {
    if s == "" || s[0] == '\'' then 0 else 1 + QuoteAt(s[1..])
  }

  /** Text after an opening double quote up to the closing one: the characters meant, and how many were used. None if
      it is not closed or contains an expansion. */
  function DoubleQuoted(s: string): (r: Option<(string, nat)>)
    ensures r.Some? ==> 0 < r.value.1 <= |s|
  {
    if s == "" || s[0] in "$`" then None
    else if s[0] == '"' then Some(("", 1))
    else
      var escaped := s[0] == '\\' && |s| > 1 && s[1] in "$`\"\\\n";
      var used := if escaped then 2 else 1;
      var rest := DoubleQuoted(s[used..]);
      if rest.None? then None
      else Some(((if !escaped then [s[0]] else if s[1] == '\n' then "" else [s[1]]) + rest.value.0,
                 rest.value.1 + used))
  }

  /** Splits a command line into words and removes the quotes; word is the word being read, if any. None if the shell
      would do more than that (expansions, operators) or a quote is not closed. */
  function Words(s: string, word: Option<string>): Option<seq<string>>
    decreases |s|
  {
    if s == "" then Some(if word.Some? then [word.value] else [])
    else if Blank(s[0]) then
      var rest := Words(s[1..], None);
      if rest.None? || word.None? then rest else Some([word.value] + rest.value)
    else if s[0] == '\'' then
      var n := QuoteAt(s[1..]);
      if n == |s| - 1 then None else Words(s[n + 2..], Grown(word, s[1..n + 1]))
    else if s[0] == '\\' then
      if |s| == 1 then None
      else if s[1] == '\n' then Words(s[2..], word)
      else Words(s[2..], Grown(word, [s[1]]))
    else if s[0] == '"' then
      var quoted := DoubleQuoted(s[1..]);
      if quoted.None? then None else Words(s[quoted.value.1 + 1..], Grown(word, quoted.value.0))
    else if Special(s[0]) then None
    else Words(s[1..], Grown(word, [s[0]]))
  }

  // ---------- the program ----------

  predicate ShellSafe(c: char) {
    'a' <= c <= 'z' || 'A' <= c <= 'Z' || '0' <= c <= '9' || c in {'_', '-', '.', '/', ':', '=', '@', ',', '+', '%'}
  }

  /** ReplaceAll(s, ', '\'') */
  function Escaped(s: string): string {
    if s == "" then "" else (if s[0] == '\'' then "'\\''" else [s[0]]) + Escaped(s[1..])
  }

  function ShellQuote(s: string): string {
    if s != "" && (forall c | c in s :: ShellSafe(c)) then s else "'" + Escaped(s) + "'"
  }

  function Join(words: seq<string>): string {
    if words == [] then "" else if |words| == 1 then words[0] else words[0] + " " + Join(words[1..])
  }

  function QuoteAll(words: seq<string>): seq<string> {
    seq(|words|, i requires 0 <= i < |words| => ShellQuote(words[i]))
  }

  // ---------- reading back what was quoted ----------

  lemma SafeIsPlain(c: char)
    requires ShellSafe(c)
    ensures !Blank(c) && !Special(c) && c != '\'' && c != '\\' && c != '"'
  {
  }

  lemma SafeChar(c: char, rest: string, word: Option<string>)
    requires ShellSafe(c)
    ensures Words([c] + rest, word) == Words(rest, Grown(word, [c]))
  {
    SafeIsPlain(c);
    assert ([c] + rest)[0] == c && ([c] + rest)[1..] == rest;
  }

  lemma GrownTwice(word: Option<string>, a: string, b: string)
    ensures Grown(Grown(word, a), b) == Grown(word, a + b)
  {
    var w := if word.Some? then word.value else "";
    assert w + a + b == w + (a + b);
  }

  lemma {:induction false} SafeWord(s: string, rest: string, word: Option<string>)
    requires s != "" && forall c :: c in s ==> ShellSafe(c)
    ensures Words(s + rest, word) == Words(rest, Grown(word, s))
    decreases |s|
  {
    hide Words, Grown;
    assert s + rest == [s[0]] + (s[1..] + rest);
    SafeChar(s[0], s[1..] + rest, word);
    if |s| == 1 {
      assert s[1..] + rest == rest && [s[0]] == s;
    } else {
      SafeWord(s[1..], rest, Grown(word, [s[0]]));
      GrownTwice(word, [s[0]], s[1..]);
      assert s == [s[0]] + s[1..];
    }
  }

  lemma {:induction false} EscapedSplit(s: string)
    ensures var n := QuoteAt(s);
            Escaped(s) == s[..n] + if n == |s| then "" else "'\\''" + Escaped(s[n + 1..])
  {
    if s != "" && s[0] != '\'' {
      var t, n := s[1..], QuoteAt(s[1..]);
      EscapedSplit(t);
      hide Escaped;
      assert s[..n + 1] == [s[0]] + t[..n];
      if n < |t| {
        assert t[n + 1..] == s[n + 2..];
        Regroup([s[0]], t[..n], "'\\''" + Escaped(s[n + 2..]));
      }
    }
  }

  lemma Regroup(a: string, b: string, c: string)
    ensures a + (b + c) == a + b + c
  {
  }

  /** One single-quoted part without quotes inside. */
  lemma PlainPart(a: string, rest: string, word: Option<string>)
    requires forall i :: 0 <= i < |a| ==> a[i] != '\''
    ensures Words("'" + a + "'" + rest, word) == Words(rest, Grown(word, a))
  {
    var line := "'" + a + "'" + rest;
    assert line[1..] == a + "'" + rest;
    var n := QuoteAt(line[1..]);
    assert line[1..][|a|] == '\'';
    assert n == |a|;
    assert line[1..n + 1] == a && line[n + 2..] == rest;
  }

  lemma {:induction false} QuotedWord(s: string, rest: string, word: Option<string>)
    ensures Words("'" + Escaped(s) + "'" + rest, word) == Words(rest, Grown(word, s))
    decreases |s|
  {
    hide Words, Grown, Escaped;
    var n := QuoteAt(s);
    var a := s[..n];
    EscapedSplit(s);
    if n == |s| {
      assert Escaped(s) == a && a == s;
      PlainPart(a, rest, word);
    } else {
      var b := s[n + 1..];
      var tail := "'" + Escaped(b) + "'" + rest;
      assert "'" + Escaped(s) + "'" + rest == "'" + a + "'" + ("\\'" + tail);
      PlainPart(a, "\\'" + tail, word);
      EscapedQuote(tail, Grown(word, a));
      QuotedWord(b, rest, Grown(Grown(word, a), "'"));
      GrownTwice(word, a, "'");
      GrownTwice(word, a + "'", b);
      assert s == a + "'" + b;
    }
  }

  lemma EscapedQuote(rest: string, word: Option<string>)
    ensures Words("\\'" + rest, word) == Words(rest, Grown(word, "'"))
  {
    var line := "\\'" + rest;
    assert line[0] == '\\' && line[1] == '\'' && line[2..] == rest;
  }

  lemma OneWord(s: string, rest: string)
    ensures Words(ShellQuote(s) + rest, None) == Words(rest, Some(s))
  {
    if s != "" && forall c | c in s :: ShellSafe(c) {
      SafeWord(s, rest, None);
      assert "" + s == s;
    } else {
      QuotedWord(s, rest, None);
      assert "" + s == s;
    }
  }

  lemma EndOfLine(word: Option<string>)
    ensures Words("", word) == Some(if word.Some? then [word.value] else [])
  {
  }

  lemma NextWord(word: string, rest: string)
    ensures var later := Words(rest, None);
            Words(" " + rest, Some(word)) == if later.None? then None else Some([word] + later.value)
  {
    assert (" " + rest)[1..] == rest;
  }

  /** Quoting round trip, for all strings: the shell reads the joined quoted words back as exactly these words. */
  lemma {:induction false} QuotedWordsReadBack(words: seq<string>)
    ensures Words(Join(QuoteAll(words)), None) == Some(words)
  {
    hide Words, ShellQuote;
    if words == [] {
      EndOfLine(None);
    } else {
      EndOfLine(Some(words[0]));
      var quoted := QuoteAll(words);
      OneWord(words[0], "");
      assert quoted[0] + "" == quoted[0];
      if |words| > 1 {
        var rest := Join(QuoteAll(words[1..]));
        assert quoted[1..] == QuoteAll(words[1..]);
        assert Join(quoted) == quoted[0] + (" " + rest);
        OneWord(words[0], " " + rest);
        NextWord(words[0], rest);
        QuotedWordsReadBack(words[1..]);
        assert words == [words[0]] + words[1..];
      } else {
        assert words == [words[0]];
        assert Join(quoted) == quoted[0];
      }
    }
  }

  /** A word is left unquoted only if every character is taken literally: leaving it alone or quoting it makes no
      difference to the shell. */
  lemma UnquotedMeansSame(s: string)
    requires ShellQuote(s) == s
    ensures Words(s, None) == Some([s])
  {
    QuotedWordsReadBack([s]);
    assert QuoteAll([s]) == [s];
  }

  // ---------- the retry command ----------

  /** The arguments of the retry: the same program, forced, with the same image and archive, for exactly the volumes
      that failed or were not reached. */
  function RetryArgs(image: string, archive: string, failed: seq<string>, untouched: seq<string>): seq<string> {
    ["dv-backup", "restore", "--force"] + (if image != DEFAULT_IMAGE then ["--image", image] else [])
      + [archive] + failed + untouched
  }

  /** The printed line, read by a shell, is exactly the retry. */
  method RetryCommand(image: string, archive: string, failed: seq<string>, untouched: seq<string>)
    returns (line: string)
    ensures Words(line, None) == Some(RetryArgs(image, archive, failed, untouched))
  {
    var args := ["dv-backup", "restore", "--force"];
    if image != DEFAULT_IMAGE {
      args := args + ["--image", image];
    }
    args := args + [archive];
    args := args + failed + untouched;
    ghost var plain := args;
    assert plain == RetryArgs(image, archive, failed, untouched);
    for i := 0 to |args|
      invariant |args| == |plain|
      invariant forall j :: 0 <= j < |args| ==> args[j] == if j < i then ShellQuote(plain[j]) else plain[j]
    {
      args := args[i := ShellQuote(args[i])];
    }
    assert args == QuoteAll(plain);
    QuotedWordsReadBack(plain);
    line := Join(args);
  }
}
