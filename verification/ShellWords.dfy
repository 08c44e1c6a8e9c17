/** Quoting for the shell: whatever the words are, the shell reads back exactly them. The reader
    follows the token recognition and quoting rules of the Shell Command Language of IEEE Std
    1003.1: sections 2.2.1 (backslash), 2.2.2 (single quotes), 2.3 (tokens) and 2.7.4
    (here-documents). A text in which the shell would do anything beyond reading words is refused. */
module ShellWords {
  import opened Options

  // ---- What the operator writes ------------------------------------------------------------

  predicate Safe(c: char) {
    'a' <= c <= 'z' || 'A' <= c <= 'Z' || '0' <= c <= '9' || c in "_./=,:+-"
  }

  predicate SafeWord(s: string) {
    s != "" && forall i :: 0 <= i < |s| ==> Safe(s[i])
  }

  const ESCAPED_QUOTE := "'\\''"

  function EscapeQuotes(s: string): string {
    if s == "" then "" else (if s[0] == '\'' then ESCAPED_QUOTE else [s[0]]) + EscapeQuotes(s[1..])
  }

  function QuoteWord(s: string): string {
    if SafeWord(s) then s else "'" + EscapeQuotes(s) + "'"
  }

  function JoinWords(words: seq<string>): string {
    if words == [] then "" else if |words| == 1 then QuoteWord(words[0])
    else QuoteWord(words[0]) + " " + JoinWords(words[1..])
  }

  /** The loops as written: quote each word, then join with spaces. */
  method ShJoin(words: seq<string>) returns (line: string)
    ensures line == JoinWords(words)
  {
    var quoted := new string[|words|];
    for i := 0 to |words|
      invariant forall k :: 0 <= k < i ==> quoted[k] == QuoteWord(words[k])
    {
      quoted[i] := QuoteWord(words[i]);
    }
    line := "";
    var i := |words|;
    while i > 0
      invariant 0 <= i <= |words|
      invariant forall k :: 0 <= k < |words| ==> quoted[k] == QuoteWord(words[k])
      invariant line == JoinWords(words[i..])
    {
      i := i - 1;
      line := if i == |words| - 1 then quoted[i] else quoted[i] + " " + line;
      JoinFrom(words, i);
    }
  }

  lemma JoinFrom(words: seq<string>, i: nat)
    requires i < |words|
    ensures JoinWords(words[i..]) ==
            if i == |words| - 1 then QuoteWord(words[i]) else QuoteWord(words[i]) + " " + JoinWords(words[i + 1..])
  {
    assert words[i..][0] == words[i] && words[i..][1..] == words[i + 1..];
  }

  // ---- What the shell reads ----------------------------------------------------------------

  /** Characters that mean something to the shell outside quotes. */
  predicate Special(c: char) {
    c in "|&;()$`\"*?[]#~%{}!<>\n"
  }

  predicate Blank(c: char) {
    c == ' ' || c == '\t'
  }

  function Begun(word: Option<string>): string {
    if word == None then "" else word.value
  }

  function Append(word: Option<string>, c: char): Option<string> {
    Some(Begun(word) + [c])
  }

  function Flush(word: Option<string>, rest: Option<(seq<string>, string)>): Option<(seq<string>, string)> {
    if word == None || rest == None then rest else Some(([word.value] + rest.value.0, rest.value.1))
  }

  /** The words up to the end of the line, of the text, or up to a redirection; and what follows. */
  function Words(s: string, word: Option<string>): Option<(seq<string>, string)>
    decreases |s|
  {
    if s == "" || s[0] == '\n' then Flush(word, Some(([], s)))
    else if s[0] == '<' then (if word == None then Some(([], s)) else None)
    else if Blank(s[0]) then Flush(word, Words(s[1..], None))
    else if s[0] == '\\' then
      if |s| == 1 then None
      else if s[1] == '\n' then Words(s[2..], word)
      else Words(s[2..], Append(word, s[1]))
    else if s[0] == '\'' then Quoted(s[1..], Begun(word))
    else if Special(s[0]) then None
    else Words(s[1..], Append(word, s[0]))
  }

  /** Inside single quotes everything is literal up to the next quote. */
  function Quoted(s: string, word: string): Option<(seq<string>, string)>
    decreases |s|
  {
    if s == "" then None
    else if s[0] == '\'' then Words(s[1..], Some(word))
    else Quoted(s[1..], word + [s[0]])
  }

  // ---- The round trip ----------------------------------------------------------------------

  predicate Plain(c: char) {
    !Special(c) && !Blank(c) && c != '\\' && c != '\''
  }

  lemma SafeIsPlain(c: char)
    requires Safe(c)
    ensures Plain(c)
  {
  }

  lemma PlainStep(c: char, rest: string, word: Option<string>)
    requires Plain(c)
    ensures Words([c] + rest, word) == Words(rest, Append(word, c))
  {
    var s := [c] + rest;
    assert s[0] == c && s[1..] == rest;
  }

  lemma {:induction false} SafeRead(w: string, word: Option<string>, rest: string)
    requires w != "" && forall i :: 0 <= i < |w| ==> Plain(w[i])
    ensures Words(w + rest, word) == Words(rest, Some(Begun(word) + w))
    decreases |w|
  {
    OneLetter(w, Begun(word), rest);
    PlainStep(w[0], w[1..] + rest, word);
    if |w| > 1 {
      SafeRead(w[1..], Append(word, w[0]), rest);
    }
  }

  lemma OneLetter(w: string, begun: string, rest: string)
    requires w != ""
    ensures w + rest == [w[0]] + (w[1..] + rest) && begun + [w[0]] + w[1..] == begun + w
    ensures |w| == 1 ==> w[1..] + rest == rest && w == [w[0]]
  {
  }

  lemma OpenQuote(s: string, word: Option<string>)
    requires s != "" && s[0] == '\''
    ensures Words(s, word) == Quoted(s[1..], Begun(word))
  {
  }

  lemma CloseQuote(s: string, word: string)
    requires s != "" && s[0] == '\''
    ensures Quoted(s, word) == Words(s[1..], Some(word))
  {
  }

  lemma Escaped(s: string, word: string)
    requires |s| > 1 && s[0] == '\\' && s[1] == '\''
    ensures Words(s, Some(word)) == Words(s[2..], Some(word + ['\'']))
  {
  }

  lemma Literal(c: char, tail: string, word: string)
    requires c != '\''
    ensures Quoted([c] + tail, word) == Quoted(tail, word + [c])
  {
    assert ([c] + tail)[1..] == tail;
  }

  /** A quote written as close, backslash, quote, open is read as one quote. */
  lemma EscapedQuote(s: string, word: string, tail: string)
    requires s == ESCAPED_QUOTE + tail
    ensures Quoted(s, word) == Quoted(tail, word + ['\''])
  {
    assert s[0] == '\'' && s[1] == '\\' && s[2] == '\'' && s[3] == '\'';
    CloseQuote(s, word);
    Escaped(s[1..], word);
    assert s[1..][2..] == s[3..];
    OpenQuote(s[3..], Some(word + ['\'']));
    assert s[3..][1..] == tail;
  }

  lemma EscapeFirst(w: string, rest: string)
    requires w != ""
    ensures EscapeQuotes(w) + rest == (if w[0] == '\'' then ESCAPED_QUOTE else [w[0]]) + (EscapeQuotes(w[1..]) + rest)
  {
    var a, b := if w[0] == '\'' then ESCAPED_QUOTE else [w[0]], EscapeQuotes(w[1..]);
    assert (a + b) + rest == a + (b + rest);
  }

  lemma EscapedStep(w: string, word: string, rest: string)
    requires w != ""
    ensures Quoted(EscapeQuotes(w) + rest, word) == Quoted(EscapeQuotes(w[1..]) + rest, word + [w[0]])
  {
    EscapeFirst(w, rest);
    if w[0] == '\'' {
      EscapedQuote(EscapeQuotes(w) + rest, word, EscapeQuotes(w[1..]) + rest);
    } else {
      Literal(w[0], EscapeQuotes(w[1..]) + rest, word);
    }
  }

  lemma {:induction false} EscapedRead(w: string, word: string, rest: string)
    requires rest != "" && rest[0] == '\''
    ensures Quoted(EscapeQuotes(w) + rest, word) == Words(rest[1..], Some(word + w))
    decreases |w|
  {
    if w == "" {
      assert EscapeQuotes(w) + rest == rest && word + w == word;
      CloseQuote(rest, word);
    } else {
      EscapedStep(w, word, rest);
      EscapedRead(w[1..], word + [w[0]], rest);
      assert word + [w[0]] + w[1..] == word + w;
    }
  }

  lemma QuotedRead(w: string, rest: string)
    ensures Words("'" + EscapeQuotes(w) + "'" + rest, None) == Words(rest, Some(w))
  {
    var s, tail := "'" + EscapeQuotes(w) + "'" + rest, "'" + rest;
    OpenQuote(s, None);
    assert s[1..] == EscapeQuotes(w) + tail;
    EscapedRead(w, "", tail);
    assert tail[1..] == rest && "" + w == w;
  }

  lemma WordRead(w: string, rest: string)
    ensures Words(QuoteWord(w) + rest, None) == Words(rest, Some(w))
  {
    if SafeWord(w) {
      forall i | 0 <= i < |w| ensures Plain(w[i]) {
        SafeIsPlain(w[i]);
      }
      SafeRead(w, None, rest);
      assert "" + w == w;
    } else {
      QuotedRead(w, rest);
    }
  }

  /** The line ends here, as far as words go. */
  predicate Ends(rest: string) {
    rest == "" || rest[0] == '\n' || (|rest| > 1 && rest[0] == ' ' && rest[1] == '<')
  }

  function AfterBlank(rest: string): string {
    if rest != "" && rest[0] == ' ' then rest[1..] else rest
  }

  lemma LineEnd(rest: string)
    requires Ends(rest)
    ensures Words(rest, None) == Some(([], AfterBlank(rest)))
    ensures forall w: string :: Words(rest, Some(w)) == Some(([w], AfterBlank(rest)))
  {
    forall w: string ensures Words(rest, Some(w)) == Some(([w], AfterBlank(rest))) {
      if rest != "" && rest[0] == ' ' {
        assert Words(rest[1..], None) == Some(([], rest[1..]));
        assert [w] + [] == [w];
      } else {
        assert [w] + [] == [w];
      }
    }
    if rest != "" && rest[0] == ' ' {
      assert Words(rest[1..], None) == Some(([], rest[1..]));
    }
  }

  lemma FirstRead(w: string, tail: string, words: seq<string>, rest: string)
    requires Words(tail, None) == Some((words, rest))
    ensures Words(QuoteWord(w) + (" " + tail), None) == Some(([w] + words, rest))
  {
    WordRead(w, " " + tail);
    var s := " " + tail;
    assert s[0] == ' ' && s[1..] == tail;
  }

  lemma LastRead(w: string, rest: string)
    requires Ends(rest)
    ensures Words(QuoteWord(w) + rest, None) == Some(([w], AfterBlank(rest)))
  {
    WordRead(w, rest);
    LineEnd(rest);
  }

  lemma JoinMore(words: seq<string>, rest: string)
    requires |words| > 1
    ensures JoinWords(words) + rest == QuoteWord(words[0]) + (" " + (JoinWords(words[1..]) + rest))
  {
    Regroup(QuoteWord(words[0]), " ", JoinWords(words[1..]), rest);
  }

  lemma Regroup(a: string, b: string, c: string, d: string)
    ensures (a + b + c) + d == a + (b + (c + d))
  {
  }

  lemma HeadAndTail<T>(s: seq<T>)
    requires s != []
    ensures [s[0]] + s[1..] == s
  {
  }

  lemma ShortRead(words: seq<string>, rest: string)
    requires Ends(rest) && |words| <= 1
    ensures Words(JoinWords(words) + rest, None) == Some((words, AfterBlank(rest)))
  {
    if words == [] {
      LineEnd(rest);
      assert JoinWords(words) + rest == rest;
    } else {
      LastRead(words[0], rest);
      assert words == [words[0]];
    }
  }

  /** Reading a joined line gives back the words, for every list of words: empty ones, quotes,
      newlines and all. */
  lemma {:induction false} JoinedRead(words: seq<string>, rest: string)
    requires Ends(rest)
    ensures Words(JoinWords(words) + rest, None) == Some((words, AfterBlank(rest)))
  {
    if |words| <= 1 {
      ShortRead(words, rest);
    } else {
      JoinedRead(words[1..], rest);
      FirstRead(words[0], JoinWords(words[1..]) + rest, words[1..], AfterBlank(rest));
      JoinMore(words, rest);
      HeadAndTail(words);
    }
  }

  /** Different lists of words never give one line. */
  lemma JoinIsInjective(a: seq<string>, b: seq<string>)
    ensures JoinWords(a) == JoinWords(b) <==> a == b
  {
    JoinedRead(a, "");
    JoinedRead(b, "");
    assert JoinWords(a) + "" == JoinWords(a) && JoinWords(b) + "" == JoinWords(b);
  }

  lemma WordsRest(s: string, word: Option<string>)
    ensures Words(s, word).Some? ==>
              var rest := Words(s, word).value.1;
              |rest| <= |s| && (rest != "" ==> rest[0] == '\n' || rest[0] == '<')
    decreases |s|
  {
    if s == "" || s[0] == '\n' || s[0] == '<' {
    } else if Blank(s[0]) {
      WordsRest(s[1..], None);
    } else if s[0] == '\\' {
      if |s| > 1 {
        WordsRest(s[2..], if s[1] == '\n' then word else Append(word, s[1]));
      }
    } else if s[0] == '\'' {
      QuotedRest(s[1..], Begun(word));
    } else if !Special(s[0]) {
      WordsRest(s[1..], Append(word, s[0]));
    }
  }

  lemma QuotedRest(s: string, word: string)
    ensures Quoted(s, word).Some? ==>
              var rest := Quoted(s, word).value.1;
              |rest| <= |s| && (rest != "" ==> rest[0] == '\n' || rest[0] == '<')
    decreases |s|
  {
    if s != "" && s[0] == '\'' {
      WordsRest(s[1..], Some(word));
    } else if s != "" {
      QuotedRest(s[1..], word + [s[0]]);
    }
  }

  // ---- The initialisation script -----------------------------------------------------------

  /** One simple command with the text it gets on its standard input. */
  datatype Command = Command(words: seq<string>, input: string)

  function LineLength(s: string): (n: nat)
    ensures n <= |s| && (n < |s| ==> s[n] == '\n')
  {
    if s == "" || s[0] == '\n' then 0 else 1 + LineLength(s[1..])
  }

  /** The lines of a here-document up to the delimiter line, and the text after that. */
  function HereBody(s: string, delimiter: string): (r: Option<(string, string)>)
    ensures r.Some? ==> |r.value.1| < |s|
    decreases |s|
  {
    var n := LineLength(s);
    if n == |s| then None
    else if s[..n] == delimiter then Some(("", s[n + 1..]))
    else
      var more := HereBody(s[n + 1..], delimiter);
      if more == None then None else Some((s[..n + 1] + more.value.0, more.value.1))
  }

  const EOF := "EOF"
  const HERE := "<<'EOF'\n"

  /** The commands of a script; the only redirection known is a quoted here-document. */
  function Commands(s: string): Option<seq<Command>>
    decreases |s|
  {
    if s == "" then Some([])
    else
      var line := Words(s, None);
      if line == None then None
      else
        WordsRest(s, None);
        var (words, rest) := line.value;
        if rest == "" then Some([Command(words, "")])
        else if rest[0] == '\n' then
          var more := Commands(rest[1..]);
          if more == None then None else Some([Command(words, "")] + more.value)
        else if HERE <= rest then
          var here := HereBody(rest[|HERE|..], EOF);
          if here == None then None
          else
            var more := Commands(here.value.1);
            if more == None then None else Some([Command(words, here.value.0)] + more.value)
        else None
  }

  function Unlines(lines: seq<string>): string {
    if lines == [] then "" else lines[0] + "\n" + Unlines(lines[1..])
  }

  predicate PlainLines(lines: seq<string>) {
    forall i :: 0 <= i < |lines| ==> lines[i] != EOF && '\n' !in lines[i]
  }

  const SET_E := ["set", "-e"]

  function ShellCommand(database: string): seq<string> {
    ["odoo", "shell", "--config", "/etc/odoo/odoo.conf", "-d", database, "--no-http"]
  }

  /** The Odoo shell with `snippet`, given as its lines, on its input. */
  function SnippetLine(database: string, snippet: seq<string>): string {
    JoinWords(ShellCommand(database)) + (" " + (HERE + (Unlines(snippet) + (EOF + "\n"))))
  }

  /** The script of an install that also runs the snippet. */
  function InitScript(database: string, args: seq<string>, snippet: seq<string>): string {
    JoinWords(SET_E) + ("\n" + (JoinWords(["odoo"] + args) + ("\n" + SnippetLine(database, snippet))))
  }

  lemma {:induction false} LineOf(line: string, rest: string)
    requires '\n' !in line
    ensures LineLength(line + "\n" + rest) == |line|
  {
    var s := line + "\n" + rest;
    if line != "" {
      assert s[1..] == line[1..] + "\n" + rest;
      LineOf(line[1..], rest);
    }
  }

  lemma {:induction false} HereRead(lines: seq<string>, after: string)
    requires PlainLines(lines)
    ensures HereBody(Unlines(lines) + (EOF + "\n" + after), EOF) == Some((Unlines(lines), after))
  {
    if lines == [] {
      LineOf(EOF, after);
      assert Unlines(lines) + (EOF + "\n" + after) == EOF + "\n" + after;
    } else {
      var tail := Unlines(lines[1..]) + (EOF + "\n" + after);
      var s := Unlines(lines) + (EOF + "\n" + after);
      assert s == lines[0] + "\n" + tail;
      LineOf(lines[0], tail);
      assert s[..|lines[0]|] == lines[0] && s[|lines[0]| + 1..] == tail && s[..|lines[0]| + 1] == lines[0] + "\n";
      HereRead(lines[1..], after);
    }
  }

  lemma CommandRead(words: seq<string>, rest: string, more: seq<Command>)
    requires Commands(rest) == Some(more)
    ensures Commands(JoinWords(words) + ("\n" + rest)) == Some([Command(words, "")] + more)
  {
    JoinedRead(words, "\n" + rest);
    var s := "\n" + rest;
    assert s[0] == '\n' && s[1..] == rest && AfterBlank(s) == s;
    assert JoinWords(words) + s != "";
  }

  lemma HereStep(s: string, words: seq<string>, tail: string, body: string)
    requires s != "" && Words(s, None) == Some((words, HERE + tail)) && HereBody(tail, EOF) == Some((body, ""))
    ensures Commands(s) == Some([Command(words, body)])
  {
    var rest := HERE + tail;
    assert rest[0] == '<' && HERE <= rest && rest[|HERE|..] == tail;
    assert Commands("") == Some([]);
    assert [Command(words, body)] + [] == [Command(words, body)];
  }

  lemma SnippetRead(database: string, lines: seq<string>)
    requires PlainLines(lines)
    ensures Commands(SnippetLine(database, lines)) == Some([Command(ShellCommand(database), Unlines(lines))])
  {
    var tail := Unlines(lines) + (EOF + "\n");
    HereRead(lines, "");
    assert EOF + "\n" + "" == EOF + "\n";
    BlankBefore(HERE + tail);
    JoinedRead(ShellCommand(database), " " + (HERE + tail));
    HereStep(SnippetLine(database, lines), ShellCommand(database), tail, Unlines(lines));
  }

  lemma BlankBefore(rest: string)
    requires HERE <= rest
    ensures Ends(" " + rest) && AfterBlank(" " + rest) == rest
  {
    var s := " " + rest;
    assert s[1] == rest[0] && rest[0] == HERE[0];
    assert s[1..] == rest;
  }

  /** Whatever the database and the arguments contain, the shell runs exactly three commands: `set
      -e`, the install with exactly these arguments, and the Odoo shell with the snippet as its
      input. */
  lemma InitScriptRuns(database: string, args: seq<string>, snippet: seq<string>)
    requires PlainLines(snippet)
    ensures Commands(InitScript(database, args, snippet)) == Some([
              Command(["set", "-e"], ""), Command(["odoo"] + args, ""),
              Command(["odoo", "shell", "--config", "/etc/odoo/odoo.conf", "-d", database, "--no-http"], Unlines(snippet))])
  {
    var third := SnippetLine(database, snippet);
    SnippetRead(database, snippet);
    var c1, c2, c3 := Command(SET_E, ""), Command(["odoo"] + args, ""), Command(ShellCommand(database), Unlines(snippet));
    CommandRead(["odoo"] + args, third, [c3]);
    CommandRead(SET_E, JoinWords(["odoo"] + args) + ("\n" + third), [c2] + [c3]);
    assert [c1] + ([c2] + [c3]) == [c1, c2, c3];
  }
}
