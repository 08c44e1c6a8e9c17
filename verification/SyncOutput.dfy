/** The last two lines of a sync Job's log: the module list and the commit. Whatever was logged
    before, the operator reads back what the script printed. */
module SyncOutput {
  import opened Text

  const PREFIX := "modules: "

  predicate Space(c: char) {
    c == ' ' || '\t' <= c <= '\r'
  }

  function TrimLeft(s: string): (t: string)
    ensures |t| <= |s| && (t != "" ==> !Space(t[0]))
  {
    if s != "" && Space(s[0]) then TrimLeft(s[1..]) else s
  }

  function TrimRight(s: string): (t: string)
    ensures t <= s && (t != "" ==> !Space(t[|t| - 1]))
  {
    if s != "" && Space(s[|s| - 1]) then TrimRight(s[..|s| - 1]) else s
  }

  function Trim(s: string): string {
    TrimRight(TrimLeft(s))
  }

  /** The trimmed lines that are not blank. */
  function Nonblank(lines: seq<string>): seq<string> {
    if lines == [] then [] else Shown(lines[0]) + Nonblank(lines[1..])
  }

  function Shown(line: string): seq<string> {
    if Trim(line) == "" then [] else [Trim(line)]
  }

  predicate NameChar(c: char) {
    'a' <= c <= 'z' || 'A' <= c <= 'Z' || '0' <= c <= '9' || c in "._-"
  }

  predicate HasDots(s: string) {
    exists i :: 0 <= i < |s| - 1 && s[i] == '.' && s[i + 1] == '.'
  }

  /** A module folder name: no leading dot, no `..`, plain characters. */
  predicate ModuleName(s: string) {
    s != "" && s[0] != '.' && !HasDots(s) && forall c :: c in s ==> NameChar(c)
  }

  /** Sorted, each once. */
  function Compact(s: seq<string>): seq<string> {
    if |s| < 2 then s
    else if s[0] == s[1] then Compact(s[1..])
    else [s[0]] + Compact(s[1..])
  }

  function ParseModulesLine(line: string): seq<string> {
    if !(PREFIX <= line) then []
    else
      var parts := Split(line[|PREFIX|..], ',');
      if forall p :: p in parts ==> ModuleName(p) then Compact(Sort(parts)) else []
  }

  function ParseSyncOutput(logs: string): (string, seq<string>) {
    var lines := Nonblank(Split(logs, '\n'));
    var n := |lines|;
    if n == 0 then ("", [])
    else (lines[n - 1], if n < 2 then [] else ParseModulesLine(lines[n - 2]))
  }

  // ---- The loops as written ----------------------------------------------------------------

  method ReadModulesLine(line: string) returns (modules: seq<string>)
    ensures modules == ParseModulesLine(line)
  {
    if !(PREFIX <= line) {
      return [];
    }
    var parts := Split(line[|PREFIX|..], ',');
    modules := [];
    for i := 0 to |parts|
      invariant modules == parts[..i] && forall k :: 0 <= k < i ==> ModuleName(parts[k])
    {
      if !ModuleName(parts[i]) {
        assert parts[i] in parts;
        return [];
      }
      modules := modules + [parts[i]];
    }
    assert modules == parts;
    return Compact(Sort(modules));
  }

  /** The trimmed nonblank lines of a log. */
  method NonblankLines(logs: string) returns (lines: seq<string>)
    ensures lines == Nonblank(Split(logs, '\n'))
  {
    var all := Split(logs, '\n');
    lines := [];
    for i := 0 to |all|
      invariant lines == Nonblank(all[..i])
    {
      var t := Trim(all[i]);
      OneMore(all, i);
      if t != "" {
        lines := lines + [t];
      }
    }
    assert all[..|all|] == all;
  }

  method ReadSyncOutput(logs: string) returns (commit: string, modules: seq<string>)
    ensures (commit, modules) == ParseSyncOutput(logs)
  {
    var lines := NonblankLines(logs);
    if |lines| == 0 {
      return "", [];
    }
    modules := [];
    if |lines| >= 2 {
      modules := ReadModulesLine(lines[|lines| - 2]);
    }
    commit := lines[|lines| - 1];
  }

  // ---- What the parsers promise ------------------------------------------------------------

  lemma {:induction false} CompactAscends(s: seq<string>)
    requires Sorted(s)
    ensures Ascending(Compact(s)) && forall x :: x in Compact(s) <==> x in s
    ensures s != [] ==> Compact(s) != [] && Compact(s)[0] == s[0]
  {
    if |s| >= 2 {
      CompactAscends(s[1..]);
      var rest := Compact(s[1..]);
      assert s == [s[0]] + s[1..];
      if s[0] != s[1] {
        forall k | 0 <= k < |rest| ensures Less(s[0], rest[k]) {
          if k > 0 {
            LessTransitive(s[0], s[1], rest[k]);
          }
        }
      }
    }
  }

  lemma {:induction false} AlreadyCompact(s: seq<string>)
    requires Ascending(s)
    ensures Compact(s) == s
  {
    AscendingIsSorted(s);
    if |s| >= 2 {
      AlreadyCompact(s[1..]);
    }
  }

  /** Whatever the line, the list is empty or an ascending list of valid folder names. */
  lemma ListIsClean(line: string)
    ensures Ascending(ParseModulesLine(line)) && forall m :: m in ParseModulesLine(line) ==> ModuleName(m)
  {
    if PREFIX <= line {
      var parts := Split(line[|PREFIX|..], ',');
      SortSorts(parts);
      SortElements(parts);
      CompactAscends(Sort(parts));
    }
  }

  /** The line the script prints: the sorted module list, comma separated. */
  function ModulesLine(modules: seq<string>): string {
    PREFIX + Join(modules, ",")
  }

  /** What the operator takes for a module folder name, and the line it looks for. */
  lemma NamesExactly(s: string, modules: seq<string>)
    ensures ModuleName(s) <==>
              && s != "" && s[0] != '.' && (forall i :: 0 <= i < |s| - 1 ==> !(s[i] == '.' && s[i + 1] == '.'))
              && forall i :: 0 <= i < |s| ==>
                   || 'a' <= s[i] <= 'z' || 'A' <= s[i] <= 'Z' || '0' <= s[i] <= '9'
                   || s[i] == '.' || s[i] == '_' || s[i] == '-'
    ensures ModulesLine(modules) == "modules: " + Join(modules, ",")
    ensures forall c :: Space(c) <==> c as int == 32 || 9 <= c as int <= 13
    ensures ModuleName("l10n_fr") && !ModuleName(".git") && !ModuleName("a..b") && !ModuleName("a/b")
  {
    assert ".git"[0] == '.';
    assert "a..b"[1] == '.' && "a..b"[2] == '.' && HasDots("a..b");
    assert "a/b"[1] == '/' && !NameChar('/');
    forall i | 0 <= i < |s| ensures s[i] in s {
    }
  }

  lemma LineReadsBack(modules: seq<string>)
    requires modules != [] && Ascending(modules) && forall m :: m in modules ==> ModuleName(m)
    ensures ParseModulesLine(ModulesLine(modules)) == modules
  {
    var line := ModulesLine(modules);
    assert line[|PREFIX|..] == Join(modules, ",");
    forall m | m in modules ensures ',' !in m {
      assert !NameChar(',');
    }
    SplitJoin(modules, ',');
    AscendingIsSorted(modules);
    SortSorts(modules);
    SortedUnique(Sort(modules), modules);
    AlreadyCompact(modules);
  }

  lemma FirstOfBoth<T>(a: seq<T>, b: seq<T>)
    requires a != []
    ensures (a + b)[0] == a[0] && (a + b)[1..] == a[1..] + b
  {
  }

  lemma Regroup<T>(a: seq<T>, b: seq<T>, c: seq<T>)
    ensures a + (b + c) == (a + b) + c
  {
  }

  /** A line that starts and ends with something visible. */
  predicate Visible(line: string) {
    line != "" && !Space(line[0]) && !Space(line[|line| - 1]) && '\n' !in line
  }

  lemma {:induction false} NonblankAppend(a: seq<string>, b: seq<string>)
    ensures Nonblank(a + b) == Nonblank(a) + Nonblank(b)
  {
    if a == [] {
      assert a + b == b;
    } else {
      NonblankAppend(a[1..], b);
      FirstOfBoth(a, b);
      Regroup(Shown(a[0]), Nonblank(a[1..]), Nonblank(b));
    }
  }

  /** One more line read. */
  lemma OneMore(all: seq<string>, i: nat)
    requires i < |all|
    ensures Nonblank(all[..i + 1]) == Nonblank(all[..i]) + Shown(all[i])
  {
    assert all[..i + 1] == all[..i] + [all[i]];
    NonblankAppend(all[..i], [all[i]]);
  }

  lemma {:induction false} SplitLast(s: string, rest: string)
    ensures Split(s + ("\n" + rest), '\n') == Split(s, '\n') + Split(rest, '\n')
  {
    if s == "" {
      assert s + ("\n" + rest) == ['\n'] + rest;
      SplitFirst('\n', rest, '\n');
    } else {
      var a, b := Split(s[1..], '\n'), Split(rest, '\n');
      SplitLast(s[1..], rest);
      FirstOfBoth(s, "\n" + rest);
      FirstOfBoth(a, b);
      if s[0] == '\n' {
        Regroup([""], a, b);
      } else {
        Regroup([[s[0]] + a[0]], a[1..], b);
      }
    }
  }

  lemma VisibleStay(line: string, commit: string)
    requires Trim(line) != "" && Visible(commit)
    ensures Nonblank([line, commit, ""]) == [Trim(line), commit]
  {
    assert Trim(commit) == commit && Trim("") == "";
    assert [line, commit, ""][1..] == [commit, ""] && [commit, ""][1..] == [""] && [""][1..] == [];
    assert Nonblank([""]) == [];
    assert Nonblank([commit, ""]) == [commit];
  }

  /** The two last lines are the two last nonblank lines, whatever came before. */
  lemma LastTwo(noise: string, line: string, commit: string)
    requires '\n' !in line && Trim(line) != "" && Visible(commit)
    ensures var lines := Nonblank(Split(noise + "\n" + (line + "\n" + (commit + "\n" + "")), '\n'));
            |lines| >= 2 && lines[|lines| - 2] == Trim(line) && lines[|lines| - 1] == commit
  {
    var tail := line + "\n" + (commit + "\n" + "");
    SplitLast(noise, tail);
    assert noise + "\n" + tail == noise + ("\n" + tail);
    SplitAt(line, '\n', commit + "\n" + "");
    SplitAt(commit, '\n', "");
    assert line + ['\n'] + (commit + "\n" + "") == tail && commit + ['\n'] + "" == commit + "\n" + "";
    assert Split(tail, '\n') == [line, commit, ""];
    NonblankAppend(Split(noise, '\n'), [line, commit, ""]);
    VisibleStay(line, commit);
  }

  lemma OutputIsClean(logs: string)
    ensures Ascending(ParseSyncOutput(logs).1) && forall m :: m in ParseSyncOutput(logs).1 ==> ModuleName(m)
  {
    var lines := Nonblank(Split(logs, '\n'));
    assert ParseSyncOutput(logs).1 == if |lines| < 2 then [] else ParseModulesLine(lines[|lines| - 2]);
    if |lines| >= 2 {
      ListIsClean(lines[|lines| - 2]);
    }
  }

  /** The names were lines of the module list, so none holds a line break. What the operator takes for
      the list is then the printed line, trimmed, whatever was logged before. */
  lemma WhatIsRead(noise: string, modules: seq<string>, commit: string)
    requires Visible(commit) && forall m :: m in modules ==> '\n' !in m
    ensures ParseSyncOutput(noise + "\n" + (ModulesLine(modules) + "\n" + (commit + "\n" + "")))
            == (commit, ParseModulesLine(Trim(ModulesLine(modules))))
  {
    var line := ModulesLine(modules);
    JoinHasNoBreak(modules);
    assert line[0] == 'm';
    TrimKeepsStart(line);
    LastTwo(noise, line, commit);
  }

  lemma {:induction false} JoinHasNoBreak(parts: seq<string>)
    requires forall p :: p in parts ==> '\n' !in p
    ensures '\n' !in Join(parts, ",")
  {
    if |parts| > 1 {
      JoinHasNoBreak(parts[1..]);
    }
  }

  lemma {:induction false} TrimKeepsStart(s: string)
    requires s != "" && !Space(s[0])
    ensures Trim(s) != "" && Trim(s)[0] == s[0]
  {
    assert TrimLeft(s) == s;
    if |s| > 1 && Space(s[|s| - 1]) {
      TrimKeepsStart(s[..|s| - 1]);
      assert TrimLeft(s[..|s| - 1]) == s[..|s| - 1];
    }
  }

  /** Names without a comma, the last of which does not end in a blank: nothing is read if and only if
      some name is not valid. */
  lemma ReadsNothingExactly(noise: string, modules: seq<string>, commit: string)
    requires modules != [] && Visible(commit) && Visible(ModulesLine(modules))
    requires forall m :: m in modules ==> ',' !in m && '\n' !in m
    ensures ParseSyncOutput(noise + "\n" + (ModulesLine(modules) + "\n" + (commit + "\n" + ""))).1 == []
            <==> exists m :: m in modules && !ModuleName(m)
  {
    var line := ModulesLine(modules);
    WhatIsRead(noise, modules, commit);
    assert Trim(line) == line;
    assert line[|PREFIX|..] == Join(modules, ",") && [','] == ",";
    SplitJoin(modules, ',');
    SortSorts(modules);
    SortElements(modules);
    CompactAscends(Sort(modules));
    if forall m :: m in modules ==> ModuleName(m) {
      assert modules[0] in Compact(Sort(modules));
    }
  }

  /** With a comma in a name, or a blank at the end of the last one, other modules can be read than
      those that were published. */
  lemma OthersAreRead(noise: string, commit: string)
    requires Visible(commit)
    ensures !ModuleName("a,b") && !ModuleName("a ")
    ensures ParseSyncOutput(noise + "\n" + (ModulesLine(["a,b"]) + "\n" + (commit + "\n" + ""))) == (commit, ["a", "b"])
    ensures ParseSyncOutput(noise + "\n" + (ModulesLine(["a "]) + "\n" + (commit + "\n" + ""))) == (commit, ["a"])
  {
    WhatIsRead(noise, ["a,b"], commit);
    WhatIsRead(noise, ["a "], commit);
    assert "a,b"[1] == ',' && !NameChar(',') && "a "[1] == ' ' && !NameChar(' ');
    OneComma();
    OneBlank();
  }

  lemma OneComma()
    ensures ParseModulesLine(Trim(ModulesLine(["a,b"]))) == ["a", "b"]
  {
    var line := ModulesLine(["a,b"]);
    assert line == PREFIX + "a,b" && line[|PREFIX|..] == "a,b";
    LineReadsBack(["a", "b"]);
    assert Join(["a", "b"], ",") == "a,b" by {
      assert ["a", "b"][1..] == ["b"];
    }
    assert Trim(line) == line;
  }

  lemma OneBlank()
    ensures ParseModulesLine(Trim(ModulesLine(["a "]))) == ["a"]
  {
    var line := ModulesLine(["a "]);
    assert line == PREFIX + "a " && line[..|line| - 1] == PREFIX + "a";
    assert Trim(line) == PREFIX + "a";
    LineReadsBack(["a"]);
    assert Join(["a"], ",") == "a";
  }

  /** However noisy the log, the operator records exactly the modules and the commit that the script
      printed last, if and only if the names are in byte order and all of them are valid. The script
      itself publishes any folder with a manifest whose name does not start with a dot. */
  lemma OutputReadsBack(noise: string, modules: seq<string>, commit: string)
    requires modules != [] && Visible(commit)
    ensures ParseSyncOutput(noise + "\n" + (ModulesLine(modules) + "\n" + (commit + "\n" + ""))) == (commit, modules)
            <==> Ascending(modules) && forall m :: m in modules ==> ModuleName(m)
  {
    var logs := noise + "\n" + (ModulesLine(modules) + "\n" + (commit + "\n" + ""));
    OutputIsClean(logs);
    if Ascending(modules) && forall m :: m in modules ==> ModuleName(m) {
      LineIsVisible(modules);
      LastTwo(noise, ModulesLine(modules), commit);
      LineReadsBack(modules);
    }
  }

  lemma LineIsVisible(modules: seq<string>)
    requires modules != [] && forall m :: m in modules ==> ModuleName(m)
    ensures Visible(ModulesLine(modules))
  {
    var line, text := ModulesLine(modules), Join(modules, ",");
    JoinEndsVisible(modules);
    assert line[0] == 'm' && line[|line| - 1] == text[|text| - 1];
  }

  lemma {:induction false} JoinEndsVisible(modules: seq<string>)
    requires modules != [] && forall m :: m in modules ==> ModuleName(m)
    ensures var text := Join(modules, ","); text != "" && !Space(text[|text| - 1]) && '\n' !in text
  {
    var m := modules[0];
    assert m in modules;
    assert NameChar(m[|m| - 1]) && !NameChar('\n');
    if |modules| > 1 {
      JoinEndsVisible(modules[1..]);
      var rest, text := Join(modules[1..], ","), Join(modules, ",");
      assert text[|text| - 1] == rest[|rest| - 1];
    }
  }
}
