/** The rendered odoo.conf: which configurations are refused, and that the text says exactly the
    merged settings, one line per key in ascending order. */
module OdooConf {
  import opened Options
  import opened Text

  type Settings = map<string, string>

  datatype Spec = Spec(config: Settings, cron: bool, host: string, port: int, database: string, user: string)

  datatype ConfError = Blocked(key: string) | IllegalKey(key: string) | IllegalValue(key: string) | CronThreads

  datatype Result = Ok(text: string) | Err(error: ConfError)

  const BLOCKED: set<string> := {"admin_passwd", "db_password", "dbfilter"}
  const CRON_THREADS := "max_cron_threads"
  const HEADER := "[options]"

  function Defaults(): Settings {
    map["addons_path" := "/mnt/odoo/addons", "proxy_mode" := "True", "list_db" := "False"]
  }

  function Itoa(n: int): string {
    if n < 0 then "-" + Decimal(-n) else Decimal(n)
  }

  function DbSettings(spec: Spec): seq<(string, string)> {
    if spec.database == "" then []
    else [("db_host", spec.host), ("db_port", Itoa(if spec.port == 0 then 5432 else spec.port)),
          ("db_name", spec.database), ("db_user", spec.user), ("db_sslmode", "require")]
  }

  // ---- What is refused ---------------------------------------------------------------------

  predicate LegalValue(value: string) {
    '\n' !in value && '\r' !in value
  }

  predicate LegalKey(key: string) {
    key != "" && forall c :: c in key ==> c !in "=[]\n\r"
  }

  /** What is wrong with one user setting. */
  function Wrong(key: string, value: string): Option<ConfError> {
    if key in BLOCKED then Some(Blocked(key))
    else if !LegalKey(key) then Some(IllegalKey(key))
    else if !LegalValue(value) then Some(IllegalValue(key))
    else None
  }

  type Judge = (string, string) -> Option<ConfError>

  /** The judge has nothing against any setting. */
  ghost predicate AllFine(judge: Judge, config: Settings) {
    forall key :: key in config ==> judge(key, config[key]) == None
  }

  /** The error is about a user key, and every smaller key is fine. */
  ghost predicate FirstBad(judge: Judge, config: Settings, e: ConfError) {
    && !e.CronThreads? && e.key in config && judge(e.key, config[e.key]) == Some(e)
    && forall key :: key in config && Less(key, e.key) ==> judge(key, config[key]) == None
  }

  /** An error names the key it is about. */
  ghost predicate Names(judge: Judge) {
    forall key, value :: judge(key, value).Some? ==> !judge(key, value).value.CronThreads? && judge(key, value).value.key == key
  }

  ghost predicate Acceptable(spec: Spec) {
    && AllFine(Wrong, spec.config)
    && (spec.cron ==> CRON_THREADS !in spec.config)
    && (spec.database != "" ==> LegalValue(spec.host) && LegalValue(spec.database) && LegalValue(spec.user))
  }

  // ---- What is rendered --------------------------------------------------------------------

  function Put(m: Settings, pairs: seq<(string, string)>): Settings {
    if pairs == [] then m else Put(m, pairs[..|pairs| - 1])[pairs[|pairs| - 1].0 := pairs[|pairs| - 1].1]
  }

  function Base(spec: Spec): Settings {
    (Defaults() + spec.config) + if spec.cron then map[CRON_THREADS := "0"] else map[]
  }

  /** The operator's settings over the user's over the defaults. */
  function Merged(spec: Spec): Settings {
    Put(Base(spec), DbSettings(spec))
  }

  function Line(key: string, value: string): string {
    key + " = " + value
  }

  function Lines(keys: seq<string>, m: Settings): string
    requires forall key :: key in keys ==> key in m
  {
    if keys == [] then "" else
      assert keys[|keys| - 1] in keys;
      Lines(keys[..|keys| - 1], m) + (Line(keys[|keys| - 1], m[keys[|keys| - 1]]) + "\n")
  }

  lemma LinesLast(keys: seq<string>, m: Settings)
    requires keys != [] && forall key :: key in keys ==> key in m
    ensures var n := |keys| - 1;
            && keys[n] in m && (forall key :: key in keys[..n] ==> key in m)
            && Lines(keys, m) == Lines(keys[..n], m) + (Line(keys[n], m[keys[n]]) + "\n")
  {
    assert keys[|keys| - 1] in keys;
  }

  ghost function Rendered(m: Settings): string {
    HEADER + "\n" + Lines(SortedElements(m.Keys), m)
  }

  // ---- The printer -------------------------------------------------------------------------

  /** The user's settings over the defaults, or what is wrong with the first bad key. */
  method MergeUser(judge: Judge, defaults: Settings, config: Settings)
    returns (wrong: Option<ConfError>, merged: Settings)
    requires Names(judge)
    ensures wrong == None <==> AllFine(judge, config)
    ensures wrong == None ==> merged == defaults + config
    ensures wrong.Some? ==> FirstBad(judge, config, wrong.value)
  {
    merged := defaults;
    var keys := Enumerate(config.Keys);
    for i := 0 to |keys|
      invariant FineTo(judge, config, keys, i)
      invariant merged == defaults + Restrict(config, keys[..i])
    {
      var key := keys[i];
      assert key in keys;
      wrong := judge(key, config[key]);
      if wrong.Some? {
        FirstIsBad(judge, config, keys, i);
        return;
      }
      RestrictMore(defaults, config, keys, i);
      merged := merged[key := config[key]];
    }
    AllRight(judge, config, keys);
    return None, merged;
  }

  /** There is nothing against the first keys. */
  ghost predicate FineTo(judge: Judge, config: Settings, keys: seq<string>, i: nat) {
    i <= |keys| && forall k :: 0 <= k < i ==> keys[k] in config && judge(keys[k], config[keys[k]]) == None
  }

  /** The error is about the first database setting that is not legal. */
  ghost predicate BadSetting(settings: seq<(string, string)>, e: ConfError) {
    e.IllegalValue?
    && exists i :: 0 <= i < |settings| && settings[i].0 == e.key && !LegalValue(settings[i].1)
         && forall k :: 0 <= k < i ==> LegalValue(settings[k].1)
  }

  method PutSettings(m: Settings, settings: seq<(string, string)>) returns (wrong: Option<ConfError>, merged: Settings)
    ensures wrong == None <==> forall p :: p in settings ==> LegalValue(p.1)
    ensures wrong == None ==> merged == Put(m, settings)
    ensures wrong.Some? ==> BadSetting(settings, wrong.value)
  {
    merged := m;
    for i := 0 to |settings|
      invariant forall k :: 0 <= k < i ==> LegalValue(settings[k].1)
      invariant merged == Put(m, settings[..i])
    {
      var (key, value) := settings[i];
      if !LegalValue(value) {
        assert settings[i] in settings;
        return Some(IllegalValue(key)), merged;
      }
      assert settings[..i + 1][..i] == settings[..i];
      merged := merged[key := value];
    }
    assert settings[..|settings|] == settings;
    return None, merged;
  }

  lemma LinesMore(keys: seq<string>, i: nat, m: Settings)
    requires i < |keys| && (forall key :: key in keys ==> key in m)
    ensures keys[i] in m && (forall key :: key in keys[..i] || key in keys[..i + 1] ==> key in m)
    ensures Lines(keys[..i + 1], m) == Lines(keys[..i], m) + (Line(keys[i], m[keys[i]]) + "\n")
  {
    var upTo := keys[..i + 1];
    assert forall key :: key in keys[..i] || key in upTo ==> key in keys;
    LinesLast(upTo, m);
    assert upTo[..i] == keys[..i];
  }

  method Print(m: Settings) returns (text: string)
    ensures text == Rendered(m)
  {
    var keys := Enumerate(m.Keys);
    OneEnumeration(keys, SortedElements(m.Keys), m.Keys);
    text := "";
    for i := 0 to |keys|
      invariant forall key :: key in keys[..i] ==> key in m
      invariant text == Lines(keys[..i], m)
    {
      LinesMore(keys, i, m);
      text := text + (Line(keys[i], m[keys[i]]) + "\n");
    }
    assert keys[..|keys|] == keys;
    text := HEADER + "\n" + text;
  }

  lemma WrongNames()
    ensures Names(Wrong)
  {
  }

  /** What is wrong with the user's settings, the cron setting included. */
  ghost predicate UserError(spec: Spec, e: ConfError) {
    if e.CronThreads? then spec.cron && CRON_THREADS in spec.config && AllFine(Wrong, spec.config)
    else FirstBad(Wrong, spec.config, e)
  }

  ghost predicate UserFine(spec: Spec) {
    AllFine(Wrong, spec.config) && (spec.cron ==> CRON_THREADS !in spec.config)
  }

  method MergeBase(spec: Spec) returns (wrong: Option<ConfError>, merged: Settings)
    ensures wrong == None <==> UserFine(spec)
    ensures wrong == None ==> merged == Base(spec)
    ensures wrong.Some? ==> UserError(spec, wrong.value)
  {
    WrongNames();
    wrong, merged := MergeUser(Wrong, Defaults(), spec.config);
    if wrong == None && spec.cron {
      if CRON_THREADS in spec.config {
        wrong := Some(CronThreads);
      } else {
        merged := merged[CRON_THREADS := "0"];
      }
    }
  }

  /** Refuses exactly the unacceptable specs, with the first thing wrong in the order the printer
      looks: the user's keys ascending, the cron setting, the database settings. */
  method RenderOdooConf(spec: Spec) returns (r: Result)
    ensures r.Ok? <==> Acceptable(spec)
    ensures r.Ok? ==> r.text == Rendered(Merged(spec))
    ensures r.Err? ==>
              || UserError(spec, r.error)
              || (UserFine(spec) && BadSetting(DbSettings(spec), r.error))
  {
    PlainSettings(spec);
    var wrong, merged := MergeBase(spec);
    if wrong.Some? {
      return Err(wrong.value);
    }
    wrong, merged := PutSettings(merged, DbSettings(spec));
    if wrong.Some? {
      return Err(wrong.value);
    }
    var text := Print(merged);
    return Ok(text);
  }

  function Restrict(m: Settings, keys: seq<string>): Settings {
    map key | key in m && key in keys :: m[key]
  }

  lemma RestrictMore(defaults: Settings, config: Settings, keys: seq<string>, i: nat)
    requires i < |keys| && keys[i] in config
    ensures defaults + Restrict(config, keys[..i + 1]) == (defaults + Restrict(config, keys[..i]))[keys[i] := config[keys[i]]]
  {
    assert keys[..i + 1] == keys[..i] + [keys[i]];
  }

  lemma FirstWrong(keys: seq<string>, i: nat)
    requires Ascending(keys) && i < |keys|
    ensures forall key :: key in keys && Less(key, keys[i]) ==> key in keys[..i]
  {
    forall key | key in keys && Less(key, keys[i]) ensures key in keys[..i] {
      var k :| 0 <= k < |keys| && keys[k] == key;
      LessIrreflexive(key);
      if i < k {
        LessAsymmetric(keys[i], keys[k]);
      }
      assert keys[..i][k] == key;
    }
  }

  lemma FirstIsBad(judge: Judge, config: Settings, keys: seq<string>, i: nat)
    requires Names(judge) && Enumerates(keys, config.Keys) && i < |keys| && keys[i] in config
    requires FineTo(judge, config, keys, i) && judge(keys[i], config[keys[i]]).Some?
    ensures FirstBad(judge, config, judge(keys[i], config[keys[i]]).value) && !AllFine(judge, config)
  {
    FirstWrong(keys, i);
    forall key | key in config && Less(key, keys[i]) ensures judge(key, config[key]) == None {
      assert key in keys;
      var k :| 0 <= k < i && keys[..i][k] == key;
    }
  }

  lemma AllRight(judge: Judge, config: Settings, keys: seq<string>)
    requires Enumerates(keys, config.Keys) && FineTo(judge, config, keys, |keys|)
    ensures AllFine(judge, config)
    ensures Restrict(config, keys[..|keys|]) == config
  {
    assert keys[..|keys|] == keys;
    forall key | key in config ensures judge(key, config[key]) == None {
      assert key in keys;
    }
  }

  lemma {:induction false} DecimalIsPlain(n: nat)
    ensures LegalValue(Decimal(n))
  {
    if n >= 10 {
      DecimalIsPlain(n / 10);
    }
  }

  /** The port and the SSL mode never break a line, so only the user's strings are judged. */
  lemma PlainSettings(spec: Spec)
    ensures (forall p :: p in DbSettings(spec) ==> LegalValue(p.1)) <==>
            (spec.database != "" ==> LegalValue(spec.host) && LegalValue(spec.database) && LegalValue(spec.user))
  {
    var port := if spec.port == 0 then 5432 else spec.port;
    DecimalIsPlain(if port < 0 then -port else port);
    assert LegalValue(Itoa(port));
    var s := DbSettings(spec);
    if spec.database != "" {
      assert s[0] in s && s[2] in s && s[3] in s;
    }
  }

  // ---- Reading it back ---------------------------------------------------------------------

  function FirstEquals(line: string): (i: nat)
    ensures i <= |line| && (i < |line| ==> line[i] == '=')
    ensures forall k :: 0 <= k < i ==> line[k] != '='
  {
    if line == "" || line[0] == '=' then 0 else 1 + FirstEquals(line[1..])
  }

  /** One line, split at the first `=`, without the blank on either side of it. */
  function ParseLine(line: string): Option<(string, string)> {
    var i := FirstEquals(line);
    if i == 0 || i == |line| || line[i - 1] != ' ' || i + 1 == |line| || line[i + 1] != ' ' then None
    else Some((line[..i - 1], line[i + 2..]))
  }

  /** The settings of the lines; a repeated key is refused. */
  function ParseLines(lines: seq<string>): Option<Settings> {
    if lines == [] then Some(map[])
    else
      var rest, pair := ParseLines(lines[..|lines| - 1]), ParseLine(lines[|lines| - 1]);
      if rest == None || pair == None || pair.value.0 in rest.value then None
      else Some(rest.value[pair.value.0 := pair.value.1])
  }

  function Parse(text: string): Option<Settings> {
    var lines := Split(text, '\n');
    if |lines| < 2 || lines[0] != HEADER || lines[|lines| - 1] != "" then None
    else ParseLines(lines[1..|lines| - 1])
  }

  ghost predicate Renderable(m: Settings) {
    forall key :: key in m ==> '=' !in key && '\n' !in key && '\n' !in m[key]
  }

  lemma LineRead(key: string, value: string)
    requires '=' !in key
    ensures ParseLine(Line(key, value)) == Some((key, value))
  {
    var line := Line(key, value);
    assert forall k :: 0 <= k < |key| ==> line[k] == key[k];
    assert line[|key|] == ' ' && line[|key| + 1] == '=' && line[|key| + 2] == ' ';
    assert FirstEquals(line) == |key| + 1;
    assert line[..|key|] == key && line[|key| + 3..] == value;
  }

  function LineList(keys: seq<string>, m: Settings): seq<string>
    requires forall key :: key in keys ==> key in m
  {
    seq(|keys|, i requires 0 <= i < |keys| => assert keys[i] in keys; Line(keys[i], m[keys[i]]))
  }

  lemma SplitOne(line: string, tail: string)
    requires '\n' !in line
    ensures Split(line + "\n" + tail, '\n') == [line] + Split(tail, '\n')
  {
    SplitAt(line, '\n', tail);
    assert line + ['\n'] + tail == line + "\n" + tail;
  }

  lemma LineListLast(keys: seq<string>, m: Settings)
    requires keys != [] && forall key :: key in keys ==> key in m
    ensures keys[|keys| - 1] in m
    ensures LineList(keys, m) == LineList(keys[..|keys| - 1], m) + [Line(keys[|keys| - 1], m[keys[|keys| - 1]])]
  {
    assert keys[|keys| - 1] in keys;
  }

  lemma SplitMore(lines: string, list: seq<string>, line: string, tail: string)
    requires '\n' !in line && Split(lines + (line + "\n" + tail), '\n') == list + Split(line + "\n" + tail, '\n')
    ensures Split((lines + (line + "\n")) + tail, '\n') == (list + [line]) + Split(tail, '\n')
  {
    SplitOne(line, tail);
    assert (lines + (line + "\n")) + tail == lines + (line + "\n" + tail);
    assert (list + [line]) + Split(tail, '\n') == list + ([line] + Split(tail, '\n'));
  }

  lemma {:induction false} SplitLines(keys: seq<string>, m: Settings, tail: string)
    requires Renderable(m) && forall key :: key in keys ==> key in m
    ensures Split(Lines(keys, m) + tail, '\n') == LineList(keys, m) + Split(tail, '\n')
    decreases |keys|
  {
    if keys == [] {
      assert Lines(keys, m) + tail == tail;
      assert LineList(keys, m) + Split(tail, '\n') == Split(tail, '\n');
    } else {
      LinesLast(keys, m);
      LineListLast(keys, m);
      var rest, line := keys[..|keys| - 1], Line(keys[|keys| - 1], m[keys[|keys| - 1]]);
      SplitLines(rest, m, line + "\n" + tail);
      SplitMore(Lines(rest, m), LineList(rest, m), line, tail);
    }
  }

  lemma ParseMore(lines: seq<string>, key: string, value: string)
    requires '=' !in key && ParseLines(lines).Some? && key !in ParseLines(lines).value
    ensures ParseLines(lines + [Line(key, value)]) == Some(ParseLines(lines).value[key := value])
  {
    LineRead(key, value);
    var all := lines + [Line(key, value)];
    assert all[..|all| - 1] == lines;
  }

  lemma RestrictLast(keys: seq<string>, m: Settings)
    requires keys != [] && Ascending(keys) && forall key :: key in keys ==> key in m
    ensures var n := |keys| - 1;
            && keys[n] in m && keys[n] !in keys[..n]
            && Restrict(m, keys) == Restrict(m, keys[..n])[keys[n] := m[keys[n]]]
  {
    var n := |keys| - 1;
    AscendingIsSorted(keys);
    assert keys[n] in keys && keys == keys[..n] + [keys[n]];
  }

  lemma {:induction false} ParseBack(keys: seq<string>, m: Settings)
    requires Renderable(m) && Ascending(keys) && forall key :: key in keys ==> key in m
    ensures ParseLines(LineList(keys, m)) == Some(Restrict(m, keys))
    decreases |keys|
  {
    if keys == [] {
      assert Restrict(m, keys) == map[];
    } else {
      var n := |keys| - 1;
      RestrictLast(keys, m);
      LineListLast(keys, m);
      ParseBack(keys[..n], m);
      ParseMore(LineList(keys[..n], m), keys[n], m[keys[n]]);
    }
  }

  /** The text gives back the settings, and its lines are in ascending order of their keys. */
  lemma TextReadsBack(m: Settings)
    requires Renderable(m)
    ensures Parse(Rendered(m)) == Some(m)
  {
    var keys := SortedElements(m.Keys);
    RenderedSplits(keys, m);
    ParseBack(keys, m);
    ParseSplit(Rendered(m), LineList(keys, m));
    assert Restrict(m, keys) == m;
  }

  lemma RenderedSplits(keys: seq<string>, m: Settings)
    requires Renderable(m) && forall key :: key in keys ==> key in m
    ensures Split(HEADER + "\n" + Lines(keys, m), '\n') == [HEADER] + (LineList(keys, m) + [""])
  {
    var text := Lines(keys, m);
    SplitOne(HEADER, text);
    SplitLines(keys, m, "");
    assert text + "" == text;
  }

  lemma ParseSplit(text: string, lines: seq<string>)
    requires Split(text, '\n') == [HEADER] + (lines + [""])
    ensures Parse(text) == ParseLines(lines)
  {
    var all := Split(text, '\n');
    assert all[1..|all| - 1] == lines;
  }

  /** Two settings render alike only if they are the same. */
  lemma TextTellsApart(m: Settings, n: Settings)
    requires Renderable(m) && Renderable(n)
    ensures Rendered(m) == Rendered(n) <==> m == n
  {
    TextReadsBack(m);
    TextReadsBack(n);
  }

  // ---- Which setting wins ------------------------------------------------------------------

  lemma {:induction false} PutKeepsOthers(m: Settings, pairs: seq<(string, string)>, key: string)
    requires forall p :: p in pairs ==> p.0 != key
    ensures (key in Put(m, pairs) <==> key in m) && (key in m ==> Put(m, pairs)[key] == m[key])
    decreases |pairs|
  {
    if pairs != [] {
      assert pairs[|pairs| - 1] in pairs;
      PutKeepsOthers(m, pairs[..|pairs| - 1], key);
    }
  }

  lemma {:induction false} PutSets(m: Settings, pairs: seq<(string, string)>, k: nat)
    requires k < |pairs| && forall i, j :: 0 <= i < j < |pairs| ==> pairs[i].0 != pairs[j].0
    ensures pairs[k].0 in Put(m, pairs) && Put(m, pairs)[pairs[k].0] == pairs[k].1
    decreases |pairs|
  {
    var n := |pairs| - 1;
    if k < n {
      PutSets(m, pairs[..n], k);
      assert pairs[..n][k] == pairs[k];
    }
  }

  lemma SettingNames(spec: Spec)
    ensures forall i, j :: 0 <= i < j < |DbSettings(spec)| ==> DbSettings(spec)[i].0 != DbSettings(spec)[j].0
    ensures forall p :: p in DbSettings(spec) ==> p.0 in {"db_host", "db_port", "db_name", "db_user", "db_sslmode"}
  {
    assert "db_host"[3] != "db_port"[3] && "db_host"[3] != "db_name"[3] && "db_host"[3] != "db_user"[3];
    assert "db_port"[3] != "db_name"[3] && "db_port"[3] != "db_user"[3] && "db_name"[3] != "db_user"[3];
    assert |"db_sslmode"| != |"db_host"| && |"db_sslmode"| != |"db_port"|;
  }

  lemma {:induction false} PutRenderable(m: Settings, pairs: seq<(string, string)>)
    requires Renderable(m)
    requires forall p :: p in pairs ==> '=' !in p.0 && '\n' !in p.0 && '\n' !in p.1
    ensures Renderable(Put(m, pairs))
    decreases |pairs|
  {
    if pairs != [] {
      assert pairs[|pairs| - 1] in pairs;
      PutRenderable(m, pairs[..|pairs| - 1]);
    }
  }

  lemma SettingsAreLines(spec: Spec)
    requires Acceptable(spec)
    ensures forall p :: p in DbSettings(spec) ==> '=' !in p.0 && '\n' !in p.0 && '\n' !in p.1
  {
    PlainSettings(spec);
    assert forall p :: p in DbSettings(spec) ==> LegalValue(p.1);
    assert forall key :: key in {"db_host", "db_port", "db_name", "db_user", "db_sslmode"} ==> '=' !in key && '\n' !in key;
    SettingNames(spec);
  }

  lemma FineIsPlain(key: string, value: string)
    requires Wrong(key, value) == None
    ensures '=' !in key && '\n' !in key && '\n' !in value
  {
    assert LegalKey(key) && LegalValue(value);
    assert '=' in "=[]\n\r" && '\n' in "=[]\n\r";
  }

  lemma DefaultsAreRenderable()
    ensures Renderable(Defaults())
    ensures '=' !in CRON_THREADS && '\n' !in CRON_THREADS
  {
  }

  lemma OverRenderable(m: Settings, n: Settings)
    requires Renderable(m) && Renderable(n)
    ensures Renderable(m + n)
  {
  }

  lemma BaseIsRenderable(spec: Spec)
    requires AllFine(Wrong, spec.config)
    ensures Renderable(Base(spec))
  {
    DefaultsAreRenderable();
    forall key | key in spec.config ensures '=' !in key && '\n' !in key && '\n' !in spec.config[key] {
      FineIsPlain(key, spec.config[key]);
    }
    OverRenderable(Defaults(), spec.config);
    OverRenderable(Defaults() + spec.config, if spec.cron then map[CRON_THREADS := "0"] else map[]);
  }

  /** Whatever is accepted can be read back from the rendered text. */
  lemma AcceptedIsRenderable(spec: Spec)
    requires Acceptable(spec)
    ensures Renderable(Merged(spec)) && Parse(Rendered(Merged(spec))) == Some(Merged(spec))
  {
    SettingsAreLines(spec);
    BaseIsRenderable(spec);
    PutRenderable(Base(spec), DbSettings(spec));
    TextReadsBack(Merged(spec));
  }

  /** An accepted configuration: the operator's keys have the operator's values, whatever the user
      wrote, and every other user key has the user's value. */
  lemma OperatorKeysWin(spec: Spec, key: string)
    requires Acceptable(spec)
    ensures forall k :: 0 <= k < |DbSettings(spec)| ==>
              DbSettings(spec)[k].0 in Merged(spec) && Merged(spec)[DbSettings(spec)[k].0] == DbSettings(spec)[k].1
    ensures (forall p :: p in DbSettings(spec) ==> p.0 != key) ==>
              && (spec.cron && key == CRON_THREADS ==> key in Merged(spec) && Merged(spec)[key] == "0")
              && (key in spec.config ==> key in Merged(spec) && Merged(spec)[key] == spec.config[key])
  {
    SettingNames(spec);
    forall k | 0 <= k < |DbSettings(spec)|
      ensures DbSettings(spec)[k].0 in Merged(spec) && Merged(spec)[DbSettings(spec)[k].0] == DbSettings(spec)[k].1
    {
      PutSets(Base(spec), DbSettings(spec), k);
    }
    if forall p :: p in DbSettings(spec) ==> p.0 != key {
      PutKeepsOthers(Base(spec), DbSettings(spec), key);
    }
  }

  /** No password and no database filter ever reaches the file from the user's settings. */
  lemma BlockedKeysStayOut(spec: Spec, key: string)
    requires Acceptable(spec) && key in BLOCKED
    ensures key !in Merged(spec)
  {
    SettingNames(spec);
    assert |"admin_passwd"| == 12 && |"db_password"| == 11 && |"dbfilter"| == 8;
    assert |"db_host"| == 7 && |"db_port"| == 7 && |"db_name"| == 7 && |"db_user"| == 7 && |"db_sslmode"| == 10;
    assert |"addons_path"| == 11 && "addons_path"[0] != "db_password"[0];
    PutKeepsOthers(Base(spec), DbSettings(spec), key);
    assert key !in spec.config by { assert key in spec.config ==> Wrong(key, spec.config[key]).Some?; }
  }

  // ---- The same, key by key ----------------------------------------------------------------

  /** What is accepted: no key that the operator owns, no key or value that would break a line, no cron
      setting next to spec.cron, no line break in the database settings. */
  lemma AcceptedExactly(spec: Spec)
    ensures Acceptable(spec) <==>
              && (forall key :: key in spec.config ==>
                    && key !in {"admin_passwd", "db_password", "dbfilter"} && key != ""
                    && '=' !in key && '[' !in key && ']' !in key && '\n' !in key && '\r' !in key
                    && '\n' !in spec.config[key] && '\r' !in spec.config[key])
              && (spec.cron ==> "max_cron_threads" !in spec.config)
              && (spec.database != "" ==>
                    && '\n' !in spec.host && '\r' !in spec.host && '\n' !in spec.database && '\r' !in spec.database
                    && '\n' !in spec.user && '\r' !in spec.user)
  {
    forall key: string
      ensures LegalKey(key) <==> key != "" && '=' !in key && '[' !in key && ']' !in key && '\n' !in key && '\r' !in key
    {
      KeyLetters(key);
    }
    forall key | key in spec.config ensures Wrong(key, spec.config[key]) == None <==>
      key !in BLOCKED && LegalKey(key) && LegalValue(spec.config[key])
    {
    }
  }

  lemma KeyLetters(key: string)
    ensures LegalKey(key) <==> key != "" && '=' !in key && '[' !in key && ']' !in key && '\n' !in key && '\r' !in key
  {
    forall c | c in key ensures c in "=[]\n\r" <==> c in {'=', '[', ']', '\n', '\r'} {
      IllegalLetters(c);
    }
  }

  lemma IllegalLetters(c: char)
    ensures c in "=[]\n\r" <==> c == '=' || c == '[' || c == ']' || c == '\n' || c == '\r'
  {
    var s := "=[]\n\r";
    assert s[0] == '=' && s[1] == '[' && s[2] == ']' && s[3] == '\n' && s[4] == '\r';
  }

  predicate Has(m: Settings, key: string, value: string) {
    key in m && m[key] == value
  }

  /** With a database configured, the file connects to it, whatever the user wrote. */
  lemma DatabaseIsSet(spec: Spec)
    requires spec.database != ""
    ensures var m := Merged(spec);
            && Has(m, "db_host", spec.host) && Has(m, "db_name", spec.database) && Has(m, "db_user", spec.user)
            && Has(m, "db_sslmode", "require")
  {
    SettingWins(spec, 0, "db_host", spec.host);
    SettingWins(spec, 2, "db_name", spec.database);
    SettingWins(spec, 3, "db_user", spec.user);
    SettingWins(spec, 4, "db_sslmode", "require");
  }

  /** ... at the port that is given, or the usual one. */
  lemma PortIsSet(spec: Spec)
    requires spec.database != ""
    ensures spec.port == 0 ==> Has(Merged(spec), "db_port", "5432")
    ensures spec.port > 0 ==> Has(Merged(spec), "db_port", Decimal(spec.port))
    ensures spec.port < 0 ==> Has(Merged(spec), "db_port", "-" + Decimal(-spec.port))
  {
    SettingWins(spec, 1, "db_port", Itoa(if spec.port == 0 then 5432 else spec.port));
    if spec.port == 0 {
      DefaultPort();
    }
  }

  lemma SettingWins(spec: Spec, k: nat, key: string, value: string)
    requires k < |DbSettings(spec)| && DbSettings(spec)[k] == (key, value)
    ensures Has(Merged(spec), key, value)
  {
    SettingNames(spec);
    PutSets(Base(spec), DbSettings(spec), k);
  }

  lemma DefaultPort()
    ensures Decimal(5432) == "5432"
  {
    assert Decimal(5) == "5" && Decimal(54) == "54" && Decimal(543) == "543";
  }

  /** Every other key: the cron pod's threads, else what the user wrote, else the default, else nothing. */
  lemma OtherKeys(spec: Spec, key: string)
    requires spec.database == "" || key !in {"db_host", "db_port", "db_name", "db_user", "db_sslmode"}
    ensures var m := Merged(spec);
            if spec.cron && key == "max_cron_threads" then key in m && m[key] == "0"
            else if key in spec.config then key in m && m[key] == spec.config[key]
            else if key == "addons_path" then key in m && m[key] == "/mnt/odoo/addons"
            else if key == "proxy_mode" then key in m && m[key] == "True"
            else if key == "list_db" then key in m && m[key] == "False"
            else key !in m
  {
    forall p | p in DbSettings(spec) ensures p.0 != key {
      var k :| 0 <= k < |DbSettings(spec)| && DbSettings(spec)[k] == p;
    }
    PutKeepsOthers(Base(spec), DbSettings(spec), key);
  }

  /** The file of an instance without database and settings, line by line. */
  lemma PlainFile(spec: Spec)
    requires spec.config == map[] && !spec.cron && spec.database == ""
    ensures Split(Rendered(Merged(spec)), '\n')
            == ["[options]", "addons_path = /mnt/odoo/addons", "list_db = False", "proxy_mode = True", ""]
  {
    NothingAdded(spec);
    PlainKeys();
    OneEnumeration(["addons_path", "list_db", "proxy_mode"], SortedElements(Defaults().Keys), Defaults().Keys);
    DefaultsAreRenderable();
    RenderedSplits(SortedElements(Defaults().Keys), Defaults());
    DefaultList(SortedElements(Defaults().Keys));
  }

  lemma NothingAdded(spec: Spec)
    requires spec.config == map[] && !spec.cron && spec.database == ""
    ensures Merged(spec) == Defaults()
  {
    assert DbSettings(spec) == [] && Put(Base(spec), []) == Base(spec);
  }

  lemma DefaultList(keys: seq<string>)
    requires keys == ["addons_path", "list_db", "proxy_mode"] && forall key :: key in keys ==> key in Defaults()
    ensures [HEADER] + (LineList(keys, Defaults()) + [""])
            == ["[options]", "addons_path = /mnt/odoo/addons", "list_db = False", "proxy_mode = True", ""]
  {
    ThreeLines(keys, Defaults());
    DefaultLines();
  }

  lemma PlainKeys()
    ensures Enumerates(["addons_path", "list_db", "proxy_mode"], Defaults().Keys)
  {
    var a, b, c := "addons_path", "list_db", "proxy_mode";
    assert a[0] < b[0] < c[0];
    assert Less(a, b) && Less(b, c) && Less(a, c);
  }

  lemma DefaultLines()
    ensures Line("addons_path", "/mnt/odoo/addons") == "addons_path = /mnt/odoo/addons"
    ensures Line("list_db", "False") == "list_db = False" && Line("proxy_mode", "True") == "proxy_mode = True"
  {
  }

  lemma ThreeLines(keys: seq<string>, m: Settings)
    requires |keys| == 3 && forall key :: key in keys ==> key in m
    ensures LineList(keys, m) == [Line(keys[0], m[keys[0]]), Line(keys[1], m[keys[1]]), Line(keys[2], m[keys[2]])]
  {
  }
}
