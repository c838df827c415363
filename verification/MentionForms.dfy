/** Which URLs name which mention: the grammar that `parse` accepts, form by form. */
module MentionForms {
  import opened Wrappers
  import opened Text
  import opened Mention
  import opened MentionRoundTrip

  // ---------------------------------------------------------------------------
  // Numbers and line ranges
  // ---------------------------------------------------------------------------

  /** Decimal digits, perhaps after a plus sign. */
  predicate IsNumber(s: string, n: nat) {
    var digits := if s != "" && s[0] == '+' then s[1..] else s;
    digits != "" && AllDigits(digits) && DigitsValue(digits) == n
  }

  lemma NumberReads(s: string, max: nat, n: nat)
    ensures ParseUnsigned(s, max) == Some(n) <==> n <= max && IsNumber(s, n)
  {
  }

  lemma LineReads(s: string, line: u32)
    ensures ParseOneBased(s) == Some(line) <==> line + 1 <= U32_MAX && IsNumber(s, line + 1)
  {
    var n := ParseUnsigned(s, U32_MAX);
    if n.Some? {
      NumberReads(s, U32_MAX, n.value);
    }
    NumberReads(s, U32_MAX, line + 1);
  }

  /** `r` is `s` without one leading "L". */
  predicate Unprefixed(s: string, r: string) {
    s == "L" + r || (s == r && (r == "" || r[0] != 'L'))
  }

  lemma StripsL(s: string, r: string)
    ensures StripL(s) == r <==> Unprefixed(s, r)
  {
    if s != "" && s[0] == 'L' {
      assert s == "L" + s[1..];
    }
  }

  /** The first `c` in `s` stands between `a` and `b`. */
  predicate SplitsAt(s: string, c: char, a: string, b: string) {
    s == a + [c] + b && forall i | 0 <= i < |a| :: a[i] != c
  }

  lemma {:induction false} FindsFirst(s: string, c: char)
    ensures var r := Find(s, [c]);
            && (r.Some? ==> s[r.value] == c && forall i | 0 <= i < r.value :: s[i] != c)
            && (r.None? ==> forall i | 0 <= i < |s| :: s[i] != c)
  {
    if s != "" && s[0] != c {
      FindsFirst(s[1..], c);
      assert s[..1][0] != [c][0];
      var r := Find(s[1..], [c]);
      assert forall i | 0 <= i < |s[1..]| :: s[1..][i] == s[i + 1];
      forall i | 0 <= i < (if r.Some? then r.value + 1 else |s|) ensures s[i] != c {
        assert i > 0 ==> s[i] == s[1..][i - 1];
      }
    } else if s != "" {
      assert s[..1] == [c];
    }
  }

  lemma SplitsExactly(s: string, c: char, a: string, b: string)
    ensures SplitOnce(s, c) == Some((a, b)) <==> SplitsAt(s, c, a, b)
  {
    FindsFirst(s, c);
    if SplitsAt(s, c, a, b) {
      SplitsHere(a, c, b);
    }
    var r := Find(s, [c]);
    if r.Some? {
      assert s == s[..r.value] + [c] + s[r.value + 1..];
    }
  }

  lemma SplitsNowhere(s: string, c: char)
    ensures SplitOnce(s, c).None? <==> c !in s
  {
    FindsFirst(s, c);
  }

  /** Both ends, counted from 1: around a colon, or around a dash with an "L" or none, or one line for both. */
  ghost predicate IsRangeText(range: string, start: nat, end: nat) {
    if ':' in range then
      exists a, b :: SplitsAt(range, ':', a, b) && IsNumber(a, start + 1) && IsNumber(b, end + 1)
    else if '-' in range then
      exists a, b, c :: SplitsAt(range, '-', a, b) && Unprefixed(b, c) && IsNumber(a, start + 1) && IsNumber(c, end + 1)
    else IsNumber(range, start + 1) && start == end
  }

  ghost predicate IsLineRange(fragment: string, start: nat, end: nat) {
    exists range :: Unprefixed(fragment, range) && IsRangeText(range, start, end)
  }

  /** The text that the two ends are read from. */
  function Ends(range: string): (string, string) {
    var colon, dash := SplitOnce(range, ':'), SplitOnce(range, '-');
    if colon.Some? then colon.value
    else if dash.Some? then (dash.value.0, StripL(dash.value.1))
    else (range, range)
  }

  lemma {:induction false} SameNumber(s: string, m: nat, n: nat)
    requires IsNumber(s, m) && IsNumber(s, n)
    ensures m == n
  {
  }

  lemma RangeTextReads(range: string, start: u32, end: u32)
    requires start + 1 <= U32_MAX && end + 1 <= U32_MAX
    ensures IsRangeText(range, start, end) <==> IsNumber(Ends(range).0, start + 1) && IsNumber(Ends(range).1, end + 1)
  {
    SplitsNowhere(range, ':');
    SplitsNowhere(range, '-');
    if ':' in range {
      var (a, b) := SplitOnce(range, ':').value;
      SplitsExactly(range, ':', a, b);
      if x, y :| SplitsAt(range, ':', x, y) && IsNumber(x, start + 1) && IsNumber(y, end + 1) {
        SplitsExactly(range, ':', x, y);
      }
    } else if '-' in range {
      var (a, b) := SplitOnce(range, '-').value;
      SplitsExactly(range, '-', a, b);
      StripsL(b, StripL(b));
      if x, y, z :|
        SplitsAt(range, '-', x, y) && Unprefixed(y, z) && IsNumber(x, start + 1) && IsNumber(z, end + 1) {
        SplitsExactly(range, '-', x, y);
        StripsL(y, z);
      }
    } else if IsNumber(range, start + 1) && IsNumber(range, end + 1) {
      SameNumber(range, start + 1, end + 1);
    }
  }

  /** A fragment is read as a line range exactly when it is one, both ends fitting in 32 bits. */
  lemma LineRangeExactly(fragment: string, start: u32, end: u32)
    ensures ParseLineRange(fragment) == Some((start, end)) <==>
            start + 1 <= U32_MAX && end + 1 <= U32_MAX && IsLineRange(fragment, start, end)
  {
    var range := StripL(fragment);
    StripsL(fragment, range);
    LineReads(Ends(range).0, start);
    LineReads(Ends(range).1, end);
    if start + 1 <= U32_MAX && end + 1 <= U32_MAX {
      RangeTextReads(range, start, end);
      if r :| Unprefixed(fragment, r) && IsRangeText(r, start, end) {
        StripsL(fragment, r);
      }
    }
  }

  // ---------------------------------------------------------------------------
  // Query parameters
  // ---------------------------------------------------------------------------

  /** The first pair with the key gives the value; without such a pair there is none. */
  ghost predicate Gives(query: Query, key: string, value: Option<string>) {
    match value
    case Some(v) => exists i :: 0 <= i < |query| && query[i] == (key, v) && forall j | 0 <= j < i :: query[j].0 != key
    case None => forall i | 0 <= i < |query| :: query[i].0 != key
  }

  lemma {:induction false} GivesItsParam(query: Query, key: string)
    ensures Gives(query, key, QueryParam(query, key))
  {
    if query != [] && query[0].0 != key {
      GivesItsParam(query[1..], key);
      var rest := query[1..];
      assert forall i | 0 <= i < |rest| :: rest[i] == query[i + 1];
      match QueryParam(rest, key)
      case Some(v) =>
        var i :| 0 <= i < |rest| && rest[i] == (key, v) && forall j | 0 <= j < i :: rest[j].0 != key;
        forall j | 0 <= j < i + 1 ensures query[j].0 != key {
          assert j > 0 ==> query[j] == rest[j - 1];
        }
        assert query[i + 1] == (key, v);
      case None =>
        forall i | 0 <= i < |query| ensures query[i].0 != key {
          assert i > 0 ==> query[i] == rest[i - 1];
        }
    } else if query != [] {
      assert query[0] == (key, query[0].1);
    }
  }

  lemma GivesOnce(query: Query, key: string, a: Option<string>, b: Option<string>)
    requires Gives(query, key, a) && Gives(query, key, b)
    ensures a == b
  {
  }

  lemma ParamExactly(query: Query, key: string, value: Option<string>)
    ensures QueryParam(query, key) == value <==> Gives(query, key, value)
  {
    GivesItsParam(query, key);
    if Gives(query, key, value) {
      GivesOnce(query, key, value, QueryParam(query, key));
    }
  }

  predicate OnlyKeys(query: Query, keys: set<string>) {
    forall p | p in query :: p.0 in keys
  }

  /** The value, or the default when the query has none. */
  ghost predicate GivesOr(query: Query, key: string, value: string, default: string) {
    Gives(query, key, Some(value)) || (Gives(query, key, None) && value == default)
  }

  lemma OrExactly(query: Query, key: string, value: string, default: string)
    ensures GetOr(QueryParam(query, key), default) == value <==> GivesOr(query, key, value, default)
  {
    ParamExactly(query, key, Some(value));
    ParamExactly(query, key, None);
  }

  lemma OnlyKeysExactly(query: Query, keys: set<string>)
    ensures OnlyParams(query, keys) <==> OnlyKeys(query, keys)
  {
    if OnlyParams(query, keys) {
      forall p | p in query ensures p.0 in keys {
        var i :| 0 <= i < |query| && query[i] == p;
      }
    }
  }

  /** A query of this one pair, or an empty one that stands for the default. */
  predicate IsSingle(query: Query, key: string, value: string, default: string) {
    query == [(key, value)] || (query == [] && value == default)
  }

  lemma SingleExactly(query: Query, key: string, value: string)
    ensures SingleQueryParam(query, key) == Ok(Some(value)) <==> query == [(key, value)]
    ensures SingleQueryParam(query, key) == Ok(None) <==> query == []
    ensures WithSingle(query, key) == Ok(value) <==> query == [(key, value)]
  {
    if |query| == 1 {
      assert query == [query[0]];
    }
  }

  // ---------------------------------------------------------------------------
  // Routes
  // ---------------------------------------------------------------------------

  lemma PathHas(path: string, word: string)
    requires |word| >= 3
    ensures Under(path, word) ==> |path| >= 10 && path[7] == word[0] && path[8] == word[1] && path[9] == word[2]
    ensures path == "/agent/" + word ==> Under(path, word)
  {
    var p := "/agent/" + word;
    assert p[7] == word[0] && p[8] == word[1] && p[9] == word[2];
  }

  /** What follows "/agent/" begins like the word. */
  lemma RestHas(path: string, word: string)
    requires |word| >= 3 && Under(path, word)
    ensures path == "/agent/" + path[7..] && |path[7..]| >= 3
    ensures path[7..][0] == word[0] && path[7..][1] == word[1] && path[7..][2] == word[2]
  {
    PathHas(path, word);
    assert path[..7] == "/agent/";
  }

  lemma ThreadRoute(path: string)
    ensures RouteOf(path) == ToThread <==> Under(path, "thread/")
  {
  }

  lemma RuleRoute(path: string)
    ensures RouteOf(path) == ToRule <==> Under(path, "rule/")
  {
    if Under(path, "rule/") {
      var rest := path[7..];
      RestHas(path, "rule/");
      Apart(rest, "thread/");
    }
  }

  lemma PastedImageRoute(path: string)
    ensures RouteOf(path) == ToPastedImage <==> Under(path, "pasted-image")
  {
    if Under(path, "pasted-image") {
      var rest := path[7..];
      RestHas(path, "pasted-image");
      EarlyRoutes(rest);
      NotDiagnostics(rest);
    }
  }

  lemma UntitledRoute(path: string)
    ensures RouteOf(path) == ToUntitled <==> Under(path, "untitled-buffer")
  {
    if Under(path, "untitled-buffer") {
      var rest := path[7..];
      RestHas(path, "untitled-buffer");
      EarlyRoutes(rest);
      NotDiagnostics(rest);
      Apart(rest, "pasted-image");
    }
  }

  lemma SymbolRoute(path: string)
    ensures RouteOf(path) == ToSymbol <==> Under(path, "symbol/")
  {
    if Under(path, "symbol/") {
      var rest := path[7..];
      RestHas(path, "symbol/");
      EarlyRoutes(rest);
      NotDiagnostics(rest);
      Apart(rest, "pasted-image");
      Apart(rest, "untitled-buffer");
    }
  }

  lemma FileRoute(path: string)
    ensures RouteOf(path) == ToFile <==> Under(path, "file")
  {
    if Under(path, "file") {
      var rest := path[7..];
      RestHas(path, "file");
      EarlyRoutes(rest);
      NotDiagnostics(rest);
      Apart(rest, "pasted-image");
      Apart(rest, "untitled-buffer");
      Apart(rest, "symbol/");
    }
  }

  lemma DirectoryRoute(path: string)
    ensures RouteOf(path) == ToDirectory <==> Under(path, "directory")
  {
    if Under(path, "directory") {
      var rest := path[7..];
      RestHas(path, "directory");
      EarlyRoutes(rest);
      Apart(rest, "pasted-image");
      Apart(rest, "untitled-buffer");
      Apart(rest, "symbol/");
      Apart(rest, "file");
      PathHas(path, "diagnostics");
    }
  }

  lemma SelectionRoute(path: string)
    ensures RouteOf(path) == ToSelection <==> Under(path, "selection")
  {
    if Under(path, "selection") {
      var rest := path[7..];
      RestHas(path, "selection");
      EarlyRoutes(rest);
      NotDiagnostics(rest);
      Apart(rest, "pasted-image");
      Apart(rest, "untitled-buffer");
      Apart(rest, "symbol/");
      Apart(rest, "file");
      Apart(rest, "directory");
    }
  }

  lemma TerminalRoute(path: string)
    ensures RouteOf(path) == ToTerminal <==> Under(path, "terminal-selection")
  {
    if Under(path, "terminal-selection") {
      var rest := path[7..];
      RestHas(path, "terminal-selection");
      EarlyRoutes(rest);
      MiddleRoutes(rest);
    }
  }

  lemma GitDiffRoute(path: string)
    ensures RouteOf(path) == ToGitDiff <==> Under(path, "git-diff")
  {
    if Under(path, "git-diff") {
      var rest := path[7..];
      RestHas(path, "git-diff");
      EarlyRoutes(rest);
      MiddleRoutes(rest);
      Apart(rest, "terminal-selection");
    }
  }

  lemma ConflictRoute(path: string)
    ensures RouteOf(path) == ToConflict <==> Under(path, "merge-conflict")
  {
    if Under(path, "merge-conflict") {
      var rest := path[7..];
      RestHas(path, "merge-conflict");
      EarlyRoutes(rest);
      MiddleRoutes(rest);
      Apart(rest, "terminal-selection");
      Apart(rest, "git-diff");
    }
  }

  lemma SqlQueryRoute(path: string)
    ensures RouteOf(path) == ToSqlQuery <==> Under(path, "sql-query")
  {
    if Under(path, "sql-query") {
      var rest := path[7..];
      RestHas(path, "sql-query");
      EarlyRoutes(rest);
      MiddleRoutes(rest);
      Apart(rest, "terminal-selection");
      Apart(rest, "git-diff");
      Apart(rest, "merge-conflict");
    }
  }

  lemma PullRequestRoute(path: string)
    ensures RouteOf(path) == ToPullRequest <==> Under(path, "pull-request")
  {
    if Under(path, "pull-request") {
      var rest := path[7..];
      RestHas(path, "pull-request");
      EarlyRoutes(rest);
      MiddleRoutes(rest);
      LateRoutes(rest);
    }
  }

  lemma ProjectItemRoute(path: string)
    ensures RouteOf(path) == ToProjectItem <==> Under(path, "project-item")
  {
    if Under(path, "project-item") {
      var rest := path[7..];
      RestHas(path, "project-item");
      EarlyRoutes(rest);
      MiddleRoutes(rest);
      LateRoutes(rest);
      Apart(rest, "pull-request");
    }
  }

  lemma NoteRoute(path: string)
    ensures RouteOf(path) == ToNote <==> Under(path, "note")
  {
    if Under(path, "note") {
      var rest := path[7..];
      RestHas(path, "note");
      EarlyRoutes(rest);
      MiddleRoutes(rest);
      LateRoutes(rest);
      Apart(rest, "pull-request");
      Apart(rest, "project-item");
    }
  }

  lemma LogsRoute(path: string)
    ensures RouteOf(path) == ToLogs <==> Under(path, "logs")
  {
    if Under(path, "logs") {
      var rest := path[7..];
      RestHas(path, "logs");
      EarlyRoutes(rest);
      MiddleRoutes(rest);
      LateRoutes(rest);
      Apart(rest, "pull-request");
      Apart(rest, "project-item");
      Apart(rest, "note");
    }
  }

  lemma SkillRoute(path: string)
    ensures RouteOf(path) == ToSkill <==> Under(path, "skill")
  {
    if Under(path, "skill") {
      var rest := path[7..];
      RestHas(path, "skill");
      EarlyRoutes(rest);
      MiddleRoutes(rest);
      LateRoutes(rest);
      Apart(rest, "pull-request");
      Apart(rest, "project-item");
      Apart(rest, "note");
      Apart(rest, "logs");
    }
  }

  // ---------------------------------------------------------------------------
  // The forms
  // ---------------------------------------------------------------------------

  /** The last pair with the key decides, and is true only for "true". */
  ghost predicate IsFlag(query: Query, key: string, flag: bool, default: bool) {
    || (flag == default && forall i | 0 <= i < |query| :: query[i].0 != key)
    || exists i :: 0 <= i < |query| && query[i].0 == key && (flag <==> query[i].1 == "true") &&
                   forall j | i < j < |query| :: query[j].0 != key
  }

  /** The column is counted from 1; what is no such number counts as none. */
  ghost predicate IsColumn(query: Query, column: Option<u32>) {
    match column
    case Some(c) => c + 1 <= U32_MAX && exists v :: Gives(query, "column", Some(v)) && IsNumber(v, c + 1)
    case None =>
      || Gives(query, "column", None)
      || exists v :: Gives(query, "column", Some(v)) && forall n: nat | 1 <= n <= U32_MAX :: !IsNumber(v, n)
  }

  /** What is no number counts as no lines. */
  ghost predicate IsLineCount(query: Query, count: u32) {
    || (query == [] && count == 0)
    || exists v :: query == [("lines", v)] && (IsNumber(v, count) || (count == 0 && forall n: u32 :: !IsNumber(v, n)))
  }

  ghost predicate HasLines(url: Url, start: u32, end: u32) {
    start + 1 <= U32_MAX && end + 1 <= U32_MAX && url.fragment.Some? && IsLineRange(url.fragment.value, start, end)
  }

  ghost predicate IsId(query: Query, key: string, id: Option<u64>) {
    match id
    case Some(n) => exists v :: Gives(query, key, Some(v)) && IsNumber(v, n)
    case None => Gives(query, key, None)
  }

  predicate KeysOnce(query: Query) {
    forall i, j | 0 <= i < j < |query| :: query[i].0 != query[j].0
  }

  /** The path leads to the mention's form. */
  predicate PathFits(path: string, m: MentionUri) {
    match m
    case Thread(_, _) => Under(path, "thread/")
    case Rule(_, _) => Under(path, "rule/")
    case Diagnostics(_, _) => path == "/agent/" + "diagnostics"
    case PastedImage(_) => Under(path, "pasted-image")
    case Symbol(_, _, _, _) => Under(path, "symbol/")
    case File(_) => Under(path, "file")
    case Directory(_) => Under(path, "directory")
    case Selection(selected, _, _, _) =>
      if selected == None then Under(path, "untitled-buffer") else Under(path, "selection")
    case TerminalSelection(_) => Under(path, "terminal-selection")
    case GitDiff(_) => Under(path, "git-diff")
    case MergeConflict(_) => Under(path, "merge-conflict")
    case SqlQuery(_, _) => Under(path, "sql-query")
    case PullRequest(_, _, _, _) => Under(path, "pull-request")
    case ProjectItem(_, _, _, _) => Under(path, "project-item")
    case Note(_, _) => Under(path, "note")
    case Logs(_, _) => Under(path, "logs")
    case Skill(_, _, _, _) => Under(path, "skill")
  }

  /** `rest` is the path without its first `n` characters. */
  predicate Follows(path: string, n: nat, rest: string) {
    if n <= |path| then rest == path[n..] else rest == ""
  }

  /** The rest of the URL has the form of the mention. */
  ghost predicate FormFits(url: Url, m: MentionUri) {
    var query := url.query;
    match m
    case Thread(id, name) => query == [("name", name)] && Follows(url.path, 14, id)
    case Rule(id, name) =>
      && query == [("name", name)]
      && if |url.path| <= 12 then id == DEFAULT_RULE_ID else id == url.path[12..]
    case Diagnostics(errors, warnings) => FlagsRead(query, errors, warnings)
    case PastedImage(name) => IsSingle(query, "name", name, "Image")
    case Symbol(name, file, start, end) =>
      query == [("path", file)] && Follows(url.path, 14, name) && HasLines(url, start, end)
    case File(file) => query == [("path", file)]
    case Directory(file) => query == [("path", file)]
    case Selection(selected, start, end, column) =>
      && HasLines(url, start, end) && IsColumn(query, column)
      && if selected == None then OnlyKeys(query, {"column"})
         else OnlyKeys(query, {"path", "column"}) && Gives(query, "path", selected)
    case TerminalSelection(count) => IsLineCount(query, count)
    case GitDiff(base) => IsSingle(query, "base", base, "main")
    case MergeConflict(file) => IsSingle(query, "path", file, "")
    case SqlQuery(file, connection) =>
      && OnlyKeys(query, {"path", "connection"})
      && Gives(query, "path", Some(file)) && GivesOr(query, "connection", connection, "")
    case PullRequest(number, title, comment, file) =>
      && OnlyKeys(query, {"number", "title", "comment", "path"})
      && IsId(query, "number", Some(number)) && GivesOr(query, "title", title, "")
      && IsId(query, "comment", comment) && Gives(query, "path", file)
    case ProjectItem(project, item, reference, title) =>
      && OnlyKeys(query, {"project", "item", "ref", "title"})
      && Gives(query, "project", Some(project)) && Gives(query, "item", Some(item))
      && GivesOr(query, "ref", reference, "") && GivesOr(query, "title", title, "")
    case Note(file, title) =>
      && OnlyKeys(query, {"path", "title"})
      && Gives(query, "path", Some(file)) && GivesOr(query, "title", title, "")
    case Logs(id, title) =>
      && OnlyKeys(query, {"id", "title"})
      && Gives(query, "id", Some(id)) && GivesOr(query, "title", title, "")
    case Skill(name, source, file, subcommand) =>
      && OnlyKeys(query, {"name", "source", "path", "subcommand"}) && KeysOnce(query)
      && Gives(query, "name", Some(name)) && Gives(query, "source", Some(source)) && Gives(query, "path", Some(file))
      && Gives(query, "subcommand", subcommand)
  }

  ghost predicate FlagsRead(query: Query, errors: bool, warnings: bool) {
    && OnlyKeys(query, {"include_warnings", "include_errors"})
    && IsFlag(query, "include_errors", errors, true) && IsFlag(query, "include_warnings", warnings, false)
  }

  // ---------------------------------------------------------------------------
  // Each form
  // ---------------------------------------------------------------------------

  lemma ThreadForm(url: Url, id: string, name: string)
    ensures ParseThread(url) == Ok(Thread(id, name)) <==> url.query == [("name", name)] && Follows(url.path, 14, id)
  {
    SingleExactly(url.query, "name", name);
  }

  lemma RuleForm(url: Url, id: string, name: string)
    ensures ParseRule(url) == Ok(Rule(id, name)) <==>
            && url.query == [("name", name)]
            && if |url.path| <= 12 then id == DEFAULT_RULE_ID else id == url.path[12..]
  {
    SingleExactly(url.query, "name", name);
  }

  lemma LinesRead(url: Url, start: u32, end: u32)
    ensures HasLines(url, start, end) <==>
            url.fragment.Some? && ParseLineRange(url.fragment.value) == Some((start, end))
  {
    if url.fragment.Some? {
      LineRangeExactly(url.fragment.value, start, end);
    }
  }

  lemma SymbolForm(url: Url, name: string, file: string, start: u32, end: u32)
    ensures ParseSymbol(url) == Ok(Symbol(name, file, start, end)) <==>
            url.query == [("path", file)] && Follows(url.path, 14, name) && HasLines(url, start, end)
  {
    SingleExactly(url.query, "path", file);
    LinesRead(url, start, end);
  }

  lemma FileForm(query: Query, file: string)
    ensures ParseFile(query) == Ok(File(file)) <==> query == [("path", file)]
    ensures ParseDirectory(query) == Ok(Directory(file)) <==> query == [("path", file)]
  {
    SingleExactly(query, "path", file);
  }

  lemma DefaultForms(query: Query, value: string)
    ensures ParsePastedImage(query) == Ok(PastedImage(value)) <==> IsSingle(query, "name", value, "Image")
    ensures ParseGitDiff(query) == Ok(GitDiff(value)) <==> IsSingle(query, "base", value, "main")
    ensures ParseConflict(query) == Ok(MergeConflict(value)) <==> IsSingle(query, "path", value, "")
  {
    SingleExactly(query, "name", value);
    SingleExactly(query, "base", value);
    SingleExactly(query, "path", value);
  }

  lemma TerminalForm(query: Query, count: u32)
    ensures ParseTerminal(query) == Ok(TerminalSelection(count)) <==> IsLineCount(query, count)
  {
    if |query| == 1 && query[0].0 == "lines" {
      var v := query[0].1;
      assert query == [("lines", v)];
      LineCountReads(v, count);
    }
    assert DigitsValue("0") == 0;
  }

  lemma LineCountReads(v: string, count: u32)
    ensures var n := ParseUnsigned(v, U32_MAX);
            (if n.Some? then n.value else 0) == count <==>
            IsNumber(v, count) || (count == 0 && forall n: u32 :: !IsNumber(v, n))
  {
    forall n: u32 ensures ParseUnsigned(v, U32_MAX) == Some(n) <==> IsNumber(v, n) {
      NumberReads(v, U32_MAX, n);
    }
  }

  lemma SqlQueryForm(query: Query, file: string, connection: string)
    ensures ParseSqlQuery(query) == Ok(SqlQuery(file, connection)) <==>
            && OnlyKeys(query, {"path", "connection"})
            && Gives(query, "path", Some(file)) && GivesOr(query, "connection", connection, "")
  {
    OnlyKeysExactly(query, {"path", "connection"});
    ParamExactly(query, "path", Some(file));
    OrExactly(query, "connection", connection, "");
  }

  lemma NoteForm(query: Query, file: string, title: string)
    ensures ParseNote(query) == Ok(Note(file, title)) <==>
            && OnlyKeys(query, {"path", "title"})
            && Gives(query, "path", Some(file)) && GivesOr(query, "title", title, "")
  {
    OnlyKeysExactly(query, {"path", "title"});
    ParamExactly(query, "path", Some(file));
    OrExactly(query, "title", title, "");
  }

  lemma LogsForm(query: Query, id: string, title: string)
    ensures ParseLogs(query) == Ok(Logs(id, title)) <==>
            && OnlyKeys(query, {"id", "title"})
            && Gives(query, "id", Some(id)) && GivesOr(query, "title", title, "")
  {
    OnlyKeysExactly(query, {"id", "title"});
    ParamExactly(query, "id", Some(id));
    OrExactly(query, "title", title, "");
  }

  lemma ProjectItemForm(query: Query, project: string, item: string, reference: string, title: string)
    ensures ParseProjectItem(query) == Ok(ProjectItem(project, item, reference, title)) <==>
            && OnlyKeys(query, {"project", "item", "ref", "title"})
            && Gives(query, "project", Some(project)) && Gives(query, "item", Some(item))
            && GivesOr(query, "ref", reference, "") && GivesOr(query, "title", title, "")
  {
    OnlyKeysExactly(query, {"project", "item", "ref", "title"});
    ParamExactly(query, "project", Some(project));
    ParamExactly(query, "item", Some(item));
    OrExactly(query, "ref", reference, "");
    OrExactly(query, "title", title, "");
  }

  lemma IdReads(query: Query, key: string, id: Option<u64>)
    ensures IsId(query, key, id) <==>
            var text := QueryParam(query, key);
            if text.None? then id.None? else id.Some? && ParseUnsigned(text.value, U64_MAX) == Some(id.value)
  {
    GivesItsParam(query, key);
    var text := QueryParam(query, key);
    if id.Some? {
      if v :| Gives(query, key, Some(v)) && IsNumber(v, id.value) {
        GivesOnce(query, key, Some(v), text);
      }
      if text.Some? {
        NumberReads(text.value, U64_MAX, id.value);
      }
    } else if Gives(query, key, None) {
      GivesOnce(query, key, None, text);
    }
  }

  lemma PullRequestForm(query: Query, m: MentionUri)
    requires m.PullRequest?
    ensures ParsePullRequest(query) == Ok(m) <==>
            && OnlyKeys(query, {"number", "title", "comment", "path"})
            && IsId(query, "number", Some(m.number)) && GivesOr(query, "title", m.title, "")
            && IsId(query, "comment", m.commentId) && Gives(query, "path", m.changed)
  {
    OnlyKeysExactly(query, {"number", "title", "comment", "path"});
    IdReads(query, "number", Some(m.number));
    IdReads(query, "comment", m.commentId);
    OrExactly(query, "title", m.title, "");
    ParamExactly(query, "path", m.changed);
  }

  lemma ColumnReads(query: Query, column: Option<u32>)
    ensures IsColumn(query, column) <==>
            var text := QueryParam(query, "column");
            column == if text.None? then None else ParseOneBased(text.value)
  {
    GivesItsParam(query, "column");
    var text := QueryParam(query, "column");
    forall v | Gives(query, "column", v) ensures v == text {
      GivesOnce(query, "column", v, text);
    }
    if text.Some? {
      forall c: u32 ensures ParseOneBased(text.value) == Some(c) <==> c + 1 <= U32_MAX && IsNumber(text.value, c + 1) {
        LineReads(text.value, c);
      }
      if ParseOneBased(text.value).None? {
        forall n: nat | 1 <= n <= U32_MAX ensures !IsNumber(text.value, n) {
          LineReads(text.value, n - 1);
        }
      }
    }
  }

  lemma SelectionExactly(url: Url, allowed: set<string>, path: Option<string>, m: MentionUri)
    requires m.Selection?
    ensures ParseSelection(url, allowed, path) == Ok(m) <==>
            m.selected == path && OnlyKeys(url.query, allowed) && HasLines(url, m.start, m.end) &&
            IsColumn(url.query, m.column)
  {
    LinesRead(url, m.start, m.end);
    OnlyKeysExactly(url.query, allowed);
    ColumnReads(url.query, m.column);
  }

  lemma FileSelectionForm(url: Url, m: MentionUri)
    requires m.Selection? && m.selected.Some?
    ensures ParseFileSelection(url) == Ok(m) <==>
            OnlyKeys(url.query, {"path", "column"}) && Gives(url.query, "path", m.selected) &&
            HasLines(url, m.start, m.end) && IsColumn(url.query, m.column)
  {
    ParamExactly(url.query, "path", m.selected);
    OnlyKeysExactly(url.query, {"path", "column"});
    SelectionExactly(url, {"path", "column"}, QueryParam(url.query, "path"), m);
  }

  // Diagnostics

  lemma FlagOn(query: Query, key: string, value: string, other: string, flag: bool, default: bool)
    ensures IsFlag(query + [(key, value)], other, flag, default) <==>
            if other == key then flag == (value == "true") else IsFlag(query, other, flag, default)
  {
    var all := query + [(key, value)];
    assert all[|query|] == (key, value);
    assert forall i | 0 <= i < |query| :: all[i] == query[i];
    if other != key {
      if i :| 0 <= i < |query| && query[i].0 == other && (flag <==> query[i].1 == "true") &&
              forall j | i < j < |query| :: query[j].0 != other {
        assert all[i].0 == other;
      }
    }
  }

  lemma OnlyKeysOn(query: Query, pair: (string, string), keys: set<string>)
    ensures OnlyKeys(query + [pair], keys) <==> OnlyKeys(query, keys) && pair.0 in keys
  {
    assert pair in query + [pair];
  }

  lemma {:induction false} DiagnosticsFlags(query: Query, errors: bool, warnings: bool)
    ensures ParseDiagnostics(query) == Ok((errors, warnings)) <==> FlagsRead(query, errors, warnings)
    ensures ParseDiagnostics(query).Ok? <==> OnlyKeys(query, {"include_warnings", "include_errors"})
  {
    if query != [] {
      var before := query[..|query| - 1];
      var (key, value) := query[|query| - 1];
      assert query == before + [(key, value)];
      OnlyKeysOn(before, (key, value), {"include_warnings", "include_errors"});
      FlagOn(before, key, value, "include_errors", errors, true);
      FlagOn(before, key, value, "include_warnings", warnings, false);
      var flags := ParseDiagnostics(before);
      DiagnosticsFlags(before, errors, warnings);
      if flags.Ok? {
        DiagnosticsFlags(before, flags.value.0, flags.value.1);
        FlagOnce(before, "include_errors", errors, flags.value.0, true);
        FlagOnce(before, "include_warnings", warnings, flags.value.1, false);
      }
    }
  }

  lemma FlagOnce(query: Query, key: string, a: bool, b: bool, default: bool)
    requires IsFlag(query, key, b, default)
    ensures IsFlag(query, key, a, default) <==> a == b
  {
  }

  // Skills

  lemma SkillGives(query: Query, p: SkillParams, key: string)
    requires KeysOnce(query) && Holds(p, query)
    ensures Gives(query, key, OptionOf(p, key))
  {
    if OptionOf(p, key).Some? {
      var i :| 0 <= i < |query| && query[i] == (key, OptionOf(p, key).value);
      assert forall j | 0 <= j < i :: query[j].0 != query[i].0;
    }
  }

  lemma OptionRead(query: Query, p: SkillParams, key: string, value: Option<string>)
    requires KeysOnce(query) && Holds(p, query)
    ensures Gives(query, key, value) <==> OptionOf(p, key) == value
  {
    SkillGives(query, p, key);
    if Gives(query, key, value) {
      GivesOnce(query, key, value, OptionOf(p, key));
    }
  }

  lemma SkillOptionsRead(query: Query, p: SkillParams, m: MentionUri)
    requires m.Skill? && SkillParamsOf(query) == Ok(p) && KeysOnce(query) && Holds(p, query)
    ensures SkillOf(query) == Ok(m) <==>
            && Gives(query, "name", Some(m.name)) && Gives(query, "source", Some(m.source))
            && Gives(query, "path", Some(m.skillFilePath)) && Gives(query, "subcommand", m.subcommand)
  {
    OptionRead(query, p, "name", Some(m.name));
    OptionRead(query, p, "source", Some(m.source));
    OptionRead(query, p, "path", Some(m.skillFilePath));
    OptionRead(query, p, "subcommand", m.subcommand);
  }

  lemma SkillForm(query: Query, m: MentionUri)
    requires m.Skill?
    ensures SkillOf(query) == Ok(m) <==>
            && OnlyKeys(query, {"name", "source", "path", "subcommand"}) && KeysOnce(query)
            && Gives(query, "name", Some(m.name)) && Gives(query, "source", Some(m.source))
            && Gives(query, "path", Some(m.skillFilePath)) && Gives(query, "subcommand", m.subcommand)
  {
    SkillParamsExactlyWhen(query);
    OnlyKeysExactly(query, SKILL_KEYS);
    assert KeysOnce(query) <==> DistinctKeys(query);
    if SkillParamsOf(query).Ok? {
      SkillOptionsRead(query, SkillParamsOf(query).value, m);
    }
  }

  // ---------------------------------------------------------------------------
  // The grammar
  // ---------------------------------------------------------------------------

  lemma PathedBranch(url: Url, route: Route, m: MentionUri)
    requires route.ToThread? || route.ToRule? || route.ToSymbol?
    requires ParseAs(url, route) == Ok(m)
    ensures route == KindOf(m)
  {
  }

  lemma FileBranch(url: Url, route: Route, m: MentionUri)
    requires route.ToFile? || route.ToDirectory?
    requires ParseAs(url, route) == Ok(m)
    ensures route == KindOf(m)
  {
  }

  lemma UntitledBranch(url: Url, m: MentionUri)
    requires ParseAs(url, ToUntitled) == Ok(m)
    ensures m.Selection? && m.selected.None?
  {
  }

  lemma SelectionBranch(url: Url, m: MentionUri)
    requires ParseAs(url, ToSelection) == Ok(m)
    ensures m.Selection? && m.selected.Some?
  {
  }

  lemma KindOfSelection(m: MentionUri)
    requires m.Selection?
    ensures KindOf(m) == if m.selected.None? then ToUntitled else ToSelection
  {
  }

  lemma SelectedBranch(url: Url, route: Route, m: MentionUri)
    requires ParseAs(url, route) == Ok(m) && (route == ToUntitled || route == ToSelection)
    ensures route == KindOf(m)
  {
    if route == ToUntitled {
      UntitledBranch(url, m);
    } else {
      SelectionBranch(url, m);
    }
    KindOfSelection(m);
  }

  lemma SingleBranch(url: Url, route: Route, m: MentionUri)
    requires route.ToDiagnostics? || route.ToPastedImage? || route.ToTerminal? || route.ToGitDiff? || route.ToConflict?
    requires ParseAs(url, route) == Ok(m)
    ensures route == KindOf(m)
  {
  }

  lemma KeyedBranch(url: Url, route: Route, m: MentionUri)
    requires route.ToSqlQuery? || route.ToProjectItem? || route.ToNote? || route.ToLogs?
    requires ParseAs(url, route) == Ok(m)
    ensures route == KindOf(m)
  {
  }

  lemma LongBranch(url: Url, route: Route, m: MentionUri)
    requires route.ToPullRequest? || route.ToSkill? || route.Nowhere?
    requires ParseAs(url, route) == Ok(m)
    ensures route == KindOf(m)
  {
  }

  lemma LastRoute(route: Route)
    requires !route.ToThread? && !route.ToRule? && !route.ToDiagnostics? && !route.ToPastedImage? && !route.ToUntitled?
    requires !route.ToSymbol? && !route.ToFile? && !route.ToDirectory? && !route.ToSelection? && !route.ToTerminal?
    requires !route.ToGitDiff? && !route.ToConflict? && !route.ToSqlQuery? && !route.ToProjectItem? && !route.ToNote?
    requires !route.ToLogs?
    ensures route.ToPullRequest? || route.ToSkill? || route.Nowhere?
  {
  }

  /** Only one branch can give the mention. */
  lemma OneBranch(url: Url, route: Route, m: MentionUri)
    requires ParseAs(url, route) == Ok(m)
    ensures route == KindOf(m)
  {
    if route.ToThread? || route.ToRule? || route.ToSymbol? {
      PathedBranch(url, route, m);
    } else if route.ToFile? || route.ToDirectory? {
      FileBranch(url, route, m);
    } else if route == ToUntitled || route == ToSelection {
      SelectedBranch(url, route, m);
    } else if
      route.ToDiagnostics? || route.ToPastedImage? || route.ToTerminal? || route.ToGitDiff? || route.ToConflict? {
      SingleBranch(url, route, m);
    } else if route.ToSqlQuery? || route.ToProjectItem? || route.ToNote? || route.ToLogs? {
      KeyedBranch(url, route, m);
    } else {
      LastRoute(route);
      LongBranch(url, route, m);
    }
  }

  lemma PathExactly(path: string, m: MentionUri)
    ensures RouteOf(path) == KindOf(m) <==> PathFits(path, m)
  {
    match m
    case Thread(_, _) => ThreadRoute(path);
    case Rule(_, _) => RuleRoute(path);
    case Diagnostics(_, _) => RouteDiagnostics();
    case PastedImage(_) => PastedImageRoute(path);
    case Symbol(_, _, _, _) => SymbolRoute(path);
    case File(_) => FileRoute(path);
    case Directory(_) => DirectoryRoute(path);
    case Selection(selected, _, _, _) => if selected.None? { UntitledRoute(path); } else { SelectionRoute(path); }
    case TerminalSelection(_) => TerminalRoute(path);
    case GitDiff(_) => GitDiffRoute(path);
    case MergeConflict(_) => ConflictRoute(path);
    case SqlQuery(_, _) => SqlQueryRoute(path);
    case PullRequest(_, _, _, _) => PullRequestRoute(path);
    case ProjectItem(_, _, _, _) => ProjectItemRoute(path);
    case Note(_, _) => NoteRoute(path);
    case Logs(_, _) => LogsRoute(path);
    case Skill(_, _, _, _) => SkillRoute(path);
  }

  lemma PathedFormExactly(url: Url, m: MentionUri)
    requires m.Thread? || m.Rule? || m.Symbol?
    ensures ParseAs(url, KindOf(m)) == Ok(m) <==> FormFits(url, m)
  {
    match m
    case Thread(id, name) => ThreadForm(url, id, name);
    case Rule(id, name) => RuleForm(url, id, name);
    case Symbol(name, file, start, end) => SymbolForm(url, name, file, start, end);
    case _ =>
  }

  lemma FileFormExactly(url: Url, m: MentionUri)
    requires m.File? || m.Directory?
    ensures ParseAs(url, KindOf(m)) == Ok(m) <==> FormFits(url, m)
  {
    FileForm(url.query, m.absPath);
  }

  lemma UntitledFits(url: Url, m: MentionUri)
    requires m.Selection? && m.selected.None?
    ensures FormFits(url, m) <==>
            HasLines(url, m.start, m.end) && IsColumn(url.query, m.column) && OnlyKeys(url.query, {"column"})
  {
  }

  lemma UntitledIsSelection(url: Url, r: Result<MentionUri, string>)
    requires r == ParseSelection(url, {"column"}, None)
    ensures ParseAs(url, ToUntitled) == r
  {
  }

  lemma UntitledExactly(url: Url, m: MentionUri)
    requires m.Selection? && m.selected.None?
    ensures ParseAs(url, ToUntitled) == Ok(m) <==>
            HasLines(url, m.start, m.end) && IsColumn(url.query, m.column) && OnlyKeys(url.query, {"column"})
  {
    UntitledIsSelection(url, ParseSelection(url, {"column"}, None));
    SelectionExactly(url, {"column"}, None, m);
  }

  lemma FileSelectionFits(url: Url, m: MentionUri)
    requires m.Selection? && m.selected.Some?
    ensures FormFits(url, m) <==>
            && HasLines(url, m.start, m.end) && IsColumn(url.query, m.column)
            && OnlyKeys(url.query, {"path", "column"}) && Gives(url.query, "path", m.selected)
  {
  }

  lemma SelectionIsFileSelection(url: Url, r: Result<MentionUri, string>)
    requires r == ParseFileSelection(url)
    ensures ParseAs(url, ToSelection) == r
  {
  }

  lemma FileSelectionExactly(url: Url, m: MentionUri)
    requires m.Selection? && m.selected.Some?
    ensures ParseAs(url, ToSelection) == Ok(m) <==>
            && HasLines(url, m.start, m.end) && IsColumn(url.query, m.column)
            && OnlyKeys(url.query, {"path", "column"}) && Gives(url.query, "path", m.selected)
  {
    SelectionIsFileSelection(url, ParseFileSelection(url));
    FileSelectionForm(url, m);
  }

  lemma SingleFormExactly(url: Url, m: MentionUri)
    requires m.Diagnostics? || m.PastedImage? || m.TerminalSelection? || m.GitDiff? || m.MergeConflict?
    ensures ParseAs(url, KindOf(m)) == Ok(m) <==> FormFits(url, m)
  {
    match m
    case Diagnostics(errors, warnings) => DiagnosticsFlags(url.query, errors, warnings);
    case PastedImage(name) => DefaultForms(url.query, name);
    case TerminalSelection(count) => TerminalForm(url.query, count);
    case GitDiff(base) => DefaultForms(url.query, base);
    case MergeConflict(file) => DefaultForms(url.query, file);
    case _ =>
  }

  lemma KeyedFormExactly(url: Url, m: MentionUri)
    requires m.SqlQuery? || m.Note? || m.Logs?
    ensures ParseAs(url, KindOf(m)) == Ok(m) <==> FormFits(url, m)
  {
    match m
    case SqlQuery(file, connection) => SqlQueryForm(url.query, file, connection);
    case Note(file, title) => NoteForm(url.query, file, title);
    case Logs(id, title) => LogsForm(url.query, id, title);
    case _ =>
  }

  lemma ProjectItemFormExactly(url: Url, m: MentionUri)
    requires m.ProjectItem?
    ensures ParseAs(url, KindOf(m)) == Ok(m) <==> FormFits(url, m)
  {
    ProjectItemForm(url.query, m.projectId, m.itemId, m.reference, m.title);
  }

  lemma PullRequestFormExactly(url: Url, m: MentionUri)
    requires m.PullRequest?
    ensures ParseAs(url, KindOf(m)) == Ok(m) <==> FormFits(url, m)
  {
    PullRequestForm(url.query, m);
  }

  lemma SkillFormExactly(url: Url, m: MentionUri)
    requires m.Skill?
    ensures ParseAs(url, KindOf(m)) == Ok(m) <==> FormFits(url, m)
  {
    SkillForm(url.query, m);
  }

  lemma FormExactly(url: Url, m: MentionUri)
    ensures ParseAs(url, KindOf(m)) == Ok(m) <==> FormFits(url, m)
  {
    if m.Thread? || m.Rule? || m.Symbol? {
      PathedFormExactly(url, m);
    } else if m.File? || m.Directory? {
      FileFormExactly(url, m);
    } else if m.Selection? && m.selected.None? {
      UntitledFits(url, m);
      UntitledExactly(url, m);
    } else if m.Selection? {
      FileSelectionFits(url, m);
      FileSelectionExactly(url, m);
    } else if m.Diagnostics? || m.PastedImage? || m.TerminalSelection? || m.GitDiff? || m.MergeConflict? {
      SingleFormExactly(url, m);
    } else if m.ProjectItem? {
      ProjectItemFormExactly(url, m);
    } else if m.PullRequest? {
      PullRequestFormExactly(url, m);
    } else if m.Skill? {
      SkillFormExactly(url, m);
    } else {
      KeyedFormExactly(url, m);
    }
  }

  /** A URL is parsed to a mention exactly when path, query and fragment fit it. */
  lemma ParsesExactlyWhen(url: Url, m: MentionUri)
    ensures Parse(url) == Ok(m) <==> PathFits(url.path, m) && FormFits(url, m)
  {
    PathExactly(url.path, m);
    FormExactly(url, m);
    if Parse(url) == Ok(m) {
      OneBranch(url, RouteOf(url.path), m);
    }
  }
}
