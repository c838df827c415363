/** `parse` undoes `to_uri`, exactly while the one-based shift does not overflow. */
module MentionRoundTrip {
  import opened Wrappers
  import opened Text
  import opened Mention

  // ---------------------------------------------------------------------------
  // Routes
  // ---------------------------------------------------------------------------

  lemma Apart(word: string, other: string)
    requires |word| >= 3 && |other| >= 3
    requires word[0] != other[0] || word[1] != other[1] || word[2] != other[2]
    ensures !Under("/agent/" + word, other)
  {
    var p, q := "/agent/" + word, "/agent/" + other;
    assert p[7] == word[0] && p[8] == word[1] && p[9] == word[2];
    assert q[7] == other[0] && q[8] == other[1] && q[9] == other[2];
  }

  lemma EarlyRoutes(word: string)
    requires |word| >= 3
    requires word[0] != 't' || word[1] != 'h'
    requires word[0] != 'r' || word[1] != 'u'
    ensures !Under("/agent/" + word, "thread/") && !Under("/agent/" + word, "rule/")
  {
    Apart(word, "thread/");
    Apart(word, "rule/");
  }

  lemma MiddleRoutes(word: string)
    requires |word| >= 3
    requires !(word[0] == 's' && (word[1] == 'y' || word[1] == 'e')) && word[0] != 'f' && word[0] != 'd'
    requires word[0] != 'u' && !(word[0] == 'p' && word[1] == 'a')
    ensures !Under("/agent/" + word, "pasted-image") && !Under("/agent/" + word, "untitled-buffer")
    ensures !Under("/agent/" + word, "symbol/") && !Under("/agent/" + word, "file")
    ensures !Under("/agent/" + word, "directory") && !Under("/agent/" + word, "selection")
    ensures "/agent/" + word != "/agent/" + "diagnostics"
  {
    Apart(word, "pasted-image");
    Apart(word, "untitled-buffer");
    Apart(word, "symbol/");
    Apart(word, "file");
    Apart(word, "directory");
    Apart(word, "selection");
    assert ("/agent/" + word)[7] == word[0];
  }

  lemma LateRoutes(word: string)
    requires |word| >= 3
    requires word[0] != 't' && word[0] != 'g' && word[0] != 'm' && !(word[0] == 's' && word[1] == 'q')
    ensures !Under("/agent/" + word, "terminal-selection") && !Under("/agent/" + word, "git-diff")
    ensures !Under("/agent/" + word, "merge-conflict") && !Under("/agent/" + word, "sql-query")
  {
    Apart(word, "terminal-selection");
    Apart(word, "git-diff");
    Apart(word, "merge-conflict");
    Apart(word, "sql-query");
  }

  lemma RouteDiagnostics() ensures RouteOf("/agent/" + "diagnostics") == ToDiagnostics
  {
    EarlyRoutes("diagnostics");
  }

  lemma NotDiagnostics(word: string)
    requires |word| >= 3 && word[0] != 'd'
    ensures "/agent/" + word != "/agent/" + "diagnostics"
  {
    assert ("/agent/" + word)[7] == word[0];
  }

  lemma RoutePastedImage() ensures RouteOf("/agent/" + "pasted-image") == ToPastedImage
  {
    EarlyRoutes("pasted-image");
    NotDiagnostics("pasted-image");
  }

  lemma RouteUntitled() ensures RouteOf("/agent/" + "untitled-buffer") == ToUntitled
  {
    EarlyRoutes("untitled-buffer");
    NotDiagnostics("untitled-buffer");
    Apart("untitled-buffer", "pasted-image");
  }

  lemma RouteTerminal() ensures RouteOf("/agent/" + "terminal-selection") == ToTerminal
  {
    EarlyRoutes("terminal-selection");
    MiddleRoutes("terminal-selection");
  }

  lemma RouteGitDiff() ensures RouteOf("/agent/" + "git-diff") == ToGitDiff
  {
    EarlyRoutes("git-diff");
    MiddleRoutes("git-diff");
    Apart("git-diff", "terminal-selection");
  }

  lemma RouteConflict() ensures RouteOf("/agent/" + "merge-conflict") == ToConflict
  {
    EarlyRoutes("merge-conflict");
    MiddleRoutes("merge-conflict");
    Apart("merge-conflict", "terminal-selection");
    Apart("merge-conflict", "git-diff");
  }

  lemma RouteSqlQuery() ensures RouteOf("/agent/" + "sql-query") == ToSqlQuery
  {
    EarlyRoutes("sql-query");
    MiddleRoutes("sql-query");
    Apart("sql-query", "terminal-selection");
    Apart("sql-query", "git-diff");
    Apart("sql-query", "merge-conflict");
  }

  lemma RoutePullRequest() ensures RouteOf("/agent/" + "pull-request") == ToPullRequest
  {
    EarlyRoutes("pull-request");
    MiddleRoutes("pull-request");
    LateRoutes("pull-request");
  }

  lemma RouteProjectItem() ensures RouteOf("/agent/" + "project-item") == ToProjectItem
  {
    EarlyRoutes("project-item");
    MiddleRoutes("project-item");
    LateRoutes("project-item");
    Apart("project-item", "pull-request");
  }

  lemma RouteNote() ensures RouteOf("/agent/" + "note") == ToNote
  {
    EarlyRoutes("note");
    MiddleRoutes("note");
    LateRoutes("note");
    Apart("note", "pull-request");
    Apart("note", "project-item");
  }

  lemma RouteLogs() ensures RouteOf("/agent/" + "logs") == ToLogs
  {
    EarlyRoutes("logs");
    MiddleRoutes("logs");
    LateRoutes("logs");
    Apart("logs", "pull-request");
    Apart("logs", "project-item");
    Apart("logs", "note");
  }

  lemma RouteSkill() ensures RouteOf("/agent/" + "skill") == ToSkill
  {
    EarlyRoutes("skill");
    MiddleRoutes("skill");
    LateRoutes("skill");
    Apart("skill", "pull-request");
    Apart("skill", "project-item");
    Apart("skill", "note");
    Apart("skill", "logs");
  }

  // ---------------------------------------------------------------------------
  // Numbers
  // ---------------------------------------------------------------------------

  lemma UnsignedReadsDecimal(n: nat, max: nat)
    ensures ParseUnsigned(Decimal(n), max) == if n <= max then Some(n) else None
  {
    DecimalValue(n);
    assert IsDigit(Decimal(n)[0]);
  }

  /** The one-based shift reads back exactly below the 32-bit maximum. */
  lemma OneBasedReadsBack(n: u32)
    ensures ParseOneBased(PrintOneBased(n)) == if n < U32_MAX then Some(n) else None
  {
    UnsignedReadsDecimal((n + 1) % (U32_MAX + 1), U32_MAX);
  }

  lemma SplitsHere(a: string, c: char, b: string)
    requires forall i | 0 <= i < |a| :: a[i] != c
    ensures SplitOnce(a + [c] + b, c) == Some((a, b))
  {
    var s := a + ([c] + b);
    assert a + [c] + b == s;
    forall i | 0 <= i < |a| ensures !OccursAt(s, [c], i) {
      assert s[i..i + 1][0] == a[i];
    }
    FindHere(b, [c]);
    FindSkips(a, [c] + b, [c]);
    assert s[..|a|] == a && s[|a| + 1..] == b;
  }

  lemma DigitsHave(digits: string, c: char)
    requires AllDigits(digits) && !IsDigit(c)
    ensures forall i | 0 <= i < |digits| :: digits[i] != c
  {
  }

  /** A printed line range reads back exactly when neither end is the 32-bit maximum. */
  lemma LineRangeReadsBack(start: u32, end: u32)
    ensures ParseLineRange(PrintLineRange(start, end)) ==
            if start < U32_MAX && end < U32_MAX then Some((start, end)) else None
  {
    var a, b := PrintOneBased(start), PrintOneBased(end);
    var range := a + ":" + b;
    assert PrintLineRange(start, end) == "L" + range;
    assert StripL("L" + range) == range;
    DigitsHave(a, ':');
    SplitsHere(a, ':', b);
    OneBasedReadsBack(start);
    OneBasedReadsBack(end);
  }

  /** `L10-20`, `L10-L20` and `L10:20` mean the same; a single number is a range of one line. */
  lemma LineRangeSpellings(start: u32, end: u32)
    requires start < U32_MAX && end < U32_MAX
    ensures ParseLineRange("L" + (PrintOneBased(start) + "-" + PrintOneBased(end))) == Some((start, end))
    ensures ParseLineRange("L" + (PrintOneBased(start) + "-" + ("L" + PrintOneBased(end)))) == Some((start, end))
    ensures ParseLineRange("L" + PrintOneBased(start)) == Some((start, start))
  {
    DashedRange(start, end, PrintOneBased(end));
    DashedRange(start, end, "L" + PrintOneBased(end));
    SingleLine(start);
  }

  lemma NoColon(a: string, last: string)
    requires AllDigits(a) && forall i | 0 <= i < |last| :: last[i] != ':'
    ensures SplitOnce(a + "-" + last, ':') == None
  {
    var range := a + "-" + last;
    forall i | 0 <= i < |range| ensures range[i] != ':' {
      if i < |a| {
        assert range[i] == a[i] && IsDigit(a[i]);
      } else if i > |a| {
        assert range[i] == last[i - |a| - 1];
      }
    }
    FindAbsent(range, ":");
  }

  lemma OptionalL(b: string, last: string)
    requires b != "" && AllDigits(b) && (last == b || last == "L" + b)
    ensures StripL(last) == b && forall i | 0 <= i < |last| :: last[i] != ':'
  {
  }

  lemma DashedRange(start: u32, end: u32, last: string)
    requires start < U32_MAX && end < U32_MAX
    requires last == PrintOneBased(end) || last == "L" + PrintOneBased(end)
    ensures ParseLineRange("L" + (PrintOneBased(start) + "-" + last)) == Some((start, end))
  {
    var a, b := PrintOneBased(start), PrintOneBased(end);
    var range := a + "-" + last;
    assert StripL("L" + range) == range;
    DigitsHave(a, '-');
    SplitsHere(a, '-', last);
    OptionalL(b, last);
    NoColon(a, last);
    OneBasedReadsBack(start);
    OneBasedReadsBack(end);
  }

  lemma SingleLine(start: u32)
    requires start < U32_MAX
    ensures ParseLineRange("L" + PrintOneBased(start)) == Some((start, start))
  {
    var a := PrintOneBased(start);
    assert StripL("L" + a) == a;
    DigitsHave(a, ':');
    DigitsHave(a, '-');
    FindAbsent(a, ":");
    FindAbsent(a, "-");
    OneBasedReadsBack(start);
  }

  // ---------------------------------------------------------------------------
  // The round trip
  // ---------------------------------------------------------------------------

  /** Line and column numbers leave room for the one-based shift. */
  predicate Shifts(m: MentionUri) {
    m.Selection? ==>
      && m.start < U32_MAX && m.end < U32_MAX
      && (m.column.Some? ==> m.column.value < U32_MAX)
  }

  lemma UntitledParses(query: Query, fragment: string)
    ensures var url := Url("/agent/" + "untitled-buffer", query, Some(fragment));
            Parse(url) == ParseSelection(url, {"column"}, None)
  {
    RouteUntitled();
  }

  lemma ColumnReadsBack(column: Option<u32>)
    ensures var query := if column.Some? then [("column", PrintOneBased(column.value))] else [];
            var read := QueryParam(query, "column");
            && OnlyParams(query, {"column"})
            && ((if read.None? then None else ParseOneBased(read.value)) == column <==>
                (column.Some? ==> column.value < U32_MAX))
  {
    if column.Some? {
      OneBasedReadsBack(column.value);
    }
  }

  lemma SelectionTrip(m: MentionUri)
    requires m.Selection? && m.selected.None?
    ensures Parse(ToUri(m)) == Ok(m) <==> Shifts(m)
  {
    UntitledParses(QueryOf(m), PrintLineRange(m.start, m.end));
    LineRangeReadsBack(m.start, m.end);
    ColumnReadsBack(m.column);
  }

  lemma DiagnosticsTrip(m: MentionUri)
    requires m.Diagnostics?
    ensures Parse(ToUri(m)) == Ok(m)
  {
    RouteDiagnostics();
    var warn, quiet := ("include_warnings", "true"), ("include_errors", "false");
    assert warn.0 != quiet.0 && warn.1 != quiet.1;
    assert [warn][..0] == [] && [quiet][..0] == [] && [warn, quiet][..1] == [warn];
    assert ParseDiagnostics([warn]) == Ok((true, true));
    assert ParseDiagnostics([quiet]) == Ok((false, false));
    assert ParseDiagnostics([warn, quiet]) == Ok((false, true));
    assert QueryOf(m) == if m.includeWarnings then (if m.includeErrors then [warn] else [warn, quiet])
                         else (if m.includeErrors then [] else [quiet]);
  }

  lemma NamedTrip(m: MentionUri)
    requires m.PastedImage? || m.GitDiff? || m.MergeConflict?
    ensures Parse(ToUri(m)) == Ok(m)
  {
    match m
    case PastedImage(_) => PastedImageTrip(m);
    case GitDiff(_) => GitDiffTrip(m);
    case MergeConflict(_) => ConflictTrip(m);
  }

  lemma PastedImageTrip(m: MentionUri)
    requires m.PastedImage?
    ensures Parse(ToUri(m)) == Ok(m)
  {
    RoutePastedImage();
  }

  lemma GitDiffTrip(m: MentionUri)
    requires m.GitDiff?
    ensures Parse(ToUri(m)) == Ok(m)
  {
    RouteGitDiff();
  }

  lemma ConflictTrip(m: MentionUri)
    requires m.MergeConflict?
    ensures Parse(ToUri(m)) == Ok(m)
  {
    RouteConflict();
  }

  lemma TerminalTrip(m: MentionUri)
    requires m.TerminalSelection?
    ensures Parse(ToUri(m)) == Ok(m)
  {
    RouteTerminal();
    UnsignedReadsDecimal(m.lineCount, U32_MAX);
  }

  lemma FirstParam(key: string, value: string, rest: Query, name: string)
    ensures QueryParam([(key, value)] + rest, name) == if key == name then Some(value) else QueryParam(rest, name)
  {
  }

  lemma TwoParams(a: string, x: string, b: string, y: string)
    requires a != b
    ensures QueryParam([(a, x), (b, y)], a) == Some(x) && QueryParam([(a, x), (b, y)], b) == Some(y)
  {
  }

  lemma SqlQueryTrip(path: string, connection: string)
    ensures Parse(ToUri(SqlQuery(path, connection))) == Ok(SqlQuery(path, connection))
  {
    RouteSqlQuery();
    SqlQueryParses(path, connection);
  }

  lemma SqlQueryParses(path: string, connection: string)
    ensures ParseSqlQuery(QueryOf(SqlQuery(path, connection))) == Ok(SqlQuery(path, connection))
  {
    TwoParams("path", path, "connection", connection);
  }

  lemma NoteTrip(path: string, title: string)
    ensures Parse(ToUri(Note(path, title))) == Ok(Note(path, title))
  {
    RouteNote();
    NoteParses(path, title);
  }

  lemma NoteParses(path: string, title: string)
    ensures ParseNote(QueryOf(Note(path, title))) == Ok(Note(path, title))
  {
    TwoParams("path", path, "title", title);
  }

  lemma LogsTrip(id: string, title: string)
    ensures Parse(ToUri(Logs(id, title))) == Ok(Logs(id, title))
  {
    RouteLogs();
    LogsParses(id, title);
  }

  lemma LogsParses(id: string, title: string)
    ensures ParseLogs(QueryOf(Logs(id, title))) == Ok(Logs(id, title))
  {
    TwoParams("id", id, "title", title);
  }

  lemma ProjectItemParams(m: MentionUri, name: string)
    requires m.ProjectItem?
    ensures QueryParam(QueryOf(m), name) ==
            if name == "project" then Some(m.projectId) else if name == "item" then Some(m.itemId)
            else if name == "ref" then Some(m.reference) else if name == "title" then Some(m.title) else None
  {
    var d := [("title", m.title)];
    var c := [("ref", m.reference)] + d;
    var b := [("item", m.itemId)] + c;
    assert QueryOf(m) == [("project", m.projectId)] + b;
    assert d == [("title", m.title)] + [];
    FirstParam("project", m.projectId, b, name);
    FirstParam("item", m.itemId, c, name);
    FirstParam("ref", m.reference, d, name);
    FirstParam("title", m.title, [], name);
  }

  lemma ProjectItemTrip(m: MentionUri)
    requires m.ProjectItem?
    ensures Parse(ToUri(m)) == Ok(m)
  {
    RouteProjectItem();
    ProjectItemQuery(m);
  }

  lemma ProjectItemQuery(m: MentionUri)
    requires m.ProjectItem?
    ensures ParseProjectItem(QueryOf(m)) == Ok(m)
  {
    assert "project" != "item" && "ref" != "item" && "title" != "item";
    ProjectItemParams(m, "project");
    ProjectItemParams(m, "item");
    ProjectItemParams(m, "ref");
    ProjectItemParams(m, "title");
  }

  lemma PullRequestParams(m: MentionUri, name: string)
    requires m.PullRequest?
    ensures QueryParam(QueryOf(m), name) ==
            if name == "number" then Some(Decimal(m.number)) else if name == "title" then Some(m.title)
            else if name == "comment" then (if m.commentId.Some? then Some(Decimal(m.commentId.value)) else None)
            else if name == "path" then m.changed else None
  {
    var d := Optional("path", m.changed);
    var c := (if m.commentId.Some? then [("comment", Decimal(m.commentId.value))] else []) + d;
    var b := [("title", m.title)] + c;
    assert QueryOf(m) == [("number", Decimal(m.number))] + b;
    FirstParam("number", Decimal(m.number), b, name);
    FirstParam("title", m.title, c, name);
    if m.commentId.Some? {
      FirstParam("comment", Decimal(m.commentId.value), d, name);
    } else {
      assert c == d;
    }
    if m.changed.Some? {
      assert d == [("path", m.changed.value)] + [];
      FirstParam("path", m.changed.value, [], name);
    }
    assert "path" != "comment";
  }

  lemma PullRequestTrip(m: MentionUri)
    requires m.PullRequest?
    ensures Parse(ToUri(m)) == Ok(m)
  {
    PullRequestUri(ToUri(m));
    PullRequestQuery(m);
  }

  lemma PullRequestUri(url: Url)
    requires url.path == "/agent/" + "pull-request"
    ensures Parse(url) == ParsePullRequest(url.query)
  {
    RoutePullRequest();
  }

  lemma PullRequestQuery(m: MentionUri)
    requires m.PullRequest?
    ensures ParsePullRequest(QueryOf(m)) == Ok(m)
  {
    PullRequestParams(m, "number");
    PullRequestParams(m, "title");
    PullRequestParams(m, "comment");
    PullRequestParams(m, "path");
    assert "title" != "number" && "comment" != "number" && "path" != "number";
    assert OnlyParams(QueryOf(m), {"number", "title", "comment", "path"});
    UnsignedReadsDecimal(m.number, U64_MAX);
    if m.commentId.Some? {
      UnsignedReadsDecimal(m.commentId.value, U64_MAX);
    }
  }

  lemma SkillTrip(m: MentionUri)
    requires m.Skill?
    ensures Parse(ToUri(m)) == Ok(m)
  {
    RouteSkill();
    var three := [("name", m.name), ("source", m.source), ("path", m.skillFilePath)];
    assert three[..2] == [("name", m.name), ("source", m.source)];
    assert three[..2][..1] == [("name", m.name)] && three[..2][..1][..0] == [];
    assert SkillParamsOf(three[..2][..1]) == Ok(SkillParams(Some(m.name), None, None, None));
    assert SkillParamsOf(three[..2]) == Ok(SkillParams(Some(m.name), Some(m.source), None, None));
    assert SkillParamsOf(three) == Ok(SkillParams(Some(m.name), Some(m.source), Some(m.skillFilePath), None));
    var query := QueryOf(m);
    if m.subcommand.Some? {
      assert query[..3] == three;
    } else {
      assert query == three;
    }
  }

  /** Every query-carried mention comes back from its URI, exactly when its line numbers can be shifted. */
  lemma MentionRoundTrip(m: MentionUri)
    requires IsQueryCarried(m)
    ensures Parse(ToUri(m)) == Ok(m) <==> Shifts(m)
  {
    match m
    case Selection(_, _, _, _) => SelectionTrip(m);
    case Diagnostics(_, _) => DiagnosticsTrip(m);
    case PastedImage(_) => NamedTrip(m);
    case GitDiff(_) => NamedTrip(m);
    case MergeConflict(_) => NamedTrip(m);
    case TerminalSelection(_) => TerminalTrip(m);
    case SqlQuery(path, connection) => SqlQueryTrip(path, connection);
    case Note(path, title) => NoteTrip(path, title);
    case Logs(id, title) => LogsTrip(id, title);
    case ProjectItem(_, _, _, _) => ProjectItemTrip(m);
    case PullRequest(_, _, _, _) => PullRequestTrip(m);
    case Skill(_, _, _, _) => SkillTrip(m);
  }

  /** The shift wraps around, but no two numbers meet. */
  lemma OneBasedIsInjective(a: u32, b: u32)
    requires PrintOneBased(a) == PrintOneBased(b)
    ensures a == b
  {
    DecimalIsInjective((a + 1) % (U32_MAX + 1), (b + 1) % (U32_MAX + 1));
    WrapIsInjective(a, b);
  }

  lemma DecimalIsInjective(a: nat, b: nat)
    requires Decimal(a) == Decimal(b)
    ensures a == b
  {
    DecimalValue(a);
    DecimalValue(b);
  }

  lemma WrapIsInjective(a: u32, b: u32)
    requires (a + 1) % (U32_MAX + 1) == (b + 1) % (U32_MAX + 1)
    ensures a == b
  {
  }

  lemma LineRangeSplits(start: u32, end: u32)
    ensures SplitOnce(StripL(PrintLineRange(start, end)), ':') == Some((PrintOneBased(start), PrintOneBased(end)))
  {
    var a, b := PrintOneBased(start), PrintOneBased(end);
    assert PrintLineRange(start, end) == "L" + (a + ":" + b);
    assert StripL("L" + (a + ":" + b)) == a + ":" + b;
    DigitsHave(a, ':');
    SplitsHere(a, ':', b);
  }

  lemma SelectionUrisAreDistinct(a: MentionUri, b: MentionUri)
    requires a.Selection? && b.Selection? && a.selected.None? && b.selected.None?
    requires QueryOf(a) == QueryOf(b) && PrintLineRange(a.start, a.end) == PrintLineRange(b.start, b.end)
    ensures a == b
  {
    LineRangeSplits(a.start, a.end);
    LineRangeSplits(b.start, b.end);
    OneBasedIsInjective(a.start, b.start);
    OneBasedIsInjective(a.end, b.end);
    if a.column.Some? {
      assert QueryOf(a)[0] == QueryOf(b)[0];
      OneBasedIsInjective(a.column.value, b.column.value);
    }
  }

  /** Different query-carried mentions have different URIs, even those that do not read back. */
  lemma UrisAreDistinct(a: MentionUri, b: MentionUri)
    requires IsQueryCarried(a) && IsQueryCarried(b) && ToUri(a) == ToUri(b)
    ensures a == b
  {
    if a.Selection? || b.Selection? {
      SelectionUrisAreDistinct(a, b);
    } else {
      MentionRoundTrip(a);
      MentionRoundTrip(b);
    }
  }

  // ---------------------------------------------------------------------------
  // Skill parameters in any order
  // ---------------------------------------------------------------------------

  ghost predicate DistinctKeys(query: Query) {
    forall i, j | 0 <= i < j < |query| :: query[i].0 != query[j].0
  }

  const SKILL_KEYS: set<string> := {"name", "source", "path", "subcommand"}

  /** The option that a key fills. */
  function OptionOf(p: SkillParams, key: string): Option<string> {
    if key == "name" then p.name else if key == "source" then p.source
    else if key == "path" then p.path else if key == "subcommand" then p.subcommand else None
  }

  /** The options hold exactly the query's values, key by key. */
  ghost predicate Holds(p: SkillParams, query: Query) {
    && (forall i | 0 <= i < |query| :: OptionOf(p, query[i].0) == Some(query[i].1))
    && (forall key | OptionOf(p, key).Some? :: (key, OptionOf(p, key).value) in query)
  }

  lemma AddSetsOneOption(p: SkillParams, key: string, value: string, other: string)
    ensures var next := AddSkillParam(p, key, value);
            && (next.Ok? <==> key in SKILL_KEYS && OptionOf(p, key).None?)
            && (next.Ok? ==> OptionOf(next.value, other) == if other == key then Some(value) else OptionOf(p, other))
  {
  }

  lemma SkillParamsStep(p: SkillParams, before: Query, key: string, value: string)
    requires OnlyParams(before, SKILL_KEYS) && DistinctKeys(before) && Holds(p, before)
    ensures var query := before + [(key, value)];
            var next := AddSkillParam(p, key, value);
            && (next.Ok? <==> OnlyParams(query, SKILL_KEYS) && DistinctKeys(query))
            && (next.Ok? ==> Holds(next.value, query))
  {
    var query := before + [(key, value)];
    var next := AddSkillParam(p, key, value);
    assert forall i | 0 <= i < |query| :: query[i] == if i < |before| then before[i] else (key, value);
    AddSetsOneOption(p, key, value, key);
    assert query[|before|].0 == key;
    if OptionOf(p, key).Some? {
      var i :| 0 <= i < |before| && before[i] == (key, OptionOf(p, key).value);
      assert query[i].0 == query[|before|].0;
    }
    if next.Ok? {
      forall i | 0 <= i < |before| ensures before[i].0 != key {
        assert OptionOf(p, before[i].0).Some?;
      }
      assert OnlyParams(query, SKILL_KEYS) && DistinctKeys(query);
      forall i | 0 <= i < |query| ensures OptionOf(next.value, query[i].0) == Some(query[i].1) {
        AddSetsOneOption(p, key, value, query[i].0);
      }
      forall k | OptionOf(next.value, k).Some? ensures (k, OptionOf(next.value, k).value) in query {
        AddSetsOneOption(p, key, value, k);
        assert query[|before|] in query;
      }
    }
  }

  /** The loop accepts exactly the queries with known keys and no repetition, in any order. */
  lemma {:induction false} SkillParamsExactlyWhen(query: Query)
    ensures SkillParamsOf(query).Ok? <==> OnlyParams(query, SKILL_KEYS) && DistinctKeys(query)
    ensures SkillParamsOf(query).Ok? ==> Holds(SkillParamsOf(query).value, query)
  {
    if query != [] {
      var before, last := query[..|query| - 1], query[|query| - 1];
      assert query == before + [last];
      SkillParamsExactlyWhen(before);
      if SkillParamsOf(before).Ok? {
        SkillParamsStep(SkillParamsOf(before).value, before, last.0, last.1);
      }
    }
  }

  lemma CountsTwice(query: Query, i: nat, j: nat)
    requires i < j < |query| && query[i] == query[j]
    ensures multiset(query)[query[i]] >= 2
  {
    var x := query[i];
    assert query == query[..j] + query[j..];
    assert query[..j][i] == x && query[j..][0] == x;
    assert x in multiset(query[..j]) && x in multiset(query[j..]);
  }

  lemma CountsOnce(query: Query, i: nat)
    requires DistinctKeys(query) && i < |query|
    ensures multiset(query)[query[i]] == 1
  {
    var x := query[i];
    var before, after := query[..i], query[i + 1..];
    assert query == before + [x] + after;
    assert x !in before && x !in after;
    assert x !in multiset(before) && x !in multiset(after);
  }

  lemma DistinctInAnyOrder(a: Query, b: Query)
    requires multiset(a) == multiset(b) && DistinctKeys(a)
    ensures DistinctKeys(b)
  {
    forall i, j | 0 <= i < j < |b| ensures b[i].0 != b[j].0 {
      assert b[i] in multiset(b) && b[j] in multiset(b);
      var k :| 0 <= k < |a| && a[k] == b[i];
      var l :| 0 <= l < |a| && a[l] == b[j];
      if b[i] == b[j] {
        CountsTwice(b, i, j);
        CountsOnce(a, k);
      }
    }
  }

  lemma KnownInAnyOrder(a: Query, b: Query)
    requires multiset(a) == multiset(b) && OnlyParams(a, SKILL_KEYS)
    ensures OnlyParams(b, SKILL_KEYS)
  {
    forall i | 0 <= i < |b| ensures b[i].0 in SKILL_KEYS {
      assert b[i] in multiset(b);
      var k :| 0 <= k < |a| && a[k] == b[i];
    }
  }

  lemma AcceptedInAnyOrder(a: Query, b: Query)
    requires multiset(a) == multiset(b) && SkillParamsOf(a).Ok?
    ensures SkillParamsOf(b).Ok?
  {
    SkillParamsExactlyWhen(a);
    SkillParamsExactlyWhen(b);
    DistinctInAnyOrder(a, b);
    KnownInAnyOrder(a, b);
  }

  lemma SameParams(a: Query, b: Query)
    requires multiset(a) == multiset(b) && SkillParamsOf(a).Ok? && SkillParamsOf(b).Ok?
    ensures SkillParamsOf(a) == SkillParamsOf(b)
  {
    SkillParamsExactlyWhen(a);
    SkillParamsExactlyWhen(b);
    var p, q := SkillParamsOf(a).value, SkillParamsOf(b).value;
    SameOption(p, a, q, b, "name");
    SameOption(p, a, q, b, "source");
    SameOption(p, a, q, b, "path");
    SameOption(p, a, q, b, "subcommand");
    assert "source" != "name" && "path" != "name" && "subcommand" != "name";
    assert p == q;
  }

  /** The order of a skill's parameters matters neither for acceptance nor for the skill. */
  lemma SkillIgnoresOrder(a: Query, b: Query)
    requires multiset(a) == multiset(b)
    ensures SkillParamsOf(a).Ok? <==> SkillParamsOf(b).Ok?
    ensures SkillOf(a).Ok? <==> SkillOf(b).Ok?
    ensures SkillParamsOf(a).Ok? ==> SkillOf(a) == SkillOf(b)
  {
    if SkillParamsOf(a).Ok? {
      AcceptedInAnyOrder(a, b);
      SameParams(a, b);
    } else if SkillParamsOf(b).Ok? {
      AcceptedInAnyOrder(b, a);
    }
  }

  lemma SameOption(p: SkillParams, a: Query, q: SkillParams, b: Query, key: string)
    requires multiset(a) == multiset(b) && Holds(p, a) && Holds(q, b)
    ensures OptionOf(p, key) == OptionOf(q, key)
  {
    if OptionOf(p, key).Some? {
      var x := (key, OptionOf(p, key).value);
      assert x in multiset(a);
      var i :| 0 <= i < |b| && b[i] == x;
    }
    if OptionOf(q, key).Some? {
      var y := (key, OptionOf(q, key).value);
      assert y in multiset(b);
      var i :| 0 <= i < |a| && a[i] == y;
    }
  }
}
