/**
  Mention URIs of the `zed` scheme (crates/acp_thread/src/mention.rs), over URLs
  that the URL library has already taken apart: path, decoded query pairs, fragment.
 */
module Mention {
  import opened Wrappers
  import opened Text

  const U32_MAX: nat := 0xFFFF_FFFF
  const U64_MAX: nat := 0xFFFF_FFFF_FFFF_FFFF

  type u32 = n: nat | n <= U32_MAX
  type u64 = n: nat | n <= U64_MAX

  type Query = seq<(string, string)>

  datatype Url = Url(path: string, query: Query, fragment: Option<string>)

  datatype MentionUri =
    | Thread(id: string, name: string)
    | Rule(ruleId: string, name: string)
    | Diagnostics(includeErrors: bool, includeWarnings: bool)
    | PastedImage(name: string)
    | Symbol(name: string, absPath: string, start: u32, end: u32)
    | File(absPath: string)
    | Directory(absPath: string)
    | Selection(selected: Option<string>, start: u32, end: u32, column: Option<u32>)
    | TerminalSelection(lineCount: u32)
    | GitDiff(baseRef: string)
    | MergeConflict(filePath: string)
    | SqlQuery(absPath: string, connection: string)
    | PullRequest(number: u64, title: string, commentId: Option<u64>, changed: Option<string>)
    | ProjectItem(projectId: string, itemId: string, reference: string, title: string)
    | Note(absPath: string, title: string)
    | Logs(logId: string, title: string)
    | Skill(name: string, source: string, skillFilePath: string, subcommand: Option<string>)

  const DEFAULT_RULE_ID: string := "00000000-0000-0000-0000-000000000000"

  // ---------------------------------------------------------------------------
  // Numbers and line ranges
  // ---------------------------------------------------------------------------

  /** Rust's `parse` for unsigned integers up to `max`. */
  function ParseUnsigned(s: string, max: nat): (r: Option<nat>)
    ensures r.Some? ==> r.value <= max
  {
    var digits := if s != "" && s[0] == '+' then s[1..] else s;
    if digits == "" || !AllDigits(digits) then None
    else if DigitsValue(digits) > max then None
    else Some(DigitsValue(digits))
  }

  /** A one-based number read from text, as the zero-based value. */
  function ParseOneBased(s: string): (r: Option<u32>) {
    var n := ParseUnsigned(s, U32_MAX);
    if n.None? || n.value == 0 then None else Some(n.value - 1)
  }

  /** A zero-based value written as the one-based number, in 32-bit arithmetic. */
  function PrintOneBased(n: u32): string {
    Decimal((n + 1) % (U32_MAX + 1))
  }

  function StripL(s: string): string {
    if s != "" && s[0] == 'L' then s[1..] else s
  }

  function SplitOnce(s: string, c: char): Option<(string, string)> {
    var i := Find(s, [c]);
    if i.None? then None else Some((s[..i.value], s[i.value + 1..]))
  }

  function ParseLineRange(fragment: string): Option<(u32, u32)> {
    var range := StripL(fragment);
    var colon, dash := SplitOnce(range, ':'), SplitOnce(range, '-');
    var (first, last) :=
      if colon.Some? then colon.value
      else if dash.Some? then (dash.value.0, StripL(dash.value.1))
      else (range, range);
    var start, end := ParseOneBased(first), ParseOneBased(last);
    if start.None? || end.None? then None else Some((start.value, end.value))
  }

  function PrintLineRange(start: u32, end: u32): string {
    "L" + PrintOneBased(start) + ":" + PrintOneBased(end)
  }

  // ---------------------------------------------------------------------------
  // Query parameters
  // ---------------------------------------------------------------------------

  function QueryParam(query: Query, name: string): Option<string> {
    if query == [] then None
    else if query[0].0 == name then Some(query[0].1)
    else QueryParam(query[1..], name)
  }

  function SingleQueryParam(query: Query, name: string): Result<Option<string>, string> {
    if query == [] then Ok(None)
    else if |query| > 1 then Err("too many query pairs")
    else if query[0].0 != name then Err("invalid query parameter")
    else Ok(Some(query[0].1))
  }

  predicate OnlyParams(query: Query, allowed: set<string>) {
    forall i | 0 <= i < |query| :: query[i].0 in allowed
  }

  function GetOr(o: Option<string>, default: string): string {
    if o.Some? then o.value else default
  }

  // ---------------------------------------------------------------------------
  // Parsing
  // ---------------------------------------------------------------------------

  datatype Route =
    | ToThread | ToRule | ToDiagnostics | ToPastedImage | ToUntitled | ToSymbol | ToFile | ToDirectory | ToSelection
    | ToTerminal | ToGitDiff | ToConflict | ToSqlQuery | ToPullRequest | ToProjectItem | ToNote | ToLogs | ToSkill
    | Nowhere

  predicate Under(path: string, word: string) {
    "/agent/" + word <= path
  }

  /** The order of the prefix tests in `parse`. */
  function RouteOf(path: string): Route {
    if Under(path, "thread/") then ToThread
    else if Under(path, "rule/") then ToRule
    else if path == "/agent/" + "diagnostics" then ToDiagnostics
    else if Under(path, "pasted-image") then ToPastedImage
    else if Under(path, "untitled-buffer") then ToUntitled
    else if Under(path, "symbol/") then ToSymbol
    else if Under(path, "file") then ToFile
    else if Under(path, "directory") then ToDirectory
    else if Under(path, "selection") then ToSelection
    else if Under(path, "terminal-selection") then ToTerminal
    else if Under(path, "git-diff") then ToGitDiff
    else if Under(path, "merge-conflict") then ToConflict
    else if Under(path, "sql-query") then ToSqlQuery
    else if Under(path, "pull-request") then ToPullRequest
    else if Under(path, "project-item") then ToProjectItem
    else if Under(path, "note") then ToNote
    else if Under(path, "logs") then ToLogs
    else if Under(path, "skill") then ToSkill
    else Nowhere
  }

  function ParseDiagnostics(query: Query): Result<(bool, bool), string> {
    if query == [] then Ok((true, false))
    else
      var before := ParseDiagnostics(query[..|query| - 1]);
      var (key, value) := query[|query| - 1];
      if before.Err? then before
      else if key == "include_warnings" then Ok((before.value.0, value == "true"))
      else if key == "include_errors" then Ok((value == "true", before.value.1))
      else Err("invalid query parameter")
  }

  datatype SkillParams = SkillParams(
    name: Option<string>, source: Option<string>, path: Option<string>, subcommand: Option<string>)

  /** One turn of the loop that fills the skill's options; a repeated or unknown key fails. */
  function AddSkillParam(p: SkillParams, key: string, value: string): Result<SkillParams, string> {
    if key == "name" then
      if p.name.Some? then Err("duplicate skill name query parameter") else Ok(p.(name := Some(value)))
    else if key == "source" then
      if p.source.Some? then Err("duplicate skill source query parameter") else Ok(p.(source := Some(value)))
    else if key == "path" then
      if p.path.Some? then Err("duplicate skill file path query parameter") else Ok(p.(path := Some(value)))
    else if key == "subcommand" then
      if p.subcommand.Some? then Err("duplicate skill subcommand query parameter")
      else Ok(p.(subcommand := Some(value)))
    else Err("invalid query parameter")
  }

  function SkillParamsOf(query: Query): Result<SkillParams, string> {
    if query == [] then Ok(SkillParams(None, None, None, None))
    else
      var before := SkillParamsOf(query[..|query| - 1]);
      if before.Err? then before else AddSkillParam(before.value, query[|query| - 1].0, query[|query| - 1].1)
  }

  function SkillOf(query: Query): (r: Result<MentionUri, string>)
    ensures r.Ok? ==> r.value.Skill?
  {
    var params := SkillParamsOf(query);
    if params.Err? then Err(params.error)
    else if params.value.name.None? then Err("missing skill name")
    else if params.value.source.None? then Err("missing skill source")
    else if params.value.path.None? then Err("missing skill file path")
    else
      var p := params.value;
      Ok(Skill(p.name.value, p.source.value, p.path.value, p.subcommand))
  }

  /** The skill branch of `parse`, with its loop over mutable options. */
  method ParseSkill(query: Query) returns (r: Result<MentionUri, string>)
    ensures r == SkillOf(query)
  {
    var params := SkillParams(None, None, None, None);
    for i := 0 to |query|
      invariant SkillParamsOf(query[..i]) == Ok(params)
    {
      assert query[..i + 1][..i] == query[..i];
      var next := AddSkillParam(params, query[i].0, query[i].1);
      if next.Err? {
        SkillErrorLasts(query, i + 1);
        return Err(next.error);
      }
      params := next.value;
    }
    assert query[..|query|] == query;
    if params.name.None? { return Err("missing skill name"); }
    if params.source.None? { return Err("missing skill source"); }
    if params.path.None? { return Err("missing skill file path"); }
    return Ok(Skill(params.name.value, params.source.value, params.path.value, params.subcommand));
  }

  lemma {:induction false} SkillErrorLasts(query: Query, i: nat)
    requires i <= |query| && SkillParamsOf(query[..i]).Err?
    ensures SkillParamsOf(query) == SkillParamsOf(query[..i])
  {
    if i == |query| {
      assert query[..i] == query;
    } else {
      assert query[..|query| - 1][..i] == query[..i];
      SkillErrorLasts(query[..|query| - 1], i);
    }
  }

  function Required(o: Option<string>, missing: string): Result<string, string> {
    if o.None? then Err(missing) else Ok(o.value)
  }

  function ParsePullRequest(query: Query): (r: Result<MentionUri, string>)
    ensures r.Ok? ==> r.value.PullRequest?
  {
    var number, comment := QueryParam(query, "number"), QueryParam(query, "comment");
    if !OnlyParams(query, {"number", "title", "comment", "path"}) then Err("invalid query parameter")
    else if number.None? then Err("Missing number for pull request")
    else
      var n := ParseUnsigned(number.value, U64_MAX);
      var c := if comment.None? then None else ParseUnsigned(comment.value, U64_MAX);
      if n.None? then Err("Invalid pull request number")
      else if comment.Some? && c.None? then Err("Invalid pull request comment id")
      else
        var id: Option<u64> := if c.None? then None else Some(c.value);
        Ok(PullRequest(n.value, GetOr(QueryParam(query, "title"), ""), id, QueryParam(query, "path")))
  }

  function ParseSelection(url: Url, allowed: set<string>, path: Option<string>): (r: Result<MentionUri, string>)
    ensures r.Ok? ==> r.value.Selection? && r.value.selected == path
  {
    if url.fragment.None? then Err("Missing fragment for selection")
    else
      var range := ParseLineRange(url.fragment.value);
      if range.None? then Err("Invalid line range")
      else if !OnlyParams(url.query, allowed) then Err("invalid query parameter")
      else
        var column := QueryParam(url.query, "column");
        Ok(Selection(path, range.value.0, range.value.1, if column.None? then None else ParseOneBased(column.value)))
  }

  function WithSingle(query: Query, name: string): Result<string, string> {
    var r := SingleQueryParam(query, name);
    if r.Err? then Err(r.error) else Required(r.value, "Missing parameter")
  }

  /** What follows the first `n` characters of a path. */
  function Tail(path: string, n: nat): string {
    if n <= |path| then path[n..] else ""
  }

  function ParseThread(url: Url): (r: Result<MentionUri, string>)
    ensures r.Ok? ==> r.value.Thread?
  {
    var name := WithSingle(url.query, "name");
    if name.Err? then Err(name.error) else Ok(Thread(Tail(url.path, 14), name.value))
  }

  function ParseRule(url: Url): (r: Result<MentionUri, string>)
    ensures r.Ok? ==> r.value.Rule?
  {
    var name := WithSingle(url.query, "name");
    var id := Tail(url.path, 12);
    if name.Err? then Err(name.error) else Ok(Rule(if id == "" then DEFAULT_RULE_ID else id, name.value))
  }

  function ParseDiagnosticsUri(query: Query): (r: Result<MentionUri, string>)
    ensures r.Ok? ==> r.value.Diagnostics?
  {
    var flags := ParseDiagnostics(query);
    if flags.Err? then Err(flags.error) else Ok(Diagnostics(flags.value.0, flags.value.1))
  }

  function ParsePastedImage(query: Query): (r: Result<MentionUri, string>)
    ensures r.Ok? ==> r.value.PastedImage?
  {
    var name := SingleQueryParam(query, "name");
    if name.Err? then Err(name.error) else Ok(PastedImage(GetOr(name.value, "Image")))
  }

  function ParseSymbol(url: Url): (r: Result<MentionUri, string>)
    ensures r.Ok? ==> r.value.Symbol?
  {
    var range := if url.fragment.None? then None else ParseLineRange(url.fragment.value);
    var path := WithSingle(url.query, "path");
    if range.None? then Err("Invalid line range")
    else if path.Err? then Err(path.error)
    else Ok(Symbol(Tail(url.path, 14), path.value, range.value.0, range.value.1))
  }

  function ParseFile(query: Query): (r: Result<MentionUri, string>)
    ensures r.Ok? ==> r.value.File?
  {
    var path := WithSingle(query, "path");
    if path.Err? then Err(path.error) else Ok(File(path.value))
  }

  function ParseDirectory(query: Query): (r: Result<MentionUri, string>)
    ensures r.Ok? ==> r.value.Directory?
  {
    var path := WithSingle(query, "path");
    if path.Err? then Err(path.error) else Ok(Directory(path.value))
  }

  function ParseFileSelection(url: Url): (r: Result<MentionUri, string>)
    ensures r.Ok? ==> r.value.Selection? && r.value.selected.Some?
  {
    var path := QueryParam(url.query, "path");
    var selection := ParseSelection(url, {"path", "column"}, path);
    if !OnlyParams(url.query, {"path", "column"}) then Err("invalid query parameter")
    else if selection.Err? then selection
    else if path.None? then Err("Missing path for selection") else selection
  }

  function ParseTerminal(query: Query): (r: Result<MentionUri, string>)
    ensures r.Ok? ==> r.value.TerminalSelection?
  {
    var lines := SingleQueryParam(query, "lines");
    if lines.Err? then Err(lines.error)
    else
      var n := ParseUnsigned(GetOr(lines.value, "0"), U32_MAX);
      Ok(TerminalSelection(if n.Some? then n.value else 0))
  }

  function ParseGitDiff(query: Query): (r: Result<MentionUri, string>)
    ensures r.Ok? ==> r.value.GitDiff?
  {
    var base := SingleQueryParam(query, "base");
    if base.Err? then Err(base.error) else Ok(GitDiff(GetOr(base.value, "main")))
  }

  function ParseConflict(query: Query): (r: Result<MentionUri, string>)
    ensures r.Ok? ==> r.value.MergeConflict?
  {
    var path := SingleQueryParam(query, "path");
    if path.Err? then Err(path.error) else Ok(MergeConflict(GetOr(path.value, "")))
  }

  function ParseSqlQuery(query: Query): (r: Result<MentionUri, string>)
    ensures r.Ok? ==> r.value.SqlQuery?
  {
    var path := Required(QueryParam(query, "path"), "Missing path for SQL query");
    if !OnlyParams(query, {"path", "connection"}) then Err("invalid query parameter")
    else if path.Err? then Err(path.error)
    else Ok(SqlQuery(path.value, GetOr(QueryParam(query, "connection"), "")))
  }

  function ParseProjectItem(query: Query): (r: Result<MentionUri, string>)
    ensures r.Ok? ==> r.value.ProjectItem?
  {
    var project := Required(QueryParam(query, "project"), "Missing project for project item");
    var item := Required(QueryParam(query, "item"), "Missing id for project item");
    var reference, title := GetOr(QueryParam(query, "ref"), ""), GetOr(QueryParam(query, "title"), "");
    if !OnlyParams(query, {"project", "item", "ref", "title"}) then Err("invalid query parameter")
    else if project.Err? then Err(project.error)
    else if item.Err? then Err(item.error)
    else Ok(ProjectItem(project.value, item.value, reference, title))
  }

  function ParseNote(query: Query): (r: Result<MentionUri, string>)
    ensures r.Ok? ==> r.value.Note?
  {
    var path := Required(QueryParam(query, "path"), "Missing path for note");
    if !OnlyParams(query, {"path", "title"}) then Err("invalid query parameter")
    else if path.Err? then Err(path.error)
    else Ok(Note(path.value, GetOr(QueryParam(query, "title"), "")))
  }

  function ParseLogs(query: Query): (r: Result<MentionUri, string>)
    ensures r.Ok? ==> r.value.Logs?
  {
    var id := Required(QueryParam(query, "id"), "Missing id for logs");
    if !OnlyParams(query, {"id", "title"}) then Err("invalid query parameter")
    else if id.Err? then Err(id.error)
    else Ok(Logs(id.value, GetOr(QueryParam(query, "title"), "")))
  }

  /** The route that leads to a mention. */
  function KindOf(m: MentionUri): Route {
    match m
    case Thread(_, _) => ToThread
    case Rule(_, _) => ToRule
    case Diagnostics(_, _) => ToDiagnostics
    case PastedImage(_) => ToPastedImage
    case Symbol(_, _, _, _) => ToSymbol
    case File(_) => ToFile
    case Directory(_) => ToDirectory
    case Selection(selected, _, _, _) => if selected.None? then ToUntitled else ToSelection
    case TerminalSelection(_) => ToTerminal
    case GitDiff(_) => ToGitDiff
    case MergeConflict(_) => ToConflict
    case SqlQuery(_, _) => ToSqlQuery
    case PullRequest(_, _, _, _) => ToPullRequest
    case ProjectItem(_, _, _, _) => ToProjectItem
    case Note(_, _) => ToNote
    case Logs(_, _) => ToLogs
    case Skill(_, _, _, _) => ToSkill
  }

  /** The `zed` arm of `parse`. */
  function Parse(url: Url): Result<MentionUri, string> {
    ParseAs(url, RouteOf(url.path))
  }

  function ParseAs(url: Url, route: Route): Result<MentionUri, string> {
    match route
    case ToThread => ParseThread(url)
    case ToRule => ParseRule(url)
    case ToDiagnostics => ParseDiagnosticsUri(url.query)
    case ToPastedImage => ParsePastedImage(url.query)
    case ToUntitled => ParseSelection(url, {"column"}, None)
    case ToSymbol => ParseSymbol(url)
    case ToFile => ParseFile(url.query)
    case ToDirectory => ParseDirectory(url.query)
    case ToSelection => ParseFileSelection(url)
    case ToTerminal => ParseTerminal(url.query)
    case ToGitDiff => ParseGitDiff(url.query)
    case ToConflict => ParseConflict(url.query)
    case ToSqlQuery => ParseSqlQuery(url.query)
    case ToPullRequest => ParsePullRequest(url.query)
    case ToProjectItem => ParseProjectItem(url.query)
    case ToNote => ParseNote(url.query)
    case ToLogs => ParseLogs(url.query)
    case ToSkill => SkillOf(url.query)
    case Nowhere => Err("invalid zed url")
  }

  // ---------------------------------------------------------------------------
  // Printing
  // ---------------------------------------------------------------------------

  /** The mentions that `to_uri` prints entirely into query and fragment. */
  predicate IsQueryCarried(m: MentionUri) {
    match m
    case Selection(path, _, _, _) => path.None?
    case Thread(_, _) => false
    case Rule(_, _) => false
    case Symbol(_, _, _, _) => false
    case File(_) => false
    case Directory(_) => false
    case _ => true
  }

  function Optional(key: string, value: Option<string>): Query {
    if value.Some? then [(key, value.value)] else []
  }

  function WordOf(m: MentionUri): string
    requires IsQueryCarried(m)
  {
    match m
    case Diagnostics(_, _) => "diagnostics"
    case PastedImage(_) => "pasted-image"
    case Selection(_, _, _, _) => "untitled-buffer"
    case TerminalSelection(_) => "terminal-selection"
    case GitDiff(_) => "git-diff"
    case MergeConflict(_) => "merge-conflict"
    case SqlQuery(_, _) => "sql-query"
    case PullRequest(_, _, _, _) => "pull-request"
    case ProjectItem(_, _, _, _) => "project-item"
    case Note(_, _) => "note"
    case Logs(_, _) => "logs"
    case Skill(_, _, _, _) => "skill"
  }

  function QueryOf(m: MentionUri): Query
    requires IsQueryCarried(m)
  {
    match m
    case Diagnostics(errors, warnings) =>
      (if warnings then [("include_warnings", "true")] else [])
      + (if !errors then [("include_errors", "false")] else [])
    case PastedImage(name) => [("name", name)]
    case Selection(_, _, _, column) => if column.Some? then [("column", PrintOneBased(column.value))] else []
    case TerminalSelection(count) => [("lines", Decimal(count))]
    case GitDiff(base) => [("base", base)]
    case MergeConflict(path) => [("path", path)]
    case SqlQuery(path, connection) => [("path", path), ("connection", connection)]
    case PullRequest(number, title, comment, path) =>
      [("number", Decimal(number)), ("title", title)]
      + (if comment.Some? then [("comment", Decimal(comment.value))] else [])
      + Optional("path", path)
    case ProjectItem(project, item, reference, title) =>
      [("project", project), ("item", item), ("ref", reference), ("title", title)]
    case Note(path, title) => [("path", path), ("title", title)]
    case Logs(id, title) => [("id", id), ("title", title)]
    case Skill(name, source, path, subcommand) =>
      [("name", name), ("source", source), ("path", path)] + Optional("subcommand", subcommand)
  }

  function ToUri(m: MentionUri): Url
    requires IsQueryCarried(m)
  {
    Url("/agent/" + WordOf(m), QueryOf(m), if m.Selection? then Some(PrintLineRange(m.start, m.end)) else None)
  }
}
