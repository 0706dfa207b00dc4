/** The Markdown renderer of lib/aikido.py (generate_table).

    The method `GenerateTable` builds the text the way the source does, with
    string accumulators, `break` and `continue`. Beside it, the functions
    below describe the same table as data: each file column is a sequence of
    fragments (a file link, the "view more files" opener, the Dockerfile link,
    a package entry, the closing `</details>`), and each row a `Row`. The
    method is proved to produce exactly the rendering of that data, and the
    lemmas state what the data looks like. */
module AikidoTable {
  import opened Common
  import opened Dict
  import opened Aikido

  /** The rendered text of the two CI variables lib/aikido.py reads at import
      time: the project URL and the source branch name. */
  datatype RenderEnv = RenderEnv(projectUrl: string, branch: string)

  datatype Fragment =
    | FileLink(path: string)
    | MoreFilesOpener
    | DockerfileLink
    | PackageEntry(name: string)
    | DetailsCloser

  function BlobUrl(env: RenderEnv, path: string): string {
    env.projectUrl + "/-/blob/" + env.branch + "/" + path
  }

  function RenderFragment(f: Fragment, env: RenderEnv): string {
    match f
    case FileLink(p) => "[" + p + "](" + BlobUrl(env, p) + ")"
    case MoreFilesOpener => "<details><summary>view more files</summary>"
    case DockerfileLink => "[Dockerfile](" + BlobUrl(env, "Dockerfile") + ")"
    case PackageEntry(n) => "Package: `" + n + "`<br>"
    case DetailsCloser => "</details>"
  }

  function RenderFragments(fs: seq<Fragment>, env: RenderEnv): string {
    if fs == [] then "" else RenderFragments(fs[..|fs| - 1], env) + RenderFragment(fs[|fs| - 1], env)
  }

  /** The number of file links among the fragments. */
  function CountLinks(fs: seq<Fragment>): nat {
    if fs == [] then 0 else CountLinks(fs[..|fs| - 1]) + (if fs[|fs| - 1].FileLink? then 1 else 0)
  }

  /** The exceptions the renderer can raise: `None.replace` when a group's
      `type` is null, and `None in file_list` when a file-less issue that is
      not a docker container has no `affected_package`. */
  datatype TableError = TypeIsNull | PackageIsNone

  /** The state of the per-group loop over issues: `description`,
      `file_list` (as fragments) and `file_count`. */
  datatype Scan = Scan(description: Option<string>, files: seq<Fragment>, fileCount: nat)

  function PackageOf(issue: Issue): Option<string> {
    GetOr(issue.affectedPackage, "")
  }

  /** A file-less docker-container issue: the loop appends the Dockerfile
      link and leaves the group's remaining issues unread. */
  predicate StopsScan(issue: Issue) {
    Blank(GetOr(issue.affectedFile, "")) && GetOr(issue.attackSurface, "") == Some("docker_container")
  }

  /** What one issue does to the loop: go on with a new state, stop the loop
      (the Dockerfile case), or raise. */
  datatype Step = Continue(next: Scan) | Stop(last: Scan) | Raise(error: TableError)

  /** One pass of the loop body over `issue`, from state `s`. */
  function ScanOne(issue: Issue, s: Scan, env: RenderEnv): Step {
    var desc := if Blank(s.description) then PackageOf(issue) else s.description;
    var file := GetOr(issue.affectedFile, "");
    if Blank(file) then
      if GetOr(issue.attackSurface, "") == Some("docker_container") then
        Stop(Scan(desc, s.files + [DockerfileLink], s.fileCount))
      else
        match GetOrNone(issue.affectedPackage)
        case None => Raise(PackageIsNone)
        case Some(p) =>
          if IsSubstring(p, RenderFragments(s.files, env)) then Continue(Scan(desc, s.files, s.fileCount))
          else Continue(Scan(desc, s.files + [PackageEntry(p)], s.fileCount))
    else
      var opener := if s.fileCount == 2 then [MoreFilesOpener] else [];
      Continue(Scan(desc, s.files + [FileLink(file.value)] + opener, s.fileCount + 1))
  }

  /** The loop over one group's issues, from state `s`. */
  function ScanIssues(issues: seq<Issue>, s: Scan, env: RenderEnv): Result<Scan, TableError>
    decreases |issues|
  {
    if issues == [] then Success(s)
    else
      match ScanOne(issues[0], s, env)
      case Raise(e) => Failure(e)
      case Stop(t) => Success(t)
      case Continue(t) => ScanIssues(issues[1..], t, env)
  }

  /** The file column once the loop is over: `</details>` is appended when
      `file_count >= 2`. */
  function Column(s: Scan): seq<Fragment> {
    s.files + (if s.fileCount >= 2 then [DetailsCloser] else [])
  }

  /** The severity literals. As in the source, `\t` in them is a TAB. */
  const CriticalCell := "$`\textcolor{red}{\text{critical}}`$"
  const HighCell := "$`\textcolor{orange}{\text{high}}`$"
  const MediumCell := "$`\textcolor{yellow}{\text{medium}}`$"

  function SeverityCell(severity: Field): string {
    match GetOrNone(severity)
    case Some("critical") => CriticalCell
    case Some("high") => HighCell
    case Some("medium") => MediumCell
    case other => PyStr(other)
  }

  function Link(repoId: string, key: Key): string {
    "https://app.aikido.dev/repositories/" + repoId + "?sidebarIssue=" + PyStr(key)
  }

  datatype Row = Row(description: Option<string>, files: seq<Fragment>, severity: string, link: string)

  function RenderRow(row: Row, env: RenderEnv): string {
    "|" + PyStr(row.description) + "|" + RenderFragments(row.files, env) + "|" + row.severity + "|" + row.link + "|\n"
  }

  /** The header followed by one line per row. */
  function RenderTable(rows: seq<Row>, env: RenderEnv): string {
    if rows == [] then TableHeader else RenderTable(rows[..|rows| - 1], env) + RenderRow(rows[|rows| - 1], env)
  }

  function IssuesOf(g: Group): seq<Issue> {
    match g.issueList
    case None => []
    case Some(l) => l
  }

  /** `group.get("type", "").replace("_", " ").title()`, or the exception. */
  function TypeLabel(g: Group): Result<string, TableError> {
    match GetOr(g.kind, "")
    case None => Failure(TypeIsNull)
    case Some(t) => Success(Title(ReplaceChar(t, '_', ' ')))
  }

  /** The row one group contributes: none when the `leaked_secret` test fires. */
  function GroupRow(key: Key, g: Group, repoId: string, env: RenderEnv): Result<Option<Row>, TableError> {
    match TypeLabel(g)
    case Failure(e) => Failure(e)
    case Success(typeLabel) =>
      if typeLabel == "leaked_secret" then Success(None)
      else
        match ScanIssues(IssuesOf(g), Scan(GetOr(g.description, ""), [], 0), env)
        case Failure(e) => Failure(e)
        case Success(s) => Success(Some(Row(s.description, Column(s), SeverityCell(g.severity), Link(repoId, key))))
  }

  /** What a group contributes to the table: a row, none, or an exception. */
  type RowOf = (Key, Group) -> Result<Option<Row>, TableError>

  /** The rows `f` gives for the groups, in dict order; the first exception
      wins. */
  function Collect(d: Dict<Key, Group>, f: RowOf): Result<seq<Row>, TableError> {
    if d == [] then Success([])
    else
      match Collect(d[..|d| - 1], f)
      case Failure(e) => Failure(e)
      case Success(rows) =>
        match f(d[|d| - 1].0, d[|d| - 1].1)
        case Failure(e) => Failure(e)
        case Success(None) => Success(rows)
        case Success(Some(row)) => Success(rows + [row])
  }

  function RowFn(repoId: string, env: RenderEnv): RowOf {
    (k, g) => GroupRow(k, g, repoId, env)
  }

  /** The rows of the table, in dict order; the first exception wins. */
  function TableRows(d: Dict<Key, Group>, repoId: string, env: RenderEnv): Result<seq<Row>, TableError> {
    Collect(d, RowFn(repoId, env))
  }

  const NoIssuesMessage := "\n# SAST scan results\nNo high or critical issues found in codebase \U{2705}"

  const TableHeader := "|Issue description|File location or affected package|Severity|Link|\n|---|---|---|---|\n"

  function ReportHead(count: nat): string {
    "\n# SAST scan results\n" + Decimal(count) + " issues found in codebase\U{2757}\n<details><summary>SAST scan results</summary>\n\n"
  }

  function Report(count: nat, table: string): string {
    ReportHead(count) + table + "\n</details>"
  }

  /** One pass of the issue loop's body: the new description, `file_list`
      and `file_count`, and whether the loop goes on (`true`), breaks
      (`false`) or raises. */
  method ScanIssue(issue: Issue, description: Option<string>, ghost files: seq<Fragment>, fileCount: nat,
                   fileList: string, env: RenderEnv)
    returns (next: Result<bool, TableError>, description1: Option<string>, ghost files1: seq<Fragment>,
             fileCount1: nat, fileList1: string)
    requires fileList == RenderFragments(files, env)
    ensures fileList1 == RenderFragments(files1, env)
    ensures next.Failure? ==> ScanOne(issue, Scan(description, files, fileCount), env) == Raise(next.error)
    ensures next == Success(true) ==>
      ScanOne(issue, Scan(description, files, fileCount), env) == Continue(Scan(description1, files1, fileCount1))
    ensures next == Success(false) ==>
      ScanOne(issue, Scan(description, files, fileCount), env) == Stop(Scan(description1, files1, fileCount1))
  {
    ghost var s := Scan(description, files, fileCount);
    description1, files1, fileCount1, fileList1 := description, files, fileCount, fileList;
    if Blank(description1) {
      description1 := GetOr(issue.affectedPackage, "");
    }
    var affectedFile := GetOr(issue.affectedFile, "");
    if Blank(affectedFile) {
      var attackSurface := GetOr(issue.attackSurface, "");
      if attackSurface == Some("docker_container") {
        var dockerLink := "[Dockerfile](" + BlobUrl(env, "Dockerfile") + ")";
        fileList1 := fileList1 + dockerLink;
        RenderSnoc(files1, DockerfileLink, env);
        files1 := files1 + [DockerfileLink];
        assert ScanOne(issue, s, env) == Stop(Scan(description1, files1, fileCount1));
        return Success(false), description1, files1, fileCount1, fileList1;
      }
      var affectedPackage := GetOrNone(issue.affectedPackage);
      if affectedPackage.None? {
        assert ScanOne(issue, s, env) == Raise(PackageIsNone);
        return Failure(PackageIsNone), description1, files1, fileCount1, fileList1;
      }
      if !IsSubstring(affectedPackage.value, fileList1) {
        var entry := "Package: `" + affectedPackage.value + "`<br>";
        fileList1 := fileList1 + entry;
        RenderSnoc(files1, PackageEntry(affectedPackage.value), env);
        files1 := files1 + [PackageEntry(affectedPackage.value)];
      }
    } else {
      ghost var opener := if fileCount == 2 then [MoreFilesOpener] else [];
      var fileLink := "[" + affectedFile.value + "](" + BlobUrl(env, affectedFile.value) + ")";
      fileList1 := fileList1 + fileLink;
      RenderSnoc(files1, FileLink(affectedFile.value), env);
      files1 := files1 + [FileLink(affectedFile.value)];
      if fileCount1 == 2 {
        fileList1 := fileList1 + "<details><summary>view more files</summary>";
        RenderSnoc(files1, MoreFilesOpener, env);
        files1 := files1 + [MoreFilesOpener];
      }
      assert files1 == files + [FileLink(affectedFile.value)] + opener;
      fileCount1 := fileCount1 + 1;
    }
    assert ScanOne(issue, s, env) == Continue(Scan(description1, files1, fileCount1));
    next := Success(true);
  }

  /** The loop over one group's issues, with the description it starts from:
      the final description, `file_list` and `file_count`, or the exception. */
  method ScanGroupIssues(list: seq<Issue>, description0: Option<string>, env: RenderEnv)
    returns (r: Result<(Option<string>, string, nat), TableError>)
    ensures r == match ScanIssues(list, Scan(description0, [], 0), env)
                 case Failure(e) => Failure(e)
                 case Success(s) => Success((s.description, RenderFragments(s.files, env), s.fileCount))
  {
    var description := description0;
    ghost var files: seq<Fragment> := [];
    var fileList := "";
    var fileCount := 0;
    var j := 0;
    while j < |list|
      invariant 0 <= j <= |list|
      invariant ScanIssues(list, Scan(description0, [], 0), env) == ScanIssues(list[j..], Scan(description, files, fileCount), env)
      invariant fileList == RenderFragments(files, env)
    {
      ScanIssuesStep(list, j, Scan(description, files, fileCount), env);
      var next;
      next, description, files, fileCount, fileList := ScanIssue(list[j], description, files, fileCount, fileList, env);
      if next.Failure? {
        return Failure(next.error);
      }
      if !next.value {
        return Success((description, fileList, fileCount));
      }
      j := j + 1;
    }
    assert list[j..] == [];
    return Success((description, fileList, fileCount));
  }

  /** The severity column's if-chain. */
  method SeverityText(field: Field) returns (severity: string)
    ensures severity == SeverityCell(field)
  {
    var severityValue := GetOrNone(field);
    if severityValue == Some("critical") {
      severity := CriticalCell;
    } else if severityValue == Some("high") {
      severity := HighCell;
    } else if severityValue == Some("medium") {
      severity := MediumCell;
    } else {
      severity := PyStr(severityValue);
    }
  }

  /** The body of the loop over groups: the row text for one group, nothing
      when the `leaked_secret` test fires, or the exception. */
  method RenderGroupRow(groupId: Key, group: Group, repoId: string, env: RenderEnv)
    returns (r: Result<Option<string>, TableError>)
    ensures r == match GroupRow(groupId, group, repoId, env)
                 case Failure(e) => Failure(e)
                 case Success(None) => Success(None)
                 case Success(Some(row)) => Success(Some(RenderRow(row, env)))
  {
    var rawType := GetOr(group.kind, "");
    if rawType.None? {
      return Failure(TypeIsNull);
    }
    var issueType := Title(ReplaceChar(rawType.value, '_', ' '));
    assert TypeLabel(group) == Success(issueType);
    if issueType == "leaked_secret" {
      return Success(None);
    }
    var scanned := ScanGroupIssues(IssuesOf(group), GetOr(group.description, ""), env);
    if scanned.Failure? {
      return Failure(scanned.error);
    }
    var (description, fileList, fileCount) := scanned.value;
    ghost var s :| ScanIssues(IssuesOf(group), Scan(GetOr(group.description, ""), [], 0), env) == Success(s);
    assert description == s.description && fileList == RenderFragments(s.files, env) && fileCount == s.fileCount;
    if fileCount >= 2 {
      fileList := fileList + "</details>";
      RenderSnoc(s.files, DetailsCloser, env);
    } else {
      assert Column(s) == s.files;
    }
    var severity := SeverityText(group.severity);
    var link := "https://app.aikido.dev/repositories/" + repoId + "?sidebarIssue=" + PyStr(groupId);
    ghost var row := Row(description, Column(s), severity, link);
    KeptGroupRow(groupId, group, repoId, env, issueType, s);
    assert fileList == RenderFragments(row.files, env) && link == row.link;
    return Success(Some("|" + PyStr(description) + "|" + fileList + "|" + severity + "|" + link + "|\n"));
  }

  /** The row of a group whose label passes the test and whose issues scan. */
  lemma KeptGroupRow(key: Key, g: Group, repoId: string, env: RenderEnv, kind: string, s: Scan)
    requires TypeLabel(g) == Success(kind) && kind != "leaked_secret"
    requires ScanIssues(IssuesOf(g), Scan(GetOr(g.description, ""), [], 0), env) == Success(s)
    ensures GroupRow(key, g, repoId, env) == Success(Some(Row(s.description, Column(s), SeverityCell(g.severity), Link(repoId, key))))
  {
  }

  /** The text `generate_table` returns, or the exception it raises. */
  function TableText(d: Dict<Key, Group>, repoId: string, env: RenderEnv): Result<string, TableError> {
    if |d| == 0 then Success(NoIssuesMessage)
    else
      match TableRows(d, repoId, env)
      case Failure(e) => Failure(e)
      case Success(rows) => Success(Report(|d|, RenderTable(rows, env)))
  }

  /** The loop over the groups: the header and one line per rendered row,
      or the first exception. */
  method RenderRows(issues: Dict<Key, Group>, repoId: string, env: RenderEnv)
    returns (r: Result<string, TableError>)
    ensures TableRows(issues, repoId, env).Failure? ==> r == Failure(TableRows(issues, repoId, env).error)
    ensures TableRows(issues, repoId, env).Success? ==> r == Success(RenderTable(TableRows(issues, repoId, env).value, env))
  {
    var table := TableHeader;
    ghost var done: seq<Row> := [];
    var i := 0;
    while i < |issues|
      invariant 0 <= i <= |issues|
      invariant TableRows(issues[..i], repoId, env) == Success(done)
      invariant table == RenderTable(done, env)
    {
      var groupId := issues[i].0;
      var group := issues[i].1;
      var rowText := RenderGroupRow(groupId, group, repoId, env);
      if rowText.Failure? {
        RowFailureSticks(issues, i, rowText.error, repoId, env);
        return Failure(rowText.error);
      }
      RowStep(issues, i, done, repoId, env);
      if rowText.value.Some? {
        RowsSnoc(done, GroupRow(groupId, group, repoId, env).value.value, env);
        table := table + rowText.value.value;
        done := done + [GroupRow(groupId, group, repoId, env).value.value];
      }
      i := i + 1;
    }
    assert issues[..i] == issues;
    return Success(table);
  }

  method GenerateTable(issues: Dict<Key, Group>, repoId: string, env: RenderEnv)
    returns (r: Result<string, TableError>)
    ensures r == TableText(issues, repoId, env)
  {
    if |issues| == 0 {
      return Success(NoIssuesMessage);
    }
    var table := RenderRows(issues, repoId, env);
    if table.Failure? {
      return Failure(table.error);
    }
    return Success(Report(|issues|, table.value));
  }

  /** The loop from index `j` on is one pass of the body, then the rest. */
  lemma ScanIssuesStep(list: seq<Issue>, j: nat, s: Scan, env: RenderEnv)
    requires j < |list|
    ensures ScanIssues(list[j..], s, env) ==
      match ScanOne(list[j], s, env)
      case Raise(e) => Failure(e)
      case Stop(t) => Success(t)
      case Continue(t) => ScanIssues(list[j + 1..], t, env)
  {
    assert list[j..][0] == list[j] && list[j..][1..] == list[j + 1..];
  }

  lemma RenderSnoc(fs: seq<Fragment>, f: Fragment, env: RenderEnv)
    ensures RenderFragments(fs + [f], env) == RenderFragments(fs, env) + RenderFragment(f, env)
  {
    assert (fs + [f])[..|fs|] == fs;
  }

  lemma RowsSnoc(rows: seq<Row>, row: Row, env: RenderEnv)
    ensures RenderTable(rows + [row], env) == RenderTable(rows, env) + RenderRow(row, env)
  {
    assert (rows + [row])[..|rows|] == rows;
  }

  lemma CollectStep(d: Dict<Key, Group>, i: nat, rows: seq<Row>, row: Option<Row>, f: RowOf)
    requires i < |d|
    requires Collect(d[..i], f) == Success(rows)
    requires f(d[i].0, d[i].1) == Success(row)
    ensures Collect(d[..i + 1], f) == Success(if row.Some? then rows + [row.value] else rows)
  {
    assert d[..i + 1][..i] == d[..i];
  }

  /** One more group of the dict: its row, if any, joins the rows so far. */
  lemma RowStep(d: Dict<Key, Group>, i: nat, rows: seq<Row>, repoId: string, env: RenderEnv)
    requires i < |d|
    requires TableRows(d[..i], repoId, env) == Success(rows)
    requires GroupRow(d[i].0, d[i].1, repoId, env).Success?
    ensures TableRows(d[..i + 1], repoId, env) ==
      Success(match GroupRow(d[i].0, d[i].1, repoId, env).value
              case Some(row) => rows + [row]
              case None => rows)
  {
    CollectStep(d, i, rows, GroupRow(d[i].0, d[i].1, repoId, env).value, RowFn(repoId, env));
  }

  /** A group that raises makes the whole table raise. */
  lemma RowFailureSticks(d: Dict<Key, Group>, i: nat, e: TableError, repoId: string, env: RenderEnv)
    requires i < |d|
    requires TableRows(d[..i], repoId, env).Success?
    requires GroupRow(d[i].0, d[i].1, repoId, env) == Failure(e)
    ensures TableRows(d, repoId, env) == Failure(e)
  {
    FailureSticks(d, i + 1, e, RowFn(repoId, env));
  }

  /** Once a prefix of the dict has raised, the whole collection has. */
  lemma {:induction false} FailureSticks(d: Dict<Key, Group>, n: nat, e: TableError, f: RowOf)
    requires n <= |d|
    requires Collect(d[..n], f) == Failure(e) || (n > 0 && Collect(d[..n - 1], f).Success? && f(d[n - 1].0, d[n - 1].1) == Failure(e))
    ensures Collect(d, f) == Failure(e)
    decreases |d| - n
  {
    if n > 0 {
      assert d[..n][..n - 1] == d[..n - 1];
    }
    if n < |d| {
      assert d[..n + 1][..n] == d[..n];
      FailureSticks(d, n + 1, e, f);
    } else {
      assert d[..n] == d;
    }
  }

  // ---------------------------------------------------------------------
  // What the rendered table looks like

  /** `title()` never yields an underscore that was not there, and every
      underscore was replaced by a space first: the `leaked_secret` test
      never holds, so no group is ever skipped. */
  lemma LeakedSecretNeverMatches(t: string)
    ensures Title(ReplaceChar(t, '_', ' ')) != "leaked_secret"
  {
  }

  lemma NoGroupSkipped(key: Key, g: Group, repoId: string, env: RenderEnv)
    ensures GroupRow(key, g, repoId, env) != Success(None)
  {
    if GetOr(g.kind, "").Some? {
      LeakedSecretNeverMatches(GetOr(g.kind, "").value);
    }
  }

  /** Collecting raises exactly when some group does. */
  lemma {:induction false} CollectSucceeds(d: Dict<Key, Group>, f: RowOf)
    ensures Collect(d, f).Success? <==> forall i :: 0 <= i < |d| ==> f(d[i].0, d[i].1).Success?
  {
    if d != [] {
      var p := d[..|d| - 1];
      CollectSucceeds(p, f);
      assert forall i :: 0 <= i < |p| ==> p[i] == d[i];
    }
  }

  /** When no group is skipped, there is one row per group. */
  lemma {:induction false} CollectCount(d: Dict<Key, Group>, f: RowOf)
    requires forall k, g :: f(k, g) != Success(None)
    requires Collect(d, f).Success?
    ensures |Collect(d, f).value| == |d|
  {
    if d != [] {
      CollectCount(d[..|d| - 1], f);
    }
  }

  /** When no group is skipped, the row at position `i` is group `i`'s. */
  lemma {:induction false} CollectAt(d: Dict<Key, Group>, f: RowOf, i: nat)
    requires forall k, g :: f(k, g) != Success(None)
    requires i < |d|
    requires Collect(d, f).Success?
    ensures i < |Collect(d, f).value|
    ensures f(d[i].0, d[i].1) == Success(Some(Collect(d, f).value[i]))
  {
    var p := d[..|d| - 1];
    var last := d[|d| - 1];
    CollectCount(p, f);
    var rows := Collect(p, f).value;
    var row := f(last.0, last.1).value.value;
    assert Collect(d, f).value == rows + [row];
    if i < |p| {
      CollectAt(p, f, i);
      assert p[i] == d[i];
    }
  }

  /** The rows are the groups' rows, one per group, in dict order, and
      rendering raises exactly when some group does. */
  lemma RowsOfGroups(d: Dict<Key, Group>, repoId: string, env: RenderEnv)
    ensures TableRows(d, repoId, env).Success? <==> forall i :: 0 <= i < |d| ==> GroupRow(d[i].0, d[i].1, repoId, env).Success?
    ensures TableRows(d, repoId, env).Success? ==>
      && |TableRows(d, repoId, env).value| == |d|
      && forall i :: 0 <= i < |d| ==> GroupRow(d[i].0, d[i].1, repoId, env) == Success(Some(TableRows(d, repoId, env).value[i]))
  {
    var f := RowFn(repoId, env);
    CollectSucceeds(d, f);
    if TableRows(d, repoId, env).Success? {
      forall k, g ensures f(k, g) != Success(None) {
        NoGroupSkipped(k, g, repoId, env);
      }
      CollectCount(d, f);
      forall i | 0 <= i < |d|
        ensures GroupRow(d[i].0, d[i].1, repoId, env) == Success(Some(TableRows(d, repoId, env).value[i]))
      {
        CollectAt(d, f, i);
      }
    }
  }

  /** A group's row carries that group's link and severity cell. */
  lemma RowFields(key: Key, g: Group, repoId: string, env: RenderEnv, row: Row)
    requires GroupRow(key, g, repoId, env) == Success(Some(row))
    ensures row.link == Link(repoId, key) && row.severity == SeverityCell(g.severity)
  {
  }

  /** The table has exactly one row per group, in dict order, and renders
      whenever no group raises; each row links to its own group and shows
      its own severity. */
  lemma OneRowPerGroup(d: Dict<Key, Group>, repoId: string, env: RenderEnv)
    ensures TableRows(d, repoId, env).Success? <==> forall i :: 0 <= i < |d| ==> GroupRow(d[i].0, d[i].1, repoId, env).Success?
    ensures TableRows(d, repoId, env).Success? ==>
      var rows := TableRows(d, repoId, env).value;
      && |rows| == |d|
      && forall i :: 0 <= i < |d| ==>
           && GroupRow(d[i].0, d[i].1, repoId, env) == Success(Some(rows[i]))
           && rows[i].link == Link(repoId, d[i].0)
           && rows[i].severity == SeverityCell(d[i].1.severity)
  {
    RowsOfGroups(d, repoId, env);
    if TableRows(d, repoId, env).Success? {
      var rows := TableRows(d, repoId, env).value;
      forall i | 0 <= i < |d|
        ensures rows[i].link == Link(repoId, d[i].0) && rows[i].severity == SeverityCell(d[i].1.severity)
      {
        RowFields(d[i].0, d[i].1, repoId, env, rows[i]);
      }
    }
  }

  /** Each row of a rendered table links to its own group and shows its own
      severity. */
  lemma RowCells(d: Dict<Key, Group>, repoId: string, env: RenderEnv)
    requires TableRows(d, repoId, env).Success?
    ensures |TableRows(d, repoId, env).value| == |d|
    ensures forall i :: 0 <= i < |d| ==>
      && TableRows(d, repoId, env).value[i].link == Link(repoId, d[i].0)
      && TableRows(d, repoId, env).value[i].severity == SeverityCell(d[i].1.severity)
  {
    OneRowPerGroup(d, repoId, env);
  }

  /** A high or critical group's severity cell is one of the two colours. */
  lemma HighOrCriticalCell(g: Group)
    requires IsHighOrCritical(g)
    ensures SeverityCell(g.severity) == CriticalCell || SeverityCell(g.severity) == HighCell
  {
  }

  /** Rows rendered from the fetch stage's dict are all coloured: only the
      critical and high literals appear in the severity column. */
  lemma FetchedRowsColoured(remote: ScanRemote, repoName: string, d: Dict<Key, Group>, repoId: string, env: RenderEnv)
    requires Fetched(remote, repoName, d, repoId)
    requires TableRows(d, repoId, env).Success?
    ensures forall row :: row in TableRows(d, repoId, env).value ==> row.severity == CriticalCell || row.severity == HighCell
  {
    RowCells(d, repoId, env);
    var rows := TableRows(d, repoId, env).value;
    forall row | row in rows
      ensures row.severity == CriticalCell || row.severity == HighCell
    {
      var i :| 0 <= i < |rows| && rows[i] == row;
      FetchedEntry(remote, repoName, d, repoId, d[i]);
      HighOrCriticalCell(d[i].1);
    }
  }

  /** The fragments of a file column, while the loop runs: no closer and no
      Dockerfile link yet, the opener only right after the third file link,
      and a package entry only when its name was not already in the text. */
  ghost predicate Layout(fs: seq<Fragment>, env: RenderEnv) {
    && DetailsCloser !in fs
    && DockerfileLink !in fs
    && OpenerPlaced(fs)
    && PackagesNew(fs, env)
  }

  /** Every opener sits right after the third file link. */
  ghost predicate OpenerPlaced(fs: seq<Fragment>) {
    fs != [] ==>
      && OpenerPlaced(fs[..|fs| - 1])
      && (fs[|fs| - 1] == MoreFilesOpener ==>
            |fs| >= 2 && fs[|fs| - 2].FileLink? && CountLinks(fs[..|fs| - 1]) == 3)
  }

  /** Every package entry names a package not in the text before it. */
  ghost predicate PackagesNew(fs: seq<Fragment>, env: RenderEnv) {
    fs != [] ==>
      && PackagesNew(fs[..|fs| - 1], env)
      && (fs[|fs| - 1].PackageEntry? ==>
            !IsSubstring(fs[|fs| - 1].name, RenderFragments(fs[..|fs| - 1], env)))
  }

  ghost predicate ScanInvariant(s: Scan, env: RenderEnv) {
    && s.fileCount == CountLinks(s.files)
    && Layout(s.files, env)
    && (MoreFilesOpener in s.files <==> s.fileCount >= 3)
  }

  lemma AppendKeepsLayout(fs: seq<Fragment>, x: Fragment, env: RenderEnv)
    requires Layout(fs, env)
    requires x != DetailsCloser && x != DockerfileLink
    requires x == MoreFilesOpener ==> fs != [] && fs[|fs| - 1].FileLink? && CountLinks(fs) == 3
    requires x.PackageEntry? ==> !IsSubstring(x.name, RenderFragments(fs, env))
    ensures Layout(fs + [x], env)
    ensures CountLinks(fs + [x]) == CountLinks(fs) + if x.FileLink? then 1 else 0
    ensures MoreFilesOpener in fs + [x] <==> MoreFilesOpener in fs || x == MoreFilesOpener
  {
    assert (fs + [x])[..|fs|] == fs;
    assert (fs + [x])[|fs|] == x;
  }

  /** A file link, with the opener after the third, keeps the invariant. */
  lemma FileStepKeepsInvariant(s: Scan, name: string, desc: Option<string>, env: RenderEnv)
    requires ScanInvariant(s, env)
    ensures ScanInvariant(Scan(desc, s.files + [FileLink(name)] + (if s.fileCount == 2 then [MoreFilesOpener] else []), s.fileCount + 1), env)
  {
    var link := FileLink(name);
    var fs1 := s.files + [link];
    AppendKeepsLayout(s.files, link, env);
    assert CountLinks(fs1) == s.fileCount + 1;
    assert MoreFilesOpener in fs1 <==> MoreFilesOpener in s.files;
    if s.fileCount == 2 {
      assert fs1[|fs1| - 1] == link;
      AppendKeepsLayout(fs1, MoreFilesOpener, env);
      assert MoreFilesOpener in fs1 + [MoreFilesOpener];
    } else {
      assert fs1 + [] == fs1;
    }
  }

  /** A package entry not yet in the text keeps the invariant. */
  lemma PackageStepKeepsInvariant(s: Scan, p: string, desc: Option<string>, env: RenderEnv)
    requires ScanInvariant(s, env)
    requires !IsSubstring(p, RenderFragments(s.files, env))
    ensures ScanInvariant(Scan(desc, s.files + [PackageEntry(p)], s.fileCount), env)
  {
    AppendKeepsLayout(s.files, PackageEntry(p), env);
  }

  lemma ScanOneKeepsInvariant(issue: Issue, s: Scan, env: RenderEnv)
    requires ScanInvariant(s, env)
    ensures ScanOne(issue, s, env).Continue? ==> ScanInvariant(ScanOne(issue, s, env).next, env)
    ensures ScanOne(issue, s, env).Stop? ==>
      var t := ScanOne(issue, s, env).last;
      t.files == s.files + [DockerfileLink] && t.fileCount == s.fileCount
  {
    var desc := if Blank(s.description) then PackageOf(issue) else s.description;
    var file := GetOr(issue.affectedFile, "");
    if Blank(file) {
      if GetOr(issue.attackSurface, "") != Some("docker_container") && GetOrNone(issue.affectedPackage).Some? {
        var p := GetOrNone(issue.affectedPackage).value;
        if !IsSubstring(p, RenderFragments(s.files, env)) {
          PackageStepKeepsInvariant(s, p, desc, env);
        } else {
          assert ScanOne(issue, s, env) == Continue(Scan(desc, s.files, s.fileCount));
        }
      }
    } else {
      FileStepKeepsInvariant(s, file.value, desc, env);
    }
  }

  /** The fragments before a final Dockerfile link. */
  function BeforeDockerfile(fs: seq<Fragment>): seq<Fragment> {
    if fs != [] && fs[|fs| - 1] == DockerfileLink then fs[..|fs| - 1] else fs
  }

  lemma {:induction false} ScanKeepsInvariant(issues: seq<Issue>, s: Scan, env: RenderEnv)
    requires ScanInvariant(s, env)
    requires ScanIssues(issues, s, env).Success?
    ensures var t := ScanIssues(issues, s, env).value;
      ScanInvariant(Scan(t.description, BeforeDockerfile(t.files), t.fileCount), env)
    decreases |issues|
  {
    if issues != [] {
      ScanOneKeepsInvariant(issues[0], s, env);
      match ScanOne(issues[0], s, env)
      case Stop(t) =>
        assert BeforeDockerfile(t.files) == s.files;
      case Continue(t) =>
        ScanKeepsInvariant(issues[1..], t, env);
    } else {
      assert DockerfileLink !in s.files;
      if s.files != [] {
        assert s.files[|s.files| - 1] in s.files;
      }
    }
  }

  /** The file column of a rendered group: the Dockerfile link can only come
      last before the closer; the "view more files" opener sits right after
      the third file link and is there exactly when there are at least three;
      the closer is there exactly when there are at least two; a package is
      listed only when its name is not already in the column's text. */
  lemma ColumnLayout(g: Group, s: Scan, env: RenderEnv)
    requires ScanIssues(IssuesOf(g), Scan(GetOr(g.description, ""), [], 0), env) == Success(s)
    ensures var body := BeforeDockerfile(s.files);
      && (s.files == body || s.files == body + [DockerfileLink])
      && Layout(body, env)
      && (MoreFilesOpener in Column(s) <==> CountLinks(s.files) >= 3)
      && (DetailsCloser in Column(s) <==> CountLinks(s.files) >= 2)
      && (DetailsCloser in Column(s) ==> Column(s)[|Column(s)| - 1] == DetailsCloser)
  {
    var s0 := Scan(GetOr(g.description, ""), [], 0);
    assert ScanInvariant(s0, env);
    ScanKeepsInvariant(IssuesOf(g), s0, env);
    var body := BeforeDockerfile(s.files);
    if s.files != [] && s.files[|s.files| - 1] == DockerfileLink {
      assert s.files == body + [DockerfileLink];
      assert CountLinks(s.files) == CountLinks(body);
    }
    if s.fileCount < 2 {
      assert Column(s) == s.files;
    }
  }

  /** A group with exactly two files gets a closing `</details>` but no
      opener: the closer is added from two files on, the opener from three. */
  lemma CloserWithoutOpener(g: Group, s: Scan, env: RenderEnv)
    requires ScanIssues(IssuesOf(g), Scan(GetOr(g.description, ""), [], 0), env) == Success(s)
    requires CountLinks(s.files) == 2
    ensures DetailsCloser in Column(s) && MoreFilesOpener !in Column(s)
  {
    ColumnLayout(g, s, env);
  }

  /** Such a group exists: two issues, each with its own file. */
  lemma TwoFileGroupExample(env: RenderEnv)
    ensures var issue1 := Issue(Str("a.py"), Absent, Absent);
      var issue2 := Issue(Str("b.py"), Absent, Absent);
      var g := Group(Str("1"), Str("sast"), Str("d"), Str("high"), Some([issue1, issue2]));
      var s := Scan(Some("d"), [FileLink("a.py"), FileLink("b.py")], 2);
      && ScanIssues(IssuesOf(g), Scan(GetOr(g.description, ""), [], 0), env) == Success(s)
      && Column(s) == [FileLink("a.py"), FileLink("b.py"), DetailsCloser]
  {
    var issue1 := Issue(Str("a.py"), Absent, Absent);
    var issue2 := Issue(Str("b.py"), Absent, Absent);
    var s1 := Scan(Some("d"), [FileLink("a.py")], 1);
    var s2 := Scan(Some("d"), [FileLink("a.py"), FileLink("b.py")], 2);
    assert ScanOne(issue1, Scan(Some("d"), [], 0), env) == Continue(s1);
    assert ScanOne(issue2, s1, env) == Continue(s2);
    assert [issue1, issue2][1..] == [issue2];
    assert [issue2][1..] == [];
    assert ScanIssues([], s2, env) == Success(s2);
    assert ScanIssues([issue2], s1, env) == Success(s2);
    assert ScanIssues([issue1, issue2], Scan(Some("d"), [], 0), env) == Success(s2);
  }

  /** The issues the loop reads: all of them, or up to and including the
      first file-less docker-container issue. */
  function Visited(issues: seq<Issue>): (n: nat)
    ensures n <= |issues|
  {
    if issues == [] then 0 else if StopsScan(issues[0]) then 1 else 1 + Visited(issues[1..])
  }

  /** A description that is set is kept. */
  lemma {:induction false} DescriptionKept(issues: seq<Issue>, s: Scan, env: RenderEnv)
    requires !Blank(s.description)
    requires ScanIssues(issues, s, env).Success?
    ensures ScanIssues(issues, s, env).value.description == s.description
    decreases |issues|
  {
    if issues != [] {
      match ScanOne(issues[0], s, env)
      case Stop(t) =>
      case Continue(t) =>
        DescriptionKept(issues[1..], t, env);
    }
  }

  /** A blank description is replaced by the first non-blank
      `affected_package` among the issues the loop reads. */
  lemma {:induction false} DescriptionFallback(issues: seq<Issue>, s: Scan, env: RenderEnv, j: nat)
    requires Blank(s.description)
    requires ScanIssues(issues, s, env).Success?
    requires j < Visited(issues)
    requires !Blank(PackageOf(issues[j]))
    requires forall m :: 0 <= m < j ==> Blank(PackageOf(issues[m]))
    ensures ScanIssues(issues, s, env).value.description == PackageOf(issues[j])
    decreases |issues|
  {
    match ScanOne(issues[0], s, env)
    case Stop(t) =>
    case Continue(t) =>
      if j == 0 {
        DescriptionKept(issues[1..], t, env);
      } else {
        assert forall m :: 0 <= m < j - 1 ==> issues[1..][m] == issues[m + 1];
        DescriptionFallback(issues[1..], t, env, j - 1);
      }
  }

  /** A file-less docker-container issue ends the loop: the issues after it
      change nothing. */
  lemma {:induction false} DockerStopsScan(pre: seq<Issue>, x: Issue, rest: seq<Issue>, s: Scan, env: RenderEnv)
    requires StopsScan(x)
    ensures ScanIssues(pre + [x] + rest, s, env) == ScanIssues(pre + [x], s, env)
    decreases |pre|
  {
    if pre == [] {
      assert ([x] + rest)[0] == x && [x][0] == x;
    } else {
      assert (pre + [x] + rest)[0] == pre[0] && (pre + [x])[0] == pre[0];
      assert (pre + [x] + rest)[1..] == pre[1..] + [x] + rest;
      assert (pre + [x])[1..] == pre[1..] + [x];
      match ScanOne(pre[0], s, env)
      case Raise(e) =>
      case Stop(t) =>
      case Continue(t) =>
        DockerStopsScan(pre[1..], x, rest, t, env);
    }
  }

  /** Every group of the dict is reported: its Aikido link is in the text. */
  lemma EveryGroupLinked(d: Dict<Key, Group>, repoId: string, env: RenderEnv, k: Key)
    requires TableText(d, repoId, env).Success?
    requires k in Keys(d)
    ensures IsSubstring(Link(repoId, k), TableText(d, repoId, env).value)
  {
    KeysAt(d);
    var i :| 0 <= i < |d| && Keys(d)[i] == k;
    RowCells(d, repoId, env);
    var rows := TableRows(d, repoId, env).value;
    RowInTable(rows, i, env);
    var text := RenderTable(rows, env);
    SubstringAfterPrefix(rows[i].link, ReportHead(|d|), text);
    SubstringOfLonger(rows[i].link, ReportHead(|d|) + text, "\n</details>");
  }

  /** A finding reaches the posted table: when the last group listed with
      id `k` is high or critical, the table rendered from the fetch stage's
      dict links to it. */
  lemma HighGroupReported(remote: ScanRemote, repoName: string, d: Dict<Key, Group>, repoId: string,
                          env: RenderEnv, k: Key)
    requires Fetched(remote, repoName, d, repoId)
    requires LastWithKey(remote.groupsReply.payload, k).Some?
    requires IsHighOrCritical(LastWithKey(remote.groupsReply.payload, k).value)
    requires TableText(d, repoId, env).Success?
    ensures k in Keys(d)
    ensures IsSubstring(Link(repoId, k), TableText(d, repoId, env).value)
  {
    assert Get(d, k).Some?;
    EveryGroupLinked(d, repoId, env, k);
  }

  /** The link of every row is in the rendered table. */
  lemma {:induction false} RowInTable(rows: seq<Row>, i: nat, env: RenderEnv)
    requires i < |rows|
    ensures IsSubstring(rows[i].link, RenderTable(rows, env))
    decreases |rows|
  {
    var init := rows[..|rows| - 1];
    var last := rows[|rows| - 1];
    if i == |rows| - 1 {
      var before := "|" + PyStr(last.description) + "|" + RenderFragments(last.files, env) + "|" + last.severity + "|";
      assert IsPrefix(last.link, last.link);
      SubstringAfterPrefix(last.link, before, last.link);
      SubstringOfLonger(last.link, before + last.link, "|\n");
      SubstringAfterPrefix(last.link, RenderTable(init, env), RenderRow(last, env));
    } else {
      RowInTable(init, i, env);
      assert init[i] == rows[i];
      SubstringOfLonger(rows[i].link, RenderTable(init, env), RenderRow(last, env));
    }
  }

  // ---------------------------------------------------------------------
  // generate_issue_table

  /** Why no table text came out: the fetch stage exited, or the renderer
      raised. */
  datatype IssueTableError = FetchFailed(fetch: FetchError) | RenderFailed(render: TableError)

  /** The fetch stage followed by the renderer. It exits exactly when one of
      the fetch stage's requests fails; otherwise the text or rendering
      exception is that of the dict and repository id `Fetched` describes
      (there is only one, by `FetchedUnique`). */
  method GenerateIssueTable(remote: ScanRemote, repoName: string, env: RenderEnv)
    returns (r: Result<string, IssueTableError>)
    ensures remote.tokenStatus != 200 ==> r == Failure(FetchFailed(TokenRejected))
    ensures (r.Failure? && r.error.FetchFailed?) <==> !FetchSucceeds(remote, repoName)
    ensures r.Success? ==>
      exists d, repoId :: Fetched(remote, repoName, d, repoId) && TableText(d, repoId, env) == Success(r.value)
    ensures r.Failure? && r.error.RenderFailed? ==>
      exists d, repoId :: Fetched(remote, repoName, d, repoId) && TableText(d, repoId, env) == Failure(r.error.render)
  {
    var fetched := GetHighAndCriticalIssues(remote, repoName);
    if fetched.Failure? {
      return Failure(FetchFailed(fetched.error));
    }
    var (highAndCritical, repoId) := fetched.value;
    var table := GenerateTable(highAndCritical, repoId, env);
    match table {
      case Success(text) => r := Success(text);
      case Failure(e) => r := Failure(RenderFailed(e));
    }
  }
}
