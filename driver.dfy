/** The entry point of aikido_comment_mr.py: the argument checks, the table
    with its placeholder, the composed message and the call that posts it.
    The values argparse and the environment supply are parameters, and so
    are the answers of the scan provider and of GitLab. */
module CommentMr {
  import opened Common
  import opened Aikido
  import opened AikidoTable
  import opened Git

  /** The parsed command line, each option defaulting to its CI variable:
      `--gitlab-url`, `--gitlab-token`, `--repo-id` and `--mr-iid`. */
  datatype Args = Args(gitlabUrl: Option<string>, gitlabToken: Option<string>, repoId: Option<int>, mrIid: Option<int>)

  /** The CI variables the script and lib/aikido.py read. */
  datatype CiEnv = CiEnv(projectUrl: Option<string>, branch: Option<string>, pipelineId: Option<string>,
                         pipelineUrl: Option<string>, commitSha: Option<string>, projectName: Option<string>)

  /** How a run ends. */
  datatype Outcome =
    | NotInMergeRequest
    | MissingArguments(names: seq<string>)
    | ProjectNameUnset
    | FetchExited(error: FetchError)
    | Posted(table: Result<string, TableError>, message: string, note: Option<Note>)

  function ExitCode(o: Outcome): int {
    match o
    case NotInMergeRequest => 0
    case Posted(_, _, _) => 0
    case _ => 1
  }

  /** The parsed options as `args._get_kwargs()` lists them, in the order
      they were added, each with whether it is set. */
  function ArgList(args: Args): seq<(string, bool)> {
    [("gitlab_url", args.gitlabUrl.Some?), ("gitlab_token", args.gitlabToken.Some?),
     ("repo_id", args.repoId.Some?), ("mr_iid", args.mrIid.Some?)]
  }

  /** The names of the options that are not set, in order. */
  function UnsetNames(kw: seq<(string, bool)>): (names: seq<string>)
    ensures |names| <= |kw|
    ensures forall n :: n in names <==> exists i :: 0 <= i < |kw| && kw[i] == (n, false)
  {
    if kw == [] then []
    else
      var p := UnsetNames(kw[..|kw| - 1]);
      assert forall i :: 0 <= i < |kw| - 1 ==> kw[..|kw| - 1][i] == kw[i];
      if kw[|kw| - 1].1 then p else p + [kw[|kw| - 1].0]
  }

  /** `UnsetNames` distributes over concatenation: the names come in the
      order of the options. */
  lemma {:induction false} UnsetNamesKeepsOrder(a: seq<(string, bool)>, b: seq<(string, bool)>)
    ensures UnsetNames(a + b) == UnsetNames(a) + UnsetNames(b)
    decreases |b|
  {
    if b == [] {
      assert a + b == a;
    } else {
      var b0, x := b[..|b| - 1], b[|b| - 1];
      assert b == b0 + [x];
      assert a + b == (a + b0) + [x];
      assert (a + b)[..|a + b| - 1] == a + b0;
      UnsetNamesKeepsOrder(a, b0);
    }
  }

  /** The `ex` loop of `main`: every unset option is reported, and `ex` is
      raised when there is at least one. */
  method ReportMissing(kw: seq<(string, bool)>) returns (ex: bool, missing: seq<string>)
    ensures missing == UnsetNames(kw)
    ensures ex <==> exists i :: 0 <= i < |kw| && !kw[i].1
    ensures ex <==> missing != []
  {
    ex := false;
    missing := [];
    for i := 0 to |kw|
      invariant missing == UnsetNames(kw[..i])
      invariant ex <==> exists j :: 0 <= j < i && !kw[j].1
      invariant ex <==> missing != []
    {
      assert kw[..i + 1][..i] == kw[..i];
      if !kw[i].1 {
        missing := missing + [kw[i].0];
        ex := true;
      }
    }
    assert kw[..|kw|] == kw;
  }

  /** What is posted when `generate_issue_table` raises. */
  const Placeholder := "\nFailed to generate Aikido table\n"

  /** The heading and the pipeline table. The heading's text is the marker
      the notes search looks for. */
  function BaseMessage(ci: CiEnv): (m: string)
    ensures IsPrefix("# " + Marker, m)
  {
    var head := "# " + Marker + "\n\n|   |   |\n|---|---|\n|Pipeline ID|[";
    assert IsPrefix("# " + Marker, "# " + Marker);
    PrefixOfLonger("# " + Marker, "# " + Marker, "\n\n|   |   |\n|---|---|\n|Pipeline ID|[");
    var m1 := head + PyStr(ci.pipelineId);
    PrefixOfLonger("# " + Marker, head, PyStr(ci.pipelineId));
    var m2 := m1 + "](";
    PrefixOfLonger("# " + Marker, m1, "](");
    var m3 := m2 + PyStr(ci.pipelineUrl);
    PrefixOfLonger("# " + Marker, m2, PyStr(ci.pipelineUrl));
    var m4 := m3 + ")|\n|Commit sha1|";
    PrefixOfLonger("# " + Marker, m3, ")|\n|Commit sha1|");
    var m5 := m4 + PyStr(ci.commitSha);
    PrefixOfLonger("# " + Marker, m4, PyStr(ci.commitSha));
    PrefixOfLonger("# " + Marker, m5, "|\n\n");
    m5 + "|\n\n"
  }

  /** The posted message. It opens with the heading the notes search looks
      for, so the next run finds it. */
  function ComposeMessage(ci: CiEnv, table: string): (m: string)
    ensures IsPrefix("# " + Marker, m)
    ensures IsSubstring(Marker, m)
    ensures |m| == |BaseMessage(ci)| + 2 + |table|
    ensures m[|m| - |table|..] == table
  {
    var base := BaseMessage(ci);
    PrefixOfLonger("# " + Marker, base, "\n\n");
    PrefixOfLonger("# " + Marker, base + "\n\n", table);
    var m := base + "\n\n" + table;
    assert m[2..][..|Marker|] == m[..|"# " + Marker|][2..] == Marker;
    assert IsSubstring(Marker, m[1..]);
    m
  }

  /** The renderer's view of the CI variables: their f-string text. */
  function RenderEnvOf(ci: CiEnv): RenderEnv {
    RenderEnv(PyStr(ci.projectUrl), PyStr(ci.branch))
  }

  /** `main`: the exit rules, then the table (or the placeholder when the
      renderer raises), then one create-or-update of the merge-request
      note. A failed fetch ends the run before anything is posted. */
  method RunCommenter(args: Args, ci: CiEnv, remote: ScanRemote, store: NoteStore, replies: GitReplies)
    returns (o: Outcome)
    requires store.Valid()
    modifies store
    ensures store.Valid()
    ensures args.mrIid.None? ==> o == NotInMergeRequest
    ensures args.mrIid.Some? ==>
      (o.MissingArguments? <==> UnsetNames(ArgList(args)) != []) && (o.MissingArguments? ==> o.names == UnsetNames(ArgList(args)))
    ensures args.mrIid.Some? && UnsetNames(ArgList(args)) == [] && ci.projectName.None? ==> o == ProjectNameUnset
    ensures args.mrIid.Some? && UnsetNames(ArgList(args)) == [] && ci.projectName.Some? && remote.tokenStatus != 200 ==>
      o == FetchExited(TokenRejected)
    ensures args.mrIid.Some? && UnsetNames(ArgList(args)) == [] && ci.projectName.Some? ==>
      (o.Posted? <==> FetchSucceeds(remote, ci.projectName.value))
    ensures ExitCode(o) == 0 <==>
      args.mrIid.None? || (UnsetNames(ArgList(args)) == [] && ci.projectName.Some? && FetchSucceeds(remote, ci.projectName.value))
    ensures !o.Posted? ==> store.notes == old(store.notes) && store.requests == old(store.requests)
    ensures o.Posted? ==>
      && args.mrIid.Some? && args.gitlabUrl.Some? && args.gitlabToken.Some? && args.repoId.Some? && ci.projectName.Some?
      && (exists d, repoId :: Fetched(remote, ci.projectName.value, d, repoId) && TableText(d, repoId, RenderEnvOf(ci)) == o.table)
      && o.message == ComposeMessage(ci, if o.table.Success? then o.table.value else Placeholder)
      && store.notes == Upserted(old(store.notes), old(store.nextId), o.message, replies)
      && store.requests == old(store.requests)
           + UpsertRequests(old(store.notes), args.gitlabUrl.value, args.gitlabToken.value,
                            Decimal(args.repoId.value), Decimal(args.mrIid.value), o.message, replies)
  {
    if args.mrIid.None? {
      return NotInMergeRequest;
    }
    var ex, missing := ReportMissing(ArgList(args));
    if ex {
      return MissingArguments(missing);
    }
    assert ArgList(args)[0].1 && ArgList(args)[1].1 && ArgList(args)[2].1;
    var gitlabUrl, gitlabToken, repoId := args.gitlabUrl.value, args.gitlabToken.value, args.repoId.value;
    var repoName := ci.projectName;
    if repoName.None? {
      return ProjectNameUnset;
    }
    var generated := GenerateIssueTable(remote, repoName.value, RenderEnvOf(ci));
    var table: Result<string, TableError>;
    match generated {
      case Failure(FetchFailed(e)) =>
        return FetchExited(e);
      case Failure(RenderFailed(e)) =>
        table := Failure(e);
      case Success(text) =>
        table := Success(text);
    }
    var aikidoTable: string;
    if table.Success? {
      aikidoTable := table.value;
    } else {
      aikidoTable := Placeholder;
    }
    var message := ComposeMessage(ci, aikidoTable);
    var note := AddNoteToMr(store, gitlabUrl, gitlabToken, Decimal(repoId), Decimal(args.mrIid.value), message, replies);
    return Posted(table, message, note);
  }

  /** Two runs on a merge request without the bot's note, the first creating
      it and the second listing and updating successfully, leave exactly one
      note of the bot's, holding the second run's message, whatever the two
      tables are. */
  lemma RepeatedRunsLeaveOneNote(notes: seq<Note>, nextId: int, ci1: CiEnv, table1: string, ci2: CiEnv, table2: string,
                                 replies1: GitReplies, replies2: GitReplies)
    requires IdsBelow(notes, nextId)
    requires MarkerCount(notes) == 0
    requires replies1.postStatus == 201
    requires replies2.getStatus == 200 && replies2.putStatus == 200
    ensures var m1 := ComposeMessage(ci1, table1);
      var m2 := ComposeMessage(ci2, table2);
      var after := Upserted(Upserted(notes, nextId, m1, replies1), nextId + 1, m2, replies2);
      && MarkerCount(after) == 1
      && forall k :: 0 <= k < |after| && IsMarkerNote(after[k]) ==> after[k].body == m2
  {
    TwoRunsLeaveOneMarkerNote(notes, nextId, ComposeMessage(ci1, table1), ComposeMessage(ci2, table2), replies1, replies2);
  }
}
