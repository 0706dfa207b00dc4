# Aikido merge-request commenter, modelled in Dafny

The bot runs in a GitLab CI pipeline for a merge request. It takes the
repository's open issues from the Aikido security platform, keeps the high
and critical issue groups, and renders them as a Markdown table. It then
posts the table as a note on the merge request. If the bot's note is
already there, it updates that note instead of adding another. The bot
recognises its own note by the marker text `Security tooling scan results`.

The model has six modules, one per file:

- `common.dfy` (`Common`): `Option`, `Result` and an HTTP `Reply` (status and
  decoded body). It also has the Python string operations the bot relies on:
  `in` on strings, f-string rendering of an optional value (`None` becomes
  `"None"`), `str(n)`, a one-character `replace`, and `title()` on ASCII.
- `dict.dfy` (`Dict`): Python's insertion-ordered `dict` as a sequence of
  (key, value) pairs. `Put` keeps an existing key in its place and appends a
  new key, as `d[k] = v` and `d.update({k: v})` do.
- `aikido.dfy` (`Aikido`): the fetch stage of `lib/aikido.py`. It covers the
  paginated repository listing (a method with a `while true` loop over a
  page source), the repository lookup, and the group-id list. It covers the
  per-group export collected into a dict, the merge of details onto groups
  (a method with the source's two loops), the severity filter, and the
  stage that chains them.
- `table.dfy` (`AikidoTable`): `generate_table` and `generate_issue_table`.
  The renderer is a method that builds the text the way the source does.
  Each row's file column is also described as a sequence of fragments (file
  link, "view more files" opener, Dockerfile link, package entry, closing
  `</details>`). The method is proved to produce exactly the rendering of
  that description. Lemmas state what the description looks like.
- `git.dfy` (`Git`): `lib/git.py`. The merge request's notes live in a
  `NoteStore` object. Its methods are the three GitLab notes endpoints,
  and each answers with a status given as input. The client functions are
  methods over that store. Their effect on the notes is tied to the
  function `Upserted`. Lemmas show that repeated runs leave exactly one
  marker note.
- `driver.dfy` (`CommentMr`): `main` of `aikido_comment_mr.py`. It covers
  the exit rules, the placeholder for a rendering exception, and the
  composed message, which always opens with the marker heading.

Three behaviours of the code are modelled as written:

- `LeakedSecretNeverMatches`: the `leaked_secret` skip never fires. The
  type is passed through `replace("_", " ")` and then `title()` before the
  comparison, so it cannot equal `"leaked_secret"`. Every group therefore
  gets a row.
- `CloserWithoutOpener` and `TwoFileGroupExample`: `</details>` is appended
  from two file links on, but the opener only appears after the third. A
  group with exactly two files gets an unmatched closer.
- The severity literals in `lib/aikido.py` are not raw strings. So `\t` in
  `\textcolor` and `\text` is a TAB character, and the constants
  `CriticalCell`, `HighCell` and `MediumCell` reproduce that.

Some docstrings promise other behaviour, and the model follows the code:

- `get_repo_id` raises when no repository matches (its docstring says it
  returns an empty string).
- `mr_already_has_note` uses the token after the first colon, not after a
  `Private_Token:` prefix.

## Model

| member | source | states |
|---|---|---|
| Common.ReplaceChar | lib/aikido.py:340 | `replace` of one character keeps the length, turns each occurrence of the replaced character into the replacement, keeps every other character, and so leaves no occurrence of the replaced character |
| Common.TitleFrom | lib/aikido.py:340 | `title()` keeps the length and changes no character into or out of `_` |
| Dict.Get | lib/aikido.py:252 | `d.get(k)` is absent exactly when `k` is not a key, and otherwise returns a value stored under `k` |
| Dict.Put | lib/aikido.py:248 | `d.update({k: v})` keeps the key order (a new key goes last), makes `k` map to `v`, leaves every other key's value alone, and keeps keys distinct |
| Aikido.StopPage | lib/aikido.py:117-119 | the last page requested is the first one that is not a full 200 page, and every page before it is full |
| Aikido.GetCodeRepositories | lib/aikido.py:102-120 | requests pages 0..k in order, where k is the first page that is short or fails; returns the concatenation of pages 0..k when page k is 200, and otherwise fails with page k's status |
| Aikido.GetRepoId | lib/aikido.py:134-138 | succeeds exactly when some repository name contains the project name; returns the id of the first such repository, with no earlier name containing it; otherwise raises |
| Aikido.GetIssueGroupIds | lib/aikido.py:169-174 | succeeds exactly when every group has an `id` key; then gives the ids in group order |
| Aikido.ExportIssueDetails | lib/aikido.py:224-237 | succeeds exactly when every id's export answers 200, and otherwise carries the failing status of some id; the dict's keys are the distinct ids in first-submission order, each mapped to its own exported list |
| Aikido.LastWithKey | lib/aikido.py:246-248 | the group a dict keyed by id keeps: the group at the last position holding that id, so a later duplicate overwrites an earlier one; there is one exactly when some group has that id |
| Aikido.Unmatched | lib/aikido.py:250-256 | the detail ids that match no group, and only those |
| Aikido.UnmatchedKeepsOrder | lib/aikido.py:250-256 | `Unmatched` distributes over concatenation, so the unmatched ids keep the order of `issue_details` |
| Aikido.MergeIssueDetailsWithIssueGroups | lib/aikido.py:244-261 | keys are the distinct group ids in list order, then the detail ids that match no group; each detail id maps to its group (or `{}`) with `issue_list` set to its list and its other fields unchanged; a group without details is the last group listed with its id, untouched |
| Aikido.FilterHighAndCritical | lib/aikido.py:277-282 | keeps exactly the entries whose severity is `high` or `critical`, with values unchanged |
| Aikido.FilterKeepsOrder | lib/aikido.py:277-282 | the filter distributes over concatenation, so kept entries stay in their original order |
| Aikido.FilterIdempotent | lib/aikido.py:277-282 | filtering twice equals filtering once |
| Aikido.FilterKeepsUniqueKeys | lib/aikido.py:277-282 | the filtered dict still has distinct keys |
| Aikido.FilterLookup | lib/aikido.py:277-282 | looking up a key in the filtered dict gives the original value when it is high or critical, and nothing otherwise |
| Aikido.NoCrossGroupLeakage | lib/aikido.py:244-256 | when details were fetched for the groups' own ids, every merged entry is keyed by a group id and carries the list exported for that id |
| Aikido.GetHighAndCriticalIssues | lib/aikido.py:285-326 | a refused token fails; the stage succeeds exactly when every request succeeds (token, each page up to the last, a matching repository, the group listing, an `id` on every group, every export); its result is then the `Fetched` dict and id: exactly the high and critical groups, the last one listed per id, in first-listed id order, each carrying its own exported issues, and the id of the first matching repository |
| Aikido.FetchedUnique | lib/aikido.py:285-326 | at most one dict and one repository id satisfy `Fetched`, so the stage's result is fully determined by the replies |
| Aikido.FetchedEntry | lib/aikido.py:244-282 | every entry of a fetched dict is high or critical, has the id of a listed group, and carries the issues exported for that id |
| Aikido.FilteredMerge | lib/aikido.py:244-282 | filtering the merge of details fetched for the groups' own ids keeps distinct keys, keeps exactly the ids whose last listed group is high or critical, in first-listed order, and maps each to that group carrying its own exported issues |
| Aikido.FilterKeys | lib/aikido.py:277-282 | on a dict whose entries have the severity of the last listed group with their id, the filter keeps the ids `KeptKeys` keeps, in order |
| AikidoTable.ScanGroupIssues | lib/aikido.py:348-370 | the per-group issue loop (with `break` and `continue`) yields the description, file-list text and file count of the fragment description, or the exception it raises |
| AikidoTable.RenderGroupRow | lib/aikido.py:336-388 | one pass of the group loop gives the rendered row of `GroupRow`, or its exception |
| AikidoTable.GenerateTable | lib/aikido.py:331-392 | an empty dict gives exactly the "No high or critical issues found" text; otherwise the header announces `len(dict)` issues and the table has the rendered rows in dict order, unless a group raises |
| AikidoTable.LeakedSecretNeverMatches | lib/aikido.py:340-342 | a type after `replace("_", " ")` and `title()` is never `"leaked_secret"` |
| AikidoTable.NoGroupSkipped | lib/aikido.py:340-342 | no group is ever skipped: a group either raises or yields a row |
| AikidoTable.OneRowPerGroup | lib/aikido.py:336-388 | rendering succeeds exactly when no group raises; then there is exactly one row per group, in dict order, each with its own group's link and severity cell |
| AikidoTable.EveryGroupLinked | lib/aikido.py:386-390 | every group's link `https://app.aikido.dev/repositories/<repo>?sidebarIssue=<id>` appears in the returned text |
| AikidoTable.FetchedRowsColoured | lib/aikido.py:378-384 | for a dict from the fetch stage, every severity cell is the critical or the high colour literal |
| AikidoTable.ColumnLayout | lib/aikido.py:353-373 | a Dockerfile link can only come last; the opener appears exactly when there are at least three file links, and only right after the third; `</details>` is appended exactly when there are at least two, at the end; a package is listed only when its name is not already a substring of the text before it |
| AikidoTable.CloserWithoutOpener | lib/aikido.py:368-373 | with exactly two file links the column has a closer but no opener |
| AikidoTable.TwoFileGroupExample | lib/aikido.py:366-373 | a group with two file-bearing issues renders two links followed by a lone `</details>` |
| AikidoTable.DescriptionKept | lib/aikido.py:338 | a description that is set is kept |
| AikidoTable.DescriptionFallback | lib/aikido.py:350-351 | a blank description becomes the first non-blank `affected_package` among the issues the loop reads |
| AikidoTable.DockerStopsScan | lib/aikido.py:355-358 | after a file-less `docker_container` issue, the remaining issues of the group change nothing |
| AikidoTable.GenerateIssueTable | lib/aikido.py:395-401 | the fetch exits exactly when one of its requests fails (a refused token in particular); otherwise the text or rendering exception is that of the one dict and repository id `Fetched` describes |
| AikidoTable.HighGroupReported | lib/aikido.py:277-401 | a high or critical group (the last one listed with its id) is in the fetched dict, and the rendered table links to it |
| Git.NormalizeToken | lib/git.py:34-35 | a token without `:` is unchanged; otherwise the result is the segment after the first colon, up to the next colon or the end, and has no colon |
| Git.NormalizeTokenIdempotent | lib/git.py:80-81 | normalising a normalised token changes nothing |
| Git.WithScheme | lib/git.py:40-41 | `https://` is prepended exactly when it occurs nowhere in the URL, so the result always contains it |
| Git.WithSchemeIdempotent | lib/git.py:40-41 | applying the rule twice equals applying it once |
| Git.FirstMarkerNote | lib/git.py:88-91 | returns the id of the first note, in list order, whose body contains the marker, and nothing exactly when no note does |
| Git.WithBody | lib/git.py:126-128 | the update replaces the body of the note with that id and changes no id and no other body |
| Git.NoteStore.List | lib/git.py:84 | a GET returns the notes on 200 and changes none of them |
| Git.NoteStore.Create | lib/git.py:45 | a POST answered 201 appends one new note with a fresh id; otherwise nothing changes |
| Git.NoteStore.Update | lib/git.py:128 | a PUT answered 200 replaces that note's body; otherwise nothing changes |
| Git.MrAlreadyHasNote | lib/git.py:53-94 | returns the first marker note's id when the listing is 200, and nothing (`False`) when the listing fails or no note matches; the GET uses the URL as given and the normalised token |
| Git.UpdateNote | lib/git.py:97-133 | the PUT goes to `.../notes/<id>` at the URL as given; returns the note on 200 and `None` otherwise |
| Git.AddNoteToMr | lib/git.py:25-50 | a truthy found id leads to an update of exactly that note and no creation, and returns `None`; otherwise one POST to the `https://`-prefixed URL, returning the note only on 201; the notes become `Upserted` |
| Git.FirstRunCreatesMarkerNote | lib/git.py:32-50 | with no marker note, a successful creation leaves exactly one marker note |
| Git.OneMarkerNoteStaysOne | lib/git.py:25-30 | with one marker note, a run whose listing and update succeed leaves one marker note, holding the new body, and no new note |
| Git.TwoRunsLeaveOneMarkerNote | lib/git.py:25-50 | from no marker note, two runs (create, then list and update) leave exactly one marker note, holding the latest body |
| Git.FailedListingDuplicates | lib/git.py:85-94 | a failed listing counts as "no note": with the bot's note present, a successful creation leaves two marker notes |
| CommentMr.UnsetNames | aikido_comment_mr.py:62-66 | the names of the options that are `None`, and only those |
| CommentMr.UnsetNamesKeepsOrder | aikido_comment_mr.py:62-66 | `UnsetNames` distributes over concatenation, so the names come in the order of the options |
| CommentMr.ReportMissing | aikido_comment_mr.py:62-68 | every unset option is reported, and `ex` is raised exactly when one is |
| CommentMr.BaseMessage | aikido_comment_mr.py:84 | the base message opens with `# Security tooling scan results` |
| CommentMr.ComposeMessage | aikido_comment_mr.py:84-85 | the message is the base message, `"\n\n"`, then the table, and it contains the marker the notes search looks for |
| CommentMr.RunCommenter | aikido_comment_mr.py:54-93 | no `mr_iid` exits 0 before anything else; any other unset option exits 1, with every unset option reported; an unset project name raises; a failed fetch exits before posting; with the options and the project name set, the note is posted exactly when every fetch request succeeds, with the table of the `Fetched` dict (or the placeholder on a rendering exception), and the notes become `Upserted` with that message; the exit code is 0 exactly when `mr_iid` is unset or every check and request up to the posting succeeded |
| CommentMr.RepeatedRunsLeaveOneNote | aikido_comment_mr.py:84-93 | whatever the tables, two runs from a merge request without the bot's note (create, then list and update) leave exactly one bot note, holding the second message |

## Left out

- HTTP: every request through `requests` is reduced to its status and decoded body, which are inputs. The repository pages are a finite sequence, and pages past its end answer as an empty 200 page.
- OAuth: the token exchange `get_oauth_token` is reduced to the status of its answer (`ScanRemote.tokenStatus`). The token itself is not modelled.
- Concurrency: the thread pool in `export_issue_details_wrapper` is modelled as its sequential result, one export per id collected in submission order.
- Aliasing: the merge mutates the group dicts it received in place (`issue_group.update`). The model builds new records, so the caller's list of groups is not shown to change.
- Files and logging: the debug writes to `merged_issue_group.py` and `issues.json`, and all `print` output, are left out. `ReportMissing` returns the names it would print.
- Environment and argparse: environment variables and argparse parsing are parameters (`Args`, `CiEnv`, `RenderEnv`). The unused `DISABLE_QUOTES` flag is left out. The option order follows argparse in Python 3.9 and later; earlier versions sort the names.
- Records are assumed well-formed: repositories have `id` and `name`, and notes have `id` and `body`. The `KeyError` a malformed record would raise is not modelled. Fields of issues and groups are modelled as missing, `null` or a string.
- Common.TitleFrom: `title()` is modelled on ASCII letters only. Its only use is the `leaked_secret` test, and the property used (no `_` appears) holds for every character.
- The dead `affected_files` list in `generate_table` has no effect on the output and is left out.
- Notes listing order: `Git.NoteStore.List` returns the notes in creation order, oldest first. GitLab lists a merge request's notes newest first by default. With two bot notes, the program would update the newer one and the model updates the older one. The properties proved start from at most one bot note and do not depend on this.
- GitLab paginates the notes listing. The model takes the first answer as the whole list, as the code does.
- Git.NoteStore.Update: when the id matches no note, a 200 answer changes nothing. The real server would answer 404.
