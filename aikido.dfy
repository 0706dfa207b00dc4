/** The scan-provider side of the commenter (lib/aikido.py up to the table
    renderer): repository pagination and lookup, the issue-detail fan-out,
    merging details onto issue groups, and the high/critical filter.
    Every HTTP reply is an input; the OAuth exchange is reduced to the
    status it answered with. */
module Aikido {
  import opened Common
  import opened Dict

  /** A string-valued JSON field of a record: missing, `null`, or a string. */
  datatype Field = Absent | Null | Str(s: string)

  /** `record.get(name, default)`. */
  function GetOr(f: Field, default: string): Option<string> {
    match f
    case Absent => Some(default)
    case Null => None
    case Str(s) => Some(s)
  }

  /** `record.get(name)`. */
  function GetOrNone(f: Field): Option<string> {
    match f
    case Str(s) => Some(s)
    case _ => None
  }

  /** `v == "" or v == None`. */
  predicate Blank(v: Option<string>) {
    v == None || v == Some("")
  }

  /** One concrete finding, with the fields the renderer reads. */
  datatype Issue = Issue(affectedFile: Field, affectedPackage: Field, attackSurface: Field)

  /** An issue group record. `issueList` is the `issue_list` key attached
      by the merge step (None while it is missing). */
  datatype Group = Group(id: Field, kind: Field, description: Field, severity: Field,
                         issueList: Option<seq<Issue>>)

  /** The `{}` that `dict.get(id, {})` falls back on. */
  const EmptyGroup := Group(Absent, Absent, Absent, Absent, None)

  /** A dict key holding a group id: the id's text, or Python's None. */
  type Key = Option<string>

  /** `group.get("id")`. */
  function KeyOf(g: Group): Key {
    GetOrNone(g.id)
  }

  datatype Repo = Repo(id: string, name: string)

  datatype FetchError =
    | TokenRejected
    | RepositoriesFailed(status: int)
    | RepoNotFound
    | IssueGroupsFailed(status: int)
    | MissingGroupId
    | ExportFailed(status: int)

  // ---------------------------------------------------------------------
  // Repository listing (get_code_repositories)

  const ResultsPerPage := 10

  /** The reply to the request for page `n`; a listing answers past its last
      page with an empty page. */
  function Page(pages: seq<Reply<seq<Repo>>>, n: nat): Reply<seq<Repo>> {
    if n < |pages| then pages[n] else Reply(200, [])
  }

  /** A reply after which the loop asks for the next page. */
  predicate Continues(r: Reply<seq<Repo>>) {
    r.status == 200 && |r.payload| >= ResultsPerPage
  }

  /** The first page, from `from` on, after which no further page is requested. */
  function StopPage(pages: seq<Reply<seq<Repo>>>, from: nat): (k: nat)
    ensures from <= k
    ensures !Continues(Page(pages, k))
    ensures forall i :: from <= i < k ==> Continues(Page(pages, i))
    decreases |pages| - from
  {
    if Continues(Page(pages, from)) then StopPage(pages, from + 1) else from
  }

  /** The items of pages 0 .. n-1, concatenated in page order. */
  function PagesUpTo(pages: seq<Reply<seq<Repo>>>, n: nat): seq<Repo> {
    if n == 0 then [] else PagesUpTo(pages, n - 1) + Page(pages, n - 1).payload
  }

  /** The pagination loop. `fetched` is the number of page requests made:
      pages 0 .. fetched-1, in order. */
  method GetCodeRepositories(pages: seq<Reply<seq<Repo>>>)
    returns (r: Result<seq<Repo>, FetchError>, fetched: nat)
    ensures fetched == StopPage(pages, 0) + 1
    ensures forall i :: 0 <= i < fetched - 1 ==> Page(pages, i).status == 200 && |Page(pages, i).payload| >= ResultsPerPage
    ensures Page(pages, fetched - 1).status == 200 ==> r == Success(PagesUpTo(pages, fetched))
    ensures Page(pages, fetched - 1).status != 200 ==> r == Failure(RepositoriesFailed(Page(pages, fetched - 1).status))
  {
    var page := 0;
    var repos := [];
    while true
      invariant forall i :: 0 <= i < page ==> Continues(Page(pages, i))
      invariant repos == PagesUpTo(pages, page)
      decreases |pages| - page
    {
      var response := Page(pages, page);
      if response.status == 200 {
        repos := repos + response.payload;
      } else {
        return Failure(RepositoriesFailed(response.status)), page + 1;
      }
      if |response.payload| < ResultsPerPage {
        break;
      }
      page := page + 1;
    }
    return Success(repos), page + 1;
  }

  // ---------------------------------------------------------------------
  // Repository lookup (get_repo_id)

  /** The id of the first repository whose name contains `repoName`. */
  function GetRepoId(repos: seq<Repo>, repoName: string): (r: Result<string, FetchError>)
    ensures r.Success? <==> exists i :: 0 <= i < |repos| && IsSubstring(repoName, repos[i].name)
    ensures r.Failure? ==> r.error == RepoNotFound
    ensures r.Success? ==>
      exists i :: 0 <= i < |repos| && IsSubstring(repoName, repos[i].name) && r.value == repos[i].id &&
        forall j :: 0 <= j < i ==> !IsSubstring(repoName, repos[j].name)
  {
    if repos == [] then Failure(RepoNotFound)
    else if IsSubstring(repoName, repos[0].name) then Success(repos[0].id)
    else
      var r := GetRepoId(repos[1..], repoName);
      assert forall i :: 1 <= i < |repos| ==> repos[i] == repos[1..][i - 1];
      r
  }

  // ---------------------------------------------------------------------
  // Issue groups and their details

  /** `[group["id"] for group in groups]`: a group without an `id` key raises. */
  function GetIssueGroupIds(groups: seq<Group>): (r: Result<seq<Key>, FetchError>)
    ensures r.Success? <==> forall i :: 0 <= i < |groups| ==> groups[i].id != Absent
    ensures r.Success? ==> |r.value| == |groups| && forall i :: 0 <= i < |groups| ==> r.value[i] == KeyOf(groups[i])
  {
    if groups == [] then Success([])
    else if groups[0].id == Absent then Failure(MissingGroupId)
    else match GetIssueGroupIds(groups[1..])
      case Failure(e) => Failure(e)
      case Success(ids) => Success([KeyOf(groups[0])] + ids)
  }

  /** The fan-out of export_issue_details_wrapper, one request per id, with
      the results collected into a dict in submission order. `reply(k)` is
      the export endpoint's answer for group id `k`. */
  method ExportIssueDetails(ids: seq<Key>, reply: Key -> Reply<seq<Issue>>)
    returns (r: Result<Dict<Key, seq<Issue>>, FetchError>)
    ensures r.Success? <==> forall k :: k in ids ==> reply(k).status == 200
    ensures r.Failure? ==> exists k :: k in ids && r.error == ExportFailed(reply(k).status) && reply(k).status != 200
    ensures r.Success? ==> UniqueKeys(r.value) && Keys(r.value) == Dedup(ids)
    ensures r.Success? ==> forall k :: Get(r.value, k) == if k in ids then Some(reply(k).payload) else None
  {
    var results: Dict<Key, seq<Issue>> := [];
    var i := 0;
    while i < |ids|
      invariant 0 <= i <= |ids|
      invariant forall k :: k in ids[..i] ==> reply(k).status == 200
      invariant UniqueKeys(results) && Keys(results) == Dedup(ids[..i])
      invariant forall k :: Get(results, k) == if k in ids[..i] then Some(reply(k).payload) else None
    {
      var response := reply(ids[i]);
      if response.status != 200 {
        r := Failure(ExportFailed(response.status));
        assert ids[i] in ids && r.error == ExportFailed(reply(ids[i]).status) && reply(ids[i]).status != 200;
        return;
      }
      ExportStep(results, ids, i, reply);
      results := Put(results, ids[i], response.payload);
      i := i + 1;
    }
    assert ids[..i] == ids;
    return Success(results);
  }

  /** Storing the answer for `ids[i]` extends the dict from `ids[..i]` to
      `ids[..i + 1]`. */
  lemma ExportStep(results: Dict<Key, seq<Issue>>, ids: seq<Key>, i: nat, reply: Key -> Reply<seq<Issue>>)
    requires i < |ids|
    requires UniqueKeys(results) && Keys(results) == Dedup(ids[..i])
    requires forall k :: Get(results, k) == if k in ids[..i] then Some(reply(k).payload) else None
    ensures var next := Put(results, ids[i], reply(ids[i]).payload);
      && UniqueKeys(next) && Keys(next) == Dedup(ids[..i + 1])
      && forall k :: Get(next, k) == if k in ids[..i + 1] then Some(reply(k).payload) else None
  {
    assert ids[..i + 1] == ids[..i] + [ids[i]];
    PutKeepsDedupKeys(results, ids[..i], ids[i], reply(ids[i]).payload);
  }

  // ---------------------------------------------------------------------
  // Merging details onto groups (merge_issue_details_with_issue_groups)

  function GroupKeys(groups: seq<Group>): (ks: seq<Key>)
    ensures |ks| == |groups|
    ensures forall i :: 0 <= i < |groups| ==> ks[i] == KeyOf(groups[i])
  {
    if groups == [] then [] else GroupKeys(groups[..|groups| - 1]) + [KeyOf(groups[|groups| - 1])]
  }

  /** The last group in the list with id `k`: the one a dict keyed by id keeps. */
  function LastWithKey(groups: seq<Group>, k: Key): (r: Option<Group>)
    ensures r.None? <==> k !in GroupKeys(groups)
    ensures r.Some? ==> r.value in groups && KeyOf(r.value) == k
    ensures forall i :: 0 <= i < |groups| && KeyOf(groups[i]) == k && (forall j :: i < j < |groups| ==> KeyOf(groups[j]) != k) ==>
              r == Some(groups[i])
  {
    if groups == [] then None
    else if KeyOf(groups[|groups| - 1]) == k then Some(groups[|groups| - 1])
    else LastWithKey(groups[..|groups| - 1], k)
  }

  /** The keys of `ks`, in order, that are not in `known`. */
  function Unmatched(ks: seq<Key>, known: seq<Key>): (r: seq<Key>)
    ensures forall k :: k in r <==> k in ks && k !in known
  {
    if ks == [] then []
    else Unmatched(ks[..|ks| - 1], known) + (if ks[|ks| - 1] in known then [] else [ks[|ks| - 1]])
  }

  /** `group.update({"issue_list": issues})`. */
  function Attach(g: Group, issues: seq<Issue>): Group {
    g.(issueList := Some(issues))
  }

  /** What the merged dict holds under `k`. */
  function MergedAt(groups: seq<Group>, details: Dict<Key, seq<Issue>>, k: Key): Option<Group> {
    match Get(details, k)
    case Some(issues) =>
      var base := if LastWithKey(groups, k).Some? then LastWithKey(groups, k).value else EmptyGroup;
      Some(Attach(base, issues))
    case None => LastWithKey(groups, k)
  }

  method MergeIssueDetailsWithIssueGroups(groups: seq<Group>, details: Dict<Key, seq<Issue>>)
    returns (merged: Dict<Key, Group>)
    requires UniqueKeys(details)
    ensures UniqueKeys(merged)
    ensures Keys(merged) == Dedup(GroupKeys(groups)) + Unmatched(Keys(details), GroupKeys(groups))
    ensures forall k :: Get(merged, k) == MergedAt(groups, details, k)
  {
    var byId: Dict<Key, Group> := [];
    var i := 0;
    while i < |groups|
      invariant 0 <= i <= |groups|
      invariant IndexedBy(byId, groups[..i])
    {
      IndexStep(byId, groups, i);
      byId := Put(byId, KeyOf(groups[i]), groups[i]);
      i := i + 1;
    }
    assert groups[..i] == groups;
    var j := 0;
    while j < |details|
      invariant 0 <= j <= |details|
      invariant MergedBy(byId, groups, details[..j])
    {
      var (id, issues) := details[j];
      AttachStep(byId, groups, details, j);
      var group := GroupOrEmpty(byId, id);
      byId := Put(byId, id, Attach(group, issues));
      j := j + 1;
    }
    assert details[..j] == details;
    merged := byId;
  }

  /** `byId` is the dict `{g.get("id"): g for g in groups}` built by the first loop. */
  ghost predicate IndexedBy(byId: Dict<Key, Group>, groups: seq<Group>) {
    && UniqueKeys(byId)
    && Keys(byId) == Dedup(GroupKeys(groups))
    && forall k :: Get(byId, k) == LastWithKey(groups, k)
  }

  /** `byId` is the dict after the details `done` have been attached. */
  ghost predicate MergedBy(byId: Dict<Key, Group>, groups: seq<Group>, done: Dict<Key, seq<Issue>>) {
    && UniqueKeys(byId)
    && Keys(byId) == Dedup(GroupKeys(groups)) + Unmatched(Keys(done), GroupKeys(groups))
    && forall k :: Get(byId, k) == MergedAt(groups, done, k)
  }

  lemma IndexStep(byId: Dict<Key, Group>, groups: seq<Group>, i: nat)
    requires i < |groups| && IndexedBy(byId, groups[..i])
    ensures IndexedBy(Put(byId, KeyOf(groups[i]), groups[i]), groups[..i + 1])
  {
    assert groups[..i + 1][..i] == groups[..i];
    PutKeepsDedupKeys(byId, GroupKeys(groups[..i]), KeyOf(groups[i]), groups[i]);
  }

  lemma AttachStep(byId: Dict<Key, Group>, groups: seq<Group>, details: Dict<Key, seq<Issue>>, j: nat)
    requires UniqueKeys(details)
    requires j < |details| && MergedBy(byId, groups, details[..j])
    ensures MergedBy(Put(byId, details[j].0, Attach(GroupOrEmpty(byId, details[j].0), details[j].1)),
                     groups, details[..j + 1])
  {
    var done, e := details[..j], details[j];
    assert details[..j + 1] == done + [e];
    assert e.0 !in Keys(done) by {
      KeysAt(done);
      assert forall m :: 0 <= m < j ==> details[m].0 != e.0;
    }
    AttachKeys(byId, groups, done, e, Attach(GroupOrEmpty(byId, e.0), e.1));
    AttachValues(byId, groups, done, e);
  }

  lemma AttachKeys(byId: Dict<Key, Group>, groups: seq<Group>, done: Dict<Key, seq<Issue>>, e: (Key, seq<Issue>), v: Group)
    requires e.0 !in Keys(done)
    requires Keys(byId) == Dedup(GroupKeys(groups)) + Unmatched(Keys(done), GroupKeys(groups))
    ensures Keys(Put(byId, e.0, v)) == Dedup(GroupKeys(groups)) + Unmatched(Keys(done + [e]), GroupKeys(groups))
  {
    var gk, ks := GroupKeys(groups), Keys(done);
    KeysAppend(done, e);
    MembershipOfKeys(Dedup(gk), Unmatched(ks, gk), e.0, gk, ks);
    if e.0 in gk {
      KnownKeyKeepsKeys(byId, gk, ks, e.0, v);
    } else {
      NewKeyAppends(byId, gk, ks, e.0, v);
    }
  }

  /** A detail id of a known group: the keys stay as they are. */
  lemma KnownKeyKeepsKeys(byId: Dict<Key, Group>, gk: seq<Key>, ks: seq<Key>, x: Key, v: Group)
    requires x in gk && x in Keys(byId)
    requires Keys(byId) == Dedup(gk) + Unmatched(ks, gk)
    ensures Keys(Put(byId, x, v)) == Dedup(gk) + Unmatched(ks + [x], gk)
  {
    UnmatchedSnoc(ks, x, gk);
  }

  /** A detail id of no group: it goes to the end of the keys. */
  lemma NewKeyAppends(byId: Dict<Key, Group>, gk: seq<Key>, ks: seq<Key>, x: Key, v: Group)
    requires x !in gk && x !in Keys(byId)
    requires Keys(byId) == Dedup(gk) + Unmatched(ks, gk)
    ensures Keys(Put(byId, x, v)) == Dedup(gk) + Unmatched(ks + [x], gk)
  {
    UnmatchedSnoc(ks, x, gk);
    assert Dedup(gk) + (Unmatched(ks, gk) + [x]) == (Dedup(gk) + Unmatched(ks, gk)) + [x];
  }

  lemma UnmatchedSnoc(ks: seq<Key>, x: Key, known: seq<Key>)
    ensures Unmatched(ks + [x], known) == Unmatched(ks, known) + (if x in known then [] else [x])
  {
    assert (ks + [x])[..|ks|] == ks;
  }

  /** `Unmatched` distributes over concatenation: it keeps the keys in the
      order they come in. */
  lemma {:induction false} UnmatchedKeepsOrder(a: seq<Key>, b: seq<Key>, known: seq<Key>)
    ensures Unmatched(a + b, known) == Unmatched(a, known) + Unmatched(b, known)
    decreases |b|
  {
    if b == [] {
      assert a + b == a;
    } else {
      var b0, x := b[..|b| - 1], b[|b| - 1];
      var t := if x in known then [] else [x];
      calc {
        Unmatched(a + b, known);
        { assert a + b == (a + b0) + [x]; UnmatchedSnoc(a + b0, x, known); }
        Unmatched(a + b0, known) + t;
        { UnmatchedKeepsOrder(a, b0, known); }
        (Unmatched(a, known) + Unmatched(b0, known)) + t;
        Unmatched(a, known) + (Unmatched(b0, known) + t);
        { assert b0 + [x] == b; UnmatchedSnoc(b0, x, known); }
        Unmatched(a, known) + Unmatched(b, known);
      }
    }
  }

  lemma MembershipOfKeys(d: seq<Key>, u: seq<Key>, x: Key, gk: seq<Key>, ks: seq<Key>)
    requires d == Dedup(gk) && u == Unmatched(ks, gk) && x !in ks
    ensures x in d + u <==> x in gk
  {
  }

  lemma AttachValues(byId: Dict<Key, Group>, groups: seq<Group>, done: Dict<Key, seq<Issue>>, e: (Key, seq<Issue>))
    requires e.0 !in Keys(done)
    requires forall k :: Get(byId, k) == MergedAt(groups, done, k)
    ensures forall k :: Get(Put(byId, e.0, Attach(GroupOrEmpty(byId, e.0), e.1)), k) == MergedAt(groups, done + [e], k)
  {
    forall k ensures MergedAt(groups, done + [e], k) ==
                     if k == e.0 then Some(Attach(GroupOrEmpty(byId, e.0), e.1)) else MergedAt(groups, done, k)
    {
      GetAppend(done, e, k);
    }
  }

  /** `d.get(k, {})` on the dict being merged into. */
  function GroupOrEmpty(d: Dict<Key, Group>, k: Key): Group {
    match Get(d, k)
    case Some(g) => g
    case None => EmptyGroup
  }

  // ---------------------------------------------------------------------
  // The severity filter (filter_high_and_critical)

  predicate IsHighOrCritical(g: Group) {
    GetOrNone(g.severity) == Some("high") || GetOrNone(g.severity) == Some("critical")
  }

  function FilterHighAndCritical(d: Dict<Key, Group>): (r: Dict<Key, Group>)
    ensures forall e :: e in r <==> e in d && IsHighOrCritical(e.1)
    ensures |r| <= |d|
  {
    if d == [] then []
    else (if IsHighOrCritical(d[0].1) then [d[0]] else []) + FilterHighAndCritical(d[1..])
  }

  /** The filter distributes over concatenation: it keeps entries in their
      original order. */
  lemma {:induction false} FilterKeepsOrder(a: Dict<Key, Group>, b: Dict<Key, Group>)
    ensures FilterHighAndCritical(a + b) == FilterHighAndCritical(a) + FilterHighAndCritical(b)
    decreases |a|
  {
    if a == [] {
      assert a + b == b;
    } else {
      var head := if IsHighOrCritical(a[0].1) then [a[0]] else [];
      assert (a + b)[0] == a[0];
      assert (a + b)[1..] == a[1..] + b;
      FilterKeepsOrder(a[1..], b);
      calc {
        FilterHighAndCritical(a + b);
        head + FilterHighAndCritical(a[1..] + b);
        head + (FilterHighAndCritical(a[1..]) + FilterHighAndCritical(b));
        (head + FilterHighAndCritical(a[1..])) + FilterHighAndCritical(b);
      }
    }
  }

  lemma {:induction false} FilterIdempotent(d: Dict<Key, Group>)
    ensures FilterHighAndCritical(FilterHighAndCritical(d)) == FilterHighAndCritical(d)
    decreases |d|
  {
    if d != [] {
      var rest := FilterHighAndCritical(d[1..]);
      FilterIdempotent(d[1..]);
      if IsHighOrCritical(d[0].1) {
        FilterKeepsOrder([d[0]], rest);
        assert FilterHighAndCritical([d[0]]) == [d[0]] by {
          assert [d[0]][1..] == [];
        }
      } else {
        assert FilterHighAndCritical(d) == [] + rest == rest;
      }
    }
  }

  lemma {:induction false} FilterKeepsUniqueKeys(d: Dict<Key, Group>)
    requires UniqueKeys(d)
    ensures UniqueKeys(FilterHighAndCritical(d))
    decreases |d|
  {
    if d != [] {
      var rest := FilterHighAndCritical(d[1..]);
      FilterKeepsUniqueKeys(d[1..]);
      if IsHighOrCritical(d[0].1) {
        forall m | 0 <= m < |rest| ensures rest[m].0 != d[0].0 {
          assert rest[m] in d[1..];
        }
      }
    }
  }

  /** On a dict, `get` on the filtered dict answers for exactly the high and
      critical entries, with their values unchanged. */
  lemma {:induction false} FilterLookup(d: Dict<Key, Group>, k: Key)
    requires UniqueKeys(d)
    ensures Get(FilterHighAndCritical(d), k) ==
              if Get(d, k).Some? && IsHighOrCritical(Get(d, k).value) then Get(d, k) else None
    decreases |d|
  {
    if d != [] {
      var rest := FilterHighAndCritical(d[1..]);
      FilterLookup(d[1..], k);
      if IsHighOrCritical(d[0].1) {
        assert FilterHighAndCritical(d) == [d[0]] + rest;
        assert ([d[0]] + rest)[1..] == rest;
      } else {
        assert FilterHighAndCritical(d) == rest;
      }
      if d[0].0 == k {
        KeysAt(d[1..]);
        assert forall m :: 0 <= m < |d| - 1 ==> d[1..][m].0 != d[0].0;
        assert Get(d[1..], k) == None;
      }
    }
  }

  /** When the details were fetched for exactly the groups' own ids, every
      merged entry is one of those groups and carries the issue list fetched
      for its own id. */
  lemma NoCrossGroupLeakage(groups: seq<Group>, details: Dict<Key, seq<Issue>>, merged: Dict<Key, Group>,
                            reply: Key -> Reply<seq<Issue>>, e: (Key, Group))
    requires UniqueKeys(details) && Keys(details) == Dedup(GroupKeys(groups))
    requires forall k :: Get(details, k) == if k in GroupKeys(groups) then Some(reply(k).payload) else None
    requires UniqueKeys(merged)
    requires Keys(merged) == Dedup(GroupKeys(groups)) + Unmatched(Keys(details), GroupKeys(groups))
    requires forall k :: Get(merged, k) == MergedAt(groups, details, k)
    requires e in merged
    ensures e.0 in GroupKeys(groups) && e.1.issueList == Some(reply(e.0).payload)
  {
    var gk := GroupKeys(groups);
    GetOfEntry(merged, e);
    assert e.0 in Keys(merged);
    assert e.0 in gk by {
      var u := Unmatched(Keys(details), gk);
      assert e.0 in Dedup(gk) || e.0 in u;
      assert e.0 in u ==> e.0 in Keys(details);
    }
    assert Get(details, e.0) == Some(reply(e.0).payload);
    assert MergedAt(groups, details, e.0) == Some(e.1);
  }

  // ---------------------------------------------------------------------
  // The fetch stage (get_high_and_critical_issues)

  /** What the scan provider answers in one run: the token endpoint's status,
      the repository listing page by page, the issue-group listing, and the
      export endpoint's answer for each group id. */
  datatype ScanRemote = ScanRemote(tokenStatus: int,
                                   repoPages: seq<Reply<seq<Repo>>>,
                                   groupsReply: Reply<seq<Group>>,
                                   detailReply: Key -> Reply<seq<Issue>>)

  /** Every request of the fetch stage succeeds: the token is granted, the
      repository listing ends on a 200 page, some listed repository's name
      contains the project name, the group listing answers 200 with an `id`
      key in every group, and every group id's export answers 200. */
  ghost predicate FetchSucceeds(remote: ScanRemote, repoName: string) {
    var stop := StopPage(remote.repoPages, 0);
    && remote.tokenStatus == 200
    && Page(remote.repoPages, stop).status == 200
    && GetRepoId(PagesUpTo(remote.repoPages, stop + 1), repoName).Success?
    && remote.groupsReply.status == 200
    && GetIssueGroupIds(remote.groupsReply.payload).Success?
    && forall k :: k in GroupKeys(remote.groupsReply.payload) ==> remote.detailReply(k).status == 200
  }

  /** What the fetch stage hands on under id `k`: the last listed group with
      that id, carrying the issues exported for `k`, when it is high or
      critical; nothing otherwise. */
  function KeptGroup(groups: seq<Group>, reply: Key -> Reply<seq<Issue>>, k: Key): Option<Group> {
    match LastWithKey(groups, k)
    case None => None
    case Some(g) => if IsHighOrCritical(g) then Some(Attach(g, reply(k).payload)) else None
  }

  /** The ids of `ks`, in order, whose last listed group is high or critical. */
  function KeptKeys(ks: seq<Key>, groups: seq<Group>): (r: seq<Key>)
    ensures forall k :: k in r ==> k in ks
  {
    if ks == [] then []
    else
      var head := if LastWithKey(groups, ks[0]).Some? && IsHighOrCritical(LastWithKey(groups, ks[0]).value) then [ks[0]] else [];
      head + KeptKeys(ks[1..], groups)
  }

  /** What a successful fetch stage hands to the renderer: every request
      succeeded; the repository id is that of the first listed repository
      whose name contains the project name; the dict holds, in the order
      the ids were first listed, exactly the high and critical groups (the
      last one listed per id), each carrying its own exported issues. */
  ghost predicate Fetched(remote: ScanRemote, repoName: string, issues: Dict<Key, Group>, repoId: string) {
    var stop := StopPage(remote.repoPages, 0);
    var groups := remote.groupsReply.payload;
    && FetchSucceeds(remote, repoName)
    && GetRepoId(PagesUpTo(remote.repoPages, stop + 1), repoName) == Success(repoId)
    && UniqueKeys(issues)
    && Keys(issues) == KeptKeys(Dedup(GroupKeys(groups)), groups)
    && forall k :: Get(issues, k) == KeptGroup(groups, remote.detailReply, k)
  }

  /** `Fetched` pins its dict and repository id down: there is at most one. */
  lemma FetchedUnique(remote: ScanRemote, repoName: string, d1: Dict<Key, Group>, id1: string,
                      d2: Dict<Key, Group>, id2: string)
    requires Fetched(remote, repoName, d1, id1) && Fetched(remote, repoName, d2, id2)
    ensures d1 == d2 && id1 == id2
  {
    SameEntries(d1, d2);
  }

  /** Each entry of a fetched dict is a high or critical group listed for
      the repository, carrying the issues exported for its own id. */
  lemma FetchedEntry(remote: ScanRemote, repoName: string, d: Dict<Key, Group>, repoId: string, e: (Key, Group))
    requires Fetched(remote, repoName, d, repoId) && e in d
    ensures IsHighOrCritical(e.1)
    ensures e.0 in GroupKeys(remote.groupsReply.payload)
    ensures e.1.issueList == Some(remote.detailReply(e.0).payload)
  {
    GetOfEntry(d, e);
  }

  /** The high and critical groups of a merge of details fetched for the
      groups' own ids are what `Fetched` describes. */
  lemma FilteredMerge(groups: seq<Group>, details: Dict<Key, seq<Issue>>, merged: Dict<Key, Group>,
                      reply: Key -> Reply<seq<Issue>>)
    requires UniqueKeys(details) && Keys(details) == Dedup(GroupKeys(groups))
    requires forall k :: Get(details, k) == if k in GroupKeys(groups) then Some(reply(k).payload) else None
    requires UniqueKeys(merged)
    requires Keys(merged) == Dedup(GroupKeys(groups)) + Unmatched(Keys(details), GroupKeys(groups))
    requires forall k :: Get(merged, k) == MergedAt(groups, details, k)
    ensures UniqueKeys(FilterHighAndCritical(merged))
    ensures Keys(FilterHighAndCritical(merged)) == KeptKeys(Dedup(GroupKeys(groups)), groups)
    ensures forall k :: Get(FilterHighAndCritical(merged), k) == KeptGroup(groups, reply, k)
  {
    var gk := GroupKeys(groups);
    FilterKeepsUniqueKeys(merged);
    UnmatchedOfKnown(Keys(details), gk);
    assert Keys(merged) == Dedup(gk);
    forall e | e in merged
      ensures LastWithKey(groups, e.0).Some?
      ensures IsHighOrCritical(e.1) == IsHighOrCritical(LastWithKey(groups, e.0).value)
    {
      NoCrossGroupLeakage(groups, details, merged, reply, e);
      GetOfEntry(merged, e);
    }
    FilterKeys(merged, groups);
    forall k ensures Get(FilterHighAndCritical(merged), k) == KeptGroup(groups, reply, k) {
      FilterLookup(merged, k);
    }
  }

  /** No key is left over when every key is known. */
  lemma {:induction false} UnmatchedOfKnown(ks: seq<Key>, known: seq<Key>)
    requires forall k :: k in ks ==> k in known
    ensures Unmatched(ks, known) == []
    decreases |ks|
  {
    if ks != [] {
      assert forall k :: k in ks[..|ks| - 1] ==> k in ks;
      UnmatchedOfKnown(ks[..|ks| - 1], known);
    }
  }

  /** Filtering a dict whose entries have the severity of the last listed
      group with their id keeps the ids `KeptKeys` keeps. */
  lemma {:induction false} FilterKeys(d: Dict<Key, Group>, groups: seq<Group>)
    requires forall e :: e in d ==>
      LastWithKey(groups, e.0).Some? && IsHighOrCritical(e.1) == IsHighOrCritical(LastWithKey(groups, e.0).value)
    ensures Keys(FilterHighAndCritical(d)) == KeptKeys(Keys(d), groups)
    decreases |d|
  {
    if d != [] {
      assert d[0] in d;
      assert forall e :: e in d[1..] ==> e in d;
      FilterKeys(d[1..], groups);
      var rest := FilterHighAndCritical(d[1..]);
      if IsHighOrCritical(d[0].1) {
        assert FilterHighAndCritical(d) == [d[0]] + rest;
        assert ([d[0]] + rest)[1..] == rest;
      } else {
        assert FilterHighAndCritical(d) == rest;
      }
    }
  }

  /** The fetch stage; any failure is the `exit(1)` of the caller. */
  method GetHighAndCriticalIssues(remote: ScanRemote, repoName: string)
    returns (r: Result<(Dict<Key, Group>, string), FetchError>)
    ensures remote.tokenStatus != 200 ==> r == Failure(TokenRejected)
    ensures r.Success? <==> FetchSucceeds(remote, repoName)
    ensures r.Success? ==> Fetched(remote, repoName, r.value.0, r.value.1)
  {
    if remote.tokenStatus != 200 {
      return Failure(TokenRejected);
    }
    var repos, _ := GetCodeRepositories(remote.repoPages);
    if repos.Failure? {
      return Failure(repos.error);
    }
    var repoId := GetRepoId(repos.value, repoName);
    if repoId.Failure? {
      return Failure(repoId.error);
    }
    if remote.groupsReply.status != 200 {
      return Failure(IssueGroupsFailed(remote.groupsReply.status));
    }
    var groups := remote.groupsReply.payload;
    var ids := GetIssueGroupIds(groups);
    if ids.Failure? {
      return Failure(ids.error);
    }
    assert ids.value == GroupKeys(groups);
    var details := ExportIssueDetails(ids.value, remote.detailReply);
    if details.Failure? {
      return Failure(details.error);
    }
    var merged := MergeIssueDetailsWithIssueGroups(groups, details.value);
    var highAndCritical := FilterHighAndCritical(merged);
    FilteredMerge(groups, details.value, merged, remote.detailReply);
    return Success((highAndCritical, repoId.value));
  }
}
