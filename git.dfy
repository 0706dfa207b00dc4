/** The merge-request comment client of lib/git.py: token normalisation, the
    `https://` rule, the search for the bot's note, and the create-or-update
    decision. The merge request's notes on the GitLab side are a `NoteStore`
    object; its methods are the three notes endpoints, each answering with a
    status the caller supplies. */
module Git {
  import opened Common

  /** The text that marks a note as the bot's own. */
  const Marker := "Security tooling scan results"

  // ---------------------------------------------------------------------
  // Token and URL

  /** The characters of `s` up to its first colon. */
  function UpToColon(s: string): (r: string)
    ensures ':' !in r
    ensures IsPrefix(r, s)
    ensures |r| == |s| || s[|r|] == ':'
  {
    if s == [] || s[0] == ':' then [] else [s[0]] + UpToColon(s[1..])
  }

  /** The position of the first colon of `s`. */
  function FirstColon(s: string): (i: nat)
    requires ':' in s
    ensures i < |s| && s[i] == ':'
    ensures ':' !in s[..i]
  {
    if s[0] == ':' then 0
    else
      assert s == [s[0]] + s[1..];
      var j := FirstColon(s[1..]);
      assert s[..j + 1] == [s[0]] + s[1..][..j];
      j + 1
  }

  /** `access_token.split(":")[1]` when the token holds a colon (`":" in
      access_token` is a one-character test), the token itself otherwise:
      the segment between the first and the second colon, or the end. */
  function NormalizeToken(token: string): (r: string)
    ensures ':' !in r
    ensures ':' !in token ==> r == token
    ensures ':' in token ==>
      var i := FirstColon(token);
      IsPrefix(r, token[i + 1..]) && (i + 1 + |r| == |token| || token[i + 1 + |r|] == ':')
  {
    if ':' in token then UpToColon(token[FirstColon(token) + 1..]) else token
  }

  /** Normalising twice is normalising once: a normalised token has no colon. */
  lemma NormalizeTokenIdempotent(token: string)
    ensures NormalizeToken(NormalizeToken(token)) == NormalizeToken(token)
  {
  }

  const Https := "https://"

  /** The create path's rule: `https://` is put in front only when it occurs
      nowhere in the URL. */
  function WithScheme(url: string): (r: string)
    ensures IsSubstring(Https, r)
    ensures IsSubstring(Https, url) ==> r == url
    ensures !IsSubstring(Https, url) ==> r == Https + url
  {
    if IsSubstring(Https, url) then url
    else
      assert IsPrefix(Https, Https + url);
      Https + url
  }

  lemma WithSchemeIdempotent(url: string)
    ensures WithScheme(WithScheme(url)) == WithScheme(url)
  {
  }

  function NotesUrl(gitlabUrl: string, projectId: string, mrIid: string): string {
    gitlabUrl + "/api/v4/projects/" + projectId + "/merge_requests/" + mrIid + "/notes"
  }

  function NoteUrl(gitlabUrl: string, projectId: string, mrIid: string, noteId: int): string {
    NotesUrl(gitlabUrl, projectId, mrIid) + "/" + Decimal(noteId)
  }

  // ---------------------------------------------------------------------
  // Notes

  datatype Note = Note(id: int, body: string)

  predicate IsMarkerNote(n: Note) {
    IsSubstring(Marker, n.body)
  }

  /** The loop of `mr_already_has_note` over the listed notes: the id of the
      first note, in list order, whose body contains the marker. */
  function FirstMarkerNote(notes: seq<Note>): (r: Option<int>)
    ensures r.None? <==> forall i :: 0 <= i < |notes| ==> !IsMarkerNote(notes[i])
    ensures r.Some? ==>
      exists i :: 0 <= i < |notes| && notes[i].id == r.value && IsMarkerNote(notes[i])
        && forall j :: 0 <= j < i ==> !IsMarkerNote(notes[j])
  {
    if notes == [] then None
    else if IsMarkerNote(notes[0]) then Some(notes[0].id)
    else
      var r := FirstMarkerNote(notes[1..]);
      assert forall i :: 0 < i < |notes| ==> notes[i] == notes[1..][i - 1];
      r
  }

  /** Python truthiness of what `mr_already_has_note` returns: a note id
      other than 0 (`False` is `None` here). */
  predicate Truthy(found: Option<int>) {
    found.Some? && found.value != 0
  }

  /** The notes with the body of note `id` replaced. */
  function WithBody(notes: seq<Note>, id: int, body: string): (r: seq<Note>)
    ensures |r| == |notes|
    ensures forall i :: 0 <= i < |notes| ==>
      r[i].id == notes[i].id && r[i].body == if notes[i].id == id then body else notes[i].body
  {
    if notes == [] then []
    else [if notes[0].id == id then Note(id, body) else notes[0]] + WithBody(notes[1..], id, body)
  }

  /** The number of notes that carry the marker. */
  function MarkerCount(notes: seq<Note>): (n: nat)
    ensures n <= |notes|
  {
    if notes == [] then 0 else (if IsMarkerNote(notes[0]) then 1 else 0) + MarkerCount(notes[1..])
  }

  /** Note ids are positive and strictly increasing in listing order, and
      every new id is larger than all of them: the listing is taken in
      creation order. */
  ghost predicate IdsBelow(notes: seq<Note>, nextId: int) {
    && 0 < nextId
    && (forall i :: 0 <= i < |notes| ==> 0 < notes[i].id < nextId)
    && (forall i, j :: 0 <= i < j < |notes| ==> notes[i].id < notes[j].id)
  }

  datatype Verb = GET | POST | PUT

  /** A request the client sent: what, where, with which `Private_Token`
      header, and with which form body. */
  datatype Request = Request(verb: Verb, url: string, token: string, body: Option<string>)

  /** The merge request's notes as GitLab holds them, and the requests it
      has received. */
  class NoteStore {
    var notes: seq<Note>
    var nextId: int
    var requests: seq<Request>

    ghost predicate Valid()
      reads this
    {
      IdsBelow(notes, nextId)
    }

    constructor(initial: seq<Note>, nextId: int)
      requires IdsBelow(initial, nextId)
      ensures Valid()
      ensures this.notes == initial && this.nextId == nextId && requests == []
    {
      this.notes := initial;
      this.nextId := nextId;
      this.requests := [];
    }

    /** `GET .../notes`: the notes when the answer is 200. */
    method List(url: string, token: string, status: int) returns (r: Reply<seq<Note>>)
      modifies this
      ensures r == Reply(status, if status == 200 then notes else [])
      ensures notes == old(notes) && nextId == old(nextId)
      ensures requests == old(requests) + [Request(GET, url, token, None)]
    {
      requests := requests + [Request(GET, url, token, None)];
      r := Reply(status, if status == 200 then notes else []);
    }

    /** `POST .../notes`: a new note at the end when the answer is 201. */
    method Create(url: string, token: string, body: string, status: int) returns (r: Reply<Option<Note>>)
      requires Valid()
      modifies this
      ensures Valid()
      ensures status == 201 ==>
        && notes == old(notes) + [Note(old(nextId), body)]
        && nextId == old(nextId) + 1
        && r == Reply(status, Some(Note(old(nextId), body)))
      ensures status != 201 ==> notes == old(notes) && nextId == old(nextId) && r == Reply(status, None)
      ensures requests == old(requests) + [Request(POST, url, token, Some(body))]
    {
      requests := requests + [Request(POST, url, token, Some(body))];
      if status == 201 {
        var note := Note(nextId, body);
        notes := notes + [note];
        nextId := nextId + 1;
        r := Reply(status, Some(note));
      } else {
        r := Reply(status, None);
      }
    }

    /** `PUT .../notes/<id>`: note `id` takes the new body when the answer
      is 200. */
    method Update(url: string, token: string, id: int, body: string, status: int) returns (r: Reply<Option<Note>>)
      requires Valid()
      modifies this
      ensures Valid()
      ensures notes == (if status == 200 then WithBody(old(notes), id, body) else old(notes))
      ensures nextId == old(nextId)
      ensures r == Reply(status, if status == 200 then Some(Note(id, body)) else None)
      ensures requests == old(requests) + [Request(PUT, url, token, Some(body))]
    {
      requests := requests + [Request(PUT, url, token, Some(body))];
      if status == 200 {
        notes := WithBody(notes, id, body);
        r := Reply(status, Some(Note(id, body)));
      } else {
        r := Reply(status, None);
      }
    }
  }

  /** The status GitLab gives each of the three requests in one run. */
  datatype GitReplies = GitReplies(getStatus: int, postStatus: int, putStatus: int)

  // ---------------------------------------------------------------------
  // The client

  /** `mr_already_has_note`: the first marker note's id, or `False` (here
      `None`) when there is none or the listing fails. */
  method MrAlreadyHasNote(store: NoteStore, gitlabUrl: string, accessToken: string, projectId: string, mrIid: string, getStatus: int)
    returns (found: Option<int>)
    modifies store
    ensures found == if getStatus == 200 then FirstMarkerNote(old(store.notes)) else None
    ensures store.notes == old(store.notes) && store.nextId == old(store.nextId)
    ensures store.requests == old(store.requests) + [Request(GET, NotesUrl(gitlabUrl, projectId, mrIid), NormalizeToken(accessToken), None)]
  {
    var token := accessToken;
    if ':' in token {
      token := NormalizeToken(token);
    }
    var url := NotesUrl(gitlabUrl, projectId, mrIid);
    var response := store.List(url, token, getStatus);
    if response.status == 200 {
      return FirstMarkerNote(response.payload);
    } else {
      return None;
    }
  }

  /** `update_note`: the updated note on 200, `None` otherwise. */
  method UpdateNote(store: NoteStore, gitlabUrl: string, accessToken: string, projectId: string, mrIid: string,
                    noteId: int, body: string, putStatus: int)
    returns (r: Option<Note>)
    requires store.Valid()
    modifies store
    ensures store.Valid()
    ensures r == if putStatus == 200 then Some(Note(noteId, body)) else None
    ensures store.notes == (if putStatus == 200 then WithBody(old(store.notes), noteId, body) else old(store.notes))
    ensures store.nextId == old(store.nextId)
    ensures store.requests == old(store.requests)
      + [Request(PUT, NoteUrl(gitlabUrl, projectId, mrIid, noteId), NormalizeToken(accessToken), Some(body))]
  {
    var token := accessToken;
    if ':' in token {
      token := NormalizeToken(token);
    }
    var url := NoteUrl(gitlabUrl, projectId, mrIid, noteId);
    var response := store.Update(url, token, noteId, body, putStatus);
    if response.status == 200 {
      return response.payload;
    } else {
      return None;
    }
  }

  /** The notes after one `add_note_to_mr` with `body`, when GitLab answers
      the listing, the creation and the update with `replies`. */
  function Upserted(notes: seq<Note>, nextId: int, body: string, replies: GitReplies): seq<Note> {
    var found := if replies.getStatus == 200 then FirstMarkerNote(notes) else None;
    if Truthy(found) then
      if replies.putStatus == 200 then WithBody(notes, found.value, body) else notes
    else if replies.postStatus == 201 then notes + [Note(nextId, body)]
    else notes
  }

  /** The requests of one `add_note_to_mr`: the listing, then either the
      update of the note found (at the URL as given) or a creation (at the
      URL with `https://` ensured). */
  function UpsertRequests(notes: seq<Note>, gitlabUrl: string, accessToken: string, projectId: string, mrIid: string,
                          body: string, replies: GitReplies): seq<Request>
  {
    var token := NormalizeToken(accessToken);
    var found := if replies.getStatus == 200 then FirstMarkerNote(notes) else None;
    [Request(GET, NotesUrl(gitlabUrl, projectId, mrIid), token, None)]
      + if Truthy(found) then [Request(PUT, NoteUrl(gitlabUrl, projectId, mrIid, found.value), token, Some(body))]
        else [Request(POST, NotesUrl(WithScheme(gitlabUrl), projectId, mrIid), token, Some(body))]
  }

  /** `add_note_to_mr`: update the bot's note when one is found, otherwise
      create one. Only a creation that GitLab answers with 201 returns the
      new note; the update path always returns `None`. */
  method AddNoteToMr(store: NoteStore, gitlabUrl: string, accessToken: string, projectId: string, mrIid: string,
                     body: string, replies: GitReplies)
    returns (r: Option<Note>)
    requires store.Valid()
    modifies store
    ensures store.Valid()
    ensures store.notes == Upserted(old(store.notes), old(store.nextId), body, replies)
    ensures store.requests == old(store.requests)
      + UpsertRequests(old(store.notes), gitlabUrl, accessToken, projectId, mrIid, body, replies)
    ensures r == if !Truthy(if replies.getStatus == 200 then FirstMarkerNote(old(store.notes)) else None) && replies.postStatus == 201
                 then Some(Note(old(store.nextId), body)) else None
  {
    ghost var notes0, nextId0, requests0 := store.notes, store.nextId, store.requests;
    ghost var token0 := NormalizeToken(accessToken);
    ghost var get := Request(GET, NotesUrl(gitlabUrl, projectId, mrIid), token0, None);
    var noteId := MrAlreadyHasNote(store, gitlabUrl, accessToken, projectId, mrIid, replies.getStatus);
    assert Truthy(noteId) <==> noteId.Some? && noteId.value != 0;
    if noteId.Some? && noteId.value != 0 {
      var _ := UpdateNote(store, gitlabUrl, accessToken, projectId, mrIid, noteId.value, body, replies.putStatus);
      ghost var put := Request(PUT, NoteUrl(gitlabUrl, projectId, mrIid, noteId.value), token0, Some(body));
      assert UpsertRequests(notes0, gitlabUrl, accessToken, projectId, mrIid, body, replies) == [get] + [put];
      assert store.requests == requests0 + [get] + [put];
      return None;
    }
    var token := accessToken;
    if ':' in token {
      token := NormalizeToken(token);
    }
    var url := gitlabUrl;
    if !IsSubstring(Https, url) {
      url := Https + url;
    }
    assert url == WithScheme(gitlabUrl);
    url := NotesUrl(url, projectId, mrIid);
    var response := store.Create(url, token, body, replies.postStatus);
    ghost var post := Request(POST, url, token0, Some(body));
    assert UpsertRequests(notes0, gitlabUrl, accessToken, projectId, mrIid, body, replies) == [get] + [post];
    assert store.requests == requests0 + [get] + [post];
    if response.status == 201 {
      return response.payload;
    } else {
      return None;
    }
  }

  // ---------------------------------------------------------------------
  // What repeated runs do to the notes

  /** Updating a note's body to one with the marker keeps the number of
      marker notes when that note already had the marker. */
  lemma {:induction false} WithBodyKeepsMarkerCount(notes: seq<Note>, id: int, body: string)
    requires IsSubstring(Marker, body)
    requires forall i :: 0 <= i < |notes| && notes[i].id == id ==> IsMarkerNote(notes[i])
    ensures MarkerCount(WithBody(notes, id, body)) == MarkerCount(notes)
  {
    if notes != [] {
      var r := WithBody(notes, id, body);
      assert r[1..] == WithBody(notes[1..], id, body);
      assert forall i :: 0 <= i < |notes[1..]| ==> notes[1..][i] == notes[i + 1];
      WithBodyKeepsMarkerCount(notes[1..], id, body);
    }
  }

  lemma {:induction false} MarkerCountAppend(notes: seq<Note>, n: Note)
    ensures MarkerCount(notes + [n]) == MarkerCount(notes) + if IsMarkerNote(n) then 1 else 0
  {
    if notes != [] {
      assert (notes + [n])[1..] == notes[1..] + [n];
      MarkerCountAppend(notes[1..], n);
    }
  }

  /** With no marker note present, a run whose creation succeeds leaves
      exactly one marker note, the new last one, holding `body`. */
  lemma FirstRunCreatesMarkerNote(notes: seq<Note>, nextId: int, body: string, replies: GitReplies)
    requires MarkerCount(notes) == 0
    requires IsSubstring(Marker, body)
    requires replies.postStatus == 201
    ensures Upserted(notes, nextId, body, replies) == notes + [Note(nextId, body)]
    ensures MarkerCount(Upserted(notes, nextId, body, replies)) == 1
  {
    NoMarkerMeansNoneFound(notes);
    MarkerCountAppend(notes, Note(nextId, body));
  }

  lemma {:induction false} NoMarkerMeansNoneFound(notes: seq<Note>)
    requires MarkerCount(notes) == 0
    ensures FirstMarkerNote(notes) == None
  {
    if notes != [] {
      NoMarkerMeansNoneFound(notes[1..]);
    }
  }

  /** With exactly one marker note present (ids distinct and positive), a run
      whose listing and update succeed leaves exactly one marker note, holding
      `body`, and creates nothing. */
  lemma OneMarkerNoteStaysOne(notes: seq<Note>, nextId: int, body: string, replies: GitReplies)
    requires IdsBelow(notes, nextId)
    requires MarkerCount(notes) == 1
    requires IsSubstring(Marker, body)
    requires replies.getStatus == 200 && replies.putStatus == 200
    ensures |Upserted(notes, nextId, body, replies)| == |notes|
    ensures MarkerCount(Upserted(notes, nextId, body, replies)) == 1
    ensures var r := Upserted(notes, nextId, body, replies);
      forall k :: 0 <= k < |r| && IsMarkerNote(r[k]) ==> r[k].body == body
  {
    MarkerNoteFound(notes);
    var i := FoundIndex(notes);
    var id := notes[i].id;
    assert id > 0;
    assert Upserted(notes, nextId, body, replies) == WithBody(notes, id, body);
    SingleNoteWithId(notes, nextId, i);
    WithBodyKeepsMarkerCount(notes, id, body);
    UpdatedMarkerNote(notes, i, body);
  }

  /** With distinct ids, the marker note at index `i` is the only note with
      its id. */
  lemma SingleNoteWithId(notes: seq<Note>, nextId: int, i: nat)
    requires IdsBelow(notes, nextId)
    requires i < |notes| && IsMarkerNote(notes[i])
    ensures forall k :: 0 <= k < |notes| && notes[k].id == notes[i].id ==> IsMarkerNote(notes[k])
  {
  }

  /** Giving the only marker note, at index `i`, a new body leaves that body
      on every marker note. */
  lemma UpdatedMarkerNote(notes: seq<Note>, i: nat, body: string)
    requires MarkerCount(notes) == 1
    requires i < |notes| && IsMarkerNote(notes[i])
    ensures var r := WithBody(notes, notes[i].id, body);
      forall k :: 0 <= k < |r| && IsMarkerNote(r[k]) ==> r[k].body == body
  {
    var r := WithBody(notes, notes[i].id, body);
    forall k | 0 <= k < |r| && IsMarkerNote(r[k])
      ensures r[k].body == body
    {
      if notes[k].id != notes[i].id {
        assert r[k] == notes[k];
        OnlyMarkerNote(notes, i, k);
      }
    }
  }

  /** Where the note `FirstMarkerNote` finds sits. */
  lemma {:induction false} FoundIndex(notes: seq<Note>) returns (i: nat)
    requires FirstMarkerNote(notes).Some?
    ensures i < |notes| && notes[i].id == FirstMarkerNote(notes).value && IsMarkerNote(notes[i])
  {
    if IsMarkerNote(notes[0]) {
      i := 0;
    } else {
      var j := FoundIndex(notes[1..]);
      i := j + 1;
    }
  }

  lemma {:induction false} MarkerNoteFound(notes: seq<Note>)
    requires MarkerCount(notes) > 0
    ensures FirstMarkerNote(notes).Some?
  {
    if !IsMarkerNote(notes[0]) {
      MarkerNoteFound(notes[1..]);
    }
  }

  /** With one marker note, at index `i`, no other note has the marker. */
  lemma {:induction false} OnlyMarkerNote(notes: seq<Note>, i: nat, k: nat)
    requires MarkerCount(notes) == 1
    requires i < |notes| && IsMarkerNote(notes[i])
    requires k < |notes| && k != i
    ensures !IsMarkerNote(notes[k])
  {
    var rest := notes[1..];
    if IsMarkerNote(notes[k]) {
      if i == 0 {
        assert rest[k - 1] == notes[k];
        MarkerCountAt(rest, k - 1);
      } else if k == 0 {
        assert rest[i - 1] == notes[i];
        MarkerCountAt(rest, i - 1);
      } else if IsMarkerNote(notes[0]) {
        assert rest[i - 1] == notes[i];
        MarkerCountAt(rest, i - 1);
      } else {
        assert rest[i - 1] == notes[i] && rest[k - 1] == notes[k];
        OnlyMarkerNote(rest, i - 1, k - 1);
      }
    }
  }

  lemma {:induction false} MarkerCountAt(notes: seq<Note>, i: nat)
    requires i < |notes| && IsMarkerNote(notes[i])
    ensures MarkerCount(notes) > 0
  {
    if i > 0 && !IsMarkerNote(notes[0]) {
      MarkerCountAt(notes[1..], i - 1);
    }
  }

  /** Two consecutive runs from a merge request without a marker note, the
      first creating and the second listing and updating successfully, leave
      exactly one marker note, holding the second body. */
  lemma TwoRunsLeaveOneMarkerNote(notes: seq<Note>, nextId: int, body1: string, body2: string,
                                  replies1: GitReplies, replies2: GitReplies)
    requires IdsBelow(notes, nextId)
    requires MarkerCount(notes) == 0
    requires IsSubstring(Marker, body1) && IsSubstring(Marker, body2)
    requires replies1.postStatus == 201
    requires replies2.getStatus == 200 && replies2.putStatus == 200
    ensures var after := Upserted(Upserted(notes, nextId, body1, replies1), nextId + 1, body2, replies2);
      && MarkerCount(after) == 1
      && forall k :: 0 <= k < |after| && IsMarkerNote(after[k]) ==> after[k].body == body2
  {
    FirstRunCreatesMarkerNote(notes, nextId, body1, replies1);
    var mid := notes + [Note(nextId, body1)];
    assert IdsBelow(mid, nextId + 1);
    OneMarkerNoteStaysOne(mid, nextId + 1, body2, replies2);
  }

  /** As written, a failed listing is taken for "no note": with the bot's
      note present, a run whose listing fails and whose creation succeeds
      leaves two marker notes. */
  lemma FailedListingDuplicates(notes: seq<Note>, nextId: int, body: string, replies: GitReplies)
    requires MarkerCount(notes) == 1
    requires IsSubstring(Marker, body)
    requires replies.getStatus != 200 && replies.postStatus == 201
    ensures MarkerCount(Upserted(notes, nextId, body, replies)) == 2
  {
    MarkerCountAppend(notes, Note(nextId, body));
  }
}
