/**
 * The four protected note routes: each runs the scope gate with its own
 * required scope ('read:notes' to read, 'write:notes' to change) and then
 * acts on the store for the authenticated subject only.
 */
module Routes {
  import opened Wrappers
  import opened Text
  import opened Json
  import opened Tokens
  import opened Gate
  import opened Notes

  const ReadNotes: string := "read:notes"
  const WriteNotes: string := "write:notes"

  datatype Reply =
    | Refused(decision: Decision)   // the gate's refusal
    | NotFound                      // 404 not_found
    | TitleRequired                 // 400 title_required
    | NoteList(notes: seq<Note>)    // 200
    | NoteBody(note: Note)          // 200
    | Created(note: Note)           // 201
    | NoContent                     // 204
    | ServerError                   // 500: the request body has no `.get`

  /** A refusal never carries an authorization. */
  predicate WellFormed(reply: Reply) {
    reply.Refused? ==> !reply.decision.Authorized?
  }

  /** The HTTP status of each reply. */
  function StatusCode(reply: Reply): (code: int)
    requires WellFormed(reply)
    ensures 200 <= code < 600
    ensures code == 401 <==> reply in {Refused(MissingAuthorization), Refused(InvalidToken)}
    ensures code == 403 <==> reply.Refused? && reply.decision.InsufficientScope?
  {
    match reply
    case Refused(d) =>
      (match d
       case MissingAuthorization => 401
       case InvalidToken => 401
       case InsufficientScope(_) => 403
       case InternalError => 500)
    case NotFound => 404
    case TitleRequired => 400
    case NoteList(_) => 200
    case NoteBody(_) => 200
    case Created(_) => 201
    case NoContent => 204
    case ServerError => 500
  }

  /** The `error` member of the JSON body, where there is one. */
  function ErrorCode(reply: Reply): (code: Option<string>)
    ensures code.Some? <==>
      (reply in {NotFound, TitleRequired} || (reply.Refused? && !reply.decision.InternalError? && !reply.decision.Authorized?))
  {
    match reply
    case Refused(MissingAuthorization) => Some("missing_authorization")
    case Refused(InvalidToken) => Some("invalid_token")
    case Refused(InsufficientScope(_)) => Some("insufficient_scope")
    case NotFound => Some("not_found")
    case TitleRequired => Some("title_required")
    case _ => None
  }

  /** A client can rely on the `error` member alone: replies with the same
      error code have the same status, and the two 401 refusals are told
      apart by their codes. */
  lemma ErrorCodeDeterminesStatus(a: Reply, b: Reply)
    requires WellFormed(a) && WellFormed(b)
    requires ErrorCode(a).Some? && ErrorCode(a) == ErrorCode(b)
    ensures StatusCode(a) == StatusCode(b)
    ensures a.Refused? && a.decision.MissingAuthorization? ==> b == a
    ensures a.Refused? && a.decision.InvalidToken? ==> b == a
  {
  }

  /** `GET /notes` */
  method ListNotesRoute(store: NoteStore, cfg: Config, oracles: Oracles, header: Option<string>) returns (reply: Reply)
    requires store.Valid()
    ensures WellFormed(reply)
    ensures var d := Authorize(cfg, oracles, header, Some([ReadNotes]));
      && (!d.Authorized? ==> reply == Refused(d))
      && (d.Authorized? ==> reply == NoteList(OwnedBy(store.order, store.notes, d.info.sub)))
    ensures reply.NoteList? ==> forall n :: n in reply.notes ==> n.owner == Authorize(cfg, oracles, header, Some([ReadNotes])).info.sub
  {
    var d := Authorize(cfg, oracles, header, Some([ReadNotes]));
    if !d.Authorized? {
      return Refused(d);
    }
    var notes := store.ListNotes(d.info.sub);
    reply := NoteList(notes);
  }

  /** `GET /notes/<id>` */
  function GetNoteRoute(store: NoteStore, cfg: Config, oracles: Oracles, header: Option<string>, noteId: nat): (reply: Reply)
    reads store
    requires store.Valid()
    ensures WellFormed(reply)
    ensures var d := Authorize(cfg, oracles, header, Some([ReadNotes]));
      && (!d.Authorized? <==> reply == Refused(d))
      && (d.Authorized? ==> (reply.NotFound? <==> noteId !in store.notes || store.notes[noteId].owner != d.info.sub))
      && (d.Authorized? && noteId in store.notes && store.notes[noteId].owner == d.info.sub ==>
            reply == NoteBody(store.notes[noteId]))
      && (reply.NoteBody? ==> d.Authorized? && reply.note == store.notes[noteId] && reply.note.owner == d.info.sub)
  {
    var d := Authorize(cfg, oracles, header, Some([ReadNotes]));
    if !d.Authorized? then Refused(d)
    else
      match store.GetNote(noteId, d.info.sub)
      case None => NotFound
      case Some(note) => NoteBody(note)
  }

  /** `request.get_json() or {}`: the object whose `.get` the route calls,
      None where the decoded body is truthy but not an object. `Null` is
      a JSON `null` body. */
  function RequestObject(body: Value): (data: Option<map<string, Value>>)
    ensures data.Some? <==> body.Object? || !Truthy(body)
    ensures body.Object? ==> data == Some(body.fields)
    ensures !Truthy(body) ==> data == Some(map[])
  {
    match Or(body, Object(map[]))
    case Object(fields) => Some(fields)
    case _ => None
  }

  /** `POST /notes`, with the decoded JSON body of the request. */
  method CreateNoteRoute(store: NoteStore, cfg: Config, oracles: Oracles, header: Option<string>, body: Value, now: int)
    returns (reply: Reply)
    requires store.Valid()
    modifies store
    ensures store.Valid() && WellFormed(reply)
    ensures var d := Authorize(cfg, oracles, header, Some([WriteNotes]));
      var data := RequestObject(body);
      var title := if data.Some? then Get(data.value, "title", Str("")) else Null;
      && (!d.Authorized? ==> reply == Refused(d))
      && (d.Authorized? && data.None? ==> reply == ServerError)
      && (d.Authorized? && data.Some? && !Truthy(title) ==> reply == TitleRequired)
      && (d.Authorized? && data.Some? && Truthy(title) ==>
            reply == Created(Note(old(store.nextId), d.info.sub, title, Get(data.value, "content", Str("")), now)))
    ensures reply.Created? ==> store.notes == old(store.notes)[reply.note.id := reply.note] && store.nextId == old(store.nextId) + 1
    ensures !reply.Created? ==> unchanged(store)
  {
    var d := Authorize(cfg, oracles, header, Some([WriteNotes]));
    if !d.Authorized? {
      return Refused(d);
    }
    var data := RequestObject(body);
    if data.None? {
      return ServerError;
    }
    var title := Get(data.value, "title", Str(""));
    var content := Get(data.value, "content", Str(""));
    if !Truthy(title) {
      return TitleRequired;
    }
    var note := store.CreateNote(d.info.sub, title, content, now);
    reply := Created(note);
  }

  /** `DELETE /notes/<id>` */
  method DeleteNoteRoute(store: NoteStore, cfg: Config, oracles: Oracles, header: Option<string>, noteId: nat)
    returns (reply: Reply)
    requires store.Valid()
    modifies store
    ensures store.Valid() && WellFormed(reply)
    ensures var d := Authorize(cfg, oracles, header, Some([WriteNotes]));
      && (!d.Authorized? ==> reply == Refused(d))
      && (d.Authorized? ==> (reply == NoContent <==> noteId in old(store.notes) && old(store.notes)[noteId].owner == d.info.sub))
      && (d.Authorized? && reply != NoContent ==> reply == NotFound)
    ensures reply == NoContent ==> store.notes == old(store.notes) - {noteId} && store.nextId == old(store.nextId)
    ensures reply != NoContent ==>
      store.notes == old(store.notes) && store.order == old(store.order) && store.nextId == old(store.nextId)
  {
    var d := Authorize(cfg, oracles, header, Some([WriteNotes]));
    if !d.Authorized? {
      return Refused(d);
    }
    var deleted := store.DeleteNote(noteId, d.info.sub);
    reply := if deleted then NoContent else NotFound;
  }

  // ---------------------------------------------------------------------
  // The shipped defaults: test mode on, no JWKS, no introspection.

  predicate TestModeOnly(cfg: Config) {
    cfg.testMode && !Enabled(cfg.jwksUrl) && !Enabled(cfg.introspectionUrl)
  }

  /** The read-only test token cannot write: it is refused with 403 and
      `missing: ["write:notes"]`. */
  lemma ReadOnlyCannotWrite(cfg: Config, oracles: Oracles)
    requires TestModeOnly(cfg)
    ensures Authorize(cfg, oracles, Some("Bearer read-only"), Some([WriteNotes])) == InsufficientScope([WriteNotes])
  {
    var token := "read-only";
    assert "Bearer read-only" == BearerPrefix + token;
    BearerRoundTrip(token);
    MockOnlyTable(cfg, oracles, token);
    StrListContains(["read:notes"], WriteNotes);
    MissingSingle(WriteNotes, StrList(["read:notes"]));
  }

  /** Either notes scope is within what the full test token holds. */
  lemma TestTokenScopes(scope: string)
    requires scope == ReadNotes || scope == WriteNotes
    ensures Decide(Some(FullTestToken), [scope]) == Authorized(FullTestToken)
  {
    var granted := [ReadNotes, WriteNotes];
    assert scope in granted;
    StrListContains(granted, scope);
    MissingSingle(scope, StrList(granted));
  }

  /** The full test token may read and write, as "user:alice". */
  lemma TestTokenMayWrite(cfg: Config, oracles: Oracles, scope: string)
    requires TestModeOnly(cfg)
    requires scope == ReadNotes || scope == WriteNotes
    ensures Authorize(cfg, oracles, Some("Bearer test-token"), Some([scope])) == Authorized(FullTestToken)
  {
    var token := "test-token";
    assert BearerToken(HeaderText(Some("Bearer test-token"))) == Some(token) by {
      assert "Bearer test-token" == BearerPrefix + token;
      BearerRoundTrip(token);
    }
    assert Introspect(cfg, oracles, token) == Some(FullTestToken) by {
      MockOnlyTable(cfg, oracles, token);
    }
    TestTokenScopes(scope);
  }

  /** Any other bearer token is refused as invalid, whatever the route requires. */
  lemma UnknownTokenInvalid(cfg: Config, oracles: Oracles, header: Option<string>, scopes: Option<seq<string>>)
    requires TestModeOnly(cfg)
    requires BearerToken(HeaderText(header)).Some?
    requires BearerToken(HeaderText(header)).value != "test-token"
    requires BearerToken(HeaderText(header)).value != "read-only"
    ensures Authorize(cfg, oracles, header, scopes) == InvalidToken
  {
    MockOnlyTable(cfg, oracles, BearerToken(HeaderText(header)).value);
  }
}
