/**
 * The session context: the client-side list of messaging sessions and the operations that
 * create, delete, reconnect, log out and list them through the session service.
 * Every awaited service call is a parameter holding the reply that call produced.
 */
module SessionContext {
  import opened Common

  datatype Session = Session(
    sessionId: string,
    phoneNumber: Option<string>,
    status: string,
    isReady: bool,
    hasQR: bool,
    socketConnected: bool,
    createdAt: string,
    lastActivity: string,
    reconnectAttempts: int)

  /** The reply to `GET /api/sessions`: a thrown transport error, or the JSON body. */
  datatype ListReply = ListThrew(thrown: string) | ListBody(success: bool, sessions: seq<Session>)

  /** The reply to a DELETE, reconnect or logout request. */
  datatype AckReply = AckThrew(thrown: string) | AckBody(success: bool, error: Option<string>)

  /** The reply to `POST /api/sessions`. */
  datatype CreateReply = CreateThrew(thrown: string) | CreateBody(success: bool, sessionId: string, error: Option<string>)

  /** The reply to `GET /api/sessions/:id/qr`. */
  datatype QrReply = QrThrew(thrown: string) | QrBody(success: bool, qr: Option<string>)

  /** The message of the Error thrown for an unsuccessful body: `response.error || fallback`. */
  function FailureMessage(error: Option<string>, fallback: string): (m: string)
    ensures Truthy(error) ==> m == error.value
    ensures !Truthy(error) ==> m == fallback
    ensures fallback != "" ==> m != ""
  {
    if Truthy(error) then error.value else fallback
  }

  /** The listing a successful refresh installs, if the reply is one. */
  predicate RefreshSucceeds(reply: ListReply) {
    reply.ListBody? && reply.success
  }

  /** The `sessionId` member of the create request's body: present only when the caller supplied a non-empty id. */
  function CreateRequestBody(requestedId: Option<string>): (body: Option<string>)
    ensures body.Some? <==> requestedId.Some? && requestedId.value != ""
    ensures body.Some? ==> body == requestedId
  {
    if Truthy(requestedId) then requestedId else None
  }

  /** `sessions.filter(s => s.sessionId !== id)`. */
  function FilterOut(sessions: seq<Session>, id: string): (r: seq<Session>)
    ensures |r| <= |sessions|
    ensures forall i :: 0 <= i < |r| ==> r[i].sessionId != id && r[i] in sessions
  {
    if sessions == [] then []
    else if sessions[0].sessionId == id then FilterOut(sessions[1..], id)
    else [sessions[0]] + FilterOut(sessions[1..], id)
  }

  /** Filtering distributes over concatenation, so the surviving records keep their relative order. */
  lemma {:induction false} FilterOutAppend(a: seq<Session>, b: seq<Session>, id: string)
    ensures FilterOut(a + b, id) == FilterOut(a, id) + FilterOut(b, id)
  {
    if a == [] {
      assert a + b == b;
    } else {
      assert (a + b)[1..] == a[1..] + b;
      FilterOutAppend(a[1..], b, id);
    }
  }

  /** Every record whose id differs from the deleted one survives the filter. */
  lemma {:induction false} FilterOutKeepsOthers(sessions: seq<Session>, id: string, s: Session)
    requires s in sessions && s.sessionId != id
    ensures s in FilterOut(sessions, id)
  {
    if sessions[0] != s {
      FilterOutKeepsOthers(sessions[1..], id, s);
    }
  }

  /** Deleting an id that no record carries leaves the list as it was. */
  lemma {:induction false} FilterOutAbsent(sessions: seq<Session>, id: string)
    requires forall i :: 0 <= i < |sessions| ==> sessions[i].sessionId != id
    ensures FilterOut(sessions, id) == sessions
  {
    if sessions != [] {
      FilterOutAbsent(sessions[1..], id);
    }
  }

  /** `sessions.filter(s => s.status === 'authenticated')`: the sessions that can send messages. */
  function Authenticated(sessions: seq<Session>): (r: seq<Session>)
    ensures |r| <= |sessions|
    ensures forall i :: 0 <= i < |r| ==> r[i].status == "authenticated" && r[i] in sessions
    ensures forall s :: s in sessions && s.status == "authenticated" ==> s in r
  {
    if sessions == [] then []
    else
      var init, last := sessions[..|sessions| - 1], sessions[|sessions| - 1];
      assert sessions == init + [last];
      Authenticated(init) + (if last.status == "authenticated" then [last] else [])
  }

  /** The filter distributes over concatenation, so authenticated sessions keep their relative order. */
  lemma {:induction false} AuthenticatedAppend(a: seq<Session>, b: seq<Session>)
    ensures Authenticated(a + b) == Authenticated(a) + Authenticated(b)
  {
    if b == [] {
      assert a + b == a;
    } else {
      var init, last := b[..|b| - 1], b[|b| - 1];
      assert (a + b)[..|a + b| - 1] == a + init;
      assert (a + b)[|a + b| - 1] == last;
      AuthenticatedAppend(a, init);
    }
  }

  /** `getQRCode`: the code when the reply is successful and carries a non-empty `qr`, null otherwise; a thrown error propagates. */
  function QrCodeOf(reply: QrReply): (r: Result<Option<string>>)
    ensures reply.QrThrew? <==> r.Err?
    ensures reply.QrThrew? ==> r.message == reply.thrown
    ensures r.Ok? && r.value.Some? <==> reply.QrBody? && reply.success && Truthy(reply.qr)
    ensures r.Ok? && r.value.Some? ==> r.value.value == reply.qr.value && r.value.value != ""
  {
    match reply
    case QrThrew(e) => Err(e)
    case QrBody(success, qr) => if success && Truthy(qr) then Ok(qr) else Ok(None)
  }

  /** The session provider's state: the list shown to every page and the loading flag of the last refresh. */
  class SessionStore {
    var sessions: seq<Session>
    var loading: bool

    /** Mounting the provider starts from an empty list and runs one refresh. */
    constructor (mountReply: ListReply)
      ensures RefreshSucceeds(mountReply) ==> sessions == mountReply.sessions
      ensures !RefreshSucceeds(mountReply) ==> sessions == []
      ensures !loading
    {
      sessions := [];
      loading := false;
      new;
      Refresh(mountReply);
    }

    /** `refreshSessions`: a successful listing replaces the list wholesale; anything else keeps it. Never throws. */
    method Refresh(reply: ListReply)
      modifies this
      ensures RefreshSucceeds(reply) ==> sessions == reply.sessions
      ensures !RefreshSucceeds(reply) ==> sessions == old(sessions)
      ensures !loading
    {
      loading := true;
      if reply.ListBody? && reply.success {
        sessions := reply.sessions;
      }
      loading := false;
    }

    /**
     * `createSession`: posts the optional id, refreshes on success and returns the id the service assigned;
     * an unsuccessful or thrown reply propagates as an error without refreshing.
     */
    method Create(requestedId: Option<string>, reply: CreateReply, refreshReply: ListReply)
      returns (body: Option<string>, result: Result<string>)
      modifies this
      ensures body == CreateRequestBody(requestedId)
      ensures reply.CreateBody? && reply.success ==>
        && result == Ok(reply.sessionId)
        && !loading
        && sessions == (if RefreshSucceeds(refreshReply) then refreshReply.sessions else old(sessions))
      ensures reply.CreateBody? && !reply.success ==>
        result == Err(FailureMessage(reply.error, "Failed to create session"))
      ensures reply.CreateThrew? ==> result == Err(reply.thrown)
      ensures !(reply.CreateBody? && reply.success) ==> sessions == old(sessions) && loading == old(loading)
    {
      body := CreateRequestBody(requestedId);
      match reply {
        case CreateThrew(e) =>
          result := Err(e);
        case CreateBody(success, id, error) =>
          if !success {
            result := Err(FailureMessage(error, "Failed to create session"));
          } else {
            Refresh(refreshReply);
            result := Ok(id);
          }
      }
    }

    /** `deleteSession`: on success every record with that id leaves the list; on failure it throws and the list is untouched. */
    method Delete(id: string, reply: AckReply) returns (outcome: Outcome)
      modifies this
      ensures outcome == AckOutcome(reply, "Failed to delete session")
      ensures outcome.Done? ==> sessions == FilterOut(old(sessions), id)
      ensures outcome.Failed? ==> sessions == old(sessions)
      ensures loading == old(loading)
    {
      outcome := AckOutcome(reply, "Failed to delete session");
      if outcome.Done? {
        sessions := FilterOut(sessions, id);
      }
    }

    /** `reconnectSession`: never edits the list itself; on success it re-syncs through a refresh. */
    method Reconnect(id: string, reply: AckReply, refreshReply: ListReply) returns (outcome: Outcome)
      modifies this
      ensures outcome == AckOutcome(reply, "Failed to reconnect session")
      ensures outcome.Done? ==>
        && !loading
        && sessions == (if RefreshSucceeds(refreshReply) then refreshReply.sessions else old(sessions))
      ensures outcome.Failed? ==> sessions == old(sessions) && loading == old(loading)
    {
      outcome := AckOutcome(reply, "Failed to reconnect session");
      if outcome.Done? {
        Refresh(refreshReply);
      }
    }

    /** `logoutSession`: never edits the list itself; on success it re-syncs through a refresh. */
    method Logout(id: string, reply: AckReply, refreshReply: ListReply) returns (outcome: Outcome)
      modifies this
      ensures outcome == AckOutcome(reply, "Failed to logout session")
      ensures outcome.Done? ==>
        && !loading
        && sessions == (if RefreshSucceeds(refreshReply) then refreshReply.sessions else old(sessions))
      ensures outcome.Failed? ==> sessions == old(sessions) && loading == old(loading)
    {
      outcome := AckOutcome(reply, "Failed to logout session");
      if outcome.Done? {
        Refresh(refreshReply);
      }
    }
  }

  /** How an acknowledgement reply settles: success, or the Error the operation throws. */
  function AckOutcome(reply: AckReply, fallback: string): (o: Outcome)
    ensures o.Done? <==> reply.AckBody? && reply.success
    ensures reply.AckThrew? ==> o == Failed(reply.thrown)
    ensures reply.AckBody? && !reply.success ==> o == Failed(FailureMessage(reply.error, fallback))
  {
    match reply
    case AckThrew(e) => Failed(e)
    case AckBody(success, error) => if success then Done else Failed(FailureMessage(error, fallback))
  }
}
