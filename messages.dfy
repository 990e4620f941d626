/**
 * The send-message page: the authenticated sessions offered for sending, the default selection, the guard
 * chain run before a message is posted, and the in-page history of sent messages.
 */
module Messages {
  import opened Common
  import opened SessionContext
  import Phone

  /** One history row: the id the service returned (absent when the reply carried none), recipient, text, status, time, session. */
  datatype HistoryEntry = HistoryEntry(
    id: Option<string>,
    to: string,
    message: string,
    status: string,
    timestamp: string,
    sessionId: string)

  /** The `data` member of a send reply. */
  datatype SendData = SendData(messageId: Option<string>)

  /** The reply to `POST /api/send-message`: a thrown transport error, or the JSON body. */
  datatype SendReply = SendThrew(thrown: string) | SendBody(success: bool, data: Option<SendData>, error: Option<string>)

  /** The guard that stopped a send, in the order the guards are tried. */
  datatype Rejection = NoSession | NoPhone | NoMessage | InvalidPhone | LimitExceeded

  /** What the page tells the user after a send attempt. */
  datatype Notice = Rejected(reason: Rejection) | Sent | SendError(message: string)

  /** The TypeError a successful body without `data` raises when its message id is read. */
  const MissingDataError := "Cannot read properties of undefined (reading 'messageId')"

  /** The toast text of each guard. */
  function RejectionText(r: Rejection): string {
    match r
    case NoSession => "Please select an active session"
    case NoPhone => "Please enter a phone number"
    case NoMessage => "Please enter a message"
    case InvalidPhone => "Please enter a valid phone number"
    case LimitExceeded => "Message limit exceeded. Upgrade your plan or wait for next month reset."
  }

  /**
   * The quota guard: the user may not send when a limit other than -1 is reached. With no user signed in
   * both sides of the comparison default to 0, so the guard rejects. An unlimited plan never trips it; a
   * limit of 0, or any negative limit other than -1, always does.
   */
  predicate QuotaExhausted(user: Option<User>)
    ensures user.None? ==> QuotaExhausted(user)
    ensures user.Some? && user.value.messageLimit == -1 ==> !QuotaExhausted(user)
    ensures user.Some? && user.value.messageLimit < -1 ==> QuotaExhausted(user)
    ensures user.Some? && user.value.messageLimit == 0 ==> QuotaExhausted(user)
  {
    user.None? || (user.value.messageLimit != -1 && user.value.messagesUsed >= user.value.messageLimit)
  }

  /** The guard chain of `handleSendMessage`: the first guard that fails, or `None` when the send may go ahead. */
  function SendCheck(selectedSessionId: string, phoneNumber: string, message: string, user: Option<User>)
    : (r: Option<Rejection>)
    ensures r.None? <==>
      && selectedSessionId != ""
      && !IsBlank(phoneNumber)
      && !IsBlank(message)
      && Phone.ValidatePhoneNumber(phoneNumber)
      && !QuotaExhausted(user)
    ensures r == Some(NoSession) <==> selectedSessionId == ""
    ensures r == Some(NoPhone) ==> selectedSessionId != "" && IsBlank(phoneNumber)
    ensures r == Some(NoMessage) ==> selectedSessionId != "" && !IsBlank(phoneNumber) && IsBlank(message)
    ensures r == Some(InvalidPhone) ==>
      selectedSessionId != "" && !IsBlank(phoneNumber) && !IsBlank(message) && !Phone.ValidatePhoneNumber(phoneNumber)
    ensures r == Some(LimitExceeded) ==>
      && selectedSessionId != "" && !IsBlank(phoneNumber) && !IsBlank(message)
      && Phone.ValidatePhoneNumber(phoneNumber) && QuotaExhausted(user)
  {
    if selectedSessionId == "" then Some(NoSession)
    else if IsBlank(phoneNumber) then Some(NoPhone)
    else if IsBlank(message) then Some(NoMessage)
    else if !Phone.ValidatePhoneNumber(phoneNumber) then Some(InvalidPhone)
    else if QuotaExhausted(user) then Some(LimitExceeded)
    else None
  }

  /** A blank string holds no digits. */
  lemma {:induction false} BlankHasNoDigits(s: string)
    requires IsBlank(s)
    ensures Phone.Digits(s) == []
  {
    if s != [] {
      assert IsWhitespace(s[0]);
      BlankHasNoDigits(s[1..]);
    }
  }

  /** A blank phone number would fail the validity guard too; the earlier guard only changes the message. */
  lemma BlankPhoneIsInvalid(phoneNumber: string)
    requires IsBlank(phoneNumber)
    ensures !Phone.ValidatePhoneNumber(phoneNumber)
  {
    BlankHasNoDigits(phoneNumber);
  }

  /** A send that passes the guards goes to a number with 10 to 15 digits, with a non-blank message, within quota. */
  lemma AcceptedSendIsWellFormed(selectedSessionId: string, phoneNumber: string, message: string, user: Option<User>)
    requires SendCheck(selectedSessionId, phoneNumber, message, user).None?
    ensures 10 <= Phone.DigitCount(phoneNumber) <= 15
    ensures exists i :: 0 <= i < |message| && !IsWhitespace(message[i])
    ensures user.Some? && (user.value.messageLimit == -1 || user.value.messagesUsed < user.value.messageLimit)
  {
    Phone.ValidateIffDigitCount(phoneNumber);
  }

  /** A newly prepended entry heads the panel, followed by the four most recent older ones. */
  lemma PrependedEntryShownFirst(entry: HistoryEntry, history: seq<HistoryEntry>)
    ensures Recent([entry] + history) == [entry] + Take(history, 4)
  {
    var r := Recent([entry] + history);
    var t := Take(history, 4);
    assert |r| == |[entry] + t|;
    forall i | 0 <= i < |r| ensures r[i] == ([entry] + t)[i] {
      if i > 0 {
        assert r[i] == history[i - 1];
      }
    }
  }

  /** The send form's state. */
  class MessageComposer {
    var selectedSessionId: string
    var phoneNumber: string
    var message: string
    var history: seq<HistoryEntry>
    var loading: bool

    /** The page mounts with an empty form and history. */
    constructor ()
      ensures selectedSessionId == "" && phoneNumber == "" && message == ""
      ensures history == [] && !loading
    {
      selectedSessionId := "";
      phoneNumber := "";
      message := "";
      history := [];
      loading := false;
    }

    /** The default-selection effect: with nothing selected, the first authenticated session is chosen. */
    method SelectDefault(sessions: seq<Session>)
      modifies this
      ensures var auth := Authenticated(sessions);
        selectedSessionId == if |auth| > 0 && old(selectedSessionId) == "" then auth[0].sessionId else old(selectedSessionId)
      ensures phoneNumber == old(phoneNumber) && message == old(message)
      ensures history == old(history) && loading == old(loading)
    {
      var auth := Authenticated(sessions);
      if |auth| > 0 && selectedSessionId == "" {
        selectedSessionId := auth[0].sessionId;
      }
    }

    /**
     * `handleSendMessage`: a failing guard stops the send before any request. A successful reply clears
     * the message and prepends a `sent` entry holding the message as it was; an unsuccessful or thrown
     * reply leaves the form and the history as they were. The selection and the phone number are kept.
     */
    method SendMessage(user: Option<User>, reply: SendReply, timestamp: string) returns (notice: Notice)
      modifies this
      ensures selectedSessionId == old(selectedSessionId) && phoneNumber == old(phoneNumber)
      ensures var check := SendCheck(old(selectedSessionId), old(phoneNumber), old(message), user);
        check.Some? ==> notice == Rejected(check.value) && unchanged(this)
      ensures SendCheck(old(selectedSessionId), old(phoneNumber), old(message), user).None? ==>
        && !loading
        && (reply.SendThrew? ==> notice == SendError(reply.thrown))
        && (reply.SendBody? && !reply.success ==>
              notice == SendError(if reply.error.Some? then reply.error.value else ""))
        && (reply.SendBody? && reply.success && reply.data.None? ==> notice == SendError(MissingDataError))
        && (reply.SendBody? && reply.success ==> message == "")
        && (!(reply.SendBody? && reply.success) ==> message == old(message))
        && (reply.SendBody? && reply.success && reply.data.Some? ==>
              && notice == Sent
              && history == [HistoryEntry(reply.data.value.messageId, old(phoneNumber), old(message), "sent",
                                          timestamp, old(selectedSessionId))] + old(history))
        && (!(reply.SendBody? && reply.success && reply.data.Some?) ==> history == old(history))
    {
      var check := SendCheck(selectedSessionId, phoneNumber, message, user);
      if check.Some? {
        return Rejected(check.value);
      }
      loading := true;
      var sentText := message;
      match reply {
        case SendThrew(e) =>
          notice := SendError(e);
        case SendBody(success, data, error) =>
          if !success {
            notice := SendError(if error.Some? then error.value else "");
          } else {
            message := "";
            if data.None? {
              notice := SendError(MissingDataError);
            } else {
              var entry := HistoryEntry(data.value.messageId, phoneNumber, sentText, "sent", timestamp, selectedSessionId);
              history := [entry] + history;
              notice := Sent;
            }
          }
      }
      loading := false;
    }
  }
}
