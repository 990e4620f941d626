/**
 * The sessions page: per-session busy flags around every action, the buttons each status offers,
 * the status badge, and the QR modal with its bounded follow-up polling.
 */
module SessionsPage {
  import opened Common
  import opened SessionContext

  /** Follow-up QR fetches run every 2 s and are cancelled 30 s after the first one was answered. */
  const PollIntervalMs: nat := 2000
  const PollWindowMs: nat := 30000
  const MaxPolls: nat := PollWindowMs / PollIntervalMs

  /** The busy-flag key of the "Create Session" button; session ids share the same map. */
  const CreateKey := "create"

  datatype QrModal = QrModal(isOpen: bool, sessionId: string, qrCode: Option<string>)

  const ClosedModal := QrModal(false, "", None)

  /** The buttons of a session card, in the order they are rendered. */
  datatype Action = ShowQr | Reconnect | Logout | Delete

  datatype Icon = CheckCircle | Clock | AlertCircle

  /** `getStatusColor`: the badge classes for a status string. */
  function StatusColor(status: string): (r: string)
    ensures KnownStatus(status) <==> r != "text-gray-600 bg-gray-100"
  {
    match status
    case "authenticated" => "text-emerald-600 bg-emerald-100"
    case "connecting" => "text-yellow-600 bg-yellow-100"
    case "disconnected" => "text-red-600 bg-red-100"
    case _ => "text-gray-600 bg-gray-100"
  }

  /** `getStatusIcon`: the badge icon for a status string. */
  function StatusIcon(status: string): (r: Icon)
    ensures r == AlertCircle <==> status != "authenticated" && status != "connecting"
    ensures r == CheckCircle <==> status == "authenticated"
  {
    match status
    case "authenticated" => CheckCircle
    case "connecting" => Clock
    case _ => AlertCircle
  }

  predicate KnownStatus(status: string) {
    status in {"authenticated", "connecting", "disconnected"}
  }

  /** The three known statuses get three different badges. */
  lemma StatusColorTotal(a: string, b: string)
    ensures KnownStatus(a) && KnownStatus(b) && a != b ==> StatusColor(a) != StatusColor(b)
  {
  }

  /** The action buttons rendered on a session's card, in order. */
  function OfferedActions(s: Session): (r: seq<Action>)
    ensures |r| > 0 && r[|r| - 1] == Delete
    ensures ShowQr in r <==> s.status == "connecting"
    ensures Reconnect in r <==> s.status == "disconnected" && Truthy(s.phoneNumber)
    ensures Logout in r <==> s.status == "authenticated"
  {
    (if s.status == "connecting" then [ShowQr] else [])
    + (if s.status == "disconnected" && Truthy(s.phoneNumber) then [Reconnect] else [])
    + (if s.status == "authenticated" then [Logout] else [])
    + [Delete]
  }

  /** A card offers Delete and at most one lifecycle action; an unknown status offers only Delete. */
  lemma OfferedActionsShape(s: Session)
    ensures |OfferedActions(s)| <= 2
    ensures !KnownStatus(s.status) ==> OfferedActions(s) == [Delete]
    ensures s.status == "disconnected" && !Truthy(s.phoneNumber) ==> OfferedActions(s) == [Delete]
  {
  }

  /** `disabled={loadingStates[id]}`: an absent entry leaves the buttons enabled. */
  predicate Busy(loadingStates: map<string, bool>, key: string) {
    key in loadingStates && loadingStates[key]
  }

  /** The reply carries a code. */
  predicate YieldsCode(reply: QrReply) {
    QrCodeOf(reply).Ok? && QrCodeOf(reply).value.Some?
  }

  /**
   * What a poll run that issued `fetches` fetches over `polls` must look like: it stays inside the window,
   * passes over nulls and errors, and stops at the first code, which it reports; with no code it used the whole window.
   */
  ghost predicate PollSettled(polls: seq<QrReply>, code: Option<string>, fetches: nat) {
    && fetches <= MaxPolls
    && fetches <= |polls|
    && (code.Some? ==>
          && fetches >= 1
          && QrCodeOf(polls[fetches - 1]) == Ok(code)
          && forall j :: 0 <= j < fetches - 1 ==> !YieldsCode(polls[j]))
    && (code.None? ==>
          && fetches == |Take(polls, MaxPolls)|
          && forall j :: 0 <= j < fetches ==> !YieldsCode(polls[j]))
  }

  /** The follow-up polling of `handleShowQR`: `polls[k]` is the reply to the k-th tick of the interval. */
  method PollForQr(polls: seq<QrReply>) returns (code: Option<string>, fetches: nat)
    ensures PollSettled(polls, code, fetches)
    ensures code.Some? ==> code.value != ""
    ensures code.None? && |polls| >= MaxPolls ==> fetches == MaxPolls
    ensures code.None? && |polls| < MaxPolls ==> fetches == |polls|
  {
    var window := Take(polls, MaxPolls);
    code, fetches := None, 0;
    while fetches < |window| && code.None?
      invariant fetches <= |window|
      invariant code.None? ==> forall j :: 0 <= j < fetches ==> !YieldsCode(polls[j])
      invariant code.Some? ==> fetches >= 1 && QrCodeOf(polls[fetches - 1]) == Ok(code)
      invariant code.Some? ==> code.value != ""
      invariant code.Some? ==> forall j :: 0 <= j < fetches - 1 ==> !YieldsCode(polls[j])
    {
      var r := QrCodeOf(window[fetches]);
      if r.Ok? && r.value.Some? {
        code := r.value;
      }
      fetches := fetches + 1;
    }
  }

  /**
   * The modal update a poll tick performs, as the page writes it: `setQrModal(prev => ({ ...prev, qrCode }))`
   * keeps whatever modal is open, whichever session it belongs to.
   */
  function WithPolledCodeAsWritten(modal: QrModal, polledId: string, code: string): (m: QrModal)
    ensures m.isOpen == modal.isOpen && m.sessionId == modal.sessionId && m.qrCode == Some(code)
  {
    modal.(qrCode := Some(code))
  }

  /** A code polled for session A lands in the modal opened for session B. */
  lemma PolledCodeReachesOtherModal()
    ensures var m := WithPolledCodeAsWritten(QrModal(true, "B", None), "A", "qr-of-A");
      m.isOpen && m.sessionId == "B" && m.qrCode == Some("qr-of-A")
  {
  }

  /** The intended modal update: a polled code reaches only the modal of the session it was fetched for. */
  function WithPolledCode(modal: QrModal, polledId: string, code: string): (m: QrModal)
    ensures m.isOpen == modal.isOpen && m.sessionId == modal.sessionId
    ensures m.qrCode.Some? && m.qrCode != modal.qrCode ==> modal.sessionId == polledId
    ensures modal.sessionId == polledId ==> m.qrCode == Some(code)
    ensures modal.sessionId != polledId ==> m == modal
  {
    if modal.sessionId == polledId then modal.(qrCode := Some(code)) else modal
  }

  /** While the modal still belongs to the polled session, both updates agree. */
  lemma PolledCodeAgrees(modal: QrModal, polledId: string, code: string)
    requires modal.sessionId == polledId
    ensures WithPolledCode(modal, polledId, code) == WithPolledCodeAsWritten(modal, polledId, code)
  {
  }

  /** The sessions page: busy flags per key and the QR modal, over the shared session store. */
  class SessionsPage {
    const store: SessionStore
    var loadingStates: map<string, bool>
    var qrModal: QrModal

    constructor (store: SessionStore)
      ensures this.store == store
      ensures loadingStates == map[] && qrModal == ClosedModal
    {
      this.store := store;
      loadingStates := map[];
      qrModal := ClosedModal;
    }

    /** The 10 s interval's tick: a plain refresh of the store. */
    method RefreshTick(reply: ListReply)
      modifies store
      ensures RefreshSucceeds(reply) ==> store.sessions == reply.sessions
      ensures !RefreshSucceeds(reply) ==> store.sessions == old(store.sessions)
      ensures !store.loading
    {
      store.Refresh(reply);
    }

    /**
     * `handleCreateSession`: the create flag is set for the call and cleared afterwards whatever the outcome;
     * the id the service assigned is returned for the delayed QR modal, and a failure is swallowed.
     */
    method HandleCreateSession(reply: CreateReply, refreshReply: ListReply)
      returns (createdId: Option<string>)
      modifies this, store
      ensures loadingStates == old(loadingStates)[CreateKey := false]
      ensures qrModal == old(qrModal)
      ensures createdId == (if reply.CreateBody? && reply.success then Some(reply.sessionId) else None)
      ensures createdId.Some? ==>
        store.sessions == (if RefreshSucceeds(refreshReply) then refreshReply.sessions else old(store.sessions))
      ensures createdId.None? ==> store.sessions == old(store.sessions)
      ensures createdId.Some? ==> !store.loading
      ensures createdId.None? ==> store.loading == old(store.loading)
    {
      loadingStates := loadingStates[CreateKey := true];
      var _, result := store.Create(None, reply, refreshReply);
      createdId := if result.Ok? then Some(result.value) else None;
      loadingStates := loadingStates[CreateKey := false];
    }

    /**
     * `handleShowQR`: fetch once and open the modal with the answer; when the answer is null, poll until a
     * code arrives or the window closes. The busy flag is cleared as soon as the first fetch settled.
     * Returns the number of follow-up fetches issued.
     */
    method HandleShowQR(id: string, first: QrReply, polls: seq<QrReply>)
      returns (fetches: nat)
      modifies this
      ensures loadingStates == old(loadingStates)[id := false]
      ensures first.QrThrew? ==> qrModal == old(qrModal) && fetches == 0
      ensures first.QrBody? ==> qrModal.isOpen && qrModal.sessionId == id
      ensures YieldsCode(first) ==> qrModal.qrCode == QrCodeOf(first).value && fetches == 0
      ensures first.QrBody? && !YieldsCode(first) ==> PollSettled(polls, qrModal.qrCode, fetches)
    {
      loadingStates := loadingStates[id := true];
      var first' := QrCodeOf(first);
      fetches := 0;
      if first'.Ok? {
        qrModal := QrModal(true, id, first'.value);
      }
      loadingStates := loadingStates[id := false];
      if first' == Ok(None) {
        var code;
        code, fetches := PollForQr(polls);
        if code.Some? {
          qrModal := WithPolledCode(qrModal, id, code.value);
        }
      }
    }

    /** `handleDeleteSession`: nothing happens unless the user confirmed; a failure is swallowed. */
    method HandleDeleteSession(id: string, confirmed: bool, reply: AckReply)
      modifies this, store
      ensures !confirmed ==> loadingStates == old(loadingStates) && store.sessions == old(store.sessions)
      ensures confirmed ==> loadingStates == old(loadingStates)[id := false]
      ensures confirmed && AckOutcome(reply, "Failed to delete session").Done? ==>
        store.sessions == FilterOut(old(store.sessions), id)
      ensures confirmed && AckOutcome(reply, "Failed to delete session").Failed? ==>
        store.sessions == old(store.sessions)
      ensures store.loading == old(store.loading)
      ensures qrModal == old(qrModal)
    {
      if !confirmed {
        return;
      }
      loadingStates := loadingStates[id := true];
      var _ := store.Delete(id, reply);
      loadingStates := loadingStates[id := false];
    }

    /** `handleReconnectSession`: flag on, reconnect (which refreshes on success), flag off; a failure is swallowed. */
    method HandleReconnectSession(id: string, reply: AckReply, refreshReply: ListReply)
      modifies this, store
      ensures loadingStates == old(loadingStates)[id := false]
      ensures AckOutcome(reply, "Failed to reconnect session").Done? && RefreshSucceeds(refreshReply) ==>
        store.sessions == refreshReply.sessions
      ensures !(AckOutcome(reply, "Failed to reconnect session").Done? && RefreshSucceeds(refreshReply)) ==>
        store.sessions == old(store.sessions)
      ensures AckOutcome(reply, "Failed to reconnect session").Done? ==> !store.loading
      ensures AckOutcome(reply, "Failed to reconnect session").Failed? ==> store.loading == old(store.loading)
      ensures qrModal == old(qrModal)
    {
      loadingStates := loadingStates[id := true];
      var _ := store.Reconnect(id, reply, refreshReply);
      loadingStates := loadingStates[id := false];
    }

    /** `handleLogoutSession`: nothing happens unless the user confirmed; a failure is swallowed. */
    method HandleLogoutSession(id: string, confirmed: bool, reply: AckReply, refreshReply: ListReply)
      modifies this, store
      ensures !confirmed ==> loadingStates == old(loadingStates) && store.sessions == old(store.sessions)
      ensures confirmed ==> loadingStates == old(loadingStates)[id := false]
      ensures confirmed && AckOutcome(reply, "Failed to logout session").Done? && RefreshSucceeds(refreshReply) ==>
        store.sessions == refreshReply.sessions
      ensures !(confirmed && AckOutcome(reply, "Failed to logout session").Done? && RefreshSucceeds(refreshReply)) ==>
        store.sessions == old(store.sessions)
      ensures confirmed && AckOutcome(reply, "Failed to logout session").Done? ==> !store.loading
      ensures !(confirmed && AckOutcome(reply, "Failed to logout session").Done?) ==> store.loading == old(store.loading)
      ensures qrModal == old(qrModal)
    {
      if !confirmed {
        return;
      }
      loadingStates := loadingStates[id := true];
      var _ := store.Logout(id, reply, refreshReply);
      loadingStates := loadingStates[id := false];
    }

    /** The modal's close button. */
    method CloseQrModal()
      modifies this
      ensures qrModal == ClosedModal && loadingStates == old(loadingStates)
    {
      qrModal := ClosedModal;
    }
  }

  /** Setting one key's busy flag leaves every other key's flag as it was. */
  lemma FlagUpdateIsLocal(loadingStates: map<string, bool>, key: string, value: bool, other: string)
    requires other != key
    ensures Busy(loadingStates[key := value], other) == Busy(loadingStates, other)
    ensures Busy(loadingStates[key := value], key) == value
  {
  }
}
