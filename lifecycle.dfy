/** The session record of the multi-instance service and what one event batch
    does to it. `React` is the body of the `sock.ev.process` callback that
    `initializeInstance` installs, applied to the record the callback closes
    over; the effects outside the record (detaching the listeners, deleting
    the auth folder, scheduling a reconnect, saving credentials) are returned
    for the service to carry out. */
module Lifecycle {
  import opened Common
  import opened Protocol

  /** `maxQrAttempts` of every record. */
  const MAX_QR_ATTEMPTS: nat := 3

  /** `connectionState` of a record. */
  datatype ConnState = Connecting | QrReady | QrLimitReached | Connected | LoggedOut

  /** The `instanceData` object of one initialisation (its socket is the
      handle under which the service keeps it). */
  datatype Record = Record(
    id: string,
    qrCode: Option<string>,
    qrTimestamp: Option<int>,
    qrAttempts: nat,
    state: ConnState,
    phoneNumber: Option<string>,
    name: string,
    createdAt: string,
    isInitializing: bool,
    qrLimitReached: bool)

  /** What `getInstanceStatus` reports. */
  datatype Status = Status(status: ConnState, qr: Option<string>, qrTimestamp: Option<int>, phoneNumber: Option<string>)

  /** What `getAllInstances` reports per record. */
  datatype Summary = Summary(id: string, name: string, status: ConnState, phoneNumber: Option<string>, createdAt: string)

  function StatusOf(r: Record): Status {
    Status(r.state, r.qrCode, r.qrTimestamp, r.phoneNumber)
  }

  function SummaryOf(r: Record): Summary {
    Summary(r.id, r.name, r.state, r.phoneNumber, r.createdAt)
  }

  /** The record invariant every reachable record satisfies. */
  predicate RecordOk(r: Record) {
    && (r.qrLimitReached ==> r.qrAttempts >= MAX_QR_ATTEMPTS)
    && (r.state == QrReady ==> r.qrCode.Some?)
    && (r.state == Connected ==> r.qrCode.None?)
    && (r.state == QrLimitReached ==> r.qrCode.None? && r.qrLimitReached)
    && (r.state == LoggedOut ==> r.qrCode.None? && r.phoneNumber.None? && r.qrAttempts == 0 && !r.qrLimitReached)
  }

  /** States in which a record's socket no longer has listeners. */
  predicate Final(s: ConnState) {
    s == QrLimitReached || s == LoggedOut
  }

  /** `state.creds?.me?.id?.split(':')[0] || null`: the phone number of the
      account bound to stored credentials. */
  function PhoneOf(account: Option<string>): (p: Option<string>)
    ensures p.Some? ==> account.Some? && p.value != "" && ':' !in p.value
    ensures p.Some? ==> StartsWith(account.value, p.value)
    // the whole part before the first `:`, not a shorter piece of it
    ensures p.Some? ==> |p.value| == |account.value| || account.value[|p.value|] == ':'
    ensures p.Some? ==> p.value == FirstField(account.value, ':')
    ensures p.None? <==> account.None? || FirstField(account.value, ':') == ""
    ensures account.Some? && account.value != "" && account.value[0] != ':' ==> p.Some?
  {
    if account.None? then None
    else
      var prefix := FirstField(account.value, ':');
      assert account.value != "" && account.value[0] != ':' ==> prefix != "";
      if prefix != "" then Some(prefix) else None
  }

  /** The record `initializeInstance` installs: `name` defaults to the id,
      `createdAt` to the current time, and the phone number comes from the
      credentials loaded for the id. */
  function FreshRecord(id: string, name: Field, createdAt: Field, now: string, account: Option<string>): (r: Record)
    ensures r.id == id && r.name == Or(name, id) && r.createdAt == Or(createdAt, now)
    ensures r.state == ConnState.Connecting && r.qrCode.None? && r.qrAttempts == 0
    ensures r.isInitializing && !r.qrLimitReached
    ensures r.phoneNumber == PhoneOf(account)
    ensures RecordOk(r)
  {
    Record(id, None, None, 0, ConnState.Connecting, PhoneOf(account), Or(name, id), Or(createdAt, now), true, false)
  }

  /** What the service does beside updating the record. */
  datatype Reaction = Reaction(
    record: Record,
    detach: bool,          // sock.ev.removeAllListeners()
    purge: bool,           // removeAuthFolder(instanceId)
    reconnect: bool,       // setTimeout(initializeInstance(...), 3000)
    save: Option<Creds>)   // saveCreds() for a creds.update in the batch

  predicate HasQr(ev: Events) {
    ev.update.Some? && Truthy(ev.update.value.qr)
  }

  predicate IsClose(ev: Events) {
    ev.update.Some? && ev.update.value.connection.Some? && ev.update.value.connection.value.Close?
  }

  predicate IsOpen(ev: Events) {
    ev.update.Some? && ev.update.value.connection.Some? && ev.update.value.connection.value.Open?
  }

  predicate IsConnecting(ev: Events) {
    ev.update.Some? && ev.update.value.connection == Some(Conn.Connecting)
  }

  /** The close was the remote unlinking the device. */
  predicate IsUnlink(ev: Events) {
    IsClose(ev) && ev.update.value.connection.value.statusCode == Some(LOGGED_OUT)
  }

  /** The QR-limit latch once the batch's pairing code (if any) is counted. */
  predicate LimitAfter(r: Record, ev: Events) {
    r.qrLimitReached || (HasQr(ev) && r.qrAttempts + 1 >= MAX_QR_ATTEMPTS)
  }

  /** The `connection.update` handler of src/services/whatsappService.js on
      the record it closes over, followed by the `creds.update` handling. */
  function React(r: Record, ev: Events, nowMs: int): (x: Reaction)
    // identity and metadata never change
    ensures x.record.id == r.id && x.record.name == r.name && x.record.createdAt == r.createdAt
    ensures RecordOk(r) ==> RecordOk(x.record)
    ensures ev.update.None? ==> x == Reaction(r, false, false, false, ev.creds)
    // every close detaches the listeners and ends the initialisation
    ensures x.detach <==> IsClose(ev)
    // only a close reaches a terminal state
    ensures !Final(r.state) && Final(x.record.state) ==> x.detach
    ensures IsClose(ev) ==> !x.record.isInitializing
    // a close with the latch set: terminal, no reconnect, no purge, the rest of the batch skipped
    ensures IsClose(ev) && LimitAfter(r, ev) ==>
              x.record.state == QrLimitReached && x.record.qrCode.None? && !x.reconnect && !x.purge && x.save.None?
    // a remote unlink without the latch: logged out, counters reset, credentials purged
    ensures x.purge <==> IsUnlink(ev) && !LimitAfter(r, ev)
    ensures x.purge ==> x.record.state == LoggedOut && x.record.qrCode.None? && x.record.phoneNumber.None?
                        && x.record.qrAttempts == 0 && !x.record.qrLimitReached
    // any other close: back to connecting with exactly one reconnect
    ensures x.reconnect <==> IsClose(ev) && !IsUnlink(ev) && !LimitAfter(r, ev)
    ensures x.reconnect ==> x.record.state == ConnState.Connecting && !x.purge
    ensures !(IsClose(ev) && LimitAfter(r, ev)) ==> x.save == ev.creds
    // the pairing-code counter moves by exactly one per code and resets only on unlink
    ensures x.record.qrAttempts == if x.purge then 0 else r.qrAttempts + (if HasQr(ev) then 1 else 0)
    ensures !x.purge ==> x.record.qrLimitReached == LimitAfter(r, ev)
    ensures HasQr(ev) && !IsClose(ev) && !IsOpen(ev) ==>
              && x.record.state == QrReady && x.record.qrCode == Some(ev.update.value.qr.value)
              && x.record.qrTimestamp == Some(nowMs) && !x.record.isInitializing
    ensures !HasQr(ev) && IsConnecting(ev) ==> x.record == r.(state := ConnState.Connecting)
    // an update with neither a code nor a change of connection leaves the record alone
    ensures ev.update.Some? && ev.update.value.connection.None? && !HasQr(ev) ==> x.record == r
    // what no branch touches: the code's timestamp, the phone number outside open and
    // unlink, the initialisation flag outside a code, a close or an open
    ensures x.record.qrTimestamp == if HasQr(ev) then Some(nowMs) else r.qrTimestamp
    ensures !x.purge && !IsOpen(ev) ==> x.record.phoneNumber == r.phoneNumber
    ensures x.record.isInitializing == (r.isInitializing && !HasQr(ev) && !IsClose(ev) && !IsOpen(ev))
    // a reconnecting close keeps the displayed code, or shows the batch's new one
    ensures x.reconnect ==> x.record.qrCode == if HasQr(ev) then Some(ev.update.value.qr.value) else r.qrCode
    // open: connected, code cleared, phone number from the user id
    ensures IsOpen(ev) ==>
              && x.record.state == Connected && x.record.qrCode.None? && !x.record.isInitializing
              && x.record.phoneNumber == Some(FirstField(ev.update.value.connection.value.userId, ':'))
              && !x.detach && !x.reconnect && !x.purge
  {
    match ev.update
    case None => Reaction(r, false, false, false, ev.creds)
    case Some(u) =>
      var r1 := if u.connection == Some(Conn.Connecting) then r.(state := ConnState.Connecting) else r;
      var r2 :=
        if Truthy(u.qr) then
          var n := r1.qrAttempts + 1;
          r1.(qrAttempts := n, qrCode := Some(u.qr.value), qrTimestamp := Some(nowMs), state := QrReady,
              isInitializing := false, qrLimitReached := if n >= MAX_QR_ATTEMPTS then true else r1.qrLimitReached)
        else r1;
      match u.connection
      case Some(Close(code)) =>
        var r3 := r2.(isInitializing := false);
        if r3.qrLimitReached then
          Reaction(r3.(state := QrLimitReached, qrCode := None), true, false, false, None)
        else if code != Some(LOGGED_OUT) then
          Reaction(r3.(state := ConnState.Connecting), true, false, true, ev.creds)
        else
          Reaction(r3.(state := LoggedOut, qrCode := None, phoneNumber := None, qrAttempts := 0, qrLimitReached := false),
                   true, true, false, ev.creds)
      case Some(Open(user)) =>
        Reaction(r2.(state := Connected, qrCode := None, isInitializing := false,
                     phoneNumber := Some(FirstField(user, ':'))), false, false, false, ev.creds)
      case _ => Reaction(r2, false, false, false, ev.creds)
  }

  /** A batch holding only a pairing code. */
  function QrEvent(code: string): Events {
    Events(Some(ConnUpdate(None, Some(code))), None)
  }

  /** A batch holding only a close with the given status code. */
  function CloseEvent(code: Option<int>): Events {
    Events(Some(ConnUpdate(Some(Close(code)), None)), None)
  }

  /** The record after a run of pairing-code batches. */
  function AfterQrs(r: Record, codes: seq<string>, nowMs: int): Record
    decreases |codes|
  {
    if codes == [] then r else AfterQrs(React(r, QrEvent(codes[0]), nowMs).record, codes[1..], nowMs)
  }

  /** `k` pairing codes raise the counter by exactly `k`, leave the latest code
      on display, and set the latch once the counter reaches the cap. */
  lemma {:induction false} AfterQrsCounts(r: Record, codes: seq<string>, nowMs: int)
    requires forall i :: 0 <= i < |codes| ==> codes[i] != ""
    ensures var s := AfterQrs(r, codes, nowMs);
            && s.qrAttempts == r.qrAttempts + |codes|
            && s.qrLimitReached == (r.qrLimitReached || (|codes| > 0 && r.qrAttempts + |codes| >= MAX_QR_ATTEMPTS))
            && s.id == r.id && s.name == r.name && s.createdAt == r.createdAt
            && (codes != [] ==> s.state == QrReady && s.qrCode == Some(codes[|codes| - 1]) && !s.isInitializing)
            && (codes == [] ==> s == r)
    decreases |codes|
  {
    if codes != [] {
      var r' := React(r, QrEvent(codes[0]), nowMs).record;
      AfterQrsCounts(r', codes[1..], nowMs);
      if |codes| > 1 {
        assert codes[1..][|codes[1..]| - 1] == codes[|codes| - 1];
      }
    }
  }

  /** Once a fresh record has shown three or more pairing codes without
      connecting, the next close of any kind ends in `qr_limit_reached`
      without a reconnect and without deleting the credentials. */
  lemma CapStopsReconnect(id: string, name: Field, createdAt: Field, now: string, account: Option<string>,
                          codes: seq<string>, nowMs: int, status: Option<int>)
    requires |codes| >= MAX_QR_ATTEMPTS
    requires forall i :: 0 <= i < |codes| ==> codes[i] != ""
    ensures var s := AfterQrs(FreshRecord(id, name, createdAt, now, account), codes, nowMs);
            var x := React(s, CloseEvent(status), nowMs);
            && x.record.state == QrLimitReached && x.record.qrCode.None?
            && x.detach && !x.reconnect && !x.purge
  {
    AfterQrsCounts(FreshRecord(id, name, createdAt, now, account), codes, nowMs);
  }

  /** Below the cap a transient close reconnects: after one or two codes a
      close that is not an unlink schedules exactly the reconnect. */
  lemma BelowCapReconnects(id: string, name: Field, createdAt: Field, now: string, account: Option<string>,
                           codes: seq<string>, nowMs: int, status: Option<int>)
    requires |codes| < MAX_QR_ATTEMPTS
    requires forall i :: 0 <= i < |codes| ==> codes[i] != ""
    requires status != Some(LOGGED_OUT)
    ensures var s := AfterQrs(FreshRecord(id, name, createdAt, now, account), codes, nowMs);
            var x := React(s, CloseEvent(status), nowMs);
            && x.record.state == ConnState.Connecting && x.reconnect && !x.purge
            && x.record.qrAttempts == |codes|
  {
    AfterQrsCounts(FreshRecord(id, name, createdAt, now, account), codes, nowMs);
  }

  /** An established connection does not reset the counter or the latch: a session paired on
      its third code is put in `qr_limit_reached` by its first transient drop
      instead of reconnecting. */
  lemma PairedAtCapStaysLatched(r: Record, codes: seq<string>, user: string, nowMs: int, status: Option<int>)
    requires RecordOk(r) && r.qrAttempts == 0
    requires |codes| == MAX_QR_ATTEMPTS
    requires forall i :: 0 <= i < |codes| ==> codes[i] != ""
    ensures var s := AfterQrs(r, codes, nowMs);
            var paired := React(s, Events(Some(ConnUpdate(Some(Open(user)), None)), None), nowMs).record;
            var x := React(paired, CloseEvent(status), nowMs);
            && paired.state == Connected && paired.qrAttempts == MAX_QR_ATTEMPTS && paired.qrLimitReached
            && x.record.state == QrLimitReached && !x.reconnect
  {
    AfterQrsCounts(r, codes, nowMs);
  }
}
