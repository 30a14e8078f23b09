/** The single-session service of src/services/whatsappService.ts: one socket,
    one auth folder (`baileys_auth_info/`), and a `connectionState`/`qrCode`
    pair driven by the socket's `connection.update` events. Unlike the
    multi-instance service it has no pairing-code cap, never detaches the
    listeners of a replaced socket, and re-initialises after every close,
    an unlink included. */
module SingleSession {
  import opened Common
  import opened Protocol

  /** The values `connectionState` takes. */
  datatype SessionState = Disconnected | QrReady | Connected | LoggedOut

  /** What the handler and `logout` change: the displayed pairing code, the
      state, whether the auth folder exists, and how many `initialize()` calls
      have been started but have not yet opened their socket. */
  datatype Session = Session(qrCode: Option<string>, state: SessionState, authFolder: bool, pendingInits: nat)

  /** A pairing code is shown exactly while the state is `qr_ready`, and it is
      never the empty string. */
  predicate Coherent(s: Session) {
    (s.qrCode.Some? <==> s.state == QrReady) && (s.qrCode.Some? ==> s.qrCode.value != "")
  }

  /** The close asks to reconnect: its status code is not `loggedOut` (an
      absent code counts as "not logged out"). */
  predicate ShouldReconnect(code: Option<int>)
    ensures ShouldReconnect(code) <==> code.None? || code.value != LOGGED_OUT
  {
    code != Some(LOGGED_OUT)
  }

  /** The `sock.ev.process` callback on one batch. The `creds.update` part
      only rewrites `creds.json`, which this model does not represent. */
  function Apply(s: Session, ev: Events): (t: Session)
    ensures Coherent(s) ==> Coherent(t)
    ensures ev.update.None? ==> t == s
    // a pairing code is shown and the state is qr_ready, unless the same batch closes or opens
    ensures (ev.update.Some? && Truthy(ev.update.value.qr)
             && (ev.update.value.connection.None? || ev.update.value.connection == Some(Conn.Connecting))) ==>
              t == s.(qrCode := ev.update.value.qr, state := QrReady)
    // every close starts exactly one initialize(); others leave the counter alone
    ensures t.pendingInits == s.pendingInits + (if ev.update.Some? && ev.update.value.connection.Some?
                                                   && ev.update.value.connection.value.Close? then 1 else 0)
    // an update with no code that neither closes nor opens changes nothing
    ensures (ev.update.Some? && !Truthy(ev.update.value.qr)
             && (ev.update.value.connection.None? || ev.update.value.connection == Some(Conn.Connecting))) ==> t == s
    // a reconnecting close keeps the displayed code, or shows the batch's new one
    ensures ev.update.Some? && ev.update.value.connection.Some? && ev.update.value.connection.value.Close?
            && ShouldReconnect(ev.update.value.connection.value.statusCode) ==>
              t.qrCode == if Truthy(ev.update.value.qr) then ev.update.value.qr else s.qrCode
    // a reconnecting close leaves the state and the folder as they were (after the batch's code, if any)
    ensures ev.update.Some? && ev.update.value.connection.Some? && ev.update.value.connection.value.Close?
            && ShouldReconnect(ev.update.value.connection.value.statusCode) ==>
              t.authFolder == s.authFolder
              && t.state == (if Truthy(ev.update.value.qr) then QrReady else s.state)
    // an unlink: logged out, no code, folder removed
    ensures ev.update.Some? && ev.update.value.connection.Some? && ev.update.value.connection.value.Close?
            && !ShouldReconnect(ev.update.value.connection.value.statusCode) ==>
              t.state == LoggedOut && t.qrCode.None? && !t.authFolder
    // open: connected, no code
    ensures ev.update.Some? && ev.update.value.connection.Some? && ev.update.value.connection.value.Open? ==>
              t.state == Connected && t.qrCode.None? && t.authFolder == s.authFolder
    // only an unlink removes the folder
    ensures t.authFolder == if Closes(ev) && !ShouldReconnect(ev.update.value.connection.value.statusCode) then false
                            else s.authFolder
  {
    match ev.update
    case None => s
    case Some(u) =>
      var s1 := if Truthy(u.qr) then s.(qrCode := u.qr, state := QrReady) else s;
      match u.connection
      case Some(Close(code)) =>
        if ShouldReconnect(code) then s1.(pendingInits := s1.pendingInits + 1)
        else s1.(state := LoggedOut, qrCode := None, authFolder := false, pendingInits := s1.pendingInits + 1)
      case Some(Open(_)) => s1.(state := Connected, qrCode := None)
      case _ => s1
  }

  /** The session after a run of batches. */
  function Run(s: Session, evs: seq<Events>): Session
    decreases |evs|
  {
    if evs == [] then s else Run(Apply(s, evs[0]), evs[1..])
  }

  /** The batch carries a close, whatever its status code. */
  predicate Closes(ev: Events) {
    ev.update.Some? && ev.update.value.connection.Some? && ev.update.value.connection.value.Close?
  }

  /** How many batches of a run carry a close. */
  function CloseCount(evs: seq<Events>): nat
    decreases |evs|
  {
    if evs == [] then 0 else (if Closes(evs[0]) then 1 else 0) + CloseCount(evs[1..])
  }

  /** There is no cap: every close of a run, an unlink included, starts one
      more initialisation, however many pairing codes came before, and the
      coherence of code and state is kept throughout. */
  lemma {:induction false} EveryCloseReinitializes(s: Session, evs: seq<Events>)
    requires Coherent(s)
    ensures Run(s, evs).pendingInits == s.pendingInits + CloseCount(evs)
    ensures Coherent(Run(s, evs))
    decreases |evs|
  {
    if evs != [] {
      EveryCloseReinitializes(Apply(s, evs[0]), evs[1..]);
    }
  }

  /** A pairing code followed by a plain close leaves the code on display:
      the state stays `qr_ready` while the next socket is being opened. */
  lemma CodeSurvivesReconnect(s: Session, code: string, status: Option<int>)
    requires code != "" && ShouldReconnect(status)
    ensures var t := Apply(Apply(s, Events(Some(ConnUpdate(None, Some(code))), None)),
                           Events(Some(ConnUpdate(Some(Close(status)), None)), None));
            t.state == QrReady && t.qrCode == Some(code) && t.pendingInits == s.pendingInits + 1
  {
  }

  class WhatsAppService {
    var sock: Option<Handle>          // `this.sock`, undefined until the first socket opens
    var qrCode: Option<string>        // `this.qrCode`
    var connectionState: SessionState // `this.connectionState`
    var authFolder: bool              // baileys_auth_info/ exists
    var pendingInits: nat             // initialize() calls still awaiting their socket
    var nextHandle: Handle            // the next socket `makeWASocket` returns
    var log: seq<SocketCall>          // socket calls made, in order

    /** The part of the state the handler and `logout` act on. */
    function View(): Session
      reads this
    {
      Session(qrCode, connectionState, authFolder, pendingInits)
    }

    ghost predicate Valid()
      reads this
    {
      Coherent(View()) && (sock.Some? ==> sock.value < nextHandle)
    }

    /** `new WhatsAppService()`: disconnected, no code, no socket yet, and the
        constructor's own `initialize()` under way. */
    constructor (folderExists: bool)
      ensures Valid()
      ensures connectionState == Disconnected && qrCode.None? && sock.None?
      ensures pendingInits == 1 && authFolder == folderExists && log == []
    {
      sock, qrCode, connectionState := None, None, Disconnected;
      authFolder, pendingInits, nextHandle, log := folderExists, 1, 0, [];
    }

    /** One `initialize()` call resumes: `useMultiFileAuthState` creates the
        folder when missing and `makeWASocket` replaces the socket. The old
        socket keeps its listeners, so its later events still reach the
        handler. */
    method CompleteInitialize() returns (h: Handle)
      requires Valid() && pendingInits > 0
      modifies this
      ensures Valid()
      ensures h == old(nextHandle) && sock == Some(h) && nextHandle == h + 1
      ensures pendingInits == old(pendingInits) - 1 && authFolder
      ensures qrCode == old(qrCode) && connectionState == old(connectionState) && log == old(log)
    {
      pendingInits := pendingInits - 1;
      authFolder := true;
      h := nextHandle;
      nextHandle := nextHandle + 1;
      sock := Some(h);
    }

    /** A batch from any socket this service has created. */
    method HandleEvents(ev: Events)
      requires Valid()
      modifies this
      ensures Valid()
      ensures View() == Apply(old(View()), ev)
      ensures sock == old(sock) && nextHandle == old(nextHandle) && log == old(log)
    {
      if ev.update.None? {
        return;
      }
      var u := ev.update.value;
      if Truthy(u.qr) {
        qrCode := u.qr;
        connectionState := QrReady;
      }
      if u.connection.Some? && u.connection.value.Close? {
        if ShouldReconnect(u.connection.value.statusCode) {
          pendingInits := pendingInits + 1;
        } else {
          connectionState := LoggedOut;
          qrCode := None;
          authFolder := false;
          pendingInits := pendingInits + 1;
        }
      } else if u.connection.Some? && u.connection.value.Open? {
        connectionState := Connected;
        qrCode := None;
      }
    }

    /** `sendMessage`: throws without a socket; otherwise composing, the text,
        paused. */
    method SendMessage(number: string, text: Field) returns (res: SendResult)
      modifies this`log
      ensures sock.None? ==> res == NotInitialized && log == old(log)
      ensures sock.Some? ==> res == Sent && log == old(log) + TextCalls(sock.value, number, text)
    {
      if sock.None? {
        return NotInitialized;
      }
      log := log + TextCalls(sock.value, number, text);
      res := Sent;
    }

    /** `sendDocument`: throws without a socket, or before any call when the
        content or the name is absent; the mimetype follows the file name. */
    method SendDocument(number: string, documentBase64: Field, fileName: Field, caption: Field) returns (res: SendResult)
      modifies this`log
      ensures sock.None? ==> res == NotInitialized && log == old(log)
      ensures sock.Some? ==>
                var calls := DocumentCalls(sock.value, number, documentBase64, fileName, caption);
                && res == (if calls.Some? then Sent else BadArgument)
                && log == old(log) + (if calls.Some? then calls.value else [])
    {
      if sock.None? {
        return NotInitialized;
      }
      var calls := DocumentCalls(sock.value, number, documentBase64, fileName, caption);
      if calls.None? {
        return BadArgument;
      }
      log := log + calls.value;
      res := Sent;
    }

    /** `sendMedia`: throws without a socket or without content; an image or
        a video is sent between the presence updates, any other type nothing. */
    method SendMedia(number: string, mediaBase64: Field, kind: string, caption: Field) returns (res: SendResult)
      modifies this`log
      ensures sock.None? ==> res == NotInitialized && log == old(log)
      ensures sock.Some? ==>
                var calls := MediaCalls(sock.value, number, mediaBase64, kind, caption);
                && res == (if calls.Some? then Sent else BadArgument)
                && log == old(log) + (if calls.Some? then calls.value else [])
    {
      if sock.None? {
        return NotInitialized;
      }
      var calls := MediaCalls(sock.value, number, mediaBase64, kind, caption);
      if calls.None? {
        return BadArgument;
      }
      log := log + calls.value;
      res := Sent;
    }

    /** `logout`: the socket (if any) is asked to unlink, a failure of which is
        swallowed; then the folder is removed, the state is logged out with no
        code, a new initialisation is scheduled, and the result is true. The
        socket itself is kept. */
    method Logout() returns (ok: bool)
      requires Valid()
      modifies this
      ensures Valid()
      ensures ok
      ensures connectionState == LoggedOut && qrCode.None? && !authFolder
      ensures pendingInits == old(pendingInits) + 1
      ensures sock == old(sock) && nextHandle == old(nextHandle)
      ensures log == old(log) + (if sock.Some? then [Unlink(sock.value)] else [])
    {
      if sock.Some? {
        log := log + [Unlink(sock.value)];
      }
      authFolder := false;
      connectionState := LoggedOut;
      qrCode := None;
      pendingInits := pendingInits + 1;
      ok := true;
    }
  }
}
