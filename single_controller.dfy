/** The request rules of src/controllers/whatsappController.ts in front of the
    single-session service: the per-type validation of `sendWhatsApp` (an
    unknown type is sent as a document), `getQr`, `getStatus` and `logout`. */
module SingleController {
  import opened Common
  import opened Protocol
  import SS = SingleSession

  const OK: int := 200
  const BAD_REQUEST: int := 400
  const SERVER_ERROR: int := 500

  /** The fields of a `sendWhatsApp` body (`kind` is the body's `type`). */
  datatype SendRequest = SendRequest(number: Field, kind: Field, message: Field, media: Field,
                                     filename: Field, caption: Field)

  /** A service call the controller makes, with its arguments. */
  datatype Call =
    | SendText(number: string, text: string)
    | SendMedia(number: string, media: string, mediaKind: string, caption: string)
    | SendDocument(number: string, media: string, fileName: string, caption: string)

  /** Either a 400 answer before any service call, or the one call to make. */
  datatype Dispatch = Reject | Invoke(call: Call)

  /** The validation and dispatch of `sendWhatsApp`. */
  function DispatchSingle(req: SendRequest): (d: Dispatch)
    ensures !Truthy(req.number) ==> d.Reject?
    ensures d.Invoke? ==> Truthy(req.number) && d.call.number == req.number.value
    // text needs a message
    ensures Truthy(req.number) && req.kind == Some("text") ==>
              (d.Reject? <==> !Truthy(req.message))
              && (d.Invoke? ==> d.call == SendText(req.number.value, req.message.value))
    // media needs content; the kind is video exactly for a .mp4 name
    ensures Truthy(req.number) && req.kind == Some("media") ==>
              (d.Reject? <==> !Truthy(req.media))
              && (d.Invoke? ==> d.call == SendMedia(req.number.value, req.media.value, MediaKindFor(req.filename), Or(req.caption, "")))
    // every other type, an absent one included, is a document needing content and a name
    ensures Truthy(req.number) && req.kind != Some("text") && req.kind != Some("media") ==>
              (d.Reject? <==> !Truthy(req.media) || !Truthy(req.filename))
              && (d.Invoke? ==> d.call == SendDocument(req.number.value, req.media.value, req.filename.value, Or(req.caption, "")))
  {
    if !Truthy(req.number) then Reject
    else
      var number := req.number.value;
      if req.kind == Some("text") then
        if !Truthy(req.message) then Reject else Invoke(SendText(number, req.message.value))
      else if req.kind == Some("media") then
        if !Truthy(req.media) then Reject
        else Invoke(SendMedia(number, req.media.value, MediaKindFor(req.filename), Or(req.caption, "")))
      else if !Truthy(req.media) || !Truthy(req.filename) then Reject
      else Invoke(SendDocument(number, req.media.value, req.filename.value, Or(req.caption, "")))
  }

  /** The socket calls the service makes for a call on socket `h`; the
      arguments validation supplied are all present, so decoding succeeds. */
  function CallPlan(h: Handle, c: Call): (calls: seq<SocketCall>)
    ensures Polite(calls, h, Jid(c.number))
    ensures c.SendMedia? && c.mediaKind != "image" && c.mediaKind != "video" ==> |calls| == 2
    ensures !(c.SendMedia? && c.mediaKind != "image" && c.mediaKind != "video") ==> |calls| == 3
  {
    match c
    case SendText(number, text) => TextCalls(h, number, Some(text))
    case SendMedia(number, media, kind, caption) => MediaCalls(h, number, Some(media), kind, Some(caption)).value
    case SendDocument(number, media, fileName, caption) =>
      DocumentCalls(h, number, Some(media), Some(fileName), Some(caption)).value
  }

  /** A request that passes validation delivers exactly one message between
      the presence updates: the media kind it picks is always image or video. */
  lemma DispatchedDeliversOnce(req: SendRequest, h: Handle)
    requires DispatchSingle(req).Invoke?
    ensures var calls := CallPlan(h, DispatchSingle(req).call);
            |calls| == 3 && calls[1].Deliver?
  {
  }

  /** Make the call on the service. */
  method Perform(svc: SS.WhatsAppService, c: Call) returns (res: SendResult)
    modifies svc`log
    ensures res == (if svc.sock.Some? then Sent else NotInitialized)
    ensures svc.log == old(svc.log) + (if svc.sock.Some? then CallPlan(svc.sock.value, c) else [])
  {
    match c
    case SendText(number, text) =>
      res := svc.SendMessage(number, Some(text));
    case SendMedia(number, media, kind, caption) =>
      res := svc.SendMedia(number, Some(media), kind, Some(caption));
    case SendDocument(number, media, fileName, caption) =>
      res := svc.SendDocument(number, Some(media), Some(fileName), Some(caption));
  }

  /** `sendWhatsApp`: 400 with no service call for a rejected body; otherwise
      the call is made, and it fails (500) only when there is no socket yet. */
  method SendWhatsApp(svc: SS.WhatsAppService, req: SendRequest) returns (status: int)
    modifies svc`log
    ensures DispatchSingle(req).Reject? ==> status == BAD_REQUEST && svc.log == old(svc.log)
    ensures DispatchSingle(req).Invoke? ==>
              && status == (if svc.sock.Some? then OK else SERVER_ERROR)
              && svc.log == old(svc.log) + (if svc.sock.Some? then CallPlan(svc.sock.value, DispatchSingle(req).call) else [])
  {
    var d := DispatchSingle(req);
    if d.Reject? {
      return BAD_REQUEST;
    }
    var res := Perform(svc, d.call);
    status := if res == Sent then OK else SERVER_ERROR;
  }

  /** What `getQr` answers. */
  datatype QrAnswer = QrShown(qr: string) | QrUnavailable

  /** `getQr`: the pairing code exactly when the service holds a non-empty one. */
  function GetQr(svc: SS.WhatsAppService): (a: QrAnswer)
    reads svc
    ensures a.QrShown? <==> Truthy(svc.qrCode)
    ensures a.QrShown? ==> Some(a.qr) == svc.qrCode
  {
    if Truthy(svc.qrCode) then QrShown(svc.qrCode.value) else QrUnavailable
  }

  /** Over a coherent service, `getQr` succeeds exactly in the `qr_ready`
      state. */
  lemma QrExactlyWhenReady(svc: SS.WhatsAppService)
    requires svc.Valid()
    ensures GetQr(svc).QrShown? <==> svc.connectionState == SS.QrReady
  {
  }

  /** `logout`: the service always reports true, so the answer is a 200. */
  method Logout(svc: SS.WhatsAppService) returns (status: int)
    requires svc.Valid()
    modifies svc
    ensures svc.Valid()
    ensures status == OK
    ensures svc.connectionState == SS.LoggedOut && svc.qrCode.None? && !svc.authFolder
    ensures svc.pendingInits == old(svc.pendingInits) + 1
    ensures svc.sock == old(svc.sock) && svc.nextHandle == old(svc.nextHandle)
    ensures svc.log == old(svc.log) + (if svc.sock.Some? then [Unlink(svc.sock.value)] else [])
  {
    var ok := svc.Logout();
    status := if ok then OK else SERVER_ERROR;
  }
}
