/** The request rules of src/controllers/whatsappController.js in front of the
    multi-instance service: which service call a `sendWhatsApp` body selects,
    the default instance, and the status codes of `sendWhatsApp`, `getStatus`
    and `logout`. */
module MultiController {
  import opened Common
  import opened Protocol
  import opened Lifecycle
  import SM = SessionManager

  const OK: int := 200
  const BAD_REQUEST: int := 400
  const SERVER_ERROR: int := 500

  /** The instance every route falls back to. */
  const PRIMARY := "primary"

  /** The fields of a `sendWhatsApp` body (`kind` is the body's `type`). */
  datatype SendRequest = SendRequest(number: Field, message: Field, kind: Field, media: Field,
                                     filename: Field, caption: Field, instanceId: Field)

  /** A service call the controller makes, with its arguments. */
  datatype Call =
    | SendText(instance: string, number: string, text: Field)
    | SendMedia(instance: string, number: string, media: Field, mediaKind: string, caption: string)
    | SendDocument(instance: string, number: string, media: Field, fileName: Field, caption: string)

  /** Either a 400 answer before any service call, or the one call to make. */
  datatype Dispatch = Reject | Invoke(call: Call)

  /** `instanceId || 'primary'`. */
  function Target(instanceId: Field): (id: string)
    ensures Truthy(instanceId) ==> id == instanceId.value
    ensures !Truthy(instanceId) ==> id == PRIMARY
  {
    Or(instanceId, PRIMARY)
  }

  /** The validation and dispatch of `sendWhatsApp`. */
  function DispatchSend(req: SendRequest): (d: Dispatch)
    // a missing number or type, or an unknown type, is a bad request
    ensures d.Reject? <==> (!Truthy(req.number) || !Truthy(req.kind)
                            || req.kind.value !in {"text", "media", "media_url", "document"})
    ensures d.Invoke? ==> d.call.instance == Target(req.instanceId) && d.call.number == req.number.value
    ensures d.Invoke? && req.kind == Some("text") ==> d.call == SendText(Target(req.instanceId), req.number.value, req.message)
    // both media types go to sendMedia: video exactly for a .mp4 name, caption defaulting to ''
    ensures d.Invoke? && (req.kind == Some("media") || req.kind == Some("media_url")) ==>
              && d.call.SendMedia? && d.call.media == req.media && d.call.caption == Or(req.caption, "")
              && (d.call.mediaKind == "video" <==> req.filename.Some? && EndsWith(req.filename.value, ".mp4"))
              && (d.call.mediaKind == "image" <==> !(req.filename.Some? && EndsWith(req.filename.value, ".mp4")))
    ensures d.Invoke? && req.kind == Some("document") ==>
              d.call == SendDocument(Target(req.instanceId), req.number.value, req.media, req.filename, Or(req.caption, ""))
  {
    if !Truthy(req.number) || !Truthy(req.kind) then Reject
    else
      var id := Target(req.instanceId);
      var number := req.number.value;
      var kind := req.kind.value;
      if kind == "text" then Invoke(SendText(id, number, req.message))
      else if kind == "media" || kind == "media_url" then
        Invoke(SendMedia(id, number, req.media, MediaKindFor(req.filename), Or(req.caption, "")))
      else if kind == "document" then
        Invoke(SendDocument(id, number, req.media, req.filename, Or(req.caption, "")))
      else Reject
  }

  /** The socket calls the service makes for a call when `h` is the socket of
      its target, or None when the service throws before any call. */
  function CallPlan(h: Handle, c: Call): (calls: Option<seq<SocketCall>>)
    ensures c.SendText? ==> calls.Some?
    ensures calls.Some? ==> Polite(calls.value, h, Jid(c.number))
  {
    match c
    case SendText(_, number, text) => Some(TextCalls(h, number, text))
    case SendMedia(_, number, media, kind, caption) => MediaCalls(h, number, media, kind, Some(caption))
    case SendDocument(_, number, media, fileName, caption) => DocumentCalls(h, number, media, fileName, Some(caption))
  }

  /** The status `sendWhatsApp` answers for a dispatched call: the service
      throws (500) for an unknown instance and for an absent media or file
      name. */
  function CallStatus(instances: map<string, Handle>, c: Call): (status: int)
    ensures status == OK || status == SERVER_ERROR
    ensures status == OK <==> c.instance in instances && CallPlan(instances[c.instance], c).Some?
  {
    if c.instance in instances && CallPlan(instances[c.instance], c).Some? then OK else SERVER_ERROR
  }

  /** Make the call on the service. */
  method Perform(svc: SM.WhatsAppService, c: Call) returns (res: SendResult)
    modifies svc`log
    ensures res == Sent <==> c.instance in svc.instances && CallPlan(svc.instances[c.instance], c).Some?
    ensures svc.log == old(svc.log) + (if res == Sent then CallPlan(svc.instances[c.instance], c).value else [])
  {
    match c
    case SendText(id, number, text) =>
      res := svc.SendMessage(id, number, text);
    case SendMedia(id, number, media, kind, caption) =>
      res := svc.SendMedia(id, number, media, kind, Some(caption));
    case SendDocument(id, number, media, fileName, caption) =>
      res := svc.SendDocument(id, number, media, fileName, Some(caption));
  }

  /** `sendWhatsApp`: 400 with no service call for a rejected body; otherwise
      the one call is made, and the answer is 200 exactly when it sent. */
  method SendWhatsApp(svc: SM.WhatsAppService, req: SendRequest) returns (status: int)
    modifies svc`log
    ensures DispatchSend(req).Reject? ==> status == BAD_REQUEST && svc.log == old(svc.log)
    ensures DispatchSend(req).Invoke? ==>
              var c := DispatchSend(req).call;
              && status == CallStatus(old(svc.instances), c)
              && svc.log == old(svc.log) + (if status == OK then CallPlan(svc.instances[c.instance], c).value else [])
  {
    var d := DispatchSend(req);
    if d.Reject? {
      return BAD_REQUEST;
    }
    var res := Perform(svc, d.call);
    status := if res == Sent then OK else SERVER_ERROR;
  }

  /** What `getStatus` answers: a 404, or the state, the pairing code and the
      phone number of the record (its code's timestamp is not passed on). */
  datatype StatusAnswer = NotFound | Found(status: ConnState, qr: Option<string>, phoneNumber: Option<string>)

  /** `getStatus`: 404 exactly when the service has no record for the
      requested instance (`'primary'` by default). */
  function GetStatus(svc: SM.WhatsAppService, instanceId: Field): (a: StatusAnswer)
    requires svc.Valid()
    reads svc
    ensures a.NotFound? <==> Target(instanceId) !in svc.instances
    ensures a.Found? ==>
              var r := svc.records[svc.instances[Target(instanceId)]];
              a.status == r.state && a.qr == r.qrCode && a.phoneNumber == r.phoneNumber
  {
    match svc.GetInstanceStatus(Target(instanceId))
    case None => NotFound
    case Some(s) => Found(s.status, s.qr, s.phoneNumber)
  }

  /** `logout`: the service's logout on the requested instance, its boolean
      reported as the `success` flag of a 200 answer. */
  method Logout(svc: SM.WhatsAppService, instanceId: Field) returns (status: int, success: bool)
    requires svc.Valid()
    modifies svc`log, svc`authFolders, svc`instances, svc`order
    ensures svc.Valid()
    ensures status == OK
    ensures success == (Target(instanceId) in old(svc.instances))
    ensures Target(instanceId) !in svc.instances
    ensures !success ==> unchanged(svc)
    ensures success ==>
              var id := Target(instanceId);
              && svc.log == old(svc.log) + [Unlink(old(svc.instances[id]))]
              && svc.authFolders == SM.Purge(old(svc.authFolders), id)
              && svc.instances == old(svc.instances) - {id}
              && svc.order == Without(old(svc.order), id)
  {
    success := svc.Logout(Target(instanceId));
    status := OK;
  }
}
