/** The boundary with the protocol engine (Baileys), as both services see it.
    A socket is an opaque handle; everything a service asks of a socket is
    appended to a log of socket calls; everything a socket reports arrives as
    an `Events` batch. The send rules that both services share (presence
    etiquette, the mimetype rule, the media-kind rule) live here. */
module Protocol {
  import opened Common

  /** An opaque protocol-engine socket; a fresh one per initialisation. */
  type Handle = nat

  datatype PresenceState = Composing | Paused

  /** What one `sock.sendMessage` carries, apart from the decoded bytes. */
  datatype Payload =
    | Text(text: Field)
    | Image(caption: Field)
    | Video(caption: Field)
    | Document(fileName: string, mimetype: string, caption: Field)

  /** A call a service makes on a socket. */
  datatype SocketCall =
    | SetPresence(sock: Handle, presence: PresenceState, jid: string)  // sendPresenceUpdate
    | Deliver(sock: Handle, jid: string, payload: Payload)            // sendMessage
    | CloseTransport(sock: Handle)                                    // ws.close()
    | Unlink(sock: Handle)                                            // logout()

  /** `DisconnectReason.loggedOut` of the protocol engine. */
  const LOGGED_OUT: int := 401

  /** The `connection` field of a `connection.update` event. */
  datatype Conn = Connecting | Open(userId: string) | Close(statusCode: Option<int>)

  /** A `connection.update` event: an optional connection change (for `close`,
      the status code of `lastDisconnect.error`; for `open`, `sock.user.id`)
      and an optional pairing code. */
  datatype ConnUpdate = ConnUpdate(connection: Option<Conn>, qr: Field)

  /** A `creds.update` event, reduced to the account id (`creds.me.id`) of
      the rotated credentials. */
  datatype Creds = Creds(account: Option<string>)

  /** One batch handed to the `sock.ev.process` callback. */
  datatype Events = Events(update: Option<ConnUpdate>, creds: Option<Creds>)

  /** Outcome of a send operation: the socket accepted the calls, there is no
      session for the target, or an argument the decoding step needs is
      absent (`Buffer.from(undefined)` or `undefined.endsWith` throws). */
  datatype SendResult = Sent | NotInitialized | BadArgument

  /** The chat address of a phone number. */
  function Jid(number: string): (jid: string)
    ensures |jid| == |number| + |"@s.whatsapp.net"|
    ensures jid[..|number|] == number && jid[|number|..] == "@s.whatsapp.net"
  {
    number + "@s.whatsapp.net"
  }

  /** The presence etiquette every send follows: composing first, paused last,
      and in between only deliveries on the same socket to the same peer. */
  predicate Polite(calls: seq<SocketCall>, h: Handle, jid: string) {
    && |calls| >= 2
    && calls[0] == SetPresence(h, Composing, jid)
    && calls[|calls| - 1] == SetPresence(h, Paused, jid)
    && forall i :: 0 < i < |calls| - 1 ==> calls[i].Deliver? && calls[i].sock == h && calls[i].jid == jid
  }

  function Etiquette(h: Handle, jid: string, p: Payload): (calls: seq<SocketCall>)
    ensures Polite(calls, h, jid) && |calls| == 3 && calls[1].payload == p
  {
    [SetPresence(h, Composing, jid), Deliver(h, jid, p), SetPresence(h, Paused, jid)]
  }

  const OCTET_STREAM := "application/octet-stream"
  const PDF := "application/pdf"
  const XML := "text/xml"

  /** The mimetype `sendDocument` attaches: pdf and xml by suffix, otherwise a
      generic byte stream. */
  function Mimetype(fileName: string): (m: string)
    ensures m == PDF <==> EndsWith(fileName, ".pdf")
    ensures m == XML <==> EndsWith(fileName, ".xml")
    ensures m == OCTET_STREAM <==> !EndsWith(fileName, ".pdf") && !EndsWith(fileName, ".xml")
  {
    // the source assigns the pdf type, then overwrites it with the xml type
    var m := if EndsWith(fileName, ".pdf") then PDF else OCTET_STREAM;
    if EndsWith(fileName, ".xml") then XML else m
  }

  /** The media type both controllers choose: video exactly for a `.mp4`
      file name, image otherwise (also when the name is absent). */
  function MediaKindFor(filename: Field): (kind: string)
    ensures kind == "video" <==> filename.Some? && EndsWith(filename.value, ".mp4")
    ensures kind == "image" <==> !(filename.Some? && EndsWith(filename.value, ".mp4"))
  {
    if filename.Some? && EndsWith(filename.value, ".mp4") then "video" else "image"
  }

  /** The socket calls of `sendMessage` on socket `h`. */
  function TextCalls(h: Handle, number: string, text: Field): (calls: seq<SocketCall>)
    ensures Polite(calls, h, Jid(number)) && |calls| == 3
    ensures calls[1].payload == Text(text)
  {
    Etiquette(h, Jid(number), Text(text))
  }

  /** The socket calls of `sendMedia` on socket `h`, or None when the media
      is absent and decoding throws before any call. A type other than image
      or video sends nothing between the two presence updates. */
  function MediaCalls(h: Handle, number: string, media: Field, kind: string, caption: Field): (calls: Option<seq<SocketCall>>)
    ensures calls.Some? <==> media.Some?
    ensures calls.Some? ==> Polite(calls.value, h, Jid(number))
    ensures calls.Some? && kind == "image" ==> |calls.value| == 3 && calls.value[1].payload == Image(caption)
    ensures calls.Some? && kind == "video" ==> |calls.value| == 3 && calls.value[1].payload == Video(caption)
    ensures calls.Some? && kind != "image" && kind != "video" ==> |calls.value| == 2
  {
    if media.None? then None
    else
      var jid := Jid(number);
      var send := if kind == "image" then [Deliver(h, jid, Image(caption))]
                  else if kind == "video" then [Deliver(h, jid, Video(caption))]
                  else [];
      Some([SetPresence(h, Composing, jid)] + send + [SetPresence(h, Paused, jid)])
  }

  /** The socket calls of `sendDocument` on socket `h`, or None when the
      content or the file name is absent. */
  function DocumentCalls(h: Handle, number: string, media: Field, fileName: Field, caption: Field): (calls: Option<seq<SocketCall>>)
    ensures calls.Some? <==> media.Some? && fileName.Some?
    ensures calls.Some? ==> Polite(calls.value, h, Jid(number)) && |calls.value| == 3
    ensures calls.Some? ==> calls.value[1].payload == Document(fileName.value, Mimetype(fileName.value), caption)
  {
    if media.None? || fileName.None? then None
    else Some(Etiquette(h, Jid(number), Document(fileName.value, Mimetype(fileName.value), caption)))
  }
}
