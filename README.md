# WhatsApp session manager — a Dafny model

This project models the session core of a Node.js WhatsApp gateway built on
the Baileys protocol engine, and proves properties of that model.

- **The multi-instance service** (`WhatsAppService` of
  `src/services/whatsappService.js`). It indexes session records by instance id.
  Each record runs a small state machine over `connecting`, `qr_ready`,
  `qr_limit_reached`, `connected` and `logged_out`. Socket events drive the
  machine. It counts pairing codes (QR codes) against a cap of three and keeps
  a `qrLimitReached` latch. The service also covers:
  - the `initializeInstance` re-entrancy guard;
  - `restartInstance`, `logout`, `getInstanceStatus` and `getAllInstances`;
  - the four send operations;
  - the startup pass that brings back sessions whose stored credentials are
    bound to an account.
- **The single-session service** (`src/services/whatsappService.ts`). It has
  one socket, one auth folder and a `connectionState`/`qrCode` pair. It has no
  pairing-code cap, and it re-initialises after every close.
- **The request rules of both controllers** (`src/controllers/whatsappController.js`
  and `.ts`). They validate a `sendWhatsApp` body, choose the service call and
  its arguments, and decide the answers of `getStatus`, `getQr` and `logout`.
- **The bearer-token middleware** (`src/middleware/auth.js`).

## How the model is built

The model abstracts the protocol engine, the filesystem and the timers:

- A socket is an opaque `Handle`. A fresh handle is created per initialisation.
- Every call a service makes on a socket is appended to `log`: presence update,
  message, transport close or unlink. The send rules are stated over that log.
  One rule is the presence etiquette: composing first, paused last, and
  between them only deliveries to the same chat.
- What a socket reports arrives as an `Events` batch. A batch holds an optional
  `connection.update` and an optional `creds.update`.
- Auth folders are a map from id to the account id in the stored credentials
  and the metadata file. The single-session service uses a single flag instead.
- The 3 s reconnect timer is a FIFO of pending re-initialisations.
  `RunPendingReconnect` fires the oldest one.
- The ts service starts each `initialize()` asynchronously. That is modelled
  by a counter of calls that are under way, and `CompleteInitialize` runs one.

Each `instanceData` object of the js service is created together with its
socket. So the model stores every record under its socket handle (`records`).
The registry `instances` maps ids to handles, and `order` keeps the insertion
order of the JavaScript `Map`.

The event handler closes over its own record, not over the registry entry.
So an event from a socket whose listeners are still attached (`listening`)
updates that socket's record even after the record has left the registry.

`Lifecycle.React` is the handler body as a pure function on one record. It
returns the new record plus the effects the service carries out:
- detach the listeners;
- delete the auth folder;
- schedule a reconnect;
- save credentials.

`SessionManager.WhatsAppService.HandleEvents` applies those effects.

Some behaviour of the code is easy to misread. The code's own comments
call the cap a limit on QR attempts (`src/services/whatsappService.js:135`,
`:148`) and say that only a manual restart resets the counter
(`src/services/whatsappService.js:276`, `:293`). What the code does, and
what the model follows:

- **The cap is reached at the third code.** The code sets the latch when
  `qrAttempts >= 3`. So the close after the third code already ends in
  `qr_limit_reached`; a fourth code is never needed.
- **An open connection does not reset the counter or the latch.** A session
  that pairs on its third code stays latched. Its first transient drop then
  ends in `qr_limit_reached` instead of reconnecting. This is
  `Lifecycle.PairedAtCapStaysLatched`.
- **Restart is not the only way to clear the latch.** A latched record is
  neither initialising nor connected, so `initializeInstance` does not guard
  it. Any later `initializeInstance`, for example from the create-instance
  route, installs a fresh record with the counter at zero.
- **`logout` does not detach the listeners.** It deletes the record from the
  registry but leaves its socket's listeners attached
  (`src/services/whatsappService.js:247-262`), unlike `initializeInstance`
  and `restartInstance`, which remove them. Late events from that socket
  still update the evicted record and may save credentials into a re-created
  folder. In the model, `logout` leaves `listening` unchanged. So a `logout`
  followed by `initializeInstance` of the same id leaves two sockets with
  listeners for that id: `LogoutThenReinitialize`.
- **The cap counts codes per socket.** A reconnect runs `initializeInstance`,
  which installs a fresh record with zero attempts. So a session that keeps
  dropping before its third code is never capped: only three codes on one
  socket set the latch.

## Model

| member | source | states |
|---|---|---|
| Common.Split | src/middleware/auth.js:12 | `split` on a one-character separator: at least one piece, no piece contains the separator, and at least two pieces when the separator occurs |
| Common.JoinSplit | src/middleware/auth.js:12 | joining the pieces of a split with the separator gives back the original string |
| Common.SplitJoin | src/middleware/auth.js:12 | splitting a join of separator-free pieces gives back the pieces |
| Common.FirstField | src/services/whatsappService.js:182 | `split(sep)[0]` is the longest separator-free prefix: followed by the separator when shorter than the string, and the whole string when there is no separator |
| Common.Without | src/services/whatsappService.js:259 | deleting a key from the iteration order removes exactly that key and keeps the order free of repetitions |
| Common.WithoutAppend | src/services/whatsappService.js:259 | deleting a key from the iteration order works piecewise, so the remaining ids keep their relative order |
| Common.WithoutOne | src/services/whatsappService.js:290 | deleting an id that occurs once leaves exactly the ids before it followed by the ids after it |
| Protocol.Jid | src/services/whatsappService.js:198 | the chat address is the number followed by `@s.whatsapp.net` |
| Protocol.Etiquette | src/services/whatsappService.js:198-202 | a send is composing, one delivery, paused, all on the same socket and chat |
| Protocol.Mimetype | src/services/whatsappService.js:212-214 | `application/pdf` exactly for a `.pdf` name, `text/xml` exactly for a `.xml` name, `application/octet-stream` exactly for the others |
| Protocol.MediaKindFor | src/controllers/whatsappController.js:24 | the media type is `video` exactly when the file name ends with `.mp4`, and `image` otherwise, also when the name is absent |
| Protocol.TextCalls | src/services/whatsappService.js:194-204 | `sendMessage` follows the etiquette and delivers the text as given |
| Protocol.MediaCalls | src/services/whatsappService.js:228-245 | `sendMedia` throws before any call exactly when the media is absent; an image or a video is delivered with its caption; any other type sends only the two presence updates |
| Protocol.DocumentCalls | src/services/whatsappService.js:206-226 | `sendDocument` throws before any call exactly when the content or the file name is absent; otherwise it delivers one document with the name, the mimetype of the name and the caption |
| Lifecycle.PhoneOf | src/services/whatsappService.js:110 | the phone number is the whole part of the account id before the first `:` (a prefix free of `:`, ending at a `:` or at the end), and null exactly when there are no credentials or that part is empty |
| Lifecycle.FreshRecord | src/services/whatsappService.js:80-114 | a new record is `connecting`, shows no code, has zero attempts, is initialising, has no latch, has its name defaulting to the id and its creation time to now, and satisfies the record invariant |
| Lifecycle.React | src/services/whatsappService.js:118-189 | the handler keeps the id, name and creation time and the record invariant. A code adds exactly one attempt and sets `qr_ready` with the code and timestamp. The latch is set once attempts reach 3. Every close detaches. A latched close ends in `qr_limit_reached` with no reconnect, no purge and no credential save, ahead of the unlink case. An unlink without the latch logs out, clears the code, phone and counters, and purges the folder. Any other close goes back to `connecting` with exactly one reconnect. Open sets `connected`, clears the code and takes the phone number from the user id. An update with neither a code nor a connection change leaves the record alone. The code's timestamp changes only with a new code, the phone number only on open or unlink, and the initialising flag clears exactly on a code, a close or an open. A reconnecting close keeps the displayed code, or shows the batch's new one. Only a close reaches a terminal state |
| Lifecycle.AfterQrsCounts | src/services/whatsappService.js:127-140 | k codes raise the counter by exactly k, leave the last code displayed in `qr_ready`, and set the latch exactly when the counter reaches 3 |
| Lifecycle.CapStopsReconnect | src/services/whatsappService.js:148-155 | after three or more codes on a fresh record, any close ends in `qr_limit_reached` with no reconnect and no purge |
| Lifecycle.BelowCapReconnects | src/services/whatsappService.js:157-161 | after fewer than three codes, a close that is not an unlink reconnects exactly once, and the closing record keeps its counter. The reconnect then installs a fresh record with zero attempts, so the cap counts codes per socket, not per id |
| Lifecycle.PairedAtCapStaysLatched | src/services/whatsappService.js:127-183 | pairing on the third code leaves the latch set, so the next transient drop ends in `qr_limit_reached` instead of reconnecting |
| SessionManager.Bound | src/services/whatsappService.js:32 | a folder counts as bound to an account exactly when the stored account id is present and non-empty |
| SessionManager.Resurrects | src/services/whatsappService.js:23-32 | startup brings back a folder only when it is listed, exists, and is bound to an account; any other folder is left alone |
| SessionManager.ResurrectName | src/services/whatsappService.js:33-40 | the name passed at startup is the metadata's name when present and non-empty, and the folder name otherwise |
| SessionManager.ResurrectCreatedAt | src/services/whatsappService.js:34-41 | the creation time passed at startup is the metadata's when present and non-empty, and the current time otherwise |
| SessionManager.PreparedFolder | src/services/whatsappService.js:72-86 | initialising creates the folder when missing, keeps its credentials, and writes the metadata only when there was none |
| SessionManager.SaveCreds | src/services/whatsappService.js:186-188 | saving credentials rewrites only the account of an existing folder; after the folder is deleted nothing changes |
| SessionManager.Purge | src/services/whatsappService.js:264-274 | removing the auth folder deletes exactly that id's folder |
| SessionManager.FirstBad | src/services/whatsappService.js:339-358 | `sendReceipt` stops at the first file `sendDocument` rejects: every earlier file is sendable and that one is not |
| SessionManager.ReceiptCalls | src/services/whatsappService.js:339-358 | sending n receipt files makes exactly 3n socket calls |
| SessionManager.ReceiptBlocks | src/services/whatsappService.js:339-358 | block j of those calls (calls 3j to 3j+2) is exactly the `sendDocument` of file j: composing, that file's document with its name, mimetype and caption, paused; so the files go out in order, each once |
| SessionManager.OrderLists | src/services/whatsappService.js:298-299 | the iteration order lists every registered id exactly once |
| SessionManager.WhatsAppService.constructor | src/services/whatsappService.js:12-16 | the service starts empty, then exactly the listed folders with bound credentials are registered, each with a fresh record named from its metadata. Those folders get prepared metadata; every other folder is untouched and none is added. One socket per resurrected id is taken, numbered from 0 in listing order, and all of them have listeners attached. The order is the resurrected ids in listing order, no socket call is made and no reconnect is pending |
| SessionManager.WhatsAppService.Guarded | src/services/whatsappService.js:60-63 | `initializeInstance` returns the existing record only for a registered id; always when that record is initialising or connected, and never when it is neither, as after any close |
| SessionManager.WhatsAppService.InitializeInstance | src/services/whatsappService.js:58-116 | when the record is initialising or connected, the same record comes back and nothing changes. Otherwise the old socket is closed and detached, the folder is prepared, and a fresh record under a new socket replaces the entry, keeping its place in the order (appended for a new id). Every other registration and folder is left as it was. When every socket with listeners is the registered socket of its id (`OneLive`), that stays so |
| SessionManager.OneLiveAfterInstall | src/services/whatsappService.js:66-116 | replacing the id's registered socket by a new one while detaching the old one keeps every socket with listeners the registered socket of its id |
| SessionManager.OneLiveAfterUpdate | src/services/whatsappService.js:124-182 | rewriting a record of the same id, and dropping listeners, keeps every socket with listeners the registered socket of its id |
| SessionManager.Resurrected | src/services/whatsappService.js:23-47 | the ids startup initialises are exactly the resurrected ones, in listing order, without repeats when the listing has none |
| SessionManager.WhatsAppService.Reinitialize | src/services/whatsappService.js:66-116 | an unguarded `initializeInstance`: the old socket closed and detached, the folder prepared, a fresh record under the next socket registered in the id's place, and `OneLive` kept |
| SessionManager.WhatsAppService.LogoutThenReinitialize | src/services/whatsappService.js:247-262 | a `logout` followed by `initializeInstance` of the same id leaves two sockets with listeners whose records carry that id: the evicted one and the new one, so `OneLive` no longer holds |
| SessionManager.WhatsAppService.LoadFolder | src/services/whatsappService.js:23-47 | one listing entry: a folder bound to an account and not yet registered gets the next socket, a fresh record named from its metadata, prepared metadata and a place at the end of the order; a folder not bound changes nothing |
| SessionManager.WhatsAppService.Release | src/services/whatsappService.js:66-69 | the registered socket of the id is closed and its listeners dropped, and nothing else |
| SessionManager.WhatsAppService.Install | src/services/whatsappService.js:72-116 | the folder is prepared and a fresh record under a brand-new socket is registered with listeners attached |
| SessionManager.WhatsAppService.Register | src/services/whatsappService.js:116 | `instances.set` keeps the registry invariant and keeps an existing key's position in the iteration order |
| SessionManager.WhatsAppService.Evict | src/services/whatsappService.js:290 | `instances.delete` removes exactly that id from the registry and the order |
| SessionManager.WhatsAppService.HandleEvents | src/services/whatsappService.js:118-189 | a batch from a detached socket changes nothing. Otherwise the socket's own record becomes the reaction's record, detached listeners stay detached, an unlink purges the folder, credentials are saved, and a reconnect appends exactly one pending re-initialisation with the same id, name and creation time. `OneLive` is kept |
| SessionManager.WhatsAppService.Update | src/services/whatsappService.js:124-182 | a record update keeps the invariant that no socket with listeners has a terminal record |
| SessionManager.WhatsAppService.RunPendingReconnect | src/services/whatsappService.js:161 | the oldest timer leaves the queue. For a guarded id nothing else changes. Otherwise its id is re-initialised with the saved name and creation time, with the complete new state of `InitializeInstance`: a new socket, the fresh record (keeping the saved name and creation time when non-empty), the old socket closed and detached, the folder prepared, and the id's place in the order kept. `OneLive` is kept |
| SessionManager.WhatsAppService.SendMessage | src/services/whatsappService.js:194-204 | an unknown instance throws with no socket call; otherwise the text plan is made on the instance's socket |
| SessionManager.WhatsAppService.SendDocument | src/services/whatsappService.js:206-226 | an unknown instance throws; absent content or name throws before any call; otherwise the document plan is made |
| SessionManager.WhatsAppService.SendMedia | src/services/whatsappService.js:228-245 | an unknown instance throws; absent media throws before any call; otherwise the media plan is made |
| SessionManager.WhatsAppService.SendReceipt | src/services/whatsappService.js:334-360 | an unknown instance throws; otherwise the files are sent in order up to the first unsendable one, and the log holds exactly their calls |
| SessionManager.WhatsAppService.Logout | src/services/whatsappService.js:247-262 | false with no change exactly for an unknown id. Otherwise one unlink call, the folder deleted, the record evicted, true returned, and the status becomes null; listeners and records are untouched |
| SessionManager.WhatsAppService.RestartInstance | src/services/whatsappService.js:279-296 | the old socket is closed and detached and the entry deleted, a brand-new socket is taken (the socket counter moves by one), so the new record always starts with zero attempts, no latch, state `connecting`, and the id moves to the end of the order. `OneLive` is kept |
| SessionManager.WhatsAppService.GetInstanceStatus | src/services/whatsappService.js:308-316 | null exactly for an unregistered id; otherwise the record's state, code, timestamp and phone number |
| SessionManager.WhatsAppService.Summaries | src/services/whatsappService.js:299-305 | one summary per listed id, in order, each with that id |
| SessionManager.WhatsAppService.GetAllInstances | src/services/whatsappService.js:298-306 | one summary per registered record, each id exactly once, every registered id present |
| SessionManager.WhatsAppService.LoadExistingInstances | src/services/whatsappService.js:18-56 | the registered ids become the old ones plus exactly the listed folders with bound credentials; each newly registered one has a fresh record named from its metadata (folder name by default) and its folder gets prepared metadata. Every other folder is untouched and none is added; stored accounts are kept. When no listed id is registered yet, each resurrected id takes the next socket number in listing order, those sockets are added to the ones with listeners and to the records (the old records unchanged), the ids are appended to the order in listing order, and no socket call is made |
| SingleSession.Apply | src/services/whatsappService.ts:47-91 | a code is displayed with `qr_ready`. Every close starts exactly one more `initialize()`. An update with no code that neither closes nor opens changes nothing. A code with no close or open (or with `connecting`) sets exactly the code and `qr_ready`. A reconnecting close leaves the state as it was, and keeps the displayed code unless the batch brings a new one. The folder is removed exactly by an unlink and otherwise kept. An unlink sets `logged_out`, clears the code and removes the folder. Open sets `connected` and clears the code. The code is shown exactly in `qr_ready` |
| SingleSession.CodeSurvivesReconnect | src/services/whatsappService.ts:52-64 | a code followed by a reconnecting close leaves that code displayed in `qr_ready`, with one more `initialize()` started |
| SingleSession.ShouldReconnect | src/services/whatsappService.ts:60 | a close reconnects exactly when its status code is absent or is not `loggedOut` (401) |
| SingleSession.EveryCloseReinitializes | src/services/whatsappService.ts:59-73 | there is no cap: over any run of batches, the number of started `initialize()` calls grows by exactly the number of closes, and code and state stay coherent |
| SingleSession.WhatsAppService.constructor | src/services/whatsappService.ts:22-27 | the service starts `disconnected` with no code and no socket, and one `initialize()` under way |
| SingleSession.WhatsAppService.CompleteInitialize | src/services/whatsappService.ts:29-45 | the folder exists afterwards and a brand-new socket replaces the old one; state and code are untouched |
| SingleSession.WhatsAppService.HandleEvents | src/services/whatsappService.ts:47-91 | the fields change exactly as `Apply` says; the socket and the log do not |
| SingleSession.WhatsAppService.SendMessage | src/services/whatsappService.ts:94-106 | it throws without a socket; otherwise composing, the text, paused |
| SingleSession.WhatsAppService.SendDocument | src/services/whatsappService.ts:108-129 | it throws without a socket or before any call without content or name; otherwise one document with the mimetype of its name |
| SingleSession.WhatsAppService.SendMedia | src/services/whatsappService.ts:131-148 | it throws without a socket or content; only image and video deliver anything |
| SingleSession.WhatsAppService.Logout | src/services/whatsappService.ts:150-167 | it always returns true: one unlink when there is a socket, the folder removed, `logged_out` with no code, and one more initialisation scheduled; the socket is kept |
| MultiController.Target | src/controllers/whatsappController.js:18 | the target is the given instance id, or `primary` when it is absent or empty |
| MultiController.DispatchSend | src/controllers/whatsappController.js:14-30 | 400 exactly for a missing number or type or an unknown type. `text` calls `sendMessage`. `media` and `media_url` call `sendMedia` with `video` exactly for a `.mp4` name and the caption defaulting to `''`. `document` calls `sendDocument` with the caption defaulting to `''`. Every call goes to the target instance |
| MultiController.CallPlan | src/services/whatsappService.js:194-245 | whatever the service sends for a dispatched call follows the presence etiquette; text always has a plan |
| MultiController.CallStatus | src/controllers/whatsappController.js:21-40 | with every socket call succeeding, a dispatched call answers 200 exactly when the instance is registered and the arguments decode, and 500 otherwise |
| MultiController.Perform | src/controllers/whatsappController.js:21-27 | with every socket call succeeding, the service call succeeds exactly when the target is registered and its plan exists, and the log grows by that plan |
| MultiController.SendWhatsApp | src/controllers/whatsappController.js:10-41 | a rejected body answers 400 with no socket call; otherwise, with every socket call succeeding, the status is that of the call and the log holds exactly its calls |
| MultiController.GetStatus | src/controllers/whatsappController.js:73-87 | 404 exactly when the service has no record for the id, which defaults to `primary`; otherwise the record's state, code and phone number, without the code's timestamp |
| MultiController.Logout | src/controllers/whatsappController.js:92-100 | the `success` flag is true exactly when the target, `primary` by default, was registered; then the service's logout of that id takes place (unlink, folder deleted, record evicted), and otherwise nothing changes |
| SingleController.DispatchSingle | src/controllers/whatsappController.ts:10-41 | 400 for a missing number, for `text` without a message, for `media` without media, and for any other type, absent included, without both media and name. Otherwise the matching call, video exactly for a `.mp4` name, caption defaulting to `''` |
| SingleController.CallPlan | src/services/whatsappService.ts:94-148 | the calls of a validated request follow the etiquette |
| SingleController.DispatchedDeliversOnce | src/controllers/whatsappController.ts:24-41 | every request that passes validation delivers exactly one message |
| SingleController.Perform | src/controllers/whatsappController.ts:17-41 | with every socket call succeeding, the service call succeeds exactly when there is a socket, and the log grows by the plan |
| SingleController.SendWhatsApp | src/controllers/whatsappController.ts:6-50 | a rejected body answers 400 with no call; for a validated one, with every socket call succeeding, the answer is 500 exactly when there is no socket yet |
| SingleController.GetQr | src/controllers/whatsappController.ts:59-70 | the code is returned exactly when the service holds a non-empty one |
| SingleController.QrExactlyWhenReady | src/controllers/whatsappController.ts:59-70 | on a coherent service, `getQr` succeeds exactly in the `qr_ready` state |
| SingleController.Logout | src/controllers/whatsappController.ts:73-84 | the answer is always 200 and the service is left as its logout leaves it: `logged_out`, no code, the folder removed, one unlink when there is a socket, one more initialisation scheduled |
| Auth.BearerToken | src/middleware/auth.js:12 | `split(' ')[1]` of a header starting with `Bearer ` is a piece free of spaces |
| Auth.TokenAfterPrefix | src/middleware/auth.js:12 | the token is the text after `Bearer ` up to the next space |
| Auth.FindUser | src/middleware/auth.js:16 | `find` stops at the first user whose token equals the bearer token, and reports the length of the list when none does |
| Auth.Authenticate | src/middleware/auth.js:6-28 | 401 exactly when the header is absent or does not start with `Bearer `. 500 exactly when the header is well formed but the users file cannot be read. 403 exactly when no user holds the token. Otherwise `next` proceeds with the first user holding it |
| Auth.IssuedTokenAccepted | src/middleware/auth.js:8-23 | a header built as `Bearer <token>` from a space-free token is accepted for the first user holding that token |

## Left out

- Inside the protocol engine: `makeWASocket`, `fetchLatestBaileysVersion`, `useMultiFileAuthState` and message encryption. A socket is a handle, its events are inputs, and the calls made on it are a log. The result objects and message ids of `sock.sendMessage` are not modelled.
- The filesystem: `existsSync`, `mkdirSync`, `rmSync` and the JSON files. The auth folders are a map from id to stored account and metadata, or a single flag for the ts service. A credentials file that is missing or unreadable counts as "no account". Failures of `rmSync` are swallowed in the source and have no effect in the model.
- Startup reads the directory listing as a parameter. Entries that are not directories are assumed absent from it. The listing has no repeats, as directory entries never do.
- Timers, delays and the interleaving of async callbacks: the 500 ms and 1500 ms pauses, the 3 s reconnect and the 1 s ts re-initialisation. Each operation runs to completion, and a reconnect fires only when `RunPendingReconnect` is called. The constructor's `loadExistingInstances` is not awaited in the source, but runs to completion in the model.
- The re-entrancy guard is modelled as a state check. Two `initializeInstance` calls racing across an `await` are not modelled.
- `downloadFile` and the url case of `sendReceipt`. A file's `media` is taken to be the content already downloaded, and a failing download is not modelled.
- Base64 decoding: only whether the argument is present matters.
- `ws.close()` is assumed not to throw. In `initializeInstance` a throw would be swallowed and the listeners still removed (`src/services/whatsappService.js:67-68`), so nothing would differ.
- RestartInstance: always closes and detaches the old socket (through `Release`). In the source, `ws.close()` and `removeAllListeners()` share one `try` (`src/services/whatsappService.js:284-289`). A throwing `ws.close()` would skip the listener removal, and the old socket would go on driving its evicted record. The model does not capture that case.
- MultiController.CallStatus, MultiController.Perform, MultiController.SendWhatsApp, SingleController.Perform, SingleController.SendWhatsApp, SessionManager.WhatsAppService.SendMessage, SessionManager.WhatsAppService.SendMedia, SessionManager.WhatsAppService.SendDocument, SessionManager.WhatsAppService.SendReceipt, SingleSession.WhatsAppService.SendMessage, SingleSession.WhatsAppService.SendMedia, SingleSession.WhatsAppService.SendDocument: every socket call is assumed to succeed. In the services, a rejected `sendPresenceUpdate` or `sendMessage` stops the calls after it (`src/services/whatsappService.js:199-202`), so the log would hold only a prefix of the plan; the model always records the whole plan. The controllers await the service's socket calls inside their `try` (`src/controllers/whatsappController.js:21-39`, `src/controllers/whatsappController.ts:7-48`). So a rejected call, for example on a registered record whose socket has already closed, answers 500 in the source. The model does not have that 500.
- A `metadata.json` that exists but does not parse is modelled as absent. `PreparedFolder` then writes new metadata, while the source skips the write because the file exists (`src/services/whatsappService.js:84`). A later startup would then read the new name and creation time in the model, but fall back to the defaults in the source.
- `sock.user.id` is taken to be present on open.
- The ts service's `creds.update` handling only rewrites the credentials file inside the folder. The single flag does not represent that file.
- The ts controller's `getStatus` returns the `connectionState` field as it is, so it has no rule to model.
- Logging and the terminal QR rendering.
- `getProfile`, `createInstance` and `getInstances` of the js controller are thin wrappers: `getInstances` is `GetAllInstances`, and `createInstance` is `InitializeInstance` behind a required id. They are not modelled separately.
- The `deleteInstance` route is referenced by the routes file but defined nowhere.
- JSON bodies carrying non-string values are not modelled. Every body field is a string or absent.
