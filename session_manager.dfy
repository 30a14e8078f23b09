/** The multi-instance session manager, class `WhatsAppService` of
    src/services/whatsappService.js.

    Every `instanceData` object is created together with its socket and never
    gets another one, so the model keeps the objects under their socket handle
    (`records`) and the registry maps an instance id to the handle of its
    current object (`instances`). An event callback keeps acting on the object
    it closed over, whether or not that object is still registered, for as
    long as its socket's listeners are attached (`listening`). The auth
    folders are a map from id to what `creds.json` and `metadata.json` hold;
    socket calls are appended to `log`; a reconnect waiting on its timer is an
    entry of `pending`. */
module SessionManager {
  import opened Common
  import opened Protocol
  import opened Lifecycle

  /** `metadata.json` of an auth folder. */
  datatype Meta = Meta(name: string, createdAt: string)

  /** The auth folder `baileys_auth_info/<id>`: the account id stored in
      `creds.json` (`creds.me.id`; None when never paired, when the file is
      missing or when it cannot be parsed) and the metadata file. */
  datatype Folder = Folder(account: Option<string>, meta: Option<Meta>)

  /** `creds.me && creds.me.id`: the folder holds an already-paired session. */
  predicate Bound(f: Folder)
    ensures Bound(f) <==> Truthy(f.account)
  {
    f.account.Some? && f.account.value != ""
  }

  /** A call `initializeInstance(id, name, createdAt)` waiting on its timer. */
  datatype Reconnect = Reconnect(id: string, name: string, createdAt: string)

  /** One entry of the `files` argument of `sendReceipt`. */
  datatype ReceiptFile = ReceiptFile(kind: Field, media: Field, filename: Field, caption: Field)

  /** The account id the credentials of `id` hold, if there is a folder. */
  function AccountOf(store: map<string, Folder>, id: string): Option<string> {
    if id in store then store[id].account else None
  }

  /** The folder of `id` once `initializeInstance` has created it when
      missing and written the metadata file when it was absent. */
  function PreparedFolder(store: map<string, Folder>, id: string, meta: Meta): (f: Folder)
    ensures f.account == AccountOf(store, id)
    ensures f.meta.Some?
    ensures id in store && store[id].meta.Some? ==> f.meta == store[id].meta
    ensures (id !in store || store[id].meta.None?) ==> f.meta == Some(meta)
  {
    var base := if id in store then store[id] else Folder(None, None);
    if base.meta.None? then base.(meta := Some(meta)) else base
  }

  /** `saveCreds()`: the rotated account id is written into the folder of
      `id`; once the folder has been deleted the write fails and nothing
      changes. */
  function SaveCreds(store: map<string, Folder>, id: string, c: Option<Creds>): (s: map<string, Folder>)
    ensures s.Keys == store.Keys
    ensures forall k :: k in s && k != id ==> s[k] == store[k]
    ensures id in s ==> s[id].meta == store[id].meta
    ensures id in s ==> s[id].account == if c.Some? then c.value.account else store[id].account
  {
    if c.Some? && id in store then store[id := store[id].(account := c.value.account)] else store
  }

  /** Remove the auth folder of `id` (`removeAuthFolder`). */
  function Purge(store: map<string, Folder>, id: string): (s: map<string, Folder>)
    ensures id !in s && s.Keys == store.Keys - {id}
    ensures forall k :: k in s ==> s[k] == store[k]
  {
    store - {id}
  }

  /** The display name startup resurrection passes: `meta.name || folder`. */
  function ResurrectName(f: Folder, id: string): (name: string)
    ensures name != "" || id == ""
    ensures f.meta.Some? && f.meta.value.name != "" ==> name == f.meta.value.name
    ensures f.meta.None? || f.meta.value.name == "" ==> name == id
  {
    if f.meta.Some? then Or(Some(f.meta.value.name), id) else id
  }

  /** The creation time startup resurrection passes: `meta.createdAt || now`. */
  function ResurrectCreatedAt(f: Folder, now: string): (createdAt: string)
    ensures createdAt != "" || now == ""
    ensures f.meta.Some? && f.meta.value.createdAt != "" ==> createdAt == f.meta.value.createdAt
    ensures f.meta.None? || f.meta.value.createdAt == "" ==> createdAt == now
  {
    if f.meta.Some? then Or(Some(f.meta.value.createdAt), now) else now
  }

  /** The startup filter: a listed folder is resurrected exactly when its
      credentials are bound to an account. */
  predicate Resurrects(store: map<string, Folder>, listing: seq<string>, id: string)
    ensures Resurrects(store, listing, id) ==> id in listing && id in store && Truthy(store[id].account)
    ensures id !in listing || id !in store || !Bound(store[id]) ==> !Resurrects(store, listing, id)
  {
    id in listing && id in store && Bound(store[id])
  }

  /** The ids startup resurrects, in listing order. */
  function Resurrected(store: map<string, Folder>, listing: seq<string>): (ids: seq<string>)
    ensures forall id :: id in ids <==> Resurrects(store, listing, id)
    ensures Distinct(listing) ==> Distinct(ids)
    ensures |ids| <= |listing|
    decreases |listing|
  {
    if listing == [] then []
    else
      var init := listing[..|listing| - 1];
      var f := listing[|listing| - 1];
      assert forall id :: id in listing <==> id in init || id == f;
      assert Distinct(listing) ==> f !in init && Distinct(init);
      var rest := Resurrected(store, init);
      if f in store && Bound(store[f]) then
        assert Distinct(listing) ==> Distinct(rest + [f]) by {
          if Distinct(listing) {
            assert !Resurrects(store, init, f);
            assert f !in rest;
            assert forall i :: 0 <= i < |rest| ==> (rest + [f])[i] == rest[i];
            assert (rest + [f])[|rest|] == f;
          }
        }
        rest + [f]
      else rest
  }

  /** The sockets numbered `lo` up to, not including, `hi`. */
  function Handles(lo: Handle, hi: Handle): (hs: set<Handle>)
    ensures forall h :: h in hs <==> lo <= h < hi
    decreases hi - lo
  {
    if hi <= lo then {} else Handles(lo, hi - 1) + {hi - 1}
  }

  /** The registry once startup has gone through `prefix` of the listing,
      starting from the registry `before` and the folders `store`: the
      resurrected ids are registered, each new one with a fresh record. */
  ghost predicate Revived(store: map<string, Folder>, before: map<string, Handle>, prefix: seq<string>, now: string,
                          instances: map<string, Handle>, records: map<Handle, Record>)
  {
    && (forall id :: id in instances <==> id in before || Resurrects(store, prefix, id))
    && (forall id :: Resurrects(store, prefix, id) && id !in before ==>
          id in instances && instances[id] in records
          && records[instances[id]] == FreshRecord(id, Some(ResurrectName(store[id], id)),
                                                 Some(ResurrectCreatedAt(store[id], now)), now, store[id].account))
  }

  /** The folders once startup has gone through `prefix`: each newly
      resurrected one carries prepared metadata, every other is as it was,
      and no account changes. */
  ghost predicate Prepared(store: map<string, Folder>, before: map<string, Handle>, prefix: seq<string>, now: string,
                           folders: map<string, Folder>)
  {
    && (forall id :: Resurrects(store, prefix, id) && id !in before ==>
          id in folders && folders[id] == PreparedFolder(store, id, Meta(ResurrectName(store[id], id), ResurrectCreatedAt(store[id], now))))
    && (forall id :: !Resurrects(store, prefix, id) ==>
          (id in folders <==> id in store) && (id in folders ==> folders[id] == store[id]))
    && (forall id :: id in store ==> id in folders && folders[id].account == store[id].account)
  }

  /** One listed folder `f` more: the registry and records after loading
      it, as `LoadFolder` leaves them, extend what `Revived` says. */
  lemma RevivedStep(store: map<string, Folder>, before: map<string, Handle>, prefix: seq<string>, f: string, prefix': seq<string>, now: string,
                    fol: map<string, Folder>, ins: map<string, Handle>, recs: map<Handle, Record>,
                    ins': map<string, Handle>, recs': map<Handle, Record>, h: Handle)
    requires Revived(store, before, prefix, now, ins, recs) && f !in prefix && prefix' == prefix + [f]
    requires forall id :: id in ins ==> ins[id] in recs
    requires !Resurrects(store, prefix, f) ==> (f in fol <==> f in store) && (f in fol ==> fol[f] == store[f])
    requires !(f in fol && Bound(fol[f])) ==> ins' == ins && recs' == recs
    requires forall k :: k != f ==> (k in ins' <==> k in ins)
    requires f in ins ==> f in ins'
    requires forall k :: k in ins && k != f ==> k in ins' && ins'[k] == ins[k] && ins'[k] in recs' && recs'[ins'[k]] == recs[ins[k]]
    requires f in fol && Bound(fol[f]) && f !in ins ==>
               && ins' == ins[f := h]
               && recs' == recs[h := FreshRecord(f, Some(ResurrectName(fol[f], f)), Some(ResurrectCreatedAt(fol[f], now)), now, fol[f].account)]
    ensures Revived(store, before, prefix', now, ins', recs')
  {
    assert forall id :: id in prefix' <==> id in prefix || id == f;
    assert !Resurrects(store, prefix, f);
    if !(f in fol && Bound(fol[f])) {
      assert forall id :: Resurrects(store, prefix', id) <==> Resurrects(store, prefix, id);
    } else {
      assert forall id :: Resurrects(store, prefix', id) <==> Resurrects(store, prefix, id) || id == f;
    }
  }

  /** One listed folder `f` more: the folders after loading it, as
      `LoadFolder` leaves them, extend what `Prepared` says. */
  lemma PreparedStep(store: map<string, Folder>, before: map<string, Handle>, prefix: seq<string>, f: string, prefix': seq<string>, now: string,
                     ins: map<string, Handle>, fol: map<string, Folder>, fol': map<string, Folder>)
    requires Prepared(store, before, prefix, now, fol) && f !in prefix && prefix' == prefix + [f]
    requires f in ins <==> f in before
    requires !(f in fol && Bound(fol[f])) ==> fol' == fol
    requires forall k :: k != f ==> (k in fol' <==> k in fol) && (k in fol' ==> fol'[k] == fol[k])
    requires f in fol ==> f in fol' && fol'[f].account == fol[f].account
    requires f in fol && Bound(fol[f]) && f !in ins ==>
               fol' == fol[f := PreparedFolder(fol, f, Meta(ResurrectName(fol[f], f), ResurrectCreatedAt(fol[f], now)))]
    ensures Prepared(store, before, prefix', now, fol')
  {
    assert forall id :: id in prefix' <==> id in prefix || id == f;
    assert !Resurrects(store, prefix, f);
    if !(f in fol && Bound(fol[f])) {
      assert forall id :: Resurrects(store, prefix', id) <==> Resurrects(store, prefix, id);
    } else {
      assert forall id :: Resurrects(store, prefix', id) <==> Resurrects(store, prefix, id) || id == f;
    }
  }

  /** The exact state after `prefix` when no listed id was registered
      before: one socket per resurrected id, numbered from `next0` in
      listing order, and nothing else changed. */
  ghost predicate Counted(store: map<string, Folder>, before: map<string, Handle>, prefix: seq<string>,
                          next0: Handle, order0: seq<string>, live0: set<Handle>, records0: map<Handle, Record>, log0: seq<SocketCall>,
                          instances: map<string, Handle>, records: map<Handle, Record>, order: seq<string>,
                          nextHandle: Handle, listening: set<Handle>, log: seq<SocketCall>)
  {
    var ids := Resurrected(store, prefix);
    && log == log0
    && nextHandle == next0 + |ids|
    && order == order0 + ids
    && (forall k :: 0 <= k < |ids| ==> ids[k] in instances && instances[ids[k]] == next0 + k)
    && (forall id :: id in before ==> id in instances && instances[id] == before[id])
    && listening == live0 + Handles(next0, nextHandle)
    && records.Keys == records0.Keys + Handles(next0, nextHandle)
    && (forall h :: h in records0 ==> h in records && records[h] == records0[h])
  }

  /** One listed folder `f` more, not registered before: `Counted` extends. */
  lemma CountedStep(store: map<string, Folder>, before: map<string, Handle>, prefix: seq<string>, f: string, prefix': seq<string>,
                    next0: Handle, order0: seq<string>, live0: set<Handle>, records0: map<Handle, Record>, log0: seq<SocketCall>,
                    ins: map<string, Handle>, recs: map<Handle, Record>, order: seq<string>, next: Handle, live: set<Handle>, log: seq<SocketCall>,
                    ins': map<string, Handle>, recs': map<Handle, Record>, order': seq<string>, next': Handle, live': set<Handle>, log': seq<SocketCall>,
                    fol: map<string, Folder>, record: Record)
    requires Counted(store, before, prefix, next0, order0, live0, records0, log0, ins, recs, order, next, live, log)
    requires f !in prefix && prefix' == prefix + [f] && f !in ins && next0 <= next
    requires (f in fol <==> f in store) && (f in fol ==> fol[f] == store[f])
    requires (f in fol && Bound(fol[f])) ==>
               && next' == next + 1 && next !in recs && ins' == ins[f := next] && recs' == recs[next := record]
               && live' == live + {next} && log' == log && order' == order + [f]
    requires !(f in fol && Bound(fol[f])) ==>
               ins' == ins && recs' == recs && order' == order && next' == next && live' == live && log' == log
    ensures Counted(store, before, prefix', next0, order0, live0, records0, log0, ins', recs', order', next', live', log')
  {
    assert prefix'[..|prefix'| - 1] == prefix;
    var ids := Resurrected(store, prefix);
    if f in store && Bound(store[f]) {
      assert Resurrected(store, prefix') == ids + [f];
      assert Handles(next0, next') == Handles(next0, next) + {next};
      assert f !in before;
    } else {
      assert Resurrected(store, prefix') == ids;
    }
  }

  /** A receipt file that `sendDocument` can send (content and name present). */
  predicate FileOk(f: ReceiptFile) {
    f.media.Some? && f.filename.Some?
  }

  /** Index of the first file `sendDocument` rejects, or the number of files. */
  function FirstBad(files: seq<ReceiptFile>): (k: nat)
    ensures k <= |files|
    ensures forall j :: 0 <= j < k ==> FileOk(files[j])
    ensures k < |files| ==> !FileOk(files[k])
  {
    if files == [] || !FileOk(files[0]) then 0 else 1 + FirstBad(files[1..])
  }

  /** The socket calls of sending the given files, one `sendDocument` each. */
  function ReceiptCalls(h: Handle, number: string, files: seq<ReceiptFile>): (calls: seq<SocketCall>)
    requires forall j :: 0 <= j < |files| ==> FileOk(files[j])
    ensures |calls| == 3 * |files|
  {
    if files == [] then []
    else
      var f := files[|files| - 1];
      assert FileOk(f);
      ReceiptCalls(h, number, files[..|files| - 1]) + DocumentCalls(h, number, f.media, f.filename, f.caption).value
  }

  /** Block j of the receipt calls is the document send of file j: composing,
      that file's document, paused. */
  lemma {:induction false} ReceiptBlocks(h: Handle, number: string, files: seq<ReceiptFile>)
    requires forall j :: 0 <= j < |files| ==> FileOk(files[j])
    ensures forall j :: 0 <= j < |files| ==>
              ReceiptCalls(h, number, files)[3 * j..3 * j + 3]
              == DocumentCalls(h, number, files[j].media, files[j].filename, files[j].caption).value
    decreases |files|
  {
    if files != [] {
      var n := |files| - 1;
      var init := files[..n];
      var f := files[n];
      ReceiptBlocks(h, number, init);
      var before := ReceiptCalls(h, number, init);
      var last := DocumentCalls(h, number, f.media, f.filename, f.caption).value;
      assert ReceiptCalls(h, number, files) == before + last;
      forall j | 0 <= j < |files|
        ensures ReceiptCalls(h, number, files)[3 * j..3 * j + 3]
                == DocumentCalls(h, number, files[j].media, files[j].filename, files[j].caption).value
      {
        if j < n {
          assert init[j] == files[j];
          assert (before + last)[3 * j..3 * j + 3] == before[3 * j..3 * j + 3];
        } else {
          assert (before + last)[3 * j..3 * j + 3] == last;
        }
      }
    }
  }

  /** Every socket handed out so far comes from the counter, and every
      record keeps the per-record invariant. */
  ghost predicate Minted(records: map<Handle, Record>, nextHandle: Handle) {
    forall h :: h in records ==> h < nextHandle && RecordOk(records[h])
  }

  /** The registry maps each id to a record of that id, and its iteration
      order lists exactly the registered ids, each once. */
  ghost predicate Registered(instances: map<string, Handle>, order: seq<string>, records: map<Handle, Record>) {
    && (forall id :: id in instances ==> instances[id] in records && records[instances[id]].id == id)
    && Distinct(order)
    && (forall id :: id in order <==> id in instances)
  }

  /** A socket whose listeners are attached has not reached a terminal state. */
  ghost predicate Live(records: map<Handle, Record>, listening: set<Handle>) {
    forall h :: h in listening && h in records ==> !Final(records[h].state)
  }

  /** At most one live socket per instance id: every socket whose listeners
      are attached is the registered socket of its record's id. */
  predicate OneLive(instances: map<string, Handle>, records: map<Handle, Record>, listening: set<Handle>) {
    forall h :: h in listening ==> h in records && records[h].id in instances && instances[records[h].id] == h
  }

  /** Re-initialising `id` (old socket released, a fresh one registered)
      keeps one live socket per id. */
  lemma OneLiveAfterInstall(instances: map<string, Handle>, records: map<Handle, Record>, listening: set<Handle>,
                            id: string, h: Handle, r: Record)
    requires h !in records && r.id == id
    ensures OneLive(instances, records, listening) ==>
              OneLive(instances[id := h], records[h := r],
                      listening - (if id in instances then {instances[id]} else {}) + {h})
  {
    if !OneLive(instances, records, listening) {
      return;
    }
    var released := if id in instances then {instances[id]} else {};
    forall g | g in listening - released + {h}
      ensures g in records[h := r] && records[h := r][g].id in instances[id := h]
              && instances[id := h][records[h := r][g].id] == g
    {
      if g != h {
        var k := records[g].id;
        assert k != id;
      }
    }
  }

  /** Rewriting the record of a socket, with the same id, and possibly
      dropping listeners keeps one live socket per id. */
  lemma OneLiveAfterUpdate(instances: map<string, Handle>, records: map<Handle, Record>, listening: set<Handle>,
                           h: Handle, r: Record, listening': set<Handle>)
    requires h in records && r.id == records[h].id
    requires listening' <= listening
    ensures OneLive(instances, records, listening) ==> OneLive(instances, records[h := r], listening')
  {
  }

  /** Deleting a key and setting it again is the same as setting it. */
  lemma RegisterAgain(instances: map<string, Handle>, id: string, h: Handle)
    ensures (instances - {id})[id := h] == instances[id := h]
  {
  }

  /** The iteration order enumerates the registry: one position per id. */
  lemma OrderLists(instances: map<string, Handle>, order: seq<string>, records: map<Handle, Record>)
    requires Registered(instances, order, records)
    ensures |order| == |instances|
    ensures forall i :: 0 <= i < |order| ==> order[i] in instances
    ensures forall id :: id in instances ==> exists i :: 0 <= i < |order| && order[i] == id
  {
    DistinctCard(order);
    assert (set x | x in order) == instances.Keys;
  }

  /** `instances.set(id, record)` for a record under a fresh socket keeps the
      registry consistent, whether or not `id` was registered. */
  lemma RegisteredAfterSet(instances: map<string, Handle>, order: seq<string>, records: map<Handle, Record>,
                           id: string, h: Handle, r: Record)
    requires Registered(instances, order, records) && h !in records && r.id == id
    ensures Registered(instances[id := h], if id in instances then order else order + [id], records[h := r])
  {
  }

  lemma MintedAfterSet(records: map<Handle, Record>, nextHandle: Handle, h: Handle, r: Record)
    requires Minted(records, nextHandle) && h < nextHandle && RecordOk(r)
    ensures Minted(records[h := r], nextHandle)
  {
  }

  lemma LiveAfterSet(records: map<Handle, Record>, listening: set<Handle>, h: Handle, r: Record)
    requires Live(records, listening) && !Final(r.state)
    ensures Live(records[h := r], listening + {h})
  {
  }

  class WhatsAppService {
    var instances: map<string, Handle>    // the `instances` Map: id -> socket of its record
    var order: seq<string>                // iteration order of that Map
    var records: map<Handle, Record>      // every `instanceData` object, under its socket
    var listening: set<Handle>            // sockets whose listeners are attached
    var nextHandle: Handle                // the next socket `makeWASocket` returns
    var authFolders: map<string, Folder>  // baileys_auth_info/
    var pending: seq<Reconnect>           // reconnects waiting on their 3 s timer
    var log: seq<SocketCall>              // socket calls made, in order

    ghost predicate Valid()
      reads this`instances, this`order, this`records, this`listening, this`nextHandle
    {
      && Minted(records, nextHandle)
      && listening <= records.Keys
      && Registered(instances, order, records)
      && Live(records, listening)
    }

    /** The service as the module creates it: an empty registry, then the
        startup resurrection over the listed auth folders. */
    constructor (store: map<string, Folder>, listing: seq<string>, now: string)
      requires Distinct(listing)
      ensures Valid()
      ensures forall id :: id in instances <==> Resurrects(store, listing, id)
      ensures forall id :: Resurrects(store, listing, id) ==>
                records[instances[id]] == FreshRecord(id, Some(ResurrectName(store[id], id)),
                                                      Some(ResurrectCreatedAt(store[id], now)), now, store[id].account)
      // a resurrected folder gets the metadata `initializeInstance` writes when it has none; every
      // other folder is left untouched, and no folder is added
      ensures forall id :: Resurrects(store, listing, id) ==>
                id in authFolders && authFolders[id] == PreparedFolder(store, id, Meta(ResurrectName(store[id], id),
                                                                             ResurrectCreatedAt(store[id], now)))
      ensures forall id :: !Resurrects(store, listing, id) ==>
                (id in authFolders <==> id in store) && (id in authFolders ==> authFolders[id] == store[id])
      // one socket per resurrected id, numbered from 0 in listing order, all with listeners attached
      ensures var ids := Resurrected(store, listing);
              && order == ids
              && nextHandle == |ids|
              && (forall k :: 0 <= k < |ids| ==> instances[ids[k]] == k)
              && listening == Handles(0, nextHandle)
              && records.Keys == Handles(0, nextHandle)
      ensures pending == [] && log == []
    {
      instances, order, records, listening, nextHandle := map[], [], map[], {}, 0;
      authFolders, pending, log := store, [], [];
      new;
      LoadExistingInstances(listing, now);
    }

    /** `initializeInstance` returns the existing record untouched. */
    predicate Guarded(id: string)
      requires Valid()
      reads this
      // an unknown id is never guarded, an initialising or connected record always is, and a
      // record a close has finished with (not initialising, not connected) is not
      ensures Guarded(id) ==> id in instances
      ensures id in instances && records[instances[id]].isInitializing ==> Guarded(id)
      ensures id in instances && records[instances[id]].state == Connected ==> Guarded(id)
      ensures (id in instances && !records[instances[id]].isInitializing
               && records[instances[id]].state != Connected) ==> !Guarded(id)
    {
      id in instances && (records[instances[id]].isInitializing || records[instances[id]].state == Connected)
    }

    /** The socket a re-initialisation of `id` releases. */
    function Released(id: string): set<Handle>
      reads this
    {
      if id in instances then {instances[id]} else {}
    }

    /** The calls releasing that socket makes. */
    function ReleaseCalls(id: string): seq<SocketCall>
      reads this
    {
      if id in instances then [CloseTransport(instances[id])] else []
    }

    /** `initializeInstance(id, name, createdAt)`; the result is the socket of
        the record it returns. */
    method InitializeInstance(id: string, name: Field, createdAt: Field, now: string) returns (h: Handle)
      requires Valid()
      modifies this`log, this`listening, this`authFolders, this`nextHandle, this`records, this`order, this`instances
      ensures Valid()
      ensures id in instances && instances[id] == h
      // every other registration is left as it was
      ensures forall k :: k != id ==> (k in instances <==> k in old(instances))
      ensures forall k :: k in old(instances) && k != id ==> instances[k] == old(instances[k]) && records[instances[k]] == old(records[instances[k]])
      ensures forall k :: k != id ==> (k in authFolders <==> k in old(authFolders)) && (k in authFolders ==> authFolders[k] == old(authFolders[k]))
      ensures id in old(authFolders) ==> id in authFolders && authFolders[id].account == old(authFolders[id].account)
      ensures old(Guarded(id)) ==> h == old(instances[id]) && unchanged(this)
      ensures OneLive(old(instances), old(records), old(listening)) ==> OneLive(instances, records, listening)
      ensures !old(Guarded(id)) ==>
                var folder := PreparedFolder(old(authFolders), id, Meta(Or(name, id), Or(createdAt, now)));
                && h == old(nextHandle) && h !in old(records) && nextHandle == h + 1
                && instances == old(instances)[id := h]
                && records == old(records)[h := FreshRecord(id, name, createdAt, now, AccountOf(old(authFolders), id))]
                && listening == old(listening) - old(Released(id)) + {h}
                && log == old(log) + old(ReleaseCalls(id))
                && authFolders == old(authFolders)[id := folder]
                && order == (if id in old(instances) then old(order) else old(order) + [id])
    {
      if Guarded(id) {
        return instances[id];
      }
      h := Reinitialize(id, name, createdAt, now);
    }

    /** The unguarded part of `initializeInstance`: release the old socket,
        then install a fresh record under a new one. */
    method Reinitialize(id: string, name: Field, createdAt: Field, now: string) returns (h: Handle)
      requires Valid()
      modifies this`log, this`listening, this`authFolders, this`nextHandle, this`records, this`order, this`instances
      ensures Valid()
      ensures OneLive(old(instances), old(records), old(listening)) ==> OneLive(instances, records, listening)
      ensures var folder := PreparedFolder(old(authFolders), id, Meta(Or(name, id), Or(createdAt, now)));
              && h == old(nextHandle) && h !in old(records) && nextHandle == h + 1
              && instances == old(instances)[id := h]
              && records == old(records)[h := FreshRecord(id, name, createdAt, now, AccountOf(old(authFolders), id))]
              && listening == old(listening) - old(Released(id)) + {h}
              && log == old(log) + old(ReleaseCalls(id))
              && authFolders == old(authFolders)[id := folder]
              && order == (if id in old(instances) then old(order) else old(order) + [id])
    {
      ghost var registry, all, live := instances, records, listening;
      Release(id);
      h := Install(id, name, createdAt, now);
      OneLiveAfterInstall(registry, all, live, id, h, records[h]);
    }

    /** Close the transport of the socket registered for `id` and drop its
        listeners; the record stays registered. */
    method Release(id: string)
      requires Valid()
      modifies this`log, this`listening
      ensures Valid()
      ensures listening == old(listening) - old(Released(id))
      ensures log == old(log) + old(ReleaseCalls(id))
    {
      if id in instances {
        var stale := instances[id];
        log := log + [CloseTransport(stale)];
        listening := listening - {stale};
      }
    }

    /** Create the auth folder and metadata when missing, open a fresh socket
        and register a fresh record for `id` under it. */
    method Install(id: string, name: Field, createdAt: Field, now: string) returns (h: Handle)
      requires Valid()
      modifies this`authFolders, this`nextHandle, this`records, this`order, this`instances, this`listening
      ensures Valid()
      ensures var folder := PreparedFolder(old(authFolders), id, Meta(Or(name, id), Or(createdAt, now)));
              && h == old(nextHandle) && h !in old(records) && nextHandle == h + 1
              && instances == old(instances)[id := h]
              && records == old(records)[h := FreshRecord(id, name, createdAt, now, AccountOf(old(authFolders), id))]
              && listening == old(listening) + {h}
              && authFolders == old(authFolders)[id := folder]
              && order == (if id in old(instances) then old(order) else old(order) + [id])
    {
      var folder := PreparedFolder(authFolders, id, Meta(Or(name, id), Or(createdAt, now)));
      authFolders := authFolders[id := folder];
      h := nextHandle;
      nextHandle := nextHandle + 1;
      Register(id, h, FreshRecord(id, name, createdAt, now, folder.account));
    }

    /** `instances.set(id, record)` for the record of the new socket `h`,
        whose listeners are attached from now on. */
    method Register(id: string, h: Handle, r: Record)
      requires Valid()
      requires h !in records && h < nextHandle
      requires r.id == id && RecordOk(r) && !Final(r.state)
      modifies this`records, this`order, this`instances, this`listening
      ensures Valid()
      ensures instances == old(instances)[id := h]
      ensures records == old(records)[h := r]
      ensures listening == old(listening) + {h}
      ensures order == (if id in old(instances) then old(order) else old(order) + [id])
    {
      var order' := if id in instances then order else order + [id];
      RegisteredAfterSet(instances, order, records, id, h, r);
      MintedAfterSet(records, nextHandle, h, r);
      LiveAfterSet(records, listening, h, r);
      records, order, instances, listening := records[h := r], order', instances[id := h], listening + {h};
    }

    /** `instances.delete(id)`. */
    method Evict(id: string)
      requires Valid()
      modifies this`instances, this`order
      ensures Valid()
      ensures instances == old(instances) - {id}
      ensures order == Without(old(order), id)
    {
      instances := instances - {id};
      order := Without(order, id);
    }

    /** One batch of events delivered to socket `h`: ignored unless its
        listeners are attached, otherwise the handler runs on the record of
        that socket and the service carries out the reaction. */
    method HandleEvents(h: Handle, ev: Events, nowMs: int)
      requires Valid()
      modifies this`records, this`listening, this`authFolders, this`pending
      ensures Valid()
      ensures h !in old(listening) ==> unchanged(this)
      ensures old(h in records && Final(records[h].state)) ==> unchanged(this)
      ensures h in old(listening) ==>
                var r := old(records[h]);
                var x := React(r, ev, nowMs);
                && records == old(records)[h := x.record]
                && listening == (if x.detach then old(listening) - {h} else old(listening))
                && authFolders == SaveCreds(if x.purge then Purge(old(authFolders), r.id) else old(authFolders), r.id, x.save)
                && pending == old(pending) + (if x.reconnect then [Reconnect(r.id, r.name, r.createdAt)] else [])
      ensures OneLive(old(instances), old(records), old(listening)) ==> OneLive(instances, records, listening)
    {
      if h !in listening {
        return;
      }
      var r := records[h];
      var x := React(r, ev, nowMs);
      ghost var all, live := records, listening;
      Update(h, x.record, x.detach);
      OneLiveAfterUpdate(instances, all, live, h, x.record, listening);
      authFolders := SaveCreds(if x.purge then Purge(authFolders, r.id) else authFolders, r.id, x.save);
      if x.reconnect {
        pending := pending + [Reconnect(r.id, r.name, r.createdAt)];
      }
    }

    /** Write back the record of socket `h`, dropping its listeners when the
        handler detached them. */
    method Update(h: Handle, r: Record, detach: bool)
      requires Valid()
      requires h in listening && r.id == records[h].id && RecordOk(r)
      requires Final(r.state) ==> detach
      modifies this`records, this`listening
      ensures Valid()
      ensures records == old(records)[h := r]
      ensures listening == if detach then old(listening) - {h} else old(listening)
    {
      records := records[h := r];
      if detach {
        listening := listening - {h};
      }
    }

    /** The oldest reconnect timer fires. */
    method RunPendingReconnect(now: string) returns (h: Option<Handle>)
      requires Valid()
      modifies this`log, this`listening, this`authFolders, this`nextHandle, this`records, this`order, this`instances, this`pending
      ensures Valid()
      ensures OneLive(old(instances), old(records), old(listening)) ==> OneLive(instances, records, listening)
      ensures old(pending) == [] ==> h.None? && unchanged(this)
      ensures old(pending) != [] ==>
                var p := old(pending[0]);
                && h.Some? && p.id in instances && instances[p.id] == h.value
                && pending == old(pending[1..])
                // a guarded id: only the timer queue changes
                && (old(Guarded(p.id)) ==>
                      && h.value == old(instances[p.id])
                      && instances == old(instances) && order == old(order) && records == old(records)
                      && listening == old(listening) && nextHandle == old(nextHandle)
                      && authFolders == old(authFolders) && log == old(log))
                // otherwise the re-initialisation of `InitializeInstance`
                && (!old(Guarded(p.id)) ==>
                      var folder := PreparedFolder(old(authFolders), p.id, Meta(Or(Some(p.name), p.id), Or(Some(p.createdAt), now)));
                      && h.value == old(nextHandle) && h.value !in old(records) && nextHandle == h.value + 1
                      && instances == old(instances)[p.id := h.value]
                      && records == old(records)[h.value := FreshRecord(p.id, Some(p.name), Some(p.createdAt), now, AccountOf(old(authFolders), p.id))]
                      && listening == old(listening) - old(Released(p.id)) + {h.value}
                      && log == old(log) + old(ReleaseCalls(p.id))
                      && authFolders == old(authFolders)[p.id := folder]
                      && order == (if p.id in old(instances) then old(order) else old(order) + [p.id])
                      && (p.name != "" ==> records[h.value].name == p.name)
                      && (p.createdAt != "" ==> records[h.value].createdAt == p.createdAt))
    {
      if pending == [] {
        return None;
      }
      var p := pending[0];
      pending := pending[1..];
      var s := InitializeInstance(p.id, Some(p.name), Some(p.createdAt), now);
      h := Some(s);
    }

    /** `sendMessage`: text to `number` over the instance's socket. */
    method SendMessage(id: string, number: string, text: Field) returns (res: SendResult)
      modifies this`log
      ensures res == (if id in instances then Sent else NotInitialized)
      ensures log == old(log) + (if id in instances then TextCalls(instances[id], number, text) else [])
    {
      if id !in instances {
        return NotInitialized;
      }
      log := log + TextCalls(instances[id], number, text);
      res := Sent;
    }

    /** `sendMedia`: an image or a video to `number`. */
    method SendMedia(id: string, number: string, media: Field, kind: string, caption: Field) returns (res: SendResult)
      modifies this`log
      ensures id !in instances ==> res == NotInitialized && log == old(log)
      ensures id in instances ==>
                var calls := MediaCalls(instances[id], number, media, kind, caption);
                && res == (if calls.Some? then Sent else BadArgument)
                && log == old(log) + (if calls.Some? then calls.value else [])
    {
      if id !in instances {
        return NotInitialized;
      }
      var calls := MediaCalls(instances[id], number, media, kind, caption);
      if calls.None? {
        return BadArgument;
      }
      log := log + calls.value;
      res := Sent;
    }

    /** `sendDocument`: a file to `number`, typed by `Mimetype`. */
    method SendDocument(id: string, number: string, media: Field, fileName: Field, caption: Field) returns (res: SendResult)
      modifies this`log
      ensures id !in instances ==> res == NotInitialized && log == old(log)
      ensures id in instances ==>
                var calls := DocumentCalls(instances[id], number, media, fileName, caption);
                && res == (if calls.Some? then Sent else BadArgument)
                && log == old(log) + (if calls.Some? then calls.value else [])
    {
      if id !in instances {
        return NotInitialized;
      }
      var calls := DocumentCalls(instances[id], number, media, fileName, caption);
      if calls.None? {
        return BadArgument;
      }
      log := log + calls.value;
      res := Sent;
    }

    /** `sendReceipt`: the files in order, one `sendDocument` each; the first
        failure aborts the rest. `delivered` is the length of `results`. */
    method SendReceipt(id: string, number: string, files: seq<ReceiptFile>) returns (res: SendResult, delivered: nat)
      modifies this`log
      ensures id !in instances ==> res == NotInitialized && delivered == 0 && log == old(log)
      ensures id in instances ==>
                && delivered == FirstBad(files)
                && res == (if delivered == |files| then Sent else BadArgument)
                && log == old(log) + ReceiptCalls(instances[id], number, files[..delivered])
    {
      if id !in instances {
        return NotInitialized, 0;
      }
      var sock := instances[id];
      var i := 0;
      while i < |files|
        invariant 0 <= i <= |files|
        invariant forall j :: 0 <= j < i ==> FileOk(files[j])
        invariant log == old(log) + ReceiptCalls(sock, number, files[..i])
      {
        var f := files[i];
        var r := SendDocument(id, number, f.media, f.filename, f.caption);
        if r != Sent {
          return r, i;
        }
        assert FileOk(f);
        var sent := files[..i + 1];
        assert sent[..i] == files[..i];
        AppendAssoc(old(log), ReceiptCalls(sock, number, files[..i]), DocumentCalls(sock, number, f.media, f.filename, f.caption).value);
        i := i + 1;
      }
      assert files[..i] == files;
      res, delivered := Sent, i;
    }

    /** `logout`: false when there is no record; otherwise the socket is asked
        to unlink (a failure of that call is swallowed, so the resulting state
        is the same either way), the auth folder is deleted and the record is
        evicted. The socket's listeners stay attached. */
    method Logout(id: string) returns (ok: bool)
      requires Valid()
      modifies this`log, this`authFolders, this`instances, this`order
      ensures Valid()
      ensures ok == (id in old(instances))
      ensures !ok ==> unchanged(this)
      ensures ok ==>
                && log == old(log) + [Unlink(old(instances[id]))]
                && authFolders == Purge(old(authFolders), id)
                && instances == old(instances) - {id}
                && order == Without(old(order), id)
      ensures GetInstanceStatus(id).None?
    {
      if id !in instances {
        return false;
      }
      log := log + [Unlink(instances[id])];
      authFolders := Purge(authFolders, id);
      Evict(id);
      ok := true;
    }

    /** `restartInstance`: the record is released and evicted first, so the
        fresh one always starts a new pairing cycle. */
    method RestartInstance(id: string, name: Field, now: string) returns (h: Handle)
      requires Valid()
      modifies this`log, this`listening, this`instances, this`order, this`authFolders, this`nextHandle, this`records
      ensures Valid()
      ensures h == old(nextHandle) && nextHandle == h + 1 && instances == old(instances)[id := h]
      ensures records == old(records)[h := FreshRecord(id, name, None, now, AccountOf(old(authFolders), id))]
      ensures records[h].qrAttempts == 0 && !records[h].qrLimitReached && records[h].state == ConnState.Connecting
      ensures listening == old(listening) - old(Released(id)) + {h}
      ensures log == old(log) + old(ReleaseCalls(id))
      ensures order == Without(old(order), id) + [id]
      ensures authFolders == old(authFolders)[id := PreparedFolder(old(authFolders), id, Meta(Or(name, id), now))]
      ensures OneLive(old(instances), old(records), old(listening)) ==> OneLive(instances, records, listening)
    {
      ghost var all, live := records, listening;
      Release(id);
      ghost var registry := instances;
      Evict(id);
      // with the id unregistered, `initializeInstance` has nothing to guard
      // or release and goes straight to the installation
      h := Install(id, name, None, now);
      RegisterAgain(registry, id, h);
      OneLiveAfterInstall(registry, all, live, id, h, records[h]);
    }

    /** `logout` leaves the old socket's listeners attached, so a later
        `initializeInstance` of the same id leaves two live sockets whose
        records carry that id: one live socket per id no longer holds. */
    method LogoutThenReinitialize(id: string, name: Field, createdAt: Field, now: string) returns (stale: Handle, h: Handle)
      requires Valid()
      requires id in instances && instances[id] in listening
      modifies this`log, this`listening, this`authFolders, this`nextHandle, this`records, this`order, this`instances
      ensures Valid()
      ensures stale == old(instances[id]) && id in instances && instances[id] == h && stale != h
      ensures stale in listening && h in listening && records[stale].id == id && records[h].id == id
      ensures !OneLive(instances, records, listening)
    {
      stale := instances[id];
      var ok := Logout(id);
      h := InitializeInstance(id, name, createdAt, now);
    }

    /** `getInstanceStatus`: null exactly for an unknown id. */
    function GetInstanceStatus(id: string): (s: Option<Status>)
      requires Valid()
      reads this
      ensures s.None? <==> id !in instances
      ensures s.Some? ==> s.value == StatusOf(records[instances[id]])
    {
      if id in instances then Some(StatusOf(records[instances[id]])) else None
    }

    /** The summaries of the records registered under `ids`, in that order. */
    function Summaries(ids: seq<string>): (all: seq<Summary>)
      requires Valid()
      requires forall id :: id in ids ==> id in instances
      reads this
      ensures |all| == |ids|
      ensures forall i :: 0 <= i < |ids| ==> all[i] == SummaryOf(records[instances[ids[i]]]) && all[i].id == ids[i]
    {
      if ids == [] then [] else [SummaryOf(records[instances[ids[0]]])] + Summaries(ids[1..])
    }

    /** `getAllInstances`: every registered record exactly once, in the
        registry's insertion order. */
    function GetAllInstances(): (all: seq<Summary>)
      requires Valid()
      reads this
      ensures |all| == |instances|
      ensures forall i :: 0 <= i < |all| ==> all[i].id in instances && all[i] == SummaryOf(records[instances[all[i].id]])
      ensures forall id :: id in instances ==> exists i :: 0 <= i < |all| && all[i].id == id
      ensures forall i, j :: 0 <= i < j < |all| ==> all[i].id != all[j].id
    {
      OrderLists(instances, order, records);
      Summaries(order)
    }

    /** One entry of the startup listing: a folder bound to an account is
        initialised with the name and creation time of its metadata. */
    method LoadFolder(f: string, now: string)
      requires Valid()
      modifies this`log, this`listening, this`authFolders, this`nextHandle, this`records, this`order, this`instances
      ensures Valid()
      ensures !(f in old(authFolders) && Bound(old(authFolders)[f])) ==> unchanged(this)
      ensures forall k :: k != f ==> (k in instances <==> k in old(instances))
      ensures f in old(instances) ==> f in instances
      ensures forall k :: k in old(instances) && k != f ==> instances[k] == old(instances[k]) && records[instances[k]] == old(records[instances[k]])
      ensures forall k :: k != f ==> (k in authFolders <==> k in old(authFolders)) && (k in authFolders ==> authFolders[k] == old(authFolders[k]))
      ensures f in old(authFolders) ==> f in authFolders && authFolders[f].account == old(authFolders[f].account)
      ensures f in old(authFolders) && Bound(old(authFolders)[f]) && f !in old(instances) ==>
                var store := old(authFolders);
                var h := old(nextHandle);
                && nextHandle == h + 1 && h !in old(records)
                && instances == old(instances)[f := h]
                && records == old(records)[h := FreshRecord(f, Some(ResurrectName(store[f], f)),
                                                            Some(ResurrectCreatedAt(store[f], now)), now, store[f].account)]
                && listening == old(listening) + {h}
                && log == old(log)
                && authFolders == store[f := PreparedFolder(store, f, Meta(ResurrectName(store[f], f), ResurrectCreatedAt(store[f], now)))]
                && order == old(order) + [f]
    {
      if f in authFolders && Bound(authFolders[f]) {
        var folder := authFolders[f];
        var h := InitializeInstance(f, Some(ResurrectName(folder, f)), Some(ResurrectCreatedAt(folder, now)), now);
      }
    }

    /** `loadExistingInstances` over the entries of baileys_auth_info/: every
        folder whose credentials are bound to an account is initialised with
        the name and creation time of its metadata; the others are left
        alone. */
    method LoadExistingInstances(listing: seq<string>, now: string)
      requires Valid()
      requires Distinct(listing)
      modifies this`log, this`listening, this`authFolders, this`nextHandle, this`records, this`order, this`instances
      ensures Valid()
      ensures forall id :: id in instances <==> id in old(instances) || Resurrects(old(authFolders), listing, id)
      ensures forall id :: Resurrects(old(authFolders), listing, id) && id !in old(instances) ==>
                records[instances[id]] == FreshRecord(id, Some(ResurrectName(old(authFolders)[id], id)),
                                                      Some(ResurrectCreatedAt(old(authFolders)[id], now)), now,
                                                      old(authFolders)[id].account)
      // a resurrected folder gets the metadata `initializeInstance` writes when it has none
      ensures forall id :: Resurrects(old(authFolders), listing, id) && id !in old(instances) ==>
                id in authFolders && authFolders[id] == PreparedFolder(old(authFolders), id, Meta(ResurrectName(old(authFolders)[id], id),
                                                                             ResurrectCreatedAt(old(authFolders)[id], now)))
      // every other folder is left untouched, and no folder is added
      ensures forall id :: !Resurrects(old(authFolders), listing, id) ==>
                (id in authFolders <==> id in old(authFolders)) && (id in authFolders ==> authFolders[id] == old(authFolders)[id])
      ensures forall id :: id in old(authFolders) ==> id in authFolders && authFolders[id].account == old(authFolders)[id].account
      // when no listed id is registered yet, as at construction: one new socket per resurrected id, in listing order
      ensures (forall id :: id in listing ==> id !in old(instances)) ==>
                var ids := Resurrected(old(authFolders), listing);
                && log == old(log)
                && nextHandle == old(nextHandle) + |ids|
                && order == old(order) + ids
                && (forall k :: 0 <= k < |ids| ==> instances[ids[k]] == old(nextHandle) + k)
                && (forall id :: id in old(instances) ==> instances[id] == old(instances)[id])
                && listening == old(listening) + Handles(old(nextHandle), nextHandle)
                && records.Keys == old(records).Keys + Handles(old(nextHandle), nextHandle)
                && (forall h :: h in old(records) ==> records[h] == old(records)[h])
    {
      ghost var store := authFolders;
      ghost var before := instances;
      ghost var disjoint := forall id :: id in listing ==> id !in instances;
      ghost var order0, next0, live0, records0, log0 := order, nextHandle, listening, records, log;
      var i := 0;
      while i < |listing|
        invariant 0 <= i <= |listing|
        invariant Valid()
        invariant Revived(store, before, listing[..i], now, instances, records)
        invariant Prepared(store, before, listing[..i], now, authFolders)
        invariant disjoint ==>
                    Counted(store, before, listing[..i], next0, order0, live0, records0, log0,
                            instances, records, order, nextHandle, listening, log)
      {
        var f := listing[i];
        ghost var done := listing[..i];
        PrefixSnoc(listing, i);
        assert f !in done;
        i := i + 1;
        assert !Resurrects(store, done, f);
        assert (f in authFolders <==> f in store) && (f in authFolders ==> authFolders[f] == store[f]);
        assert f in instances <==> f in before;
        ghost var ins, recs, fol, ord, nh, live, lg := instances, records, authFolders, order, nextHandle, listening, log;
        LoadFolder(f, now);
        RevivedStep(store, before, done, f, listing[..i], now, fol, ins, recs, instances, records, nh);
        PreparedStep(store, before, done, f, listing[..i], now, ins, fol, authFolders);
        if disjoint {
          CountedStep(store, before, done, f, listing[..i], next0, order0, live0, records0, log0,
                      ins, recs, ord, nh, live, lg, instances, records, order, nextHandle, listening, log,
                      fol, if nh in records then records[nh] else FreshRecord(f, None, None, now, None));
        }
      }
      assert listing[..i] == listing;
    }
  }
}
