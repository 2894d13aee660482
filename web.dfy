/** The browser implementation of the plugin, `CapacitorFirestoreWeb`: the
    listener registry (`subscriptions`), the pending-write counter
    (`pendingActions`) and the not-initialised guard (`firestore === null`),
    with every call into the Firestore library replaced by the values it
    would return. */
module Web {
  import opened Definitions
  import opened FirestoreSdk
  import opened CallbackIds
  import opened ConstraintTranslator
  import opened SnapshotMapper
  import opened Sequences
  import opened ListenerRegistry
  import PendingCounter

  /** A failure raised by the library and passed on unchanged. */
  datatype LibraryFailure =
    | Refused(reference: string)  // resolving or reading the reference failed
    | UnsubscribeFailed           // a cancellation handle threw

  datatype Error =
    | NotInitialized
    | UnknownListener(callbackId: CallbackId)
    | LibraryError(cause: LibraryFailure)
  {
    /** The plugin's own rejection reason; a library error keeps the library's. */
    function Message(): (m: Option<string>)
      ensures m.None? <==> this.LibraryError?
      ensures this.UnknownListener? ==> m == Some("No callback with id " + this.callbackId)
    {
      match this
      case NotInitialized => Some("Firestore not initialized")
      case UnknownListener(id) => Some("No callback with id " + id)
      case LibraryError(_) => None
    }
  }

  /** How a call ends for its caller: the promise resolves, the promise
      rejects, or (for the methods that are not `async` and build no promise
      around their body) an exception escapes the call itself. */
  datatype Reply<T> = Resolved(value: T) | Rejected(error: Error) | Threw(error: Error)

  class CapacitorFirestoreWeb<V> {
    /** `firestore !== null` */
    var initialized: bool
    /** `subscriptions`: callback id to cancellation handle */
    var subs: map<CallbackId, Unsubscribe<V>>
    /** the order in which `for...in` enumerates the keys of `subscriptions` */
    var order: seq<CallbackId>
    /** `pendingActions` */
    var pending: nat
    /** the dispatched writes whose promises have not settled yet, by token */
    var inflight: map<nat, WriteOp<V>>
    /** the token the next dispatched write gets */
    var nextToken: nat
    /** raises of `pendingActions` whose write threw before it was dispatched */
    ghost var leaked: nat
    /** every cancellation handle invoked so far, in order */
    ghost var invoked: seq<Unsubscribe<V>>

    ghost function Counter(): PendingCounter.CounterState
      reads this
    {
      PendingCounter.CounterState(pending, inflight.Keys, nextToken, leaked)
    }

    ghost predicate Valid()
      reads this
    {
      && NoDup(order)
      && (forall k :: k in subs <==> k in order)
      && PendingCounter.Balanced(Counter())
    }

    constructor ()
      ensures Valid() && !initialized
      ensures subs == map[] && order == [] && invoked == []
      ensures inflight == map[] && Counter() == PendingCounter.Initial
    {
      initialized := false;
      subs, order := map[], [];
      pending, inflight, nextToken, leaked := 0, map[], 0, 0;
      invoked := [];
    }

    /** `initializeFirestore`: afterwards a client is present. Registered
        listeners and the counter are kept. */
    method InitializeFirestore()
      modifies this`initialized
      ensures initialized
    {
      initialized := true;
    }

    /** `getPendingActions`: reports the counter and changes nothing. */
    method GetPendingActions() returns (r: Reply<PendingActions>)
      ensures r == Resolved(PendingActions(pending))
    {
      r := Resolved(PendingActions(pending));
    }

    /** Stores `handle` under `id` as `subscriptions[id] = handle` does: an
        existing entry is overwritten and keeps its place in the key order. */
    method Store(id: CallbackId, handle: Unsubscribe<V>)
      requires Valid()
      modifies this`subs, this`order
      ensures Valid()
      ensures subs == old(subs)[id := handle]
      ensures order == if id in old(subs) then old(order) else old(order) + [id]
    {
      if id !in subs {
        assert forall j :: 0 <= j < |order| ==> order[j] in subs;
        order := order + [id];
      }
      subs := subs[id := handle];
    }

    /** `delete subscriptions[id]` */
    method Delete(id: CallbackId)
      requires Valid() && id in subs
      modifies this`subs, this`order
      ensures Valid()
      ensures subs == old(subs) - {id}
      ensures order == Without(old(order), id)
    {
      subs := subs - {id};
      order := Without(order, id);
    }

    /** `addDocumentSnapshotListener`: starts a listener on the document and
        registers its handle under the id minted from the clock. */
    method AddDocumentSnapshotListener(reference: string, now: nat, serial: nat, libraryAccepts: bool) returns (r: Reply<CallbackId>)
      requires Valid()
      modifies this`subs, this`order
      ensures Valid()
      ensures !initialized ==> r == Rejected(NotInitialized) && subs == old(subs) && order == old(order)
      ensures initialized && !libraryAccepts ==>
        r == Threw(LibraryError(Refused(reference))) && subs == old(subs) && order == old(order)
      ensures initialized && libraryAccepts ==>
        var id := TimeToId(now);
        && r == Resolved(id)
        && subs == old(subs)[id := Unsubscribe(DocumentTarget(reference), serial)]
        && order == if id in old(subs) then old(order) else old(order) + [id]
    {
      if !initialized {
        return Rejected(NotInitialized);
      }
      if !libraryAccepts {
        return Threw(LibraryError(Refused(reference)));
      }
      var handle := Unsubscribe(DocumentTarget(reference), serial);
      var id := TimeToId(now);
      Store(id, handle);
      r := Resolved(id);
    }

    /** `addCollectionSnapshotListener`: starts a listener on the translated
        query and registers its handle under the id minted from the clock. */
    method AddCollectionSnapshotListener(options: CollectionReference<V>, now: nat, serial: nat, libraryAccepts: bool)
      returns (r: Reply<CallbackId>)
      requires Valid()
      modifies this`subs, this`order
      ensures Valid()
      ensures !initialized ==> r == Rejected(NotInitialized) && subs == old(subs) && order == old(order)
      ensures initialized && !libraryAccepts ==>
        r == Threw(LibraryError(Refused(options.reference))) && subs == old(subs) && order == old(order)
      ensures initialized && libraryAccepts ==>
        var id := TimeToId(now);
        && r == Resolved(id)
        && subs == old(subs)[id := Unsubscribe(QueryTarget(BuildQuery(options.reference, options.queryConstraints)), serial)]
        && order == if id in old(subs) then old(order) else old(order) + [id]
    {
      if !initialized {
        return Rejected(NotInitialized);
      }
      if !libraryAccepts {
        return Threw(LibraryError(Refused(options.reference)));
      }
      var handle := Unsubscribe(QueryTarget(BuildQuery(options.reference, options.queryConstraints)), serial);
      var id := TimeToId(now);
      Store(id, handle);
      r := Resolved(id);
    }

    /** `getDocument`: the library's snapshot of the document, normalised. */
    method GetDocument(reference: string, libraryAccepts: bool, getDoc: string -> NativeDocumentSnapshot<V>)
      returns (r: Reply<DocumentSnapshot<V>>)
      ensures !initialized ==> r == Rejected(NotInitialized)
      ensures initialized && !libraryAccepts ==> r == Rejected(LibraryError(Refused(reference)))
      ensures initialized && libraryAccepts ==>
        && r.Resolved?
        && r.value.id == getDoc(reference).id && r.value.path == getDoc(reference).refPath
        && (r.value.data.None? <==> !getDoc(reference).present)
        && (getDoc(reference).present ==> r.value.data == Some(getDoc(reference).fields))
    {
      if !initialized {
        return Rejected(NotInitialized);
      }
      if !libraryAccepts {
        return Rejected(LibraryError(Refused(reference)));
      }
      r := Resolved(MapDocument(getDoc(reference)));
    }

    /** `getCollection`: the documents the translated query returns, normalised, in order. */
    method GetCollection(options: CollectionReference<V>, libraryAccepts: bool,
                         getDocs: NativeQuery<V> -> seq<NativeQueryDocument<V>>)
      returns (r: Reply<CollectionSnapshot<V>>)
      ensures !initialized ==> r == Rejected(NotInitialized)
      ensures initialized && !libraryAccepts ==> r == Rejected(LibraryError(Refused(options.reference)))
      ensures initialized && libraryAccepts ==>
        var docs := getDocs(BuildQuery(options.reference, options.queryConstraints));
        && r.Resolved?
        && |r.value.collection| == |docs|
        && forall i :: 0 <= i < |docs| ==>
             r.value.collection[i] == DocumentSnapshot(docs[i].id, docs[i].refPath, Some(docs[i].fields))
    {
      if !initialized {
        return Rejected(NotInitialized);
      }
      if !libraryAccepts {
        return Rejected(LibraryError(Refused(options.reference)));
      }
      var q := BuildQuery(options.reference, options.queryConstraints);
      r := Resolved(MapCollection(getDocs(q)));
    }

    /** The common middle of the four writes: `pendingActions++`, then resolve
        the reference and hand the write to the library. If resolving throws,
        the raise stays and no settlement will ever lower it. */
    method Dispatch(op: WriteOp<V>, libraryAccepts: bool) returns (token: Option<nat>)
      requires Valid()
      modifies this`pending, this`inflight, this`nextToken, this`leaked
      ensures Valid()
      ensures Counter() == PendingCounter.Step(old(Counter()),
                             if libraryAccepts then PendingCounter.Dispatched else PendingCounter.DispatchThrew)
      ensures libraryAccepts ==> token == Some(old(nextToken)) && inflight == old(inflight)[old(nextToken) := op]
      ensures !libraryAccepts ==> token == None && inflight == old(inflight)
    {
      pending := pending + 1;
      if !libraryAccepts {
        leaked := leaked + 1;
        return None;
      }
      assert nextToken !in inflight.Keys;
      inflight := inflight[nextToken := op];
      token := Some(nextToken);
      nextToken := nextToken + 1;
    }

    /** `updateDocument`: resolves as soon as the write is dispatched. */
    method UpdateDocument(reference: string, data: V, libraryAccepts: bool) returns (r: Reply<()>, token: Option<nat>)
      requires Valid()
      modifies this`pending, this`inflight, this`nextToken, this`leaked
      ensures Valid()
      ensures !initialized ==> r == Rejected(NotInitialized) && token == None && unchanged(this)
      ensures initialized ==> Counter() == PendingCounter.Step(old(Counter()),
                                if libraryAccepts then PendingCounter.Dispatched else PendingCounter.DispatchThrew)
      ensures initialized && libraryAccepts ==>
        r == Resolved(()) && token == Some(old(nextToken)) && inflight == old(inflight)[old(nextToken) := UpdateDoc(reference, data)]
      ensures initialized && !libraryAccepts ==>
        r == Rejected(LibraryError(Refused(reference))) && token == None && inflight == old(inflight)
    {
      if !initialized {
        return Rejected(NotInitialized), None;
      }
      token := Dispatch(UpdateDoc(reference, data), libraryAccepts);
      r := if libraryAccepts then Resolved(()) else Rejected(LibraryError(Refused(reference)));
    }

    /** `setDocument`: resolves as soon as the write is dispatched. */
    method SetDocument(reference: string, data: V, merge: Option<bool>, libraryAccepts: bool) returns (r: Reply<()>, token: Option<nat>)
      requires Valid()
      modifies this`pending, this`inflight, this`nextToken, this`leaked
      ensures Valid()
      ensures !initialized ==> r == Rejected(NotInitialized) && token == None && unchanged(this)
      ensures initialized ==> Counter() == PendingCounter.Step(old(Counter()),
                                if libraryAccepts then PendingCounter.Dispatched else PendingCounter.DispatchThrew)
      ensures initialized && libraryAccepts ==>
        r == Resolved(()) && token == Some(old(nextToken))
        && inflight == old(inflight)[old(nextToken) := SetDoc(reference, data, Some(SetOptions(merge)))]
      ensures initialized && !libraryAccepts ==>
        r == Rejected(LibraryError(Refused(reference))) && token == None && inflight == old(inflight)
    {
      if !initialized {
        return Rejected(NotInitialized), None;
      }
      token := Dispatch(SetDoc(reference, data, Some(SetOptions(merge))), libraryAccepts);
      r := if libraryAccepts then Resolved(()) else Rejected(LibraryError(Refused(reference)));
    }

    /** `deleteDocument`: resolves as soon as the write is dispatched. */
    method DeleteDocument(reference: string, libraryAccepts: bool) returns (r: Reply<()>, token: Option<nat>)
      requires Valid()
      modifies this`pending, this`inflight, this`nextToken, this`leaked
      ensures Valid()
      ensures !initialized ==> r == Rejected(NotInitialized) && token == None && unchanged(this)
      ensures initialized ==> Counter() == PendingCounter.Step(old(Counter()),
                                if libraryAccepts then PendingCounter.Dispatched else PendingCounter.DispatchThrew)
      ensures initialized && libraryAccepts ==>
        r == Resolved(()) && token == Some(old(nextToken)) && inflight == old(inflight)[old(nextToken) := DeleteDoc(reference)]
      ensures initialized && !libraryAccepts ==>
        r == Rejected(LibraryError(Refused(reference))) && token == None && inflight == old(inflight)
    {
      if !initialized {
        return Rejected(NotInitialized), None;
      }
      token := Dispatch(DeleteDoc(reference), libraryAccepts);
      r := if libraryAccepts then Resolved(()) else Rejected(LibraryError(Refused(reference)));
    }

    /** `addDocument`: writes to the reference the library allocates in the
        collection and resolves with that reference at once, before the write
        is confirmed. */
    method AddDocument(reference: string, data: V, newRef: NativeDocumentReference, libraryAccepts: bool)
      returns (r: Reply<DocumentReference>, token: Option<nat>)
      requires Valid()
      modifies this`pending, this`inflight, this`nextToken, this`leaked
      ensures Valid()
      ensures !initialized ==> r == Rejected(NotInitialized) && token == None && unchanged(this)
      ensures initialized ==> Counter() == PendingCounter.Step(old(Counter()),
                                if libraryAccepts then PendingCounter.Dispatched else PendingCounter.DispatchThrew)
      ensures initialized && libraryAccepts ==>
        r == Resolved(DocumentReference(newRef.id, newRef.path)) && token == Some(old(nextToken))
        && inflight == old(inflight)[old(nextToken) := SetDoc(newRef.path, data, None)]
      ensures initialized && !libraryAccepts ==>
        r == Rejected(LibraryError(Refused(reference))) && token == None && inflight == old(inflight)
    {
      if !initialized {
        return Rejected(NotInitialized), None;
      }
      token := Dispatch(SetDoc(newRef.path, data, None), libraryAccepts);
      r := if libraryAccepts then Resolved(DocumentReference(newRef.id, newRef.path))
           else Rejected(LibraryError(Refused(reference)));
    }

    /** The library settles the write dispatched under `token`: `.then` or
        `.catch` runs `pendingActions--`. The caller's promise was resolved at
        dispatch, so the `reject(err)` of a failure has no effect on it. */
    method SettleWrite(token: nat, succeeded: bool)
      requires Valid()
      modifies this`pending, this`inflight
      ensures Valid()
      ensures Counter() == PendingCounter.Step(old(Counter()), PendingCounter.Settled(token, succeeded))
      ensures inflight == old(inflight) - {token}
    {
      if token in inflight {
        assert |inflight.Keys| >= 1;
        pending := pending - 1;
        inflight := inflight - {token};
      }
    }

    /** Invokes the handle under `item` and, unless it throws, deletes the
        entry: the body of both removal paths. */
    method Cancel(item: CallbackId, throws: Unsubscribe<V> -> bool) returns (threw: bool)
      requires Valid() && item in subs
      modifies this`subs, this`order, this`invoked
      ensures Valid()
      ensures invoked == old(invoked) + [old(subs)[item]]
      ensures threw == throws(old(subs)[item])
      ensures threw ==> subs == old(subs) && order == old(order)
      ensures !threw ==> subs == old(subs) - {item} && order == Without(old(order), item)
    {
      var handle := subs[item];
      invoked := invoked + [handle];
      threw := throws(handle);
      if !threw {
        Delete(item);
      }
    }

    /** `removeSnapshotListener`: invokes and deletes the handle under the id,
        or rejects if there is none. A throwing handle leaves its entry. */
    method RemoveSnapshotListener(callbackId: CallbackId, throws: Unsubscribe<V> -> bool) returns (r: Reply<()>)
      requires Valid()
      modifies this`subs, this`order, this`invoked
      ensures Valid()
      ensures callbackId !in old(subs) ==>
        && r == Rejected(UnknownListener(callbackId))
        && subs == old(subs) && order == old(order) && invoked == old(invoked)
      ensures callbackId in old(subs) ==> invoked == old(invoked) + [old(subs)[callbackId]]
      ensures callbackId in old(subs) && throws(old(subs)[callbackId]) ==>
        r == Threw(LibraryError(UnsubscribeFailed)) && subs == old(subs) && order == old(order)
      ensures callbackId in old(subs) && !throws(old(subs)[callbackId]) ==>
        r == Resolved(()) && subs == old(subs) - {callbackId} && order == Without(old(order), callbackId)
    {
      if callbackId !in subs {
        return Rejected(UnknownListener(callbackId));
      }
      var threw := Cancel(callbackId, throws);
      r := if threw then Threw(LibraryError(UnsubscribeFailed)) else Resolved(());
    }

    /** One turn of the sweep: cancels the first key still registered. Every
        key the sweep has passed was deleted, so that key is the next one
        `for...in` reaches. `done` are the handles invoked so far and `s` the
        whole sweep's outcome. */
    method SweepHead(ghost before: map<CallbackId, Unsubscribe<V>>, ghost s: SweepResult<V>,
                     ghost done: seq<Unsubscribe<V>>, ghost start: seq<Unsubscribe<V>>, throws: Unsubscribe<V> -> bool)
        returns (threw: bool, ghost done': seq<Unsubscribe<V>>)
      requires Valid() && order != []
      requires forall k :: k in subs ==> k in before && subs[k] == before[k]
      requires invoked == start + done
      requires s == Prepend(done, Sweep(before, order, throws))
      modifies this`subs, this`order, this`invoked
      ensures Valid()
      ensures forall k :: k in subs ==> k in before && subs[k] == before[k]
      ensures invoked == start + done'
      ensures threw ==> s == SweepResult(done', order, true) && order == old(order)
      ensures !threw ==> s == Prepend(done', Sweep(before, order, throws)) && |order| < |old(order)|
    {
      var item := order[0];
      ghost var keys := order;
      ghost var handle := subs[item];
      assert handle == before[keys[0]];
      SweepAdvance(before, keys, done, s, throws);
      threw := Cancel(item, throws);
      done' := done + [handle];
      assert invoked == (start + done) + [handle] == start + done';
      if !threw {
        WithoutSplice(keys, 0);
        assert keys[..0] + keys[1..] == keys[1..];
      }
    }

    /** `clearAllSnapshotListeners`: the `for...in` sweep over the registry,
        with no `try` around a handle. */
    method ClearAllSnapshotListeners(throws: Unsubscribe<V> -> bool) returns (r: Reply<()>)
      requires Valid()
      modifies this`subs, this`order, this`invoked
      ensures Valid()
      ensures var s := Sweep(old(subs), old(order), throws);
        && invoked == old(invoked) + s.invoked
        && order == s.remaining
        && (forall k :: k in subs ==> k in old(subs) && subs[k] == old(subs)[k])
        && r == if s.threw then Threw(LibraryError(UnsubscribeFailed)) else Resolved(())
    {
      ghost var before := subs;
      ghost var done: seq<Unsubscribe<V>> := [];
      ghost var s := Sweep(subs, order, throws);
      assert s == Prepend(done, s);
      var threw := false;
      while order != [] && !threw
        invariant Valid()
        invariant forall k :: k in subs ==> k in before && subs[k] == before[k]
        invariant invoked == old(invoked) + done
        invariant threw ==> s == SweepResult(done, order, true)
        invariant !threw ==> s == Prepend(done, Sweep(before, order, throws))
        decreases |order|, if threw then 0 else 1
      {
        threw, done := SweepHead(before, s, done, old(invoked), throws);
      }
      r := if threw then Threw(LibraryError(UnsubscribeFailed)) else Resolved(());
    }
  }
}
