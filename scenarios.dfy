/** Short runs of the plugin that show, call by call, how its operations
    combine: what the caller of one operation can rely on after another. */
module Scenarios {
  import opened Definitions
  import opened FirestoreSdk
  import opened CallbackIds
  import opened ListenerRegistry
  import opened Web

  /** Two document listeners added in the same millisecond get the same id; the
      second handle replaces the first, which stays subscribed in the library
      but can no longer be reached through the plugin. */
  method SameMillisecondCollision<V>(w: CapacitorFirestoreWeb<V>, first: string, second: string, now: nat, s1: nat, s2: nat)
      returns (r1: Reply<CallbackId>, r2: Reply<CallbackId>)
    requires w.Valid() && w.initialized
    requires s1 != s2 && forall k :: k in w.subs ==> w.subs[k].serial != s1
    modifies w`subs, w`order
    ensures w.Valid()
    ensures r1 == r2 == Resolved(TimeToId(now))
    ensures w.subs == old(w.subs)[TimeToId(now) := Unsubscribe(DocumentTarget(second), s2)]
    ensures forall k :: k in w.subs ==> w.subs[k] != Unsubscribe(DocumentTarget(first), s1)
  {
    r1 := w.AddDocumentSnapshotListener(first, now, s1, true);
    r2 := w.AddDocumentSnapshotListener(second, now, s2, true);
  }

  /** Removing a listener twice: the first call invokes its handle and deletes
      it, the second finds no entry and rejects without invoking anything. */
  method RemoveTwice<V>(w: CapacitorFirestoreWeb<V>, id: CallbackId, throws: Unsubscribe<V> -> bool)
      returns (r1: Reply<()>, r2: Reply<()>)
    requires w.Valid() && id in w.subs && !throws(w.subs[id])
    modifies w`subs, w`order, w`invoked
    ensures w.Valid()
    ensures r1 == Resolved(()) && r2 == Rejected(UnknownListener(id))
    ensures r2.error.Message() == Some("No callback with id " + id)
    ensures w.subs == old(w.subs) - {id}
    ensures w.invoked == old(w.invoked) + [old(w.subs)[id]]
  {
    r1 := w.RemoveSnapshotListener(id, throws);
    r2 := w.RemoveSnapshotListener(id, throws);
  }

  /** A write that is dispatched and later settles, on success or failure,
      leaves the pending count where it was; the caller saw success at once. */
  method WriteThenSettle<V>(w: CapacitorFirestoreWeb<V>, reference: string, data: V, succeeded: bool)
      returns (r: Reply<()>)
    requires w.Valid() && w.initialized
    modifies w`pending, w`inflight, w`nextToken, w`leaked
    ensures w.Valid()
    ensures r == Resolved(())
    ensures w.pending == old(w.pending) && w.inflight == old(w.inflight)
  {
    var token;
    r, token := w.UpdateDocument(reference, data, true);
    w.SettleWrite(token.value, succeeded);
    assert old(w.nextToken) !in old(w.inflight);
  }

  /** A write whose reference the library refuses rejects, yet the pending
      count stays raised: no settlement will ever lower it. */
  method RefusedWriteLeaks<V>(w: CapacitorFirestoreWeb<V>, reference: string, data: V)
      returns (r: Reply<()>)
    requires w.Valid() && w.initialized
    modifies w`pending, w`inflight, w`nextToken, w`leaked
    ensures w.Valid()
    ensures r == Rejected(LibraryError(Refused(reference)))
    ensures w.pending == old(w.pending) + 1 && w.leaked == old(w.leaked) + 1
    ensures w.pending >= w.leaked
  {
    var token;
    r, token := w.SetDocument(reference, data, None, false);
  }

  /** When no handle throws, clearing invokes every handle once, in the order
      the listeners were added, and leaves the registry empty. */
  method ClearAllWithoutThrows<V>(w: CapacitorFirestoreWeb<V>, throws: Unsubscribe<V> -> bool)
      returns (r: Reply<()>)
    requires w.Valid()
    requires forall k :: k in w.subs ==> !throws(w.subs[k])
    modifies w`subs, w`order, w`invoked
    ensures w.Valid()
    ensures r == Resolved(())
    ensures w.subs == map[] && w.order == []
    ensures w.invoked == old(w.invoked) + Handles(old(w.subs), old(w.order))
  {
    SweepWithoutThrowClearsAll(w.subs, w.order, throws);
    r := w.ClearAllSnapshotListeners(throws);
  }
}
