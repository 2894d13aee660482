/** Stand-ins for the values the bridge receives from, and hands to, the
    Firestore client library. The library itself is not modelled: its objects
    appear only as the plain data the bridge reads off them or passes into them. */
module FirestoreSdk {
  import opened Definitions

  /** What the bridge reads off a document snapshot: its id, `ref.path`,
      `exists()` (here `present`) and `data()`. */
  datatype NativeDocumentSnapshot<V> = NativeDocumentSnapshot(id: string, refPath: string, present: bool, fields: V)

  /** What the bridge reads off one document of a query snapshot (`docs[i]`). */
  datatype NativeQueryDocument<V> = NativeQueryDocument(id: string, refPath: string, fields: V)

  /** The result of `where(fieldPath, opStr, value)`. */
  datatype WhereFilter<V> = Where(fieldPath: string, opStr: QueryOperator, value: V)

  /** The result of `query(collection(db, path), ...filters)`. */
  datatype NativeQuery<V> = NativeQuery(collectionPath: string, filters: seq<WhereFilter<V>>)

  /** What a live listener was registered on. */
  datatype ListenTarget<V> = DocumentTarget(path: string) | QueryTarget(query: NativeQuery<V>)

  /** The cancellation handle `onSnapshot` returns: the target it listens to and
      the library's own identity for that listener. */
  datatype Unsubscribe<V> = Unsubscribe(target: ListenTarget<V>, serial: nat)

  /** The options object of `setDoc`. */
  datatype SetOptions = SetOptions(merge: Option<bool>)

  /** A write handed to the library. */
  datatype WriteOp<V> =
    | UpdateDoc(path: string, data: V)
    | SetDoc(path: string, data: V, options: Option<SetOptions>)
    | DeleteDoc(path: string)

  /** The reference `doc(collection(db, path))` allocates, with its new id. */
  datatype NativeDocumentReference = NativeDocumentReference(id: string, path: string)
}
