/** Normalising the library's snapshots into the bridge's wire shapes. */
module SnapshotMapper {
  import opened Definitions
  import opened FirestoreSdk

  /** `{id, path: ref.path, data: exists() ? data() : null}` */
  function MapDocument<V>(s: NativeDocumentSnapshot<V>): (d: DocumentSnapshot<V>)
    ensures d.id == s.id && d.path == s.refPath
    ensures d.data.None? <==> !s.present
    ensures s.present ==> d.data == Some(s.fields)
  {
    DocumentSnapshot(s.id, s.refPath, if s.present then Some(s.fields) else None)
  }

  /** One document of a collection snapshot: `data()` is taken as it is. */
  function MapQueryDocument<V>(q: NativeQueryDocument<V>): (d: DocumentSnapshot<V>)
    ensures d.id == q.id && d.path == q.refPath && d.data == Some(q.fields)
  {
    DocumentSnapshot(q.id, q.refPath, Some(q.fields))
  }

  /** `{collection: docs.map(...)}`: one entry per document, in order, none with null data. */
  function MapCollection<V>(docs: seq<NativeQueryDocument<V>>): (c: CollectionSnapshot<V>)
    ensures |c.collection| == |docs|
    ensures forall i :: 0 <= i < |docs| ==>
      c.collection[i].id == docs[i].id && c.collection[i].path == docs[i].refPath
      && c.collection[i].data == Some(docs[i].fields)
  {
    if docs == [] then CollectionSnapshot([])
    else CollectionSnapshot([MapQueryDocument(docs[0])] + MapCollection(docs[1..]).collection)
  }

  /** A document of a collection snapshot is mapped as a single existing document would be. */
  lemma QueryDocumentIsExistingDocument<V>(q: NativeQueryDocument<V>)
    ensures MapQueryDocument(q) == MapDocument(NativeDocumentSnapshot(q.id, q.refPath, true, q.fields))
  {
  }

  /** The collection mapping is the document mapping applied in order: mapping a
      concatenation concatenates the mappings. */
  lemma MapCollectionAppend<V>(a: seq<NativeQueryDocument<V>>, b: seq<NativeQueryDocument<V>>)
    ensures MapCollection(a + b).collection == MapCollection(a).collection + MapCollection(b).collection
  {
    var l := MapCollection(a + b).collection;
    var r := MapCollection(a).collection + MapCollection(b).collection;
    forall i | 0 <= i < |l| ensures l[i] == r[i] {
      if i < |a| {
        assert (a + b)[i] == a[i];
      } else {
        assert (a + b)[i] == b[i - |a|];
      }
    }
  }

  /** No entry of a mapped collection reports a missing document. */
  lemma MapCollectionAllPresent<V>(docs: seq<NativeQueryDocument<V>>)
    ensures forall d :: d in MapCollection(docs).collection ==> d.data.Some?
  {
  }
}
