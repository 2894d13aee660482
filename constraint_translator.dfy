/** Turning an optional list of declarative constraints into the library's
    query: each constraint becomes one `where` filter, in order; an absent list
    gives the bare collection query. What a filter selects is up to the store. */
module ConstraintTranslator {
  import opened Definitions
  import opened FirestoreSdk

  /** `where(c.fieldPath, c.opStr, c.value)` */
  function ToFilter<V>(c: QueryConstraint<V>): (f: WhereFilter<V>)
  {
    Where(c.fieldPath, c.opStr, c.value)
  }

  /** `queryConstraints.map(c => where(...))`: one filter per constraint, in order. */
  function Translate<V>(cs: seq<QueryConstraint<V>>): (fs: seq<WhereFilter<V>>)
    ensures |fs| == |cs|
    ensures forall i :: 0 <= i < |cs| ==>
      fs[i].fieldPath == cs[i].fieldPath && fs[i].opStr == cs[i].opStr && fs[i].value == cs[i].value
  {
    if cs == [] then [] else [ToFilter(cs[0])] + Translate(cs[1..])
  }

  /** The query for a collection path and its optional constraints. A present
      list, even an empty one, is spread into `query(...)`; an absent one gives
      `query(collection(...))`. */
  function BuildQuery<V>(reference: string, queryConstraints: Option<seq<QueryConstraint<V>>>): (q: NativeQuery<V>)
    ensures q.collectionPath == reference
    ensures queryConstraints.None? ==> q.filters == []
    ensures queryConstraints.Some? ==> q.filters == Translate(queryConstraints.value)
  {
    match queryConstraints
    case None => NativeQuery(reference, [])
    case Some(cs) => NativeQuery(reference, Translate(cs))
  }

  /** Reads a filter back as the constraint it came from. */
  function FromFilter<V>(f: WhereFilter<V>): QueryConstraint<V>
  {
    QueryConstraint(f.fieldPath, f.opStr, f.value)
  }

  function Untranslate<V>(fs: seq<WhereFilter<V>>): seq<QueryConstraint<V>>
  {
    if fs == [] then [] else [FromFilter(fs[0])] + Untranslate(fs[1..])
  }

  /** Translation loses nothing: the constraints can be read back from the filters. */
  lemma {:induction false} TranslateRoundTrip<V>(cs: seq<QueryConstraint<V>>)
    ensures Untranslate(Translate(cs)) == cs
  {
    if cs != [] {
      TranslateRoundTrip(cs[1..]);
      assert Translate(cs)[1..] == Translate(cs[1..]);
    }
  }

  /** Translation keeps order: translating a concatenation concatenates the translations. */
  lemma {:induction false} TranslateAppend<V>(a: seq<QueryConstraint<V>>, b: seq<QueryConstraint<V>>)
    ensures Translate(a + b) == Translate(a) + Translate(b)
  {
    if a != [] {
      TranslateAppend(a[1..], b);
      assert (a + b)[1..] == a[1..] + b;
    }
  }

  /** An absent constraint list and an empty one give the same, unfiltered, query. */
  lemma AbsentIsUnconstrained<V>(reference: string)
    ensures BuildQuery<V>(reference, None) == BuildQuery<V>(reference, Some([]))
    ensures BuildQuery<V>(reference, None).filters == []
  {
  }

  /** Two constraint lists yield the same query on a path only if they are the same list. */
  lemma TranslateInjective<V>(a: seq<QueryConstraint<V>>, b: seq<QueryConstraint<V>>)
    requires Translate(a) == Translate(b)
    ensures a == b
  {
    TranslateRoundTrip(a);
    TranslateRoundTrip(b);
  }
}
