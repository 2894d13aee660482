/** The value shapes the bridge exchanges with its host: query constraints and
    their closed operator set, document/collection snapshots, references and the
    pending-action report. Payloads (`any` / `T` in the bridge) are a type
    parameter `V` about which nothing is assumed. */
module Definitions {

  /** `T | null` */
  datatype Option<T> = None | Some(value: T)

  /** Callback ids are strings. */
  type CallbackId = string

  /** The closed operator set of a query constraint. */
  datatype QueryOperator = Eq | Ge | Le | Lt | Gt | ArrayContains

  /** Every operator, in declaration order. */
  const AllOperators: seq<QueryOperator> := [Eq, Ge, Le, Lt, Gt, ArrayContains]

  /** The string literal an operator is written as on the wire. */
  function OpStr(op: QueryOperator): (s: string)
    ensures s in {"==", ">=", "<=", "<", ">", "array-contains"}
  {
    match op
    case Eq => "=="
    case Ge => ">="
    case Le => "<="
    case Lt => "<"
    case Gt => ">"
    case ArrayContains => "array-contains"
  }

  /** Which strings the compile-time type `QueryOperators` admits: only the six
      literals. Nothing checks this at run time; `opStr` reaches `where` as it is. */
  function ParseOperator(s: string): (r: Option<QueryOperator>)
    ensures r.Some? <==> s in {"==", ">=", "<=", "<", ">", "array-contains"}
    ensures r.Some? ==> OpStr(r.value) == s
  {
    if s == "==" then Some(Eq)
    else if s == ">=" then Some(Ge)
    else if s == "<=" then Some(Le)
    else if s == "<" then Some(Lt)
    else if s == ">" then Some(Gt)
    else if s == "array-contains" then Some(ArrayContains)
    else None
  }

  /** Parsing the written form of an operator gives the operator back. */
  lemma ParseOpStr(op: QueryOperator)
    ensures ParseOperator(OpStr(op)) == Some(op)
  {
  }

  /** Every operator is one of the six, and the six have six distinct written forms. */
  lemma OperatorsClosed(op: QueryOperator)
    ensures op in AllOperators
    ensures |AllOperators| == 6
    ensures forall i, j :: 0 <= i < j < |AllOperators| ==> OpStr(AllOperators[i]) != OpStr(AllOperators[j])
  {
    match op
    case Eq => assert AllOperators[0] == op;
    case Ge => assert AllOperators[1] == op;
    case Le => assert AllOperators[2] == op;
    case Lt => assert AllOperators[3] == op;
    case Gt => assert AllOperators[4] == op;
    case ArrayContains => assert AllOperators[5] == op;
  }

  /** One single-field comparison constraint. */
  datatype QueryConstraint<V> = QueryConstraint(fieldPath: string, opStr: QueryOperator, value: V)

  /** Builds a constraint from its three parts. */
  function CreateQueryConstraint<V>(field: string, operator: QueryOperator, value: V): (c: QueryConstraint<V>)
    ensures c.fieldPath == field && c.opStr == operator && c.value == value
  {
    QueryConstraint(field, operator, value)
  }

  /** Every constraint is the one built from its own three parts. */
  lemma CreateFromParts<V>(c: QueryConstraint<V>)
    ensures CreateQueryConstraint(c.fieldPath, c.opStr, c.value) == c
  {
  }

  /** A collection query: a collection path and an optional list of constraints. */
  datatype CollectionReference<V> = CollectionReference(reference: string, queryConstraints: Option<seq<QueryConstraint<V>>>)

  /** A normalised document: `data` is `None` when the document does not exist. */
  datatype DocumentSnapshot<V> = DocumentSnapshot(id: string, path: string, data: Option<V>)

  /** A normalised collection: the documents in the order the store returned them. */
  datatype CollectionSnapshot<V> = CollectionSnapshot(collection: seq<DocumentSnapshot<V>>)

  /** The identity of a document, as `addDocument` reports it. */
  datatype DocumentReference = DocumentReference(id: string, path: string)

  /** The report of `getPendingActions`. */
  datatype PendingActions = PendingActions(count: nat)
}
