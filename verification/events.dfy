/**
 * The event model: one `TransactionLog` message as it arrives from the
 * backend, already decoded from its JSON text.
 */
module Events {
  import opened Wrappers

  /** The four `type` strings the reducer recognises. */
  const StartedType: string := "transaction_started"
  const QueryType: string := "query_executed"
  const CommittedType: string := "transaction_committed"
  const RollbackedType: string := "transaction_rollbacked"

  /**
   * What the reducer makes of an event's `type` string. The wire field is an
   * arbitrary string, so any other value is kept as `Other(name)`.
   */
  datatype Kind = TxStarted | QueryExecuted | TxCommitted | TxRollbacked | Other(name: string)

  /** The optional lock description attached to an event. */
  datatype LockInfo = LockInfo(lockType: string, table: string, rowId: Option<int>)

  /**
   * One transaction log entry. `kind` is the `type` field as classified by
   * `Classify` (the wire string is `TypeName(kind)`); `result` is an
   * arbitrary JSON value that the reducer only carries along, kept here as
   * its serialised text.
   */
  datatype Event = Event(
    id: string,
    kind: WireKind,
    query: Option<string>,
    result: Option<string>,
    isolationLevel: Option<string>,
    timestamp: int,
    lockInfo: Option<LockInfo>)

  /** An `Other` kind never carries one of the four recognised names. */
  predicate WellFormedKind(k: Kind)
  {
    k.Other? ==> k.name !in {StartedType, QueryType, CommittedType, RollbackedType}
  }

  /**
   * The reducer's string comparisons on `type`, as a classification; it
   * loses nothing, since the wire string is recovered from the kind.
   */
  function Classify(t: string): (k: WireKind)
    ensures TypeName(k) == t
  {
    if t == StartedType then TxStarted
    else if t == QueryType then QueryExecuted
    else if t == CommittedType then TxCommitted
    else if t == RollbackedType then TxRollbacked
    else Other(t)
  }

  /** The kinds a classified `type` string can have. */
  type WireKind = k: Kind | WellFormedKind(k) witness TxStarted

  /** The wire string of a kind. */
  function TypeName(k: Kind): string
  {
    match k
    case TxStarted => StartedType
    case QueryExecuted => QueryType
    case TxCommitted => CommittedType
    case TxRollbacked => RollbackedType
    case Other(name) => name
  }

  /** Every well-formed kind is the classification of its own wire string. */
  lemma NameThenClassify(k: Kind)
    requires WellFormedKind(k)
    ensures Classify(TypeName(k)) == k
  {
  }

  /** `e` is a `transaction_started` event for transaction `x`. */
  predicate StartsTx(e: Event, x: string)
  {
    e.id == x && e.kind == TxStarted
  }

  /** `e` is a `transaction_committed` or `transaction_rollbacked` event for `x`. */
  predicate EndsTx(e: Event, x: string)
  {
    e.id == x && (e.kind == TxCommitted || e.kind == TxRollbacked)
  }

  /** The events of `es` that belong to transaction `x`, in order. */
  function EventsOf(es: seq<Event>, x: string): (r: seq<Event>)
    ensures |r| <= |es|
    ensures forall k :: 0 <= k < |r| ==> r[k].id == x
    decreases |es|
  {
    if es == [] then []
    else
      var last := es[|es| - 1];
      EventsOf(es[..|es| - 1], x) + (if last.id == x then [last] else [])
  }

  /** Filtering one more event. */
  lemma EventsOfSnoc(es: seq<Event>, e: Event, x: string)
    ensures EventsOf(es + [e], x) == EventsOf(es, x) + (if e.id == x then [e] else [])
  {
    assert (es + [e])[..|es|] == es;
  }

  /** Filtering a suffix of `es` is filtering that suffix without the last event, then the last event. */
  lemma EventsOfSuffix(es: seq<Event>, i: int, x: string)
    requires 0 <= i < |es|
    ensures EventsOf(es[i..], x) ==
      EventsOf(es[..|es| - 1][i..], x) + (if es[|es| - 1].id == x then [es[|es| - 1]] else [])
  {
    var n := |es| - 1;
    assert es[i..] == es[..n][i..] + [es[n]];
    EventsOfSnoc(es[..n][i..], es[n], x);
  }
}
