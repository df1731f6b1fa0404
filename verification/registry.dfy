/**
 * The transaction registry: the `Map<string, TransactionState>` the
 * reducer keeps, one aggregated entry per transaction id.
 */
module Registry {
  import opened Wrappers
  import opened Events

  datatype TxStatus = Active | Committed | Rollbacked

  /** Aggregated state of one transaction. */
  datatype TxState = TxState(id: string, status: TxStatus, isolationLevel: string, logs: seq<Event>)

  /**
   * A JavaScript `Map`: its entries, and its keys in insertion order (the
   * order in which `Map.values()` lists the entries).
   */
  datatype Registry = Registry(txs: map<string, TxState>, order: seq<string>)

  const Empty: Registry := Registry(map[], [])

  /** Every key in `order` has an entry. */
  ghost predicate KeysPresent(r: Registry)
  {
    forall i :: 0 <= i < |r.order| ==> r.order[i] in r.txs
  }

  /** `order` lists every key of `txs` exactly once. */
  ghost predicate Coherent(r: Registry)
  {
    && KeysPresent(r)
    && (forall k :: k in r.txs ==> k in r.order)
    && (forall i, j :: 0 <= i < j < |r.order| ==> r.order[i] != r.order[j])
  }

  /**
   * The registry invariant: coherent key order, and every entry is stored
   * under its own id, was founded by a `transaction_started` event and only
   * holds events of its own transaction.
   */
  ghost predicate WellFormed(r: Registry)
  {
    && Coherent(r)
    && forall k :: k in r.txs ==> EntryWellFormed(k, r.txs[k])
  }

  ghost predicate EntryWellFormed(k: string, t: TxState)
  {
    && t.id == k
    && |t.logs| >= 1
    && t.logs[0].kind == TxStarted
    && forall n :: 0 <= n < |t.logs| ==> t.logs[n].id == k
  }

  /** `Map.get`. */
  function Get(r: Registry, id: string): (o: Option<TxState>)
    ensures o.Some? <==> id in r.txs
    ensures o.Some? ==> o.value == r.txs[id]
  {
    if id in r.txs then Some(r.txs[id]) else None
  }

  /**
   * `Map.set`: stores `t` under `id`; a new key goes to the end of the
   * insertion order, a known key keeps its position.
   */
  function Set(r: Registry, id: string, t: TxState): (r': Registry)
    ensures Get(r', id) == Some(t)
    ensures forall k :: k != id ==> Get(r', k) == Get(r, k)
    ensures r'.order == if id in r.txs then r.order else r.order + [id]
    ensures Coherent(r) ==> Coherent(r')
  {
    if id in r.txs then Registry(r.txs[id := t], r.order)
    else Registry(r.txs[id := t], r.order + [id])
  }

  /** The entry a `transaction_started` event founds. */
  function Founded(e: Event): (t: TxState)
    ensures e.kind == TxStarted ==> EntryWellFormed(e.id, t)
  {
    TxState(e.id, Active, e.isolationLevel.GetOr(""), [e])
  }

  /** The status after a non-started event, given the status before it. */
  function NextStatus(before: TxStatus, k: Kind): TxStatus
  {
    match k
    case TxCommitted => Committed
    case TxRollbacked => Rollbacked
    case _ => before
  }

  /**
   * The registry half of the reducer: applies one event.
   * A `transaction_started` event (re)founds the entry of its id, replacing
   * whatever was there; any other event for a known id is appended to that
   * entry's logs and a commit or rollback sets its status; any other event
   * for an unknown id changes nothing.
   */
  function Apply(r: Registry, e: Event): (r': Registry)
    // a started event founds a fresh entry
    ensures e.kind == TxStarted ==>
      Get(r', e.id) == Some(TxState(e.id, Active, e.isolationLevel.GetOr(""), [e]))
    // an event for an unknown id that is not a start is ignored
    ensures e.kind != TxStarted && e.id !in r.txs ==> r' == r
    // an event for a known id is logged in its entry and may end it
    ensures e.kind != TxStarted && e.id in r.txs ==>
      && e.id in r'.txs
      && r'.txs[e.id].id == r.txs[e.id].id
      && r'.txs[e.id].isolationLevel == r.txs[e.id].isolationLevel
      && r'.txs[e.id].logs == r.txs[e.id].logs + [e]
      && (e.kind == TxCommitted ==> r'.txs[e.id].status == Committed)
      && (e.kind == TxRollbacked ==> r'.txs[e.id].status == Rollbacked)
      && (e.kind != TxCommitted && e.kind != TxRollbacked ==>
            r'.txs[e.id].status == r.txs[e.id].status)
    // the entries of other transactions are untouched
    ensures forall k :: k != e.id ==> Get(r', k) == Get(r, k)
    // keys keep their positions; only a started event for a new id appends one
    ensures r'.order == if e.kind == TxStarted && e.id !in r.txs then r.order + [e.id] else r.order
    ensures WellFormed(r) ==> WellFormed(r')
  {
    if e.kind == TxStarted then
      Set(r, e.id, Founded(e))
    else if e.id in r.txs then
      var t := r.txs[e.id];
      Set(r, e.id, t.(logs := t.logs + [e], status := NextStatus(t.status, e.kind)))
    else
      r
  }

  /**
   * `Array.from(transactions.values())`: the entries in insertion order of
   * their ids.
   */
  function ListAll(r: Registry): (l: seq<TxState>)
    ensures forall n :: 0 <= n < |l| ==> l[n] in r.txs.Values
    ensures KeysPresent(r) ==> |l| == |r.order| && forall n :: 0 <= n < |l| ==> l[n] == r.txs[r.order[n]]
    ensures WellFormed(r) ==> forall n :: 0 <= n < |l| ==> l[n].id == r.order[n]
    decreases |r.order|
  {
    if r.order == [] then []
    else
      var rest := ListAll(Registry(r.txs, r.order[1..]));
      var k := r.order[0];
      if k in r.txs then [r.txs[k]] + rest else rest
  }

  /**
   * `Map.get` agrees with the live list: an id has an entry iff it is
   * listed, and its entry is one of the listed states.
   */
  lemma GetListed(r: Registry, id: string)
    requires WellFormed(r)
    ensures Get(r, id).Some? <==> id in r.order
    ensures Get(r, id).Some? ==> Get(r, id).value in ListAll(r)
  {
    if id in r.txs {
      var n :| 0 <= n < |r.order| && r.order[n] == id;
      assert ListAll(r)[n] == r.txs[id];
    }
  }
}
