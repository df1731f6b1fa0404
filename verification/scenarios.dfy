/**
 * Worked event streams: the reducer's behaviour on concrete sequences of
 * events like those the backend's dirty-read scenario emits.
 */
module Scenarios {
  import opened Wrappers
  import opened Events
  import opened Registry
  import opened Reconciler

  /** An event without query, result or lock information. */
  function Plain(id: string, kind: WireKind, timestamp: int): Event
  {
    Event(id, kind, None, None, None, timestamp, None)
  }

  /** Three events are three steps. */
  lemma RunThree(a: Event, b: Event, c: Event)
    ensures Run(Initial, [a, b, c]) == Step(Step(Step(Initial, a).state, b).state, c).state
  {
    RunSnoc(Initial, [], a);
    assert [] + [a] == [a];
    RunSnoc(Initial, [a], b);
    assert [a] + [b] == [a, b];
    RunSnoc(Initial, [a, b], c);
    assert [a, b] + [c] == [a, b, c];
  }

  /** A registry with a single listed entry lists just that entry. */
  lemma ListOne(r: Registry, x: string)
    requires r.order == [x] && x in r.txs
    ensures ListAll(r) == [r.txs[x]]
  {
  }

  /**
   * Start, an UPDATE query and a commit of one transaction: one committed
   * entry holding all three events, the same three events in the flat log,
   * and one refresh signal, raised by the query.
   */
  lemma CommittedUpdate()
    ensures
      var start := Event("T1", TxStarted, None, None, Some("READ-COMMITTED"), 1, None);
      var update := Event("T1", QueryExecuted, Some(UpdateKeyword + " users SET balance=balance-500 WHERE id=1"),
                          None, None, 2, None);
      var commit := Event("T1", TxCommitted, None, None, None, 3, None);
      var es := [start, update, commit];
      var r := Run(Initial, es);
      && r.log == es
      && ListAll(r.registry) == [TxState("T1", Committed, "READ-COMMITTED", es)]
      && Signals(es) == [false, true, false]
  {
    var query := UpdateKeyword + " users SET balance=balance-500 WHERE id=1";
    var start := Event("T1", TxStarted, None, None, Some("READ-COMMITTED"), 1, None);
    var update := Event("T1", QueryExecuted, Some(query), None, None, 2, None);
    var commit := Event("T1", TxCommitted, None, None, None, 3, None);
    var es := [start, update, commit];
    RunThree(start, update, commit);
    var s1 := Step(Initial, start).state;
    assert start.isolationLevel.GetOr("") == "READ-COMMITTED";
    assert s1.registry.txs["T1"] == TxState("T1", Active, "READ-COMMITTED", [start]);
    var s2 := Step(s1, update).state;
    assert s2.registry.txs["T1"] == TxState("T1", Active, "READ-COMMITTED", [start, update]);
    var s3 := Step(s2, commit).state;
    assert s3.registry.txs["T1"] == TxState("T1", Committed, "READ-COMMITTED", es);
    ListOne(s3.registry, "T1");
    UpdateSignals(start, update, commit);
  }

  /** Of a start, an UPDATE query and a commit, only the query raises the refresh signal. */
  lemma UpdateSignals(start: Event, update: Event, commit: Event)
    requires start.kind == TxStarted && commit.kind == TxCommitted
    requires update.kind == QueryExecuted
    requires update.query == Some(UpdateKeyword + " users SET balance=balance-500 WHERE id=1")
    ensures Signals([start, update, commit]) == [false, true, false]
  {
    var query := update.query.value;
    assert query[..|UpdateKeyword|] == UpdateKeyword;
    assert Text.OccursAt(query, UpdateKeyword, 0);
  }

  /** A duplicated commit: the status stays committed and all three events are kept. */
  lemma DuplicateCommit()
    ensures
      var es := [Plain("T2", TxStarted, 1), Plain("T2", TxCommitted, 2), Plain("T2", TxCommitted, 3)];
      var r := Run(Initial, es);
      && |r.log| == 3
      && ListAll(r.registry) == [TxState("T2", Committed, "", es)]
  {
    var es := [Plain("T2", TxStarted, 1), Plain("T2", TxCommitted, 2), Plain("T2", TxCommitted, 3)];
    RunThree(es[0], es[1], es[2]);
    var s1 := Step(Initial, es[0]).state;
    assert s1.registry.txs["T2"] == TxState("T2", Active, "", [es[0]]);
    var s2 := Step(s1, es[1]).state;
    assert s2.registry.txs["T2"] == TxState("T2", Committed, "", [es[0], es[1]]);
    var s3 := Step(s2, es[2]).state;
    assert s3.registry.txs["T2"] == TxState("T2", Committed, "", es);
    ListOne(s3.registry, "T2");
  }

  /** A query for a transaction never started: logged, but no entry is created. */
  lemma OrphanQuery()
    ensures
      var es := [Event("T9", QueryExecuted, Some("SELECT * FROM users"), None, None, 1, None)];
      var r := Run(Initial, es);
      && |r.log| == 1
      && ListAll(r.registry) == []
  {
    var e := Event("T9", QueryExecuted, Some("SELECT * FROM users"), None, None, 1, None);
    RunSnoc(Initial, [], e);
    assert [] + [e] == [e];
  }

  /** A rollback followed by a commit leaves the transaction committed. */
  lemma RollbackThenCommit()
    ensures
      var es := [Plain("T3", TxStarted, 1), Plain("T3", TxRollbacked, 2), Plain("T3", TxCommitted, 3)];
      && "T3" in Run(Initial, es).registry.txs
      && Run(Initial, es).registry.txs["T3"].status == Committed
  {
    var es := [Plain("T3", TxStarted, 1), Plain("T3", TxRollbacked, 2), Plain("T3", TxCommitted, 3)];
    RunThree(es[0], es[1], es[2]);
  }
}
