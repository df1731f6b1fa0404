/**
 * The reconciler: the step function that folds one incoming event into the
 * (registry, flat log) pair and decides whether the cached user table must
 * be refreshed, together with the explicit clear operation.
 */
module Reconciler {
  import opened Text
  import opened Events
  import opened Registry

  /** Everything the reducer owns: the transaction registry and the flat log. */
  datatype State = State(registry: Registry, log: seq<Event>)

  /** The state at startup, and after a clear. */
  const Initial: State := State(Empty, [])

  /** The result of one step: the next state and the refresh signal. */
  datatype Outcome = Outcome(state: State, refresh: bool)

  /** The substring whose presence in a query marks it as data-mutating. */
  const UpdateKeyword: string := "UPDATE"

  /**
   * The refresh test: a `query_executed` event whose query text is present
   * and contains "UPDATE" (case-sensitive, anywhere in the text).
   */
  function RefreshRequested(e: Event): (b: bool)
    ensures b <==>
      && TypeName(e.kind) == QueryType
      && e.query.Some?
      && exists i :: OccursAt(e.query.value, UpdateKeyword, i)
  {
    e.kind == QueryExecuted && e.query.Some? && Includes(e.query.value, UpdateKeyword)
  }

  /**
   * One event through the reducer: it is appended to the flat log whatever
   * it is, applied to the registry, and may raise the refresh signal.
   */
  function Step(s: State, e: Event): (o: Outcome)
    ensures o.state.log == s.log + [e]
    ensures |o.state.log| == |s.log| + 1
    ensures o.state.registry == Apply(s.registry, e)
    ensures WellFormed(s.registry) ==> WellFormed(o.state.registry)
    ensures o.refresh <==> RefreshRequested(e)
  {
    Outcome(State(Apply(s.registry, e), s.log + [e]), RefreshRequested(e))
  }

  /** The clear action: empties the flat log and the registry together. */
  function Clear(s: State): (r: State)
    ensures r.log == []
    ensures r.registry.txs == map[] && r.registry.order == []
    ensures ListAll(r.registry) == []
    ensures WellFormed(r.registry)
  {
    Initial
  }

  /** The state after the events `es`, received in order, starting from `s`. */
  function Run(s: State, es: seq<Event>): (r: State)
    ensures r.log == s.log + es
    ensures WellFormed(s.registry) ==> WellFormed(r.registry)
    decreases |es|
  {
    if es == [] then s
    else Step(Run(s, es[..|es| - 1]), es[|es| - 1]).state
  }

  /** Receiving one more event is one more step. */
  lemma RunSnoc(s: State, es: seq<Event>, e: Event)
    ensures Run(s, es + [e]) == Step(Run(s, es), e).state
  {
    assert (es + [e])[..|es|] == es;
  }

  /** The refresh signals raised by the events `es`, one per event. */
  function Signals(es: seq<Event>): (r: seq<bool>)
    ensures |r| == |es|
    ensures forall n :: 0 <= n < |es| ==> (r[n] <==> RefreshRequested(es[n]))
    decreases |es|
  {
    if es == [] then [] else [RefreshRequested(es[0])] + Signals(es[1..])
  }

  /**
   * The signals are those the reducer raises: the `n`-th is the refresh flag
   * of the step that receives `es[n]` after the events before it.
   */
  lemma SignalsAreSteps(s: State, es: seq<Event>, n: int)
    requires 0 <= n < |es|
    ensures Signals(es)[n] == Step(Run(s, es[..n]), es[n]).refresh
  {
  }

  /**
   * An entry is created only by a `transaction_started` event and never
   * removed by any event: after `es`, `x` is registered iff it was before
   * or some event of `es` started it.
   */
  lemma {:induction false} RunRegistered(s: State, es: seq<Event>, x: string)
    ensures x in Run(s, es).registry.txs <==>
      x in s.registry.txs || exists i :: 0 <= i < |es| && StartsTx(es[i], x)
    decreases |es|
  {
    if es != [] {
      var n := |es| - 1;
      var pre := es[..n];
      RunRegistered(s, pre, x);
      assert Run(s, es) == Step(Run(s, pre), es[n]).state;
      if StartsTx(es[n], x) {
        assert x in Run(s, es).registry.txs;
      } else {
        forall i | 0 <= i < |es| && StartsTx(es[i], x)
          ensures 0 <= i < |pre| && StartsTx(pre[i], x)
        {
          assert i != n;
          assert pre[i] == es[i];
        }
        forall i | 0 <= i < |pre| && StartsTx(pre[i], x)
          ensures StartsTx(es[i], x)
        {
          assert pre[i] == es[i];
        }
      }
    }
  }

  /** Events for other transactions leave the entry of `x` (or its absence) alone. */
  lemma {:induction false} RunOtherIds(s: State, es: seq<Event>, x: string)
    requires forall n :: 0 <= n < |es| ==> es[n].id != x
    ensures Get(Run(s, es).registry, x) == Get(s.registry, x)
    decreases |es|
  {
    if es != [] {
      RunOtherIds(s, es[..|es| - 1], x);
    }
  }

  /** `i` is the position of the last `transaction_started` event for `x` in `es`. */
  ghost predicate IsLastStart(es: seq<Event>, x: string, i: int)
  {
    0 <= i < |es| && StartsTx(es[i], x) && forall j :: i < j < |es| ==> !StartsTx(es[j], x)
  }

  /** `j` is the position of the last commit or rollback for `x` in `es`. */
  ghost predicate IsLastEnd(es: seq<Event>, x: string, j: int)
  {
    0 <= j < |es| && EndsTx(es[j], x) && forall k :: j < k < |es| ==> !EndsTx(es[k], x)
  }

  /** `es[i]` is still the last start for `x` once the last event of `es`, which does not start `x`, is dropped. */
  lemma LastStartOfPrefix(es: seq<Event>, x: string, i: int)
    requires IsLastStart(es, x, i)
    requires i < |es| - 1
    ensures IsLastStart(es[..|es| - 1], x, i)
  {
    var pre := es[..|es| - 1];
    forall j | i < j < |pre|
      ensures !StartsTx(pre[j], x)
    {
      assert pre[j] == es[j];
    }
  }

  /**
   * The fold lemma, entry part. Whatever the state before, after the events
   * `es` the transaction `x` whose most recent `transaction_started` event is
   * `es[i]` is registered with that event's isolation level, and its logs
   * are exactly the events for `x` from `es[i]` on.
   */
  lemma {:induction false} RunEntry(s: State, es: seq<Event>, x: string, i: int)
    requires IsLastStart(es, x, i)
    ensures x in Run(s, es).registry.txs
    ensures Run(s, es).registry.txs[x].id == x
    ensures Run(s, es).registry.txs[x].isolationLevel == es[i].isolationLevel.GetOr("")
    ensures Run(s, es).registry.txs[x].logs == EventsOf(es[i..], x)
    decreases |es|
  {
    var n := |es| - 1;
    var pre := es[..n];
    var e := es[n];
    assert Run(s, es) == Step(Run(s, pre), e).state;
    if i == n {
      assert es[i..] == [] + [e];
      EventsOfSnoc([], e, x);
    } else {
      LastStartOfPrefix(es, x, i);
      RunEntry(s, pre, x, i);
      EventsOfSuffix(es, i, x);
    }
  }

  /**
   * The fold lemma, status part: the status of `x` is `active` iff no commit
   * or rollback for `x` follows its most recent start `es[i]`, and otherwise
   * it is that of the last such event, whatever came before it.
   */
  lemma {:induction false} RunStatus(s: State, es: seq<Event>, x: string, i: int)
    requires IsLastStart(es, x, i)
    ensures x in Run(s, es).registry.txs
    ensures Run(s, es).registry.txs[x].status == Active <==>
      forall j :: i < j < |es| ==> !EndsTx(es[j], x)
    ensures forall j :: i < j && IsLastEnd(es, x, j) ==>
      Run(s, es).registry.txs[x].status == (if es[j].kind == TxCommitted then Committed else Rollbacked)
    decreases |es|
  {
    var n := |es| - 1;
    var pre := es[..n];
    var e := es[n];
    assert es == pre + [e];
    assert Run(s, es) == Step(Run(s, pre), e).state;
    if i < n {
      LastStartOfPrefix(es, x, i);
      RunStatus(s, pre, x, i);
      var after := Run(s, es).registry.txs[x];
      if EndsTx(e, x) {
        EndedAtLast(pre, e, x, i);
        assert after.status == (if e.kind == TxCommitted then Committed else Rollbacked);
      } else {
        NotEndedAtLast(pre, e, x, i);
        assert after.status == Run(s, pre).registry.txs[x].status;
      }
    }
  }

  /** When the event appended to `pre` ends `x`, it is the last end after `i`. */
  lemma EndedAtLast(pre: seq<Event>, e: Event, x: string, i: int)
    requires 0 <= i < |pre|
    requires EndsTx(e, x)
    ensures forall j :: i < j && IsLastEnd(pre + [e], x, j) ==> j == |pre|
    ensures !forall j :: i < j < |pre + [e]| ==> !EndsTx((pre + [e])[j], x)
  {
    assert (pre + [e])[|pre|] == e;
  }

  /** When the event appended to `pre` does not end `x`, the ends after `i` are those of `pre`. */
  lemma NotEndedAtLast(pre: seq<Event>, e: Event, x: string, i: int)
    requires 0 <= i < |pre|
    requires !EndsTx(e, x)
    ensures forall j :: i < j && IsLastEnd(pre + [e], x, j) ==> IsLastEnd(pre, x, j) && pre[j] == (pre + [e])[j]
    ensures (forall j :: i < j < |pre + [e]| ==> !EndsTx((pre + [e])[j], x)) <==>
            (forall j :: i < j < |pre| ==> !EndsTx(pre[j], x))
  {
    var es := pre + [e];
    forall j | i < j && IsLastEnd(es, x, j)
      ensures IsLastEnd(pre, x, j) && pre[j] == es[j]
    {
      assert j != |pre|;
      forall k | j < k < |pre|
        ensures !EndsTx(pre[k], x)
      {
        assert pre[k] == es[k];
      }
    }
  }

  /** Some start of `x` in `es` precedes every start of `y`. */
  ghost predicate StartedBefore(es: seq<Event>, x: string, y: string)
  {
    exists i :: 0 <= i < |es| && StartsTx(es[i], x) && forall j :: 0 <= j <= i ==> !StartsTx(es[j], y)
  }

  /** Receiving more events does not undo an earlier ordering of starts. */
  lemma StartedBeforeExtend(pre: seq<Event>, e: Event, x: string, y: string)
    requires StartedBefore(pre, x, y)
    ensures StartedBefore(pre + [e], x, y)
  {
    var es := pre + [e];
    var i :| 0 <= i < |pre| && StartsTx(pre[i], x) && forall j :: 0 <= j <= i ==> !StartsTx(pre[j], y);
    assert es[i] == pre[i];
    forall j | 0 <= j <= i
      ensures !StartsTx(es[j], y)
    {
      assert es[j] == pre[j];
    }
  }

  /**
   * The live transaction list, from startup or a clear, lists exactly the
   * ids some event started, each once.
   */
  lemma {:induction false} RunListed(es: seq<Event>, x: string)
    ensures x in Run(Initial, es).registry.order <==>
      exists i :: 0 <= i < |es| && StartsTx(es[i], x)
    ensures var order := Run(Initial, es).registry.order;
      forall p, q :: 0 <= p < q < |order| ==> order[p] != order[q]
  {
    assert WellFormed(Initial.registry);
    var r := Run(Initial, es).registry;
    assert Coherent(r);
    RunRegistered(Initial, es, x);
  }

  /** A registered id was started before an id that `pre` never started. */
  lemma StartedBeforeNew(pre: seq<Event>, e: Event, x: string)
    requires x in Run(Initial, pre).registry.txs
    requires e.id !in Run(Initial, pre).registry.txs
    ensures StartedBefore(pre + [e], x, e.id)
  {
    var es := pre + [e];
    RunRegistered(Initial, pre, x);
    RunRegistered(Initial, pre, e.id);
    var i :| 0 <= i < |pre| && StartsTx(pre[i], x);
    assert es[i] == pre[i];
    forall j | 0 <= j <= i
      ensures !StartsTx(es[j], e.id)
    {
      assert es[j] == pre[j];
    }
  }

  /** A pair of ids already listed before the step keeps its order of first starts. */
  lemma OrderStepOld(pre: seq<Event>, e: Event, p: int, q: int)
    requires var order := Run(Initial, pre).registry.order;
      0 <= p < q < |order| && StartedBefore(pre, order[p], order[q])
    ensures var order := Apply(Run(Initial, pre).registry, e).order;
      q < |order| && StartedBefore(pre + [e], order[p], order[q])
  {
    var r0 := Run(Initial, pre).registry;
    var r1 := Apply(r0, e);
    assert r1.order[p] == r0.order[p] && r1.order[q] == r0.order[q];
    StartedBeforeExtend(pre, e, r0.order[p], r0.order[q]);
  }

  /** The id a step appends to the list was started after every id listed before. */
  lemma OrderStepNew(pre: seq<Event>, e: Event, p: int)
    requires 0 <= p < |Run(Initial, pre).registry.order|
    requires |Apply(Run(Initial, pre).registry, e).order| > |Run(Initial, pre).registry.order|
    ensures var r0 := Run(Initial, pre).registry;
      var order := Apply(r0, e).order;
      StartedBefore(pre + [e], order[p], order[|r0.order|])
  {
    var r0 := Run(Initial, pre).registry;
    var r1 := Apply(r0, e);
    assert r1.order == r0.order + [e.id] && r0.order[p] in r0.txs;
    StartedBeforeNew(pre, e, r0.order[p]);
  }

  /** The order of first starts is kept by one more step. */
  lemma OrderStep(pre: seq<Event>, e: Event)
    requires var order := Run(Initial, pre).registry.order;
      forall p, q :: 0 <= p < q < |order| ==> StartedBefore(pre, order[p], order[q])
    ensures var order := Apply(Run(Initial, pre).registry, e).order;
      forall p, q :: 0 <= p < q < |order| ==> StartedBefore(pre + [e], order[p], order[q])
  {
    var r0 := Run(Initial, pre).registry;
    var r1 := Apply(r0, e);
    forall p, q | 0 <= p < q < |r1.order|
      ensures StartedBefore(pre + [e], r1.order[p], r1.order[q])
    {
      if q < |r0.order| {
        OrderStepOld(pre, e, p, q);
      } else {
        OrderStepNew(pre, e, p);
      }
    }
  }

  /**
   * The live transaction list, from startup or a clear, lists ids in the
   * order of their first start: a restart of a listed id does not move it.
   */
  lemma {:induction false} RunOrder(es: seq<Event>)
    ensures var order := Run(Initial, es).registry.order;
      forall p, q :: 0 <= p < q < |order| ==> StartedBefore(es, order[p], order[q])
    decreases |es|
  {
    if es != [] {
      var n := |es| - 1;
      var pre := es[..n];
      var e := es[n];
      assert es == pre + [e];
      RunOrder(pre);
      OrderStep(pre, e);
      RunSnoc(Initial, pre, e);
    }
  }

  /**
   * An event that is not a start, for an id with no entry, changes neither
   * the registry nor the live list; it only lengthens the flat log.
   */
  lemma UnknownIdIgnored(s: State, e: Event)
    requires e.kind != TxStarted && e.id !in s.registry.txs
    ensures Step(s, e).state.registry == s.registry
    ensures Step(s, e).state.log == s.log + [e]
  {
  }

  /**
   * A second `transaction_started` for a known id replaces its entry (logs
   * restart from the new event, status back to active, isolation level from
   * the new event) while the id keeps its place in the list: the first
   * writer does not win.
   */
  lemma RestartReplaces(s: State, e: Event)
    requires e.kind == TxStarted && e.id in s.registry.txs
    ensures Step(s, e).state.registry.txs[e.id] == TxState(e.id, Active, e.isolationLevel.GetOr(""), [e])
    ensures Step(s, e).state.registry.order == s.registry.order
  {
  }

  /**
   * A commit or rollback for a known id sets its status whatever the status
   * was, so a transaction already rolled back (or committed) can change
   * status again: terminal statuses are not frozen.
   */
  lemma TerminalNotFrozen(s: State, e: Event)
    requires e.kind == TxCommitted || e.kind == TxRollbacked
    requires e.id in s.registry.txs
    ensures Step(s, e).state.registry.txs[e.id].status ==
      (if e.kind == TxCommitted then Committed else Rollbacked)
  {
  }

  /**
   * Replaying the identical commit or rollback: the second copy leaves the
   * status as the first set it, and both the flat log and the entry's logs
   * still grow by one per copy.
   */
  lemma ReplayTerminal(s: State, e: Event)
    requires e.kind == TxCommitted || e.kind == TxRollbacked
    requires e.id in s.registry.txs
    ensures var once := Step(s, e).state;
      var twice := Step(once, e).state;
      && e.id in once.registry.txs && e.id in twice.registry.txs
      && twice.registry.txs[e.id].status == once.registry.txs[e.id].status
      && twice.registry.txs[e.id].logs == s.registry.txs[e.id].logs + [e, e]
      && twice.log == s.log + [e, e]
  {
  }
}
