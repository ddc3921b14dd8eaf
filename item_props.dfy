/**
 * What the item lambda promises, proved about `ProcessItem.HandlerRun`: a
 * ledger row is written only right after the event for the same item, a
 * message is deleted only right after its row, the ledger changes by
 * exactly the rows written, and a re-delivered item emits its event again
 * without changing the ledger.
 */
module ItemProps {
  import opened Wrappers
  import opened Feed
  import opened Queues
  import opened ProcessItem

  /** The event is the one for the item this row records. */
  predicate RowOfEvent(event: Event, row: LedgerRow)
  {
    event.source == row.0 && GuidOf(event.item) == Some(row.1)
  }

  /** Every row follows the event of its item and every delete follows a row. */
  predicate EventsFirst(effects: seq<ItemEffect>)
  {
    && (forall j :: 0 <= j < |effects| && effects[j].PutRow? ==>
          0 < j && effects[j - 1].PutEvent? && RowOfEvent(effects[j - 1].event, effects[j].row))
    && (forall j :: 0 <= j < |effects| && effects[j].DeleteItemMessage? ==> 0 < j && effects[j - 1].PutRow?)
  }

  /** The rows a trace writes. */
  function RowsOf(effects: seq<ItemEffect>): set<LedgerRow>
  {
    set j | 0 <= j < |effects| && effects[j].PutRow? :: effects[j].row
  }

  /** One record's calls, step by step: the event for its body, the row
      keyed by its source and guid, the delete of its message; each step is
      made only when the ones before it returned, and the record raises
      exactly when it stops short of the delete. */
  lemma RecordSteps(record: ItemRecord, ledger: set<LedgerRow>, env: ItemEnv)
    ensures var run := RecordRun(record, ledger, env);
            && |run.effects| <= 3
            && (run.raised <==> |run.effects| < 3)
            && (record.body.None? ==> run.effects == [])
            && (record.body.Some? ==>
                  var body := record.body.value;
                  var event := Event(body.source, "New RSS Item", body.item, body.channel);
                  && (run.effects == [] <==> env.eventFails(event))
                  && (|run.effects| >= 1 ==> run.effects[0] == PutEvent(event))
                  && (|run.effects| >= 2 <==>
                        !env.eventFails(event) && GuidOf(body.item).Some? &&
                        !env.putFails((body.source, GuidOf(body.item).value)))
                  && (|run.effects| >= 2 ==> run.effects[1] == PutRow((body.source, GuidOf(body.item).value)))
                  && (|run.effects| == 3 <==> |run.effects| >= 2 && !env.deleteFails(record.receipt))
                  && (|run.effects| == 3 ==> run.effects[2] == DeleteItemMessage(record.receipt)))
  {
  }

  lemma RecordOrdered(record: ItemRecord, ledger: set<LedgerRow>, env: ItemEnv)
    ensures EventsFirst(RecordRun(record, ledger, env).effects)
    ensures RecordRun(record, ledger, env).effects != [] ==> RecordRun(record, ledger, env).effects[0].PutEvent?
    ensures RecordRun(record, ledger, env).ledger == ledger + RowsOf(RecordRun(record, ledger, env).effects)
  {
    var effects := RecordRun(record, ledger, env).effects;
    if |effects| >= 2 {
      assert RowsOf(effects) == {effects[1].row};
    } else {
      assert RowsOf(effects) == {};
    }
  }

  lemma OrderedAppend(a: seq<ItemEffect>, b: seq<ItemEffect>)
    requires EventsFirst(a) && EventsFirst(b)
    requires b != [] ==> b[0].PutEvent?
    ensures EventsFirst(a + b)
    ensures RowsOf(a + b) == RowsOf(a) + RowsOf(b)
  {
    var ab := a + b;
    forall j | 0 <= j < |ab| && ab[j].PutRow?
      ensures 0 < j && ab[j - 1].PutEvent? && RowOfEvent(ab[j - 1].event, ab[j].row)
    {
      if j >= |a| {
        assert ab[j] == b[j - |a|];
        assert ab[j - 1] == b[j - |a| - 1];
      }
    }
    forall j | 0 <= j < |ab| && ab[j].DeleteItemMessage?
      ensures 0 < j && ab[j - 1].PutRow?
    {
      if j >= |a| {
        assert ab[j] == b[j - |a|];
        assert ab[j - 1] == b[j - |a| - 1];
      }
    }
    forall x | x in RowsOf(ab)
      ensures x in RowsOf(a) + RowsOf(b)
    {
      var j :| 0 <= j < |ab| && ab[j].PutRow? && ab[j].row == x;
      if j >= |a| {
        assert b[j - |a|] == ab[j];
      }
    }
    forall x | x in RowsOf(a)
      ensures x in RowsOf(ab)
    {
      var j :| 0 <= j < |a| && a[j].PutRow? && a[j].row == x;
      assert ab[j] == a[j];
    }
    forall x | x in RowsOf(b)
      ensures x in RowsOf(ab)
    {
      var j :| 0 <= j < |b| && b[j].PutRow? && b[j].row == x;
      assert ab[j + |a|] == b[j];
    }
  }

  /** Over a whole invocation: events come first, the ledger grows by exactly
      the rows written, and the effects of a run that does not raise begin
      with an event unless there were no records. */
  lemma {:induction false} HandlerOrdered(records: seq<ItemRecord>, ledger: set<LedgerRow>, env: ItemEnv)
    ensures EventsFirst(HandlerRun(records, ledger, env).effects)
    ensures HandlerRun(records, ledger, env).effects != [] ==> HandlerRun(records, ledger, env).effects[0].PutEvent?
    ensures HandlerRun(records, ledger, env).ledger == ledger + RowsOf(HandlerRun(records, ledger, env).effects)
    decreases |records|
  {
    if records != [] {
      var here := RecordRun(records[0], ledger, env);
      RecordOrdered(records[0], ledger, env);
      if !here.raised {
        var rest := HandlerRun(records[1..], here.ledger, env);
        HandlerOrdered(records[1..], here.ledger, env);
        OrderedAppend(here.effects, rest.effects);
        assert here.effects != [];
        assert (here.effects + rest.effects)[0] == here.effects[0];
      }
    }
  }

  /** An item without a string `guid` raises right after its event is
      published: no row, no delete, and the rest of the batch is left. */
  lemma MissingGuidStops(records: seq<ItemRecord>, ledger: set<LedgerRow>, env: ItemEnv, body: ItemBody)
    requires records != [] && records[0].body == Some(body)
    requires !env.eventFails(EventOf(body))
    requires "guid" !in body.item
    ensures HandlerRun(records, ledger, env) == ItemRun([PutEvent(EventOf(body))], ledger, true)
  {
    assert GuidOf(body.item).None?;
  }

  /** Processing a record again once it has gone through leaves the ledger
      as it was, whatever fails on the second run: the row write is an upsert.
      If the second event write goes through, it publishes the same event
      again. Under the same outcomes, the second run repeats the first. */
  lemma RedeliveryRepublishes(record: ItemRecord, ledger: set<LedgerRow>, env: ItemEnv, env2: ItemEnv)
    requires !RecordRun(record, ledger, env).raised
    ensures record.body.Some?
    ensures var first := RecordRun(record, ledger, env);
            var again := RecordRun(record, first.ledger, env2);
            var event := PutEvent(EventOf(record.body.value));
            && again.ledger == first.ledger
            && first.effects[0] == event
            && (!env2.eventFails(EventOf(record.body.value)) ==> again.effects != [] && again.effects[0] == event)
    ensures env2 == env ==>
              var first := RecordRun(record, ledger, env);
              var again := RecordRun(record, first.ledger, env);
              again.effects == first.effects && !again.raised
  {
  }

  /** When the first `k` records go through and record `k` raises, the run
      is the run over the first `k + 1` records: nothing after record `k` is
      processed, and the handler raises. */
  lemma {:induction false} StopsAtFirstRaise(records: seq<ItemRecord>, ledger: set<LedgerRow>, env: ItemEnv, k: nat)
    requires k < |records|
    requires !HandlerRun(records[..k], ledger, env).raised
    requires RecordRun(records[k], HandlerRun(records[..k], ledger, env).ledger, env).raised
    ensures HandlerRun(records, ledger, env) == HandlerRun(records[..k + 1], ledger, env)
    ensures HandlerRun(records, ledger, env).raised
    decreases k
  {
    var here := RecordRun(records[0], ledger, env);
    assert records[..k + 1][0] == records[0];
    if k == 0 {
      assert HandlerRun(records[..k], ledger, env).ledger == ledger;
    } else {
      assert records[..k][0] == records[0];
      assert !here.raised;
      assert records[..k][1..] == records[1..][..k - 1];
      assert records[..k + 1][1..] == records[1..][..k];
      assert records[1..][k - 1] == records[k];
      StopsAtFirstRaise(records[1..], here.ledger, env, k - 1);
    }
  }

  /** The handler completes exactly when no record raises; then every record
      has published, recorded and deleted. */
  lemma {:induction false} CompleteRun(records: seq<ItemRecord>, ledger: set<LedgerRow>, env: ItemEnv)
    ensures !HandlerRun(records, ledger, env).raised ==> |HandlerRun(records, ledger, env).effects| == 3 * |records|
    ensures !HandlerRun(records, ledger, env).raised ==>
              forall k :: 0 <= k < |records| ==>
                HandlerRun(records, ledger, env).effects[3 * k + 2] == DeleteItemMessage(records[k].receipt)
    decreases |records|
  {
    if records != [] {
      var here := RecordRun(records[0], ledger, env);
      if !here.raised {
        var rest := HandlerRun(records[1..], here.ledger, env);
        CompleteRun(records[1..], here.ledger, env);
        var all := here.effects + rest.effects;
        if !rest.raised {
          forall k | 0 <= k < |records|
            ensures all[3 * k + 2] == DeleteItemMessage(records[k].receipt)
          {
            if k > 0 {
              assert all[3 * k + 2] == rest.effects[3 * (k - 1) + 2];
              assert records[k] == records[1..][k - 1];
            }
          }
        }
      }
    }
  }
}
