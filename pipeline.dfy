/**
 * How the channel lambda's messages fare in the item lambda. The channel
 * lambda stores an item's guid under `itemGuid`, while the item lambda
 * reads `guid`; no parsed item has a `guid` key, so every queued item is
 * published as an event and then raises before its ledger row is written.
 */
module Pipeline {
  import opened Wrappers
  import opened Feed
  import opened Rss
  import opened RssProps
  import opened Queues
  import opened ProcessChannel
  import opened ChannelProps
  import ProcessItem

  /** No item the channel lambda selects for sending has a `guid` key. */
  lemma NewItemsLackGuid(source: string, env: Env, channel: Props, news: seq<Props>)
    requires Diff(source, env) == Some((channel, news))
    ensures forall it :: it in news ==> "guid" !in it
  {
    var root := env.fetch(source).value;
    var p := ParseRssSpec(root, env.lib).value;
    DiffIsNewItems(source, env, root, p);
    ParseRssItems(root, env.lib, p);
    forall it | it in news
      ensures "guid" !in it
    {
      var k :| 0 <= k < |p.items| && p.items[k] == it;
      ItemKeysKnown(ItemElements(root)[k].children, env.lib, it);
    }
  }

  /** Hence every message a channel record sends lacks it as well. */
  lemma SentItemsLackGuid(record: ChannelRecord, env: Env)
    ensures forall m :: m in Attempts(RecordEffects(record, env)) ==> "guid" !in m.body.item
  {
    match Diff(record.body, env)
    case None =>
      RecordAbandonedEffects(record, env);
    case Some((channel, news)) =>
      RecordSends(record, env, channel, news);
      NewItemsLackGuid(record.body, env, channel, news);
      forall m | m in Attempts(RecordEffects(record, env))
        ensures "guid" !in m.body.item
      {
        var k :| 0 <= k < |news| && Attempts(RecordEffects(record, env))[k] == m;
        assert news[k] in news;
      }
  }

  /** The item record for a message sent by the channel lambda. */
  function Delivered(m: ItemMessage, receipt: string): ProcessItem.ItemRecord
  {
    ProcessItem.ItemRecord(Some(m.body), receipt)
  }

  /** A batch of the item lambda made of such records never writes the
      ledger, and raises on its first record. */
  lemma {:induction false} LedgerNeverWritten(records: seq<ProcessItem.ItemRecord>, ledger: set<ProcessItem.LedgerRow>, ienv: ProcessItem.ItemEnv)
    requires forall r :: r in records ==> r.body.Some? && "guid" !in r.body.value.item
    ensures ProcessItem.HandlerRun(records, ledger, ienv).ledger == ledger
    ensures records != [] ==> ProcessItem.HandlerRun(records, ledger, ienv).raised
    ensures records != [] ==>
              ProcessItem.HandlerRun(records, ledger, ienv).effects ==
              if ienv.eventFails(ProcessItem.EventOf(records[0].body.value)) then [] else [ProcessItem.PutEvent(ProcessItem.EventOf(records[0].body.value))]
  {
    if records != [] {
      assert records[0] in records;
      assert ProcessItem.GuidOf(records[0].body.value.item).None?;
    }
  }

  /** The item lambda's batch for the messages `sent`, delivered with `receipts`. */
  function Deliveries(sent: seq<ItemMessage>, receipts: seq<string>): (batch: seq<ProcessItem.ItemRecord>)
    requires |receipts| == |sent|
    ensures |batch| == |sent|
    ensures forall k :: 0 <= k < |sent| ==> batch[k] == Delivered(sent[k], receipts[k])
  {
    if sent == [] then []
    else Deliveries(sent[..|sent| - 1], receipts[..|receipts| - 1]) + [Delivered(sent[|sent| - 1], receipts[|receipts| - 1])]
  }

  /** A batch carries exactly the items of the messages it delivers. */
  lemma DeliveriesLackGuid(sent: seq<ItemMessage>, receipts: seq<string>)
    requires |receipts| == |sent|
    requires forall m :: m in sent ==> "guid" !in m.body.item
    ensures forall r :: r in Deliveries(sent, receipts) ==> r.body.Some? && "guid" !in r.body.value.item
  {
    var batch := Deliveries(sent, receipts);
    forall r | r in batch
      ensures r.body.Some? && "guid" !in r.body.value.item
    {
      var k :| 0 <= k < |batch| && batch[k] == r;
      assert sent[k] in sent;
    }
  }

  /** End to end: whatever a channel record sends, the item lambda never
      records it, so the ledger the channel lambda reads stays as it was. */
  lemma ChannelMessagesNeverRecorded(record: ChannelRecord, env: Env, receipts: seq<string>,
                                     ledger: set<ProcessItem.LedgerRow>, ienv: ProcessItem.ItemEnv)
    requires |receipts| == |Attempts(RecordEffects(record, env))|
    ensures ProcessItem.HandlerRun(Deliveries(Attempts(RecordEffects(record, env)), receipts), ledger, ienv).ledger == ledger
  {
    var sent := Attempts(RecordEffects(record, env));
    SentItemsLackGuid(record, env);
    DeliveriesLackGuid(sent, receipts);
    LedgerNeverWritten(Deliveries(sent, receipts), ledger, ienv);
  }
}
