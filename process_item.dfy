/**
 * The item lambda (`lambdas/process-item/index.py`): for every queued item
 * it publishes a "New RSS Item" event, records the item in the ledger
 * table, and deletes the queue message. Nothing is caught: the first call
 * that raises ends the invocation, leaving the rest of the batch and the
 * raising record's message on the queue.
 */
module ProcessItem {
  import opened Wrappers
  import opened Feed
  import opened Queues

  /** The event's `DetailType`. */
  const DetailType := "New RSS Item"

  /** The entry given to `put_events`; its `Detail` is `{"item", "channel"}`. */
  datatype Event = Event(source: string, detailType: string, item: Props, channel: Props)

  /** A ledger row: the `source` and `guid` key of the processed-items table. */
  type LedgerRow = (string, string)

  /** One record of the item queue; `body` is `None` when `json.loads` or
      one of the lookups of `source`, `channel` and `item` raises. */
  datatype ItemRecord = ItemRecord(body: Option<ItemBody>, receipt: string)

  /** The calls that completed, in order. */
  datatype ItemEffect =
    | PutEvent(event: Event)
    | PutRow(row: LedgerRow)
    | DeleteItemMessage(receipt: string)

  /** Which calls raise. */
  datatype ItemEnv = ItemEnv(eventFails: Event -> bool, putFails: LedgerRow -> bool, deleteFails: string -> bool)

  /** `body["item"]["guid"]` as a DynamoDB string: `None` when the key is
      missing or its value is not a string, both of which raise. */
  function GuidOf(item: Props): (r: Option<string>)
    ensures r.Some? <==> "guid" in item && item["guid"].Text? && item["guid"].text.Some?
    ensures r.Some? ==> item["guid"] == Text(Some(r.value))
  {
    if "guid" in item then
      match item["guid"]
      case Text(Some(s)) => Some(s)
      case _ => None
    else None
  }

  function EventOf(body: ItemBody): Event
  {
    Event(body.source, DetailType, body.item, body.channel)
  }

  /** The effects of one record, the ledger after it, and whether it raised. */
  datatype ItemRun = ItemRun(effects: seq<ItemEffect>, ledger: set<LedgerRow>, raised: bool)

  function RecordRun(record: ItemRecord, ledger: set<LedgerRow>, env: ItemEnv): ItemRun
  {
    match record.body
    case None => ItemRun([], ledger, true)
    case Some(body) =>
      var event := EventOf(body);
      if env.eventFails(event) then ItemRun([], ledger, true)
      else match GuidOf(body.item)
        case None => ItemRun([PutEvent(event)], ledger, true)
        case Some(guid) =>
          var row := (body.source, guid);
          if env.putFails(row) then ItemRun([PutEvent(event)], ledger, true)
          else if env.deleteFails(record.receipt) then ItemRun([PutEvent(event), PutRow(row)], ledger + {row}, true)
          else ItemRun([PutEvent(event), PutRow(row), DeleteItemMessage(record.receipt)], ledger + {row}, false)
  }

  /** The handler over `records`: records in order, until one raises. */
  function HandlerRun(records: seq<ItemRecord>, ledger: set<LedgerRow>, env: ItemEnv): ItemRun
    decreases |records|
  {
    if records == [] then ItemRun([], ledger, false)
    else
      var here := RecordRun(records[0], ledger, env);
      if here.raised then here
      else
        var rest := HandlerRun(records[1..], here.ledger, env);
        ItemRun(here.effects + rest.effects, rest.ledger, rest.raised)
  }

  /** The item lambda's `handler`, with the ledger table as `ledger`. */
  method Handler(records: seq<ItemRecord>, ledger: set<LedgerRow>, env: ItemEnv)
    returns (effects: seq<ItemEffect>, ledger': set<LedgerRow>, raised: bool)
    ensures ItemRun(effects, ledger', raised) == HandlerRun(records, ledger, env)
  {
    effects := [];
    ledger' := ledger;
    raised := false;
    var i := 0;
    while i < |records|
      invariant 0 <= i <= |records|
      invariant HandlerRun(records, ledger, env) ==
                var rest := HandlerRun(records[i..], ledger', env);
                ItemRun(effects + rest.effects, rest.ledger, rest.raised)
    {
      assert records[i..][0] == records[i] && records[i..][1..] == records[i + 1..];
      var recordEffects, recordRaised;
      recordEffects, ledger', recordRaised := ProcessRecord(records[i], ledger', env);
      effects := effects + recordEffects;
      if recordRaised {
        raised := true;
        return;
      }
      i := i + 1;
    }
  }

  /** The body of the handler's loop for one record. */
  method ProcessRecord(record: ItemRecord, ledger: set<LedgerRow>, env: ItemEnv)
    returns (effects: seq<ItemEffect>, ledger': set<LedgerRow>, raised: bool)
    ensures ItemRun(effects, ledger', raised) == RecordRun(record, ledger, env)
  {
    effects, ledger', raised := [], ledger, true;
    if record.body.None? {
      return;
    }
    var body := record.body.value;
    var entry := EventOf(body);
    if env.eventFails(entry) {
      return;
    }
    effects := effects + [PutEvent(entry)];
    var guid := GuidOf(body.item);
    if guid.None? {
      return;
    }
    var row := (body.source, guid.value);
    if env.putFails(row) {
      return;
    }
    effects := effects + [PutRow(row)];
    ledger' := ledger' + {row};
    if env.deleteFails(record.receipt) {
      return;
    }
    effects := effects + [DeleteItemMessage(record.receipt)];
    raised := false;
  }
}
