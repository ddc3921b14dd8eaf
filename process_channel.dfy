/**
 * The channel lambda (`lambdas/process-channel/index.py`): for every queued
 * source it fetches and parses the feed, reads the guids the ledger already
 * holds for that source, and queues one message per item whose guid is new.
 * The queue message is deleted whatever happens to the record.
 */
module ProcessChannel {
  import opened Wrappers
  import opened Feed
  import opened Rss
  import opened Paging
  import opened Queues

  /** The `guid` values of the ledger rows of one source, read page by page
      from the store's successive `responses`; `raised` when a query raises. */
  method ListGuids(responses: seq<Page<string>>) returns (guids: set<string>, starts: seq<Option<Key>>, raised: bool)
    ensures raised == ReadRaises(responses)
    ensures !raised ==> guids == set g | g in Read(responses)
    ensures starts == StartKeys(responses[..Served(responses)])
  {
    guids := {};
    starts := [];
    var nextKey := Start;
    var i := 0;
    while nextKey != Done
      invariant 0 <= i <= |responses|
      invariant CursorAt(responses, i, nextKey)
      invariant guids == set g | g in Taken(responses[..i])
      invariant starts == StartKeys(responses[..i])
      decreases |responses| - i
    {
      if i == |responses| {
        ServedRaises(responses, nextKey);
        raised := true;
        return;
      }
      var start := StartOf(nextKey);
      var next := if Continues(responses[i]) then After(responses[i].lastKey.value) else Done;
      CursorStep(responses, i, nextKey, next);
      starts := starts + [start];
      var response := responses[i];
      assert responses[..i + 1][..i] == responses[..i];
      if response.count > 0 {
        guids := guids + set g | g in response.items;
      }
      nextKey := next;
      i := i + 1;
    }
    ServedStops(responses, i);
    raised := false;
  }

  /** Raised by `item["itemGuid"]` on an item without a guid. */
  datatype MissingGuid = MissingGuid

  /** Whether the set `guids` holds an item's guid value; a `None` guid
      never compares equal to a stored string. */
  predicate GuidStored(guid: Value, guids: set<string>)
  {
    guid.Text? && guid.text.Some? && guid.text.value in guids
  }

  /** `xs` is an order-preserving subsequence of `ys`. */
  predicate IsSubsequence<T(==)>(xs: seq<T>, ys: seq<T>)
    decreases |ys|
  {
    if xs == [] then true
    else if ys == [] then false
    else if xs[0] == ys[0] then IsSubsequence(xs[1..], ys[1..])
    else IsSubsequence(xs, ys[1..])
  }

  /** `[item for item in items if item["itemGuid"] not in guids]`. */
  function NewItems(items: seq<Props>, guids: set<string>): (r: Result<seq<Props>, MissingGuid>)
    ensures r.Failure? <==> exists it :: it in items && "itemGuid" !in it
    ensures r.Success? ==> IsSubsequence(r.value, items)
    ensures r.Success? ==> forall it :: it in r.value ==> it in items
    ensures r.Success? ==> forall it :: it in r.value ==> "itemGuid" in it && !GuidStored(it["itemGuid"], guids)
    ensures r.Success? ==> forall it :: it in items ==> "itemGuid" in it && (!GuidStored(it["itemGuid"], guids) ==> it in r.value)
    ensures r.Success? ==> forall it :: multiset(r.value)[it] == if Kept(it, guids) then multiset(items)[it] else 0
  {
    if items == [] then Success([])
    else if "itemGuid" !in items[0] then Failure(MissingGuid)
    else match NewItems(items[1..], guids)
      case Failure(err) =>
        assert exists it :: it in items[1..] && "itemGuid" !in it;
        Failure(err)
      case Success(rest) =>
        assert forall it :: it in items <==> it == items[0] || it in items[1..];
        KeptCount(items, rest, guids);
        if GuidStored(items[0]["itemGuid"], guids) then
          SubsequenceSkip(rest, items);
          Success(rest)
        else
          Success([items[0]] + rest)
  }

  /** An item the filter keeps: it has a guid and the guid is not stored. */
  predicate Kept(it: Props, guids: set<string>)
  {
    "itemGuid" in it && !GuidStored(it["itemGuid"], guids)
  }

  /** One step of the filter keeps the count of every kept item and drops
      every other one. */
  lemma KeptCount(items: seq<Props>, rest: seq<Props>, guids: set<string>)
    requires items != []
    requires forall it :: multiset(rest)[it] == if Kept(it, guids) then multiset(items[1..])[it] else 0
    ensures forall it :: multiset(if Kept(items[0], guids) then [items[0]] + rest else rest)[it] ==
                         if Kept(it, guids) then multiset(items)[it] else 0
  {
    assert items == [items[0]] + items[1..];
  }

  lemma SubsequenceSkip<T>(xs: seq<T>, ys: seq<T>)
    requires ys != [] && IsSubsequence(xs, ys[1..])
    ensures IsSubsequence(xs, ys)
    decreases |ys|
  {
    if xs != [] && xs[0] == ys[0] && |ys| > 1 {
      SubsequenceTail(xs, ys[1..]);
      SubsequenceSkip(xs[1..], ys[1..]);
    }
  }

  lemma SubsequenceTail<T>(xs: seq<T>, ys: seq<T>)
    requires xs != [] && IsSubsequence(xs, ys)
    ensures IsSubsequence(xs[1..], ys[1..])
    decreases |ys|
  {
    if xs[0] != ys[0] {
      SubsequenceTail(xs, ys[1..]);
      SubsequenceSkip(xs[1..], ys[1..]);
    }
  }

  /** What `"{}".format(guid)` writes for an item's guid value. */
  function GuidString(guid: Value): string
  {
    match guid
    case Text(Some(s)) => s
    case Text(None) => "None"
    case _ => ""
  }

  /** The world the channel lambda talks to, reduced to what it observes. */
  datatype Env = Env(
    /** `urlopen(url).read().decode("utf-8")` parsed by `ET.fromstring`; `None` where any of them raises. */
    fetch: string -> Option<Element>,
    lib: Lib,
    /** The ledger's answers to the successive paged queries for one source. */
    ledger: string -> seq<Page<string>>,
    /** `hashlib.md5(s.encode("utf-8")).hexdigest()`. */
    md5: string -> string,
    /** Whether `send_message` raises for a message. */
    sendFails: ItemMessage -> bool,
    /** Whether `delete_message` raises for a receipt handle. */
    deleteFails: string -> bool)

  /** One SQS record of the channel queue. */
  datatype ChannelRecord = ChannelRecord(body: string, receipt: string)

  /** The calls the handler makes on the queues, in order. */
  datatype ChannelEffect =
    | SendItem(message: ItemMessage, delivered: bool)
    | DeleteChannelMessage(receipt: string)

  /** The message sent for a new item: both SQS keys are the hash of `source + guid`. */
  function MessageFor(source: string, channel: Props, item: Props, env: Env): ItemMessage
    requires "itemGuid" in item
  {
    var hash := env.md5(source + GuidString(item["itemGuid"]));
    ItemMessage(ItemBody(source, channel, item), hash, hash)
  }

  /** One send attempt per new item, in order, whatever the outcome of the others. */
  function SendsFor(source: string, channel: Props, news: seq<Props>, env: Env): (r: seq<ChannelEffect>)
    requires forall it :: it in news ==> "itemGuid" in it
    ensures |r| == |news|
  {
    if news == [] then []
    else
      var m := MessageFor(source, channel, news[|news| - 1], env);
      SendsFor(source, channel, news[..|news| - 1], env) + [SendItem(m, !env.sendFails(m))]
  }

  /** The channel properties and new items of a record whose body is
      `source`, or `None` when fetch, parse, ledger read or filter raises. */
  function Diff(source: string, env: Env): (r: Option<(Props, seq<Props>)>)
    ensures r.Some? ==> forall it :: it in r.value.1 ==> "itemGuid" in it
  {
    match env.fetch(source)
    case None => None
    case Some(root) =>
      match ParseRssSpec(root, env.lib)
      case Failure(_) => None
      case Success(p) =>
        var responses := env.ledger(source);
        if ReadRaises(responses) then None
        else
          match NewItems(p.items, set g | g in Read(responses))
          case Failure(_) => None
          case Success(news) => Some((p.channel, news))
  }

  /** The effects of one record: the sends, then the delete in `finally`. */
  function RecordEffects(record: ChannelRecord, env: Env): seq<ChannelEffect>
  {
    (match Diff(record.body, env)
     case None => []
     case Some((channel, news)) => SendsFor(record.body, channel, news, env))
    + [DeleteChannelMessage(record.receipt)]
  }

  /** The effects of a handler invocation, and whether it raised. */
  datatype Run = Run(effects: seq<ChannelEffect>, raised: bool)

  /** The handler over `records`: a failing `delete_message` propagates out
      of `finally` and ends the invocation. */
  function HandlerRun(records: seq<ChannelRecord>, env: Env): Run
  {
    if records == [] then Run([], false)
    else
      var here := RecordEffects(records[0], env);
      if env.deleteFails(records[0].receipt) then Run(here, true)
      else
        var rest := HandlerRun(records[1..], env);
        Run(here + rest.effects, rest.raised)
  }

  /** The channel lambda's `handler`. */
  method Handler(records: seq<ChannelRecord>, env: Env) returns (effects: seq<ChannelEffect>, raised: bool)
    ensures Run(effects, raised) == HandlerRun(records, env)
  {
    effects := [];
    raised := false;
    var i := 0;
    while i < |records|
      invariant 0 <= i <= |records|
      invariant HandlerRun(records, env) ==
                Run(effects + HandlerRun(records[i..], env).effects, HandlerRun(records[i..], env).raised)
    {
      var record := records[i];
      assert records[i..][0] == record && records[i..][1..] == records[i + 1..];
      var recordEffects := ProcessRecord(record, env);
      effects := effects + recordEffects;
      if env.deleteFails(record.receipt) {
        raised := true;
        return;
      }
      i := i + 1;
    }
  }

  /** The body of the handler's loop for one record: the `try` block's
      sends, then the delete of its `finally` block. */
  method ProcessRecord(record: ChannelRecord, env: Env) returns (effects: seq<ChannelEffect>)
    ensures effects == RecordEffects(record, env)
  {
    var sends := TrySend(record.body, env);
    effects := sends + [DeleteChannelMessage(record.receipt)];
  }

  /** The `try` block for one record: fetch, parse, diff and send. */
  method TrySend(source: string, env: Env) returns (sends: seq<ChannelEffect>)
    ensures sends == match Diff(source, env)
                     case None => []
                     case Some((channel, news)) => SendsFor(source, channel, news, env)
  {
    sends := [];
    var document := env.fetch(source);
    if document.None? {
      return;
    }
    var parsed := ParseRss(document.value, env.lib);
    if parsed.Failure? {
      return;
    }
    var guids, _, raised := ListGuids(env.ledger(source));
    if raised {
      return;
    }
    var newItems := NewItems(parsed.value.items, guids);
    if newItems.Failure? {
      return;
    }
    sends := SendNewItems(source, parsed.value.channel, newItems.value, env);
  }

  /** The inner `for` loop: one `send_message` per new item, each in its own `try`. */
  method SendNewItems(source: string, channel: Props, news: seq<Props>, env: Env) returns (sends: seq<ChannelEffect>)
    requires forall it :: it in news ==> "itemGuid" in it
    ensures sends == SendsFor(source, channel, news, env)
  {
    sends := [];
    var j := 0;
    while j < |news|
      invariant 0 <= j <= |news|
      invariant sends == SendsFor(source, channel, news[..j], env)
    {
      var item := news[j];
      assert news[..j + 1] == news[..j] + [item];
      var hash := env.md5(source + GuidString(item["itemGuid"]));
      var message := ItemMessage(ItemBody(source, channel, item), hash, hash);
      var failed := env.sendFails(message);
      sends := sends + [SendItem(message, !failed)];
      j := j + 1;
    }
    assert news[..j] == news;
  }
}
