# rss-events, modelled in Dafny

rss-events is a small AWS pipeline of three Python lambdas that turn RSS 2.0
feeds into events:

- **list-sources** scans the sources table page by page. It queues one
  message per stored source, carrying its URL (`source`) and, optionally,
  its HTTP header overrides flattened to strings (`headers`).
- **process-channel** takes each queued record, fetches it and parses the
  feed with `parse_rss`. It reads the guids already in the ledger table with
  `list_guids`, and queues one item message per new item on a FIFO queue.
  The message's deduplication and group ids are both `md5(source + guid)`.
  The incoming message is deleted in a `finally` block, whatever happened.
- **process-item** publishes a `"New RSS Item"` event for each queued item,
  writes the ledger row `(source, guid)` and deletes the message. Nothing is
  caught, so the first failing call ends the invocation.

The model covers the three handlers and the feed parser.

- The XML element tree is a datatype (`Feed.Element`). The parser's
  dictionaries are maps of values (`Feed.Value`).
- A paged DynamoDB read is the sequence of responses the store would give to
  the successive requests (`Paging.Page`).
- The ledger is a set of `(source, guid)` pairs.
- Each handler returns whether it raised and an ordered trace of some of its
  calls:
  - list-sources: every `send_message` attempted, with whether it was
    delivered. Its `scan` requests appear only as the list of their start
    keys.
  - process-channel: every `send_message` attempted, with whether it was
    delivered, and every `delete_message` attempted, including a failing one.
    The fetch and the ledger `query` calls are not in the trace, and the
    start keys `list_guids` passes are computed but not returned by the
    handler.
  - process-item: only the calls that completed (`put_events`, `put_item`,
    `delete_message`). A call that raises leaves no entry; the trace ends
    before it.
- Which library or AWS call raises, and what it returns, is a parameter: a
  function from the call's argument to its outcome.

Every loop of the source is a Dafny `method` with a `while` loop, proved
equal to a recursive specification function. The properties below are
lemmas about those functions:

- the keys and values of the parsed dictionaries;
- category accumulation, and the last occurrence winning for other tags;
- exactly when a parse fails;
- the set-difference filter;
- the paging protocol;
- the order of the effects;
- failure isolation, and deletion exactly once.

`Pipeline` joins the stages. The channel lambda stores an item's guid under
`itemGuid`, while the item lambda reads `item["guid"]`. Take a channel message
whose body is a URL the channel lambda can fetch and parse. Every item message
it sends makes the item lambda publish its event, then raise before any ledger
row is written (`Pipeline.LedgerNeverWritten`). So the ledger that
`list_guids` reads never gains a row for those items
(`Pipeline.ChannelMessagesNeverRecorded`), and by `ChannelProps.DiffIsNewItems`
the next run over the same feed picks the same items again. A second mismatch
is kept as written as well: list-sources queues a JSON object, but
process-channel passes the raw record body to `urlopen` as the URL
(`lambdas/process-channel/index.py:141`). A fetch of such a body raises, and
then `ChannelProps.RecordAbandoned` applies: nothing is sent and the message
is still deleted. In both places the model follows the code.

Modules, in dependency order:

- `Wrappers`: `Option`, `Result`.
- `Feed`: the element tree, values and `findall` paths.
- `Rss`: the `parse_rss` specification and its methods.
- `RssProps`: lemmas about the parser.
- `Paging`: paged reads.
- `Queues`: message bodies.
- `ProcessChannel`: `list_guids`, the new-item filter and `handler`.
- `ChannelProps`: lemmas about `ProcessChannel`.
- `ListSources`: the list-sources lambda.
- `ProcessItem`: the process-item lambda.
- `ItemProps`: lemmas about `ProcessItem`.
- `Pipeline`: the stages joined.

## Model

| member | source | states |
|---|---|---|
| Rss.ParseRss | lambdas/process-channel/index.py:16-108 | The loop over `findall('./channel/')` returns exactly the result of the channel fold `ParseRssSpec`: the channel dictionary and the item list, or the first error. |
| Rss.ParseChannelElement | lambdas/process-channel/index.py:21-107 | One child of `<channel>` changes the state as `ChannelStep` says. An `<item>` is appended, a `<category>` appends its text to `channelCategories`, each of the 18 recognised tags overwrites its key, and any other tag changes nothing. |
| Rss.ParseItem | lambdas/process-channel/index.py:22-46 | The loop over an `<item>`'s sub-elements builds exactly the item fold `ItemFrom`, or fails with the first refused `pubDate`. |
| Rss.ParseImage | lambdas/process-channel/index.py:77-90 | The loop over an `<image>`'s sub-elements builds exactly `ImageFrom`, starting from an empty dictionary, or fails with the first refused `width`/`height`. |
| Rss.ParseTextInput | lambdas/process-channel/index.py:94-103 | The loop over a `<textInput>`'s sub-elements builds exactly `TextInputFrom`, starting from an empty dictionary. |
| Rss.ParseHours | lambdas/process-channel/index.py:105 | The `int(hour.text)` comprehension gives `IntsFrom`, the integers in order, or the first text `int` refuses. |
| Feed.TextsOf | lambdas/process-channel/index.py:107 | `[day.text for day in ...]`: one text per element, in order. |
| Feed.SelectCounts | lambdas/process-channel/index.py:20 | A tag selection keeps each element with that tag as many times as `es` holds it, and no other element. |
| RssProps.ChannelItems | lambdas/process-channel/index.py:20-46 | A successful parse holds exactly one item dictionary per `<item>` child, in document order, each the fold of that item's sub-elements. An item without `guid` is still appended. |
| RssProps.ParseRssItems | lambdas/process-channel/index.py:16-46 | The parser returns as many item dictionaries as `<channel>` has `<item>` children. The k-th is the fold of the k-th such element, and it has `itemGuid` exactly when that element has a `<guid>` child. |
| RssProps.ItemCategoriesAccumulate | lambdas/process-channel/index.py:24-26 | `itemCategories` ends as what it held before, followed by the texts of the `<category>` sub-elements in document order. |
| RssProps.ChannelCategoriesAccumulate | lambdas/process-channel/index.py:47-49 | `channelCategories` ends as what it held before, followed by the texts of the `<category>` children in document order. |
| RssProps.ItemLastWins | lambdas/process-channel/index.py:27-45 | For every recognised item tag other than `category`, the item holds the value of the last sub-element with that tag. With no such sub-element it keeps what it held before. |
| RssProps.ChannelLastWins | lambdas/process-channel/index.py:50-107 | For every channel key other than `channelCategories`, the channel holds the value of the last child that writes it, or keeps what it held before. So a later `<image>` or `<textInput>` replaces the sub-dictionary of an earlier one. |
| RssProps.ItemKeysExact | lambdas/process-channel/index.py:23-45 | An item's keys are the keys it started with plus the keys of the recognised tags among its sub-elements. Unrecognised tags add none. |
| RssProps.ItemKeysKnown | lambdas/process-channel/index.py:23-45 | A parsed item's keys all lie among the ten item key names. In particular it never has a `guid` key. |
| RssProps.ItemGuidIff | lambdas/process-channel/index.py:37-38 | A parsed item has `itemGuid` if and only if it has a `<guid>` sub-element. |
| RssProps.ItemKeyInjective | lambdas/process-channel/index.py:27-45 | Distinct recognised item tags write distinct keys. |
| RssProps.ItemFailsIff | lambdas/process-channel/index.py:39-40 | An item's parse fails if and only if one of its `<pubDate>` texts is absent or refused by `strptime`. |
| RssProps.ChannelFailsIff | lambdas/process-channel/index.py:20-107 | The channel fold fails if and only if one of the children it visits is bad. A bad child is an item with a bad date, a `pubDate`/`lastBuildDate` with a bad date, a non-integer `ttl`, an `<image>` with a non-integer size, or a `<skipHours>` while some hour is not an integer. |
| RssProps.ParseRssFailsIff | lambdas/process-channel/index.py:16-108 | `parse_rss` fails, with no partial result, if and only if some child of `<channel>` is bad. |
| RssProps.ChannelStepFailsIff | lambdas/process-channel/index.py:21-107 | A single child makes the step fail if and only if it is bad. |
| RssProps.ChannelStepFailure | lambdas/process-channel/index.py:21-107 | The step fails exactly for an item whose fold fails, or for a recognised non-category tag whose value fails. |
| RssProps.ChannelValueFailure | lambdas/process-channel/index.py:64-105 | A channel value fails exactly for the date tags with a bad date, `ttl` with a bad integer, `image` with a failing sub-fold, and `skipHours` with a failing hour list. |
| RssProps.ImageKeysExact | lambdas/process-channel/index.py:77-90 | The image dictionary's keys are its starting keys plus those among `url`, `title`, `link`, `width`, `height`, `description` that occur as sub-element tags. |
| RssProps.ImageFailsIff | lambdas/process-channel/index.py:85-88 | The image fold fails if and only if a `width` or `height` sub-element's text is absent or not an integer. |
| RssProps.TextInputKeysExact | lambdas/process-channel/index.py:94-103 | The text-input dictionary's keys are its starting keys plus those among `name`, `title`, `link`, `description` that occur as sub-element tags. |
| RssProps.IntsInOrder | lambdas/process-channel/index.py:105 | A successful integer list has one entry per text, in order, each the text's integer. |
| RssProps.IntsFailIff | lambdas/process-channel/index.py:105 | The integer list fails if and only if some text is absent or refused by `int`. |
| RssProps.SkipHoursInOrder | lambdas/process-channel/index.py:104-105 | `channelSkipHours` holds one integer per `hour` under every `<skipHours>` of the document, in order. The path is resolved from the root, not from the current element. |
| RssProps.SkipHoursFailsIff | lambdas/process-channel/index.py:105 | The hour list fails if and only if some `hour` text is not an integer. |
| RssProps.LastWith | lambdas/process-channel/index.py:23-45 | The last sub-element with a tag: it has that tag and no later sub-element does. `None` means no sub-element has the tag. |
| RssProps.LastWriting | lambdas/process-channel/index.py:50-107 | The last child that writes a channel key: it writes that key and no later child does. `None` means no child writes it. |
| RssProps.ChannelKeysExact | lambdas/process-channel/index.py:47-107 | The channel dictionary's keys are its starting keys plus the keys of the recognised tags among the children. Items and unrecognised tags add none. |
| RssProps.ItemsOf | lambdas/process-channel/index.py:21-46 | The item dictionaries of a list of `<item>` elements: one per element, in order. |
| Paging.Served | lambdas/process-channel/index.py:113-134 | The number of requests a paged read makes. Every response before the last one served carries a non-empty `LastEvaluatedKey`. The read stops at the first response without one, and raises when there is no such response. |
| Paging.StartKeys | lambdas/process-channel/index.py:129-130 | One start key per request: none for the first, and the previous response's `LastEvaluatedKey` for each later one. |
| Paging.TakenIff | lambdas/process-channel/index.py:132-133 | A value is read if and only if it is among the items of some page whose `Count` is not zero. |
| Paging.TakenAll | lambdas/list-sources/index.py:21-23 | When every page's `Count` is its number of items, the read is all items of all pages, in order. |
| ProcessChannel.ListGuids | lambdas/process-channel/index.py:111-135 | The `while next_key` loop raises exactly when every response continues. Otherwise it returns the union of the `guid` values of all pages with a non-zero `Count`. The start keys of its requests are none first, then each previous `LastEvaluatedKey`. |
| ProcessChannel.NewItems | lambdas/process-channel/index.py:145 | The filter raises if and only if some item lacks `itemGuid`. Otherwise it returns an order-preserving subsequence of the items. Every kept guid is not in the stored set. Every item whose guid is not stored is kept as many times as it occurs in the items, and every other item is dropped. |
| ProcessChannel.Diff | lambdas/process-channel/index.py:141-145 | A record that reaches the send loop has only items with `itemGuid`. |
| ProcessChannel.SendsFor | lambdas/process-channel/index.py:146-160 | One send attempt per new item. |
| ProcessChannel.Handler | lambdas/process-channel/index.py:138-167 | The loop over the records produces exactly the effects and the raise of `HandlerRun`. A failing delete ends the invocation. |
| ProcessChannel.ProcessRecord | lambdas/process-channel/index.py:140-167 | One record gives its sends, then the delete of its message. |
| ProcessChannel.TrySend | lambdas/process-channel/index.py:140-162 | The `try` block gives no sends when fetch, parse, `list_guids` or the filter raises, and otherwise the sends for the new items. |
| ProcessChannel.SendNewItems | lambdas/process-channel/index.py:146-160 | The inner loop gives exactly one send per new item, in order. Each send's ids are the md5 of `source + guid`. |
| ChannelProps.RecordAbandoned | lambdas/process-channel/index.py:140-167 | When fetch or parse fails, the ledger read raises, or an item lacks `itemGuid`, the record's only effect is the delete of its message. |
| ChannelProps.RecordAbandonedEffects | lambdas/process-channel/index.py:140-162 | An abandoned record sends nothing. |
| ChannelProps.DiffIsNewItems | lambdas/process-channel/index.py:141-145 | Once fetch, parse and the ledger read succeed, the record gets to the sends if and only if every item has `itemGuid`. The items it sends are then an order-preserving subsequence of the parsed items. Each item whose guid is not stored occurs in it as many times as among the parsed items, and each other item does not occur. |
| ChannelProps.RecordSends | lambdas/process-channel/index.py:146-167 | When a record gets to the sends, its k-th send carries `{source, channel, item}` for the k-th new item. Its `MessageDeduplicationId` and `MessageGroupId` are equal, both the md5 of `source + guid`. The record makes exactly one delete, of its own receipt. |
| ChannelProps.SendsShape | lambdas/process-channel/index.py:146-160 | The send loop deletes nothing, and its k-th attempt is the message for the k-th new item. |
| ChannelProps.SendsAre | lambdas/process-channel/index.py:146-160 | Every effect of the send loop is a send of the message for the corresponding item. |
| ChannelProps.SendFailuresIsolated | lambdas/process-channel/index.py:146-160 | Which sends fail does not change which messages a record attempts. A failing send does not stop the later ones. |
| ChannelProps.RecordDeletes | lambdas/process-channel/index.py:163-167 | Every record, whatever happens in its `try`, deletes its own message exactly once. |
| ChannelProps.RecordDeleteLast | lambdas/process-channel/index.py:163-167 | A record's last effect is the delete of its own message, after all of its sends. |
| ChannelProps.HandlerDeletesOnce | lambdas/process-channel/index.py:139-167 | Over a batch, the deletes made are the receipts of the records processed, each once and in order. |
| ChannelProps.HandlerRaisesIff | lambdas/process-channel/index.py:163-167 | The handler raises if and only if some record's delete fails. |
| ChannelProps.HandlerEffects | lambdas/process-channel/index.py:139-167 | The handler's effects are those of each record it processes, in record order, up to and including the first record whose delete fails. Later records have no effects. |
| ChannelProps.FirstFailingDelete | lambdas/process-channel/index.py:163-167 | The index of the first record whose delete fails, or the batch length when there is none. |
| ChannelProps.Receipts | lambdas/process-channel/index.py:166 | The receipt handles of a batch, in order. |
| ListSources.Handler | lambdas/list-sources/index.py:11-36 | The `while next_scan_key` loop raises exactly when every scan response continues. Otherwise its sends are those for the rows read, in scan order, skipping pages with `Count == 0`. Its requests start with no key and then pass each previous `LastEvaluatedKey`. |
| ListSources.ScanPage | lambdas/list-sources/index.py:15-36 | One scan request: its start key comes from the cursor. It makes the sends for the page's rows and moves the cursor to the page's `LastEvaluatedKey`, or stops it. |
| ListSources.SendRows | lambdas/list-sources/index.py:23-35 | The inner loop gives the sends for a page's rows, in order. |
| ListSources.MessageOf | lambdas/list-sources/index.py:25-29 | A row gives a message exactly when it has a string `source` and, if it has `httpHeaderOverrides`, a map of strings there. The message's `source` is that string. `headers` is present if and only if the overrides are. They have exactly the override keys, each mapped to its `S` string. |
| ListSources.HeadersOf | lambdas/list-sources/index.py:29 | The header comprehension succeeds if and only if every override is a string. It then keeps exactly the override keys with their strings. |
| ListSources.MessageRoundTrip | lambdas/list-sources/index.py:25-29 | A source stored with string `source` and string headers reads back as the same message. |
| ListSources.SendsIff | lambdas/list-sources/index.py:23-35 | A message is sent if and only if some scanned row builds it. |
| ListSources.SendsOnePerRow | lambdas/list-sources/index.py:23-33 | When every row is well formed there is one send per row, in scan order, of that row's message. |
| ListSources.SendsIgnoreFailures | lambdas/list-sources/index.py:24-35 | Which sends fail changes no other send: the same messages are attempted, in the same order. |
| ListSources.SendsAppend | lambdas/list-sources/index.py:21-36 | The sends for two runs of rows are the sends for each, one after the other. |
| ListSources.PagedSendsTaken | lambdas/list-sources/index.py:21-36 | Sending page by page gives the same sends as sending the rows read. |
| ProcessItem.Handler | lambdas/process-item/index.py:11-48 | The loop over the records produces exactly the effects, the final ledger and the raise of `HandlerRun`. |
| ProcessItem.ProcessRecord | lambdas/process-item/index.py:13-48 | One record produces exactly `RecordRun`'s effects and ledger. |
| ProcessItem.GuidOf | lambdas/process-item/index.py:40 | `body["item"]["guid"]` yields a string exactly when the key is present and holds a string. |
| ItemProps.RecordSteps | lambdas/process-item/index.py:13-48 | A record makes at most three calls. It first publishes the event `(source, "New RSS Item", item, channel)` of its body. It writes the row `(source, item["guid"])` exactly when the event succeeded and the guid is a string. It deletes its message exactly when the row succeeded and the delete does not raise. It raises exactly when it stops short of the delete. |
| ItemProps.RecordOrdered | lambdas/process-item/index.py:20-47 | In one record, a row is written only right after the event of the same source and guid, and the delete comes only right after the row. The ledger grows by exactly the rows written. |
| ItemProps.HandlerOrdered | lambdas/process-item/index.py:11-48 | The same order over a whole batch. The ledger after the batch is the ledger before plus exactly the rows written. |
| ItemProps.CompleteRun | lambdas/process-item/index.py:12-48 | A batch that does not raise makes three calls per record. The third is the delete of that record's message. |
| ItemProps.MissingGuidStops | lambdas/process-item/index.py:20-40 | An item without `guid` whose event succeeds gets its event published. Then the invocation raises with no row written, no delete, and no later record processed. |
| ItemProps.RedeliveryRepublishes | lambdas/process-item/index.py:20-48 | A record that completes, delivered again, leaves the ledger as it was, whatever fails on the second run. When the second event write goes through, it publishes the same event again. Under the same outcomes, the second run repeats the first run's calls and completes. |
| ItemProps.StopsAtFirstRaise | lambdas/process-item/index.py:12-48 | When the first `k` records complete and record `k` raises, the run equals the run over the first `k + 1` records and raises. So no record after the first raising one is processed. |
| ItemProps.OrderedAppend | lambdas/process-item/index.py:12 | Ordered traces, one after the other, stay ordered, and their rows add up. |
| Pipeline.NewItemsLackGuid | lambdas/process-channel/index.py:37-145 | No item the channel lambda picks for sending has a `guid` key. |
| Pipeline.SentItemsLackGuid | lambdas/process-channel/index.py:149-155 | No item message the channel lambda sends has a `guid` key. |
| Pipeline.LedgerNeverWritten | lambdas/process-item/index.py:12-43 | A batch of such items never changes the ledger. It raises on its first record, after at most that record's event. |
| Pipeline.Deliveries | lambdas/process-item/index.py:12 | The batch for the sent messages: one record per message, in order. |
| Pipeline.DeliveriesLackGuid | lambdas/process-item/index.py:12-13 | Delivering messages without `guid` gives records with a body and without `guid`. |
| Pipeline.ChannelMessagesNeverRecorded | lambdas/process-item/index.py:33-43 | Whatever a channel record sends, the item lambda's batch of those messages leaves the ledger unchanged. |

## Left out

- XML text parsing, UTF-8 decoding and `urlopen` are left out. The model
  starts from the parsed element tree, and `Env.fetch` is `None` when any of
  them raises.
- `datetime.strptime(...).isoformat()`, `int()` and `hashlib.md5` are
  parameters (`Lib.parseDate`, `Lib.parseInt`, `Env.md5`), not models of the
  libraries. The RFC 822 section 5 date grammar is therefore not checked.
- JSON text on the queues is left out. Bodies are the structured values
  given to `json.dumps`. In process-item, a failing `json.loads` or a missing
  `source`/`channel`/`item` key is a record whose body is `None`.
- Environment variables (queue URLs, table names, the event bus name) and
  the fixed parts of each request are left out. Printing and
  `traceback.print_exc()` are left out too.
- DynamoDB's paging is given as the sequence of responses to the successive
  requests. A request beyond the given responses raises. For list-sources
  this is the whole table scan. For process-channel it is one source's
  query, so `Env.ledger` maps a source to its responses.
- `ProcessChannel.ListGuids` takes every ledger row to have a string `guid`.
  A row without one would raise `KeyError`, and the model does not give that
  case.
- `ProcessChannel.GuidString`: an `itemGuid` with no text formats as
  `"None"`, as `str.format` does. Other values cannot occur, because the
  parser stores `itemGuid` only as text.
- `put_events`' `FailedEntryCount` is left out. Only a raised exception
  counts as a failure, as in the code.
- SQS FIFO deduplication, redelivery timing, Lambda batching and
  concurrency are left out. A batch is a sequence of records handled in
  order.
- `lambdas/api/index.py` and `lambdas/process-source/index.py` are not part
  of this model.
- The aliasing of `item["itemSource"]` with the element's `attrib`
  dictionary is left out. Adding `name` to it does not change the parsed
  document afterwards.
