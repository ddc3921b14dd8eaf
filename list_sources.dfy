/**
 * The source-listing lambda (`lambdas/list-sources/index.py`): it scans the
 * sources table page by page and queues one message per source row, so a
 * row that cannot be turned into a message, or a send that fails, costs
 * only that row.
 */
module ListSources {
  import opened Wrappers
  import opened Paging
  import opened Queues

  /** A DynamoDB attribute value as `scan` returns it: a string, a map, or
      any other type (number, list, boolean, ...). */
  datatype Attr = S(s: string) | M(m: map<string, Attr>) | Other

  /** One row of the sources table. */
  type Row = map<string, Attr>

  /** Raised while building a row's message (a `KeyError`). */
  datatype BadRow = BadRow

  /** `{key: value["S"] for key, value in overrides.items()}`. */
  function HeadersOf(overrides: map<string, Attr>): (r: Result<map<string, string>, BadRow>)
    ensures r.Success? <==> forall k :: k in overrides ==> overrides[k].S?
    ensures r.Success? ==> r.value.Keys == overrides.Keys
    ensures r.Success? ==> forall k :: k in overrides ==> r.value[k] == overrides[k].s
  {
    if forall k :: k in overrides ==> overrides[k].S? then Success(map k | k in overrides :: overrides[k].s)
    else Failure(BadRow)
  }

  /** The message for one row. `item.get("httpHeaderOverrides")` is truthy
      whenever the attribute is present, since an attribute value is a
      non-empty dict. */
  function MessageOf(row: Row): (r: Result<SourceMessage, BadRow>)
    ensures r.Success? <==>
              && "source" in row && row["source"].S?
              && ("httpHeaderOverrides" in row ==>
                    row["httpHeaderOverrides"].M? &&
                    forall k :: k in row["httpHeaderOverrides"].m ==> row["httpHeaderOverrides"].m[k].S?)
    ensures r.Success? ==> r.value.source == row["source"].s
    ensures r.Success? ==> (r.value.headers.Some? <==> "httpHeaderOverrides" in row)
    ensures r.Success? && r.value.headers.Some? ==>
              && r.value.headers.value.Keys == row["httpHeaderOverrides"].m.Keys
              && forall k :: k in r.value.headers.value ==> r.value.headers.value[k] == row["httpHeaderOverrides"].m[k].s
  {
    if "source" !in row || !row["source"].S? then Failure(BadRow)
    else if "httpHeaderOverrides" !in row then Success(SourceMessage(row["source"].s, None))
    else match row["httpHeaderOverrides"]
      case M(overrides) =>
        (match HeadersOf(overrides)
         case Success(headers) => Success(SourceMessage(row["source"].s, Some(headers)))
         case Failure(e) => Failure(e))
      case _ => Failure(BadRow)
  }

  /** The row a source is stored as: `source` as a string and, when it has
      headers, `httpHeaderOverrides` as a map of strings. */
  function RowOf(message: SourceMessage): Row
  {
    var row := map["source" := S(message.source)];
    match message.headers
    case None => row
    case Some(headers) => row["httpHeaderOverrides" := M(map k | k in headers :: S(headers[k]))]
  }

  /** Reading a stored source back gives the same message. */
  lemma MessageRoundTrip(message: SourceMessage)
    ensures MessageOf(RowOf(message)) == Success(message)
  {
    match message.headers
    case None =>
    case Some(headers) =>
      var overrides := map k | k in headers :: S(headers[k]);
      assert RowOf(message)["httpHeaderOverrides"] == M(overrides);
      var back := HeadersOf(overrides).value;
      assert back == headers;
  }

  /** One `send_message` call and whether it succeeded. */
  datatype SourceSend = SourceSend(message: SourceMessage, delivered: bool)

  /** The sends for `rows`, in order: one per row whose message can be
      built, none for the others. */
  function SendsForRows(rows: seq<Row>, sendFails: SourceMessage -> bool): seq<SourceSend>
  {
    if rows == [] then []
    else
      SendsForRows(rows[..|rows| - 1], sendFails) +
      match MessageOf(rows[|rows| - 1])
      case Success(m) => [SourceSend(m, !sendFails(m))]
      case Failure(_) => []
  }

  /** When every row is well formed, one send per row, in scan order. */
  lemma {:induction false} SendsOnePerRow(rows: seq<Row>, sendFails: SourceMessage -> bool)
    requires forall k :: 0 <= k < |rows| ==> MessageOf(rows[k]).Success?
    ensures |SendsForRows(rows, sendFails)| == |rows|
    ensures forall k :: 0 <= k < |rows| ==>
              var m := MessageOf(rows[k]).value;
              SendsForRows(rows, sendFails)[k] == SourceSend(m, !sendFails(m))
    decreases |rows|
  {
    if rows != [] {
      var init := rows[..|rows| - 1];
      assert forall k :: 0 <= k < |init| ==> init[k] == rows[k];
      SendsOnePerRow(init, sendFails);
    }
  }

  /** The handler over the store's successive scan `responses`: the start
      key of every request made, the sends, and whether a scan raised. */
  method Handler(responses: seq<Page<Row>>, sendFails: SourceMessage -> bool)
    returns (starts: seq<Option<Key>>, sends: seq<SourceSend>, raised: bool)
    ensures raised == ReadRaises(responses)
    ensures sends == SendsForRows(Read(responses), sendFails)
    ensures starts == StartKeys(responses[..Served(responses)])
  {
    starts := [];
    sends := [];
    var nextScanKey := Start;
    var i := 0;
    while nextScanKey != Done
      invariant 0 <= i <= |responses|
      invariant CursorAt(responses, i, nextScanKey)
      invariant sends == PagedSends(responses[..i], sendFails)
      invariant starts == StartKeys(responses[..i])
      decreases |responses| - i
    {
      if i == |responses| {
        ScanRaises(responses, nextScanKey, sendFails);
        raised := true;
        return;
      }
      var start, pageSends, next := ScanPage(nextScanKey, responses[i], sendFails);
      CursorStep(responses, i, nextScanKey, next);
      ScanStep(responses, i, sendFails);
      starts := starts + [start];
      sends := sends + pageSends;
      nextScanKey := next;
      i := i + 1;
    }
    ScanStops(responses, i, sendFails);
    raised := false;
  }

  /** Proof step for `Handler`: one more response adds its request's start
      key and its rows' sends to the traces. */
  lemma ScanStep(responses: seq<Page<Row>>, i: nat, sendFails: SourceMessage -> bool)
    requires i < |responses|
    ensures PagedSends(responses[..i + 1], sendFails) == PagedSends(responses[..i], sendFails) + SendsForRows(Rows(responses[i]), sendFails)
    ensures StartKeys(responses[..i + 1]) == StartKeys(responses[..i]) + [StartKey(responses, i)]
  {
    assert responses[..i + 1][..i] == responses[..i];
  }

  /** One iteration of the scan loop: the request's start key, the sends
      for the response's rows, and the cursor for the next request. */
  method ScanPage(nextScanKey: Cursor, scanResponse: Page<Row>, sendFails: SourceMessage -> bool)
    returns (start: Option<Key>, sends: seq<SourceSend>, next: Cursor)
    requires nextScanKey != Done
    ensures start == StartOf(nextScanKey)
    ensures sends == SendsForRows(Rows(scanResponse), sendFails)
    ensures next == if Continues(scanResponse) then After(scanResponse.lastKey.value) else Done
  {
    start := StartOf(nextScanKey);
    sends := [];
    if scanResponse.count != 0 {
      sends := SendRows(scanResponse.items, sendFails);
    }
    next := if Continues(scanResponse) then After(scanResponse.lastKey.value) else Done;
  }

  /** The `for` loop over one page's rows, each in its own `try`. */
  method SendRows(rows: seq<Row>, sendFails: SourceMessage -> bool) returns (sends: seq<SourceSend>)
    ensures sends == SendsForRows(rows, sendFails)
  {
    sends := [];
    var j := 0;
    while j < |rows|
      invariant 0 <= j <= |rows|
      invariant sends == SendsForRows(rows[..j], sendFails)
    {
      var item := rows[j];
      assert rows[..j + 1] == rows[..j] + [item];
      var message := MessageOf(item);
      if message.Success? {
        var failed := sendFails(message.value);
        sends := sends + [SourceSend(message.value, !failed)];
      }
      j := j + 1;
    }
    assert rows[..j] == rows;
  }

  /** Rows are independent: the sends for two runs of rows are the sends
      for each, one after the other. */
  lemma {:induction false} SendsAppend(a: seq<Row>, b: seq<Row>, sendFails: SourceMessage -> bool)
    ensures SendsForRows(a + b, sendFails) == SendsForRows(a, sendFails) + SendsForRows(b, sendFails)
    decreases |b|
  {
    if b == [] {
      assert a + b == a;
    } else {
      var init := b[..|b| - 1];
      assert (a + b)[..|a + b| - 1] == a + init;
      assert (a + b)[|a + b| - 1] == b[|b| - 1];
      SendsAppend(a, init, sendFails);
    }
  }

  /** The sends page by page, as the handler's loops make them. */
  function PagedSends(pages: seq<Page<Row>>, sendFails: SourceMessage -> bool): seq<SourceSend>
  {
    if pages == [] then []
    else
      var last := pages[|pages| - 1];
      PagedSends(pages[..|pages| - 1], sendFails) + SendsForRows(Rows(last), sendFails)
  }

  /** A scan that stops after the `i`-th response has sent for the rows read. */
  lemma ScanStops(responses: seq<Page<Row>>, i: nat, sendFails: SourceMessage -> bool)
    requires i <= |responses| && CursorAt(responses, i, Done)
    ensures !ReadRaises(responses) && Served(responses) == i
    ensures PagedSends(responses[..i], sendFails) == SendsForRows(Read(responses), sendFails)
  {
    ServedStops(responses, i);
    PagedSendsTaken(responses[..i], sendFails);
  }

  /** A scan that wants a page past the last response has sent for all of them. */
  lemma ScanRaises(responses: seq<Page<Row>>, cursor: Cursor, sendFails: SourceMessage -> bool)
    requires cursor != Done && CursorAt(responses, |responses|, cursor)
    ensures ReadRaises(responses) && Served(responses) == |responses|
    ensures PagedSends(responses[..|responses|], sendFails) == SendsForRows(Read(responses), sendFails)
  {
    ServedRaises(responses, cursor);
    PagedSendsTaken(responses[..|responses|], sendFails);
  }

  lemma {:induction false} PagedSendsTaken(pages: seq<Page<Row>>, sendFails: SourceMessage -> bool)
    ensures PagedSends(pages, sendFails) == SendsForRows(Taken(pages), sendFails)
    decreases |pages|
  {
    if pages != [] {
      var last := pages[|pages| - 1];
      PagedSendsTaken(pages[..|pages| - 1], sendFails);
      SendsAppend(Taken(pages[..|pages| - 1]), Rows(last), sendFails);
    }
  }

  /** A message is sent exactly when some row yields it, and which messages
      are sent does not depend on which sends fail. */
  lemma {:induction false} SendsIff(rows: seq<Row>, sendFails: SourceMessage -> bool, m: SourceMessage)
    ensures (exists k :: 0 <= k < |SendsForRows(rows, sendFails)| && SendsForRows(rows, sendFails)[k].message == m)
            <==> (exists row :: row in rows && MessageOf(row) == Success(m))
    decreases |rows|
  {
    if rows != [] {
      var init := rows[..|rows| - 1];
      var last := rows[|rows| - 1];
      SendsIff(init, sendFails, m);
      assert forall row :: row in rows <==> row in init || row == last;
      var before := SendsForRows(init, sendFails);
      var all := SendsForRows(rows, sendFails);
      assert forall k :: 0 <= k < |before| ==> all[k] == before[k];
      if MessageOf(last) == Success(m) {
        assert all[|before|].message == m;
      }
    }
  }

  lemma {:induction false} SendsIgnoreFailures(rows: seq<Row>, f: SourceMessage -> bool, g: SourceMessage -> bool)
    ensures |SendsForRows(rows, f)| == |SendsForRows(rows, g)|
    ensures forall k :: 0 <= k < |SendsForRows(rows, f)| ==> SendsForRows(rows, f)[k].message == SendsForRows(rows, g)[k].message
    decreases |rows|
  {
    if rows != [] {
      SendsIgnoreFailures(rows[..|rows| - 1], f, g);
    }
  }
}
