/**
 * What the channel lambda's handler promises, proved about `HandlerRun`:
 * every processed record's message is deleted once, a failing send does not
 * stop the later ones, an abandoned record sends nothing, and every message
 * sent carries a new item keyed by the hash of `source + guid`.
 */
module ChannelProps {
  import opened Wrappers
  import opened Feed
  import opened Rss
  import opened Paging
  import opened Queues
  import opened ProcessChannel

  /** The receipt handles deleted, in order. */
  function Deletes(effects: seq<ChannelEffect>): seq<string>
  {
    if effects == [] then []
    else
      var last := effects[|effects| - 1];
      Deletes(effects[..|effects| - 1]) + (if last.DeleteChannelMessage? then [last.receipt] else [])
  }

  /** The messages whose sending was attempted, in order. */
  function Attempts(effects: seq<ChannelEffect>): seq<ItemMessage>
  {
    if effects == [] then []
    else
      var last := effects[|effects| - 1];
      Attempts(effects[..|effects| - 1]) + (if last.SendItem? then [last.message] else [])
  }

  function Receipts(records: seq<ChannelRecord>): (r: seq<string>)
    ensures |r| == |records|
    ensures forall i :: 0 <= i < |records| ==> r[i] == records[i].receipt
  {
    if records == [] then [] else [records[0].receipt] + Receipts(records[1..])
  }

  lemma {:induction false} DeletesAppend(a: seq<ChannelEffect>, b: seq<ChannelEffect>)
    ensures Deletes(a + b) == Deletes(a) + Deletes(b)
    ensures Attempts(a + b) == Attempts(a) + Attempts(b)
    decreases |b|
  {
    if b == [] {
      assert a + b == a;
    } else {
      var init := b[..|b| - 1];
      assert (a + b)[..|a + b| - 1] == a + init;
      assert (a + b)[|a + b| - 1] == b[|b| - 1];
      DeletesAppend(a, init);
    }
  }

  /** A trace of sends only: no deletes, and its attempts are its messages. */
  lemma {:induction false} OnlySends(effects: seq<ChannelEffect>)
    requires forall k :: 0 <= k < |effects| ==> effects[k].SendItem?
    ensures Deletes(effects) == []
    ensures |Attempts(effects)| == |effects|
    ensures forall k :: 0 <= k < |effects| ==> Attempts(effects)[k] == effects[k].message
    decreases |effects|
  {
    if effects != [] {
      var init := effects[..|effects| - 1];
      OnlySends(init);
    }
  }

  lemma {:induction false} SendsAre(source: string, channel: Props, news: seq<Props>, env: Env)
    requires forall it :: it in news ==> "itemGuid" in it
    ensures forall k :: 0 <= k < |news| ==>
              SendsFor(source, channel, news, env)[k].SendItem? &&
              SendsFor(source, channel, news, env)[k].message == MessageFor(source, channel, news[k], env)
    decreases |news|
  {
    if news != [] {
      var init := news[..|news| - 1];
      assert forall it :: it in init ==> it in news;
      SendsAre(source, channel, init, env);
      assert forall k :: 0 <= k < |init| ==> news[k] == init[k];
    }
  }

  /** The sends for the new items: no delete among them, one attempt per item. */
  lemma SendsShape(source: string, channel: Props, news: seq<Props>, env: Env)
    requires forall it :: it in news ==> "itemGuid" in it
    ensures Deletes(SendsFor(source, channel, news, env)) == []
    ensures |Attempts(SendsFor(source, channel, news, env))| == |news|
    ensures forall k :: 0 <= k < |news| ==>
              Attempts(SendsFor(source, channel, news, env))[k] == MessageFor(source, channel, news[k], env)
  {
    SendsAre(source, channel, news, env);
    OnlySends(SendsFor(source, channel, news, env));
  }

  /** A record whose fetch, parse, ledger read or filter raises sends nothing
      and is still deleted. */
  lemma RecordAbandoned(record: ChannelRecord, env: Env)
    requires || env.fetch(record.body).None?
             || ParseRssSpec(env.fetch(record.body).value, env.lib).Failure?
             || ReadRaises(env.ledger(record.body))
             || exists it :: it in ParseRssSpec(env.fetch(record.body).value, env.lib).value.items && "itemGuid" !in it
    ensures RecordEffects(record, env) == [DeleteChannelMessage(record.receipt)]
  {
    if env.fetch(record.body).Some? && ParseRssSpec(env.fetch(record.body).value, env.lib).Success? &&
       !ReadRaises(env.ledger(record.body)) {
      var p := ParseRssSpec(env.fetch(record.body).value, env.lib).value;
      assert NewItems(p.items, set g | g in Read(env.ledger(record.body))).Failure?;
    }
  }

  /** When fetch, parse and ledger read succeed, the diff is exactly the
      parsed items whose guid the ledger lacks, in feed order; it is absent
      exactly when some item has no guid. */
  lemma DiffIsNewItems(source: string, env: Env, root: Element, p: Parsed)
    requires env.fetch(source) == Some(root)
    requires ParseRssSpec(root, env.lib) == Success(p)
    requires !ReadRaises(env.ledger(source))
    ensures Diff(source, env).Some? <==> forall it :: it in p.items ==> "itemGuid" in it
    ensures Diff(source, env).Some? ==>
              var stored := set g | g in Read(env.ledger(source));
              var (channel, news) := Diff(source, env).value;
              && channel == p.channel
              && IsSubsequence(news, p.items)
              && (forall it :: it in news ==> !GuidStored(it["itemGuid"], stored))
              && (forall it :: it in p.items && !GuidStored(it["itemGuid"], stored) ==> it in news)
              && (forall it :: multiset(news)[it] == if Kept(it, stored) then multiset(p.items)[it] else 0)
  {
    var stored := set g | g in Read(env.ledger(source));
    assert Diff(source, env) == match NewItems(p.items, stored)
                                case Failure(_) => None
                                case Success(news) => Some((p.channel, news));
  }

  /** A record that is not abandoned attempts exactly one send per new item,
      in order, then is deleted once. Each message carries the source, the
      channel and the item, and both its deduplication id and its group id
      are the hash of `source + guid`. */
  lemma RecordSends(record: ChannelRecord, env: Env, channel: Props, news: seq<Props>)
    requires Diff(record.body, env) == Some((channel, news))
    ensures Deletes(RecordEffects(record, env)) == [record.receipt]
    ensures |Attempts(RecordEffects(record, env))| == |news|
    ensures forall k :: 0 <= k < |news| ==>
              var m := Attempts(RecordEffects(record, env))[k];
              && m.body == ItemBody(record.body, channel, news[k])
              && m.deduplicationId == m.groupId == env.md5(record.body + GuidString(news[k]["itemGuid"]))
  {
    var sends := SendsFor(record.body, channel, news, env);
    var delete: seq<ChannelEffect> := [DeleteChannelMessage(record.receipt)];
    assert RecordEffects(record, env) == sends + delete;
    SendsShape(record.body, channel, news, env);
    DeletesAppend(sends, delete);
    assert Attempts(delete) == [] && Deletes(delete) == [record.receipt];
  }

  /** Failure isolation: which messages a record attempts to send does not
      depend on which sends fail. */
  lemma SendFailuresIsolated(record: ChannelRecord, env: Env, sendFails: ItemMessage -> bool)
    ensures Attempts(RecordEffects(record, env)) == Attempts(RecordEffects(record, env.(sendFails := sendFails)))
  {
    var env' := env.(sendFails := sendFails);
    assert Diff(record.body, env') == Diff(record.body, env);
    match Diff(record.body, env)
    case None =>
      RecordAbandonedEffects(record, env);
      RecordAbandonedEffects(record, env');
    case Some((channel, news)) =>
      RecordSends(record, env, channel, news);
      RecordSends(record, env', channel, news);
  }

  lemma RecordAbandonedEffects(record: ChannelRecord, env: Env)
    requires Diff(record.body, env).None?
    ensures Attempts(RecordEffects(record, env)) == []
  {
    assert RecordEffects(record, env) == [DeleteChannelMessage(record.receipt)];
  }

  lemma RecordDeletes(record: ChannelRecord, env: Env)
    ensures Deletes(RecordEffects(record, env)) == [record.receipt]
  {
    var sends := match Diff(record.body, env)
                 case None => []
                 case Some((channel, news)) => SendsFor(record.body, channel, news, env);
    assert RecordEffects(record, env) == sends + [DeleteChannelMessage(record.receipt)];
    match Diff(record.body, env)
    case None =>
    case Some((channel, news)) => SendsShape(record.body, channel, news, env);
    DeletesAppend(sends, [DeleteChannelMessage(record.receipt)]);
  }

  /** A record's last effect is the delete of its own message. */
  lemma RecordDeleteLast(record: ChannelRecord, env: Env)
    ensures RecordEffects(record, env) != []
    ensures RecordEffects(record, env)[|RecordEffects(record, env)| - 1] == DeleteChannelMessage(record.receipt)
  {
  }

  /** The position of the first record whose delete fails, or `|records|`. */
  function FirstFailingDelete(records: seq<ChannelRecord>, env: Env): (r: nat)
    ensures r <= |records|
    ensures r < |records| ==> env.deleteFails(records[r].receipt)
    ensures forall k :: 0 <= k < r ==> !env.deleteFails(records[k].receipt)
  {
    if records == [] then 0
    else if env.deleteFails(records[0].receipt) then 0
    else 1 + FirstFailingDelete(records[1..], env)
  }

  /** The number of records the handler processes before it returns or raises. */
  function Processed(records: seq<ChannelRecord>, env: Env): (n: nat)
    ensures n <= |records|
  {
    var f := FirstFailingDelete(records, env);
    if f < |records| then f + 1 else |records|
  }

  /** The handler raises exactly when some record's delete fails. */
  lemma {:induction false} HandlerRaisesIff(records: seq<ChannelRecord>, env: Env)
    ensures HandlerRun(records, env).raised <==> FirstFailingDelete(records, env) < |records|
    ensures HandlerRun(records, env).raised <==> exists i :: 0 <= i < |records| && env.deleteFails(records[i].receipt)
    decreases |records|
  {
    if records != [] && !env.deleteFails(records[0].receipt) {
      HandlerRaisesIff(records[1..], env);
      assert HandlerRun(records, env).raised == HandlerRun(records[1..], env).raised;
      assert forall i :: 0 < i < |records| ==> records[i] == records[1..][i - 1];
      assert (exists i :: 0 <= i < |records| && env.deleteFails(records[i].receipt)) ==
             (exists i :: 0 <= i < |records[1..]| && env.deleteFails(records[1..][i].receipt));
    }
  }

  /** Every record the handler reaches has its message deleted exactly once,
      in record order: the deletes are the receipts of the records up to and
      including the first whose delete fails, or of all records. */
  lemma {:induction false} HandlerDeletesOnce(records: seq<ChannelRecord>, env: Env)
    ensures Deletes(HandlerRun(records, env).effects) == Receipts(records[..Processed(records, env)])
    decreases |records|
  {
    if records != [] {
      var r := records[0];
      RecordDeletes(r, env);
      var here := RecordEffects(r, env);
      if env.deleteFails(r.receipt) {
        assert HandlerRun(records, env).effects == here;
        assert records[..1] == [r];
      } else {
        var rest := HandlerRun(records[1..], env);
        assert HandlerRun(records, env).effects == here + rest.effects;
        HandlerDeletesOnce(records[1..], env);
        assert Processed(records, env) == Processed(records[1..], env) + 1;
        DeletesCons(r, here, rest.effects, records, Processed(records[1..], env));
      }
    }
  }

  /** The effects of `records`, one record after the other. */
  function EffectsOf(records: seq<ChannelRecord>, env: Env): seq<ChannelEffect>
  {
    if records == [] then [] else RecordEffects(records[0], env) + EffectsOf(records[1..], env)
  }

  /** The handler's effects are those of the records it processes, in
      order, and nothing from the records after the first failing delete. */
  lemma {:induction false} HandlerEffects(records: seq<ChannelRecord>, env: Env)
    ensures HandlerRun(records, env).effects == EffectsOf(records[..Processed(records, env)], env)
    decreases |records|
  {
    if records != [] {
      var r := records[0];
      var here := RecordEffects(r, env);
      var n := Processed(records, env);
      EffectsOfCons(records, env, n);
      if env.deleteFails(r.receipt) {
        assert HandlerRun(records, env).effects == here;
        assert records[1..][..n - 1] == [];
      } else {
        var rest := HandlerRun(records[1..], env);
        assert HandlerRun(records, env).effects == here + rest.effects;
        HandlerEffects(records[1..], env);
        assert n - 1 == Processed(records[1..], env);
      }
    }
  }

  lemma EffectsOfCons(records: seq<ChannelRecord>, env: Env, n: nat)
    requires 0 < n <= |records|
    ensures EffectsOf(records[..n], env) == RecordEffects(records[0], env) + EffectsOf(records[1..][..n - 1], env)
  {
    assert records[..n][0] == records[0];
    assert records[..n][1..] == records[1..][..n - 1];
  }

  lemma DeletesCons(r: ChannelRecord, here: seq<ChannelEffect>, rest: seq<ChannelEffect>, records: seq<ChannelRecord>, n: nat)
    requires records != [] && records[0] == r && n < |records|
    requires Deletes(here) == [r.receipt]
    requires Deletes(rest) == Receipts(records[1..][..n])
    ensures Deletes(here + rest) == Receipts(records[..n + 1])
  {
    DeletesAppend(here, rest);
    assert records[..n + 1] == [r] + records[1..][..n];
  }
}
