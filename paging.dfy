/**
 * DynamoDB's paginated `query` and `scan` as both lambdas use them: each
 * response carries `Count`, `Items` and, unless it is the last page,
 * `LastEvaluatedKey`, which the caller passes back as `ExclusiveStartKey`.
 */
module Paging {
  import opened Wrappers

  /** A DynamoDB primary key: attribute name to its string value. */
  type Key = map<string, string>

  /** One response page. */
  datatype Page<T> = Page(count: nat, items: seq<T>, lastKey: Option<Key>)

  /** Whether the loop asks for another page after this one: Python's
      `while next_key` stops on an absent and on an empty `LastEvaluatedKey`. */
  predicate Continues<T>(page: Page<T>)
  {
    page.lastKey.Some? && page.lastKey.value != map[]
  }

  /** `responses` are the store's answers to successive requests; a request
      past the last of them raises. The read raises exactly when every
      response it is given asks for another page. */
  predicate ReadRaises<T>(responses: seq<Page<T>>)
  {
    forall i :: 0 <= i < |responses| ==> Continues(responses[i])
  }

  /** The number of responses the loop consumes: up to and including the
      first that does not continue, or all of them when the read raises. */
  function Served<T>(responses: seq<Page<T>>): (n: nat)
    ensures n <= |responses|
    ensures forall i :: 0 <= i < n - 1 ==> Continues(responses[i])
    ensures ReadRaises(responses) ==> n == |responses|
    ensures 0 < n ==> (Continues(responses[n - 1]) <==> ReadRaises(responses))
    ensures n == 0 <==> responses == []
  {
    if responses == [] then 0
    else if !Continues(responses[0]) then 1
    else
      var n := 1 + Served(responses[1..]);
      assert forall i :: 1 <= i < |responses| ==> responses[i] == responses[1..][i - 1];
      n
  }

  /** The `ExclusiveStartKey` the `i`-th request must carry: none on the
      first, the previous page's `LastEvaluatedKey` on every later one. */
  function StartKey<T>(pages: seq<Page<T>>, i: nat): Option<Key>
    requires i < |pages|
  {
    if i == 0 then None else pages[i - 1].lastKey
  }

  /** The start keys of requests answered by `pages`, in order. */
  function StartKeys<T>(pages: seq<Page<T>>): (r: seq<Option<Key>>)
    ensures |r| == |pages|
    ensures forall i :: 0 <= i < |pages| ==> r[i] == StartKey(pages, i)
  {
    if pages == [] then [] else StartKeys(pages[..|pages| - 1]) + [StartKey(pages, |pages| - 1)]
  }

  /** The items of the responses the loop consumes. */
  function Read<T>(responses: seq<Page<T>>): seq<T>
  {
    Taken(responses[..Served(responses)])
  }

  /** The items a caller takes from one page: none when its `Count` is zero. */
  function Rows<T>(page: Page<T>): seq<T>
  {
    if page.count != 0 then page.items else []
  }

  /** The items a caller takes from `pages`, in page order. */
  function Taken<T>(pages: seq<Page<T>>): seq<T>
  {
    if pages == [] then [] else Taken(pages[..|pages| - 1]) + Rows(pages[|pages| - 1])
  }

  /** A loop that stops after the `i`-th response, the first that does not
      continue, has consumed what `Served` says and did not raise. */
  lemma ServedStops<T>(responses: seq<Page<T>>, i: nat)
    requires i <= |responses| && CursorAt(responses, i, Done)
    ensures Served(responses) == i && !ReadRaises(responses)
  {
  }

  /** A loop that wants more after the last response raises, having consumed them all. */
  lemma ServedRaises<T>(responses: seq<Page<T>>, cursor: Cursor)
    requires cursor != Done && CursorAt(responses, |responses|, cursor)
    ensures Served(responses) == |responses| && ReadRaises(responses)
  {
  }

  /** Taking one more response adds that response's items, if any. */
  lemma TakenStep<T>(responses: seq<Page<T>>, i: nat)
    requires i < |responses|
    ensures Taken(responses[..i + 1]) == Taken(responses[..i]) + Rows(responses[i])
  {
    assert responses[..i + 1][..i] == responses[..i];
  }

  /** What the position of the request cursor (`next_key`) can be. */
  datatype Cursor = Start | After(key: Key) | Done

  /** The start key a cursor puts in the next request. */
  function StartOf(cursor: Cursor): Option<Key>
  {
    if cursor.After? then Some(cursor.key) else None
  }

  /** The cursor after `i` requests: `"?"` before the first, then the key of
      the last response while responses continue, and every earlier response
      continued. */
  ghost predicate CursorAt<T>(responses: seq<Page<T>>, i: nat, cursor: Cursor)
    requires i <= |responses|
  {
    && (cursor == Start <==> i == 0)
    && (i > 0 ==> (cursor == Done <==> !Continues(responses[i - 1])))
    && (i > 0 && cursor != Done ==> cursor == After(responses[i - 1].lastKey.value))
    && (forall k :: 0 <= k < i - 1 ==> Continues(responses[k]))
  }

  /** One request: the cursor puts the right start key in it, and the
      response moves the cursor on. */
  lemma CursorStep<T>(responses: seq<Page<T>>, i: nat, cursor: Cursor, next: Cursor)
    requires i < |responses| && cursor != Done && CursorAt(responses, i, cursor)
    requires next == if Continues(responses[i]) then After(responses[i].lastKey.value) else Done
    ensures CursorAt(responses, i + 1, next)
    ensures StartOf(cursor) == StartKey(responses, i)
  {
  }

  /** An item is taken exactly when it is on some page with a non-zero `Count`. */
  lemma {:induction false} TakenIff<T>(pages: seq<Page<T>>, x: T)
    ensures x in Taken(pages) <==> exists i :: 0 <= i < |pages| && pages[i].count != 0 && x in pages[i].items
    decreases |pages|
  {
    if pages != [] {
      var init := pages[..|pages| - 1];
      TakenIff(init, x);
      assert forall i :: 0 <= i < |init| ==> init[i] == pages[i];
    }
  }

  /** When every `Count` agrees with the number of items, every item is taken, in order. */
  lemma {:induction false} TakenAll<T>(pages: seq<Page<T>>)
    requires forall i :: 0 <= i < |pages| ==> pages[i].count == |pages[i].items|
    ensures Taken(pages) == AllItems(pages)
    decreases |pages|
  {
    if pages != [] {
      TakenAll(pages[..|pages| - 1]);
    }
  }

  function AllItems<T>(pages: seq<Page<T>>): seq<T>
  {
    if pages == [] then [] else AllItems(pages[..|pages| - 1]) + pages[|pages| - 1].items
  }
}
