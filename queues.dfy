/**
 * The messages that travel on the two SQS queues between the lambdas. A
 * body is kept as the structured value `json.dumps` was given; the JSON
 * text itself is not modelled.
 */
module Queues {
  import opened Wrappers
  import opened Feed

  /** The body of an item message: `{"source", "channel", "item"}`. */
  datatype ItemBody = ItemBody(source: string, channel: Props, item: Props)

  /** An item message as sent to the FIFO item queue. */
  datatype ItemMessage = ItemMessage(body: ItemBody, deduplicationId: string, groupId: string)

  /** The body of a source message: `{"source"}` and, optionally, `{"headers"}`. */
  datatype SourceMessage = SourceMessage(source: string, headers: Option<map<string, string>>)
}
