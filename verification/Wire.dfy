/** The frames two ends of one binary control connection exchange, with payloads kept abstract. */
module Wire {
  type Text = string

  /** `Known(mutating)` stands for an opcode of the table, split by `is_mutating`. */
  datatype Opcode = Known(mutating: bool) | Unknown

  /** A payload either deserialises to a request body or does not. */
  datatype Body = Decodes(text: Text) | Garbage(text: Text)

  datatype ClientFrame =
    | Request(id: nat, opcode: Opcode, body: Body)
    | Cancel(id: nat)
    | Stray(id: nat)

  datatype Answer = Handled(output: Text) | Cancelled | BadRequest | OverLimit

  datatype ServerFrame =
    | Response(id: nat, answer: Answer)
    | BadFlags(id: nat)
    | BadPayload(id: nat)

  /** A write and flush of one frame; it can fail after the whole frame has gone out. */
  datatype WriteOutcome = Written | FailedLate | FailedEarly

  const U64_SIZE: nat := 0x1_0000_0000_0000_0000

  /** No two request frames carry the same id. */
  ghost predicate DistinctRequests(frames: seq<ClientFrame>) {
    forall i, j | 0 <= i < j < |frames| && frames[i].Request? && frames[j].Request? :: frames[i].id != frames[j].id
  }
}
