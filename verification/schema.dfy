/** JSON values as they appear in request payloads and ticket metadata
    (Go's `any` inside `map[string]any`). */
module Json {

  datatype Value =
    | Null
    | Bool(b: bool)
    | Int(i: int)
    | Str(s: string)
    | List(items: seq<Value>)
    | Object(members: map<string, Value>)
}

/** The host's unified ticket schema, as far as this adapter reads and fills it. */
module Schema {
  import opened Common
  import opened Json

  /** An instant, as seconds and nanoseconds relative to the Unix epoch. */
  datatype Time = Time(seconds: int, nanos: nat)

  /** Go's zero `time.Time`, January 1 of year 1, 00:00:00 UTC. */
  const ZeroTime := Time(-62135596800, 0)

  /** The flat, provider-neutral ticket built from one Jira issue. */
  datatype Ticket = Ticket(
    id: string,
    key: string,
    title: string,
    description: string,
    status: string,
    assignees: seq<string>,
    reporter: string,
    createdAt: Time,
    updatedAt: Time,
    metadata: map<string, Value>)

  /** A search filter; an empty string or empty list places no constraint. */
  datatype TicketQuery = TicketQuery(
    query: string,
    statuses: seq<string>,
    assignees: seq<string>,
    reporter: string,
    limit: int)

  /** Input to create. A nil and an empty `fields` map behave alike in the
      source, so both are the empty map here. */
  datatype CreateTicketInput = CreateTicketInput(
    title: string,
    description: string,
    fields: map<string, Value>)

  /** Input to update: every field is independently optional, and a present
      but empty assignee list is distinct from an absent one. */
  datatype UpdateTicketInput = UpdateTicketInput(
    title: Option<string>,
    description: Option<string>,
    status: Option<string>,
    assignees: Option<seq<string>>,
    fields: map<string, Value>)
}
