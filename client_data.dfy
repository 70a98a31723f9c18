/**
 * Feedback records as the React client holds them after parsing the
 * server's JSON, and JavaScript truthiness of the optional text fields.
 */
module ClientData {
  import opened Sequences
  import opened Models

  /**
   * A feedback record on the client. `author`/`recipient` are full names and
   * may be null; `updatedAt` is read by the client although the server never
   * sends it, so it is absent (None) on every record that came from the server.
   */
  datatype ClientFeedback = ClientFeedback(
    id: int,
    strengths: string,
    areasToImprove: string,
    sentiment: string,
    author: Option<string>,
    recipient: Option<string>,
    acknowledged: bool,
    createdAt: string,
    updatedAt: Option<string>)

  /** JavaScript truthiness of an optional string: null, undefined and "" are falsy. */
  predicate Truthy(s: Option<string>) {
    s.Some? && s.value != ""
  }

  /** The text of a JSON string, null for anything else. */
  function JsonText(j: Json): (r: Option<string>)
    ensures r.Some? <==> j.JStr?
    ensures j.JStr? ==> r == Some(j.s)
  {
    if j.JStr? then Some(j.s) else None
  }

  /**
   * The record the client holds for a server row: the fields of
   * `Feedback.to_dict`, with `created_at` rendered by `iso`, and no
   * `updated_at`.
   */
  function Received(f: Feedback, users: seq<User>, iso: int -> string): (c: ClientFeedback)
    ensures var d := FeedbackToDict(f, users);
      && d["id"] == JInt(c.id) && d["acknowledged"] == JBool(c.acknowledged)
      && d["strengths"] == JStr(c.strengths) && d["areas_to_improve"] == JStr(c.areasToImprove)
      && d["sentiment"] == JStr(c.sentiment)
      && c.author == JsonText(d["author"]) && c.recipient == JsonText(d["recipient"])
      && d["created_at"] == JTime(f.createdAt) && c.createdAt == iso(f.createdAt)
    ensures c.updatedAt.None?
  {
    ClientFeedback(f.id, f.strengths, f.areasToImprove, f.sentiment,
                   JsonText(FullNameOf(users, f.authorId)), JsonText(FullNameOf(users, f.recipientId)),
                   f.acknowledged, iso(f.createdAt), None)
  }
}
