/**
 * What the create handlers of the API routes answer, and the shape of
 * their result: a response, and the collection as the handler leaves it.
 */
module Api {
  import opened Wrappers

  /**
   * `NextResponse.json(...)`: a success (status 200) carrying a message and
   * the created record's view, or a failure with its status, the form field
   * it blames (if any) and its message.
   */
  datatype Response<T> =
    | Ok(message: string, value: T)
    | Err(status: nat, field: Option<string>, message: string)

  /** A handler's response together with the collection after it. */
  datatype Posted<R, T> = Posted(response: Response<T>, store: seq<R>)

  /** A failure that leaves the collection as it was. */
  function Reject<R, T>(store: seq<R>, status: nat, message: string): (p: Posted<R, T>)
    ensures p.store == store && p.response.Err?
    ensures p.response.status == status && p.response.message == message && p.response.field.None?
  {
    Posted(Err(status, None, message), store)
  }

  /** The HTTP methods the pages use. */
  datatype Method = GET | POST | PUT | DELETE

  /** A `fetch(url, { method, body })` a page issues; `body` is the JSON it sends. */
  datatype Request<B> = Request(verb: Method, url: string, body: B)

  /** What `fetch` and `response.json()` produced for a list: an exception, or `success` and the list. */
  datatype Fetched<T> = FetchThrew | FetchAnswered(success: bool, items: Option<seq<T>>)

  /** What `fetch` and `response.json()` produced for a save or delete: an exception, or `success`. */
  datatype Outcome = Threw | Answered(success: bool)

  /** An id interpolated into a URL template: `null` prints as "null". */
  function IdSegment(id: Option<string>): string {
    if id.Some? then id.value else "null"
  }
}
