/** The crawler's view of the outside world.

    Fetching, HTML parsing and URL resolution are foreign libraries in the
    crawler; here they are replaced by a fixed snapshot of the web: a function
    from a URL to the outcome of fetching it, where a successfully parsed page
    is a document (answering CSS selectors) plus its anchors, already resolved
    against the page URL, in document order. */
module Web {

  datatype Option<+T> = None | Some(value: T) {
    /** The wrapped value, or `default` for None. */
    function GetOr(default: T): T {
      match this
      case Some(v) => v
      case None => default
    }
  }

  type Url = string

  type Selector = string

  /** The outcome of `select_one(selector)` followed by `get_text(strip=True)`:
      the selector raised, nothing matched, or the stripped text (possibly
      empty) of the first matching element. */
  datatype Match = Invalid | NoMatch | Text(text: string)

  /** A parsed page, seen through the selectors asked of it. */
  type Document = Selector -> Match

  /** One `<a href>` of a page: the URL it resolves to against the page URL,
      or an anchor on which URL joining or parsing raises. */
  datatype Anchor = Link(url: Url) | Unresolvable

  /** The body of a response: either the parser raised, or it gave a document
      and the page's anchors in document order. */
  datatype Content = Unparsable | Html(doc: Document, anchors: seq<Anchor>)

  /** The outcome of one GET: the request raised (network error, timeout), or
      a response with a status code and a body. */
  datatype Fetch = Raised | Response(status: int, content: Content)
}
