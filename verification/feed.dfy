/** The raw inputs the fetchers hand to the pure pipeline. The HTTP request,
    the feed parser and the JSON decoder are not modelled; their output is. */
module Feed {
  import opened Options

  /** A parsed syndication-feed entry. A `None` field is an attribute the
      parser did not set. */
  datatype FeedEntry = FeedEntry(
    title: Option<string>,
    link: Option<string>,
    published: Option<string>,
    updated: Option<string>)

  /** One element of the `hits` array of a search-API response. */
  datatype SearchHit = SearchHit(
    title: Option<string>,
    url: Option<string>,
    objectId: Option<string>,
    points: Option<int>,
    createdAt: Option<string>)

  /** The outcome of one network fetch: its payload, or the class name and
      message of the exception it raised. */
  datatype Fetch<+T> = Fetched(payload: T) | FetchFailed(errorType: string, message: string)
}
