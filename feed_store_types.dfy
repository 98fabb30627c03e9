/** Value types shared by the Core Data feed store: the image records its
    callers hand in and get back, the outcome of a retrieval, and the errors
    an operation can report. Date, UUID and URL stay type parameters: the
    store only copies and compares them. */
module FeedStoreTypes {

  datatype Option<+T> = None | Some(value: T)

  /** Errors thrown while opening the store or inside one of its operations. */
  datatype StoreError =
    | ModelNotFound(modelName: string)  // the managed object model is missing from the bundle
    | LoadFailed                        // the persistent container could not load the store file
    | FetchFailed                       // a fetch request threw
    | SaveFailed                        // committing the context threw

  /** The outcome of a throwing call. */
  datatype Result<+T> = Ok(value: T) | Err(error: StoreError)

  /** A feed image as the rest of the app sees it. */
  datatype LocalFeedImage<UUID, URL> = LocalFeedImage(
    id: UUID,
    description: Option<string>,
    location: Option<string>,
    url: URL)

  /** The content of the one cache record: the ordered feed and when it was written. */
  datatype CachedFeed<Date, UUID, URL> = CachedFeed(feed: seq<LocalFeedImage<UUID, URL>>, timestamp: Date)

  /** What `retrieve` delivers to its completion. */
  datatype RetrievalResult<Date, UUID, URL> =
    | Empty
    | Found(feed: seq<LocalFeedImage<UUID, URL>>, timestamp: Date)
    | Failure(error: StoreError)

  /** The retrieval that reports a store holding `stored`: no record is `Empty`,
      a record is `Found` with exactly its feed and timestamp. */
  function Retrieval<Date, UUID, URL>(stored: Option<CachedFeed<Date, UUID, URL>>): (r: RetrievalResult<Date, UUID, URL>)
    ensures r.Empty? <==> stored.None?
    ensures r.Found? <==> stored.Some?
    ensures r.Found? ==> r.feed == stored.value.feed && r.timestamp == stored.value.timestamp
  {
    match stored
    case None => Empty
    case Some(cache) => Found(cache.feed, cache.timestamp)
  }
}
