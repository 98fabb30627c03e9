/** Sequences of store operations and what a caller observes after them,
    derived only from the operations' contracts. */
module FeedStoreScenarios {
  import opened FeedStoreTypes
  import opened CoreDataFeedStores

  /** Inserting and then retrieving delivers the inserted feed, in order,
      with its timestamp; an empty feed is found, not reported as `Empty`. */
  method InsertThenRetrieve<Date(0), UUID(0), URL(0)>(
    store: CoreDataFeedStore<Date, UUID, URL>, feed: seq<LocalFeedImage<UUID, URL>>, timestamp: Date)
    returns (r: RetrievalResult<Date, UUID, URL>)
    requires store.Valid()
    modifies store.context
    ensures store.Valid()
    ensures r == Found(feed, timestamp)
  {
    var err := store.Insert(feed, timestamp, false, false);
    label Inserted:
    r := store.Retrieve(false);
    store.StoredUnchanged@Inserted();
  }

  /** A second insert replaces the first: nothing of the first feed or
      timestamp remains, and the store holds one record. */
  method InsertTwiceThenRetrieve<Date(0), UUID(0), URL(0)>(
    store: CoreDataFeedStore<Date, UUID, URL>,
    first: seq<LocalFeedImage<UUID, URL>>, firstTimestamp: Date,
    second: seq<LocalFeedImage<UUID, URL>>, secondTimestamp: Date)
    returns (r: RetrievalResult<Date, UUID, URL>)
    requires store.Valid()
    modifies store.context
    ensures store.Valid() && |store.context.persisted| == 1
    ensures r == Found(second, secondTimestamp)
  {
    var err := store.Insert(first, firstTimestamp, false, false);
    err := store.Insert(second, secondTimestamp, false, false);
    label Inserted:
    r := store.Retrieve(false);
    store.StoredUnchanged@Inserted();
  }

  /** Deleting twice: once the first deletion succeeds, the second succeeds
      whatever the save would do, and the store reports `Empty`. */
  method DeleteTwiceThenRetrieve<Date(0), UUID(0), URL(0)>(store: CoreDataFeedStore<Date, UUID, URL>, saveFails: bool)
    returns (first: Option<StoreError>, second: Option<StoreError>, r: RetrievalResult<Date, UUID, URL>)
    requires store.Valid()
    modifies store.context
    ensures store.Valid()
    ensures first.None? ==> second.None? && r == Empty
  {
    first := store.DeleteCachedFeed(false, saveFails);
    second := store.DeleteCachedFeed(false, saveFails);
    label Deleted:
    r := store.Retrieve(false);
    store.StoredUnchanged@Deleted();
  }

  /** An insert whose save fails leaves what a retrieval reports unchanged:
      the old record intact, or still no record. */
  method FailedInsertThenRetrieve<Date(0), UUID(0), URL(0)>(
    store: CoreDataFeedStore<Date, UUID, URL>, feed: seq<LocalFeedImage<UUID, URL>>, timestamp: Date)
    returns (before: RetrievalResult<Date, UUID, URL>, err: Option<StoreError>, after: RetrievalResult<Date, UUID, URL>)
    requires store.Valid()
    modifies store.context
    ensures store.Valid()
    ensures err == Some(SaveFailed)
    ensures after == before
  {
    label Start:
    before := store.Retrieve(false);
    store.StoredUnchanged@Start();
    err := store.Insert(feed, timestamp, false, true);
    label Failed:
    after := store.Retrieve(false);
    store.StoredUnchanged@Failed();
  }
}
