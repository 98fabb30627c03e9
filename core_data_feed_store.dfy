/** CoreDataFeedStore: the feed cache kept in Core Data. The store holds no
    cache record or exactly one; `retrieve` reads it, `insert` replaces it and
    `deleteCachedFeed` removes it, each in one pass over the store's context
    that ends in a save or, on any error, a rollback. Each operation is a
    sequential method whose return value is what the source passes to its
    completion; the faults the framework may raise are parameters. */
module CoreDataFeedStores {
  import opened FeedStoreTypes
  import opened ManagedObjectContexts
  import opened ManagedFeedImages
  import opened ManagedCaches

  /** The name of the managed object model, reported when it is missing. */
  const ModelName: string := "FeedStore"

  /** The managed feed images of the given cache records. */
  ghost function RecordImages<Date(0), UUID(0), URL(0)>(records: seq<ManagedCache<Date, UUID, URL>>): (images: set<object>)
    reads set r | r in records
  {
    set r, o | r in records && o in ImagesIn(r.feed) :: o
  }

  class CoreDataFeedStore<Date(0), UUID(0), URL(0)> {
    const storeURL: URL
    const context: ManagedObjectContext<ManagedCache<Date, UUID, URL>>

    /** Between operations the context has no pending changes and the store
        holds at most one cache record. */
    ghost predicate Valid()
      reads this, context
    {
      |context.persisted| <= 1 && context.registered == context.persisted
    }

    /** The cache held by the persistent store, if any. */
    ghost function Stored(): (stored: Option<CachedFeed<Date, UUID, URL>>)
      reads this, context`persisted, context.persisted, RecordImages(context.persisted)
    {
      if context.persisted == [] then None
      else
        assert ImagesIn(context.persisted[0].feed) <= RecordImages(context.persisted);
        Some(context.persisted[0].Content())
    }

    /** The stored cache is a function of the records the persistent store
        holds and of their images: while none of those change, neither does it. */
    twostate lemma StoredUnchanged()
      requires unchanged(context`persisted)
      requires unchanged(set r | r in old(context.persisted))
      requires unchanged(old(RecordImages(context.persisted)))
      ensures Stored() == old(Stored())
    {
      if context.persisted != [] {
        var record := context.persisted[0];
        assert ImagesIn(record.feed) <= old(RecordImages(context.persisted));
      }
    }

    /** A store over the file at `storeURL`, whose content as loaded is `onDisk`. */
    constructor (storeURL: URL, onDisk: Option<CachedFeed<Date, UUID, URL>>)
      ensures this.storeURL == storeURL && fresh(context)
      ensures Valid() && Stored() == onDisk
    {
      var records: seq<ManagedCache<Date, UUID, URL>> := [];
      if onDisk.Some? {
        var record := new ManagedCache();
        record.timestamp := onDisk.value.timestamp;
        var members := ManagedFeedImage.FeedImage(onDisk.value.feed);
        record.feed := members;
        LocalFeedRoundTrip(members, onDisk.value.feed);
        records := [record];
      }
      label Loaded:
      this.storeURL := storeURL;
      context := new ManagedObjectContext(records);
      if onDisk.Some? {
        records[0].ContentUnchanged@Loaded();
      }
    }

    /** `init(storeURL:)`: looks up the managed object model first, failing
        with `ModelNotFound` before the store file is touched; then loads the
        persistent container, whose failure is rethrown. `onDisk` is what the
        store file already holds. */
    static method Open(storeURL: URL, modelFound: bool, loadFails: bool, onDisk: Option<CachedFeed<Date, UUID, URL>>)
      returns (r: Result<CoreDataFeedStore<Date, UUID, URL>>)
      ensures !modelFound ==> r == Err(ModelNotFound(ModelName))
      ensures modelFound && loadFails ==> r == Err(LoadFailed)
      ensures modelFound && !loadFails ==>
                r.Ok? && fresh(r.value) && fresh(r.value.context) && r.value.storeURL == storeURL &&
                r.value.Valid() && r.value.Stored() == onDisk
    {
      if !modelFound {
        return Err(ModelNotFound(ModelName));
      }
      if loadFails {
        return Err(LoadFailed);
      }
      var store := new CoreDataFeedStore(storeURL, onDisk);
      return Ok(store);
    }

    /** `retrieve`: reports the stored cache (`Empty` when there is no record,
        `Found` with its feed and timestamp otherwise), or `Failure` when the
        fetch throws. Reading changes nothing. */
    method Retrieve(fetchFails: bool) returns (r: RetrievalResult<Date, UUID, URL>)
      requires Valid()
      ensures fetchFails ==> r == Failure(FetchFailed)
      ensures !fetchFails ==> r == Retrieval(Stored())
    {
      var found := ManagedCache.Find(context, fetchFails);
      match found
      case Err(error) =>
        r := Failure(error);
      case Ok(None) =>
        r := Empty;
      case Ok(Some(managedCache)) =>
        r := Found(LocalFeed(managedCache.feed), managedCache.timestamp);
    }

    /** `insert`: replaces whatever is stored by `feed` and `timestamp`. On
        success the store holds exactly the new record; on any error the
        context is rolled back, the store is as before, and the error is
        returned. */
    method Insert(feed: seq<LocalFeedImage<UUID, URL>>, timestamp: Date, fetchFails: bool, saveFails: bool)
      returns (err: Option<StoreError>)
      requires Valid()
      modifies context
      ensures Valid()
      ensures err == (if fetchFails then Some(FetchFailed) else if saveFails then Some(SaveFailed) else None)
      ensures err.None? ==> Stored() == Some(CachedFeed(feed, timestamp))
      ensures err.Some? ==> Stored() == old(Stored())
    {
      var created := ManagedCache.NewUniqueInstance(context, fetchFails);
      if created.Err? {
        context.Rollback();
        StoredUnchanged();
        return Some(created.error);
      }
      var managedCache := created.value;
      managedCache.timestamp := timestamp;
      var members := ManagedFeedImage.FeedImage(feed);
      managedCache.feed := members;
      LocalFeedRoundTrip(members, feed);

      label Assigned:
      var saveError := context.Save(saveFails);
      if saveError.Some? {
        context.Rollback();
        StoredUnchanged();
        return saveError;
      }
      managedCache.ContentUnchanged@Assigned();
      return None;
    }

    /** `deleteCachedFeed`: removes the stored record, if any, and saves.
        With no record there is nothing to commit and the deletion succeeds.
        On any error the context is rolled back, the store is as before, and
        the error is returned. */
    method DeleteCachedFeed(fetchFails: bool, saveFails: bool) returns (err: Option<StoreError>)
      requires Valid()
      modifies context
      ensures Valid()
      ensures err == (if fetchFails then Some(FetchFailed)
                      else if saveFails && old(Stored()).Some? then Some(SaveFailed)
                      else None)
      ensures err.None? ==> Stored() == None
      ensures err.Some? ==> Stored() == old(Stored())
    {
      var found := ManagedCache.Find(context, fetchFails);
      if found.Err? {
        context.Rollback();
        StoredUnchanged();
        return Some(found.error);
      }
      if found.value.Some? {
        context.Delete(found.value.value);
      }

      var saveError := context.Save(saveFails);
      if saveError.Some? {
        context.Rollback();
        StoredUnchanged();
        return saveError;
      }
      return None;
    }
  }
}
