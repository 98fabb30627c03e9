# Core Data feed store, modelled in Dafny

This project models the persistence core of the FeedStoreChallenge app: `CoreDataFeedStore`, a
cache that keeps one feed snapshot (an ordered list of feed images plus the time it was written)
in Core Data, together with its two managed entities, `ManagedCache` and `ManagedFeedImage`, and
the mappings between a `LocalFeedImage` and its persisted form.

The store holds no cache record or exactly one. `retrieve` reads it and reports `empty`,
`found(feed, timestamp)` or `failure`; `insert` deletes the record it finds, creates a new one,
copies every image across and saves; `deleteCachedFeed` deletes the record it finds and saves.
Any error in `insert` or `deleteCachedFeed` rolls the context back and is handed to the caller.

Modules, one per source file plus the framework they lean on:

- `FeedStoreTypes` (`feed_store_types.dfy`): `LocalFeedImage`, the retrieval outcome, the errors,
  and `Retrieval`, the outcome that reports a given stored cache.
- `ManagedObjectContexts` (`managed_object_context.dfy`): the behaviour of
  `NSManagedObjectContext` that the store relies on, as a class with a working copy
  (`registered`, what a fetch sees) and the persistent store as of the last save (`persisted`).
  `save` commits the working copy and may fail; `rollback` resets the working copy.
- `ManagedFeedImages` (`managed_feed_image.dfy`): the `ManagedFeedImage` class, `feedImage`
  (a loop that creates one managed image per local image and assigns its attributes one by one)
  and `NSOrderedSet(array:)`.
- `ManagedCaches` (`managed_cache.dfy`): the `ManagedCache` class, `localFeed`, `find` and
  `newUniqueInstance`.
- `CoreDataFeedStores` (`core_data_feed_store.dfy`): the `CoreDataFeedStore` class. Its invariant
  `Valid()` says that the context has no pending changes and the store holds at most one record.
  `Stored()` is the cache the persistent store holds. Each operation is stated against `Stored()`.
- `FeedStoreScenarios` (`feed_store_scenarios.dfy`): sequences of operations (insert then retrieve,
  replace, delete twice, failed insert) and what a caller observes after them.

`CoreDataFeedStore.swift:97-142` holds private nested copies of `ManagedCache` and
`ManagedFeedImage` that match `ManagedCache.swift` and `ManagedFeedImage.swift` line for line. They
are modelled once, by `ManagedCaches` and `ManagedFeedImages`.

`Date`, `UUID` and `URL` are type parameters: the store copies them and never looks inside.
Core Data's failures are boolean parameters of the operations: `fetchFails` for a fetch request
that throws, `saveFails` for a commit that throws, and `modelFound` and `loadFails` for opening
the store. Each operation returns the value the source passes to its completion handler.

Two points where the model commits to Core Data behaviour that the source does not show:

- A save on a context without pending changes succeeds without contacting the store. So
  `deleteCachedFeed` on an empty store succeeds whenever its fetch succeeds, even though the
  source calls `save()` unconditionally; an implementation that saves only when
  there are changes behaves the same here.
- A fetch sees pending insertions and not pending deletions, and returns the records in the
  order they were inserted. The source takes `.first` of an unsorted fetch; with at most one
  record the order does not matter.

## Model

| member | source | states |
|---|---|---|
| `FeedStoreTypes.Retrieval` | essentials-feed-store-challenge/FeedStoreChallenge/CoreDataFeedStore.swift:46-50 | the outcome is `Empty` exactly when there is no record and `Found` exactly when there is one, carrying that record's feed and timestamp |
| `ManagedObjectContexts.Without` | essentials-feed-store-challenge/FeedStoreChallenge/ManagedCache.swift:25 | deleting an object removes it and only it from what a fetch sees; an absent object leaves it unchanged |
| `ManagedObjectContexts.ManagedObjectContext.constructor` | essentials-feed-store-challenge/FeedStoreChallenge/CoreDataFeedStore.swift:28 | a new context over the loaded store has no pending changes |
| `ManagedObjectContexts.ManagedObjectContext.Fetch` | essentials-feed-store-challenge/FeedStoreChallenge/ManagedCache.swift:19-21 | a fetch returns the working copy, or an error when it throws; it changes nothing |
| `ManagedObjectContexts.ManagedObjectContext.Insert` | essentials-feed-store-challenge/FeedStoreChallenge/ManagedCache.swift:26 | a new managed object joins the working copy; the persistent store is untouched |
| `ManagedObjectContexts.ManagedObjectContext.Delete` | essentials-feed-store-challenge/FeedStoreChallenge/ManagedCache.swift:25 | the object leaves the working copy; the persistent store is untouched until a save |
| `ManagedObjectContexts.ManagedObjectContext.Save` | essentials-feed-store-challenge/FeedStoreChallenge/CoreDataFeedStore.swift:66 | a save fails exactly when there are pending changes and the commit throws; on success the store equals the working copy, on failure the store is unchanged |
| `ManagedObjectContexts.ManagedObjectContext.Rollback` | essentials-feed-store-challenge/FeedStoreChallenge/CoreDataFeedStore.swift:71 | the working copy is reset to the persistent store, which is unchanged |
| `ManagedFeedImages.ManagedFeedImage.constructor` | essentials-feed-store-challenge/FeedStoreChallenge/ManagedFeedImage.swift:19 | a new managed image has no description and no location until they are assigned |
| `ManagedFeedImages.OrderedSetOf` | essentials-feed-store-challenge/FeedStoreChallenge/ManagedFeedImage.swift:18 | the ordered set holds exactly the array's elements, with no duplicates |
| `ManagedFeedImages.OrderedSetOfDistinct` | essentials-feed-store-challenge/FeedStoreChallenge/ManagedFeedImage.swift:18-25 | an ordered set built from distinct elements is the array itself, in the same order |
| `ManagedFeedImages.ManagedFeedImage.FeedImage` | essentials-feed-store-challenge/FeedStoreChallenge/ManagedFeedImage.swift:17-25 | one new, distinct managed image per input element, as many as the input, element i carrying feed[i]'s id, description, location and url, so that its `local` is feed[i] |
| `ManagedFeedImages.ManagedFeedImage.Local` | essentials-feed-store-challenge/FeedStoreChallenge/ManagedFeedImage.swift:28-30 | an unset description or location stays absent in the local image; with `FeedImage` (element i's `local` is feed[i]) and `LocalFeedRoundTrip` it is the inverse of the copy into storage |
| `ManagedCaches.LocalFeed` | essentials-feed-store-challenge/FeedStoreChallenge/ManagedCache.swift:14-16 | the local feed is no longer than the ordered set, and exactly as long when every member is a managed feed image |
| `ManagedCaches.LocalFeedOfImages` | essentials-feed-store-challenge/FeedStoreChallenge/ManagedCache.swift:14-16 | when every member is a managed feed image, element i of the local feed is `local` of member i |
| `ManagedCaches.LocalFeedOfMember` | essentials-feed-store-challenge/FeedStoreChallenge/ManagedCache.swift:15 | a single managed feed image reads back as its `local`; a member of any other entity is dropped |
| `ManagedCaches.LocalFeedAppend` | essentials-feed-store-challenge/FeedStoreChallenge/ManagedCache.swift:14-16 | the local feed of two runs of members is their local feeds concatenated, so the whole result is the images' `local` values in order with every other member dropped |
| `ManagedCaches.LocalFeedRoundTrip` | essentials-feed-store-challenge/FeedStoreChallenge/ManagedFeedImage.swift:17-30 | managed images whose `local` values are feed[0], feed[1], ... read back as exactly `feed` |
| `ManagedCaches.ManagedCache.constructor` | essentials-feed-store-challenge/FeedStoreChallenge/ManagedCache.swift:26 | a new cache record has an empty feed |
| `ManagedCaches.ManagedCache.Find` | essentials-feed-store-challenge/FeedStoreChallenge/ManagedCache.swift:18-22 | the first record the fetch returns, none when there is none, and an error (never "none") when the fetch throws; it changes nothing |
| `ManagedCaches.ManagedCache.NewUniqueInstance` | essentials-feed-store-challenge/FeedStoreChallenge/ManagedCache.swift:24-27 | deletes the found record, if any, then adds one fresh empty record; from at most one record the working copy holds exactly the new one; a failed fetch changes nothing |
| `CoreDataFeedStores.CoreDataFeedStore.constructor` | essentials-feed-store-challenge/FeedStoreChallenge/CoreDataFeedStore.swift:23-28 | the opened store satisfies the invariant and holds what the store file holds |
| `CoreDataFeedStores.CoreDataFeedStore.Open` | essentials-feed-store-challenge/FeedStoreChallenge/CoreDataFeedStore.swift:18-29 | a missing model fails with `ModelNotFound("FeedStore")` before the file is loaded, a failed load is rethrown, otherwise a new valid store holding the file's content |
| `CoreDataFeedStores.CoreDataFeedStore.Retrieve` | essentials-feed-store-challenge/FeedStoreChallenge/CoreDataFeedStore.swift:42-55 | `Empty` with no record, `Found` with the record's feed and timestamp otherwise, `Failure` when the fetch throws; it changes nothing |
| `CoreDataFeedStores.CoreDataFeedStore.Insert` | essentials-feed-store-challenge/FeedStoreChallenge/CoreDataFeedStore.swift:58-76 | the invariant (at most one record, no pending changes) is kept; on success the store holds exactly (feed, timestamp) and nothing of the old record; on a fetch or save error that error is returned and the store is as before |
| `CoreDataFeedStores.CoreDataFeedStore.DeleteCachedFeed` | essentials-feed-store-challenge/FeedStoreChallenge/CoreDataFeedStore.swift:78-94 | the invariant is kept; on success the store is empty; deleting from an empty store succeeds whenever the fetch does; on an error that error is returned and the store is as before |
| `FeedStoreScenarios.InsertThenRetrieve` | essentials-feed-store-challenge/FeedStoreChallenge/CoreDataFeedStore.swift:42-76 | a successful insert followed by a retrieve delivers `Found(feed, timestamp)`, also for an empty feed |
| `FeedStoreScenarios.InsertTwiceThenRetrieve` | essentials-feed-store-challenge/FeedStoreChallenge/CoreDataFeedStore.swift:42-76 | after two inserts the store holds one record and a retrieve delivers only the second feed and timestamp |
| `FeedStoreScenarios.DeleteTwiceThenRetrieve` | essentials-feed-store-challenge/FeedStoreChallenge/CoreDataFeedStore.swift:42-94 | once a deletion succeeds, a second one succeeds too and a retrieve delivers `Empty` |
| `FeedStoreScenarios.FailedInsertThenRetrieve` | essentials-feed-store-challenge/FeedStoreChallenge/CoreDataFeedStore.swift:42-76 | an insert whose save fails returns the error and a retrieve afterwards delivers what it delivered before |

## Left out

- `deinit` and `cleanUpReferencesToPersistentStores` (CoreDataFeedStore.swift:31-40): they release the store file through a blocking call and leave no state to reason about.
- `context.perform`: the asynchronous dispatch onto the context's queue and the escaping completion handlers. Each operation is a sequential method that returns what it would pass to its completion.
- Loading the model from the bundle and `NSPersistentContainer.load`: reduced to the parameters `modelFound`, `loadFails` and `onDisk` (what the store file already holds). The store URL is only recorded.
- How Core Data commits to SQLite: `save` is an abstract commit that either succeeds or throws.
- The `context` argument of `feedImage` and the images' own registration in the context: only cache records are fetched, and images are reached through their record's `feed`. Deleting a record therefore takes its images with it, as the cascade rule does.
- The inverse relationship `ManagedFeedImage.cache`: nothing in the core reads it.
- Rollback restoring updated attributes of already saved objects: the core never changes a saved object, it only deletes it, so discarding pending insertions and deletions is all a rollback does here.
- The different error objects Core Data throws: each failure is one `StoreError` constructor.
