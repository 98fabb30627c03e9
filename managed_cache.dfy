/** ManagedCache: the persisted cache record (a timestamp and an ordered set
    of feed members), how it is read back as a local feed, and the two
    queries the store runs against the context: find the record, and replace
    it by a new one. */
module ManagedCaches {
  import opened FeedStoreTypes
  import opened ManagedObjectContexts
  import opened ManagedFeedImages

  /** `localFeed`: the local form of every managed feed image among `feed`,
      in order; members of any other entity are dropped. */
  function LocalFeed<UUID(0), URL(0)>(feed: seq<FeedMember<UUID, URL>>): (r: seq<LocalFeedImage<UUID, URL>>)
    reads ImagesIn(feed)
    ensures |r| <= |feed|
    ensures (forall i :: 0 <= i < |feed| ==> feed[i].Image?) ==> |r| == |feed|
  {
    if feed == [] then []
    else
      assert ImagesIn(feed[1..]) <= ImagesIn(feed) by {
        forall i | 0 <= i < |feed[1..]| && feed[1..][i].Image? ensures feed[1..][i].image in ImagesIn(feed) {
          assert feed[1..][i] == feed[i + 1];
        }
      }
      var rest := LocalFeed(feed[1..]);
      match feed[0]
      case Image(managed) => [managed.Local()] + rest
      case Foreign(_) => rest
  }

  /** When every member is a managed feed image, element i of the local feed
      is the local form of member i. */
  lemma {:induction false} LocalFeedOfImages<UUID(0), URL(0)>(feed: seq<FeedMember<UUID, URL>>)
    requires forall i :: 0 <= i < |feed| ==> feed[i].Image?
    ensures |LocalFeed(feed)| == |feed|
    ensures forall i :: 0 <= i < |feed| ==> LocalFeed(feed)[i] == feed[i].image.Local()
  {
    if feed != [] {
      LocalFeedOfImages(feed[1..]);
      forall i | 0 < i < |feed| ensures LocalFeed(feed)[i] == feed[i].image.Local() {
        assert feed[1..][i - 1] == feed[i];
      }
    }
  }

  /** `localFeed` of a single member: an image gives its `local`, any other
      object is dropped. */
  lemma LocalFeedOfMember<UUID(0), URL(0)>(member: FeedMember<UUID, URL>)
    ensures member.Image? ==> LocalFeed([member]) == [member.image.Local()]
    ensures member.Foreign? ==> LocalFeed([member]) == []
  {
    assert [member][1..] == [];
  }

  /** `localFeed` works member by member: the local feed of two runs of
      members is the two local feeds one after the other. With
      `LocalFeedOfMember` this fixes the local feed of every ordered set. */
  lemma {:induction false} LocalFeedAppend<UUID(0), URL(0)>(a: seq<FeedMember<UUID, URL>>, b: seq<FeedMember<UUID, URL>>)
    ensures LocalFeed(a + b) == LocalFeed(a) + LocalFeed(b)
  {
    if a == [] {
      assert a + b == b;
    } else {
      assert (a + b)[1..] == a[1..] + b;
      LocalFeedAppend(a[1..], b);
    }
  }

  /** Round trip: managed images whose local forms are `feed`, element by
      element, read back as exactly `feed`. */
  lemma LocalFeedRoundTrip<UUID(0), URL(0)>(members: seq<FeedMember<UUID, URL>>, feed: seq<LocalFeedImage<UUID, URL>>)
    requires |members| == |feed|
    requires forall i :: 0 <= i < |members| ==> members[i].Image? && members[i].image.Local() == feed[i]
    ensures LocalFeed(members) == feed
  {
    LocalFeedOfImages(members);
  }

  /** The cache record. */
  class ManagedCache<Date(0), UUID(0), URL(0)> {
    var timestamp: Date
    var feed: seq<FeedMember<UUID, URL>>

    /** A new record: its feed is empty and its timestamp is unset. */
    constructor ()
      ensures feed == []
    {
      feed := [];
    }

    /** The feed and timestamp this record holds, as the store reports them. */
    ghost function Content(): (content: CachedFeed<Date, UUID, URL>)
      reads this, ImagesIn(feed)
    {
      CachedFeed(LocalFeed(feed), timestamp)
    }

    /** The content depends only on this record and its images. */
    twostate lemma ContentUnchanged()
      requires unchanged(this) && unchanged(ImagesIn(feed))
      ensures Content() == old(Content())
    {
    }

    /** `find`: the first cache record the context's fetch returns, if any.
        A failing fetch is an error, not an absent record. */
    static method Find(context: ManagedObjectContext<ManagedCache<Date, UUID, URL>>, fetchFails: bool)
      returns (r: Result<Option<ManagedCache<Date, UUID, URL>>>)
      ensures fetchFails ==> r == Err(FetchFailed)
      ensures !fetchFails && context.registered == [] ==> r == Ok(None)
      ensures !fetchFails && context.registered != [] ==> r == Ok(Some(context.registered[0]))
    {
      var fetched := context.Fetch(fetchFails);
      if fetched.Err? {
        return Err(fetched.error);
      }
      var caches := fetched.value;
      r := Ok(if caches == [] then None else Some(caches[0]));
    }

    /** `newUniqueInstance`: deletes the record `find` returns, if any, then
        creates a new empty record in the context. From a context holding at
        most one record, the working copy then holds exactly the new one. */
    static method NewUniqueInstance(context: ManagedObjectContext<ManagedCache<Date, UUID, URL>>, fetchFails: bool)
      returns (r: Result<ManagedCache<Date, UUID, URL>>)
      modifies context
      ensures context.persisted == old(context.persisted)
      ensures fetchFails ==> r == Err(FetchFailed) && context.registered == old(context.registered)
      ensures !fetchFails ==> r.Ok? && fresh(r.value) && r.value.feed == []
      ensures !fetchFails && old(context.registered) == [] ==> context.registered == [r.value]
      ensures !fetchFails && old(context.registered) != [] ==>
                context.registered == Without(old(context.registered), old(context.registered)[0]) + [r.value]
      ensures !fetchFails && |old(context.registered)| <= 1 ==> context.registered == [r.value]
    {
      var found := Find(context, fetchFails);
      if found.Err? {
        return Err(found.error);
      }
      if found.value.Some? {
        context.Delete(found.value.value);
      }
      var cache := new ManagedCache();
      context.Insert(cache);
      r := Ok(cache);
    }
  }
}
