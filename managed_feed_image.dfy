/** ManagedFeedImage: the persisted form of one feed image, and the two
    mappings between it and LocalFeedImage. */
module ManagedFeedImages {
  import opened FeedStoreTypes

  /** A persisted feed image. A new object has its attributes unset until
      they are assigned one by one. */
  class ManagedFeedImage<UUID(0), URL(0)> {
    var id: UUID
    var imageDescription: Option<string>
    var location: Option<string>
    var url: URL

    constructor ()
      ensures imageDescription == None && location == None
    {
      imageDescription := None;
      location := None;
    }

    /** `local`: the image as the rest of the app sees it. An unset
        description or location stays absent; `FeedImage` and
        `LocalFeedRoundTrip` show that it inverts the copy into storage. */
    function Local(): (r: LocalFeedImage<UUID, URL>)
      reads this
      ensures r.description.None? <==> imageDescription.None?
      ensures r.location.None? <==> location.None?
    {
      LocalFeedImage(id, imageDescription, location, url)
    }

    /** `feedImage`: one new managed image per element of `feed`, in the same
        order, each with the element's id, description, location and url, as
        the members of an ordered set. */
    static method FeedImage(feed: seq<LocalFeedImage<UUID, URL>>) returns (r: seq<FeedMember<UUID, URL>>)
      ensures |r| == |feed|
      ensures forall i :: 0 <= i < |r| ==> r[i].Image? && fresh(r[i].image)
      ensures forall i :: 0 <= i < |r| ==> r[i].image.Local() == feed[i]
      ensures NoDuplicates(r)
    {
      var managed: seq<FeedMember<UUID, URL>> := [];
      for n := 0 to |feed|
        invariant |managed| == n
        invariant forall i :: 0 <= i < n ==> managed[i].Image? && fresh(managed[i].image)
        invariant forall i :: 0 <= i < n ==> managed[i].image.Local() == feed[i]
        invariant NoDuplicates(managed)
      {
        var feedItem := feed[n];
        var managedFeed := new ManagedFeedImage();
        managedFeed.id := feedItem.id;
        managedFeed.imageDescription := feedItem.description;
        managedFeed.location := feedItem.location;
        managedFeed.url := feedItem.url;
        managed := managed + [Image(managedFeed)];
      }
      OrderedSetOfDistinct(managed);
      r := OrderedSetOf(managed);
    }
  }

  /** An element of the cache's `feed` ordered set, which is untyped: either a
      managed feed image or an object of some other entity. */
  datatype FeedMember<UUID(0), URL(0)> = Image(image: ManagedFeedImage<UUID, URL>) | Foreign(obj: object)

  /** The managed feed images among `members`. */
  ghost function ImagesIn<UUID(0), URL(0)>(members: seq<FeedMember<UUID, URL>>): (images: set<object>)
  {
    set i | 0 <= i < |members| && members[i].Image? :: members[i].image
  }

  ghost predicate NoDuplicates<T>(s: seq<T>)
  {
    forall i, j :: 0 <= i < j < |s| ==> s[i] != s[j]
  }

  /** `NSOrderedSet(array:)`: the elements of `xs`, each once. On distinct
      elements it is `xs` itself (`OrderedSetOfDistinct`). */
  function OrderedSetOf<T(==)>(xs: seq<T>): (r: seq<T>)
    ensures forall i :: 0 <= i < |r| ==> r[i] in xs
    ensures forall i :: 0 <= i < |xs| ==> xs[i] in r
    ensures NoDuplicates(r)
  {
    if xs == [] then []
    else
      var rest := OrderedSetOf(xs[..|xs| - 1]);
      if xs[|xs| - 1] in rest then rest else rest + [xs[|xs| - 1]]
  }

  /** Building an ordered set from distinct elements drops nothing and keeps the order. */
  lemma {:induction false} OrderedSetOfDistinct<T>(xs: seq<T>)
    requires NoDuplicates(xs)
    ensures OrderedSetOf(xs) == xs
  {
    if xs != [] {
      var init := xs[..|xs| - 1];
      assert NoDuplicates(init);
      OrderedSetOfDistinct(init);
      assert xs[|xs| - 1] !in init by {
        forall i | 0 <= i < |init| ensures init[i] != xs[|xs| - 1] {
          assert xs[i] != xs[|xs| - 1];
        }
      }
      assert init + [xs[|xs| - 1]] == xs;
    }
  }
}
