/** The part of a Core Data managed object context that the feed store relies
    on, for one entity whose objects have type T. The context keeps a working
    copy (`registered`: what a fetch request sees, pending insertions included
    and pending deletions excluded) beside the state of the persistent store as
    of the last successful save (`persisted`). */
module ManagedObjectContexts {
  import opened FeedStoreTypes

  /** `s` with every occurrence of `x` removed. */
  function Without<T(==)>(s: seq<T>, x: T): (r: seq<T>)
    ensures forall i :: 0 <= i < |r| ==> r[i] in s && r[i] != x
    ensures forall i :: 0 <= i < |s| && s[i] != x ==> s[i] in r
    ensures |r| <= |s|
    ensures x !in s ==> r == s
  {
    if s == [] then []
    else if s[0] == x then Without(s[1..], x)
    else [s[0]] + Without(s[1..], x)
  }

  class ManagedObjectContext<T(==)> {
    var registered: seq<T>
    var persisted: seq<T>

    /** A context over a store that already holds `stored`, with no pending changes. */
    constructor (stored: seq<T>)
      ensures registered == stored && persisted == stored
    {
      registered := stored;
      persisted := stored;
    }

    /** `hasChanges`: the working copy differs from the persistent store. */
    predicate HasChanges()
      reads this
    {
      registered != persisted
    }

    /** Runs a fetch request for the entity; `fails` stands for the error the
        fetch may throw. A fetch only reads the context. */
    method Fetch(fails: bool) returns (r: Result<seq<T>>)
      ensures fails ==> r == Err(FetchFailed)
      ensures !fails ==> r == Ok(registered)
    {
      if fails {
        return Err(FetchFailed);
      }
      return Ok(registered);
    }

    /** A newly created managed object joins the working copy. */
    method Insert(obj: T)
      modifies this
      ensures registered == old(registered) + [obj]
      ensures persisted == old(persisted)
    {
      registered := registered + [obj];
    }

    /** `delete(_:)`: the object leaves the working copy; the store keeps it until a save. */
    method Delete(obj: T)
      modifies this
      ensures registered == Without(old(registered), obj)
      ensures persisted == old(persisted)
    {
      registered := Without(registered, obj);
    }

    /** `save()`: commits the working copy. A context without pending changes
        saves without contacting the store, so it cannot fail; otherwise
        `fails` stands for the error the commit may throw, after which the
        store is as before and the changes are still pending. */
    method Save(fails: bool) returns (err: Option<StoreError>)
      modifies this
      ensures registered == old(registered)
      ensures err.None? <==> !(fails && old(HasChanges()))
      ensures err.None? ==> persisted == registered
      ensures err.Some? ==> err == Some(SaveFailed) && persisted == old(persisted)
    {
      if !HasChanges() {
        return None;
      }
      if fails {
        return Some(SaveFailed);
      }
      persisted := registered;
      return None;
    }

    /** `rollback()`: discards every pending insertion and deletion. */
    method Rollback()
      modifies this
      ensures registered == old(persisted) && persisted == old(persisted)
    {
      registered := persisted;
    }
  }
}
