/**
 * The wishlist store: a list of saved products with no repeated id, loaded
 * from local storage when the provider mounts and written back after every
 * change.
 */
module Wishlist {
  import opened Options
  import opened Sequences
  import opened Products
  import opened Storage

  /** The local-storage key of the saved list. */
  const WishlistKey := "kkj-wishlist"

  /** `list.some(item => item.id === id)`. */
  predicate HasId(list: seq<Product>, id: string)
    decreases |list|
  {
    |list| > 0 && (list[0].id == id || HasId(list[1..], id))
  }

  /** `some` holds exactly when an entry carries the id. */
  lemma {:induction false} HasIdIff(list: seq<Product>, id: string)
    ensures HasId(list, id) <==> exists i :: 0 <= i < |list| && list[i].id == id
    decreases |list|
  {
    if |list| > 0 {
      HasIdIff(list[1..], id);
      assert forall i :: 1 <= i < |list| ==> list[i] == list[1..][i - 1];
    }
  }

  /** The updater `addToWishlist` passes to the state setter. */
  function Added(list: seq<Product>, p: Product): seq<Product>
  {
    if FindById(list, p.id).Some? then list else list + [p]
  }

  /** How many entries carry `id`. */
  function CountId(list: seq<Product>, id: string): nat
  {
    if |list| == 0 then 0 else (if list[0].id == id then 1 else 0) + CountId(list[1..], id)
  }

  /**
   * The updater `removeFromWishlist` passes to the state setter,
   * `filter(item => item.id !== id)`: it drops every entry with the id and
   * keeps the others in order.
   */
  function Removed(list: seq<Product>, id: string): (r: seq<Product>)
    ensures IsSubsequence(r, list)
    ensures forall k :: 0 <= k < |r| ==> r[k].id != id
    ensures |r| == |list| - CountId(list, id)
  {
    if |list| == 0 then []
    else if list[0].id != id then [list[0]] + Removed(list[1..], id)
    else Removed(list[1..], id)
  }

  /** Adding a product whose id is absent appends it: the list grows by exactly one. */
  lemma AddedAbsent(list: seq<Product>, p: Product)
    requires !HasId(list, p.id)
    ensures Added(list, p) == list + [p]
    ensures |Added(list, p)| == |list| + 1
  {
    HasIdIff(list, p.id);
  }

  /** Adding a product whose id is present changes nothing. */
  lemma AddedPresent(list: seq<Product>, p: Product)
    requires HasId(list, p.id)
    ensures Added(list, p) == list
  {
    HasIdIff(list, p.id);
  }

  /** Adding twice is adding once. */
  lemma AddedIdempotent(list: seq<Product>, p: Product)
    ensures Added(Added(list, p), p) == Added(list, p)
  {
    var once := Added(list, p);
    assert FindById(once, p.id).Some? by {
      if FindById(list, p.id).None? {
        assert once[|once| - 1].id == p.id;
      }
    }
  }

  /** After an add the ids present are the old ones plus the product's. */
  lemma AddedMembership(list: seq<Product>, p: Product, id: string)
    ensures HasId(Added(list, p), id) <==> HasId(list, id) || id == p.id
  {
    HasIdIff(list, id);
    HasIdIff(Added(list, p), id);
    if HasId(list, p.id) {
      AddedPresent(list, p);
    } else {
      AddedAbsent(list, p);
      assert Added(list, p)[|list|] == p;
      assert forall i :: 0 <= i < |list| ==> Added(list, p)[i] == list[i];
    }
  }

  /** An add keeps the ids pairwise distinct. */
  lemma AddedKeepsDistinct(list: seq<Product>, p: Product)
    requires DistinctIds(list)
    ensures DistinctIds(Added(list, p))
  {
    HasIdIff(list, p.id);
  }

  /** After a remove the ids present are the old ones minus the removed one. */
  lemma {:induction false} RemovedMembership(list: seq<Product>, id: string, x: string)
    ensures HasId(Removed(list, id), x) <==> HasId(list, x) && x != id
    decreases |list|
  {
    if |list| > 0 {
      RemovedMembership(list[1..], id, x);
      if list[0].id != id {
        assert Removed(list, id)[1..] == Removed(list[1..], id);
      }
    }
  }

  /** Removing an id no entry carries is a no-op. */
  lemma {:induction false} RemovedAbsent(list: seq<Product>, id: string)
    requires !HasId(list, id)
    ensures Removed(list, id) == list
    decreases |list|
  {
    if |list| > 0 {
      RemovedAbsent(list[1..], id);
    }
  }

  /** In a list without repeated ids, an id present once is counted once. */
  lemma {:induction false} CountIdDistinct(list: seq<Product>, id: string)
    requires DistinctIds(list)
    ensures CountId(list, id) == if HasId(list, id) then 1 else 0
    decreases |list|
  {
    if |list| > 0 {
      assert DistinctIds(list[1..]) by {
        forall i, j | 0 <= i < j < |list[1..]| ensures list[1..][i].id != list[1..][j].id {
          assert list[1..][i] == list[i + 1] && list[1..][j] == list[j + 1];
        }
      }
      CountIdDistinct(list[1..], id);
      if list[0].id == id {
        HasIdIff(list[1..], id);
        assert forall k :: 0 <= k < |list[1..]| ==> list[1..][k] == list[k + 1];
      }
    }
  }

  /** A remove keeps the ids distinct and, when the id was present, shrinks the list by one. */
  lemma {:induction false} RemovedKeepsDistinct(list: seq<Product>, id: string)
    requires DistinctIds(list)
    ensures DistinctIds(Removed(list, id))
    ensures |Removed(list, id)| == if HasId(list, id) then |list| - 1 else |list|
    decreases |list|
  {
    CountIdDistinct(list, id);
    if |list| > 0 {
      assert DistinctIds(list[1..]) by {
        forall i, j | 0 <= i < j < |list[1..]| ensures list[1..][i].id != list[1..][j].id {
          assert list[1..][i] == list[i + 1] && list[1..][j] == list[j + 1];
        }
      }
      RemovedKeepsDistinct(list[1..], id);
      var r := Removed(list, id);
      if list[0].id != id {
        var rest := Removed(list[1..], id);
        assert r == [list[0]] + rest;
        forall k | 0 <= k < |rest| ensures rest[k].id != list[0].id {
          HasIdIff(rest, rest[k].id);
          RemovedMembership(list[1..], id, rest[k].id);
          HasIdIff(list[1..], rest[k].id);
        }
      }
    }
  }

  /** Removing the id of a product just added to a list that lacked it restores the list. */
  lemma AddThenRemove(list: seq<Product>, p: Product)
    requires !HasId(list, p.id)
    ensures Removed(Added(list, p), p.id) == list
  {
    AddedAbsent(list, p);
    RemovedAbsent(list, p.id);
    RemovedAppend(list, [p], p.id);
  }

  /** Filtering distributes over concatenation. */
  lemma {:induction false} RemovedAppend(a: seq<Product>, b: seq<Product>, id: string)
    ensures Removed(a + b, id) == Removed(a, id) + Removed(b, id)
    decreases |a|
  {
    if |a| > 0 {
      assert (a + b)[0] == a[0];
      assert (a + b)[1..] == a[1..] + b;
      RemovedAppend(a[1..], b, id);
    } else {
      assert a + b == b;
    }
  }

  /** The provider: the wishlist state cell and the storage it persists to. */
  class WishlistProvider {
    var wishlist: seq<Product>
    const storage: KeyValueStore<seq<Product>>

    /** The persist effect has run: local storage holds the current list. */
    ghost predicate Persisted()
      reads this, storage
    {
      WishlistKey in storage.entries && storage.entries[WishlistKey] == wishlist
    }

    /**
     * Mounting: the state starts as the stored list, or empty when the key is
     * absent; the effect then writes it back.
     */
    constructor (storage: KeyValueStore<seq<Product>>)
      modifies storage
      ensures this.storage == storage
      ensures wishlist == if WishlistKey in old(storage.entries) then old(storage.entries)[WishlistKey] else []
      ensures storage.entries == old(storage.entries)[WishlistKey := wishlist]
      ensures Persisted()
    {
      this.storage := storage;
      var saved := storage.GetItem(WishlistKey);
      wishlist := if saved.Some? then saved.value else [];
      new;
      storage.SetItem(WishlistKey, wishlist);
    }

    /**
     * `addToWishlist`: when the id is already saved the updater returns the
     * same list, so nothing re-renders and nothing is written.
     */
    method AddToWishlist(product: Product)
      requires Persisted()
      modifies this, storage
      ensures wishlist == Added(old(wishlist), product)
      ensures storage.entries == old(storage.entries)[WishlistKey := wishlist]
      ensures Persisted()
      ensures old(DistinctIds(wishlist)) ==> DistinctIds(wishlist)
    {
      if old(DistinctIds(wishlist)) {
        AddedKeepsDistinct(wishlist, product);
      }
      if FindById(wishlist, product.id).None? {
        wishlist := wishlist + [product];
        storage.SetItem(WishlistKey, wishlist);
      }
    }

    /** `removeFromWishlist`: the filter always yields a new list, which the effect writes. */
    method RemoveFromWishlist(productId: string)
      requires Persisted()
      modifies this, storage
      ensures wishlist == Removed(old(wishlist), productId)
      ensures storage.entries == old(storage.entries)[WishlistKey := wishlist]
      ensures Persisted()
      ensures old(DistinctIds(wishlist)) ==> DistinctIds(wishlist)
    {
      if DistinctIds(wishlist) {
        RemovedKeepsDistinct(wishlist, productId);
      }
      wishlist := Removed(wishlist, productId);
      storage.SetItem(WishlistKey, wishlist);
    }

    /** `isInWishlist(id)`: some saved entry carries the id. */
    function IsInWishlist(productId: string): (b: bool)
      reads this
      ensures b <==> exists i :: 0 <= i < |wishlist| && wishlist[i].id == productId
    {
      HasIdIff(wishlist, productId);
      HasId(wishlist, productId)
    }

    /** `wishlistCount`: the number of saved entries. */
    function WishlistCount(): (n: nat)
      reads this
      ensures n == |wishlist|
    {
      |wishlist|
    }
  }
}
