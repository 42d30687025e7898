/** The wishlist service: one set of product ids per user, created on demand. */
module Wishlists {
  import opened Wrappers
  import Repository

  /** A user's wishlist: the id the repository assigned, the owner and a set of product ids. */
  datatype Wishlist = Wishlist(id: int, userId: int, products: set<int>)

  datatype WishlistDto = WishlistDto(id: int, userId: int, products: set<int>)

  const NotFound := "Not found"

  function IdOf(w: Wishlist): int { w.id }
  function OwnerOf(w: Wishlist): int { w.userId }

  /** `toDto`: id, owner and the product set, unchanged. */
  function ToDto(w: Wishlist): (d: WishlistDto)
    ensures d.id == w.id && d.userId == w.userId && d.products == w.products
  {
    WishlistDto(w.id, w.userId, w.products)
  }

  /** Saving a wishlist back under its own id, for the same owner, keeps the repository's invariants. */
  lemma SaveExistingWishlist(wishlists: map<int, Wishlist>, next: nat, k: int, wl: Wishlist, saved: map<int, Wishlist>)
    requires Repository.Keyed(wishlists, next, IdOf) && Repository.UniqueBy(wishlists, OwnerOf)
    requires k in wishlists && wl.id == k && wl.userId == wishlists[k].userId
    requires saved == wishlists[k := wl]
    ensures Repository.Keyed(saved, next, IdOf) && Repository.UniqueBy(saved, OwnerOf)
    ensures forall u :: Repository.FindBy(saved, OwnerOf, u, next) == Repository.FindBy(wishlists, OwnerOf, u, next)
  {
    Repository.UniqueAfterUpdate(wishlists, OwnerOf, k, wl, next);
  }

  /** The wishlist repository together with the service that works on it. */
  class WishlistService {
    var wishlists: map<int, Wishlist>
    var nextId: nat

    ghost predicate Valid()
      reads this
    {
      && 1 <= nextId
      && Repository.Keyed(wishlists, nextId, IdOf)
      && Repository.UniqueBy(wishlists, OwnerOf)
    }

    constructor ()
      ensures Valid() && wishlists == map[] && nextId == 1
    {
      wishlists := map[];
      nextId := 1;
    }

    /** `wishlistRepository.findByUserId(userId)`, as the id of the wishlist. */
    function WishlistOf(userId: int): Option<int>
      reads this
    {
      Repository.FindBy(wishlists, OwnerOf, userId, nextId)
    }

    /** The get-or-create step shared by `getWishlist` and `addProduct`. */
    method FindOrCreate(userId: int) returns (k: int)
      requires Valid()
      modifies this
      ensures Valid()
      ensures old(WishlistOf(userId)).Some? ==>
        k == old(WishlistOf(userId)).value && wishlists == old(wishlists) && nextId == old(nextId)
      ensures old(WishlistOf(userId)).None? ==>
        && k == old(nextId)
        && wishlists == old(wishlists)[k := Wishlist(k, userId, {})]
        && nextId == old(nextId) + 1
      ensures WishlistOf(userId) == Some(k) && k in wishlists
    {
      match WishlistOf(userId)
      case Some(found) =>
        k := found;
      case None =>
        k := nextId;
        var wl := Wishlist(k, userId, {});
        Repository.UniqueAfterInsert(wishlists, OwnerOf, nextId, wl);
        wishlists := wishlists[k := wl];
        nextId := nextId + 1;
    }

    /** `getWishlist`: the user's wishlist, created empty and saved when the user has none. */
    method GetWishlist(userId: int) returns (dto: WishlistDto)
      requires Valid()
      modifies this
      ensures Valid()
      ensures old(WishlistOf(userId)).Some? ==>
        wishlists == old(wishlists) && nextId == old(nextId)
        && dto == ToDto(wishlists[old(WishlistOf(userId)).value])
      ensures old(WishlistOf(userId)).None? ==>
        && wishlists == old(wishlists)[old(nextId) := Wishlist(old(nextId), userId, {})]
        && nextId == old(nextId) + 1
        && dto == WishlistDto(old(nextId), userId, {})
    {
      var k := FindOrCreate(userId);
      dto := ToDto(wishlists[k]);
    }

    /** `addProduct`: add the product to the user's wishlist, creating the wishlist if needed. */
    method AddProduct(userId: int, productId: int) returns (dto: WishlistDto)
      requires Valid()
      modifies this
      ensures Valid()
      ensures old(WishlistOf(userId)).Some? ==>
        var k := old(WishlistOf(userId)).value;
        var wl := old(wishlists)[k].(products := old(wishlists)[k].products + {productId});
        wishlists == old(wishlists)[k := wl] && nextId == old(nextId) && dto == ToDto(wl)
      ensures old(WishlistOf(userId)).None? ==>
        var wl := Wishlist(old(nextId), userId, {productId});
        wishlists == old(wishlists)[old(nextId) := wl] && nextId == old(nextId) + 1 && dto == ToDto(wl)
      ensures WishlistOf(userId).Some? && dto == ToDto(wishlists[WishlistOf(userId).value])
    {
      match WishlistOf(userId)
      case Some(k) =>
        var wl := wishlists[k].(products := wishlists[k].products + {productId});
        SaveExistingWishlist(wishlists, nextId, k, wl, wishlists[k := wl]);
        wishlists := wishlists[k := wl];
        dto := ToDto(wl);
      case None =>
        var k := nextId;
        var wl := Wishlist(k, userId, {productId});
        Repository.UniqueAfterInsert(wishlists, OwnerOf, nextId, wl);
        wishlists := wishlists[k := wl];
        nextId := nextId + 1;
        dto := ToDto(wl);
    }

    /** `removeProduct`: remove the product from the user's existing wishlist;
        no wishlist is an error and saves nothing, an absent product changes nothing. */
    method RemoveProduct(userId: int, productId: int) returns (r: Result<WishlistDto>)
      requires Valid()
      modifies this
      ensures Valid() && nextId == old(nextId)
      ensures old(WishlistOf(userId)).None? ==> r == Err(NotFound) && wishlists == old(wishlists)
      ensures old(WishlistOf(userId)).Some? ==>
        var k := old(WishlistOf(userId)).value;
        var wl := old(wishlists)[k].(products := old(wishlists)[k].products - {productId});
        wishlists == old(wishlists)[k := wl] && r == Ok(ToDto(wl))
      ensures old(WishlistOf(userId)).Some? ==>
        var before := old(wishlists)[old(WishlistOf(userId)).value].products;
        && productId !in r.value.products
        && r.value.products + {productId} >= before
        && (productId !in before ==> r.value.products == before)
    {
      match WishlistOf(userId)
      case None =>
        r := Err(NotFound);
      case Some(k) =>
        var wl := wishlists[k].(products := wishlists[k].products - {productId});
        SaveExistingWishlist(wishlists, nextId, k, wl, wishlists[k := wl]);
        wishlists := wishlists[k := wl];
        r := Ok(ToDto(wl));
    }
  }

  /** `addProduct` for a user with no wishlist creates one holding that product. */
  method AddCreatesWishlist() returns (dto: WishlistDto)
    ensures dto == WishlistDto(1, 3, {400})
  {
    var service := new WishlistService();
    dto := service.AddProduct(3, 400);
  }

  /** Adding a product that is already there changes nothing: a set holds it once. */
  method AddTwiceKeepsOne() returns (first: WishlistDto, second: WishlistDto)
    ensures first == WishlistDto(1, 3, {400}) && second == first
  {
    var service := new WishlistService();
    first := service.AddProduct(3, 400);
    second := service.AddProduct(3, 400);
    assert {400} + {400} == {400};
  }
}
