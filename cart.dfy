/** The cart service: one cart per user, created on first read, whose ordered
    list of lines is edited in place and saved back. */
module Carts {
  import opened Wrappers
  import opened JavaInt
  import Repository
  import Seqs

  /** A line of a cart: a product and how many of it. */
  datatype CartItem = CartItem(productId: int, quantity: int32)

  /** A user's cart: the id the repository assigned, the owner and the lines in order. */
  datatype Cart = Cart(id: int, userId: int, items: seq<CartItem>)

  datatype CartItemDto = CartItemDto(productId: int, quantity: int32)
  datatype CartDto = CartDto(id: int, userId: int, items: seq<CartItemDto>)

  const CartNotFound := "Cart not found"
  const ItemNotFound := "Item not found"

  function IdOf(c: Cart): int { c.id }
  function OwnerOf(c: Cart): int { c.userId }

  /** No product has two lines. */
  ghost predicate OneLinePerProduct(items: seq<CartItem>)
  {
    forall i, j :: 0 <= i < j < |items| ==> items[i].productId != items[j].productId
  }

  /** `items.stream().filter(ci -> ci.getProductId().equals(productId)).findFirst()`,
      as the index of that line. */
  function FirstLine(items: seq<CartItem>, productId: int): (r: Option<nat>)
    ensures r.Some? ==> r.value < |items| && items[r.value].productId == productId
    ensures r.Some? ==> forall j :: 0 <= j < r.value ==> items[j].productId != productId
    ensures r.None? <==> forall j :: 0 <= j < |items| ==> items[j].productId != productId
  {
    if items == [] then None
    else if items[0].productId == productId then Some(0)
    else match FirstLine(items[1..], productId)
      case None => None
      case Some(i) => Some(i + 1)
  }

  /** The lines after `addItem`: the quantity is added to the product's line,
      or a new line is appended when there is none. */
  function Merged(items: seq<CartItem>, productId: int, quantity: int32): (r: seq<CartItem>)
    ensures |r| == |items| || |r| == |items| + 1
    ensures forall j :: 0 <= j < |items| ==> r[j].productId == items[j].productId
    ensures exists j :: 0 <= j < |r| && r[j].productId == productId
  {
    match FirstLine(items, productId)
    case Some(i) => items[i := items[i].(quantity := WrapAdd(items[i].quantity, quantity))]
    case None =>
      var r := items + [CartItem(productId, quantity)];
      assert r[|items|].productId == productId;
      r
  }

  /** The lines after `removeItem`: `removeIf(ci -> ci.getProductId().equals(productId))`. */
  function WithoutProduct(items: seq<CartItem>, productId: int): (r: seq<CartItem>)
    ensures |r| <= |items|
    ensures forall x :: x in r ==> x in items && x.productId != productId
  {
    Seqs.Keep(items, (ci: CartItem) => ci.productId != productId)
  }

  function ItemToDto(ci: CartItem): CartItemDto
  {
    CartItemDto(ci.productId, ci.quantity)
  }

  /** `toDto`: the cart's id, owner and lines, each line reduced to product and quantity. */
  function ToDto(c: Cart): (d: CartDto)
    ensures d.id == c.id && d.userId == c.userId && |d.items| == |c.items|
    ensures forall i :: 0 <= i < |c.items| ==>
      d.items[i].productId == c.items[i].productId && d.items[i].quantity == c.items[i].quantity
  {
    CartDto(c.id, c.userId, Seqs.MapSeq(c.items, ItemToDto))
  }

  /** Adding a product the cart already holds adds to the first line for it and adds no line. */
  lemma MergeIntoExistingLine(items: seq<CartItem>, productId: int, quantity: int32, i: nat)
    requires i < |items| && items[i].productId == productId
    requires forall j :: 0 <= j < i ==> items[j].productId != productId
    ensures |Merged(items, productId, quantity)| == |items|
    ensures Merged(items, productId, quantity)[i] == CartItem(productId, WrapAdd(items[i].quantity, quantity))
    ensures forall j :: 0 <= j < |items| && j != i ==> Merged(items, productId, quantity)[j] == items[j]
  {
    var f := FirstLine(items, productId);
    assert f.Some? && f.value == i;
  }

  /** Adding a product the cart does not hold appends exactly one line and keeps the rest. */
  lemma MergeAppendsNewLine(items: seq<CartItem>, productId: int, quantity: int32)
    requires forall j :: 0 <= j < |items| ==> items[j].productId != productId
    ensures Merged(items, productId, quantity) == items + [CartItem(productId, quantity)]
  {
  }

  /** The two cases of the merge together: each line is the old one, with
      `quantity` added when it is the product's line; a line is appended only
      for a product the cart did not hold. */
  lemma MergeLinewise(items: seq<CartItem>, productId: int, quantity: int32)
    requires OneLinePerProduct(items)
    ensures var r := Merged(items, productId, quantity);
      && OneLinePerProduct(r)
      && (|r| == |items| <==> exists j :: 0 <= j < |items| && items[j].productId == productId)
      && (forall j :: 0 <= j < |items| ==>
            r[j] == if items[j].productId == productId
                    then items[j].(quantity := WrapAdd(items[j].quantity, quantity))
                    else items[j])
  {
    var r := Merged(items, productId, quantity);
    match FirstLine(items, productId)
    case Some(i) =>
      MergeIntoExistingLine(items, productId, quantity, i);
      forall a, b | 0 <= a < b < |r| ensures r[a].productId != r[b].productId {
        assert r[a].productId == items[a].productId && r[b].productId == items[b].productId;
      }
    case None =>
      assert r == items + [CartItem(productId, quantity)];
  }

  /** `removeItem` deletes every line of the product and keeps the other lines in order. */
  lemma RemoveDropsOnlyThatProduct(items: seq<CartItem>, productId: int)
    ensures forall x :: x in WithoutProduct(items, productId) <==> x in items && x.productId != productId
    ensures Seqs.Subseq(WithoutProduct(items, productId), items)
  {
    Seqs.KeepMembers(items, (ci: CartItem) => ci.productId != productId);
    Seqs.KeepIsSubseq(items, (ci: CartItem) => ci.productId != productId);
  }

  /** Removing a product the cart does not hold changes nothing. */
  lemma RemoveAbsentIsNoOp(items: seq<CartItem>, productId: int)
    requires forall j :: 0 <= j < |items| ==> items[j].productId != productId
    ensures WithoutProduct(items, productId) == items
  {
    Seqs.KeepEverything(items, (ci: CartItem) => ci.productId != productId);
  }

  lemma {:induction false} RemoveKeepsOneLinePerProduct(items: seq<CartItem>, productId: int)
    requires OneLinePerProduct(items)
    ensures OneLinePerProduct(WithoutProduct(items, productId))
  {
    if items != [] {
      var tail := items[1..];
      var rest := WithoutProduct(tail, productId);
      assert OneLinePerProduct(tail);
      RemoveKeepsOneLinePerProduct(tail, productId);
      RemoveDropsOnlyThatProduct(tail, productId);
      if items[0].productId != productId {
        var r := WithoutProduct(items, productId);
        assert r == [items[0]] + rest;
        forall j | 0 < j < |r| ensures r[j].productId != items[0].productId {
          assert r[j] == rest[j - 1];
          assert r[j] in tail;
        }
      } else {
        assert WithoutProduct(items, productId) == rest;
      }
    }
  }

  /** Overwriting one of the lines with a new quantity keeps one line per product. */
  lemma SetQuantityKeepsOneLinePerProduct(items: seq<CartItem>, i: nat, quantity: int32)
    requires OneLinePerProduct(items) && i < |items|
    ensures OneLinePerProduct(items[i := items[i].(quantity := quantity)])
  {
    var r := items[i := items[i].(quantity := quantity)];
    assert forall j :: 0 <= j < |items| ==> r[j].productId == items[j].productId;
  }

  /** Saving a cart back under its own id, for the same owner and with one line per
      product, keeps the repository's invariants. */
  lemma SaveExistingCart(carts: map<int, Cart>, next: nat, k: int, cart: Cart, saved: map<int, Cart>)
    requires Repository.Keyed(carts, next, IdOf) && Repository.UniqueBy(carts, OwnerOf)
    requires forall j :: j in carts ==> OneLinePerProduct(carts[j].items)
    requires k in carts && cart.id == k && cart.userId == carts[k].userId && OneLinePerProduct(cart.items)
    requires saved == carts[k := cart]
    ensures Repository.Keyed(saved, next, IdOf) && Repository.UniqueBy(saved, OwnerOf)
    ensures forall j :: j in saved ==> OneLinePerProduct(saved[j].items)
  {
    Repository.UniqueAfterUpdate(carts, OwnerOf, k, cart, next);
  }

  /** The cart repository together with the service that works on it. */
  class CartService {
    var carts: map<int, Cart>
    var nextId: nat

    ghost predicate Valid()
      reads this
    {
      && 1 <= nextId
      && Repository.Keyed(carts, nextId, IdOf)
      && Repository.UniqueBy(carts, OwnerOf)
      && forall k :: k in carts ==> OneLinePerProduct(carts[k].items)
    }

    constructor ()
      ensures Valid() && carts == map[] && nextId == 1
    {
      carts := map[];
      nextId := 1;
    }

    /** `cartRepository.findByUserId(userId)`, as the id of the cart. */
    function CartOf(userId: int): Option<int>
      reads this
    {
      Repository.FindBy(carts, OwnerOf, userId, nextId)
    }

    /** `getCart`: the user's cart, created empty and saved when the user has none. */
    method GetCart(userId: int) returns (dto: CartDto)
      requires Valid()
      modifies this
      ensures Valid()
      ensures old(CartOf(userId)).Some? ==>
        carts == old(carts) && nextId == old(nextId) && dto == ToDto(carts[old(CartOf(userId)).value])
      ensures old(CartOf(userId)).None? ==>
        && carts == old(carts)[old(nextId) := Cart(old(nextId), userId, [])]
        && nextId == old(nextId) + 1
        && dto == CartDto(old(nextId), userId, [])
      ensures CartOf(userId).Some? && dto == ToDto(carts[CartOf(userId).value])
    {
      match CartOf(userId)
      case Some(k) =>
        dto := ToDto(carts[k]);
      case None =>
        var cart := Cart(nextId, userId, []);
        Repository.UniqueAfterInsert(carts, OwnerOf, nextId, cart);
        carts := carts[nextId := cart];
        nextId := nextId + 1;
        dto := ToDto(cart);
    }

    /** `addItem`: merge into the user's existing cart; no cart is an error and creates none. */
    method AddItem(userId: int, productId: int, quantity: int32) returns (r: Result<CartDto>)
      requires Valid()
      modifies this
      ensures Valid() && nextId == old(nextId)
      ensures old(CartOf(userId)).None? ==> r == Err(CartNotFound) && carts == old(carts)
      ensures old(CartOf(userId)).Some? ==>
        var k := old(CartOf(userId)).value;
        var cart := old(carts)[k].(items := Merged(old(carts)[k].items, productId, quantity));
        carts == old(carts)[k := cart] && r == Ok(ToDto(cart))
    {
      match CartOf(userId)
      case None =>
        r := Err(CartNotFound);
      case Some(k) =>
        var cart := carts[k].(items := Merged(carts[k].items, productId, quantity));
        MergeLinewise(carts[k].items, productId, quantity);
        SaveExistingCart(carts, nextId, k, cart, carts[k := cart]);
        carts := carts[k := cart];
        r := Ok(ToDto(cart));
    }

    /** `updateItem`: set the quantity of the product's first line; no cart, or
        no line for the product, is an error and saves nothing. */
    method UpdateItem(userId: int, productId: int, quantity: int32) returns (r: Result<CartDto>)
      requires Valid()
      modifies this
      ensures Valid() && nextId == old(nextId)
      ensures old(CartOf(userId)).None? ==> r == Err(CartNotFound) && carts == old(carts)
      ensures old(CartOf(userId)).Some? ==>
        var k := old(CartOf(userId)).value;
        var items := old(carts)[k].items;
        match FirstLine(items, productId)
        case None => r == Err(ItemNotFound) && carts == old(carts)
        case Some(i) =>
          var cart := old(carts)[k].(items := items[i := CartItem(productId, quantity)]);
          carts == old(carts)[k := cart] && r == Ok(ToDto(cart))
    {
      match CartOf(userId)
      case None =>
        r := Err(CartNotFound);
      case Some(k) =>
        var items := carts[k].items;
        match FirstLine(items, productId)
        case None =>
          r := Err(ItemNotFound);
        case Some(i) =>
          var cart := carts[k].(items := items[i := items[i].(quantity := quantity)]);
          SetQuantityKeepsOneLinePerProduct(items, i, quantity);
          SaveExistingCart(carts, nextId, k, cart, carts[k := cart]);
          carts := carts[k := cart];
          r := Ok(ToDto(cart));
    }

    /** `removeItem`: drop every line of the product from the user's existing cart. */
    method RemoveItem(userId: int, productId: int) returns (r: Result<CartDto>)
      requires Valid()
      modifies this
      ensures Valid() && nextId == old(nextId)
      ensures old(CartOf(userId)).None? ==> r == Err(CartNotFound) && carts == old(carts)
      ensures old(CartOf(userId)).Some? ==>
        var k := old(CartOf(userId)).value;
        var cart := old(carts)[k].(items := WithoutProduct(old(carts)[k].items, productId));
        carts == old(carts)[k := cart] && r == Ok(ToDto(cart))
    {
      match CartOf(userId)
      case None =>
        r := Err(CartNotFound);
      case Some(k) =>
        var cart := carts[k].(items := WithoutProduct(carts[k].items, productId));
        RemoveKeepsOneLinePerProduct(carts[k].items, productId);
        SaveExistingCart(carts, nextId, k, cart, carts[k := cart]);
        carts := carts[k := cart];
        r := Ok(ToDto(cart));
    }

    /** `clearCart`: empty the lines of the user's existing cart, keeping the cart record. */
    method ClearCart(userId: int) returns (r: Outcome)
      requires Valid()
      modifies this
      ensures Valid() && nextId == old(nextId)
      ensures old(CartOf(userId)).None? ==> r == Fail(CartNotFound) && carts == old(carts)
      ensures old(CartOf(userId)).Some? ==>
        var k := old(CartOf(userId)).value;
        r == Pass && carts == old(carts)[k := Cart(k, userId, [])]
    {
      match CartOf(userId)
      case None =>
        r := Fail(CartNotFound);
      case Some(k) =>
        var cart := carts[k].(items := []);
        SaveExistingCart(carts, nextId, k, cart, carts[k := cart]);
        carts := carts[k := cart];
        r := Pass;
    }
  }

  /** A new user's first `addItem` fails, and succeeds once `getCart` has created the cart. */
  method FirstAddNeedsGetCart() returns (before: Result<CartDto>, after: Result<CartDto>)
    ensures before == Err(CartNotFound)
    ensures after == Ok(CartDto(1, 7, [CartItemDto(10, 3)]))
  {
    var service := new CartService();
    before := service.AddItem(7, 10, 3);
    var created := service.GetCart(7);
    assert service.carts == map[1 := Cart(1, 7, [])];
    assert Merged([], 10, 3) == [CartItem(10, 3)];
    assert Seqs.MapSeq([CartItem(10, 3)], ItemToDto) == [CartItemDto(10, 3)];
    after := service.AddItem(7, 10, 3);
  }
}
