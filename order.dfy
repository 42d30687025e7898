/** The order service: orders are saved as given, then the buyer is notified on a
    best-effort basis; a failing notification never fails the order. */
module Orders {
  import opened Wrappers
  import opened JavaInt
  import Repository
  import Seqs
  import Text

  /** A line of an order. `order` is the back-reference `OrderItem.setOrder`
      points at, written as the id of the owning order. */
  datatype OrderItem = OrderItem(productId: int, quantity: int32, price: int32, order: Option<int>)

  datatype Order = Order(id: int, userId: int, total: int32, status: string, items: seq<OrderItem>)

  datatype OrderItemDto = OrderItemDto(productId: int, quantity: int32, price: int32)
  datatype OrderDto = OrderDto(id: int, userId: int, total: int32, status: string, items: seq<OrderItemDto>)

  const NotFound := "Not found"
  const InitialStatus := "NEW"
  const Subject := "Your order successfully created"

  /** The body of the notification for the order with this id. */
  function NotificationText(orderId: int): (r: string)
    ensures Text.StartsWith(r, "Your order #")
    ensures |r| > |"Your order #"| + |" successfully created!"|
    ensures r[|r| - |" successfully created!"|..] == " successfully created!"
    ensures r[|"Your order #"|..|r| - |" successfully created!"|] == Text.DecimalString(orderId)
  {
    "Your order #" + Text.DecimalString(orderId) + " successfully created!"
  }

  /** The text names its order: the id can be read back from it, so two orders
      never get the same text. */
  lemma NotificationTextNamesOrder(a: int, b: int)
    ensures Text.ReadDecimal(NotificationText(a)[|"Your order #"|..|NotificationText(a)| - |" successfully created!"|]) == a
    ensures NotificationText(a) == NotificationText(b) ==> a == b
  {
    Text.DecimalRoundTrip(a);
    Text.DecimalRoundTrip(b);
  }

  /** The part of a URL before its first '#': a '#' starts the fragment, which is
      not sent with the request. */
  function BeforeFragment(s: string): (r: string)
    ensures '#' !in r
    ensures |r| <= |s| && s[..|r|] == r
    ensures |r| < |s| ==> s[|r|] == '#'
  {
    if s == [] then []
    else if s[0] == '#' then []
    else [s[0]] + BeforeFragment(s[1..])
  }

  lemma {:induction false} BeforeFragmentAppend(a: string, b: string)
    requires '#' !in a
    ensures BeforeFragment(a + b) == a + BeforeFragment(b)
  {
    if a != [] {
      assert a[0] in a;
      assert forall c :: c in a[1..] ==> c in a;
      assert (a + b)[0] == a[0] && (a + b)[1..] == a[1..] + b;
      BeforeFragmentAppend(a[1..], b);
      assert BeforeFragment(a + b) == [a[0]] + BeforeFragment(a[1..] + b);
      assert a == [a[0]] + a[1..];
    } else {
      assert a + b == b;
    }
  }

  /** The `text` parameter the notification backend receives. `sendOrderNotification`
      pastes the text into the URL unencoded, and the text is the last parameter,
      so, for an email without '#', the backend receives what comes before the
      text's first '#'. (A '#' in the email would cut the URL earlier still.) */
  function ReceivedText(orderId: int): string
  {
    BeforeFragment(NotificationText(orderId))
  }

  /** As written, every order's notification arrives as "Your order ": the id never
      reaches the buyer. */
  lemma ReceivedTextLosesId(orderId: int)
    ensures ReceivedText(orderId) == "Your order "
  {
    var d := Text.DecimalString(orderId);
    var rest := "#" + d + " successfully created!";
    assert "Your order #" == "Your order " + "#";
    assert NotificationText(orderId) == "Your order " + rest;
    BeforeFragmentAppend("Your order ", rest);
  }

  /** So the received text cannot tell two orders apart. */
  lemma ReceivedTextSameForAll(a: int, b: int)
    ensures ReceivedText(a) == ReceivedText(b)
  {
    ReceivedTextLosesId(a);
    ReceivedTextLosesId(b);
  }

  /** The notification `sendOrderNotification` composes; what the backend receives is `ReceivedText`. */
  datatype NotificationRequest = NotificationRequest(email: string, subject: string, text: string)

  /** How the notification call ended: answered, or any exception it threw. */
  datatype Delivery = Delivered | Failed(reason: string)

  /** The service's effects on the outside world, in the order they happen. */
  datatype Event = Saved(orderId: int) | Deleted(orderId: int) | NotificationCall(request: NotificationRequest, outcome: Delivery)

  function IdOf(o: Order): int { o.id }

  function ItemToDto(oi: OrderItem): OrderItemDto
  {
    OrderItemDto(oi.productId, oi.quantity, oi.price)
  }

  /** `toDto`: id, owner, total and status as stored, and each line's product, quantity and price in order. */
  function ToDto(o: Order): (d: OrderDto)
    ensures d.id == o.id && d.userId == o.userId && d.total == o.total && d.status == o.status
    ensures |d.items| == |o.items|
    ensures forall i :: 0 <= i < |o.items| ==>
      d.items[i] == OrderItemDto(o.items[i].productId, o.items[i].quantity, o.items[i].price)
  {
    OrderDto(o.id, o.userId, o.total, o.status, Seqs.MapSeq(o.items, ItemToDto))
  }

  /** `orderRepository.findByUserId(userId)` over the orders in repository order. */
  function ByUser(all: seq<Order>, userId: int): seq<Order>
  {
    Seqs.Keep(all, (o: Order) => o.userId == userId)
  }

  /** `getOrdersByUser` finds exactly the user's orders, in the order they were
      saved, and none for a user without orders. */
  lemma OrdersByUserExact(m: map<int, Order>, next: nat, userId: int)
    requires Repository.Keyed(m, next, IdOf)
    ensures var r := ByUser(Repository.Listing(m, next), userId);
      && (forall o :: o in r <==> (exists k :: k in m && m[k] == o) && o.userId == userId)
      && (forall i, j :: 0 <= i < j < |r| ==> r[i].id < r[j].id)
      && ((forall k :: k in m ==> m[k].userId != userId) ==> r == [])
  {
    var all := Repository.Listing(m, next);
    var f := (o: Order) => o.userId == userId;
    Repository.ListingMembers(m, next);
    Repository.ListingAscending(m, next, IdOf, next);
    Seqs.KeepMembers(all, f);
    Seqs.KeepAscending(all, f, IdOf);
    var r := ByUser(all, userId);
    forall o ensures o in r <==> (exists k :: k in m && m[k] == o) && o.userId == userId {
      if exists k :: k in m && m[k] == o {
        var k :| k in m && m[k] == o;
        assert 0 <= k < next;
      }
    }
    if forall k :: k in m ==> m[k].userId != userId {
      Seqs.KeepNothing(all, f);
    }
  }

  /** `items.forEach(i -> i.setOrder(order))`: every line now points at the order. */
  method AttachItems(items: seq<OrderItem>, orderId: int) returns (attached: seq<OrderItem>)
    ensures |attached| == |items|
    ensures forall i :: 0 <= i < |items| ==> attached[i] == items[i].(order := Some(orderId))
  {
    attached := [];
    var n := 0;
    while n < |items|
      invariant 0 <= n <= |items| && |attached| == n
      invariant forall i :: 0 <= i < n ==> attached[i] == items[i].(order := Some(orderId))
    {
      attached := attached + [items[n].(order := Some(orderId))];
      n := n + 1;
    }
  }

  /** The order repository, the service on it, and the record of its effects. */
  class OrderService {
    var orders: map<int, Order>
    var nextId: nat
    var events: seq<Event>

    /** Ids as assigned by the repository, and every stored line points back at its order. */
    ghost predicate Valid()
      reads this
    {
      && 1 <= nextId
      && Repository.Keyed(orders, nextId, IdOf)
      && forall k, i :: k in orders && 0 <= i < |orders[k].items| ==> orders[k].items[i].order == Some(k)
    }

    constructor ()
      ensures Valid() && orders == map[] && nextId == 1 && events == []
    {
      orders := map[];
      nextId := 1;
      events := [];
    }

    /** `getOrdersByUser`. */
    function GetOrdersByUser(userId: int): (r: seq<OrderDto>)
      reads this
      ensures forall d :: d in r ==> exists k :: k in orders && orders[k].userId == userId && ToDto(orders[k]) == d
    {
      Seqs.MapSeq(ByUser(Repository.Listing(orders, nextId), userId), ToDto)
    }

    /** `getAllOrders`. */
    function GetAllOrders(): (r: seq<OrderDto>)
      reads this
      ensures forall d :: d in r ==> exists k :: k in orders && ToDto(orders[k]) == d
    {
      Seqs.MapSeq(Repository.Listing(orders, nextId), ToDto)
    }

    /** `getAllOrders` gives the DTO of every stored order and nothing else, in strictly
        ascending id order (so each order once), and nothing for an empty store. */
    lemma GetAllOrdersExact()
      requires Valid()
      ensures forall d :: d in GetAllOrders() <==> exists k :: k in orders && ToDto(orders[k]) == d
      ensures forall i, j :: 0 <= i < j < |GetAllOrders()| ==> GetAllOrders()[i].id < GetAllOrders()[j].id
      ensures orders == map[] ==> GetAllOrders() == []
    {
      var all := Repository.Listing(orders, nextId);
      Repository.ListingMembers(orders, nextId);
      Repository.ListingAscending(orders, nextId, IdOf, nextId);
      forall d | exists k :: k in orders && ToDto(orders[k]) == d ensures d in GetAllOrders() {
        var k :| k in orders && ToDto(orders[k]) == d;
        assert 0 <= k < nextId;
        assert orders[k] in all;
        var i :| 0 <= i < |all| && all[i] == orders[k];
        assert GetAllOrders()[i] == d;
      }
      if orders == map[] {
        Repository.ListingOfEmpty(orders, nextId);
      }
    }

    /** `getOrder`: the stored order, or "Not found". */
    function GetOrder(id: int): (r: Result<OrderDto>)
      reads this
      ensures r.Ok? <==> id in orders
      ensures r.Ok? ==> r.value == ToDto(orders[id])
      ensures r.Err? ==> r.message == NotFound
    {
      if id in orders then Ok(ToDto(orders[id])) else Err(NotFound)
    }

    /** `createOrder`: save the order exactly as given with status "NEW", then ask
        `send` to notify the buyer; whatever `send` does, the saved order is returned. */
    method CreateOrder(userId: int, userEmail: string, items: seq<OrderItem>, total: int32,
                       send: NotificationRequest -> Delivery) returns (dto: OrderDto)
      requires Valid()
      modifies this
      ensures Valid()
      ensures var id := old(nextId);
        && nextId == id + 1
        && id in orders && orders == old(orders)[id := orders[id]]
        && orders[id].id == id && orders[id].userId == userId && orders[id].total == total
        && orders[id].status == InitialStatus
        && |orders[id].items| == |items|
        && (forall i :: 0 <= i < |items| ==> orders[id].items[i] == items[i].(order := Some(id)))
        && dto == ToDto(orders[id])
      ensures var id := old(nextId);
        var request := NotificationRequest(userEmail, Subject, NotificationText(id));
        events == old(events) + [Saved(id), NotificationCall(request, send(request))]
    {
      var id := nextId;
      var attached := AttachItems(items, id);
      var order := Order(id, userId, total, InitialStatus, attached);
      orders := orders[id := order];
      nextId := nextId + 1;
      events := events + [Saved(id)];
      var request := NotificationRequest(userEmail, Subject, NotificationText(id));
      var outcome := send(request);
      events := events + [NotificationCall(request, outcome)];
      dto := ToDto(order);
    }

    /** `updateStatus`: overwrite the status with any string and save; an unknown id
        is "Not found" and writes nothing. */
    method UpdateStatus(id: int, status: string) returns (r: Outcome)
      requires Valid()
      modifies this
      ensures Valid() && nextId == old(nextId)
      ensures id !in old(orders) ==> r == Fail(NotFound) && orders == old(orders) && events == old(events)
      ensures id in old(orders) ==>
        && r == Pass
        && orders == old(orders)[id := old(orders)[id].(status := status)]
        && events == old(events) + [Saved(id)]
    {
      if id !in orders {
        r := Fail(NotFound);
      } else {
        orders := orders[id := orders[id].(status := status)];
        events := events + [Saved(id)];
        r := Pass;
      }
    }

    /** `deleteOrder`: `deleteById` with no existence check; an unknown id changes nothing. */
    method DeleteOrder(id: int)
      requires Valid()
      modifies this
      ensures Valid() && nextId == old(nextId)
      ensures orders == old(orders) - {id}
      ensures events == old(events) + [Deleted(id)]
    {
      orders := orders - {id};
      events := events + [Deleted(id)];
    }
  }

  /** A notifier that always throws does not stop the order from being created. */
  method CreateSurvivesFailingNotifier() returns (dto: OrderDto, stored: Result<OrderDto>)
    ensures dto.id == 1 && dto.userId == 1 && dto.total == 100 && dto.status == InitialStatus
    ensures dto.items == [OrderItemDto(1, 1, 100)]
    ensures stored == Ok(dto)
  {
    var service := new OrderService();
    var items := [OrderItem(1, 1, 100, None)];
    dto := service.CreateOrder(1, "user@test.com", items, 100, (r: NotificationRequest) => Failed("Network error"));
    assert service.orders[1].items[0] == OrderItem(1, 1, 100, Some(1));
    assert dto.items[0] == OrderItemDto(1, 1, 100);
    stored := service.GetOrder(1);
  }
}
