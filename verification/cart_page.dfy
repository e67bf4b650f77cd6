/** The handlers of the cart page (app/cart/page.tsx): placing an order from
    the cart, and the minus, plus and remove buttons on each line. The order
    backend enters as an oracle from the request payload to its reply. */
module CartPage {
  import opened Domain
  import opened Text
  import opened Cart

  /** One entry of the order request: `{ foodItemId, quantity, price }`. */
  datatype OrderLine = OrderLine(foodItemId: string, quantity: int, price: int)

  /** The order request body: `{ items, totalAmount, deliveryAddress }`. */
  datatype OrderPayload = OrderPayload(items: seq<OrderLine>, totalAmount: int, deliveryAddress: string)

  /** How the order request settles. */
  datatype PlaceReply = Accepted | Failed(message: Option<string>)

  /** The alert a blank delivery address raises. */
  const AddressPrompt := "Please enter delivery address"

  datatype Outcome =
    | AddressMissing(alert: string)
    | OrderPlaced(payload: OrderPayload)
    | OrderFailed(payload: OrderPayload, alert: string)

  /** The cart after the handler, and what the user was shown. */
  datatype Checkout = Checkout(cart: Items, outcome: Outcome)

  /** `items.map(item => ({ foodItemId: item._id, quantity: item.quantity, price: item.price }))` */
  function Lines(items: Items): (r: seq<OrderLine>)
    ensures |r| == |items|
    ensures forall k :: 0 <= k < |r| ==>
      r[k] == OrderLine(items[k].Id(), items[k].quantity, items[k].Price())
  {
    if items == [] then []
    else [OrderLine(items[0].Id(), items[0].quantity, items[0].Price())] + Lines(items[1..])
  }

  /** The order request built from the cart and the typed address. */
  function Payload(items: Items, address: string): (p: OrderPayload)
    ensures |p.items| == |items|
    ensures forall k :: 0 <= k < |items| ==>
      && p.items[k].foodItemId == items[k].Id()
      && p.items[k].quantity == items[k].quantity
      && p.items[k].price == items[k].Price()
    ensures p.totalAmount == Total(items)
    ensures p.deliveryAddress == Trim(address)
  {
    OrderPayload(Lines(items), Total(items), Trim(address))
  }

  /** The amount the request's own lines add up to. */
  function LinesTotal(lines: seq<OrderLine>): int
  {
    if lines == [] then 0 else lines[0].price * lines[0].quantity + LinesTotal(lines[1..])
  }

  /** The request's `totalAmount` agrees with its own lines. */
  lemma {:induction false} PayloadTotalMatchesLines(items: Items, address: string)
    ensures Payload(items, address).totalAmount == LinesTotal(Payload(items, address).items)
  {
    LinesTotalOf(items);
  }

  lemma {:induction false} LinesTotalOf(items: Items)
    ensures LinesTotal(Lines(items)) == Total(items)
  {
    if items != [] {
      LinesTotalOf(items[1..]);
      assert Lines(items)[1..] == Lines(items[1..]);
    }
  }

  /** `handlePlaceOrder`: a blank address stops before any request; otherwise
      the request is sent and the cart is cleared only when it is accepted;
      a failure leaves the cart as it was and alerts the backend message or
      'Failed to place order'. */
  function PlaceOrder(items: Items, address: string, place: OrderPayload -> PlaceReply): (r: Checkout)
    ensures IsBlank(address) ==> r == Checkout(items, AddressMissing(AddressPrompt))
    ensures !IsBlank(address) ==>
      !r.outcome.AddressMissing? && r.outcome.payload == Payload(items, address)
    ensures !IsBlank(address) ==>
      !r.outcome.AddressMissing? && r.outcome.payload.deliveryAddress != ""
    ensures !IsBlank(address) && place(Payload(items, address)).Accepted? ==>
      r.outcome.OrderPlaced? && r.cart == []
    ensures !IsBlank(address) && place(Payload(items, address)).Failed? ==>
      && r.cart == items
      && r.outcome == OrderFailed(Payload(items, address),
          FailureMessage(place(Payload(items, address)).message, "Failed to place order"))
    ensures r.cart != items ==> r.outcome.OrderPlaced?
  {
    if IsBlank(address) then Checkout(items, AddressMissing(AddressPrompt))
    else
      var payload := Payload(items, address);
      match place(payload)
      case Accepted => Checkout(ClearCart(items), OrderPlaced(payload))
      case Failed(m) => Checkout(items, OrderFailed(payload, FailureMessage(m, "Failed to place order")))
  }

  /** The minus button of a line: `updateQuantity(id, quantity - 1)`. At
      quantity 1 (or less) it removes the line. */
  function Decrease(items: Items, line: CartItem): (r: Items)
    ensures line.quantity <= 1 ==> (
      && !HasId(r, line.Id())
      && (forall c :: c in r <==> c in items && c.Id() != line.Id()))
    ensures line.quantity > 1 ==> (
      && |r| == |items|
      && (forall k :: 0 <= k < |items| && items[k].Id() == line.Id() ==>
        r[k] == items[k].(quantity := line.quantity - 1))
      && (forall k :: 0 <= k < |items| && items[k].Id() != line.Id() ==> r[k] == items[k]))
    ensures Valid(items) ==> Valid(r)
  {
    UpdateQuantity(items, line.Id(), line.quantity - 1)
  }

  /** The plus button of a line: `updateQuantity(id, quantity + 1)`. */
  function Increase(items: Items, line: CartItem): (r: Items)
    ensures line.quantity >= 0 ==> (
      && |r| == |items|
      && (forall k :: 0 <= k < |items| && items[k].Id() == line.Id() ==>
        r[k] == items[k].(quantity := line.quantity + 1))
      && (forall k :: 0 <= k < |items| && items[k].Id() != line.Id() ==> r[k] == items[k]))
    ensures Valid(items) ==> Valid(r)
  {
    UpdateQuantity(items, line.Id(), line.quantity + 1)
  }

  /** The remove button of a line: `removeItem(id)`. */
  function Discard(items: Items, line: CartItem): (r: Items)
    ensures !HasId(r, line.Id())
    ensures forall c :: c in r <==> c in items && c.Id() != line.Id()
  {
    RemoveItem(items, line.Id())
  }

  /** In a cart with unique ids, the remove button cuts out exactly that line
      and keeps the others in order. */
  lemma DiscardCutsLine(items: Items, k: nat)
    requires UniqueIds(items) && k < |items|
    ensures Discard(items, items[k]) == items[..k] + items[k + 1..]
  {
    RemoveAt(items, k, items[k].Id());
  }

  /** In a cart with unique ids, the minus button on a line of quantity 1 (or
      less) cuts out exactly that line and keeps the others in order. */
  lemma DecreaseCutsLine(items: Items, k: nat)
    requires UniqueIds(items) && k < |items| && items[k].quantity <= 1
    ensures Decrease(items, items[k]) == items[..k] + items[k + 1..]
  {
    RemoveAt(items, k, items[k].Id());
  }

  /** On a line of a valid cart the plus button does what adding the same
      menu item again does. */
  lemma IncreaseIsAdd(items: Items, k: nat)
    requires Valid(items) && k < |items|
    ensures Increase(items, items[k]) == AddItem(items, items[k].item)
  {
    var line := items[k];
    assert line in items;
    var a := AddItem(items, line.item);
    var b := Increase(items, line);
    AddAt(items, k, line.item);
    UpdateAt(items, k, line.Id(), line.quantity + 1);
    assert forall j :: 0 <= j < |items| ==> a[j] == b[j];
  }

  /** On a line of a valid cart the minus button lowers the total by the
      line's price, whether the line stays or (at quantity 1) goes. */
  lemma DecreaseTotal(items: Items, k: nat)
    requires Valid(items) && k < |items|
    ensures Total(Decrease(items, items[k])) == Total(items) - items[k].Price()
  {
    assert items[k].quantity >= 1 by { assert items[k] in items; }
    if items[k].quantity > 1 {
      DecreaseKept(items, k);
    } else {
      DecreaseDropped(items, k);
    }
  }

  lemma DecreaseKept(items: Items, k: nat)
    requires UniqueIds(items) && k < |items| && items[k].quantity > 1
    ensures Total(Decrease(items, items[k])) == Total(items) - items[k].Price()
  {
    var line := items[k];
    TotalAfterUpdate(items, k, line.Id(), line.quantity - 1);
    MinusOne(line.Price(), line.quantity);
  }

  lemma DecreaseDropped(items: Items, k: nat)
    requires UniqueIds(items) && k < |items| && items[k].quantity == 1
    ensures Total(Decrease(items, items[k])) == Total(items) - items[k].Price()
  {
    TotalAfterRemove(items, k, items[k].Id());
  }

  lemma MinusOne(p: int, q: int)
    ensures p * (q - 1 - q) == -p
  {
  }
}
