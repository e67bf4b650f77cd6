/** Entities shared by the stores and pages: the catalogue item, the cart
    line, the user record, and the small JavaScript conventions (nullable
    values, truthiness, `message || fallback`) that several files rely on. */
module Domain {

  /** A nullable value (`T | null` / an optional property). */
  datatype Option<+T> = None | Some(value: T)

  /** A dish offered by a restaurant. `price` is in minor currency units so
      that totals are exact. */
  datatype MenuItem = MenuItem(
    id: string,
    name: string,
    description: string,
    price: int,
    category: string,
    image: Option<string>,
    isAvailable: bool,
    restaurantId: string)

  /** A menu item in the cart together with the chosen quantity. */
  datatype CartItem = CartItem(item: MenuItem, quantity: int)
  {
    function Id(): string { item.id }
    function Price(): int { item.price }
    /** What this line contributes to the cart total. */
    function LineTotal(): int { item.price * quantity }
  }

  datatype Role = Customer | Owner | Admin

  datatype User = User(id: string, email: string, name: string, role: Role, number: int)

  /** JavaScript truthiness of a nullable string: `null` and `""` are falsy. */
  predicate Truthy(s: Option<string>)
  {
    s.Some? && s.value != ""
  }

  /** The message a caught error is reported with:
      `error.response?.data?.message || fallback`. */
  function FailureMessage(backend: Option<string>, fallback: string): (r: string)
    ensures Truthy(backend) ==> r == backend.value
    ensures !Truthy(backend) ==> r == fallback
    ensures fallback != "" ==> r != ""
  {
    if Truthy(backend) then backend.value else fallback
  }
}
