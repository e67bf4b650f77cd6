/** The display helpers and handlers of the orders page
    (app/orders/page.tsx): the status badge colour and label, when the
    cancel button is offered, the short order number, and how the fetched
    order list and its error message are kept. */
module OrdersPage {
  import opened Domain
  import opened Text

  datatype OrderedItem = OrderedItem(id: string, name: string, price: int, quantity: int)

  datatype Order = Order(
    id: string, items: seq<OrderedItem>, totalAmount: int, status: string,
    deliveryAddress: string, createdAt: string, restaurantId: string)

  const Yellow := "bg-yellow-500/80"
  const Blue := "bg-blue-500/80"
  const Orange := "bg-orange-500/80"
  const Purple := "bg-purple-500/80"
  const Green := "bg-green-500/80"
  const Red := "bg-red-500/80"
  const Gray := "bg-gray-500/80"

  /** The statuses the badge knows, each with its own colour. */
  const Statuses: seq<string> :=
    ["pending", "confirmed", "preparing", "out_for_delivery", "delivered", "cancelled"]
  const StatusColors: seq<string> := [Yellow, Blue, Orange, Purple, Green, Red]

  /** The `switch` of `getStatusColor` on an already lower-cased status. */
  function ColorOfLowered(s: string): string
  {
    if s == "pending" then Yellow
    else if s == "confirmed" then Blue
    else if s == "preparing" then Orange
    else if s == "out_for_delivery" then Purple
    else if s == "delivered" then Green
    else if s == "cancelled" then Red
    else Gray
  }

  /** `getStatusColor`: the status is lower-cased before the lookup; a known
      status gets its own colour and anything else gets gray. */
  function StatusColor(status: string): (c: string)
    ensures forall i :: 0 <= i < |Statuses| && Lower(status) == Statuses[i] ==> c == StatusColors[i]
    ensures c == Gray <==> Lower(status) !in Statuses
  {
    ColorOfLowered(Lower(status))
  }

  /** The colour does not depend on letter case. */
  lemma ColorIgnoresCase(status: string)
    ensures StatusColor(status) == StatusColor(Lower(status))
  {
    LowerIdempotent(status);
  }

  lemma LowerOfLowerCase(s: string)
    requires forall k :: 0 <= k < |s| ==> !('A' <= s[k] <= 'Z')
    ensures Lower(s) == s
  {
  }

  /** The six known statuses get six different colours, none of them gray. */
  lemma ColorsDistinct(i: nat, j: nat)
    requires i < |Statuses| && j < |Statuses|
    ensures StatusColor(Statuses[i]) == StatusColors[i] && StatusColors[i] != Gray
    ensures i != j ==> StatusColor(Statuses[i]) != StatusColor(Statuses[j])
  {
    LowerOfLowerCase(Statuses[i]);
    LowerOfLowerCase(Statuses[j]);
  }

  /** Index of the first `c` in `s`, or -1 when there is none. */
  function IndexOf(s: string, c: char): (k: int)
    ensures -1 <= k < |s|
    ensures k == -1 <==> c !in s
    ensures k >= 0 ==> s[k] == c && c !in s[..k]
  {
    if s == [] then -1
    else if s[0] == c then 0
    else
      var k := IndexOf(s[1..], c);
      assert k >= 0 ==> s[..k + 1] == [s[0]] + s[1..][..k];
      if k == -1 then -1 else k + 1
  }

  /** `s.replace(from, to)` with a one-character string pattern: only the
      first occurrence is replaced. */
  function ReplaceFirst(s: string, from: char, to: char): (r: string)
    ensures |r| == |s|
    ensures from !in s ==> r == s
    ensures from in s ==> r == s[IndexOf(s, from) := to]
  {
    var k := IndexOf(s, from);
    if k == -1 then s else s[k := to]
  }

  /** The badge text `status.replace('_', ' ').toUpperCase()`: the first
      underscore becomes a space, every letter is upper-cased, and any later
      underscore stays. */
  function StatusLabel(status: string): (r: string)
    ensures |r| == |status|
    ensures forall k :: 0 <= k < |status| && k != IndexOf(status, '_') ==> r[k] == UpperChar(status[k])
    ensures '_' in status ==> r[IndexOf(status, '_')] == ' '
  {
    Upper(ReplaceFirst(status, '_', ' '))
  }

  /** Only the first underscore turns into a space: whatever follows it is
      upper-cased with its own underscores kept. */
  lemma LabelSplitsAtFirstUnderscore(a: string, b: string)
    requires '_' !in a
    ensures StatusLabel(a + "_" + b) == Upper(a) + " " + Upper(b)
  {
    var s := a + "_" + b;
    assert IndexOf(s, '_') == |a| by {
      assert s[|a|] == '_';
    }
    var spaced := ReplaceFirst(s, '_', ' ');
    assert spaced == a + " " + b;
    var r := StatusLabel(s);
    assert r == Upper(spaced);
    assert r == Upper(a) + " " + Upper(b);
  }

  /** `out_for_delivery` is shown as `OUT FOR_DELIVERY`. */
  lemma LabelKeepsLaterUnderscores()
    ensures StatusLabel("out_for_delivery") == "OUT FOR_DELIVERY"
  {
    var s := "out_for_delivery";
    assert s == "out" + "_" + "for_delivery";
    LabelSplitsAtFirstUnderscore("out", "for_delivery");
    UpperLiterals();
    assert StatusLabel(s) == Upper("out") + " " + Upper("for_delivery");
  }

  lemma UpperLiterals()
    ensures Upper("out") + " " + Upper("for_delivery") == "OUT FOR_DELIVERY"
  {
    assert Upper("out") == "OUT";
    assert Upper("for_delivery")[0] == 'F';
  }

  /** `s` with every `from` replaced by `to`. */
  function ReplaceAll(s: string, from: char, to: char): (r: string)
    ensures |r| == |s|
    ensures forall k :: 0 <= k < |s| ==> r[k] == if s[k] == from then to else s[k]
  {
    seq(|s|, k requires 0 <= k < |s| => if s[k] == from then to else s[k])
  }

  /** The label with every underscore turned into a space. */
  function StatusLabelAll(status: string): (r: string)
    ensures |r| == |status|
    ensures '_' !in r
    ensures forall k :: 0 <= k < |status| && status[k] == '_' ==> r[k] == ' '
    ensures forall k :: 0 <= k < |status| && status[k] != '_' ==> r[k] == UpperChar(status[k])
  {
    var r := Upper(ReplaceAll(status, '_', ' '));
    assert forall k :: 0 <= k < |r| ==> r[k] != '_';
    r
  }

  lemma LabelAllOutForDelivery()
    ensures StatusLabelAll("out_for_delivery") == "OUT FOR DELIVERY"
  {
  }

  /** The cancel button is offered only for the exact status `pending`. */
  predicate CanCancel(status: string)
    ensures CanCancel(status) ==> StatusColor(status) == Yellow
  {
    if status == "pending" then
      LowerOfLowerCase(status);
      true
    else false
  }

  /** Cancelling is case-sensitive while the colour is not: `PENDING` shows
      the pending colour without being cancellable. */
  lemma CancelIsCaseSensitive()
    ensures StatusColor("PENDING") == Yellow && !CanCancel("PENDING")
  {
    assert Lower("PENDING") == "pending";
  }

  /** The order number shown, `_id.slice(-6)`: the last six characters, or
      the whole id when it is shorter. */
  function ShortId(id: string): (r: string)
    ensures |r| == if |id| < 6 then |id| else 6
    ensures r == id[|id| - |r|..]
  {
    if |id| < 6 then id else id[|id| - 6..]
  }

  /** Ids that end alike show the same number: whatever precedes the last
      six characters is dropped, a short id is shown whole, and the number
      of a number is itself. */
  lemma ShortIdSuffix(prefix: string, id: string)
    ensures |id| >= 6 ==> ShortId(prefix + id) == ShortId(id)
    ensures |id| < 6 ==> ShortId(id) == id
    ensures ShortId(ShortId(id)) == ShortId(id)
  {
    if |id| >= 6 {
      assert (prefix + id)[|prefix + id| - 6..] == id[|id| - 6..];
    }
  }

  /** What the page keeps about the order list. */
  datatype View = View(orders: seq<Order>, loading: bool, error: string)

  /** The page's initial state, before the first fetch. */
  const Initial := View([], true, "")

  /** How the order-list request settles: a reply whose `orders` field may
      be missing, or a thrown error that may carry a backend message. */
  datatype Fetched = Loaded(orders: Option<seq<Order>>) | FetchThrew(message: Option<string>)

  /** `fetchOrders`: a reply replaces the list (a missing list is empty); a
      failure keeps the list and sets the error message. The error is never
      cleared, not even by a later successful fetch. */
  function FetchOrders(v: View, f: Fetched): (r: View)
    ensures !r.loading
    ensures f.Loaded? && f.orders.Some? ==> r.orders == f.orders.value
    ensures f.Loaded? && f.orders.None? ==> r.orders == []
    ensures f.Loaded? ==> r.error == v.error
    ensures f.FetchThrew? ==> (
      && r.orders == v.orders
      && r.error == FailureMessage(f.message, "Failed to load orders"))
  {
    match f
    case Loaded(o) => v.(orders := if o.Some? then o.value else [], loading := false)
    case FetchThrew(m) => v.(loading := false, error := FailureMessage(m, "Failed to load orders"))
  }

  /** `handleCancelOrder`: after the cancel request succeeds the list is
      fetched again; a failed cancel changes nothing on the page. */
  function CancelOrder(v: View, orderId: string, cancel: string -> bool, refetch: Fetched): (r: View)
    ensures !cancel(orderId) ==> r == v
    ensures cancel(orderId) ==> !r.loading
    ensures cancel(orderId) && refetch.Loaded? ==>
      r.orders == Shown(refetch.orders) && r.error == v.error
    ensures cancel(orderId) && refetch.FetchThrew? ==>
      r.orders == v.orders && r.error == FailureMessage(refetch.message, "Failed to load orders")
  {
    if cancel(orderId) then FetchOrders(v, refetch) else v
  }

  /** `response.data.orders || []`: the list a reply puts on the page. */
  function Shown(orders: Option<seq<Order>>): seq<Order>
  {
    if orders.Some? then orders.value else []
  }

  /** The page after a history of fetches, each settling in turn. */
  function Replay(v: View, fs: seq<Fetched>): View
    decreases |fs|
  {
    if fs == [] then v else Replay(FetchOrders(v, fs[0]), fs[1..])
  }

  /** The error of the last failed fetch, or `init` when none failed. */
  function LastError(init: string, fs: seq<Fetched>): string
    decreases |fs|
  {
    if fs == [] then init
    else if fs[|fs| - 1].FetchThrew? then
      FailureMessage(fs[|fs| - 1].message, "Failed to load orders")
    else LastError(init, fs[..|fs| - 1])
  }

  /** The list of the last successful fetch, or `init` when none succeeded. */
  function LastOrders(init: seq<Order>, fs: seq<Fetched>): seq<Order>
    decreases |fs|
  {
    if fs == [] then init
    else if fs[|fs| - 1].Loaded? then Shown(fs[|fs| - 1].orders)
    else LastOrders(init, fs[..|fs| - 1])
  }

  /** Replaying one more fetch is fetching once more from the replayed page. */
  lemma {:induction false} ReplaySnoc(v: View, fs: seq<Fetched>, f: Fetched)
    ensures Replay(v, fs + [f]) == FetchOrders(Replay(v, fs), f)
    decreases |fs|
  {
    if fs != [] {
      assert (fs + [f])[1..] == fs[1..] + [f];
      ReplaySnoc(FetchOrders(v, fs[0]), fs[1..], f);
    }
  }

  /** Over any history of fetches, the page shows the list of the last
      successful fetch and the message of the last failed one: a later
      success never clears an earlier error. */
  lemma {:induction false} ReplayShowsLast(v: View, fs: seq<Fetched>)
    ensures Replay(v, fs).orders == LastOrders(v.orders, fs)
    ensures Replay(v, fs).error == LastError(v.error, fs)
    ensures fs != [] ==> !Replay(v, fs).loading
    decreases |fs|
  {
    if fs != [] {
      var p := fs[..|fs| - 1];
      assert fs == p + [fs[|fs| - 1]];
      ReplaySnoc(v, p, fs[|fs| - 1]);
      ReplayShowsLast(v, p);
    }
  }

  /** What the page shows once its first fetch on mount settles: the reply's
      list with no error, or an empty list with the failure's message. */
  lemma FirstFetch(f: Fetched)
    ensures f.Loaded? ==> Replay(Initial, [f]) == View(Shown(f.orders), false, "")
    ensures f.FetchThrew? ==>
      Replay(Initial, [f]) == View([], false, FailureMessage(f.message, "Failed to load orders"))
  {
    ReplayShowsLast(Initial, [f]);
  }

  /** After a failed fetch, any number of successful retries still show
      that failure's message. */
  lemma RetryKeepsError(v: View, fs: seq<Fetched>, retries: seq<Fetched>)
    requires forall k :: 0 <= k < |retries| ==> retries[k].Loaded?
    ensures Replay(v, fs + retries).error == Replay(v, fs).error
  {
    ReplayShowsLast(v, fs + retries);
    ReplayShowsLast(v, fs);
    LastErrorSkipsLoads(v.error, fs, retries);
  }

  lemma {:induction false} LastErrorSkipsLoads(init: string, fs: seq<Fetched>, retries: seq<Fetched>)
    requires forall k :: 0 <= k < |retries| ==> retries[k].Loaded?
    ensures LastError(init, fs + retries) == LastError(init, fs)
    decreases |retries|
  {
    if retries != [] {
      var q := retries[..|retries| - 1];
      assert (fs + retries)[..|fs + retries| - 1] == fs + q;
      assert (fs + retries)[|fs + retries| - 1] == retries[|retries| - 1];
      LastErrorSkipsLoads(init, fs, q);
    } else {
      assert fs + retries == fs;
    }
  }
}
