# Food-delivery client: cart, session and page logic in Dafny

This project models the client-side state layer of a food-delivery web
client, with the pure helpers its pages use:

- the **cart store** (`store/cart.ts`, repeated line for line as the
  non-persisted cart in `lib/store.ts:44-77`). It is an ordered list of cart
  lines keyed by menu-item id, with `addItem`, `removeItem`,
  `updateQuantity`, `clearCart` and the derived `total`;
- the **session store** (`store/auth.ts`): `initialize`, `login`,
  `register`, `logout`, `checkAuth` and the `partialize` projection. The
  browser's `token` storage slot is an `Option<string>` next to the state;
- the **simple auth store** of `lib/store.ts:22-42`, with the `!!token`
  reading of `hooks/useAuth.ts:23`;
- the **shared `token` slot**: `store/auth.ts` reads and writes this
  storage key (lines 24, 38, 69, 80, 95); `lib/store.ts` only writes it
  (lines 29, 35), and the request interceptor of `lib/api.ts:14` reads it.
  Module `Browser` puts both stores next to one slot;
- the **form schemas** of `lib/validators.ts`;
- the **cart page** handlers: placing an order and the minus, plus and
  remove buttons;
- the **orders page** helpers: badge colour and label, cancel eligibility,
  the short order number, and how the fetched list and its error are kept.

Prices are integers in minor currency units, so totals are exact. Most
backend calls are function parameters from the request to the reply the
code reads: `Credentials -> Reply<Grant>`, `Registration -> Reply<User>`,
`string -> Option<User>` for the profile fetch with the stored token,
`OrderPayload -> PlaceReply`, and `string -> bool` for the order cancel
(true when it succeeds). The orders fetch takes no argument, so its reply
is a value of type `Fetched` passed to `FetchOrders` and `CancelOrder`. `Reply` distinguishes a reply with `success`
true, one with `success` false, and a thrown error that may carry the
backend's `message`. Each asynchronous store operation is one atomic step.
JavaScript truthiness is modelled where the code branches on it. An empty
stored token counts as absent (`if (token)`), and an empty backend message
falls back to the default text (`message || 'Login failed'`).

Modules: `Domain` (entities, `Option`, truthiness, failure messages),
`Text` (`trim` over the ECMAScript white-space set, ASCII case mapping),
`Cart`, `Session`, `SimpleAuth`, `Browser`, `Validators`, `CartPage`,
`OrdersPage`.

Behaviours of the code worth noting, which the model keeps:

- A `login` or `register` reply with `success: false` resolves without an
  error and leaves `isLoading` set to true.
- When the login that follows a successful registration throws, `register`
  rejects with 'Registration failed', not with the backend's message. The
  `Error` that login throws has no `response` field.
- During the optimistic window of `initialize` the session is
  authenticated while `user` may be null. Only the completed `checkAuth`
  restores "an authenticated session has a user" (`Session.OptimisticWindow`).
- `checkAuth` with an empty stored token signs the session out but leaves
  the empty string in the storage slot.
- `fetchOrders` never clears its error message, so a successful retry still
  shows the old error (`OrdersPage.RetryKeepsError`).
- The simple store's `logout` removes the shared token while the session
  store stays authenticated with it. Its `login` with another token
  overwrites the slot under the session store. Either way the session
  store's "held token is the stored one" breaks
  (`Browser.SimpleLogoutStrandsSession`, `Browser.SimpleLoginOverwritesSession`).
  What holds under any mix of both stores' operations is that the session
  is authenticated exactly when it holds a token (`Browser.RunKeepsFlag`).

## Model

| member | source | states |
|---|---|---|
| Domain.FailureMessage | store/auth.ts:49 | the shown message is the backend's when it is a non-empty string, otherwise the fallback; with a non-empty fallback it is never empty |
| Cart.Increment | store/cart.ts:34-36 | every line with the id gains exactly one unit; every other line and every menu-item field is unchanged; the length is kept |
| Cart.Assign | store/cart.ts:53-55 | every line with the id gets exactly the given quantity; everything else is unchanged |
| Cart.WithoutKeeps | store/cart.ts:44 | the filter keeps exactly the lines whose id differs; its length drops by the number of lines with the id; unique ids stay unique |
| Cart.AddItem | store/cart.ts:28-41 | a new id is appended at the end with quantity 1 and the earlier lines are untouched; a present id gains one unit on its line, which keeps its first-seen name and price, with length and order unchanged; the cart invariant (unique ids, quantities at least 1) is preserved |
| Cart.RepeatedAdd | store/cart.ts:28-41 | n adds of an item missing from the cart give exactly one line for it, at the end, with quantity n |
| Cart.RemoveItem | store/cart.ts:43-45 | no line with the id remains; the lines kept are exactly those with another id; the invariant is preserved |
| Cart.RemoveAbsent | store/cart.ts:43-45 | filtering out an absent id leaves the cart identical |
| Cart.RemoveDistributes | store/cart.ts:44 | the filter keeps relative order: filtering a concatenation is filtering each part |
| Cart.RemoveAt | store/cart.ts:43-45 | in a cart with unique ids, filtering out the id of line k cuts out exactly line k and keeps the rest in order |
| Cart.UpdateQuantity | store/cart.ts:47-57 | a quantity of zero or less removes every line with the id and keeps exactly the others; a positive quantity sets exactly that quantity on the matching lines and changes nothing else; the invariant is preserved |
| Cart.UpdateAbsent | store/cart.ts:47-57 | updating an absent id leaves the cart identical, whatever the quantity |
| Cart.ClearCart | store/cart.ts:59 | the cart becomes empty and its total is 0 |
| Cart.TotalIsReduce | store/cart.ts:61-63 | the total used throughout the model equals the getter's left-to-right reduce of price times quantity started at 0 |
| Cart.TotalAppend | store/cart.ts:61-63 | the total of a concatenation is the sum of the totals |
| Cart.TotalReplaceAt | store/cart.ts:61-63 | replacing one line changes the total by the difference of the two line totals |
| Cart.TotalAfterAdd | store/cart.ts:61-63 | after addItem the total grows by the item's price; for a present id that is the first-seen price on the cart line |
| Cart.TotalAfterRemove | store/cart.ts:61-63 | after removeItem the total drops by the removed line's price times quantity |
| Cart.TotalAfterUpdate | store/cart.ts:61-63 | after a positive updateQuantity the total changes by price times the change in quantity |
| Session.Login | store/auth.ts:32-51 | on success the returned token is stored and held, the user is set and the session is authenticated; otherwise user, token, flag and stored slot are unchanged; isLoading stays true only after a success-false reply; the promise rejects exactly on a thrown error, with the backend message or 'Login failed' |
| Session.Register | store/auth.ts:53-65 | after a successful registration the outcome is exactly that of login with the same email and password, except that a throwing login rejects with 'Registration failed'; a thrown registration clears isLoading, keeps the session and rejects with the backend message or 'Registration failed'; a success-false reply only sets isLoading |
| Session.Logout | store/auth.ts:67-77 | from any state: user and token null, not authenticated, not loading, no stored token |
| Session.LogoutForgets | store/auth.ts:67-77 | logout's result does not depend on the prior state, and a later checkAuth or initialize leaves it signed out |
| Session.CheckAuth | store/auth.ts:79-103 | isLoading is untouched; the session ends authenticated exactly when a usable stored token exists and its profile fetch succeeds, with that user and token; a failed fetch empties the storage slot; without a usable token the slot is left as it was |
| Session.InitializeStart | store/auth.ts:22-27 | with a usable stored token the session optimistically holds it and is authenticated; otherwise nothing changes |
| Session.Initialize | store/auth.ts:22-30 | with no usable stored token nothing changes; otherwise the completed result equals a plain checkAuth, so the optimistic write leaves no trace |
| Session.InitializeIdempotent | store/auth.ts:22-30 | running initialize twice is the same as once |
| Session.OptimisticWindow | store/auth.ts:22-30 | the optimistic start can be authenticated with no user; after checkAuth an authenticated session always has a user |
| Session.PartializeExactly | store/auth.ts:107-111 | two states have equal snapshots if and only if they agree on user, token and isAuthenticated, whatever their isLoading |
| Session.Partialize | store/auth.ts:107-111 | restoring a snapshot with the state's own isLoading gives back the state |
| Session.ApplyConsistent | store/auth.ts:22-103 | every operation keeps the session consistent: authenticated exactly when it holds a token, and a held token is the stored one |
| Session.RunConsistent | store/auth.ts:22-103 | any sequence of operations against any backend replies keeps the session consistent; in particular an authenticated session always holds a token |
| SimpleAuth.Login | lib/store.ts:27-32 | user and token are set, the same token is in the storage slot, and `!!token` holds exactly when the token is non-empty |
| SimpleAuth.Logout | lib/store.ts:33-38 | user and token are null, the stored token is removed, `!!token` is false |
| SimpleAuth.LoginLogout | lib/store.ts:27-38 | logout undoes any login; a login after logout depends only on the new user and token |
| SimpleAuth.IsAuthenticated | hooks/useAuth.ts:23 | in a store whose token is the stored one, `!!token` holds exactly when a non-empty token is stored |
| Browser.Act | lib/store.ts:27-38 | an operation of either auth store changes only its own state and the shared token slot; the other store's state is untouched |
| Browser.ApplyKeepsFlag | store/auth.ts:22-103 | every session operation keeps "authenticated exactly when a token is held", whatever the shared slot holds |
| Browser.RunKeepsFlag | store/auth.ts:22-103 | under any sequence of operations of both stores, the session is authenticated exactly when it holds a token |
| Browser.SimpleLogoutStrandsSession | lib/store.ts:33-38 | the simple store's logout empties the shared slot but leaves a session holding a token authenticated with it, so the session store is no longer consistent |
| Browser.SimpleLoginOverwritesSession | lib/store.ts:27-32 | the simple store's login with a different token overwrites the slot under a session holding a token, so the session store is no longer consistent |
| Browser.SessionLogoutStrandsSimple | store/auth.ts:67-77 | the session store's logout empties the slot under a simple store holding a token, which is then no longer synced |
| Validators.CheckLogin | lib/validators.ts:3-6 | accepted exactly when the email check holds and the password has at least 6 characters; each failing rule reports its own issue and no other issue appears |
| Validators.CheckRegister | lib/validators.ts:8-14 | accepted exactly when the name has at least 2 characters, the email check holds, the password has at least 6 characters, the role is "customer" or "owner", and the number is exactly 10 decimal digits; each rule's issue is reported exactly when it fails |
| Validators.MatchPhoneNumber | lib/validators.ts:13 | the left-to-right scan accepts exactly the strings of ten characters that are all '0'..'9' |
| Validators.MessagesDistinct | lib/validators.ts:4-13 | two issues report the same message only if they are the same issue |
| Text.Trim | app/cart/page.tsx:37 | the result is the slice of the input after its leading white space, neither starting nor ending with white space, and everything cut off is white space |
| Text.IsBlank | app/cart/page.tsx:23 | an address is blank exactly when it is empty or all white space |
| Text.Lower | app/orders/page.tsx:60 | every character is mapped in place by the lower-case mapping; the length is kept |
| Text.Upper | app/orders/page.tsx:147 | every character is mapped in place by the upper-case mapping; the length is kept |
| Text.LowerIdempotent | app/orders/page.tsx:60 | lower-casing twice equals lower-casing once |
| CartPage.Lines | app/cart/page.tsx:31-35 | the request lines have the cart's length and order, each carrying the line's id, quantity and price |
| CartPage.Payload | app/cart/page.tsx:30-38 | the request lines match the cart line by line, totalAmount is the cart total, deliveryAddress is the trimmed address |
| CartPage.PayloadTotalMatchesLines | app/cart/page.tsx:30-38 | the request's totalAmount equals the sum of price times quantity over its own lines |
| CartPage.PlaceOrder | app/cart/page.tsx:22-49 | a blank address sends nothing, leaves the cart and alerts 'Please enter delivery address'; otherwise the request carries a non-empty address; an accepted order empties the cart; a failed one keeps the cart and alerts the backend message or 'Failed to place order'; the cart changes only when the order is placed |
| CartPage.Decrease | app/cart/page.tsx:105 | at quantity 1 the line is removed and the other lines are kept; above 1 the line's quantity drops by one in place; the invariant is preserved |
| CartPage.DecreaseTotal | app/cart/page.tsx:105 | on a valid cart the minus button lowers the total by the line's price, whether the line stays or goes |
| CartPage.Increase | app/cart/page.tsx:113 | the line's quantity rises by one in place; the invariant is preserved |
| CartPage.DecreaseCutsLine | app/cart/page.tsx:105 | in a cart with unique ids, the minus button on a line of quantity 1 cuts out exactly that line and keeps the others in order |
| CartPage.IncreaseIsAdd | app/cart/page.tsx:113 | on a valid cart the plus button gives the same cart as adding the line's menu item again |
| CartPage.Discard | app/cart/page.tsx:120 | the line's id is gone and exactly the lines with other ids remain |
| CartPage.DiscardCutsLine | app/cart/page.tsx:120 | in a cart with unique ids, the remove button cuts out exactly that line and keeps the others in order |
| OrdersPage.StatusColor | app/orders/page.tsx:59-69 | a status whose lower-case form is one of the six known statuses gets that status's class; the gray class is returned exactly for every other status |
| OrdersPage.ColorIgnoresCase | app/orders/page.tsx:60 | the colour of a status equals the colour of its lower-case form |
| OrdersPage.ColorsDistinct | app/orders/page.tsx:61-67 | the six known statuses get six distinct classes, none of them gray |
| OrdersPage.ReplaceFirst | app/orders/page.tsx:147 | only the first occurrence of the character is replaced; without one the string is unchanged |
| OrdersPage.StatusLabel | app/orders/page.tsx:147 | the first underscore becomes a space and every other character is upper-cased in place |
| OrdersPage.LabelSplitsAtFirstUnderscore | app/orders/page.tsx:147 | for a status `a_b` with no underscore in `a`, the label is upper(a), a space, then upper(b) with b's underscores kept |
| OrdersPage.LabelKeepsLaterUnderscores | app/orders/page.tsx:147 | "out_for_delivery" is labelled "OUT FOR_DELIVERY" |
| OrdersPage.StatusLabelAll | app/orders/page.tsx:147 | with every underscore replaced, each underscore becomes a space, no underscore remains, and every other character is upper-cased in place |
| OrdersPage.LabelAllOutForDelivery | app/orders/page.tsx:147 | with every underscore replaced, "out_for_delivery" is labelled "OUT FOR DELIVERY" |
| OrdersPage.CanCancel | app/orders/page.tsx:149 | an order offered for cancelling always shows the pending colour |
| OrdersPage.CancelIsCaseSensitive | app/orders/page.tsx:149 | "PENDING" shows the pending colour without being cancellable, because the colour ignores case and the cancel test does not |
| OrdersPage.ShortId | app/orders/page.tsx:131 | the shown order number is the suffix of the id of length min(6, length of id) |
| OrdersPage.ShortIdSuffix | app/orders/page.tsx:131 | the number depends only on the id's last six characters, a short id is shown whole, and taking the number of a number changes nothing |
| OrdersPage.FetchOrders | app/orders/page.tsx:37-48 | loading ends; a reply replaces the list, and a missing list becomes empty; a reply keeps the previous error; a failure keeps the list and sets the backend message or 'Failed to load orders' |
| OrdersPage.CancelOrder | app/orders/page.tsx:50-57 | a failed cancel leaves the page as it was; after a successful one loading has ended, and either the refetched list is shown with the old error kept, or the refetch fails, the list is kept and the refetch's message (or 'Failed to load orders') is shown |
| OrdersPage.ReplaySnoc | app/orders/page.tsx:37-48 | replaying one more fetch is fetching once more from the replayed page |
| OrdersPage.ReplayShowsLast | app/orders/page.tsx:37-48 | after any history of fetches the page shows the list of the last successful fetch (or the initial list) and the message of the last failed fetch (or the initial error), and loading has ended |
| OrdersPage.FirstFetch | app/orders/page.tsx:29-48 | once the fetch on mount settles, the page shows the reply's list (a missing list as empty) with no error, or an empty list with the failure's message, and loading has ended |
| OrdersPage.RetryKeepsError | app/orders/page.tsx:37-48 | any number of successful fetches after a history leave its error message unchanged |

## Left out

- Rendering, styling, routing and redirects: the JSX, the cart page's `loading` flag, `router.push`, `console.error`. `alert` is modelled only as the message it shows.
- The HTTP client `lib/api.ts`. Backend calls are oracle parameters. Its wiring does not match the callers: `store/auth.ts` imports `authApi` while the client exports `authAPI`; the store reads `success` directly from what would be an axios response; the pages call `placeOrder` and `cancelOrder`, which the client does not define. The model takes the reply as the calling code reads it.
- zustand persistence and rehydration. `partialize` is modelled as a projection with a restore partner. The `get total()` getter is modelled as the pure function `Cart.Total` of the items.
- Server-side rendering. Every operation is modelled as running in a browser: the `typeof window !== 'undefined'` guards (`store/auth.ts:23,37,68,94`, `lib/store.ts:28,34`) are taken as true, and the unguarded `localStorage.getItem` of `checkAuth` (`store/auth.ts:80`) never throws.
- Session.ApplyConsistent: the "held token is the stored one" half assumes `store/auth.ts` is the only writer of the `token` slot; `lib/store.ts:29,35` write it too, and module `Browser` states what survives both writers.
- Session.RunConsistent: same single-writer assumption as ApplyConsistent.
- Both stores also persist under the same `auth-storage` key (`store/auth.ts:106`, `lib/store.ts:40`); that persisted copy is not modelled.
- Interleavings of asynchronous operations. Each store operation is atomic, so a slow `checkAuth` finishing after `logout` is not represented.
- Email syntax. zod's email check is the parameter `isEmail`.
- Strings are sequences of Unicode characters, where JavaScript strings are sequences of UTF-16 code units. Every length, index and slice in the model counts characters; the lines below name the members where this shows.
- OrdersPage.ShortId: `slice(-6)` takes the last six UTF-16 code units; the model takes the last six characters, so an id with a character outside the Basic Multilingual Plane gives a different (possibly split) number in the source.
- Validators.CheckLogin: lengths count Dafny characters (Unicode scalar values). JavaScript counts UTF-16 code units, so a character outside the Basic Multilingual Plane counts twice in the source.
- Validators.CheckRegister: same length caveat as CheckLogin. The role rule's message is zod's built-in enum wording, which the schema does not spell out and which depends on the zod version; the model uses the stand-in text "Invalid enum value" (zod 3 goes on with the expected and received values). Only `Validators.MessagesDistinct` depends on it.
- Text.Lower: `toLowerCase` is modelled for ASCII letters only. Other characters are left unchanged, which affects no known status.
- Text.Upper: `toUpperCase` is modelled for ASCII letters only.
- Floating-point money and formatting (`toFixed`, `toLocaleDateString`). Prices and quantities are integers.
- `addItem(item: any)` spreads whatever fields the caller passes. The model's cart line holds the menu-item fields of `types/restaurant.ts` plus the quantity.
- `lib/auth.ts`, `hooks/useAuth.ts` (except `!!token`), `hooks/useOrders.ts`, `app/checkout/page.tsx`, `components/order/Cart.tsx` and `components/layout/Header.tsx` are not part of this model: they are thin glue, or they depend on a `hooks/useCart` that is not available. The Header's logout reaches the simple store's `logout` through them, which is the operation `Browser.SimpleLogoutStrandsSession` describes.
- `types/payment.ts` is unused by the code.

## Findings

| source | as written | input that shows it | evidently intended | confidence | as-written member | corrected member |
|---|---|---|---|---|---|---|
| app/orders/page.tsx:147 | `status.replace('_', ' ')` with a string pattern replaces only the first underscore | status "out_for_delivery" is shown as "OUT FOR_DELIVERY" | every underscore shown as a space: "OUT FOR DELIVERY" | medium; not executed | OrdersPage.LabelKeepsLaterUnderscores | OrdersPage.StatusLabelAll |
