# Flower marketplace storefront — verified model of its client-side logic

This project models, in Dafny, the client-side logic of a React storefront for
a flower marketplace with buyer, seller and admin roles. Most of the storefront
is rendering and REST calls. The logic modelled here is what the four pages and
components below decide for themselves:

- **Product card** (`src/component/product-card/index.jsx`):
  - `addToCart` adds a listing to the cart kept in `localStorage`. It merges the
    units into a line that is already there, but only within the listing's stock.
    A listing not yet in the cart is appended with no stock check.
  - `handleAddToCart` checks for a session token before it posts `Cart/add-item`.
  - `calculateTimeRemaining` counts down a listing's three-day sale window, with
    the listing time shifted by seven hours.
- **Admin user table** (`src/page/admin/QuanLiNguoiDung.jsx`):
  - the case-insensitive search filter and the seller and buyer counts;
  - delete-by-id;
  - the edit modal. Its form becomes a partial update with an empty password
    left out, and that update is merged back into the list.
- **Seller registration** (`src/page/seller/RegisterSeller.jsx`):
  - the field rules: a ten-digit phone and a 9–12-digit identity card;
  - the prefill from the current user's profile;
  - the four-field payload;
  - the one message shown for each way a submission ends, including the
    flattening and joining of a server `errors` object.
- **Profile page** (`src/page/user/editProfile.jsx`): the
  `userData`/`editedData`/`isEditing`/`error`/`success` state machine. Logout
  removes exactly `token`, `user` and `cart` from storage.

Module layout, one module per source component:

- `js.dfy`, module `Js`: the JavaScript behaviour the code relies on. This is
  `null`/`undefined` as `Option`, string truthiness and `||`, `filter`,
  `includes`, `toLowerCase`, `flat`, `join`, and `${n}` for a non-negative integer.
- `storefront.dfy`, modules `Storefront` and `LocalStorage`:
  - `Storefront` holds the listing record (also the shape of a cart line) and
    the toast type.
  - `LocalStorage` holds `localStorage` as a class over `map<string, Value>`. A
    cart is stored as a sequence of lines and everything else as text.
- `product_card.dfy`, module `ProductCard`. `addToCart` is a method on the
  store and is specified by the pure function `AddLine`. The click handler and
  the countdown are functions.
- `admin_users.dfy`, module `AdminUsers`. The page is the class `UserTable`,
  whose handlers replace `users` the way `setUsers` does. Filter, counts, patch
  and merge are functions.
- `register_seller.dfy`, module `RegisterSeller`: pure functions only.
- `edit_profile.dfy`, module `EditProfile`. The page is the class
  `ProfilePage`, with one method per handler. Each method is tied to a pure
  transition on `PageState`, and the lemmas are stated over those transitions.

The code has no rollback when the server rejects an add, no pending-sync
mark, no rejection of zero or negative quantities and no stock check on a new
line, and `addToCart` computes no item count. The cart count shown in the
header lives in a context outside the modelled files; `handleAddToCart` only
triggers its refresh, and the model records whether it does (`refreshCount`).
The model follows the code:

- a new line is appended whatever its quantity and the stock are;
- zero and negative quantities are not rejected;
- `addToCart` never talks to the server, and `handleAddToCart` never touches
  the local cart.

`addToCart` is defined in the product card but no code in the file calls it.
The identity-card rule's message says "9 or 12 digits", but the pattern
`^[0-9]{9,12}$` also accepts 10 and 11 digits. The model keeps the pattern as
written, and `IdCardAcceptsTenAndElevenDigits` shows the gap.

## Model

| member | source | states |
|---|---|---|
| `LocalStorage.GetText` | src/component/product-card/index.jsx:50 | `getItem` of a text key: a stored text is returned as it is; an absent key, or one holding no text, gives `None` |
| `LocalStorage.StoredCart` | src/component/product-card/index.jsx:23 | a missing stored cart reads as the empty cart; a stored cart reads as its lines |
| `LocalStorage.Store.SetItem` | src/component/product-card/index.jsx:36 | `setItem` overwrites one key and keeps every other |
| `LocalStorage.Store.RemoveItem` | src/page/user/editProfile.jsx:33-35 | `removeItem` drops one key and keeps every other |
| `ProductCard.FindLine` | src/component/product-card/index.jsx:24 | `find` returns nothing iff no line has the id, otherwise the first line that has it |
| `ProductCard.IncrementLines` | src/component/product-card/index.jsx:31-35 | the `map` keeps length; lines with the id grow by the quantity, all others are unchanged in place |
| `ProductCard.AddLine` | src/component/product-card/index.jsx:22-43 | the add is refused iff the flower's first cart line plus the requested units exceeds the listing's stock, and then with the stock message; an accepted add keeps the cart's length or grows it by one |
| `ProductCard.AddRejectsOverStock` | src/component/product-card/index.jsx:26-29 | an existing line whose total would exceed stock makes the add fail with the stock message |
| `ProductCard.AddMergesWithinStock` | src/component/product-card/index.jsx:31-36 | within stock, the first line for the flower grows by the quantity; length, order and other flowers' lines are unchanged |
| `ProductCard.AddMergeTouchesOneLine` | src/component/product-card/index.jsx:31-36 | with unique flower ids the new cart is the old one with exactly that line updated |
| `ProductCard.AddAppendsAbsent` | src/component/product-card/index.jsx:38-41 | an absent flower is appended at the end with the requested quantity, with no stock condition |
| `ProductCard.AppendSkipsStockCheck` | src/component/product-card/index.jsx:38-41 | a new line of 3 units is accepted for a listing with 2 in stock |
| `ProductCard.AddLength` | src/component/product-card/index.jsx:31-40 | a successful add keeps the length on a merge and adds exactly one line on an append |
| `ProductCard.AddKeepsIdsUnique` | src/component/product-card/index.jsx:22-43 | if each flower has at most one line before the add, it has at most one after |
| `ProductCard.MergeOntoLastLine` | src/component/product-card/index.jsx:31-36 | adding within stock to the flower's trailing line grows that line |
| `ProductCard.RepeatedAddsAccumulate` | src/component/product-card/index.jsx:22-43 | repeated adds whose running totals stay within stock leave one appended line holding the sum of the requests |
| `ProductCard.AddToCart` | src/component/product-card/index.jsx:22-43 | a `cart` entry that does not parse stops the handler with storage untouched and no toast; on rejection storage is untouched and the stock error is shown; otherwise `cart` is rewritten with the new cart and success is shown |
| `ProductCard.HandleAddToCart` | src/component/product-card/index.jsx:45-91 | no (or an empty) token: no request and the login message; otherwise one request for 1 unit at the listing's price with a bearer header; count refresh iff the server answers success; error text is the server message or the fallback |
| `ProductCard.EmptyTokenBlocksAdd` | src/component/product-card/index.jsx:50-57 | an empty stored token blocks the request like a missing one |
| `ProductCard.RemainingMs` | src/component/product-card/index.jsx:153-157 | time is left iff `now` is before the listing time, shifted by seven hours, plus three days |
| `ProductCard.CalculateTimeRemaining` | src/component/product-card/index.jsx:152-166 | expired iff `3 days − (now − (listing + 7h)) ≤ 0`; otherwise minutes < 60, seconds < 60 and the shown h/m/s fall short of the time left by less than one second |
| `ProductCard.SplitMillis` | src/component/product-card/index.jsx:160-162 | the div/mod split of a positive millisecond count gives minutes and seconds below 60 and loses less than a second |
| `ProductCard.CountdownText` | src/component/product-card/index.jsx:163-165 | an expired countdown reads `Hết hạn`; a running one starts with `Hết hạn sau: ` and is longer than it |
| `ProductCard.CountdownTextDeterminesCountdown` | src/component/product-card/index.jsx:163-165 | two countdowns that show the same text are the same countdown: the digits of `${hours}h ${minutes}m ${seconds}s` read back as the hours, minutes and seconds |
| `ProductCard.ExpiredTextIffExpired` | src/component/product-card/index.jsx:163-178 | the shown text equals `Hết hạn` exactly when the countdown is expired, so `isExpired` is right |
| `ProductCard.ExpiryIsPermanent` | src/component/product-card/index.jsx:155-159 | once expired at some time, a listing is expired at every later time |
| `ProductCard.ShowsAddButton` | src/component/product-card/index.jsx:220-222 | the add button is offered exactly when the listing is priced, in stock and unexpired |
| `AdminUsers.FormOf` | src/page/admin/QuanLiNguoiDung.jsx:97-106 | opening a record fills the form with its name, email, phone, address and role, and an empty password |
| `AdminUsers.ToPatch` | src/page/admin/QuanLiNguoiDung.jsx:113-120 | name, email, role, phone and address are copied from the form; the password is left out iff the form's password is empty, and is sent as typed otherwise |
| `AdminUsers.Overlay` | src/page/admin/QuanLiNguoiDung.jsx:127 | the merge keeps the record's id and takes every field of the patch, an unset password included |
| `AdminUsers.FormLandsInRecord` | src/page/admin/QuanLiNguoiDung.jsx:113-127 | saving a form puts every typed field into the record, the password as typed or unset when left empty; only the id comes from the record |
| `AdminUsers.OpenThenSaveKeepsRecord` | src/page/admin/QuanLiNguoiDung.jsx:99-120 | the modal opens with an empty password; saving it untouched gives back the record, with its password unset |
| `AdminUsers.TypedPasswordIsSent` | src/page/admin/QuanLiNguoiDung.jsx:119 | a non-empty password lands in the merged record |
| `AdminUsers.OverlayIdempotent` | src/page/admin/QuanLiNguoiDung.jsx:127 | merging the same patch twice equals merging it once |
| `AdminUsers.ApplyUpdate` | src/page/admin/QuanLiNguoiDung.jsx:127 | the update keeps the length; records with the id are overlaid in place, all others unchanged |
| `AdminUsers.UpdateTouchesOneRecord` | src/page/admin/QuanLiNguoiDung.jsx:127 | with unique ids the new list is the old one with exactly the edited record replaced by its overlay |
| `AdminUsers.UpdateOfAbsentIdIsNoOp` | src/page/admin/QuanLiNguoiDung.jsx:127 | an id no record has leaves the list unchanged |
| `AdminUsers.FilteredUsers` | src/page/admin/QuanLiNguoiDung.jsx:152-160 | the table never shows more records than the list holds |
| `AdminUsers.FilteredUsersSpec` | src/page/admin/QuanLiNguoiDung.jsx:152-160 | a record is shown iff it is listed and the lower-cased search text occurs in its lower-cased name, email, phone or address; the shown list is an order-preserving subsequence |
| `AdminUsers.EmptySearchShowsRecordsWithFields` | src/page/admin/QuanLiNguoiDung.jsx:153-158 | with empty search text exactly the records with at least one of the four fields are shown, in order |
| `Js.FilterAgrees` | src/page/admin/QuanLiNguoiDung.jsx:152 | two tests that agree on every element filter an array to the same result |
| `AdminUsers.CountRole` | src/page/admin/QuanLiNguoiDung.jsx:206 | a role count never exceeds the number of users |
| `AdminUsers.SellersPlusBuyersAtMostTotal` | src/page/admin/QuanLiNguoiDung.jsx:197-215 | the seller count plus the buyer count is at most the total user count |
| `AdminUsers.RemoveUser` | src/page/admin/QuanLiNguoiDung.jsx:64 | the list never grows, and every record left was listed and has another id |
| `AdminUsers.RemoveUserSpec` | src/page/admin/QuanLiNguoiDung.jsx:64 | after a delete a record is present iff it was present and has another id; the rest keep their relative order |
| `AdminUsers.RemoveUniqueShrinksByOne` | src/page/admin/QuanLiNguoiDung.jsx:64 | with unique ids, deleting a listed user shortens the list by exactly one |
| `AdminUsers.DeleteErrorMessage` | src/page/admin/QuanLiNguoiDung.jsx:70-91 | statuses 400, 403, 404 and 401 each get their own message, any other status the retry message, no response the connection message and no request the generic delete message |
| `AdminUsers.DeleteMessagesDistinguishCauses` | src/page/admin/QuanLiNguoiDung.jsx:70-91 | two failures with the same toast have the same kind, and for a known status the same status |
| `AdminUsers.UserTable.constructor` | src/page/admin/QuanLiNguoiDung.jsx:13-26 | the page starts with no users, no error, the modal closed and a blank form |
| `AdminUsers.UserTable.FetchUsers` | src/page/admin/QuanLiNguoiDung.jsx:32-45 | a loaded list replaces `users`; a failure keeps it and records the load error |
| `AdminUsers.UserTable.SetSearchText` | src/page/admin/QuanLiNguoiDung.jsx:230 | the search box sets only `searchText` |
| `AdminUsers.UserTable.DeleteUser` | src/page/admin/QuanLiNguoiDung.jsx:48-95 | only a confirmed delete answered with 200 removes the id's records and shows success; a failure keeps the list and shows the message for 400/403/404/401, other statuses, no response or no request |
| `AdminUsers.UserTable.OpenEditModal` | src/page/admin/QuanLiNguoiDung.jsx:97-108 | remembers the record, fills the form from it with an empty password, opens the modal |
| `AdminUsers.UserTable.ChangeField` | src/page/admin/QuanLiNguoiDung.jsx:370-400 | an input changes exactly its own form field |
| `AdminUsers.UserTable.UpdateUser` | src/page/admin/QuanLiNguoiDung.jsx:110-137 | a request is built iff a record is open; success merges the patch into that record and closes the modal; failure keeps the list and records the error |
| `RegisterSeller.MatchDigitRunSpec` | src/page/seller/RegisterSeller.jsx:137-147 | the digit-run matcher accepts exactly all-ASCII-digit strings with length between the bounds |
| `RegisterSeller.PhoneRule` | src/page/seller/RegisterSeller.jsx:137 | a phone passes iff it is exactly 10 ASCII digits |
| `RegisterSeller.IdCardRule` | src/page/seller/RegisterSeller.jsx:147 | an identity card passes iff it has 9 to 12 ASCII digits |
| `RegisterSeller.IdCardAcceptsTenAndElevenDigits` | src/page/seller/RegisterSeller.jsx:147 | 10- and 11-digit cards pass despite the "9 or 12" message |
| `RegisterSeller.FieldErrors` | src/page/seller/RegisterSeller.jsx:135-148 | a missing or empty value gives the required message only; a non-empty value that fails the pattern gives the pattern message; no error iff present and matching |
| `RegisterSeller.ValidationErrors` | src/page/seller/RegisterSeller.jsx:112-151 | a message appears iff its rule fails: the required message of a missing or empty field, the pattern message of a non-empty phone or card that does not match; one error per failing field, none iff every rule passes, the store name's first |
| `RegisterSeller.FormattedValues` | src/page/seller/RegisterSeller.jsx:65-70 | the payload carries the form's store name, address, phone and identity card |
| `RegisterSeller.Prefill` | src/page/seller/RegisterSeller.jsx:39-44 | `name` goes to `userName`, email, phone and address to their namesakes; typed store name and card are kept |
| `RegisterSeller.ValidFormGivesValidPayload` | src/page/seller/RegisterSeller.jsx:65-70 | a valid form's payload has non-empty store name and address, a 10-digit phone and a 9–12-digit card, and does not depend on user name or email |
| `RegisterSeller.PrefillThenSubmit` | src/page/seller/RegisterSeller.jsx:39-44 | a prefilled form submitted as is sends the typed store name and card with the profile's phone and address |
| `RegisterSeller.LoadProfile` | src/page/seller/RegisterSeller.jsx:21-57 | no token: login prompt and redirect; a 200 prefills the form with no toast; another 2xx changes nothing and shows nothing; a 401 shows the session-expired toast and redirects; any other failure shows the profile-unavailable toast and stays; only a 200 changes the form |
| `RegisterSeller.ErrorMessage` | src/page/seller/RegisterSeller.jsx:86-97 | a non-empty string body is shown verbatim; no body, an empty string or an object without `errors` gives the generic message; an `errors` object gives its messages, flattened in order and joined by ", " (empty when it holds none) |
| `RegisterSeller.ErrorsAllShown` | src/page/seller/RegisterSeller.jsx:89-91 | for an `errors` object every message of every field occurs in the toast, whose length is their total plus the separators |
| `RegisterSeller.OnFinish` | src/page/seller/RegisterSeller.jsx:58-100 | no token: no request; otherwise the request is the four-field payload; success iff the status is 201, which also resets the form; error bodies map through `ErrorMessage`, every other failure is generic |
| `RegisterSeller.Submit` | src/page/seller/RegisterSeller.jsx:105-151 | the rules block submission iff some field fails, with exactly the failing fields' messages; a form that passes gets `onFinish`'s outcome, and a sent request always has a valid phone and card |
| `EditProfile.Fetch` | src/page/user/editProfile.jsx:17-26 | a successful fetch puts the response in `userData` and `editedData` and leaves the error as it was; a failed one sets the load error and keeps both; the form and success banner are untouched |
| `EditProfile.HandlersKeepOneBanner` | src/page/user/editProfile.jsx:39-69 | no handler leaves both the error and the success banner set |
| `EditProfile.Edit` | src/page/user/editProfile.jsx:39-43 | edit opens the form, clears both banners and leaves the data alone |
| `EditProfile.Change` | src/page/user/editProfile.jsx:52-54 | a change sets the named field of `editedData` (starting from `{}` when it is `null`); every other field and all other state are unchanged |
| `EditProfile.Cancel` | src/page/user/editProfile.jsx:45-50 | cancel closes the form with no banner and `editedData` equal to `userData` |
| `EditProfile.ChangeAllKeepsProfile` | src/page/user/editProfile.jsx:52-54 | any run of changes leaves `userData`, `isEditing` and the banners unchanged |
| `EditProfile.EditTypeCancelRestores` | src/page/user/editProfile.jsx:39-54 | edit, any changes, then cancel closes the form with no banner and `editedData` equal to `userData` |
| `EditProfile.Save` | src/page/user/editProfile.jsx:56-67 | success sets `userData` to the response, closes the form and shows only success; failure sets the error, clears success and keeps `userData` and `isEditing`; `editedData` is kept either way |
| `EditProfile.SuccessTimeout` | src/page/user/editProfile.jsx:63 | the timer clears the success banner and nothing else |
| `EditProfile.WithoutSession` | src/page/user/editProfile.jsx:33-35 | exactly `token`, `user` and `cart` are dropped; every other key keeps its value |
| `EditProfile.LogoutClearsSession` | src/page/user/editProfile.jsx:32-37 | after logout there is no token, no user and an empty cart |
| `EditProfile.ProfilePage.Mount` | src/page/user/editProfile.jsx:17-30 | mounting loads the profile into both `userData` and `editedData`, or records the load error |
| `EditProfile.ProfilePage.HandleLogout` | src/page/user/editProfile.jsx:32-37 | storage loses exactly `token`, `user` and `cart`, and the page goes to `/login` |
| `EditProfile.ProfilePage.HandleEdit` | src/page/user/editProfile.jsx:39-43 | sets `isEditing`, clears error and success, nothing else changes |
| `EditProfile.ProfilePage.HandleCancel` | src/page/user/editProfile.jsx:45-50 | closes the form, restores `editedData` to `userData`, clears both banners |
| `EditProfile.ProfilePage.HandleChange` | src/page/user/editProfile.jsx:52-54 | sets one field of `editedData` (starting from `{}` when it is `null`) |
| `EditProfile.ProfilePage.HandleSave` | src/page/user/editProfile.jsx:56-69 | sends `editedData`; success sets `userData`, closes the form and shows success; failure sets the error, clears success and keeps the rest |
| `EditProfile.ProfilePage.HandleSuccessTimeout` | src/page/user/editProfile.jsx:63 | the timer clears only the success banner |

## Left out

- REST calls, network and timeouts are not modelled as such. Each handler takes
  how its request ended (status, body or no response) as an input value.
- Clock reads, `setInterval` and `setTimeout` are left out. `now` and the
  listing time are integer milliseconds given as inputs, and the success
  banner's timer is the separate handler `HandleSuccessTimeout`. Parsing
  `listingDate` strings with `Date` is not modelled.
- JSON encoding and decoding of stored values is not modelled. The cart is
  stored as a sequence of lines, and any text found under `cart` counts as
  an entry `JSON.parse` rejects: `addToCart` then stops with storage
  untouched and no toast. A JSON text for a falsy value (`null`, `0`,
  `false`, or the two-character text `""`) parses without throwing and the
  code reads it as the empty cart through `|| []`; the model treats it as
  malformed as well.
- A 2xx reply whose body is `null` is not modelled: the profile replies
  always carry a profile. On the seller page reading `response.data.email`
  would then throw and show the profile-unavailable toast; on the profile
  page `userData` would become `null`.
- Response statuses: a reply the request resolves with carries a 2xx status
  (`SuccessStatus`), since axios rejects on any other status and the
  handlers then see it as an error response.
- Records carry only the fields the logic uses. Other fields that `{ ...item }`
  or `{ ...user }` would copy along are not modelled.
- `Js.Lower` maps only ASCII capitals. Unicode case mapping of Vietnamese
  letters by `toLowerCase` is not modelled.
- Prices and quantities are integers. Fractional JavaScript numbers, and the
  floating-point star rating computed from `averageRating`, are left out.
- The star rating, category colours, all JSX rendering, routing (the model only
  returns the route), `loading` spinners and console logging are left out.
- The server-side cart, the cart-count context behind `updateCartItemCount`,
  login, header search and the search-results page are not part of this model.
- antd's form machinery is reduced to the rules the page declares. Whitespace
  handling and asynchronous validation are not modelled.
