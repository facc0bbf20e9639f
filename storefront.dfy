/**
 * Entities shared by the storefront's pages: a flower listing as the catalog
 * returns it (also the shape of a line in the locally stored cart), and the
 * toast notification a handler raises.
 */
module Storefront {

  /**
   * A flower listing. In the catalog `quantity` is the stock on hand; in a
   * cart line built from the listing (`{ ...item, quantity }`) the same field
   * holds the number of units in the cart. `listingDate` is the listing's
   * time stamp in integer milliseconds.
   */
  datatype Flower = Flower(
    flowerId: int,
    flowerName: string,
    price: int,
    quantity: int,
    listingDate: int,
    categoryId: int)

  /**
   * The status of a response axios resolves with: a 2xx status. Any other
   * status makes the request reject and reaches the handler as an error.
   */
  type SuccessStatus = s: int | 200 <= s < 300 witness 200

  /** The route of the login page. */
  const LoginRoute: string := "/login"

  /** A toast shown by `notifySuccess`/`message.success` or `notifyError`/`message.error`. */
  datatype Notice = Success(text: string) | Error(text: string)
}

/**
 * The browser's `localStorage`, as a map from keys to stored values. The
 * cart lives under `cart` as an array of line items; the session lives under
 * `token` and `user` as text.
 */
module LocalStorage {
  import opened Js
  import opened Storefront

  const TokenKey: string := "token"
  const UserKey: string := "user"
  const CartKey: string := "cart"

  /** What one storage key holds: a text entry, or the decoded cart array. */
  datatype Value = Text(text: string) | Lines(lines: seq<Flower>)

  /** `localStorage.getItem(key)` for an entry that holds text. */
  function GetText(entries: map<string, Value>, key: string): (r: Option<string>)
    ensures key !in entries ==> r == None
    ensures key in entries && entries[key].Text? ==> r == Some(entries[key].text)
    ensures r.Some? ==> key in entries && entries[key] == Text(r.value)
  {
    if key in entries && entries[key].Text? then Some(entries[key].text) else None
  }

  /**
   * A `cart` entry that holds text rather than an array of lines: `JSON.parse`
   * throws on it, or yields something that is not an array.
   */
  predicate CartMalformed(entries: map<string, Value>) {
    CartKey in entries && entries[CartKey].Text?
  }

  /**
   * `JSON.parse(localStorage.getItem('cart')) || []` on well-formed storage:
   * a missing cart reads as the empty cart.
   */
  function StoredCart(entries: map<string, Value>): (r: seq<Flower>)
    ensures CartKey !in entries ==> r == []
    ensures CartKey in entries && entries[CartKey].Lines? ==> r == entries[CartKey].lines
  {
    if CartKey in entries && entries[CartKey].Lines? then entries[CartKey].lines else []
  }

  /** The mutable key-value store. */
  class Store {
    var entries: map<string, Value>

    constructor (initial: map<string, Value>)
      ensures entries == initial
    {
      entries := initial;
    }

    /** `localStorage.setItem(key, value)`: overwrites one key, keeps the others. */
    method SetItem(key: string, v: Value)
      modifies this
      ensures entries == old(entries)[key := v]
    {
      entries := entries[key := v];
    }

    /** `localStorage.removeItem(key)`: drops one key (if present), keeps the others. */
    method RemoveItem(key: string)
      modifies this
      ensures entries == old(entries) - {key}
    {
      entries := entries - {key};
    }
  }
}
