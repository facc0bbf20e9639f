/**
 * The product card's own logic: adding a listing to the cart kept in local
 * storage (with its stock check), the add-to-cart click that posts to the
 * server when a session token exists, and the countdown of a listing's
 * three-day sale window.
 */
module ProductCard {
  import opened Js
  import opened Storefront
  import opened LocalStorage

  // ---------------------------------------------------------------------
  // Local cart: addToCart
  // ---------------------------------------------------------------------

  const StockExceededMessage: string := "Không thể thêm quá số lượng trong kho!"

  /** The success toast `${flowerName} đã được thêm vào giỏ hàng!`. */
  function AddedMessage(flowerName: string): string {
    flowerName + " đã được thêm vào giỏ hàng!"
  }

  /** `i` is the first line of `cart` whose `flowerId` is `id`. */
  predicate IsFirstMatch(cart: seq<Flower>, id: int, i: int) {
    0 <= i < |cart| && cart[i].flowerId == id &&
    forall j :: 0 <= j < i ==> cart[j].flowerId != id
  }

  /** `flowerId` identifies at most one line of the cart. */
  predicate UniqueIds(cart: seq<Flower>) {
    forall i, j :: 0 <= i < j < |cart| ==> cart[i].flowerId != cart[j].flowerId
  }

  /** `cart.find(line => line.flowerId === id)`: the first line for `id`, if any. */
  function FindLine(cart: seq<Flower>, id: int): (r: Option<Flower>)
    ensures r.None? <==> forall j :: 0 <= j < |cart| ==> cart[j].flowerId != id
    ensures r.Some? ==> exists i :: IsFirstMatch(cart, id, i) && r.value == cart[i]
  {
    if cart == [] then None
    else if cart[0].flowerId == id then
      assert IsFirstMatch(cart, id, 0);
      Some(cart[0])
    else
      var r := FindLine(cart[1..], id);
      if r.Some? then
        var i :| IsFirstMatch(cart[1..], id, i) && r.value == cart[1..][i];
        assert IsFirstMatch(cart, id, i + 1);
        r
      else
        r
  }

  /**
   * `cart.map(line => line.flowerId === id ? { ...line, quantity: line.quantity + q } : line)`:
   * every line for `id` grows by `q`, every other line is kept, in place.
   */
  function IncrementLines(cart: seq<Flower>, id: int, q: int): (r: seq<Flower>)
    ensures |r| == |cart|
    ensures forall i :: 0 <= i < |cart| && cart[i].flowerId == id ==>
      r[i] == cart[i].(quantity := cart[i].quantity + q)
    ensures forall i :: 0 <= i < |cart| && cart[i].flowerId != id ==> r[i] == cart[i]
  {
    if cart == [] then []
    else
      var line := if cart[0].flowerId == id then cart[0].(quantity := cart[0].quantity + q) else cart[0];
      [line] + IncrementLines(cart[1..], id, q)
  }

  /**
   * The cart after adding `quantity` units of `item`, or the stock message.
   * A line already in the cart grows only if the new total stays within the
   * listing's stock; a new line is appended without any stock check.
   */
  function AddLine(cart: seq<Flower>, item: Flower, quantity: int): (r: Result<seq<Flower>, string>)
    ensures r.Err? <==>
      FindLine(cart, item.flowerId).Some? && FindLine(cart, item.flowerId).value.quantity + quantity > item.quantity
    ensures r.Err? ==> r.error == StockExceededMessage
    ensures r.Ok? ==> |r.value| == |cart| || |r.value| == |cart| + 1
  {
    match FindLine(cart, item.flowerId)
    case Some(existing) =>
      if existing.quantity + quantity > item.quantity then Err(StockExceededMessage)
      else Ok(IncrementLines(cart, item.flowerId, quantity))
    case None =>
      Ok(cart + [item.(quantity := quantity)])
  }

  /** Over-stock adds to a line already in the cart are rejected and change nothing. */
  lemma AddRejectsOverStock(cart: seq<Flower>, item: Flower, quantity: int, i: int)
    requires IsFirstMatch(cart, item.flowerId, i)
    requires cart[i].quantity + quantity > item.quantity
    ensures AddLine(cart, item, quantity) == Err(StockExceededMessage)
  {
    var r := FindLine(cart, item.flowerId);
    var k :| IsFirstMatch(cart, item.flowerId, k) && r.value == cart[k];
    assert k == i;
  }

  /**
   * Within stock, an add to a line already in the cart grows that line (the
   * first one for the flower) and leaves every line for another flower, the
   * order and the length as they were.
   */
  lemma AddMergesWithinStock(cart: seq<Flower>, item: Flower, quantity: int, i: int)
    requires IsFirstMatch(cart, item.flowerId, i)
    requires cart[i].quantity + quantity <= item.quantity
    ensures AddLine(cart, item, quantity).Ok?
    ensures var c := AddLine(cart, item, quantity).value;
      |c| == |cart| &&
      c[i] == cart[i].(quantity := cart[i].quantity + quantity) &&
      forall j :: 0 <= j < |cart| && cart[j].flowerId != item.flowerId ==> c[j] == cart[j]
  {
    var r := FindLine(cart, item.flowerId);
    var k :| IsFirstMatch(cart, item.flowerId, k) && r.value == cart[k];
    assert k == i;
  }

  /** When flower ids are unique, a merge changes exactly one line: the flower's own. */
  lemma AddMergeTouchesOneLine(cart: seq<Flower>, item: Flower, quantity: int, i: int)
    requires UniqueIds(cart)
    requires 0 <= i < |cart| && cart[i].flowerId == item.flowerId
    requires cart[i].quantity + quantity <= item.quantity
    ensures AddLine(cart, item, quantity) == Ok(cart[i := cart[i].(quantity := cart[i].quantity + quantity)])
  {
    assert IsFirstMatch(cart, item.flowerId, i);
    AddMergesWithinStock(cart, item, quantity, i);
    var c := AddLine(cart, item, quantity).value;
    assert c == cart[i := cart[i].(quantity := cart[i].quantity + quantity)];
  }

  /**
   * A flower not yet in the cart is appended at the end with the requested
   * quantity, whatever that quantity and the stock are.
   */
  lemma AddAppendsAbsent(cart: seq<Flower>, item: Flower, quantity: int)
    requires forall j :: 0 <= j < |cart| ==> cart[j].flowerId != item.flowerId
    ensures AddLine(cart, item, quantity) == Ok(cart + [item.(quantity := quantity)])
  {
  }

  /** A flower that is not in the cart is accepted even above its stock. */
  lemma AppendSkipsStockCheck()
    ensures var item := Flower(7, "Hoa hồng", 50000, 2, 0, 1);
      AddLine([], item, 3) == Ok([item.(quantity := 3)]) && 3 > item.quantity
  {
    var item := Flower(7, "Hoa hồng", 50000, 2, 0, 1);
    var empty: seq<Flower> := [];
    assert empty + [item.(quantity := 3)] == [item.(quantity := 3)];
  }

  /** A successful add keeps the length on a merge and grows it by exactly one on an append. */
  lemma AddLength(cart: seq<Flower>, item: Flower, quantity: int)
    requires AddLine(cart, item, quantity).Ok?
    ensures var c := AddLine(cart, item, quantity).value;
      (exists j :: 0 <= j < |cart| && cart[j].flowerId == item.flowerId) ==> |c| == |cart|
    ensures var c := AddLine(cart, item, quantity).value;
      (forall j :: 0 <= j < |cart| ==> cart[j].flowerId != item.flowerId) ==> |c| == |cart| + 1
  {
  }

  /** Adding keeps one line per flower. */
  lemma AddKeepsIdsUnique(cart: seq<Flower>, item: Flower, quantity: int)
    requires UniqueIds(cart)
    requires AddLine(cart, item, quantity).Ok?
    ensures UniqueIds(AddLine(cart, item, quantity).value)
  {
    var c := AddLine(cart, item, quantity).value;
    if FindLine(cart, item.flowerId).Some? {
      forall i, j | 0 <= i < j < |c| ensures c[i].flowerId != c[j].flowerId {
        assert c[i].flowerId == cart[i].flowerId && c[j].flowerId == cart[j].flowerId;
      }
    } else {
      assert c == cart + [item.(quantity := quantity)];
    }
  }

  /** The sum of a list of requested quantities. */
  function Sum(qs: seq<int>): int {
    if qs == [] then 0 else Sum(qs[..|qs| - 1]) + qs[|qs| - 1]
  }

  /** Adding the same listing once per requested quantity, stopping at the first rejection. */
  function AddEach(cart: seq<Flower>, item: Flower, qs: seq<int>): Result<seq<Flower>, string>
    decreases |qs|
  {
    if qs == [] then Ok(cart)
    else
      match AddEach(cart, item, qs[..|qs| - 1])
      case Err(e) => Err(e)
      case Ok(c) => AddLine(c, item, qs[|qs| - 1])
  }

  /** Adding to the last line of a cart whose other lines are for other flowers grows that line. */
  lemma MergeOntoLastLine(cart: seq<Flower>, item: Flower, total: int, q: int)
    requires forall j :: 0 <= j < |cart| ==> cart[j].flowerId != item.flowerId
    requires total + q <= item.quantity
    ensures AddLine(cart + [item.(quantity := total)], item, q) == Ok(cart + [item.(quantity := total + q)])
  {
    var c := cart + [item.(quantity := total)];
    assert IsFirstMatch(c, item.flowerId, |cart|);
    AddMergesWithinStock(c, item, q, |cart|);
    var d := AddLine(c, item, q).value;
    assert d == cart + [item.(quantity := total + q)];
  }

  /**
   * Repeated adds of a flower that is not in the cart, where every running
   * total after the first add stays within stock, leave one line at the end
   * whose quantity is the sum of the requests.
   */
  lemma {:induction false} RepeatedAddsAccumulate(cart: seq<Flower>, item: Flower, qs: seq<int>)
    requires forall j :: 0 <= j < |cart| ==> cart[j].flowerId != item.flowerId
    requires |qs| >= 1
    requires forall k :: 2 <= k <= |qs| ==> Sum(qs[..k]) <= item.quantity
    ensures AddEach(cart, item, qs) == Ok(cart + [item.(quantity := Sum(qs))])
  {
    var n := |qs|;
    var init := qs[..n - 1];
    if n == 1 {
      assert init == [];
      assert Sum(qs) == qs[0];
    } else {
      forall k | 2 <= k <= |init| ensures Sum(init[..k]) <= item.quantity {
        assert init[..k] == qs[..k];
      }
      RepeatedAddsAccumulate(cart, item, init);
      assert qs[..n] == qs;
      assert Sum(qs) == Sum(init) + qs[n - 1];
      MergeOntoLastLine(cart, item, Sum(init), qs[n - 1]);
    }
  }

  /**
   * `addToCart(item, quantity)`: reads the stored cart, and either reports
   * the stock message and leaves storage alone, or writes the new cart back
   * under `cart` and reports success. A malformed `cart` entry makes the
   * parse throw: the handler stops with storage untouched and no toast.
   */
  method AddToCart(store: Store, item: Flower, quantity: int) returns (notice: Option<Notice>)
    modifies store
    ensures CartMalformed(old(store.entries)) ==> store.entries == old(store.entries) && notice == None
    ensures var r := AddLine(old(StoredCart(store.entries)), item, quantity);
      !CartMalformed(old(store.entries)) ==>
      && (r.Err? ==> store.entries == old(store.entries) && notice == Some(Error(r.error)))
      && (r.Ok? ==> store.entries == old(store.entries)[CartKey := Lines(r.value)]
                         && notice == Some(Success(AddedMessage(item.flowerName))))
  {
    if CartMalformed(store.entries) {
      notice := None;
      return;
    }
    var storedCart := StoredCart(store.entries);
    var existing := FindLine(storedCart, item.flowerId);
    if existing.Some? {
      if existing.value.quantity + quantity > item.quantity {
        notice := Some(Error(StockExceededMessage));
        return;
      }
      var updatedCart := IncrementLines(storedCart, item.flowerId, quantity);
      store.SetItem(CartKey, Lines(updatedCart));
      notice := Some(Success(AddedMessage(item.flowerName)));
    } else {
      var updatedCart := storedCart + [item.(quantity := quantity)];
      store.SetItem(CartKey, Lines(updatedCart));
      notice := Some(Success(AddedMessage(item.flowerName)));
    }
  }

  // ---------------------------------------------------------------------
  // handleAddToCart: the server-side add
  // ---------------------------------------------------------------------

  const LoginRequiredMessage: string := "Bạn cần đăng nhập để thêm sản phẩm vào giỏ hàng!"
  const AddFailedMessage: string := "Thêm vào giỏ hàng thất bại!"

  /** The body and bearer header of `POST Cart/add-item`. */
  datatype AddItemRequest = AddItemRequest(
    flowerId: int, quantity: int, price: int, isCustomOrder: bool, authorization: string)

  /** How the request ended: a reply body, or a thrown error carrying `response.data.message` if any. */
  datatype AddItemReply = Answered(success: bool, message: Option<string>) | Threw(message: Option<string>)

  /** What a click did: the request sent (if any), the toast, and whether the cart count was refreshed. */
  datatype ClickOutcome = ClickOutcome(request: Option<AddItemRequest>, notice: Notice, refreshCount: bool)

  /** `handleAddToCart`, with the token read from storage and the server's reply as inputs. */
  function HandleAddToCart(token: Option<string>, flower: Flower, reply: AddItemReply): (r: ClickOutcome)
    ensures r.request.None? <==> !Truthy(token)
    ensures !Truthy(token) ==> r.notice == Error(LoginRequiredMessage) && !r.refreshCount
    ensures r.request.Some? ==>
      r.request.value == AddItemRequest(flower.flowerId, 1, flower.price, false, "Bearer " + token.value)
    ensures r.refreshCount <==> Truthy(token) && reply.Answered? && reply.success
    ensures r.refreshCount ==> r.notice == Success(AddedMessage(flower.flowerName))
    ensures Truthy(token) && !r.refreshCount ==> r.notice == Error(Or(reply.message, AddFailedMessage))
  {
    if !Truthy(token) then
      ClickOutcome(None, Error(LoginRequiredMessage), false)
    else
      var request := AddItemRequest(flower.flowerId, 1, flower.price, false, "Bearer " + token.value);
      match reply
      case Answered(true, _) => ClickOutcome(Some(request), Success(AddedMessage(flower.flowerName)), true)
      case Answered(false, message) => ClickOutcome(Some(request), Error(Or(message, AddFailedMessage)), false)
      case Threw(message) => ClickOutcome(Some(request), Error(Or(message, AddFailedMessage)), false)
  }

  /** The token the click handler reads: an empty stored token counts as no session. */
  lemma EmptyTokenBlocksAdd(entries: map<string, Value>, flower: Flower, reply: AddItemReply)
    requires TokenKey in entries && entries[TokenKey] == Text("")
    ensures HandleAddToCart(GetText(entries, TokenKey), flower, reply).request.None?
  {
  }

  // ---------------------------------------------------------------------
  // calculateTimeRemaining: the three-day sale window
  // ---------------------------------------------------------------------

  const SecondMs: int := 1000
  const MinuteMs: int := 60 * 1000
  const HourMs: int := 60 * 60 * 1000
  /** The listing's time stamp is shifted by seven hours to local time (UTC+7). */
  const LocalOffsetMs: int := 7 * 60 * 60 * 1000
  /** A listing is on sale for three days. */
  const ListingWindowMs: int := 3 * 24 * 60 * 60 * 1000

  const ExpiredText: string := "Hết hạn"
  const RemainingPrefix: string := "Hết hạn sau: "

  /** The countdown shown on the card. */
  datatype Countdown = Expired | Remaining(hours: nat, minutes: nat, seconds: nat)

  /** Milliseconds left in the sale window at `now`, both times in milliseconds. */
  function RemainingMs(listingTime: int, now: int): (r: int)
    ensures r > 0 <==> now < listingTime + LocalOffsetMs + ListingWindowMs
  {
    ListingWindowMs - (now - (listingTime + LocalOffsetMs))
  }

  /**
   * `calculateTimeRemaining`: expired when no time is left, otherwise the
   * time left split into whole hours, minutes below 60 and seconds below 60,
   * which together fall short of the exact time left by less than a second.
   */
  function CalculateTimeRemaining(listingTime: int, now: int): (c: Countdown)
    ensures c.Expired? <==> RemainingMs(listingTime, now) <= 0
    ensures c.Remaining? ==> c.minutes < 60 && c.seconds < 60
    ensures c.Remaining? ==>
      var t := RemainingMs(listingTime, now);
      var shown := c.hours * HourMs + c.minutes * MinuteMs + c.seconds * SecondMs;
      shown <= t < shown + SecondMs
  {
    var t := RemainingMs(listingTime, now);
    if t > 0 then
      var h := t / HourMs;
      var m := (t % HourMs) / MinuteMs;
      var s := (t % MinuteMs) / SecondMs;
      SplitMillis(t);
      Remaining(h, m, s)
    else
      Expired
  }

  /** The split of a positive millisecond count into hours, minutes and seconds. */
  lemma SplitMillis(t: int)
    requires t > 0
    ensures (t % HourMs) / MinuteMs < 60 && (t % MinuteMs) / SecondMs < 60
    ensures var shown := (t / HourMs) * HourMs + ((t % HourMs) / MinuteMs) * MinuteMs + ((t % MinuteMs) / SecondMs) * SecondMs;
      shown <= t < shown + SecondMs
  {
    var h, r1 := t / HourMs, t % HourMs;
    assert t == h * HourMs + r1;
    var m, r2 := r1 / MinuteMs, r1 % MinuteMs;
    assert r1 == m * MinuteMs + r2;
    assert t % MinuteMs == r2 by {
      assert t == (h * 60 + m) * MinuteMs + r2;
    }
    var s, r3 := r2 / SecondMs, r2 % SecondMs;
    assert r2 == s * SecondMs + r3;
  }

  /** The text the card shows: `Hết hạn`, or `Hết hạn sau: ${h}h ${m}m ${s}s`. */
  function CountdownText(c: Countdown): (t: string)
    ensures c.Expired? ==> t == ExpiredText
    ensures c.Remaining? ==> |t| > |RemainingPrefix| && t[..|RemainingPrefix|] == RemainingPrefix
  {
    match c
    case Expired => ExpiredText
    case Remaining(h, m, s) => RemainingPrefix + CountdownTail(h, m, s)
  }

  /** `${hours}h ${minutes}m ${seconds}s`, built from its parts. */
  function CountdownTail(h: nat, m: nat, s: nat): string {
    NatToString(h) + ['h'] + MinutesAndSeconds(m, s)
  }

  /** ` ${minutes}m ${seconds}s`. */
  function MinutesAndSeconds(m: nat, s: nat): string {
    [' '] + NatToString(m) + ['m'] + SecondsPart(s)
  }

  /** ` ${seconds}s`. */
  function SecondsPart(s: nat): string {
    [' '] + NatToString(s) + ['s']
  }

  /** The seconds field and its trailing `s`, after the separating space. */
  lemma SecondsPartInjective(s1: nat, s2: nat)
    requires SecondsPart(s1) == SecondsPart(s2)
    ensures s1 == s2
  {
    var q1 := SecondsPart(s1);
    var q2 := SecondsPart(s2);
    assert NatToString(s1) == q1[1..|q1| - 1];
    assert NatToString(s2) == q2[1..|q2| - 1];
    NatToStringInjective(s1, s2);
  }

  /** The text after the prefix determines the hours, minutes and seconds. */
  lemma CountdownTailInjective(h1: nat, m1: nat, s1: nat, h2: nat, m2: nat, s2: nat)
    requires CountdownTail(h1, m1, s1) == CountdownTail(h2, m2, s2)
    ensures h1 == h2 && m1 == m2 && s1 == s2
  {
    var q1, q2 := SecondsPart(s1), SecondsPart(s2);
    var r1, r2 := MinutesAndSeconds(m1, s1), MinutesAndSeconds(m2, s2);
    SplitAtMarker(NatToString(h1), r1, NatToString(h2), r2, 'h');
    NatToStringInjective(h1, h2);
    assert r1[1..] == NatToString(m1) + ['m'] + q1;
    assert r2[1..] == NatToString(m2) + ['m'] + q2;
    SplitAtMarker(NatToString(m1), q1, NatToString(m2), q2, 'm');
    NatToStringInjective(m1, m2);
    SecondsPartInjective(s1, s2);
  }

  /**
   * The countdown text is unambiguous: two countdowns that show the same
   * text are the same countdown, so the digits read back as the hours,
   * minutes and seconds.
   */
  lemma CountdownTextDeterminesCountdown(c1: Countdown, c2: Countdown)
    requires CountdownText(c1) == CountdownText(c2)
    ensures c1 == c2
  {
    ExpiredTextIffExpired(c1);
    ExpiredTextIffExpired(c2);
    if c1.Remaining? && c2.Remaining? {
      var t1 := CountdownTail(c1.hours, c1.minutes, c1.seconds);
      var t2 := CountdownTail(c2.hours, c2.minutes, c2.seconds);
      assert t1 == (RemainingPrefix + t1)[|RemainingPrefix|..];
      assert t2 == (RemainingPrefix + t2)[|RemainingPrefix|..];
      CountdownTailInjective(c1.hours, c1.minutes, c1.seconds, c2.hours, c2.minutes, c2.seconds);
    }
  }

  /**
   * The card's `isExpired` flag compares the text with `Hết hạn`; that
   * comparison holds exactly for an expired countdown.
   */
  lemma ExpiredTextIffExpired(c: Countdown)
    ensures CountdownText(c) == ExpiredText <==> c.Expired?
  {
    if c.Remaining? {
      assert |CountdownText(c)| > |RemainingPrefix| > |ExpiredText|;
    }
  }

  /** Once a listing has expired it stays expired. */
  lemma ExpiryIsPermanent(listingTime: int, now: int, later: int)
    requires now <= later
    requires CalculateTimeRemaining(listingTime, now).Expired?
    ensures CalculateTimeRemaining(listingTime, later).Expired?
  {
  }

  /**
   * The card offers the add-to-cart button exactly for a priced listing that
   * is in stock and not expired.
   */
  function ShowsAddButton(flower: Flower, now: int): (shown: bool)
    ensures shown <==> RemainingMs(flower.listingDate, now) > 0 && flower.quantity > 0 && flower.price > 0
  {
    var isExpired := CountdownText(CalculateTimeRemaining(flower.listingDate, now)) == ExpiredText;
    ExpiredTextIffExpired(CalculateTimeRemaining(flower.listingDate, now));
    flower.price > 0 && flower.quantity > 0 && !isExpired
  }
}
