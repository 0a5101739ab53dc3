/** The order workflow: checking a member's cart out into an order (stock
    validation, line snapshots, stock and sales counters, the bulk and
    loyalty discounts, the claim code, cart teardown), the order status
    changes (cancel, claim by code, the free-form status setter), deletion,
    the member's order list and the response projection. */
module OrderController {
  import opened Wrappers
  import opened Text
  import opened Ordering
  import opened Entities
  import opened Data

  newtype byte = x: int | 0 <= x < 256

  /** The caller's id: the "sub" claim, else the name-identifier claim,
      parsed with `long.TryParse`. */
  function UserId(user: Principal): Option<int> {
    ParseLong(user.sub.OrElse(user.nameIdentifier))
  }

  // ----- claim code -----

  /** Three random bytes read as a little-endian 32-bit integer whose top byte
      is zero, reduced modulo one million. */
  function ClaimCodeValue(b0: byte, b1: byte, b2: byte): (v: nat)
    ensures v < 1_000_000
  {
    (b0 as int + 256 * b1 as int + 65536 * b2 as int) % 1_000_000
  }

  /** `GenerateClaimCode`: the value rendered with `ToString("D6")`. */
  function ClaimCode(b0: byte, b1: byte, b2: byte): (code: string)
    ensures |code| == 6 && AllDigits(code)
    ensures DigitsValue(code) == (b0 as int + 256 * b1 as int + 65536 * b2 as int) % 1_000_000
  {
    var v := ClaimCodeValue(b0, b1, b2);
    assert Pow10(6) == 1_000_000;
    FormatDExact(v, 6);
    FormatD(v, 6)
  }

  /** Every six-digit code from 000000 to 999999 can be drawn. */
  lemma ClaimCodeCoversAll(n: nat)
    requires n < 1_000_000
    ensures exists b0: byte, b1: byte, b2: byte :: DigitsValue(ClaimCode(b0, b1, b2)) == n
  {
    var lo, q := n % 256, n / 256;
    var mid, hi := q % 256, q / 256;
    assert n == lo + 256 * q;
    assert q == mid + 256 * hi;
    assert hi < 256;
    var b0, b1, b2 := lo as byte, mid as byte, hi as byte;
    assert b0 as int + 256 * b1 as int + 65536 * b2 as int == n;
    assert DigitsValue(ClaimCode(b0, b1, b2)) == n;
  }

  /** Two draws give the same code exactly when they give the same value. */
  lemma ClaimCodeInjective(a0: byte, a1: byte, a2: byte, c0: byte, c1: byte, c2: byte)
    ensures ClaimCode(a0, a1, a2) == ClaimCode(c0, c1, c2) <==> ClaimCodeValue(a0, a1, a2) == ClaimCodeValue(c0, c1, c2)
  {
  }

  // ----- validation -----

  datatype OrderError =
    | Unauthenticated
    | EmptyCart
    | BookNotFound(bookId: int)
    | InsufficientStock(title: string, available: int, requested: int)

  /** What is wrong with one cart line, if anything: its book is missing, or
      it asks for more than the book's stock. */
  function LineError(books: seq<Book>, item: CartItem): (e: Option<OrderError>)
    ensures e.None? <==> BookIndex(books, item.bookId).Some? && item.quantity <= books[BookIndex(books, item.bookId).value].stock
  {
    match BookIndex(books, item.bookId)
    case None => Some(BookNotFound(item.bookId))
    case Some(j) =>
      if item.quantity > books[j].stock then Some(InsufficientStock(books[j].title, books[j].stock, item.quantity))
      else None
  }

  /** The error of the first bad line, scanning the cart in order. */
  function StockError(books: seq<Book>, items: seq<CartItem>): (e: Option<OrderError>)
    ensures e.None? <==> forall k :: 0 <= k < |items| ==> LineError(books, items[k]).None?
    ensures e.Some? ==>
      exists k :: 0 <= k < |items| && e == LineError(books, items[k])
        && forall j :: 0 <= j < k ==> LineError(books, items[j]).None?
  {
    if items == [] then None
    else if LineError(books, items[0]).Some? then LineError(books, items[0])
    else
      var rest := StockError(books, items[1..]);
      assert forall k :: 1 <= k < |items| ==> items[k] == items[1..][k - 1];
      if rest.Some? then
        var k :| 0 <= k < |items[1..]| && rest == LineError(books, items[1..][k])
          && forall j :: 0 <= j < k ==> LineError(books, items[1..][j]).None?;
        assert forall j :: 0 <= j < k + 1 ==> LineError(books, items[j]).None?;
        rest
      else rest
  }

  /** The first bad line is the one the scan stops at. */
  lemma StockErrorAt(books: seq<Book>, items: seq<CartItem>, k: nat)
    requires k < |items| && LineError(books, items[k]).Some?
    requires forall j :: 0 <= j < k ==> LineError(books, items[j]).None?
    ensures StockError(books, items) == LineError(books, items[k])
  {
    var e := StockError(books, items);
    var k' :| 0 <= k' < |items| && e == LineError(books, items[k'])
      && forall j :: 0 <= j < k' ==> LineError(books, items[j]).None?;
    assert !(k < k') && !(k' < k);
  }

  /** Why the member's cart cannot be checked out, if it cannot. */
  function CheckoutError(books: seq<Book>, carts: seq<Cart>, memberId: int): (e: Option<OrderError>)
    ensures e.None? <==>
      && CartIndex(carts, memberId).Some?
      && carts[CartIndex(carts, memberId).value].items != []
      && StockError(books, carts[CartIndex(carts, memberId).value].items).None?
  {
    match CartIndex(carts, memberId)
    case None => Some(EmptyCart)
    case Some(ci) =>
      if carts[ci].items == [] then Some(EmptyCart) else StockError(books, carts[ci].items)
  }

  predicate AllLinesHaveBooks(books: seq<Book>, items: seq<CartItem>) {
    forall k :: 0 <= k < |items| ==> BookIndex(books, items[k].bookId).Some?
  }

  // ----- line snapshots and stock -----

  /** `unitPrice * quantity`. */
  function LineTotal(unitPrice: real, quantity: int): real {
    unitPrice * quantity as real
  }

  /** The order line a cart line becomes, at the book's current price. */
  function Snapshot(book: Book, item: CartItem, now: Ticks): OrderItem {
    OrderItem(book.id, item.quantity, book.price, 0.0, LineTotal(book.price, item.quantity), now, now)
  }

  /** The order lines of a cart, one per cart line, in cart order. */
  function Lines(books: seq<Book>, items: seq<CartItem>, now: Ticks): seq<OrderItem>
    requires AllLinesHaveBooks(books, items)
  {
    if items == [] then []
    else
      var last := items[|items| - 1];
      Lines(books, items[..|items| - 1], now) + [Snapshot(books[BookIndex(books, last.bookId).value], last, now)]
  }

  /** `book.Stock -= quantity; book.TotalSold += quantity`. */
  function Sell(book: Book, quantity: int): Book {
    book.(stock := book.stock - quantity, totalSold := book.totalSold + quantity)
  }

  /** One line taken from stock: the book's stock falls and its sold count
      rises by the line's quantity. */
  function DeductLine(books: seq<Book>, item: CartItem): (r: seq<Book>)
    ensures |r| == |books|
    ensures forall k :: 0 <= k < |r| ==> r[k].id == books[k].id && r[k].price == books[k].price && r[k].title == books[k].title
  {
    match BookIndex(books, item.bookId)
    case None => books
    case Some(j) => books[j := Sell(books[j], item.quantity)]
  }

  /** The books after every line of the cart is taken from stock, in order. */
  function Deduct(books: seq<Book>, items: seq<CartItem>): (r: seq<Book>)
    ensures |r| == |books|
    ensures forall k :: 0 <= k < |r| ==> r[k].id == books[k].id && r[k].price == books[k].price && r[k].title == books[k].title
  {
    if items == [] then books else DeductLine(Deduct(books, items[..|items| - 1]), items[|items| - 1])
  }

  /** The total quantity of the cart lines that resolve to the book at `j`. */
  function QuantityFor(books: seq<Book>, items: seq<CartItem>, j: nat): int {
    if items == [] then 0
    else
      var last := items[|items| - 1];
      QuantityFor(books, items[..|items| - 1], j) + (if BookIndex(books, last.bookId) == Some(j) then last.quantity else 0)
  }

  /** Each order line copies its cart line's book and quantity, takes the
      book's price as unit price, has no line discount, and totals price times
      quantity. */
  lemma {:induction false} LinesSnapshot(books: seq<Book>, items: seq<CartItem>, now: Ticks)
    requires AllLinesHaveBooks(books, items)
    ensures |Lines(books, items, now)| == |items|
    ensures forall k :: 0 <= k < |items| ==>
      var line := Lines(books, items, now)[k];
      var price := books[BookIndex(books, items[k].bookId).value].price;
      && line.bookId == items[k].bookId && line.quantity == items[k].quantity
      && line.unitPrice == price && line.discountApplied == 0.0
      && line.lineTotal == LineTotal(price, items[k].quantity)
    decreases |items|
  {
    if items != [] {
      var init := items[..|items| - 1];
      AllLinesPrefix(books, items, |items| - 1);
      LinesSnapshot(books, init, now);
      var l := Lines(books, items, now);
      assert l == Lines(books, init, now) + [Snapshot(books[BookIndex(books, items[|items| - 1].bookId).value], items[|items| - 1], now)];
      forall k | 0 <= k < |init| ensures init[k] == items[k] {
      }
    }
  }

  /** One turn of the line loop: the next line is deducted and snapshotted. */
  lemma TakeStep(books0: seq<Book>, items: seq<CartItem>, i: nat, now: Ticks)
    requires i < |items| && AllLinesHaveBooks(books0, items)
    ensures AllLinesHaveBooks(books0, items[..i]) && AllLinesHaveBooks(books0, items[..i + 1])
    ensures Deduct(books0, items[..i + 1]) == DeductLine(Deduct(books0, items[..i]), items[i])
    ensures Lines(books0, items[..i + 1], now)
      == Lines(books0, items[..i], now) + [Snapshot(books0[BookIndex(books0, items[i].bookId).value], items[i], now)]
  {
    AllLinesPrefix(books0, items, i);
    AllLinesPrefix(books0, items, i + 1);
    assert items[..i + 1][..i] == items[..i];
    assert items[..i + 1][i] == items[i];
  }

  lemma AllLinesPrefix(books: seq<Book>, items: seq<CartItem>, i: nat)
    requires AllLinesHaveBooks(books, items) && i <= |items|
    ensures AllLinesHaveBooks(books, items[..i])
  {
    assert forall k :: 0 <= k < i ==> items[..i][k] == items[k];
  }

  /** Taking a cart from stock changes each book's stock and sold count by
      the quantity its lines ask for, and nothing else about any book. */
  lemma {:induction false} DeductEffect(books: seq<Book>, items: seq<CartItem>)
    ensures |Deduct(books, items)| == |books|
    ensures forall j :: 0 <= j < |books| ==>
      Deduct(books, items)[j] == Sell(books[j], QuantityFor(books, items, j))
    decreases |items|
  {
    if items != [] {
      var init, last := items[..|items| - 1], items[|items| - 1];
      var d := Deduct(books, init);
      DeductEffect(books, init);
      BookIndexSameIds(books, d, last.bookId);
      forall j | 0 <= j < |books|
        ensures Deduct(books, items)[j] == Sell(books[j], QuantityFor(books, items, j))
      {
        SellTwice(books[j], QuantityFor(books, init, j), last.quantity);
      }
    }
  }

  lemma SellTwice(b: Book, p: int, q: int)
    ensures Sell(Sell(b, p), q) == Sell(b, p + q)
  {
  }

  /** With distinct books, at most one line resolves to a given book. */
  lemma {:induction false} QuantityForDistinct(books: seq<Book>, items: seq<CartItem>, j: nat)
    requires j < |books| && DistinctBooks(items)
    ensures QuantityFor(books, items, j) == 0
      || exists k :: 0 <= k < |items| && BookIndex(books, items[k].bookId) == Some(j)
           && QuantityFor(books, items, j) == items[k].quantity
    decreases |items|
  {
    if items != [] {
      var init, last := items[..|items| - 1], items[|items| - 1];
      assert forall k :: 0 <= k < |init| ==> init[k] == items[k];
      QuantityForDistinct(books, init, j);
    }
  }

  /** A validated cart with one line per book leaves no stock negative. */
  lemma DistinctLinesKeepStock(books: seq<Book>, items: seq<CartItem>)
    requires StockError(books, items).None? && DistinctBooks(items)
    ensures forall j :: 0 <= j < |books| && books[j].stock >= 0 ==> Deduct(books, items)[j].stock >= 0
  {
    DeductEffect(books, items);
    forall j | 0 <= j < |books| && books[j].stock >= 0 ensures Deduct(books, items)[j].stock >= 0 {
      QuantityForDistinct(books, items, j);
      if QuantityFor(books, items, j) != 0 {
        var k :| 0 <= k < |items| && BookIndex(books, items[k].bookId) == Some(j)
          && QuantityFor(books, items, j) == items[k].quantity;
        assert LineError(books, items[k]).None?;
      }
    }
  }

  function SampleBook(id: int, price: real, stock: int): Book {
    Book(id, 1, 1, "", "", "", "", price, 0, "", stock, true, false, 0.0, None, None,
         "", "", "", false, 0.0, 0, 0, 0, [])
  }

  /** Stock is checked line by line against the stock before checkout, so two
      lines for one book can together overdraw it: two lines of 3 against a
      stock of 4 pass validation and leave -2. */
  lemma DuplicateLinesOverdraw()
    ensures var books := [SampleBook(7, 10.0, 4)];
      var items := [CartItem(7, 3, 0, 0), CartItem(7, 3, 0, 0)];
      StockError(books, items).None? && Deduct(books, items)[0].stock == -2
  {
    var books := [SampleBook(7, 10.0, 4)];
    var items := [CartItem(7, 3, 0, 0), CartItem(7, 3, 0, 0)];
    assert LineError(books, items[0]).None? && LineError(books, items[1]).None?;
    assert items[..1] == [items[0]] && items[..1][..0] == [];
  }

  // ----- discounts -----

  /** `items.Sum(i => i.Quantity)`. */
  function TotalQuantity(lines: seq<OrderItem>): int {
    if lines == [] then 0 else TotalQuantity(lines[..|lines| - 1]) + lines[|lines| - 1].quantity
  }

  /** The sum of the line totals. */
  function Subtotal(lines: seq<OrderItem>): real {
    if lines == [] then 0.0 else Subtotal(lines[..|lines| - 1]) + lines[|lines| - 1].lineTotal
  }

  /** The orders of a member an admin has marked "completed". */
  function CompletedCount(orders: seq<Order>, memberId: int): nat {
    if orders == [] then 0
    else
      var last := orders[|orders| - 1];
      CompletedCount(orders[..|orders| - 1], memberId)
        + (if last.memberId == memberId && last.orderStatus == "completed" then 1 else 0)
  }

  datatype Pricing = Pricing(totalPrice: real, discountAmount: real, appliedDiscounts: string)

  predicate BulkApplies(quantity: int) {
    quantity >= 5
  }

  predicate LoyaltyApplies(completed: nat) {
    (completed + 1) % 11 == 0
  }

  /** The two discounts in the order they are applied: 5% off the subtotal
      for five or more books, then 10% off what remains when this order is a
      multiple of eleven among the member's completed ones. */
  function ApplyDiscounts(subtotal: real, quantity: int, completed: nat): Pricing {
    var bulk := if BulkApplies(quantity) then subtotal * 0.05 else 0.0;
    var afterBulk := subtotal - bulk;
    var loyalty := if LoyaltyApplies(completed) then afterBulk * 0.10 else 0.0;
    var tags := (if BulkApplies(quantity) then ["bulk"] else []) + (if LoyaltyApplies(completed) then ["loyalty"] else []);
    Pricing(afterBulk - loyalty, bulk + loyalty, Join(",", tags))
  }

  /** The price of an order in closed form: the two discounts, in sequence,
      amount to 5%, 10% or 14.5% off, and the discount and the price add up
      to the subtotal. */
  lemma DiscountClosedForm(subtotal: real, quantity: int, completed: nat)
    ensures var p := ApplyDiscounts(subtotal, quantity, completed);
      && p.totalPrice + p.discountAmount == subtotal
      && (BulkApplies(quantity) && LoyaltyApplies(completed) ==> p == Pricing(subtotal * 0.855, subtotal * 0.145, "bulk,loyalty"))
      && (BulkApplies(quantity) && !LoyaltyApplies(completed) ==> p == Pricing(subtotal * 0.95, subtotal * 0.05, "bulk"))
      && (!BulkApplies(quantity) && LoyaltyApplies(completed) ==> p == Pricing(subtotal * 0.9, subtotal * 0.1, "loyalty"))
      && (!BulkApplies(quantity) && !LoyaltyApplies(completed) ==> p == Pricing(subtotal, 0.0, ""))
  {
    assert Join(",", ["bulk", "loyalty"]) == "bulk,loyalty";
    assert Join(",", ["bulk"]) == "bulk";
    assert Join(",", ["loyalty"]) == "loyalty";
  }

  /** The applied-discount tags are one of four strings, and name "bulk"
      exactly when at least five books are bought and "loyalty" exactly when
      the loyalty rule fires. */
  lemma AppliedDiscountTags(subtotal: real, quantity: int, completed: nat)
    ensures var t := ApplyDiscounts(subtotal, quantity, completed).appliedDiscounts;
      && t in {"", "bulk", "loyalty", "bulk,loyalty"}
      && (Contains(t, "bulk") <==> quantity >= 5)
      && (Contains(t, "loyalty") <==> (completed + 1) % 11 == 0)
  {
    DiscountClosedForm(subtotal, quantity, completed);
    TagSearches();
  }

  /** The substring searches on the four possible tag strings. */
  lemma TagSearches()
    ensures Contains("bulk", "bulk") && !Contains("bulk", "loyalty")
    ensures Contains("loyalty", "loyalty") && !Contains("loyalty", "bulk")
    ensures Contains("bulk,loyalty", "bulk") && Contains("bulk,loyalty", "loyalty")
    ensures !Contains("", "bulk") && !Contains("", "loyalty")
  {
    assert OccursAt("bulk", "bulk", 0) && OccursAt("loyalty", "loyalty", 0);
    assert "bulk,loyalty"[0..4] == "bulk" && "bulk,loyalty"[5..12] == "loyalty";
    assert OccursAt("bulk,loyalty", "bulk", 0) && OccursAt("bulk,loyalty", "loyalty", 5);
    forall i | 0 <= i <= |"loyalty"| - |"bulk"| ensures !OccursAt("loyalty", "bulk", i) {
      assert "loyalty"[i..i + 4][0] != 'b';
    }
  }

  /** Three books at 10.00 and two at 5.00: a subtotal of 40.00, five books,
      so 2.00 bulk discount and 38.00 to pay. */
  lemma BulkExample()
    ensures ApplyDiscounts(40.0, 5, 0) == Pricing(38.0, 2.0, "bulk")
  {
    DiscountClosedForm(40.0, 5, 0);
  }

  // ----- the new order -----

  /** The order a checkout creates from its lines. */
  function NewOrder(id: int, memberId: int, lines: seq<OrderItem>, completed: nat, now: Ticks, code: string): Order {
    var p := ApplyDiscounts(Subtotal(lines), TotalQuantity(lines), completed);
    Order(id, memberId, p.totalPrice, p.discountAmount, p.appliedDiscounts, "pending", false, code,
          now, now + 7 * TicksPerDay, None, "pickup", now, now, lines)
  }

  /** A new order is pending, unpaid, for pickup, due seven days after it is
      placed, and its price and discount add up to its lines' subtotal. */
  lemma NewOrderShape(id: int, memberId: int, lines: seq<OrderItem>, completed: nat, now: Ticks, code: string)
    ensures var o := NewOrder(id, memberId, lines, completed, now, code);
      && o.orderStatus == "pending" && !o.isPaid && o.fulfillmentMethod == "pickup"
      && o.pickupDeadline == o.orderDate + 7 * TicksPerDay && o.orderDate == now
      && o.cancelledAt.None? && o.items == lines && o.claimCode == code
      && o.totalPrice + o.discountAmount == Subtotal(lines)
  {
    DiscountClosedForm(Subtotal(lines), TotalQuantity(lines), completed);
  }

  // ----- responses -----

  datatype OrderItemResponse = OrderItemResponse(
    bookId: int, title: string, image: string, quantity: int, unitPrice: real, discountApplied: real)

  datatype OrderResponse = OrderResponse(
    id: int, claimCode: string, totalPrice: real, discountAmount: real, appliedDiscounts: string,
    orderStatus: string, isPaid: bool, orderDate: Ticks, pickupDeadline: Ticks,
    items: seq<OrderItemResponse>)

  function ItemResponse(books: seq<Book>, item: OrderItem): (r: OrderItemResponse)
    ensures r.bookId == item.bookId && r.quantity == item.quantity
    ensures r.unitPrice == item.unitPrice && r.discountApplied == item.discountApplied
    ensures BookIndex(books, item.bookId).None? ==> r.title == "Unknown" && r.image == "/fallback.png"
    ensures BookIndex(books, item.bookId).Some? ==>
      var b := books[BookIndex(books, item.bookId).value];
      r.title == b.title && r.image == (if b.images == [] then "/fallback.png" else b.images[0].url)
  {
    match BookIndex(books, item.bookId)
    case None => OrderItemResponse(item.bookId, "Unknown", "/fallback.png", item.quantity, item.unitPrice, item.discountApplied)
    case Some(j) =>
      var image := if books[j].images == [] then "/fallback.png" else books[j].images[0].url;
      OrderItemResponse(item.bookId, books[j].title, image, item.quantity, item.unitPrice, item.discountApplied)
  }

  /** `BuildOrderResponseFromEntity`: the order's own fields, and one item per
      line with the book's title and first image, or "Unknown" and
      "/fallback.png" when the book is gone. */
  function BuildOrderResponse(order: Order, books: seq<Book>): (r: OrderResponse)
    ensures r.id == order.id && r.claimCode == order.claimCode && r.totalPrice == order.totalPrice
    ensures r.discountAmount == order.discountAmount && r.appliedDiscounts == order.appliedDiscounts
    ensures r.orderStatus == order.orderStatus && r.isPaid == order.isPaid
    ensures r.orderDate == order.orderDate && r.pickupDeadline == order.pickupDeadline
    ensures |r.items| == |order.items|
    ensures forall k :: 0 <= k < |r.items| ==> r.items[k] == ItemResponse(books, order.items[k])
  {
    OrderResponse(order.id, order.claimCode, order.totalPrice, order.discountAmount, order.appliedDiscounts,
                  order.orderStatus, order.isPaid, order.orderDate, order.pickupDeadline,
                  seq(|order.items|, k requires 0 <= k < |order.items| => ItemResponse(books, order.items[k])))
  }

  // ----- checkout -----

  datatype PlaceResult = Placed(response: OrderResponse) | Rejected(error: OrderError)

  /** The stock check of `CreateOrder`: the lines are scanned in order and
      the first bad one stops the checkout. */
  method ValidateCart(books: seq<Book>, items: seq<CartItem>) returns (e: Option<OrderError>)
    ensures e == StockError(books, items)
  {
    var k := 0;
    while k < |items|
      invariant 0 <= k <= |items|
      invariant forall j :: 0 <= j < k ==> LineError(books, items[j]).None?
    {
      var item := items[k];
      var bi := BookIndex(books, item.bookId);
      if bi.None? {
        StockErrorAt(books, items, k);
        return Some(BookNotFound(item.bookId));
      }
      var book := books[bi.value];
      if item.quantity > book.stock {
        StockErrorAt(books, items, k);
        return Some(InsufficientStock(book.title, book.stock, item.quantity));
      }
      k := k + 1;
    }
    return None;
  }

  /** The line loop of `CreateOrder`: each cart line becomes an order line at
      its book's price, and is taken from the book's stock. */
  method TakeFromStock(db: AppDbContext, items: seq<CartItem>, now: Ticks)
    returns (lines: seq<OrderItem>, total: real)
    requires AllLinesHaveBooks(db.books, items)
    modifies db`books
    ensures db.books == Deduct(old(db.books), items)
    ensures lines == Lines(old(db.books), items, now)
    ensures total == Subtotal(lines)
  {
    ghost var books0 := db.books;
    lines, total := [], 0.0;
    var i := 0;
    AllLinesPrefix(books0, items, 0);
    while i < |items|
      invariant 0 <= i <= |items|
      invariant AllLinesHaveBooks(books0, items[..i])
      invariant db.books == Deduct(books0, items[..i])
      invariant lines == Lines(books0, items[..i], now)
      invariant total == Subtotal(lines)
    {
      var item := items[i];
      TakeStep(books0, items, i, now);
      BookIndexSameIds(books0, db.books, item.bookId);
      ghost var before := db.books;
      var j := BookIndex(db.books, item.bookId).value;
      var book := db.books[j];
      var unitPrice := book.price;
      var lineTotal := LineTotal(unitPrice, item.quantity);
      lines := lines + [OrderItem(book.id, item.quantity, unitPrice, 0.0, lineTotal, now, now)];
      db.books := db.books[j := Sell(book, item.quantity)];
      total := total + lineTotal;
      i := i + 1;
    }
    assert items[..i] == items;
  }

  /** The discount block of `CreateOrder`, applied to the running total. */
  method PriceOrder(subtotal: real, quantity: int, completed: nat) returns (p: Pricing)
    ensures p == ApplyDiscounts(subtotal, quantity, completed)
  {
    var total := subtotal;
    var discountAmount: real := 0.0;
    var discounts: seq<string> := [];
    if quantity >= 5 {
      var bulkDiscount := total * 0.05;
      total := total - bulkDiscount;
      discountAmount := discountAmount + bulkDiscount;
      discounts := discounts + ["bulk"];
    }
    if (completed + 1) % 11 == 0 {
      var loyaltyDiscount := total * 0.10;
      total := total - loyaltyDiscount;
      discountAmount := discountAmount + loyaltyDiscount;
      discounts := discounts + ["loyalty"];
    }
    p := Pricing(total, discountAmount, Join(",", discounts));
  }

  /** `CreateOrder`. The random bytes of the claim code and the clock are
      inputs. */
  method CreateOrder(db: AppDbContext, user: Principal, now: Ticks, b0: byte, b1: byte, b2: byte)
    returns (r: PlaceResult)
    modifies db`books, db`carts, db`orders, db`nextId
    ensures r.Rejected? ==>
      && db.books == old(db.books) && db.carts == old(db.carts)
      && db.orders == old(db.orders) && db.nextId == old(db.nextId)
    ensures UserId(user).None? ==> r == Rejected(Unauthenticated)
    ensures UserId(user).Some? && CheckoutError(old(db.books), old(db.carts), UserId(user).value).Some? ==>
      r == Rejected(CheckoutError(old(db.books), old(db.carts), UserId(user).value).value)
    ensures UserId(user).Some? && CheckoutError(old(db.books), old(db.carts), UserId(user).value).None? ==>
      var m := UserId(user).value;
      var ci := CartIndex(old(db.carts), m).value;
      var items := old(db.carts)[ci].items;
      && AllLinesHaveBooks(old(db.books), items)
      && db.books == Deduct(old(db.books), items)
      && db.carts == RemoveAt(old(db.carts), ci)
      && db.nextId == old(db.nextId) + 1
      && db.orders == old(db.orders) + [NewOrder(old(db.nextId), m, Lines(old(db.books), items, now),
                                                 CompletedCount(old(db.orders), m), now, ClaimCode(b0, b1, b2))]
      && r == Placed(BuildOrderResponse(db.orders[|db.orders| - 1], db.books))
  {
    var memberId := UserId(user);
    if memberId.None? {
      return Rejected(Unauthenticated);
    }
    var m := memberId.value;
    var ci := CartIndex(db.carts, m);
    if ci.None? || db.carts[ci.value].items == [] {
      return Rejected(EmptyCart);
    }
    var cart := db.carts[ci.value];
    var invalid := ValidateCart(db.books, cart.items);
    if invalid.Some? {
      return Rejected(invalid.value);
    }
    var code := ClaimCode(b0, b1, b2);
    var lines, total := TakeFromStock(db, cart.items, now);
    var completed := CompletedCount(db.orders, m);
    var pricing := PriceOrder(total, TotalQuantity(lines), completed);
    var id := db.NewId();
    var order := Order(id, m, pricing.totalPrice, pricing.discountAmount, pricing.appliedDiscounts,
                       "pending", false, code, now, now + 7 * TicksPerDay, None, "pickup", now, now, lines);
    db.orders := db.orders + [order];
    db.carts := RemoveAt(db.carts, ci.value);
    r := Placed(BuildOrderResponse(order, db.books));
  }

  // ----- status changes -----

  /** `FirstOrDefault(o => o.Id == id)`. */
  function OrderIndex(orders: seq<Order>, id: int): (r: Option<nat>)
    ensures r.Some? ==> r.value < |orders| && orders[r.value].id == id
    ensures r.Some? ==> forall k :: 0 <= k < r.value ==> orders[k].id != id
    ensures r.None? <==> forall k :: 0 <= k < |orders| ==> orders[k].id != id
  {
    FirstIndex(orders, (o: Order) => o.id == id)
  }

  /** `FirstOrDefault(o => o.Id == id && o.MemberId == memberId)`. */
  function OwnOrderIndex(orders: seq<Order>, id: int, memberId: int): (r: Option<nat>)
    ensures r.Some? ==> r.value < |orders| && orders[r.value].id == id && orders[r.value].memberId == memberId
    ensures r.None? <==> forall k :: 0 <= k < |orders| ==> orders[k].id != id || orders[k].memberId != memberId
  {
    FirstIndex(orders, (o: Order) => o.id == id && o.memberId == memberId)
  }

  /** `FirstOrDefault(o => o.ClaimCode == code)`. */
  function ClaimIndex(orders: seq<Order>, code: string): (r: Option<nat>)
    ensures r.Some? ==> r.value < |orders| && orders[r.value].claimCode == code
    ensures r.Some? ==> forall k :: 0 <= k < r.value ==> orders[k].claimCode != code
    ensures r.None? <==> forall k :: 0 <= k < |orders| ==> orders[k].claimCode != code
  {
    FirstIndex(orders, (o: Order) => o.claimCode == code)
  }

  /** `CancelOrder`: only the caller's own pending order can be cancelled; it
      becomes "cancelled" with the cancellation time set. Stock and sales
      counters are not given back. */
  method CancelOrder(db: AppDbContext, user: Principal, id: int, now: Ticks)
    returns (status: Status, response: Option<OrderResponse>)
    modifies db`orders
    ensures db.books == old(db.books)
    ensures status != Ok ==> db.orders == old(db.orders) && response.None?
    ensures UserId(user).None? ==> status == Unauthorized
    ensures UserId(user).Some? ==>
      var k := OwnOrderIndex(old(db.orders), id, UserId(user).value);
      && (k.None? ==> status == NotFound)
      && (k.Some? && old(db.orders)[k.value].orderStatus != "pending" ==> status == BadRequest)
      && (k.Some? && old(db.orders)[k.value].orderStatus == "pending" ==>
            status == Ok
            && db.orders == old(db.orders)[k.value := old(db.orders)[k.value].(orderStatus := "cancelled", cancelledAt := Some(now), updatedAt := now)]
            && response == Some(BuildOrderResponse(db.orders[k.value], db.books)))
  {
    var memberId := UserId(user);
    if memberId.None? {
      return Unauthorized, None;
    }
    var k := OwnOrderIndex(db.orders, id, memberId.value);
    if k.None? {
      return NotFound, None;
    }
    var order := db.orders[k.value];
    if order.orderStatus != "pending" {
      return BadRequest, None;
    }
    order := order.(orderStatus := "cancelled", cancelledAt := Some(now), updatedAt := now);
    db.orders := db.orders[k.value := order];
    return Ok, Some(BuildOrderResponse(order, db.books));
  }

  /** `ClaimOrderByCode`: a blank code is refused; otherwise the first order
      with that code, if pending, becomes "claimed" and paid. */
  method ClaimOrderByCode(db: AppDbContext, code: string, now: Ticks)
    returns (status: Status, response: Option<OrderResponse>)
    modifies db`orders
    ensures status != Ok ==> db.orders == old(db.orders) && response.None?
    ensures IsNullOrWhiteSpace(Some(code)) ==> status == BadRequest
    ensures !IsNullOrWhiteSpace(Some(code)) ==>
      var k := ClaimIndex(old(db.orders), code);
      && (k.None? ==> status == NotFound)
      && (k.Some? && old(db.orders)[k.value].orderStatus != "pending" ==> status == BadRequest)
      && (k.Some? && old(db.orders)[k.value].orderStatus == "pending" ==>
            status == Ok
            && db.orders == old(db.orders)[k.value := old(db.orders)[k.value].(orderStatus := "claimed", isPaid := true, updatedAt := now)]
            && response == Some(BuildOrderResponse(db.orders[k.value], db.books)))
  {
    if IsNullOrWhiteSpace(Some(code)) {
      return BadRequest, None;
    }
    var k := ClaimIndex(db.orders, code);
    if k.None? {
      return NotFound, None;
    }
    var order := db.orders[k.value];
    if order.orderStatus != "pending" {
      return BadRequest, None;
    }
    order := order.(orderStatus := "claimed", isPaid := true, updatedAt := now);
    db.orders := db.orders[k.value := order];
    return Ok, Some(BuildOrderResponse(order, db.books));
  }

  /** A code can be claimed only once: the second attempt finds the same
      order no longer pending. */
  method ClaimTwice(db: AppDbContext, code: string, now: Ticks, later: Ticks)
    returns (first: Status, second: Status)
    modifies db`orders
    ensures first == Ok ==> second == BadRequest
  {
    var response;
    first, response := ClaimOrderByCode(db, code, now);
    second, response := ClaimOrderByCode(db, code, later);
  }

  datatype StatusUpdate = StatusUpdate(orderStatus: string, isPaid: Option<bool>)

  /** `UpdateStatus`: any status string is stored as given, with no check of
      the transition; the paid flag changes only when a value is supplied. */
  method UpdateStatus(db: AppDbContext, id: int, dto: StatusUpdate, now: Ticks)
    returns (status: Status, response: Option<OrderResponse>)
    modifies db`orders
    ensures OrderIndex(old(db.orders), id).None? ==> status == NotFound && db.orders == old(db.orders) && response.None?
    ensures OrderIndex(old(db.orders), id).Some? ==>
      var k := OrderIndex(old(db.orders), id).value;
      var o := old(db.orders)[k];
      && status == Ok
      && db.orders == old(db.orders)[k := o.(orderStatus := dto.orderStatus, isPaid := dto.isPaid.GetOr(o.isPaid), updatedAt := now)]
      && response == Some(BuildOrderResponse(db.orders[k], db.books))
  {
    var k := OrderIndex(db.orders, id);
    if k.None? {
      return NotFound, None;
    }
    var order := db.orders[k.value];
    order := order.(orderStatus := dto.orderStatus);
    if dto.isPaid.Some? {
      order := order.(isPaid := dto.isPaid.value);
    }
    order := order.(updatedAt := now);
    db.orders := db.orders[k.value := order];
    return Ok, Some(BuildOrderResponse(order, db.books));
  }

  /** `DeleteOrder`: the order goes, with its line items; nothing else does. */
  method DeleteOrder(db: AppDbContext, id: int) returns (status: Status, response: Option<OrderResponse>)
    modifies db`orders
    ensures OrderIndex(old(db.orders), id).None? ==> status == NotFound && db.orders == old(db.orders) && response.None?
    ensures OrderIndex(old(db.orders), id).Some? ==>
      var k := OrderIndex(old(db.orders), id).value;
      && status == Ok && db.orders == RemoveAt(old(db.orders), k)
      && response == Some(BuildOrderResponse(old(db.orders)[k], db.books))
  {
    var k := OrderIndex(db.orders, id);
    if k.None? {
      return NotFound, None;
    }
    var dto := BuildOrderResponse(db.orders[k.value], db.books);
    db.orders := RemoveAt(db.orders, k.value);
    return Ok, Some(dto);
  }

  // ----- the member's orders -----

  predicate NewerOrderFirst(a: Order, b: Order) {
    a.createdAt >= b.createdAt
  }

  lemma NewerOrderFirstIsPreorder()
    ensures TotalPreorder(NewerOrderFirst)
  {
  }

  /** `Where(o => o.MemberId == memberId).OrderByDescending(o => o.CreatedAt)`. */
  function MyOrders(orders: seq<Order>, memberId: int): (r: seq<Order>)
    ensures forall o :: o in r <==> o in orders && o.memberId == memberId
    ensures forall o :: multiset(r)[o] == if o.memberId == memberId then multiset(orders)[o] else 0
    ensures Sorted(r, NewerOrderFirst)
  {
    NewerOrderFirstIsPreorder();
    var p := (o: Order) => o.memberId == memberId;
    FilterCount(orders, p);
    var mine := Filter(orders, p);
    SortSorted(mine, NewerOrderFirst);
    var r := Sort(mine, NewerOrderFirst);
    assert forall o :: o in r <==> o in multiset(r);
    assert forall o :: o in mine <==> o in multiset(mine);
    r
  }

  /** `Select(BuildOrderResponseFromEntity)`. */
  function Responses(orders: seq<Order>, books: seq<Book>): (r: seq<OrderResponse>)
    ensures |r| == |orders|
    ensures forall k :: 0 <= k < |orders| ==> r[k] == BuildOrderResponse(orders[k], books)
  {
    if orders == [] then []
    else
      assert forall k :: 1 <= k < |orders| ==> orders[k] == orders[1..][k - 1];
      [BuildOrderResponse(orders[0], books)] + Responses(orders[1..], books)
  }

  /** `GetMyOrders`: unauthorised without a parseable id; otherwise the
      responses of the caller's orders, newest first. */
  function GetMyOrders(db: AppDbContext, user: Principal): (r: Option<seq<OrderResponse>>)
    reads db
    ensures UserId(user).None? ==> r.None?
    ensures UserId(user).Some? ==> r == Some(Responses(MyOrders(db.orders, UserId(user).value), db.books))
  {
    var id := UserId(user);
    if id.None? then None else Some(Responses(MyOrders(db.orders, id.value), db.books))
  }

  /** `GetAllOrders`: every order, newest first. */
  function AllOrders(orders: seq<Order>): (r: seq<Order>)
    ensures multiset(r) == multiset(orders)
    ensures Sorted(r, NewerOrderFirst)
  {
    NewerOrderFirstIsPreorder();
    SortSorted(orders, NewerOrderFirst);
    Sort(orders, NewerOrderFirst)
  }

  /** `GetOrderById`: the response of the first order with that id, for any
      signed-in caller, or `None` (NotFound). */
  function GetOrderById(orders: seq<Order>, books: seq<Book>, id: int): (r: Option<OrderResponse>)
    ensures r.None? <==> forall k :: 0 <= k < |orders| ==> orders[k].id != id
    ensures r.Some? ==> r.value.id == id && exists k :: 0 <= k < |orders| && r.value == BuildOrderResponse(orders[k], books)
  {
    match OrderIndex(orders, id)
    case None => None
    case Some(k) => Some(BuildOrderResponse(orders[k], books))
  }
}
