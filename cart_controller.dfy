/** The validated shopping cart: a member has one cart, created on the first
    add; a cart holds at most one line per book, and every line asks for at
    least one copy and, when it was last written, no more than the stock. */
module CartController {
  import opened Wrappers
  import opened Text
  import opened Ordering
  import opened Entities
  import opened Data
  import opened OrderController

  /** `cart.Items.FirstOrDefault(i => i.BookId == bookId)`. */
  function LineIndex(items: seq<CartItem>, bookId: int): (r: Option<nat>)
    ensures r.Some? ==> r.value < |items| && items[r.value].bookId == bookId
    ensures r.Some? ==> forall k :: 0 <= k < r.value ==> items[k].bookId != bookId
    ensures r.None? <==> forall k :: 0 <= k < |items| ==> items[k].bookId != bookId
  {
    FirstIndex(items, (i: CartItem) => i.bookId == bookId)
  }

  /** `CartItems.FirstOrDefault(i => i.BookId == bookId && i.Cart.MemberId == memberId)`:
      the first cart of the member that has a line for the book. */
  function LineCartIndex(carts: seq<Cart>, memberId: int, bookId: int): (r: Option<nat>)
    ensures r.Some? ==> r.value < |carts| && carts[r.value].memberId == memberId
    ensures r.Some? ==> LineIndex(carts[r.value].items, bookId).Some?
    ensures r.None? <==> forall k :: 0 <= k < |carts| ==>
      carts[k].memberId != memberId || LineIndex(carts[k].items, bookId).None?
  {
    FirstIndex(carts, (c: Cart) => c.memberId == memberId && LineIndex(c.items, bookId).Some?)
  }

  // ----- the store invariant the cart actions keep -----

  predicate OneCartPerMember(carts: seq<Cart>) {
    forall i, j :: 0 <= i < j < |carts| ==> carts[i].memberId != carts[j].memberId
  }

  predicate PositiveLines(items: seq<CartItem>) {
    forall k :: 0 <= k < |items| ==> items[k].quantity >= 1
  }

  /** One cart per member; in each cart one line per book, each for at least
      one copy. */
  predicate CartsWellFormed(carts: seq<Cart>) {
    && OneCartPerMember(carts)
    && forall i :: 0 <= i < |carts| ==> DistinctBooks(carts[i].items) && PositiveLines(carts[i].items)
  }

  /** In a well-formed store the member's cart is the only cart of theirs, so
      the line lookup `UpdateQuantity` and `RemoveItem` make lands in it. */
  lemma LineCartIsMemberCart(carts: seq<Cart>, memberId: int, bookId: int)
    requires OneCartPerMember(carts) && LineCartIndex(carts, memberId, bookId).Some?
    ensures LineCartIndex(carts, memberId, bookId) == CartIndex(carts, memberId)
  {
    var i := LineCartIndex(carts, memberId, bookId).value;
    var c := CartIndex(carts, memberId).value;
    assert !(c < i) && !(i < c);
  }

  // ----- adding: the repeat-add merge -----

  /** The merge as written: `item.Quantity + request.Quantity` is unchecked
      32-bit `int` arithmetic, and the sum is then compared with the stock. */
  function MergedQuantityAsWritten(existing: int, requested: int, stock: int): (r: Option<int>)
    ensures r.Some? ==> MinInt32 <= r.value <= MaxInt32 && r.value <= stock
    ensures r.Some? ==> (r.value - (existing + requested)) % 0x1_0000_0000 == 0
  {
    var n := Wrap32(existing + requested);
    if n > stock then None else Some(n)
  }

  /** The merge as intended: the mathematical sum, refused above the stock. */
  function MergedQuantity(existing: int, requested: int, stock: int): (r: Option<int>)
    ensures r.Some? <==> existing + requested <= stock
    ensures r.Some? ==> r.value == existing + requested
  {
    if existing + requested > stock then None else Some(existing + requested)
  }

  /** A line already holding `int.MaxValue` copies of a book stocked at
      `int.MaxValue` (both allowed by the checks) accepts one more copy, and
      the line then asks for `int.MinValue` copies. */
  lemma MergeOverflowAccepted()
    ensures MergedQuantityAsWritten(MaxInt32, 1, MaxInt32) == Some(MinInt32)
    ensures MergedQuantity(MaxInt32, 1, MaxInt32).None?
  {
  }

  /** While the sum fits in 32 bits the two merges agree. */
  lemma MergeAgreesWithoutOverflow(existing: int, requested: int, stock: int)
    requires MinInt32 <= existing + requested <= MaxInt32
    ensures MergedQuantityAsWritten(existing, requested, stock) == MergedQuantity(existing, requested, stock)
  {
  }

  /** A merged line asks for at least one copy and no more than the stock. */
  lemma MergedQuantityBounds(existing: int, requested: int, stock: int)
    requires existing >= 1 && requested >= 1
    ensures MergedQuantity(existing, requested, stock).Some? ==>
      1 <= MergedQuantity(existing, requested, stock).value <= stock
  {
  }

  // ----- adding: specification -----

  /** Why `AddToCart` refuses the request, if it does. */
  function AddError(books: seq<Book>, carts: seq<Cart>, memberId: int, bookId: int, quantity: int): (r: Option<Status>)
    ensures r.None? <==>
      && quantity >= 1
      && BookIndex(books, bookId).Some?
      && quantity <= books[BookIndex(books, bookId).value].stock
      && (CartIndex(carts, memberId).Some? && LineIndex(carts[CartIndex(carts, memberId).value].items, bookId).Some? ==>
            var items := carts[CartIndex(carts, memberId).value].items;
            MergedQuantity(items[LineIndex(items, bookId).value].quantity, quantity,
                           books[BookIndex(books, bookId).value].stock).Some?)
    ensures r == Some(NotFound) <==> quantity >= 1 && BookIndex(books, bookId).None?
    ensures r.Some? ==> r.value == NotFound || r.value == BadRequest
  {
    if quantity <= 0 then Some(BadRequest)
    else match BookIndex(books, bookId)
      case None => Some(NotFound)
      case Some(b) =>
        if books[b].stock < quantity then Some(BadRequest)
        else match CartIndex(carts, memberId)
          case None => None
          case Some(c) =>
            match LineIndex(carts[c].items, bookId)
              case None => None
              case Some(k) =>
                if MergedQuantity(carts[c].items[k].quantity, quantity, books[b].stock).None? then Some(BadRequest)
                else None
  }

  /** The cart's lines after adding `quantity` copies of a book: a line for
      the book takes the extra copies, otherwise one new line is appended. */
  function AddLine(items: seq<CartItem>, bookId: int, quantity: int, now: Ticks): (r: seq<CartItem>)
    ensures LineIndex(items, bookId).None? ==> r == items + [CartItem(bookId, quantity, now, now)]
    ensures LineIndex(items, bookId).Some? ==>
      var k := LineIndex(items, bookId).value;
      && |r| == |items|
      && r[k] == items[k].(quantity := items[k].quantity + quantity, updatedAt := now)
      && forall j :: 0 <= j < |items| && j != k ==> r[j] == items[j]
  {
    match LineIndex(items, bookId)
    case None => items + [CartItem(bookId, quantity, now, now)]
    case Some(k) => items[k := items[k].(quantity := items[k].quantity + quantity, updatedAt := now)]
  }

  /** The carts table after a successful add: the member's cart gets the line
      (and a new update time); a member with no cart gets a new one, keyed
      `cartId`. */
  function AddedToCarts(carts: seq<Cart>, memberId: int, cartId: int, bookId: int, quantity: int, now: Ticks): (r: seq<Cart>)
    ensures CartIndex(carts, memberId).None? ==> r == carts + [Cart(cartId, memberId, now, now, [CartItem(bookId, quantity, now, now)])]
    ensures CartIndex(carts, memberId).Some? ==>
      var c := CartIndex(carts, memberId).value;
      && |r| == |carts|
      && r[c] == carts[c].(items := AddLine(carts[c].items, bookId, quantity, now), updatedAt := now)
      && forall j :: 0 <= j < |carts| && j != c ==> r[j] == carts[j]
  {
    match CartIndex(carts, memberId)
    case None => carts + [Cart(cartId, memberId, now, now, [CartItem(bookId, quantity, now, now)])]
    case Some(c) => carts[c := carts[c].(items := AddLine(carts[c].items, bookId, quantity, now), updatedAt := now)]
  }

  /** Adding keeps one line per book, and the book then has a line. */
  lemma {:induction false} AddLineKeepsDistinct(items: seq<CartItem>, bookId: int, quantity: int, now: Ticks)
    requires DistinctBooks(items)
    ensures DistinctBooks(AddLine(items, bookId, quantity, now))
    ensures LineIndex(AddLine(items, bookId, quantity, now), bookId).Some?
  {
    var r := AddLine(items, bookId, quantity, now);
    if LineIndex(items, bookId).None? {
      assert r[|items|].bookId == bookId;
    } else {
      var k := LineIndex(items, bookId).value;
      forall i, j | 0 <= i < j < |r| ensures r[i].bookId != r[j].bookId {
        assert r[i].bookId == items[i].bookId && r[j].bookId == items[j].bookId;
      }
      assert r[k].bookId == bookId;
    }
  }

  /** Adding one copy or more keeps every line at one copy or more. */
  lemma {:induction false} AddLineKeepsPositive(items: seq<CartItem>, bookId: int, quantity: int, now: Ticks)
    requires PositiveLines(items) && quantity >= 1
    ensures PositiveLines(AddLine(items, bookId, quantity, now))
  {
    var added := AddLine(items, bookId, quantity, now);
    if LineIndex(items, bookId).Some? {
      var k := LineIndex(items, bookId).value;
      assert added[k].quantity == items[k].quantity + quantity;
      forall j | 0 <= j < |added| ensures added[j].quantity >= 1 {
        if j != k {
          assert added[j] == items[j];
        }
      }
    } else {
      forall j | 0 <= j < |added| ensures added[j].quantity >= 1 {
        if j < |items| {
          assert added[j] == items[j];
        }
      }
    }
  }

  /** A successful add keeps the carts well-formed: no second cart for the
      member, no second line for the book, no line below one copy. */
  lemma {:induction false} AddKeepsWellFormed(books: seq<Book>, carts: seq<Cart>, memberId: int, cartId: int,
                                               bookId: int, quantity: int, now: Ticks)
    requires CartsWellFormed(carts) && AddError(books, carts, memberId, bookId, quantity).None?
    ensures CartsWellFormed(AddedToCarts(carts, memberId, cartId, bookId, quantity, now))
  {
    var r := AddedToCarts(carts, memberId, cartId, bookId, quantity, now);
    match CartIndex(carts, memberId)
    case None =>
      forall i | 0 <= i < |r| ensures DistinctBooks(r[i].items) && PositiveLines(r[i].items) {
        if i < |carts| {
          assert r[i] == carts[i];
        }
      }
    case Some(c) =>
      var items := carts[c].items;
      AddLineKeepsDistinct(items, bookId, quantity, now);
      AddLineKeepsPositive(items, bookId, quantity, now);
      assert forall i :: 0 <= i < |r| ==> r[i].memberId == carts[i].memberId;
      forall i | 0 <= i < |r| ensures DistinctBooks(r[i].items) && PositiveLines(r[i].items) {
        if i != c {
          assert r[i] == carts[i];
        }
      }
  }

  /** After a successful add the member's cart has a line for the book that
      asks for at least one copy and no more than the book's stock. */
  lemma {:induction false} AddedLineWithinStock(books: seq<Book>, carts: seq<Cart>, memberId: int, cartId: int,
                                                 bookId: int, quantity: int, now: Ticks)
    requires CartsWellFormed(carts) && AddError(books, carts, memberId, bookId, quantity).None?
    ensures var r := AddedToCarts(carts, memberId, cartId, bookId, quantity, now);
      && CartIndex(r, memberId).Some?
      && var items := r[CartIndex(r, memberId).value].items;
      && LineIndex(items, bookId).Some?
      && 1 <= items[LineIndex(items, bookId).value].quantity <= books[BookIndex(books, bookId).value].stock
  {
    var r := AddedToCarts(carts, memberId, cartId, bookId, quantity, now);
    var stock := books[BookIndex(books, bookId).value].stock;
    match CartIndex(carts, memberId)
    case None =>
      assert r[|carts|].memberId == memberId;
      assert CartIndex(r, memberId) == Some(|carts|);
      var items := r[|carts|].items;
      assert items == [CartItem(bookId, quantity, now, now)];
      assert LineIndex(items, bookId) == Some(0);
    case Some(c) =>
      assert r[c].memberId == memberId;
      assert forall k :: 0 <= k < c ==> r[k] == carts[k];
      assert CartIndex(r, memberId) == Some(c);
      AddLineWithinStock(carts[c].items, bookId, quantity, now, stock);
  }

  /** The line a successful add leaves for the book asks for at least one
      copy and no more than the stock. */
  lemma AddLineWithinStock(items: seq<CartItem>, bookId: int, quantity: int, now: Ticks, stock: int)
    requires PositiveLines(items) && 1 <= quantity <= stock
    requires LineIndex(items, bookId).Some? ==>
      MergedQuantity(items[LineIndex(items, bookId).value].quantity, quantity, stock).Some?
    ensures var a := AddLine(items, bookId, quantity, now);
      && LineIndex(a, bookId).Some?
      && 1 <= a[LineIndex(a, bookId).value].quantity <= stock
  {
    var a := AddLine(items, bookId, quantity, now);
    match LineIndex(items, bookId)
    case None =>
      assert a[|items|].bookId == bookId;
      assert forall k :: 0 <= k < |items| ==> a[k] == items[k];
      assert LineIndex(a, bookId) == Some(|items|);
    case Some(k) =>
      assert forall j :: 0 <= j < k ==> a[j] == items[j];
      assert LineIndex(a, bookId) == Some(k);
      MergedQuantityBounds(items[k].quantity, quantity, stock);
  }

  // ----- the actions -----

  /** `AddToCart`: refuses a quantity below one, an unknown book, and more
      copies than the stock, counting those already in the cart; otherwise
      merges into the book's line or appends one, creating the member's cart
      if there is none. A refused request saves nothing. */
  method AddToCart(db: AppDbContext, user: Principal, productId: int, quantity: int, now: Ticks)
    returns (status: Status)
    modifies db`carts, db`nextId
    ensures MemberId(user).None? ==> status == ServerError
    ensures status != Ok ==> db.carts == old(db.carts) && db.nextId == old(db.nextId)
    ensures MemberId(user).Some? ==>
      var m := MemberId(user).value;
      match AddError(old(db.books), old(db.carts), m, productId, quantity)
      case Some(e) => status == e
      case None =>
        && status == Ok
        && db.carts == AddedToCarts(old(db.carts), m, old(db.nextId), productId, quantity, now)
        && db.nextId == old(db.nextId) + (if CartIndex(old(db.carts), m).None? then 1 else 0)
    ensures CartsWellFormed(old(db.carts)) ==> CartsWellFormed(db.carts)
  {
    var memberId := MemberId(user);
    if memberId.None? {
      return ServerError;
    }
    var m := memberId.value;
    if quantity <= 0 {
      return BadRequest;
    }
    var bi := BookIndex(db.books, productId);
    if bi.None? {
      return NotFound;
    }
    var book := db.books[bi.value];
    if book.stock < quantity {
      return BadRequest;
    }
    var ci := CartIndex(db.carts, m);
    var cart: Cart;
    if ci.None? {
      var id := db.NewId();
      cart := Cart(id, m, now, now, []);
    } else {
      cart := db.carts[ci.value];
    }
    var merged;
    merged, cart := MergeIntoCart(cart, productId, quantity, book.stock, now);
    if !merged {
      return BadRequest;
    }
    ghost var before := db.carts;
    if ci.None? {
      assert cart == Cart(old(db.nextId), m, now, now, [CartItem(productId, quantity, now, now)]);
      db.carts := db.carts + [cart];
    } else {
      assert cart == before[ci.value].(items := AddLine(before[ci.value].items, productId, quantity, now), updatedAt := now);
      db.carts := db.carts[ci.value := cart];
    }
    if CartsWellFormed(before) {
      AddKeepsWellFormed(db.books, before, m, cart.id, productId, quantity, now);
    }
    status := Ok;
  }

  /** The merge-or-append step of `AddToCart` on the member's cart: a line
      for the book takes the extra copies unless that exceeds the stock, else
      a new line is appended; the cart's update time is set. */
  method MergeIntoCart(cart: Cart, bookId: int, quantity: int, stock: int, now: Ticks)
    returns (merged: bool, r: Cart)
    ensures merged <==>
      || LineIndex(cart.items, bookId).None?
      || MergedQuantity(cart.items[LineIndex(cart.items, bookId).value].quantity, quantity, stock).Some?
    ensures merged ==> r == cart.(items := AddLine(cart.items, bookId, quantity, now), updatedAt := now)
  {
    r := cart;
    var li := LineIndex(cart.items, bookId);
    if li.Some? {
      var item := cart.items[li.value];
      var newQuantity := item.quantity + quantity;
      if newQuantity > stock {
        return false, r;
      }
      r := r.(items := cart.items[li.value := item.(quantity := newQuantity, updatedAt := now)]);
    } else {
      r := r.(items := cart.items + [CartItem(bookId, quantity, now, now)]);
    }
    r := r.(updatedAt := now);
    merged := true;
  }

  // ----- changing a line's quantity -----

  /** Why `UpdateQuantity` refuses the request, if it does. A line whose book
      is gone would be dereferenced as null: a server error. */
  function UpdateError(books: seq<Book>, carts: seq<Cart>, memberId: int, bookId: int, quantity: int): (r: Option<Status>)
    ensures r.None? <==>
      && quantity >= 1
      && LineCartIndex(carts, memberId, bookId).Some?
      && BookIndex(books, bookId).Some?
      && quantity <= books[BookIndex(books, bookId).value].stock
    ensures r == Some(NotFound) <==> quantity >= 1 && LineCartIndex(carts, memberId, bookId).None?
    ensures r == Some(ServerError) ==> BookIndex(books, bookId).None?
  {
    if quantity <= 0 then Some(BadRequest)
    else if LineCartIndex(carts, memberId, bookId).None? then Some(NotFound)
    else match BookIndex(books, bookId)
      case None => Some(ServerError)
      case Some(b) => if books[b].stock < quantity then Some(BadRequest) else None
  }

  /** The carts table with the quantity of the member's line for the book set
      to `quantity`. */
  function SetQuantity(carts: seq<Cart>, memberId: int, bookId: int, quantity: int, now: Ticks): (r: seq<Cart>)
    requires LineCartIndex(carts, memberId, bookId).Some?
    ensures var c := LineCartIndex(carts, memberId, bookId).value;
      var k := LineIndex(carts[c].items, bookId).value;
      && |r| == |carts|
      && |r[c].items| == |carts[c].items|
      && r[c] == carts[c].(items := r[c].items)
      && r[c].items[k] == carts[c].items[k].(quantity := quantity, updatedAt := now)
      && (forall j :: 0 <= j < |carts[c].items| && j != k ==> r[c].items[j] == carts[c].items[j])
      && forall j :: 0 <= j < |carts| && j != c ==> r[j] == carts[j]
  {
    var c := LineCartIndex(carts, memberId, bookId).value;
    var items := carts[c].items;
    var k := LineIndex(items, bookId).value;
    carts[c := carts[c].(items := items[k := items[k].(quantity := quantity, updatedAt := now)])]
  }

  /** Setting a valid quantity keeps the carts well-formed, and the line then
      asks for exactly that many copies, between one and the stock. */
  lemma {:induction false} SetQuantityKeepsWellFormed(books: seq<Book>, carts: seq<Cart>, memberId: int,
                                                       bookId: int, quantity: int, now: Ticks)
    requires CartsWellFormed(carts) && UpdateError(books, carts, memberId, bookId, quantity).None?
    ensures var r := SetQuantity(carts, memberId, bookId, quantity, now);
      var c := LineCartIndex(carts, memberId, bookId).value;
      && CartsWellFormed(r)
      && LineCartIndex(r, memberId, bookId) == Some(c)
      && var items := r[c].items;
      && items[LineIndex(items, bookId).value].quantity == quantity
      && 1 <= quantity <= books[BookIndex(books, bookId).value].stock
  {
    var r := SetQuantity(carts, memberId, bookId, quantity, now);
    var c := LineCartIndex(carts, memberId, bookId).value;
    var old_items := carts[c].items;
    var k := LineIndex(old_items, bookId).value;
    var items := r[c].items;
    assert forall j :: 0 <= j < |items| ==> items[j].bookId == old_items[j].bookId;
    assert forall j :: 0 <= j < k ==> items[j] == old_items[j];
    assert LineIndex(items, bookId) == Some(k);
    assert forall i :: 0 <= i < |r| ==> r[i].memberId == carts[i].memberId;
    forall i | 0 <= i < |r| ensures DistinctBooks(r[i].items) && PositiveLines(r[i].items) {
      if i != c {
        assert r[i] == carts[i];
      } else {
        forall j | 0 <= j < |items| ensures items[j].quantity >= 1 {
          if j != k {
            assert items[j] == old_items[j];
          }
        }
      }
    }
    forall i | 0 <= i < c ensures r[i].memberId != memberId || LineIndex(r[i].items, bookId).None? {
      assert r[i] == carts[i];
    }
  }

  /** `UpdateQuantity`: refuses a quantity below one, a book the member has
      no line for, and more copies than the stock; otherwise stores exactly
      the requested quantity in that line (the cart's own update time is
      left alone). */
  method UpdateQuantity(db: AppDbContext, user: Principal, productId: int, quantity: int, now: Ticks)
    returns (status: Status)
    modifies db`carts
    ensures MemberId(user).None? ==> status == ServerError
    ensures status != Ok ==> db.carts == old(db.carts)
    ensures MemberId(user).Some? ==>
      var m := MemberId(user).value;
      match UpdateError(db.books, old(db.carts), m, productId, quantity)
      case Some(e) => status == e
      case None => status == Ok && db.carts == SetQuantity(old(db.carts), m, productId, quantity, now)
  {
    var memberId := MemberId(user);
    if memberId.None? {
      return ServerError;
    }
    var m := memberId.value;
    if quantity <= 0 {
      return BadRequest;
    }
    var ci := LineCartIndex(db.carts, m, productId);
    if ci.None? {
      return NotFound;
    }
    var cart := db.carts[ci.value];
    var k := LineIndex(cart.items, productId).value;
    var item := cart.items[k];
    var bi := BookIndex(db.books, productId);
    if bi.None? {
      return ServerError;
    }
    if db.books[bi.value].stock < quantity {
      return BadRequest;
    }
    item := item.(quantity := quantity, updatedAt := now);
    db.carts := db.carts[ci.value := cart.(items := cart.items[k := item])];
    status := Ok;
  }

  // ----- removing lines -----

  /** The carts table without the member's line for the book. */
  function RemoveLine(carts: seq<Cart>, memberId: int, bookId: int): (r: seq<Cart>)
    requires LineCartIndex(carts, memberId, bookId).Some?
    ensures var c := LineCartIndex(carts, memberId, bookId).value;
      && |r| == |carts|
      && r[c] == carts[c].(items := RemoveAt(carts[c].items, LineIndex(carts[c].items, bookId).value))
      && forall j :: 0 <= j < |carts| && j != c ==> r[j] == carts[j]
  {
    var c := LineCartIndex(carts, memberId, bookId).value;
    var items := carts[c].items;
    carts[c := carts[c].(items := RemoveAt(items, LineIndex(items, bookId).value))]
  }

  /** Removing a line keeps the carts well-formed; the member's cart then has
      no line for the book and keeps every line for any other book. */
  lemma {:induction false} RemoveLineEffect(carts: seq<Cart>, memberId: int, bookId: int)
    requires CartsWellFormed(carts) && LineCartIndex(carts, memberId, bookId).Some?
    ensures var r := RemoveLine(carts, memberId, bookId);
      var c := LineCartIndex(carts, memberId, bookId).value;
      && CartsWellFormed(r)
      && LineIndex(r[c].items, bookId).None?
      && forall x :: x in r[c].items <==> x in carts[c].items && x.bookId != bookId
  {
    var r := RemoveLine(carts, memberId, bookId);
    var c := LineCartIndex(carts, memberId, bookId).value;
    RemoveLineItems(carts[c].items, LineIndex(carts[c].items, bookId).value);
    assert forall i :: 0 <= i < |r| ==> r[i].memberId == carts[i].memberId;
    forall i | 0 <= i < |r| ensures DistinctBooks(r[i].items) && PositiveLines(r[i].items) {
      if i != c {
        assert r[i] == carts[i];
      }
    }
  }

  /** Removing the line at `k` from a cart's lines: the others stay, each
      once, and none is for that line's book. */
  lemma {:induction false} RemoveLineItems(items: seq<CartItem>, k: nat)
    requires DistinctBooks(items) && PositiveLines(items) && k < |items|
    ensures var r := RemoveAt(items, k);
      && DistinctBooks(r) && PositiveLines(r)
      && LineIndex(r, items[k].bookId).None?
      && forall x :: x in r <==> x in items && x.bookId != items[k].bookId
  {
    var r := RemoveAt(items, k);
    forall j | 0 <= j < |r| ensures r[j].bookId != items[k].bookId {
      if j >= k {
        assert r[j] == items[j + 1];
      }
    }
    forall x | x in items && x.bookId != items[k].bookId ensures x in r {
      var j :| 0 <= j < |items| && items[j] == x;
      if j < k {
        assert r[j] == x;
      } else {
        assert j != k;
        assert r[j - 1] == x;
      }
    }
    forall a, b | 0 <= a < b < |r| ensures r[a].bookId != r[b].bookId {
      var a' := if a < k then a else a + 1;
      var b' := if b < k then b else b + 1;
      assert r[a] == items[a'] && r[b] == items[b'];
    }
  }

  /** `RemoveItem`: deletes the member's line for the book, or answers
      NotFound when there is none. */
  method RemoveItem(db: AppDbContext, user: Principal, productId: int)
    returns (status: Status)
    modifies db`carts
    ensures MemberId(user).None? ==> status == ServerError && db.carts == old(db.carts)
    ensures MemberId(user).Some? ==>
      var m := MemberId(user).value;
      if LineCartIndex(old(db.carts), m, productId).None? then status == NotFound && db.carts == old(db.carts)
      else status == Ok && db.carts == RemoveLine(old(db.carts), m, productId)
  {
    var memberId := MemberId(user);
    if memberId.None? {
      return ServerError;
    }
    var m := memberId.value;
    var ci := LineCartIndex(db.carts, m, productId);
    if ci.None? {
      return NotFound;
    }
    var cart := db.carts[ci.value];
    var k := LineIndex(cart.items, productId).value;
    db.carts := db.carts[ci.value := cart.(items := RemoveAt(cart.items, k))];
    status := Ok;
  }

  const AlreadyEmpty: string := "Cart is already empty."
  const Cleared: string := "Cart cleared."

  /** The carts table with the member's cart emptied; the cart row stays. */
  function ClearedCarts(carts: seq<Cart>, memberId: int): (r: seq<Cart>)
    ensures CartIndex(carts, memberId).None? ==> r == carts
    ensures CartIndex(carts, memberId).Some? ==>
      var c := CartIndex(carts, memberId).value;
      && |r| == |carts| && r[c] == carts[c].(items := [])
      && forall j :: 0 <= j < |carts| && j != c ==> r[j] == carts[j]
  {
    match CartIndex(carts, memberId)
    case None => carts
    case Some(c) => carts[c := carts[c].(items := [])]
  }

  /** Clearing keeps every cart row and the carts well-formed, and leaves the
      member a cart with no lines when they had one. */
  lemma {:induction false} ClearedCartsEffect(carts: seq<Cart>, memberId: int)
    requires CartsWellFormed(carts)
    ensures var r := ClearedCarts(carts, memberId);
      && CartsWellFormed(r)
      && CartIndex(r, memberId) == CartIndex(carts, memberId)
      && (CartIndex(r, memberId).Some? ==> r[CartIndex(r, memberId).value].items == [])
      && forall i :: 0 <= i < |r| ==> r[i].id == carts[i].id && r[i].memberId == carts[i].memberId
  {
    var r := ClearedCarts(carts, memberId);
    if CartIndex(carts, memberId).Some? {
      var c := CartIndex(carts, memberId).value;
      assert forall i :: 0 <= i < |r| ==> r[i].memberId == carts[i].memberId;
      forall i | 0 <= i < |r| ensures DistinctBooks(r[i].items) && PositiveLines(r[i].items) {
        if i != c {
          assert r[i] == carts[i];
        }
      }
      assert forall k :: 0 <= k < c ==> r[k] == carts[k];
    }
  }

  /** `ClearCart`: empties the member's cart and keeps the row; a member with
      no cart, or an empty one, is told the cart is already empty. */
  method ClearCart(db: AppDbContext, user: Principal)
    returns (status: Status, message: string)
    modifies db`carts
    ensures MemberId(user).None? ==> status == ServerError && db.carts == old(db.carts)
    ensures MemberId(user).Some? ==>
      var m := MemberId(user).value;
      var c := CartIndex(old(db.carts), m);
      && status == Ok
      && db.carts == ClearedCarts(old(db.carts), m)
      && message == if c.None? || old(db.carts)[c.value].items == [] then AlreadyEmpty else Cleared
  {
    var memberId := MemberId(user);
    if memberId.None? {
      return ServerError, "";
    }
    var m := memberId.value;
    var ci := CartIndex(db.carts, m);
    if ci.None? || db.carts[ci.value].items == [] {
      if ci.Some? {
        assert db.carts[ci.value := db.carts[ci.value].(items := [])] == db.carts;
      }
      return Ok, AlreadyEmpty;
    }
    db.carts := db.carts[ci.value := db.carts[ci.value].(items := [])];
    status, message := Ok, Cleared;
  }

  /** Why the merge rule matters to checkout: a well-formed cart that passes
      the checkout's line-by-line stock test cannot drive any stock below
      zero. */
  lemma WellFormedCheckoutKeepsStock(books: seq<Book>, carts: seq<Cart>, memberId: int)
    requires CartsWellFormed(carts) && CartIndex(carts, memberId).Some?
    requires StockError(books, carts[CartIndex(carts, memberId).value].items).None?
    ensures var items := carts[CartIndex(carts, memberId).value].items;
      forall j :: 0 <= j < |books| && books[j].stock >= 0 ==> Deduct(books, items)[j].stock >= 0
  {
    DistinctLinesKeepStock(books, carts[CartIndex(carts, memberId).value].items);
  }
}
