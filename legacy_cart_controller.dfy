/** The earlier, unvalidated shopping cart: the same lookups and the same
    merge of a repeat add into the book's line, but no check of the quantity
    against one or against the stock, and 32-bit arithmetic in the merge. */
module LegacyCartController {
  import opened Wrappers
  import opened Entities
  import opened Data
  import opened CartController

  /** The cart's lines after adding `quantity` copies: the book's line takes
      the copies with 32-bit wrap-around, otherwise one line is appended. */
  function LegacyAddLine(items: seq<CartItem>, bookId: int, quantity: int, now: Ticks): (r: seq<CartItem>)
    ensures LineIndex(items, bookId).None? ==> r == items + [CartItem(bookId, quantity, now, now)]
    ensures LineIndex(items, bookId).Some? ==>
      var k := LineIndex(items, bookId).value;
      && |r| == |items|
      && r[k] == items[k].(quantity := Wrap32(items[k].quantity + quantity), updatedAt := now)
      && forall j :: 0 <= j < |items| && j != k ==> r[j] == items[j]
  {
    match LineIndex(items, bookId)
    case None => items + [CartItem(bookId, quantity, now, now)]
    case Some(k) => items[k := items[k].(quantity := Wrap32(items[k].quantity + quantity), updatedAt := now)]
  }

  /** The carts table after an add: into the member's cart, or into a new
      cart keyed `cartId` when the member has none. */
  function LegacyAddedToCarts(carts: seq<Cart>, memberId: int, cartId: int, bookId: int, quantity: int, now: Ticks): (r: seq<Cart>)
    ensures CartIndex(carts, memberId).None? ==> r == carts + [Cart(cartId, memberId, now, now, [CartItem(bookId, quantity, now, now)])]
    ensures CartIndex(carts, memberId).Some? ==>
      var c := CartIndex(carts, memberId).value;
      && |r| == |carts|
      && r[c] == carts[c].(items := LegacyAddLine(carts[c].items, bookId, quantity, now), updatedAt := now)
      && forall j :: 0 <= j < |carts| && j != c ==> r[j] == carts[j]
  {
    match CartIndex(carts, memberId)
    case None => carts + [Cart(cartId, memberId, now, now, [CartItem(bookId, quantity, now, now)])]
    case Some(c) => carts[c := carts[c].(items := LegacyAddLine(carts[c].items, bookId, quantity, now), updatedAt := now)]
  }

  /** One cart per member and one line per book: what this version still
      guarantees (nothing bounds the quantities). */
  predicate CartsDistinct(carts: seq<Cart>) {
    && OneCartPerMember(carts)
    && forall i :: 0 <= i < |carts| ==> DistinctBooks(carts[i].items)
  }

  /** An add keeps one cart per member and one line per book. */
  lemma {:induction false} LegacyAddKeepsDistinct(carts: seq<Cart>, memberId: int, cartId: int, bookId: int,
                                                   quantity: int, now: Ticks)
    requires CartsDistinct(carts)
    ensures CartsDistinct(LegacyAddedToCarts(carts, memberId, cartId, bookId, quantity, now))
  {
    var r := LegacyAddedToCarts(carts, memberId, cartId, bookId, quantity, now);
    match CartIndex(carts, memberId)
    case None =>
      forall i | 0 <= i < |r| ensures DistinctBooks(r[i].items) {
        if i < |carts| {
          assert r[i] == carts[i];
        }
      }
    case Some(c) =>
      var items := carts[c].items;
      var added := LegacyAddLine(items, bookId, quantity, now);
      assert DistinctBooks(added) by {
        if LineIndex(items, bookId).Some? {
          var k := LineIndex(items, bookId).value;
          forall i, j | 0 <= i < j < |added| ensures added[i].bookId != added[j].bookId {
            assert added[i].bookId == items[i].bookId && added[j].bookId == items[j].bookId;
          }
        }
      }
      assert forall i :: 0 <= i < |r| ==> r[i].memberId == carts[i].memberId;
      forall i | 0 <= i < |r| ensures DistinctBooks(r[i].items) {
        if i != c {
          assert r[i] == carts[i];
        }
      }
  }

  /** Where the validated cart accepts an add and the merged count fits in 32
      bits, both versions store the same carts. */
  lemma {:induction false} LegacyAgreesWithValidated(books: seq<Book>, carts: seq<Cart>, memberId: int, cartId: int,
                                                      bookId: int, quantity: int, now: Ticks)
    requires CartsWellFormed(carts) && AddError(books, carts, memberId, bookId, quantity).None?
    requires books[BookIndex(books, bookId).value].stock <= MaxInt32
    ensures LegacyAddedToCarts(carts, memberId, cartId, bookId, quantity, now)
         == AddedToCarts(carts, memberId, cartId, bookId, quantity, now)
  {
    match CartIndex(carts, memberId)
    case None =>
    case Some(c) =>
      var items := carts[c].items;
      assert LineIndex(items, bookId).Some? ==> 1 <= items[LineIndex(items, bookId).value].quantity;
      LegacyAddLineAgrees(items, bookId, quantity, now);
  }

  /** While the merged count fits in 32 bits the two ways of adding a line
      agree. */
  lemma LegacyAddLineAgrees(items: seq<CartItem>, bookId: int, quantity: int, now: Ticks)
    requires LineIndex(items, bookId).Some? ==>
      MinInt32 <= items[LineIndex(items, bookId).value].quantity + quantity <= MaxInt32
    ensures LegacyAddLine(items, bookId, quantity, now) == AddLine(items, bookId, quantity, now)
  {
  }

  /** Nothing stops a non-positive request: with a book on record, adding
      `-3` copies to an empty store opens a cart whose only line asks for
      `-3` copies. */
  lemma LegacyAcceptsNegative(now: Ticks)
    ensures LegacyAddedToCarts([], 4, 1, 7, -3, now) == [Cart(1, 4, now, now, [CartItem(7, -3, now, now)])]
  {
  }

  /** `AddToCart`: an unknown book is NotFound with nothing saved; any other
      request is added, lazily creating the member's cart. */
  method AddToCart(db: AppDbContext, user: Principal, productId: int, quantity: int, now: Ticks)
    returns (status: Status)
    modifies db`carts, db`nextId
    ensures MemberId(user).None? ==> status == ServerError
    ensures status != Ok ==> db.carts == old(db.carts) && db.nextId == old(db.nextId)
    ensures MemberId(user).Some? && BookIndex(db.books, productId).None? ==> status == NotFound
    ensures MemberId(user).Some? && BookIndex(db.books, productId).Some? ==>
      var m := MemberId(user).value;
      && status == Ok
      && db.carts == LegacyAddedToCarts(old(db.carts), m, old(db.nextId), productId, quantity, now)
      && db.nextId == old(db.nextId) + (if CartIndex(old(db.carts), m).None? then 1 else 0)
    ensures CartsDistinct(old(db.carts)) ==> CartsDistinct(db.carts)
  {
    var memberId := MemberId(user);
    if memberId.None? {
      return ServerError;
    }
    var m := memberId.value;
    var bi := BookIndex(db.books, productId);
    if bi.None? {
      return NotFound;
    }
    var ci := CartIndex(db.carts, m);
    var cart: Cart;
    if ci.None? {
      var id := db.NewId();
      cart := Cart(id, m, now, now, []);
    } else {
      cart := db.carts[ci.value];
    }
    var li := LineIndex(cart.items, productId);
    if li.Some? {
      var item := cart.items[li.value];
      item := item.(quantity := Wrap32(item.quantity + quantity), updatedAt := now);
      cart := cart.(items := cart.items[li.value := item]);
    } else {
      cart := cart.(items := cart.items + [CartItem(productId, quantity, now, now)]);
    }
    cart := cart.(updatedAt := now);
    ghost var before := db.carts;
    if ci.None? {
      assert cart == Cart(old(db.nextId), m, now, now, [CartItem(productId, quantity, now, now)]);
      db.carts := db.carts + [cart];
    } else {
      assert cart == before[ci.value].(items := LegacyAddLine(before[ci.value].items, productId, quantity, now), updatedAt := now);
      db.carts := db.carts[ci.value := cart];
    }
    if CartsDistinct(before) {
      LegacyAddKeepsDistinct(before, m, cart.id, productId, quantity, now);
    }
    status := Ok;
  }

  /** `UpdateQuantity`: stores the requested quantity, whatever it is, in the
      member's line for the book, or answers NotFound when there is none. */
  method UpdateQuantity(db: AppDbContext, user: Principal, productId: int, quantity: int, now: Ticks)
    returns (status: Status)
    modifies db`carts
    ensures MemberId(user).None? ==> status == ServerError && db.carts == old(db.carts)
    ensures MemberId(user).Some? ==>
      var m := MemberId(user).value;
      if LineCartIndex(old(db.carts), m, productId).None? then status == NotFound && db.carts == old(db.carts)
      else status == Ok && db.carts == SetQuantity(old(db.carts), m, productId, quantity, now)
  {
    var memberId := MemberId(user);
    if memberId.None? {
      return ServerError;
    }
    var m := memberId.value;
    var ci := LineCartIndex(db.carts, m, productId);
    if ci.None? {
      return NotFound;
    }
    var cart := db.carts[ci.value];
    var k := LineIndex(cart.items, productId).value;
    var item := cart.items[k].(quantity := quantity, updatedAt := now);
    db.carts := db.carts[ci.value := cart.(items := cart.items[k := item])];
    status := Ok;
  }

  /** `RemoveItem`: deletes the member's line for the book, or answers
      NotFound when there is none. */
  method RemoveItem(db: AppDbContext, user: Principal, productId: int)
    returns (status: Status)
    modifies db`carts
    ensures MemberId(user).None? ==> status == ServerError && db.carts == old(db.carts)
    ensures MemberId(user).Some? ==>
      var m := MemberId(user).value;
      if LineCartIndex(old(db.carts), m, productId).None? then status == NotFound && db.carts == old(db.carts)
      else status == Ok && db.carts == RemoveLine(old(db.carts), m, productId)
  {
    var memberId := MemberId(user);
    if memberId.None? {
      return ServerError;
    }
    var m := memberId.value;
    var ci := LineCartIndex(db.carts, m, productId);
    if ci.None? {
      return NotFound;
    }
    var cart := db.carts[ci.value];
    var k := LineIndex(cart.items, productId).value;
    db.carts := db.carts[ci.value := cart.(items := RemoveAt(cart.items, k))];
    status := Ok;
  }

  /** `ClearCart`: empties the member's cart and keeps the row; no cart, or
      an empty one, is reported as already empty. */
  method ClearCart(db: AppDbContext, user: Principal)
    returns (status: Status, message: string)
    modifies db`carts
    ensures MemberId(user).None? ==> status == ServerError && db.carts == old(db.carts)
    ensures MemberId(user).Some? ==>
      var m := MemberId(user).value;
      var c := CartIndex(old(db.carts), m);
      && status == Ok
      && db.carts == ClearedCarts(old(db.carts), m)
      && message == if c.None? || old(db.carts)[c.value].items == [] then AlreadyEmpty else Cleared
  {
    var memberId := MemberId(user);
    if memberId.None? {
      return ServerError, "";
    }
    var m := memberId.value;
    var ci := CartIndex(db.carts, m);
    if ci.None? || db.carts[ci.value].items == [] {
      if ci.Some? {
        assert db.carts[ci.value := db.carts[ci.value].(items := [])] == db.carts;
      }
      return Ok, AlreadyEmpty;
    }
    db.carts := db.carts[ci.value := db.carts[ci.value].(items := [])];
    status, message := Ok, Cleared;
  }
}
