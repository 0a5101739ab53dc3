/** The shop front's cart store: the cart lines fetched from the server, an
    authentication flag derived from the stored token, the four cart actions
    and the two totals. Every server reply is a parameter. */
module UseCart {
  import opened Wrappers

  /** One product of the server's cart reply (the fields the store reads). */
  datatype ApiProduct = ApiProduct(bookId: int, title: string, price: real, quantity: int,
                                   images: Option<seq<string>>)

  /** The product as the store keeps it: the reply's fields, `id` aliased to
      the book id, and at least one image. */
  datatype Product = Product(id: int, bookId: int, title: string, price: real, quantity: int, images: seq<string>)

  datatype CartEntry = CartEntry(product: Product, quantity: int)

  /** The reply to `GET /api/Cart`: the `cart.products` array (absent when
      either part is missing), or a failed request. */
  datatype FetchReply = Fetched(products: Option<seq<ApiProduct>>) | FetchFailed

  /** The reply to a cart action: its `message` (absent or empty is replaced
      by the default), or an error with the server's `message`, if any. */
  datatype ActionReply = Done(message: Option<string>) | Failed(errorMessage: Option<string>)

  const DefaultImage: string := "/images/default-book.jpg"
  const LoginToPurchase: string := "Please log in to purchase products."
  const LoginToModify: string := "Please log in to modify the cart."

  /** JavaScript's `s || fallback` on an optional string. */
  function OrDefault(s: Option<string>, fallback: string): (r: string)
    ensures s.Some? && s.value != "" ==> r == s.value
    ensures s.None? || s.value == "" ==> r == fallback
  {
    if s.Some? && s.value != "" then s.value else fallback
  }

  /** The image list kept: the reply's list when it is a non-empty array,
      the default image otherwise. */
  function ImagesOrDefault(images: Option<seq<string>>): (r: seq<string>)
    ensures r != []
    ensures images.Some? && images.value != [] ==> r == images.value
    ensures images.None? || images.value == [] ==> r == [DefaultImage]
  {
    if images.Some? && images.value != [] then images.value else [DefaultImage]
  }

  function ToEntry(p: ApiProduct): (e: CartEntry)
    ensures e.product.id == p.bookId && e.product.bookId == p.bookId && e.quantity == p.quantity
    ensures e.product.price == p.price && e.product.title == p.title
    ensures e.product.images == ImagesOrDefault(p.images)
  {
    CartEntry(Product(p.bookId, p.bookId, p.title, p.price, p.quantity, ImagesOrDefault(p.images)), p.quantity)
  }

  /** `productsArray.map(...)`: one entry per product, in reply order. */
  function ToEntries(products: seq<ApiProduct>): (r: seq<CartEntry>)
    ensures |r| == |products|
    ensures forall k :: 0 <= k < |r| ==> r[k] == ToEntry(products[k])
  {
    if products == [] then [] else ToEntries(products[..|products| - 1]) + [ToEntry(products[|products| - 1])]
  }

  /** `totalItems`: the sum of the quantities. */
  function TotalItems(entries: seq<CartEntry>): int {
    if entries == [] then 0 else TotalItems(entries[..|entries| - 1]) + entries[|entries| - 1].quantity
  }

  function LineAmount(e: CartEntry): real {
    e.product.price * e.quantity as real
  }

  /** `totalAmount`: the sum of price times quantity. */
  function TotalAmount(entries: seq<CartEntry>): real {
    if entries == [] then 0.0 else TotalAmount(entries[..|entries| - 1]) + LineAmount(entries[|entries| - 1])
  }

  function SumQuantities(products: seq<ApiProduct>): int {
    if products == [] then 0 else SumQuantities(products[..|products| - 1]) + products[|products| - 1].quantity
  }

  /** The item count shown is the total of the quantities the server sent. */
  lemma {:induction false} TotalItemsOfFetched(products: seq<ApiProduct>)
    ensures TotalItems(ToEntries(products)) == SumQuantities(products)
    decreases |products|
  {
    if products != [] {
      var init := products[..|products| - 1];
      TotalItemsOfFetched(init);
      assert ToEntries(products)[..|products| - 1] == ToEntries(init);
    }
  }

  /** The totals add up over a split of the cart. */
  lemma {:induction false} TotalsAppend(a: seq<CartEntry>, b: seq<CartEntry>)
    ensures TotalItems(a + b) == TotalItems(a) + TotalItems(b)
    ensures TotalAmount(a + b) == TotalAmount(a) + TotalAmount(b)
    decreases |b|
  {
    if b == [] {
      assert a + b == a;
    } else {
      var init := b[..|b| - 1];
      TotalsAppend(a, init);
      assert (a + b)[..|a + b| - 1] == a + init;
    }
  }

  /** With no negative prices or quantities neither total is negative. */
  lemma {:induction false} TotalsNonNegative(entries: seq<CartEntry>)
    requires forall k :: 0 <= k < |entries| ==> entries[k].quantity >= 0 && entries[k].product.price >= 0.0
    ensures TotalItems(entries) >= 0 && TotalAmount(entries) >= 0.0
    decreases |entries|
  {
    if entries != [] {
      TotalsNonNegative(entries[..|entries| - 1]);
      var last := entries[|entries| - 1];
      assert LineAmount(last) >= 0.0 by {
        NonNegativeProduct(last.product.price, last.quantity as real);
      }
    }
  }

  lemma NonNegativeProduct(x: real, y: real)
    requires x >= 0.0 && y >= 0.0
    ensures x * y >= 0.0
  {
  }

  /** The cart lines after a fetch. */
  function Fetch(isAuthenticated: bool, reply: FetchReply): (r: seq<CartEntry>)
    ensures !isAuthenticated || reply.FetchFailed? ==> r == []
    ensures isAuthenticated && reply.Fetched? ==> r == ToEntries(reply.products.GetOr([]))
  {
    if !isAuthenticated then []
    else match reply
      case FetchFailed => []
      case Fetched(products) => ToEntries(products.GetOr([]))
  }

  /** The store's reactive state. */
  class CartStore {
    var cartItems: seq<CartEntry>
    var isAuthenticated: bool

    constructor ()
      ensures cartItems == [] && !isAuthenticated
    {
      cartItems := [];
      isAuthenticated := false;
    }

    /** `checkAuthentication`: signed in exactly when a non-empty token is
        stored. */
    method CheckAuthentication(token: Option<string>)
      modifies this`isAuthenticated
      ensures isAuthenticated <==> token.Some? && token.value != ""
    {
      isAuthenticated := token.Some? && token.value != "";
    }

    /** `fetchCart`: signed out, the lines are cleared without a request; a
        failed request clears them too; otherwise they are the mapped
        products of the reply. */
    method FetchCart(reply: FetchReply)
      modifies this`cartItems
      ensures cartItems == Fetch(isAuthenticated, reply)
    {
      if !isAuthenticated {
        cartItems := [];
        return;
      }
      match reply
      case FetchFailed =>
        cartItems := [];
      case Fetched(products) =>
        var productsArray := products.GetOr([]);
        cartItems := ToEntries(productsArray);
    }

    /** `checkState`: reads the token, then fetches the cart. */
    method CheckState(token: Option<string>, reply: FetchReply)
      modifies this`isAuthenticated, this`cartItems
      ensures isAuthenticated <==> token.Some? && token.value != ""
      ensures cartItems == Fetch(token.Some? && token.value != "", reply)
    {
      CheckAuthentication(token);
      FetchCart(reply);
    }

    /** The common shape of the four actions: refused without a request when
        signed out; on success the cart is fetched again with `refetch`. */
    method Act(reply: ActionReply, refetch: FetchReply, signedOutMessage: string, successDefault: string,
               failureDefault: string)
      returns (success: bool, message: string)
      modifies this`cartItems
      ensures !isAuthenticated ==> !success && message == signedOutMessage && cartItems == old(cartItems)
      ensures isAuthenticated && reply.Failed? ==>
        !success && message == OrDefault(reply.errorMessage, failureDefault) && cartItems == old(cartItems)
      ensures isAuthenticated && reply.Done? ==>
        success && message == OrDefault(reply.message, successDefault) && cartItems == Fetch(true, refetch)
    {
      if !isAuthenticated {
        return false, signedOutMessage;
      }
      match reply
      case Failed(msg) =>
        success, message := false, OrDefault(msg, failureDefault);
      case Done(msg) =>
        FetchCart(refetch);
        success, message := true, OrDefault(msg, successDefault);
    }

    /** `addToCart`: posts the product's id and the quantity. */
    method AddToCart(reply: ActionReply, refetch: FetchReply) returns (success: bool, message: string)
      modifies this`cartItems
      ensures !isAuthenticated ==> !success && message == LoginToPurchase && cartItems == old(cartItems)
      ensures isAuthenticated && reply.Failed? ==>
        !success && message == OrDefault(reply.errorMessage, "Failed to add item") && cartItems == old(cartItems)
      ensures isAuthenticated && reply.Done? ==>
        success && message == OrDefault(reply.message, "Item added to cart.") && cartItems == Fetch(true, refetch)
    {
      success, message := Act(reply, refetch, LoginToPurchase, "Item added to cart.", "Failed to add item");
    }

    method UpdateQuantity(reply: ActionReply, refetch: FetchReply) returns (success: bool, message: string)
      modifies this`cartItems
      ensures !isAuthenticated ==> !success && message == LoginToModify && cartItems == old(cartItems)
      ensures isAuthenticated && reply.Failed? ==>
        !success && message == OrDefault(reply.errorMessage, "Failed to update quantity") && cartItems == old(cartItems)
      ensures isAuthenticated && reply.Done? ==>
        success && message == OrDefault(reply.message, "Quantity updated.") && cartItems == Fetch(true, refetch)
    {
      success, message := Act(reply, refetch, LoginToModify, "Quantity updated.", "Failed to update quantity");
    }

    method RemoveFromCart(reply: ActionReply, refetch: FetchReply) returns (success: bool, message: string)
      modifies this`cartItems
      ensures !isAuthenticated ==> !success && message == LoginToModify && cartItems == old(cartItems)
      ensures isAuthenticated && reply.Failed? ==>
        !success && message == OrDefault(reply.errorMessage, "Failed to remove item") && cartItems == old(cartItems)
      ensures isAuthenticated && reply.Done? ==>
        success && message == OrDefault(reply.message, "Item removed.") && cartItems == Fetch(true, refetch)
    {
      success, message := Act(reply, refetch, LoginToModify, "Item removed.", "Failed to remove item");
    }

    method ClearCart(reply: ActionReply, refetch: FetchReply) returns (success: bool, message: string)
      modifies this`cartItems
      ensures !isAuthenticated ==> !success && message == LoginToModify && cartItems == old(cartItems)
      ensures isAuthenticated && reply.Failed? ==>
        !success && message == OrDefault(reply.errorMessage, "Failed to clear cart") && cartItems == old(cartItems)
      ensures isAuthenticated && reply.Done? ==>
        success && message == OrDefault(reply.message, "Cart cleared.") && cartItems == Fetch(true, refetch)
    {
      success, message := Act(reply, refetch, LoginToModify, "Cart cleared.", "Failed to clear cart");
    }

    function Items(): int
      reads this
    {
      TotalItems(cartItems)
    }

    function Amount(): real
      reads this
    {
      TotalAmount(cartItems)
    }
  }
}
