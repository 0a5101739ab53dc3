/** The persisted records of the bookstore, with the fields the controllers
    read and write (several of them are absent from the entity classes but
    used by the controllers: an order's discount amount, applied-discount
    tags, line items, cancellation time and fulfilment method; a book's
    average rating and total sold). `decimal` is `real`, `double` is `real`,
    `DateTime` is a tick count, a nullable value is an `Option`. */
module Entities {
  import opened Wrappers
  import opened Text

  /** A `DateTime` as its tick count (100 ns units). */
  type Ticks = int

  const TicksPerDay: int := 864_000_000_000

  /** `default(DateTime)`. */
  const DefaultDate: Ticks := 0

  const MinInt32: int := -0x8000_0000
  const MaxInt32: int := 0x7FFF_FFFF

  /** C#'s unchecked 32-bit `int` arithmetic: the result wrapped into range. */
  function Wrap32(x: int): (r: int)
    ensures MinInt32 <= r <= MaxInt32
    ensures MinInt32 <= x <= MaxInt32 ==> r == x
    ensures (r - x) % 0x1_0000_0000 == 0
  {
    (x - MinInt32) % 0x1_0000_0000 + MinInt32
  }

  /** The HTTP outcome of a controller action. `ServerError` stands for an
      unhandled exception (HTTP 500). */
  datatype Status = Ok | BadRequest | Unauthorized | Forbidden | NotFound | Conflict | ServerError

  /** The names of the authentication schemes the host registers: only the
      JWT bearer handler. */
  const RegisteredSchemes: set<string> := {"Bearer"}

  /** The outcome of `Forbid(schemes)`. Each argument names an authentication
      scheme whose handler is to answer the refusal; a name with no
      registered handler makes the framework throw, which the host answers
      with a server error. With no argument the default scheme, the bearer
      handler, answers 403. */
  function ForbidAnswer(schemes: seq<string>): (r: Status)
    ensures r == Forbidden || r == ServerError
    ensures r == ServerError <==> exists k :: 0 <= k < |schemes| && schemes[k] !in RegisteredSchemes
  {
    if forall k :: 0 <= k < |schemes| ==> schemes[k] in RegisteredSchemes then Forbidden else ServerError
  }

  /** `Forbid(message)` as the controllers write it: the message is taken for
      a scheme name, no handler has that name, and the caller gets a server
      error rather than 403. */
  lemma ForbidWithMessage(message: string)
    requires message !in RegisteredSchemes
    ensures ForbidAnswer([message]) == ServerError
  {
    assert [message][0] !in RegisteredSchemes;
  }

  /** `Forbid()` with no argument: the bearer handler answers 403. */
  lemma ForbidDefault()
    ensures ForbidAnswer([]) == Forbidden
  {
  }

  /** The claims of the authenticated caller that the controllers read. */
  datatype Principal = Principal(sub: Option<string>, nameIdentifier: Option<string>, role: Option<string>)

  /** `GetMemberId()` of the cart, review and announcement controllers:
      `long.Parse` of the name-identifier claim. A missing or malformed claim
      throws, which the host answers with a server error. */
  function MemberId(user: Principal): (r: Option<int>)
    ensures r.Some? ==> MinLong <= r.value <= MaxLong
  {
    ParseLong(user.nameIdentifier)
  }

  datatype Member = Member(
    id: int, name: string, username: string, email: string, password: string,
    phone: string, gender: string, dateOfBirth: Option<Ticks>, membershipId: string,
    membershipStatus: string, dateOfRegistration: Ticks, lastLogin: Option<Ticks>,
    createdAt: Ticks, updatedAt: Ticks)

  datatype Admin = Admin(
    id: int, name: string, email: string, password: string, phone: string,
    role: string, lastLogin: Option<Ticks>, createdAt: Ticks, updatedAt: Ticks)

  datatype Genre = Genre(id: int, name: string)

  datatype BookImage = BookImage(url: string)

  datatype Book = Book(
    id: int, adminId: int, genreId: int, title: string, author: string, isbn: string,
    language: string, price: real, publicationDate: Ticks, format: string, stock: int,
    isPhysicalAccess: bool, isOnSale: bool, discountPercentage: real,
    discountStart: Option<Ticks>, discountEnd: Option<Ticks>, description: string,
    publisher: string, bookType: string, isExclusiveEdition: bool, averageRating: real,
    totalSold: int, createdAt: Ticks, updatedAt: Ticks, images: seq<BookImage>)

  datatype CartItem = CartItem(bookId: int, quantity: int, dateAdded: Ticks, updatedAt: Ticks)

  datatype Cart = Cart(id: int, memberId: int, createdAt: Ticks, updatedAt: Ticks, items: seq<CartItem>)

  datatype OrderItem = OrderItem(
    bookId: int, quantity: int, unitPrice: real, discountApplied: real, lineTotal: real,
    createdAt: Ticks, updatedAt: Ticks)

  datatype Order = Order(
    id: int, memberId: int, totalPrice: real, discountAmount: real, appliedDiscounts: string,
    orderStatus: string, isPaid: bool, claimCode: string, orderDate: Ticks,
    pickupDeadline: Ticks, cancelledAt: Option<Ticks>, fulfillmentMethod: string,
    createdAt: Ticks, updatedAt: Ticks, items: seq<OrderItem>)

  datatype Review = Review(
    id: int, memberId: int, bookId: int, rating: int, comment: string,
    createdAt: Ticks, updatedAt: Ticks)

  datatype Bookmark = Bookmark(id: int, memberId: int, bookId: int, createdAt: Ticks)

  datatype Announcement = Announcement(
    id: int, memberId: Option<int>, title: string, message: string, startDate: Ticks,
    endDate: Ticks, isActive: bool, createdAt: Ticks, updatedAt: Ticks)

  /** `Images.Select(i => i.Url)`: the URLs of a book's images, in order. */
  function ImageUrls(images: seq<BookImage>): (r: seq<string>)
    ensures |r| == |images| && forall k :: 0 <= k < |r| ==> r[k] == images[k].url
  {
    if images == [] then [] else ImageUrls(images[..|images| - 1]) + [images[|images| - 1].url]
  }

  /** `FindAsync(id)` / `FirstOrDefault(b => b.Id == id)` over the books table:
      the position of the first book with that id. */
  function BookIndex(books: seq<Book>, id: int): (r: Option<nat>)
    ensures r.Some? ==> r.value < |books| && books[r.value].id == id
    ensures r.Some? ==> forall k :: 0 <= k < r.value ==> books[k].id != id
    ensures r.None? ==> forall k :: 0 <= k < |books| ==> books[k].id != id
  {
    if books == [] then None
    else if books[0].id == id then Some(0)
    else match BookIndex(books[1..], id)
      case None => None
      case Some(k) => Some(k + 1)
  }

  /** Two tables with the same ids in the same places answer every lookup alike. */
  lemma BookIndexSameIds(a: seq<Book>, b: seq<Book>, id: int)
    requires |a| == |b| && forall k :: 0 <= k < |a| ==> a[k].id == b[k].id
    ensures BookIndex(a, id) == BookIndex(b, id)
  {
    var ra, rb := BookIndex(a, id), BookIndex(b, id);
    if ra.Some? && rb.Some? {
      assert !(ra.value < rb.value) && !(rb.value < ra.value);
    }
  }

  predicate HasGenre(genres: seq<Genre>, id: int) {
    exists k :: 0 <= k < |genres| && genres[k].id == id
  }

  /** `Genres.FindAsync(id)`. */
  function GenreIndex(genres: seq<Genre>, id: int): (r: Option<nat>)
    ensures r.Some? ==> r.value < |genres| && genres[r.value].id == id
    ensures r.Some? ==> forall k :: 0 <= k < r.value ==> genres[k].id != id
    ensures r.None? <==> !HasGenre(genres, id)
  {
    if genres == [] then None
    else if genres[0].id == id then Some(0)
    else match GenreIndex(genres[1..], id)
      case None =>
        assert forall k :: 1 <= k < |genres| ==> genres[k] == genres[1..][k - 1];
        None
      case Some(k) => Some(k + 1)
  }

  function RemoveAt<T>(s: seq<T>, i: nat): (r: seq<T>)
    requires i < |s|
    ensures |r| == |s| - 1
    ensures forall k :: 0 <= k < i ==> r[k] == s[k]
    ensures forall k :: i <= k < |r| ==> r[k] == s[k + 1]
  {
    s[..i] + s[i + 1..]
  }
}
