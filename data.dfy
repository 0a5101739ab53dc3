/** The database context: one table per entity set, each a sequence of
    records in insertion order, and the unique indexes and delete behaviours
    its model configuration declares. A cart holds its items, an order its
    line items and a book its images, so the cascades along those three
    relations are structural: removing the owner removes what it holds.

    Relations and what deleting the principal does:
      Book -> Admin, Book -> Genre, Order -> Member, Review -> Member,
      Review -> Book, CartItem -> Book, OrderItem -> Book,
      Bookmark -> Member: cascade;
      Bookmark -> Book: cascade (a required foreign key, by convention);
      Announcement -> Member: the member id is set to null.
    A cart has no relation to its member, so deleting a member keeps it. */
module Data {
  import opened Wrappers
  import opened Ordering
  import opened Entities

  // ----- unique indexes -----

  /** The unique index on `Member.Email`. */
  predicate UniqueMemberEmails(members: seq<Member>) {
    forall i, j :: 0 <= i < j < |members| ==> members[i].email != members[j].email
  }

  /** The unique index on `(Review.MemberId, Review.BookId)`: one review per
      member per book. */
  predicate UniqueReviewPairs(reviews: seq<Review>) {
    forall i, j :: 0 <= i < j < |reviews| ==>
      reviews[i].memberId != reviews[j].memberId || reviews[i].bookId != reviews[j].bookId
  }

  predicate DifferentReviewKeys(a: Review, b: Review) {
    a.memberId != b.memberId || a.bookId != b.bookId
  }

  /** No two lines of a cart are for the same book. */
  predicate DistinctBooks(items: seq<CartItem>) {
    forall i, j :: 0 <= i < j < |items| ==> items[i].bookId != items[j].bookId
  }

  /** The primary key of `Books`. */
  predicate UniqueBookIds(books: seq<Book>) {
    forall i, j :: 0 <= i < j < |books| ==> books[i].id != books[j].id
  }

  /** No two admins share an email (the sign-up and seeding checks keep it;
      the table has no index on it). */
  predicate UniqueAdminEmails(admins: seq<Admin>) {
    forall i, j :: 0 <= i < j < |admins| ==> admins[i].email != admins[j].email
  }

  /** `Admins.FirstOrDefault(a => a.Email == email)`. */
  function AdminEmailIndex(admins: seq<Admin>, email: string): (r: Option<nat>)
    ensures r.Some? ==> r.value < |admins| && admins[r.value].email == email
    ensures r.None? <==> forall k :: 0 <= k < |admins| ==> admins[k].email != email
  {
    FirstIndex(admins, (a: Admin) => a.email == email)
  }

  /** `Members.FindAsync(id)`: the position of the member with that key. */
  function MemberIndex(members: seq<Member>, id: int): (r: Option<nat>)
    ensures r.Some? ==> r.value < |members| && members[r.value].id == id
    ensures r.None? <==> forall k :: 0 <= k < |members| ==> members[k].id != id
  {
    FirstIndex(members, (m: Member) => m.id == id)
  }

  /** `Carts.FirstOrDefault(c => c.MemberId == memberId)`. */
  function CartIndex(carts: seq<Cart>, memberId: int): (r: Option<nat>)
    ensures r.Some? ==> r.value < |carts| && carts[r.value].memberId == memberId
    ensures r.Some? ==> forall k :: 0 <= k < r.value ==> carts[k].memberId != memberId
    ensures r.None? <==> forall k :: 0 <= k < |carts| ==> carts[k].memberId != memberId
  {
    FirstIndex(carts, (c: Cart) => c.memberId == memberId)
  }

  // ----- what survives a delete -----

  /** The reviews left when the books with ids in `gone` are deleted. */
  function ReviewsWithoutBooks(reviews: seq<Review>, gone: set<int>): (r: seq<Review>)
    ensures forall x :: x in r <==> x in reviews && x.bookId !in gone
    ensures multiset(r) <= multiset(reviews)
  {
    Filter(reviews, (x: Review) => x.bookId !in gone)
  }

  function BookmarksWithoutBooks(bookmarks: seq<Bookmark>, gone: set<int>): (r: seq<Bookmark>)
    ensures forall x :: x in r <==> x in bookmarks && x.bookId !in gone
    ensures multiset(r) <= multiset(bookmarks)
  {
    Filter(bookmarks, (x: Bookmark) => x.bookId !in gone)
  }

  function CartItemsWithoutBooks(items: seq<CartItem>, gone: set<int>): (r: seq<CartItem>)
    ensures forall x :: x in r <==> x in items && x.bookId !in gone
    ensures multiset(r) <= multiset(items)
  {
    Filter(items, (x: CartItem) => x.bookId !in gone)
  }

  function OrderItemsWithoutBooks(items: seq<OrderItem>, gone: set<int>): (r: seq<OrderItem>)
    ensures forall x :: x in r <==> x in items && x.bookId !in gone
    ensures multiset(r) <= multiset(items)
  {
    Filter(items, (x: OrderItem) => x.bookId !in gone)
  }

  /** Every cart stays, with the lines for deleted books gone. */
  function CartsWithoutBooks(carts: seq<Cart>, gone: set<int>): (r: seq<Cart>)
    ensures |r| == |carts|
    ensures forall i :: 0 <= i < |r| ==>
      r[i].id == carts[i].id && r[i].memberId == carts[i].memberId
      && r[i].createdAt == carts[i].createdAt && r[i].updatedAt == carts[i].updatedAt
      && (forall x :: x in r[i].items <==> x in carts[i].items && x.bookId !in gone)
  {
    seq(|carts|, i requires 0 <= i < |carts| => carts[i].(items := CartItemsWithoutBooks(carts[i].items, gone)))
  }

  /** Every order stays, with the line items for deleted books gone (its
      totals are not recomputed). */
  function OrdersWithoutBooks(orders: seq<Order>, gone: set<int>): (r: seq<Order>)
    ensures |r| == |orders|
    ensures forall i :: 0 <= i < |r| ==>
      r[i].(items := orders[i].items) == orders[i]
      && (forall x :: x in r[i].items <==> x in orders[i].items && x.bookId !in gone)
  {
    seq(|orders|, i requires 0 <= i < |orders| => orders[i].(items := OrderItemsWithoutBooks(orders[i].items, gone)))
  }

  /** The ids of the books of a genre. */
  function BookIdsOfGenre(books: seq<Book>, genreId: int): (ids: set<int>)
    ensures forall id :: id in ids <==> exists b :: b in books && b.genreId == genreId && b.id == id
  {
    set b | b in books && b.genreId == genreId :: b.id
  }

  /** The ids of the books an admin added. */
  function BookIdsOfAdmin(books: seq<Book>, adminId: int): (ids: set<int>)
    ensures forall id :: id in ids <==> exists b :: b in books && b.adminId == adminId && b.id == id
  {
    set b | b in books && b.adminId == adminId :: b.id
  }

  function BooksWithoutGenre(books: seq<Book>, genreId: int): (r: seq<Book>)
    ensures forall b :: b in r <==> b in books && b.genreId != genreId
    ensures multiset(r) <= multiset(books)
  {
    Filter(books, (b: Book) => b.genreId != genreId)
  }

  function BooksWithoutAdmin(books: seq<Book>, adminId: int): (r: seq<Book>)
    ensures forall b :: b in r <==> b in books && b.adminId != adminId
    ensures multiset(r) <= multiset(books)
  {
    Filter(books, (b: Book) => b.adminId != adminId)
  }

  function OrdersWithoutMember(orders: seq<Order>, memberId: int): (r: seq<Order>)
    ensures forall o :: o in r <==> o in orders && o.memberId != memberId
    ensures multiset(r) <= multiset(orders)
  {
    Filter(orders, (o: Order) => o.memberId != memberId)
  }

  function ReviewsWithoutMember(reviews: seq<Review>, memberId: int): (r: seq<Review>)
    ensures forall x :: x in r <==> x in reviews && x.memberId != memberId
    ensures multiset(r) <= multiset(reviews)
  {
    Filter(reviews, (x: Review) => x.memberId != memberId)
  }

  function BookmarksWithoutMember(bookmarks: seq<Bookmark>, memberId: int): (r: seq<Bookmark>)
    ensures forall x :: x in r <==> x in bookmarks && x.memberId != memberId
    ensures multiset(r) <= multiset(bookmarks)
  {
    Filter(bookmarks, (x: Bookmark) => x.memberId != memberId)
  }

  /** Deleting a member keeps every announcement; those addressed to the
      member become public, and nothing else about them changes. */
  function AnnouncementsDetached(announcements: seq<Announcement>, memberId: int): (r: seq<Announcement>)
    ensures |r| == |announcements|
    ensures forall i :: 0 <= i < |r| ==>
      r[i].(memberId := announcements[i].memberId) == announcements[i]
      && r[i].memberId != Some(memberId)
      && (announcements[i].memberId != Some(memberId) ==> r[i] == announcements[i])
  {
    seq(|announcements|, i requires 0 <= i < |announcements| =>
      if announcements[i].memberId == Some(memberId) then announcements[i].(memberId := None)
      else announcements[i])
  }

  /** A delete never breaks the unique index on reviews. */
  lemma ReviewDeletesKeepPairsUnique(reviews: seq<Review>, gone: set<int>, memberId: int)
    requires UniqueReviewPairs(reviews)
    ensures UniqueReviewPairs(ReviewsWithoutBooks(reviews, gone))
    ensures UniqueReviewPairs(ReviewsWithoutMember(reviews, memberId))
  {
    assert Sorted(reviews, DifferentReviewKeys);
    FilterSorted(reviews, (x: Review) => x.bookId !in gone, DifferentReviewKeys);
    FilterSorted(reviews, (x: Review) => x.memberId != memberId, DifferentReviewKeys);
  }

  class AppDbContext {
    var members: seq<Member>
    var admins: seq<Admin>
    var genres: seq<Genre>
    var books: seq<Book>
    var carts: seq<Cart>
    var orders: seq<Order>
    var reviews: seq<Review>
    var bookmarks: seq<Bookmark>
    var announcements: seq<Announcement>
    /** The next value of the identity columns. */
    var nextId: int

    constructor ()
      ensures members == [] && admins == [] && genres == [] && books == []
      ensures carts == [] && orders == [] && reviews == [] && bookmarks == []
      ensures announcements == [] && nextId == 1
    {
      members, admins, genres, books := [], [], [], [];
      carts, orders, reviews, bookmarks := [], [], [], [];
      announcements := [];
      nextId := 1;
    }

    /** The key the database assigns to an inserted row. */
    method NewId() returns (id: int)
      modifies this`nextId
      ensures id == old(nextId) && nextId == old(nextId) + 1
    {
      id := nextId;
      nextId := nextId + 1;
    }

    /** `Books.Remove(book)` followed by `SaveChanges()`. */
    method DeleteBookAt(i: nat)
      requires i < |books|
      modifies this`books, this`reviews, this`carts, this`orders, this`bookmarks
      ensures books == RemoveAt(old(books), i)
      ensures reviews == ReviewsWithoutBooks(old(reviews), {old(books)[i].id})
      ensures carts == CartsWithoutBooks(old(carts), {old(books)[i].id})
      ensures orders == OrdersWithoutBooks(old(orders), {old(books)[i].id})
      ensures bookmarks == BookmarksWithoutBooks(old(bookmarks), {old(books)[i].id})
    {
      var gone := {books[i].id};
      books := RemoveAt(books, i);
      reviews := ReviewsWithoutBooks(reviews, gone);
      carts := CartsWithoutBooks(carts, gone);
      orders := OrdersWithoutBooks(orders, gone);
      bookmarks := BookmarksWithoutBooks(bookmarks, gone);
    }

    /** `Genres.Remove(genre)` followed by `SaveChanges()`: the genre's books
        go, and with them everything that cascades from a book. */
    method DeleteGenreAt(i: nat)
      requires i < |genres|
      modifies this`genres, this`books, this`reviews, this`carts, this`orders, this`bookmarks
      ensures genres == RemoveAt(old(genres), i)
      ensures books == BooksWithoutGenre(old(books), old(genres)[i].id)
      ensures reviews == ReviewsWithoutBooks(old(reviews), BookIdsOfGenre(old(books), old(genres)[i].id))
      ensures carts == CartsWithoutBooks(old(carts), BookIdsOfGenre(old(books), old(genres)[i].id))
      ensures orders == OrdersWithoutBooks(old(orders), BookIdsOfGenre(old(books), old(genres)[i].id))
      ensures bookmarks == BookmarksWithoutBooks(old(bookmarks), BookIdsOfGenre(old(books), old(genres)[i].id))
    {
      var g := genres[i].id;
      var gone := BookIdsOfGenre(books, g);
      genres := RemoveAt(genres, i);
      books := BooksWithoutGenre(books, g);
      reviews := ReviewsWithoutBooks(reviews, gone);
      carts := CartsWithoutBooks(carts, gone);
      orders := OrdersWithoutBooks(orders, gone);
      bookmarks := BookmarksWithoutBooks(bookmarks, gone);
    }

    /** Deleting an admin: the admin's books go, with their cascades. */
    method DeleteAdminAt(i: nat)
      requires i < |admins|
      modifies this`admins, this`books, this`reviews, this`carts, this`orders, this`bookmarks
      ensures admins == RemoveAt(old(admins), i)
      ensures books == BooksWithoutAdmin(old(books), old(admins)[i].id)
      ensures reviews == ReviewsWithoutBooks(old(reviews), BookIdsOfAdmin(old(books), old(admins)[i].id))
      ensures carts == CartsWithoutBooks(old(carts), BookIdsOfAdmin(old(books), old(admins)[i].id))
      ensures orders == OrdersWithoutBooks(old(orders), BookIdsOfAdmin(old(books), old(admins)[i].id))
      ensures bookmarks == BookmarksWithoutBooks(old(bookmarks), BookIdsOfAdmin(old(books), old(admins)[i].id))
    {
      var a := admins[i].id;
      var gone := BookIdsOfAdmin(books, a);
      admins := RemoveAt(admins, i);
      books := BooksWithoutAdmin(books, a);
      reviews := ReviewsWithoutBooks(reviews, gone);
      carts := CartsWithoutBooks(carts, gone);
      orders := OrdersWithoutBooks(orders, gone);
      bookmarks := BookmarksWithoutBooks(bookmarks, gone);
    }

    /** Deleting a member: their orders, reviews and bookmarks go, their
        announcements become public, and their cart stays. */
    method DeleteMemberAt(i: nat)
      requires i < |members|
      modifies this`members, this`orders, this`reviews, this`bookmarks, this`announcements
      ensures members == RemoveAt(old(members), i)
      ensures orders == OrdersWithoutMember(old(orders), old(members)[i].id)
      ensures reviews == ReviewsWithoutMember(old(reviews), old(members)[i].id)
      ensures bookmarks == BookmarksWithoutMember(old(bookmarks), old(members)[i].id)
      ensures announcements == AnnouncementsDetached(old(announcements), old(members)[i].id)
    {
      var m := members[i].id;
      members := RemoveAt(members, i);
      orders := OrdersWithoutMember(orders, m);
      reviews := ReviewsWithoutMember(reviews, m);
      bookmarks := BookmarksWithoutMember(bookmarks, m);
      announcements := AnnouncementsDetached(announcements, m);
    }
  }

  /** Removing one row keeps the unique index on member emails. */
  lemma {:induction false} RemoveKeepsEmailsUnique(members: seq<Member>, i: nat)
    requires i < |members| && UniqueMemberEmails(members)
    ensures UniqueMemberEmails(RemoveAt(members, i))
  {
    var r := RemoveAt(members, i);
    forall a, b | 0 <= a < b < |r| ensures r[a].email != r[b].email {
      var a' := if a < i then a else a + 1;
      var b' := if b < i then b else b + 1;
      assert r[a] == members[a'] && r[b] == members[b'] && a' < b';
    }
  }
}
