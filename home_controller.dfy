/** The five shelves of the home page. Each keeps the books meeting its
    condition, orders them by its key (ties in table order) and shows the
    first few, each mapped to its display record. */
module HomeController {
  import opened Wrappers
  import opened Ordering
  import opened Entities
  import opened Data

  // ----- the display record -----

  datatype BookDto = BookDto(
    id: int, title: string, author: string, isbn: string, language: string, format: string,
    price: real, stock: int, genreName: string, publicationDate: Ticks, isPhysicalAccess: bool,
    isOnSale: bool, discountPercentage: real, discountStart: Option<Ticks>, discountEnd: Option<Ticks>,
    description: string, publisher: string, bookType: string, isExclusiveEdition: bool,
    averageRating: real, totalSold: int, createdAt: Ticks, updatedAt: Ticks, images: seq<string>)

  /** The genre's name, or "" when the book's genre is not on record. */
  function GenreName(genres: seq<Genre>, genreId: int): (r: string)
    ensures GenreIndex(genres, genreId).None? ==> r == ""
    ensures GenreIndex(genres, genreId).Some? ==> r == genres[GenreIndex(genres, genreId).value].name
  {
    match GenreIndex(genres, genreId)
    case None => ""
    case Some(k) => genres[k].name
  }

  /** `MapToDto`: the book's fields copied, its genre's name and its image
      URLs. */
  function MapToDto(genres: seq<Genre>, b: Book): (d: BookDto)
    ensures d.id == b.id && d.title == b.title && d.author == b.author && d.isbn == b.isbn
    ensures d.language == b.language && d.format == b.format && d.price == b.price && d.stock == b.stock
    ensures d.genreName == GenreName(genres, b.genreId) && d.publicationDate == b.publicationDate
    ensures d.isPhysicalAccess == b.isPhysicalAccess && d.isOnSale == b.isOnSale
    ensures d.discountPercentage == b.discountPercentage && d.discountStart == b.discountStart
    ensures d.discountEnd == b.discountEnd && d.description == b.description
    ensures d.publisher == b.publisher && d.bookType == b.bookType
    ensures d.isExclusiveEdition == b.isExclusiveEdition && d.averageRating == b.averageRating
    ensures d.totalSold == b.totalSold && d.createdAt == b.createdAt && d.updatedAt == b.updatedAt
    ensures |d.images| == |b.images| && forall k :: 0 <= k < |b.images| ==> d.images[k] == b.images[k].url
  {
    BookDto(b.id, b.title, b.author, b.isbn, b.language, b.format, b.price, b.stock,
            GenreName(genres, b.genreId), b.publicationDate, b.isPhysicalAccess, b.isOnSale,
            b.discountPercentage, b.discountStart, b.discountEnd, b.description, b.publisher,
            b.bookType, b.isExclusiveEdition, b.averageRating, b.totalSold, b.createdAt,
            b.updatedAt, ImageUrls(b.images))
  }

  /** Every stored field of the book except its genre key and its owner can
      be read back off the display record: two books with the same display
      record agree on every field but those two keys. */
  lemma MapToDtoKeepsFields(genres: seq<Genre>, a: Book, b: Book)
    requires MapToDto(genres, a) == MapToDto(genres, b)
    ensures a.(genreId := b.genreId, adminId := b.adminId) == b.(adminId := b.adminId)
    ensures a.images == b.images
  {
    var da := MapToDto(genres, a);
    assert a.images == b.images by {
      assert |a.images| == |b.images|;
      forall k | 0 <= k < |a.images| ensures a.images[k] == b.images[k] {
        assert a.images[k].url == da.images[k] == b.images[k].url;
      }
    }
  }

  function MapAll(genres: seq<Genre>, books: seq<Book>): (r: seq<BookDto>)
    ensures |r| == |books| && forall k :: 0 <= k < |r| ==> r[k] == MapToDto(genres, books[k])
  {
    if books == [] then [] else MapAll(genres, books[..|books| - 1]) + [MapToDto(genres, books[|books| - 1])]
  }

  // ----- the shelves -----

  const DiscountedCount: nat := 12
  const ShelfCount: nat := 10
  const TopRatedThreshold: real := 4.5

  /** On sale now: flagged, the discount has started (a missing start never
      matches), and it has not ended (a missing end never ends). */
  predicate OnSaleNow(b: Book, now: Ticks) {
    && b.isOnSale
    && b.discountStart.Some? && b.discountStart.value <= now
    && (b.discountEnd.None? || b.discountEnd.value >= now)
  }

  predicate Exclusive(b: Book) { b.isExclusiveEdition }

  predicate TopRated(b: Book) { b.averageRating >= TopRatedThreshold }

  predicate BiggerDiscountFirst(a: Book, b: Book) { a.discountPercentage >= b.discountPercentage }

  predicate NewerBookFirst(a: Book, b: Book) { a.createdAt >= b.createdAt }

  /** Rating descending, then copies sold descending. */
  predicate BetterRatedFirst(a: Book, b: Book) {
    a.averageRating > b.averageRating || (a.averageRating == b.averageRating && a.totalSold >= b.totalSold)
  }

  predicate BestSellingFirst(a: Book, b: Book) { a.totalSold >= b.totalSold }

  /** Publication date descending, then creation time descending. */
  predicate LatestPublishedFirst(a: Book, b: Book) {
    a.publicationDate > b.publicationDate || (a.publicationDate == b.publicationDate && a.createdAt >= b.createdAt)
  }

  lemma ShelfOrdersArePreorders()
    ensures TotalPreorder(BiggerDiscountFirst) && TotalPreorder(NewerBookFirst)
    ensures TotalPreorder(BetterRatedFirst) && TotalPreorder(BestSellingFirst)
    ensures TotalPreorder(LatestPublishedFirst)
  {
  }

  /** One shelf: the first `n` of the qualifying books in shelf order. */
  function Shelf(books: seq<Book>, keep: Book -> bool, first: (Book, Book) -> bool, n: nat): seq<Book> {
    Top(Filter(books, keep), first, n)
  }

  /** Every shelf shows `n` books, or all the qualifying ones when fewer
      qualify; it is ordered, holds only qualifying books from the table, and
      no qualifying book left off it ranks ahead of one on it. */
  lemma ShelfProperties(books: seq<Book>, keep: Book -> bool, first: (Book, Book) -> bool, n: nat)
    requires TotalPreorder(first)
    ensures var r := Shelf(books, keep, first, n);
      && |r| == (if |Filter(books, keep)| <= n then |Filter(books, keep)| else n)
      && Sorted(r, first)
      && (forall b :: b in r ==> b in books && keep(b))
      && (forall a, b :: a in books && keep(a) && a !in r && b in r ==> first(b, a))
  {
    TopProperties(Filter(books, keep), first, n);
  }

  /** With at most `n` qualifying books, the shelf shows all of them. */
  lemma ShelfComplete(books: seq<Book>, keep: Book -> bool, first: (Book, Book) -> bool, n: nat)
    requires |Filter(books, keep)| <= n
    ensures forall b :: b in books && keep(b) ==> b in Shelf(books, keep, first, n)
  {
    var s := Sort(Filter(books, keep), first);
    assert Shelf(books, keep, first, n) == s;
    assert forall b :: b in s <==> b in multiset(s);
    assert forall b :: b in Filter(books, keep) <==> b in multiset(Filter(books, keep));
  }

  /** `GetDiscountedBooks`: up to twelve books on sale now, biggest discount
      first. */
  function Discounted(books: seq<Book>, now: Ticks): seq<Book> {
    Shelf(books, (b: Book) => OnSaleNow(b, now), BiggerDiscountFirst, DiscountedCount)
  }

  /** `GetExclusiveEditions`: up to ten exclusive editions, newest first. */
  function ExclusiveEditions(books: seq<Book>): seq<Book> {
    Shelf(books, Exclusive, NewerBookFirst, ShelfCount)
  }

  /** `GetTopRatedBooks`: up to ten books rated 4.5 or more, best rated
      first, more copies sold breaking ties. */
  function TopRatedBooks(books: seq<Book>): seq<Book> {
    Shelf(books, TopRated, BetterRatedFirst, ShelfCount)
  }

  /** `GetBestSellers`: the ten books with most copies sold. */
  function BestSellers(books: seq<Book>): seq<Book> {
    Top(books, BestSellingFirst, ShelfCount)
  }

  /** `GetNewArrivals`: the ten latest publications, newer records first on
      equal dates. */
  function NewArrivals(books: seq<Book>): seq<Book> {
    Top(books, LatestPublishedFirst, ShelfCount)
  }

  lemma DiscountedProperties(books: seq<Book>, now: Ticks)
    ensures var r := Discounted(books, now);
      var onSale := Filter(books, (b: Book) => OnSaleNow(b, now));
      && |r| == (if |onSale| <= DiscountedCount then |onSale| else DiscountedCount)
      && Sorted(r, BiggerDiscountFirst)
      && (forall b :: b in r ==> b in books && OnSaleNow(b, now))
      && (forall a, b :: a in books && OnSaleNow(a, now) && a !in r && b in r ==>
            b.discountPercentage >= a.discountPercentage)
  {
    ShelfOrdersArePreorders();
    var r := Discounted(books, now);
    ShelfProperties(books, (b: Book) => OnSaleNow(b, now), BiggerDiscountFirst, DiscountedCount);
    forall a, b | a in books && OnSaleNow(a, now) && a !in r && b in r
      ensures b.discountPercentage >= a.discountPercentage
    {
      assert BiggerDiscountFirst(b, a);
    }
  }

  lemma ExclusiveProperties(books: seq<Book>)
    ensures var r := ExclusiveEditions(books);
      && |r| == (if |Filter(books, Exclusive)| <= ShelfCount then |Filter(books, Exclusive)| else ShelfCount)
      && Sorted(r, NewerBookFirst)
      && (forall b :: b in r ==> b in books && b.isExclusiveEdition)
      && (forall a, b :: a in books && a.isExclusiveEdition && a !in r && b in r ==> b.createdAt >= a.createdAt)
  {
    ShelfOrdersArePreorders();
    var r := ExclusiveEditions(books);
    ShelfProperties(books, Exclusive, NewerBookFirst, ShelfCount);
    forall a, b | a in books && a.isExclusiveEdition && a !in r && b in r ensures b.createdAt >= a.createdAt {
      assert Exclusive(a) && NewerBookFirst(b, a);
    }
  }

  lemma TopRatedProperties(books: seq<Book>)
    ensures var r := TopRatedBooks(books);
      && |r| == (if |Filter(books, TopRated)| <= ShelfCount then |Filter(books, TopRated)| else ShelfCount)
      && Sorted(r, BetterRatedFirst)
      && (forall b :: b in r ==> b in books && b.averageRating >= 4.5)
      && (forall a, b :: a in books && a.averageRating >= 4.5 && a !in r && b in r ==>
            b.averageRating > a.averageRating
            || (b.averageRating == a.averageRating && b.totalSold >= a.totalSold))
  {
    ShelfOrdersArePreorders();
    var r := TopRatedBooks(books);
    ShelfProperties(books, TopRated, BetterRatedFirst, ShelfCount);
    forall a, b | a in books && a.averageRating >= 4.5 && a !in r && b in r
      ensures b.averageRating > a.averageRating || (b.averageRating == a.averageRating && b.totalSold >= a.totalSold)
    {
      assert TopRated(a) && BetterRatedFirst(b, a);
    }
  }

  lemma BestSellersProperties(books: seq<Book>)
    ensures var r := BestSellers(books);
      && |r| == (if |books| <= ShelfCount then |books| else ShelfCount)
      && Sorted(r, BestSellingFirst)
      && (forall b :: b in r ==> b in books)
      && (forall a, b :: a in books && a !in r && b in r ==> b.totalSold >= a.totalSold)
  {
    ShelfOrdersArePreorders();
    TopProperties(books, BestSellingFirst, ShelfCount);
  }

  lemma NewArrivalsProperties(books: seq<Book>)
    ensures var r := NewArrivals(books);
      && |r| == (if |books| <= ShelfCount then |books| else ShelfCount)
      && Sorted(r, LatestPublishedFirst)
      && (forall b :: b in r ==> b in books)
      && (forall a, b :: a in books && a !in r && b in r ==>
            b.publicationDate > a.publicationDate
            || (b.publicationDate == a.publicationDate && b.createdAt >= a.createdAt))
  {
    ShelfOrdersArePreorders();
    var r := NewArrivals(books);
    TopProperties(books, LatestPublishedFirst, ShelfCount);
    forall a, b | a in books && a !in r && b in r
      ensures b.publicationDate > a.publicationDate || (b.publicationDate == a.publicationDate && b.createdAt >= a.createdAt)
    {
      assert LatestPublishedFirst(b, a);
    }
  }

  /** The response of each shelf endpoint: its books as display records. */
  function ShelfResponse(genres: seq<Genre>, shelf: seq<Book>): (r: seq<BookDto>)
    ensures |r| == |shelf| && forall k :: 0 <= k < |r| ==> r[k] == MapToDto(genres, shelf[k])
  {
    MapAll(genres, shelf)
  }
}
