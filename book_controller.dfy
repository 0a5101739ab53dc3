/** The catalogue: admin-only book and genre maintenance, the edit of a
    book's image list, and the public filter-and-sort query. */
module BookController {
  import opened Wrappers
  import opened Text
  import opened Ordering
  import opened Entities
  import opened Data

  /** `IsAdmin()`: the role claim is exactly "admin" (case matters). */
  predicate IsAdmin(user: Principal) {
    user.role == Some("admin")
  }

  /** The messages the admin checks pass to `Forbid`, where the framework
      reads them as authentication scheme names. */
  const AddBooksRefusal: string := "Only admin users can add books."
  const UpdateBooksRefusal: string := "Only admin users can update books."
  const DeleteBooksRefusal: string := "Only admin users can delete books."
  const AddGenresRefusal: string := "Only admin users can add genres."
  const UpdateGenresRefusal: string := "Only admin users can update genres."
  const DeleteGenresRefusal: string := "Only admin users can delete genres."

  // ----- images -----

  const ImageFolder: string := "/images/books/"

  /** The image records for uploaded files, given the file names the upload
      loop generates, in upload order. */
  function UploadedImages(fileNames: seq<string>): (r: seq<BookImage>)
    ensures |r| == |fileNames|
    ensures forall k :: 0 <= k < |r| ==> r[k].url == ImageFolder + fileNames[k]
  {
    if fileNames == [] then []
    else UploadedImages(fileNames[..|fileNames| - 1]) + [BookImage(ImageFolder + fileNames[|fileNames| - 1])]
  }

  predicate Kept(img: BookImage, deleteImages: seq<string>) {
    img.url !in deleteImages
  }

  /** The images left after `deleteImages`: every image whose URL is not
      listed, in their original order; no list deletes nothing. */
  function KeptImages(images: seq<BookImage>, deleteImages: Option<seq<string>>): (r: seq<BookImage>)
    ensures deleteImages.None? ==> r == images
    ensures forall img :: img in r <==> img in images && (deleteImages.None? || img.url !in deleteImages.value)
    ensures multiset(r) <= multiset(images)
  {
    match deleteImages
    case None => images
    case Some(d) => Filter(images, (img: BookImage) => Kept(img, d))
  }

  /** Each image not marked for deletion stays exactly as often as it was
      on the book, and no marked image stays. */
  lemma KeptImagesCount(images: seq<BookImage>, deleteImages: Option<seq<string>>)
    ensures forall img :: multiset(KeptImages(images, deleteImages))[img] ==
              if deleteImages.None? || img.url !in deleteImages.value then multiset(images)[img] else 0
  {
    if deleteImages.Some? {
      FilterCount(images, (img: BookImage) => Kept(img, deleteImages.value));
    }
  }

  /** The image edit of `PutBook`: first the images marked for deletion are
      removed, one by one, then one image per uploaded file is appended. */
  method EditImages(images: seq<BookImage>, deleteImages: Option<seq<string>>, fileNames: seq<string>)
    returns (r: seq<BookImage>)
    ensures r == KeptImages(images, deleteImages) + UploadedImages(fileNames)
  {
    r := images;
    if deleteImages.Some? {
      r := RemoveMarked(images, deleteImages.value);
    }
    r := AppendUploads(r, fileNames);
  }

  /** The deletion loop: each image whose URL is listed is removed. */
  method RemoveMarked(images: seq<BookImage>, d: seq<string>) returns (r: seq<BookImage>)
    ensures r == KeptImages(images, Some(d))
  {
    var p := (img: BookImage) => Kept(img, d);
    r := [];
    var i := 0;
    while i < |images|
      invariant 0 <= i <= |images|
      invariant r == Filter(images[..i], p)
    {
      FilterSnoc(images[..i], images[i], p);
      assert images[..i + 1] == images[..i] + [images[i]];
      if images[i].url !in d {
        r := r + [images[i]];
      }
      i := i + 1;
    }
    assert images[..i] == images;
  }

  /** The upload loop: one image per file, appended in upload order. */
  method AppendUploads(kept: seq<BookImage>, fileNames: seq<string>) returns (r: seq<BookImage>)
    ensures r == kept + UploadedImages(fileNames)
  {
    r := kept;
    var j := 0;
    while j < |fileNames|
      invariant 0 <= j <= |fileNames|
      invariant r == kept + UploadedImages(fileNames[..j])
    {
      assert fileNames[..j + 1][..j] == fileNames[..j];
      r := r + [BookImage(ImageFolder + fileNames[j])];
      j := j + 1;
    }
    assert fileNames[..j] == fileNames;
  }

  /** After the edit a URL is on the book exactly when it was there and not
      marked for deletion, or it belongs to an upload; kept images come
      first, uploads after them in upload order. */
  lemma EditedImagesContent(images: seq<BookImage>, deleteImages: Option<seq<string>>, fileNames: seq<string>)
    ensures var r := KeptImages(images, deleteImages) + UploadedImages(fileNames);
      && (forall img :: img in r <==>
            (img in images && (deleteImages.None? || img.url !in deleteImages.value))
            || img in UploadedImages(fileNames))
      && r[|KeptImages(images, deleteImages)|..] == UploadedImages(fileNames)
  {
  }

  // ----- books -----

  /** The form fields of a create or an update request. Dates are in UTC
      ticks. */
  datatype BookInput = BookInput(
    title: string, author: string, genreId: int, language: string, format: string,
    price: real, isPhysicalAccess: bool, publicationDate: Ticks, stock: int, isbn: string,
    description: string, publisher: string, bookType: string, isExclusiveEdition: bool,
    isOnSale: bool, discountPercentage: real, discountStart: Option<Ticks>, discountEnd: Option<Ticks>)

  /** The book record `PostBook` builds: the form fields, the admin as
      owner, no rating and no sales yet. */
  function NewBook(id: int, adminId: int, dto: BookInput, images: seq<BookImage>, now: Ticks): (b: Book)
    ensures b.id == id && b.adminId == adminId && b.genreId == dto.genreId && b.images == images
    ensures b.averageRating == 0.0 && b.totalSold == 0 && b.createdAt == now && b.updatedAt == now
  {
    Book(id, adminId, dto.genreId, dto.title, dto.author, dto.isbn, dto.language, dto.price,
         dto.publicationDate, dto.format, dto.stock, dto.isPhysicalAccess, dto.isOnSale,
         dto.discountPercentage, dto.discountStart, dto.discountEnd, dto.description, dto.publisher,
         dto.bookType, dto.isExclusiveEdition, 0.0, 0, now, now, images)
  }

  /** The book after `PutBook` has copied the form fields: its key, owner,
      rating, sales and creation time stay. */
  function EditedBook(b: Book, dto: BookInput, images: seq<BookImage>, now: Ticks): (r: Book)
    ensures r.id == b.id && r.adminId == b.adminId && r.averageRating == b.averageRating
    ensures r.totalSold == b.totalSold && r.createdAt == b.createdAt
    ensures r.updatedAt == now && r.images == images && r.genreId == dto.genreId
  {
    b.(title := dto.title, author := dto.author, genreId := dto.genreId, language := dto.language,
       format := dto.format, price := dto.price, publicationDate := dto.publicationDate,
       isPhysicalAccess := dto.isPhysicalAccess, stock := dto.stock, isbn := dto.isbn,
       description := dto.description, publisher := dto.publisher, bookType := dto.bookType,
       isExclusiveEdition := dto.isExclusiveEdition, isOnSale := dto.isOnSale,
       discountPercentage := dto.discountPercentage, discountStart := dto.discountStart,
       discountEnd := dto.discountEnd, updatedAt := now, images := images)
  }

  /** `PostBook`: admins only, with a parseable admin id and an existing
      genre; the new book carries the uploaded images. */
  method PostBook(db: AppDbContext, user: Principal, dto: BookInput, fileNames: seq<string>, now: Ticks)
    returns (status: Status, id: Option<int>)
    modifies db`books, db`nextId
    ensures !IsAdmin(user) ==> status == ServerError
    ensures IsAdmin(user) && ParseLong(user.nameIdentifier).None? ==> status == Unauthorized
    ensures IsAdmin(user) && ParseLong(user.nameIdentifier).Some? && !HasGenre(db.genres, dto.genreId) ==>
      status == BadRequest
    ensures status != Ok ==> db.books == old(db.books) && db.nextId == old(db.nextId) && id.None?
    ensures IsAdmin(user) && ParseLong(user.nameIdentifier).Some? && HasGenre(db.genres, dto.genreId) ==>
      && status == Ok && id == Some(old(db.nextId)) && db.nextId == old(db.nextId) + 1
      && db.books == old(db.books) + [NewBook(old(db.nextId), ParseLong(user.nameIdentifier).value, dto,
                                             UploadedImages(fileNames), now)]
  {
    if !IsAdmin(user) {
      ForbidWithMessage(AddBooksRefusal);
      return ForbidAnswer([AddBooksRefusal]), None;
    }
    var adminId := ParseLong(user.nameIdentifier);
    if adminId.None? {
      return Unauthorized, None;
    }
    if GenreIndex(db.genres, dto.genreId).None? {
      return BadRequest, None;
    }
    var images := EditImages([], None, fileNames);
    assert images == UploadedImages(fileNames);
    var key := db.NewId();
    var book := NewBook(key, adminId.value, dto, images, now);
    db.books := db.books + [book];
    status, id := Ok, Some(key);
  }

  /** `PutBook`: admins only; an unknown book is NotFound and an unknown
      genre a BadRequest, changing nothing; otherwise the form fields are
      copied and the image list edited. */
  method PutBook(db: AppDbContext, user: Principal, id: int, dto: BookInput, fileNames: seq<string>,
                 deleteImages: Option<seq<string>>, now: Ticks)
    returns (status: Status)
    modifies db`books
    ensures !IsAdmin(user) ==> status == ServerError
    ensures IsAdmin(user) && BookIndex(old(db.books), id).None? ==> status == NotFound
    ensures IsAdmin(user) && BookIndex(old(db.books), id).Some? && !HasGenre(db.genres, dto.genreId) ==>
      status == BadRequest
    ensures status != Ok ==> db.books == old(db.books)
    ensures IsAdmin(user) && BookIndex(old(db.books), id).Some? && HasGenre(db.genres, dto.genreId) ==>
      var k := BookIndex(old(db.books), id).value;
      var b := old(db.books)[k];
      && status == Ok
      && db.books == old(db.books)[k := EditedBook(b, dto,
           KeptImages(b.images, deleteImages) + UploadedImages(fileNames), now)]
  {
    if !IsAdmin(user) {
      ForbidWithMessage(UpdateBooksRefusal);
      return ForbidAnswer([UpdateBooksRefusal]);
    }
    var k := BookIndex(db.books, id);
    if k.None? {
      return NotFound;
    }
    if GenreIndex(db.genres, dto.genreId).None? {
      return BadRequest;
    }
    var existing := db.books[k.value];
    var images := EditImages(existing.images, deleteImages, fileNames);
    db.books := db.books[k.value := EditedBook(existing, dto, images, now)];
    status := Ok;
  }

  /** `DeleteBook`: admins only; the book goes together with everything
      that cascades from it. */
  method DeleteBook(db: AppDbContext, user: Principal, id: int)
    returns (status: Status)
    modifies db`books, db`reviews, db`carts, db`orders, db`bookmarks
    ensures !IsAdmin(user) || BookIndex(old(db.books), id).None? ==>
      && status == (if IsAdmin(user) then NotFound else ServerError)
      && db.books == old(db.books) && db.reviews == old(db.reviews) && db.carts == old(db.carts)
      && db.orders == old(db.orders) && db.bookmarks == old(db.bookmarks)
    ensures IsAdmin(user) && BookIndex(old(db.books), id).Some? ==>
      && status == Ok
      && db.books == RemoveAt(old(db.books), BookIndex(old(db.books), id).value)
      && db.reviews == ReviewsWithoutBooks(old(db.reviews), {id})
      && db.carts == CartsWithoutBooks(old(db.carts), {id})
      && db.orders == OrdersWithoutBooks(old(db.orders), {id})
      && db.bookmarks == BookmarksWithoutBooks(old(db.bookmarks), {id})
  {
    if !IsAdmin(user) {
      ForbidWithMessage(DeleteBooksRefusal);
      return ForbidAnswer([DeleteBooksRefusal]);
    }
    var k := BookIndex(db.books, id);
    if k.None? {
      return NotFound;
    }
    db.DeleteBookAt(k.value);
    status := Ok;
  }

  // ----- genres -----

  /** `CreateGenre`: admins only, with a name that is not blank. The body is
      bound to the entity itself and inserted as it came: a key of 0 is
      unset and the database generates one, while any other key is stored
      as given, and a key some genre already has breaks the primary key,
      so the save throws and the answer is a server error. */
  method CreateGenre(db: AppDbContext, user: Principal, genre: Genre)
    returns (status: Status, id: Option<int>)
    modifies db`genres, db`nextId
    ensures !IsAdmin(user) ==> status == ServerError
    ensures IsAdmin(user) && IsNullOrWhiteSpace(Some(genre.name)) ==> status == BadRequest
    ensures status != Ok ==> db.genres == old(db.genres) && db.nextId == old(db.nextId) && id.None?
    ensures IsAdmin(user) && !IsNullOrWhiteSpace(Some(genre.name)) && genre.id == 0 ==>
      && status == Ok && id == Some(old(db.nextId)) && db.nextId == old(db.nextId) + 1
      && db.genres == old(db.genres) + [Genre(old(db.nextId), genre.name)]
    ensures IsAdmin(user) && !IsNullOrWhiteSpace(Some(genre.name)) && genre.id != 0 ==>
      if HasGenre(old(db.genres), genre.id) then status == ServerError
      else
        && status == Ok && id == Some(genre.id) && db.nextId == old(db.nextId)
        && db.genres == old(db.genres) + [genre]
  {
    if !IsAdmin(user) {
      ForbidWithMessage(AddGenresRefusal);
      return ForbidAnswer([AddGenresRefusal]), None;
    }
    if IsNullOrWhiteSpace(Some(genre.name)) {
      return BadRequest, None;
    }
    if genre.id == 0 {
      var key := db.NewId();
      db.genres := db.genres + [Genre(key, genre.name)];
      status, id := Ok, Some(key);
    } else if GenreIndex(db.genres, genre.id).Some? {
      status, id := ServerError, None;
    } else {
      db.genres := db.genres + [genre];
      status, id := Ok, Some(genre.id);
    }
  }

  /** `UpdateGenre`: admins only; the route id must equal the body's id and
      name an existing genre, whose name is then replaced (unchecked). */
  method UpdateGenre(db: AppDbContext, user: Principal, id: int, genre: Genre)
    returns (status: Status)
    modifies db`genres
    ensures !IsAdmin(user) ==> status == ServerError
    ensures IsAdmin(user) && id != genre.id ==> status == BadRequest
    ensures IsAdmin(user) && id == genre.id && GenreIndex(old(db.genres), id).None? ==> status == NotFound
    ensures status != Ok ==> db.genres == old(db.genres)
    ensures IsAdmin(user) && id == genre.id && GenreIndex(old(db.genres), id).Some? ==>
      var k := GenreIndex(old(db.genres), id).value;
      status == Ok && db.genres == old(db.genres)[k := Genre(id, genre.name)]
  {
    if !IsAdmin(user) {
      ForbidWithMessage(UpdateGenresRefusal);
      return ForbidAnswer([UpdateGenresRefusal]);
    }
    if id != genre.id {
      return BadRequest;
    }
    var k := GenreIndex(db.genres, id);
    if k.None? {
      return NotFound;
    }
    db.genres := db.genres[k.value := db.genres[k.value].(name := genre.name)];
    status := Ok;
  }

  /** `DeleteGenre`: admins only; the genre goes with its books and what
      cascades from them. */
  method DeleteGenre(db: AppDbContext, user: Principal, id: int)
    returns (status: Status)
    modifies db`genres, db`books, db`reviews, db`carts, db`orders, db`bookmarks
    ensures !IsAdmin(user) || GenreIndex(old(db.genres), id).None? ==>
      && status == (if IsAdmin(user) then NotFound else ServerError)
      && db.genres == old(db.genres) && db.books == old(db.books) && db.reviews == old(db.reviews)
      && db.carts == old(db.carts) && db.orders == old(db.orders) && db.bookmarks == old(db.bookmarks)
    ensures IsAdmin(user) && GenreIndex(old(db.genres), id).Some? ==>
      && status == Ok
      && db.genres == RemoveAt(old(db.genres), GenreIndex(old(db.genres), id).value)
      && db.books == BooksWithoutGenre(old(db.books), id)
      && db.reviews == ReviewsWithoutBooks(old(db.reviews), BookIdsOfGenre(old(db.books), id))
      && db.carts == CartsWithoutBooks(old(db.carts), BookIdsOfGenre(old(db.books), id))
      && db.orders == OrdersWithoutBooks(old(db.orders), BookIdsOfGenre(old(db.books), id))
      && db.bookmarks == BookmarksWithoutBooks(old(db.bookmarks), BookIdsOfGenre(old(db.books), id))
  {
    if !IsAdmin(user) {
      ForbidWithMessage(DeleteGenresRefusal);
      return ForbidAnswer([DeleteGenresRefusal]);
    }
    var k := GenreIndex(db.genres, id);
    if k.None? {
      return NotFound;
    }
    db.DeleteGenreAt(k.value);
    status := Ok;
  }

  // ----- the filter query -----

  /** The query string of `/filter`. Only `search`, `genreId`, `minPrice`,
      `maxPrice` and `sort` are read; the other fields bind but are unused. */
  datatype BookFilter = BookFilter(
    search: Option<string>, author: Option<string>, genreId: Option<int>, language: Option<string>,
    format: Option<string>, publisher: Option<string>, bookType: Option<string>,
    isPhysicalAccess: Option<bool>, isExclusiveEdition: Option<bool>, minPrice: Option<real>,
    maxPrice: Option<real>, minRating: Option<real>, sort: Option<string>)

  predicate MatchesSearch(b: Book, search: string) {
    Contains(b.title, search) || Contains(b.author, search)
  }

  /** Every active condition of the filter holds for the book. */
  predicate Matches(b: Book, f: BookFilter) {
    && (IsNullOrWhiteSpace(f.search) || MatchesSearch(b, f.search.value))
    && (f.genreId.None? || b.genreId == f.genreId.value)
    && (f.minPrice.None? || b.price >= f.minPrice.value)
    && (f.maxPrice.None? || b.price <= f.maxPrice.value)
  }

  function BySearch(books: seq<Book>, search: Option<string>): (r: seq<Book>)
    ensures forall b :: b in r <==> b in books && (IsNullOrWhiteSpace(search) || MatchesSearch(b, search.value))
    ensures forall b :: multiset(r)[b] == if (IsNullOrWhiteSpace(search) || MatchesSearch(b, search.value)) then multiset(books)[b] else 0
  {
    if IsNullOrWhiteSpace(search) then books
    else
      var p := (b: Book) => MatchesSearch(b, search.value);
      FilterCount(books, p);
      Filter(books, p)
  }

  function ByGenre(books: seq<Book>, genreId: Option<int>): (r: seq<Book>)
    ensures forall b :: b in r <==> b in books && (genreId.None? || b.genreId == genreId.value)
    ensures forall b :: multiset(r)[b] == if (genreId.None? || b.genreId == genreId.value) then multiset(books)[b] else 0
  {
    if genreId.None? then books
    else
      var p := (b: Book) => b.genreId == genreId.value;
      FilterCount(books, p);
      Filter(books, p)
  }

  function ByMinPrice(books: seq<Book>, minPrice: Option<real>): (r: seq<Book>)
    ensures forall b :: b in r <==> b in books && (minPrice.None? || b.price >= minPrice.value)
    ensures forall b :: multiset(r)[b] == if (minPrice.None? || b.price >= minPrice.value) then multiset(books)[b] else 0
  {
    if minPrice.None? then books
    else
      var p := (b: Book) => b.price >= minPrice.value;
      FilterCount(books, p);
      Filter(books, p)
  }

  function ByMaxPrice(books: seq<Book>, maxPrice: Option<real>): (r: seq<Book>)
    ensures forall b :: b in r <==> b in books && (maxPrice.None? || b.price <= maxPrice.value)
    ensures forall b :: multiset(r)[b] == if (maxPrice.None? || b.price <= maxPrice.value) then multiset(books)[b] else 0
  {
    if maxPrice.None? then books
    else
      var p := (b: Book) => b.price <= maxPrice.value;
      FilterCount(books, p);
      Filter(books, p)
  }

  /** The four `Where` clauses, each applied only when its field is given. */
  function Filtered(books: seq<Book>, f: BookFilter): (r: seq<Book>)
    ensures forall b :: b in r <==> b in books && Matches(b, f)
    ensures forall b :: multiset(r)[b] == if Matches(b, f) then multiset(books)[b] else 0
  {
    ByMaxPrice(ByMinPrice(ByGenre(BySearch(books, f.search), f.genreId), f.minPrice), f.maxPrice)
  }

  predicate PriceAsc(a: Book, b: Book) { a.price <= b.price }
  predicate PriceDesc(a: Book, b: Book) { a.price >= b.price }
  predicate TitleAsc(a: Book, b: Book) { LexLessEq(a.title, b.title) }
  predicate TitleDesc(a: Book, b: Book) { LexLessEq(b.title, a.title) }

  lemma PriceOrdersArePreorders()
    ensures TotalPreorder(PriceAsc) && TotalPreorder(PriceDesc)
  {
  }

  lemma TitleOrdersArePreorders()
    ensures TotalPreorder(TitleAsc) && TotalPreorder(TitleDesc)
  {
    forall a: Book, b: Book ensures TitleAsc(a, b) || TitleAsc(b, a) {
      LexLessEqTotal(a.title, b.title);
    }
    forall a: Book, b: Book ensures TitleDesc(a, b) || TitleDesc(b, a) {
      LexLessEqTotal(a.title, b.title);
    }
    forall a: Book, b: Book, c: Book | TitleAsc(a, b) && TitleAsc(b, c) ensures TitleAsc(a, c) {
      LexLessEqTransitive(a.title, b.title, c.title);
    }
    forall a: Book, b: Book, c: Book | TitleDesc(a, b) && TitleDesc(b, c) ensures TitleDesc(a, c) {
      LexLessEqTransitive(c.title, b.title, a.title);
    }
  }

  /** The `switch` on the sort key; anything else keeps the order. */
  function SortBooks(books: seq<Book>, sort: Option<string>): (r: seq<Book>)
    ensures multiset(r) == multiset(books)
  {
    if sort == Some("price_desc") then Sort(books, PriceDesc)
    else if sort == Some("price_asc") then Sort(books, PriceAsc)
    else if sort == Some("title_asc") then Sort(books, TitleAsc)
    else if sort == Some("title_desc") then Sort(books, TitleDesc)
    else books
  }

  /** `FilterBooks`: the matching books, sorted as asked. */
  function FilterBooks(books: seq<Book>, f: BookFilter): seq<Book> {
    SortBooks(Filtered(books, f), f.sort)
  }

  /** The result holds every book meeting all active conditions and no
      other, each as often as in the table, in the requested order, and in
      table order under a missing or unknown sort key. */
  lemma FilterBooksProperties(books: seq<Book>, f: BookFilter)
    ensures var r := FilterBooks(books, f);
      && (forall b :: b in r <==> b in books && Matches(b, f))
      && (forall b :: multiset(r)[b] == if Matches(b, f) then multiset(books)[b] else 0)
      && (f.sort == Some("price_asc") ==> Sorted(r, PriceAsc))
      && (f.sort == Some("price_desc") ==> Sorted(r, PriceDesc))
      && (f.sort == Some("title_asc") ==> Sorted(r, TitleAsc))
      && (f.sort == Some("title_desc") ==> Sorted(r, TitleDesc))
      && (f.sort !in {Some("price_asc"), Some("price_desc"), Some("title_asc"), Some("title_desc")} ==>
            r == Filtered(books, f))
  {
    var s := Filtered(books, f);
    var r := FilterBooks(books, f);
    assert forall b :: b in r <==> b in multiset(r);
    assert forall b :: b in s <==> b in multiset(s);
    PriceOrdersArePreorders();
    TitleOrdersArePreorders();
    SortSorted(s, PriceAsc);
    SortSorted(s, PriceDesc);
    SortSorted(s, TitleAsc);
    SortSorted(s, TitleDesc);
  }

  /** The unused filter fields have no effect on the result. */
  lemma UnusedFiltersIgnored(books: seq<Book>, f: BookFilter, g: BookFilter)
    requires f.search == g.search && f.genreId == g.genreId && f.minPrice == g.minPrice
    requires f.maxPrice == g.maxPrice && f.sort == g.sort
    ensures FilterBooks(books, f) == FilterBooks(books, g)
  {
  }
}
