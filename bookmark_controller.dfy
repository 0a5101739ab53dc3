/** Bookmarks: a member's set of (member, book) pairs, listed, added and
    removed one pair at a time; admins may not bookmark. */
module BookmarkController {
  import opened Wrappers
  import opened Text
  import opened Ordering
  import opened Entities
  import opened Data

  /** `IsAdmin()`: the role claim, lower-cased, is "admin". */
  predicate IsAdmin(user: Principal) {
    user.role.Some? && ToLower(user.role.value) == "admin"
  }

  /** The comparison ignores case and nothing else: any spelling of "admin"
      in upper and lower case letters is an admin, and no other role is. */
  lemma IsAdminIff(user: Principal)
    ensures IsAdmin(user) <==>
      && user.role.Some? && |user.role.value| == 5
      && forall i :: 0 <= i < 5 ==>
           user.role.value[i] == "admin"[i] || user.role.value[i] as int == "admin"[i] as int - 32
  {
    if user.role.Some? {
      LowerEqualsIff(user.role.value, "admin");
    }
  }

  /** `TryGetMemberId`: `long.TryParse` of the name-identifier claim. */
  function TryGetMemberId(user: Principal): (r: Option<int>)
    ensures r.Some? ==> MinLong <= r.value <= MaxLong
    ensures r == MemberId(user)
  {
    ParseLong(user.nameIdentifier)
  }

  /** At most one bookmark per (member, book) pair. */
  predicate PairsUnique(bookmarks: seq<Bookmark>) {
    forall i, j :: 0 <= i < j < |bookmarks| ==>
      bookmarks[i].memberId != bookmarks[j].memberId || bookmarks[i].bookId != bookmarks[j].bookId
  }

  /** The first bookmark of the pair, as `FirstOrDefault` finds it. */
  function PairIndex(bookmarks: seq<Bookmark>, memberId: int, bookId: int): (r: Option<nat>)
    ensures r.Some? ==> r.value < |bookmarks| && bookmarks[r.value].memberId == memberId && bookmarks[r.value].bookId == bookId
    ensures r.None? <==> forall k :: 0 <= k < |bookmarks| ==> bookmarks[k].memberId != memberId || bookmarks[k].bookId != bookId
  {
    FirstIndex(bookmarks, (b: Bookmark) => b.memberId == memberId && b.bookId == bookId)
  }

  // ----- listing -----

  /** One row of the `GET` listing. */
  datatype BookmarkView = BookmarkView(bookId: int, title: string, author: string, price: real, images: seq<string>)

  function View(b: Book): (v: BookmarkView)
    ensures v.bookId == b.id && v.title == b.title && v.author == b.author && v.price == b.price
    ensures v.images == ImageUrls(b.images)
  {
    BookmarkView(b.id, b.title, b.author, b.price, ImageUrls(b.images))
  }

  predicate OwnedBy(b: Bookmark, memberId: int) {
    b.memberId == memberId
  }

  /** The `Where` of the listing. */
  function MemberBookmarks(bookmarks: seq<Bookmark>, memberId: int): (r: seq<Bookmark>)
    ensures forall b :: b in r <==> b in bookmarks && b.memberId == memberId
    ensures forall b :: multiset(r)[b] == if b.memberId == memberId then multiset(bookmarks)[b] else 0
  {
    var p := (b: Bookmark) => OwnedBy(b, memberId);
    FilterCount(bookmarks, p);
    Filter(bookmarks, p)
  }

  /** The join with the books table, one row per bookmark whose book is on
      record, in bookmark order. */
  function Views(bookmarks: seq<Bookmark>, books: seq<Book>): (r: seq<BookmarkView>)
    ensures |r| <= |bookmarks|
  {
    if bookmarks == [] then []
    else
      var last := bookmarks[|bookmarks| - 1];
      var rest := Views(bookmarks[..|bookmarks| - 1], books);
      match BookIndex(books, last.bookId)
      case None => rest
      case Some(k) => rest + [View(books[k])]
  }

  /** Appending a bookmark appends its row exactly when its book is on
      record: the join goes through the bookmarks in order. */
  lemma ViewsSnoc(bookmarks: seq<Bookmark>, b: Bookmark, books: seq<Book>)
    ensures Views(bookmarks + [b], books) ==
      Views(bookmarks, books) + (if BookIndex(books, b.bookId).Some? then [View(books[BookIndex(books, b.bookId).value])] else [])
  {
    assert (bookmarks + [b])[..|bookmarks|] == bookmarks;
  }

  /** Each row of the join shows a book on record that one of the listed
      bookmarks points to, and every such bookmark has its row. */
  lemma {:induction false} ViewsExact(bookmarks: seq<Bookmark>, books: seq<Book>)
    ensures forall v :: v in Views(bookmarks, books) ==>
      exists b :: b in bookmarks && BookIndex(books, b.bookId).Some? && v == View(books[BookIndex(books, b.bookId).value])
    ensures forall b :: b in bookmarks && BookIndex(books, b.bookId).Some? ==>
      View(books[BookIndex(books, b.bookId).value]) in Views(bookmarks, books)
    decreases |bookmarks|
  {
    if bookmarks != [] {
      var init := bookmarks[..|bookmarks| - 1];
      var last := bookmarks[|bookmarks| - 1];
      ViewsExact(init, books);
      assert bookmarks == init + [last];
      assert forall b :: b in init ==> b in bookmarks;
      var rest := Views(init, books);
      match BookIndex(books, last.bookId)
      case None =>
        assert Views(bookmarks, books) == rest;
      case Some(k) =>
        assert Views(bookmarks, books) == rest + [View(books[k])];
    }
  }

  /** `GetBookmarks`: Unauthorized without a parseable id; otherwise the
      caller's bookmarks, joined with their books. */
  function GetBookmarks(db: AppDbContext, user: Principal): (r: Option<seq<BookmarkView>>)
    reads db
    ensures TryGetMemberId(user).None? ==> r.None?
    ensures TryGetMemberId(user).Some? ==>
      r == Some(Views(MemberBookmarks(db.bookmarks, TryGetMemberId(user).value), db.books))
  {
    match TryGetMemberId(user)
    case None => None
    case Some(m) => Some(Views(MemberBookmarks(db.bookmarks, m), db.books))
  }

  /** The listing shows the caller's bookmarks and nobody else's: each row
      comes from one of the caller's bookmarks. */
  lemma OnlyOwnBookmarks(bookmarks: seq<Bookmark>, books: seq<Book>, memberId: int)
    ensures forall v :: v in Views(MemberBookmarks(bookmarks, memberId), books) ==>
      exists b :: b in bookmarks && b.memberId == memberId && b.bookId == v.bookId
  {
    ViewsExact(MemberBookmarks(bookmarks, memberId), books);
  }

  // ----- adding and removing -----

  /** The messages the admin checks pass to `Forbid`, where the framework
      reads them as authentication scheme names. */
  const AddRefusal: string := "Admins cannot bookmark books."
  const RemoveRefusal: string := "Admins cannot remove bookmarks."

  /** Why an add is refused, in the order the source checks. */
  function AddError(user: Principal, books: seq<Book>, bookmarks: seq<Bookmark>, bookId: int): Option<Status> {
    if IsAdmin(user) then Some(ForbidAnswer([AddRefusal]))
    else if TryGetMemberId(user).None? then Some(Unauthorized)
    else if BookIndex(books, bookId).None? then Some(NotFound)
    else if PairIndex(bookmarks, TryGetMemberId(user).value, bookId).Some? then Some(BadRequest)
    else None
  }

  /** An add of a pair already present is refused, so the bookmarks stay
      unique; an add that is accepted keeps them unique too. */
  lemma {:induction false} AddKeepsUnique(bookmarks: seq<Bookmark>, id: int, memberId: int, bookId: int, now: Ticks)
    requires PairsUnique(bookmarks) && PairIndex(bookmarks, memberId, bookId).None?
    ensures PairsUnique(bookmarks + [Bookmark(id, memberId, bookId, now)])
  {
    var r := bookmarks + [Bookmark(id, memberId, bookId, now)];
    forall i, j | 0 <= i < j < |r| ensures r[i].memberId != r[j].memberId || r[i].bookId != r[j].bookId {
      if j == |bookmarks| {
        assert r[i] == bookmarks[i];
      } else {
        assert r[i] == bookmarks[i] && r[j] == bookmarks[j];
      }
    }
  }

  /** `AddBookmark`: refuses admins, an unreadable id, an unknown book and a
      repeat, storing nothing; otherwise stores exactly the pair. */
  method AddBookmark(db: AppDbContext, user: Principal, bookId: int, now: Ticks)
    returns (status: Status)
    modifies db`bookmarks, db`nextId
    ensures IsAdmin(user) ==> status == ServerError
    ensures AddError(user, db.books, old(db.bookmarks), bookId).Some? ==>
      && status == AddError(user, db.books, old(db.bookmarks), bookId).value
      && db.bookmarks == old(db.bookmarks) && db.nextId == old(db.nextId)
    ensures AddError(user, db.books, old(db.bookmarks), bookId).None? ==>
      && status == Ok && db.nextId == old(db.nextId) + 1
      && db.bookmarks == old(db.bookmarks) + [Bookmark(old(db.nextId), TryGetMemberId(user).value, bookId, now)]
    ensures PairsUnique(old(db.bookmarks)) ==> PairsUnique(db.bookmarks)
  {
    if IsAdmin(user) {
      ForbidWithMessage(AddRefusal);
      return ForbidAnswer([AddRefusal]);
    }
    var memberId := TryGetMemberId(user);
    if memberId.None? {
      return Unauthorized;
    }
    if BookIndex(db.books, bookId).None? {
      return NotFound;
    }
    if PairIndex(db.bookmarks, memberId.value, bookId).Some? {
      return BadRequest;
    }
    var id := db.NewId();
    if PairsUnique(db.bookmarks) {
      AddKeepsUnique(db.bookmarks, id, memberId.value, bookId, now);
    }
    db.bookmarks := db.bookmarks + [Bookmark(id, memberId.value, bookId, now)];
    status := Ok;
  }

  /** Removing one bookmark keeps the rest unique, and with unique pairs the
      pair is gone afterwards while every other bookmark stays. */
  lemma {:induction false} RemoveExactlyThePair(bookmarks: seq<Bookmark>, memberId: int, bookId: int)
    requires PairsUnique(bookmarks) && PairIndex(bookmarks, memberId, bookId).Some?
    ensures var r := RemoveAt(bookmarks, PairIndex(bookmarks, memberId, bookId).value);
      && PairsUnique(r)
      && PairIndex(r, memberId, bookId).None?
      && forall b :: b in bookmarks && (b.memberId != memberId || b.bookId != bookId) ==> b in r
  {
    var k := PairIndex(bookmarks, memberId, bookId).value;
    var r := RemoveAt(bookmarks, k);
    assert forall i :: 0 <= i < |r| ==> r[i] == bookmarks[if i < k then i else i + 1];
    forall b | b in bookmarks && (b.memberId != memberId || b.bookId != bookId) ensures b in r {
      var i :| 0 <= i < |bookmarks| && bookmarks[i] == b;
      assert i != k;
      assert r[if i < k then i else i - 1] == b;
    }
  }

  /** `RemoveBookmark`: refuses admins and an unreadable id; an absent pair
      is NotFound; otherwise exactly that bookmark goes. */
  method RemoveBookmark(db: AppDbContext, user: Principal, bookId: int)
    returns (status: Status)
    modifies db`bookmarks
    ensures IsAdmin(user) ==> status == ServerError
    ensures !IsAdmin(user) && TryGetMemberId(user).None? ==> status == Unauthorized
    ensures status != Ok ==> db.bookmarks == old(db.bookmarks)
    ensures !IsAdmin(user) && TryGetMemberId(user).Some? ==>
      var k := PairIndex(old(db.bookmarks), TryGetMemberId(user).value, bookId);
      if k.None? then status == NotFound
      else status == Ok && db.bookmarks == RemoveAt(old(db.bookmarks), k.value)
  {
    if IsAdmin(user) {
      ForbidWithMessage(RemoveRefusal);
      return ForbidAnswer([RemoveRefusal]);
    }
    var memberId := TryGetMemberId(user);
    if memberId.None? {
      return Unauthorized;
    }
    var k := PairIndex(db.bookmarks, memberId.value, bookId);
    if k.None? {
      return NotFound;
    }
    db.bookmarks := RemoveAt(db.bookmarks, k.value);
    status := Ok;
  }
}
