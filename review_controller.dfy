/** Reviews: one per member per book, each rating one to five stars, and a
    book's average rating recomputed from its reviews after every change. */
module ReviewController {
  import opened Wrappers
  import opened Text
  import opened Ordering
  import opened Entities
  import opened Data

  // ----- the average rating -----

  /** The ratings of the reviews of one book, in table order. */
  function RatingsOf(reviews: seq<Review>, bookId: int): (r: seq<int>)
    ensures |r| <= |reviews|
  {
    if reviews == [] then []
    else
      var last := reviews[|reviews| - 1];
      RatingsOf(reviews[..|reviews| - 1], bookId) + (if last.bookId == bookId then [last.rating] else [])
  }

  function Sum(s: seq<int>): int {
    if s == [] then 0 else Sum(s[..|s| - 1]) + s[|s| - 1]
  }

  /** `Average(r => r.Rating)` over a non-empty list. */
  function Mean(s: seq<int>): real
    requires s != []
  {
    Sum(s) as real / |s| as real
  }

  /** `Math.Round(y)` with its default midpoint rule: to the nearest integer,
      ties to the even one. */
  function RoundHalfEven(y: real): (n: int)
    ensures -0.5 <= n as real - y <= 0.5
    ensures (n as real - y == 0.5 || y - n as real == 0.5) ==> n % 2 == 0
  {
    var f := y.Floor;
    var frac := y - f as real;
    if frac < 0.5 then f
    else if frac > 0.5 then f + 1
    else if f % 2 == 0 then f
    else f + 1
  }

  /** Rounding never crosses an integer: a value between two integers rounds
      to one between them. */
  lemma RoundHalfEvenBetween(y: real, lo: int, hi: int)
    requires lo as real <= y <= hi as real
    ensures lo <= RoundHalfEven(y) <= hi
  {
    var f := y.Floor;
    assert lo <= f;
    if f == hi {
      assert y == hi as real;
    }
  }

  /** `Math.Round(x, 2)`: to two decimal places, ties to even. */
  function Round2(x: real): (r: real)
    ensures -0.005 <= r - x <= 0.005
  {
    RoundHalfEven(x * 100.0) as real / 100.0
  }

  lemma Round2Between(x: real, lo: int, hi: int)
    requires lo as real <= x <= hi as real
    ensures lo as real <= Round2(x) <= hi as real
  {
    RoundHalfEvenBetween(x * 100.0, lo * 100, hi * 100);
  }

  /** What `UpdateBookAverageRating` stores: the rounded mean of the book's
      ratings, or zero when it has none. */
  function AverageRating(reviews: seq<Review>, bookId: int): real {
    var ratings := RatingsOf(reviews, bookId);
    if ratings == [] then 0.0 else Round2(Mean(ratings))
  }

  predicate ValidRating(rating: int) {
    1 <= rating <= 5
  }

  predicate RatingsValid(reviews: seq<Review>) {
    forall k :: 0 <= k < |reviews| ==> ValidRating(reviews[k].rating)
  }

  lemma {:induction false} RatingsOfValid(reviews: seq<Review>, bookId: int)
    requires RatingsValid(reviews)
    ensures forall k :: 0 <= k < |RatingsOf(reviews, bookId)| ==> ValidRating(RatingsOf(reviews, bookId)[k])
  {
    if reviews != [] {
      RatingsOfValid(reviews[..|reviews| - 1], bookId);
    }
  }

  /** Ratings of one to five stars sum to between one and five times their
      number. */
  lemma {:induction false} SumBounds(s: seq<int>)
    requires forall k :: 0 <= k < |s| ==> ValidRating(s[k])
    ensures |s| <= Sum(s) <= 5 * |s|
  {
    if s != [] {
      SumBounds(s[..|s| - 1]);
    }
  }

  /** The unrounded mean of valid ratings lies between one and five. */
  lemma MeanBounds(s: seq<int>)
    requires s != [] && forall k :: 0 <= k < |s| ==> ValidRating(s[k])
    ensures 1.0 <= Mean(s) <= 5.0
  {
    SumBounds(s);
    QuotientBounds(Sum(s) as real, |s| as real, 1.0, 5.0);
  }

  lemma QuotientBounds(a: real, n: real, lo: real, hi: real)
    requires n > 0.0 && lo * n <= a <= hi * n
    ensures lo <= a / n <= hi
  {
    var q := a / n;
    assert q * n == a;
    assert (q - lo) * n >= 0.0;
    assert (hi - q) * n >= 0.0;
  }

  /** A book's average is zero without reviews and between one and five
      with them. */
  lemma AverageRatingBounds(reviews: seq<Review>, bookId: int)
    requires RatingsValid(reviews)
    ensures RatingsOf(reviews, bookId) == [] ==> AverageRating(reviews, bookId) == 0.0
    ensures RatingsOf(reviews, bookId) != [] ==> 1.0 <= AverageRating(reviews, bookId) <= 5.0
  {
    var ratings := RatingsOf(reviews, bookId);
    if ratings != [] {
      RatingsOfValid(reviews, bookId);
      MeanBounds(ratings);
      Round2Between(Mean(ratings), 1, 5);
    }
  }

  /** The books table with one book's average recomputed; `FindAsync` finding
      nothing leaves it as it is. */
  function WithAverage(books: seq<Book>, reviews: seq<Review>, bookId: int): (r: seq<Book>)
    ensures BookIndex(books, bookId).None? ==> r == books
    ensures BookIndex(books, bookId).Some? ==>
      var b := BookIndex(books, bookId).value;
      && |r| == |books|
      && r[b] == books[b].(averageRating := AverageRating(reviews, bookId))
      && forall j :: 0 <= j < |books| && j != b ==> r[j] == books[j]
  {
    match BookIndex(books, bookId)
    case None => books
    case Some(b) => books[b := books[b].(averageRating := AverageRating(reviews, bookId))]
  }

  /** Every book's stored average is the one its reviews give. */
  predicate AveragesCurrent(books: seq<Book>, reviews: seq<Review>) {
    forall j :: 0 <= j < |books| ==> books[j].averageRating == AverageRating(reviews, books[j].id)
  }

  /** Recomputing the average of the one book whose ratings changed brings
      every average up to date again. */
  lemma RecomputeKeepsCurrent(books: seq<Book>, before: seq<Review>, after: seq<Review>, bookId: int)
    requires UniqueBookIds(books) && AveragesCurrent(books, before)
    requires forall b :: b != bookId ==> RatingsOf(after, b) == RatingsOf(before, b)
    ensures AveragesCurrent(WithAverage(books, after, bookId), after)
  {
    var r := WithAverage(books, after, bookId);
    forall j | 0 <= j < |r| ensures r[j].averageRating == AverageRating(after, r[j].id) {
      if BookIndex(books, bookId).Some? && j == BookIndex(books, bookId).value {
      } else {
        assert r[j] == books[j];
        assert RatingsOf(after, books[j].id) == RatingsOf(before, books[j].id);
      }
    }
  }

  /** A new review changes the ratings of its own book only. */
  lemma AppendOthers(reviews: seq<Review>, x: Review, b: int)
    requires b != x.bookId
    ensures RatingsOf(reviews + [x], b) == RatingsOf(reviews, b)
  {
    assert (reviews + [x])[..|reviews|] == reviews;
  }

  /** Editing a review changes the ratings of its own book only. */
  lemma {:induction false} UpdateOthers(reviews: seq<Review>, k: nat, x: Review, b: int)
    requires k < |reviews| && reviews[k].bookId != b && x.bookId != b
    ensures RatingsOf(reviews[k := x], b) == RatingsOf(reviews, b)
    decreases |reviews|
  {
    var n := |reviews|;
    var r := reviews[k := x];
    if k == n - 1 {
      assert r[..n - 1] == reviews[..n - 1];
    } else {
      assert r[..n - 1] == reviews[..n - 1][k := x];
      UpdateOthers(reviews[..n - 1], k, x, b);
    }
  }

  /** Deleting a review changes the ratings of its own book only. */
  lemma {:induction false} RemoveOthers(reviews: seq<Review>, k: nat, b: int)
    requires k < |reviews| && reviews[k].bookId != b
    ensures RatingsOf(RemoveAt(reviews, k), b) == RatingsOf(reviews, b)
    decreases |reviews|
  {
    var n := |reviews|;
    var r := RemoveAt(reviews, k);
    if k == n - 1 {
      assert r == reviews[..n - 1];
    } else {
      var init := reviews[..n - 1];
      assert r[..|r| - 1] == RemoveAt(init, k);
      assert r[|r| - 1] == reviews[n - 1];
      RemoveOthers(init, k, b);
    }
  }

  // ----- the store invariant -----

  /** What the review actions keep: one review per member and book, valid
      ratings, and current averages over books with distinct keys. */
  predicate ReviewsWellFormed(books: seq<Book>, reviews: seq<Review>) {
    && UniqueBookIds(books)
    && UniqueReviewPairs(reviews)
    && RatingsValid(reviews)
    && AveragesCurrent(books, reviews)
  }

  /** `AnyAsync(r => r.MemberId == memberId && r.BookId == bookId)`. */
  predicate HasReview(reviews: seq<Review>, memberId: int, bookId: int) {
    exists k :: 0 <= k < |reviews| && reviews[k].memberId == memberId && reviews[k].bookId == bookId
  }

  /** `FirstOrDefault(r => r.Id == id && r.MemberId == memberId)`. */
  function OwnReviewIndex(reviews: seq<Review>, id: int, memberId: int): (r: Option<nat>)
    ensures r.Some? ==> r.value < |reviews| && reviews[r.value].id == id && reviews[r.value].memberId == memberId
    ensures r.None? <==> forall k :: 0 <= k < |reviews| ==> reviews[k].id != id || reviews[k].memberId != memberId
  {
    FirstIndex(reviews, (x: Review) => x.id == id && x.memberId == memberId)
  }

  lemma {:induction false} AppendKeepsWellFormed(books: seq<Book>, reviews: seq<Review>, x: Review)
    requires ReviewsWellFormed(books, reviews) && !HasReview(reviews, x.memberId, x.bookId) && ValidRating(x.rating)
    ensures ReviewsWellFormed(WithAverage(books, reviews + [x], x.bookId), reviews + [x])
  {
    var after := reviews + [x];
    forall b | b != x.bookId ensures RatingsOf(after, b) == RatingsOf(reviews, b) {
      AppendOthers(reviews, x, b);
    }
    RecomputeKeepsCurrent(books, reviews, after, x.bookId);
    forall i, j | 0 <= i < j < |after| ensures DifferentReviewKeys(after[i], after[j]) {
      if j == |reviews| {
        assert after[i] == reviews[i];
      }
    }
    var r := WithAverage(books, after, x.bookId);
    assert forall j :: 0 <= j < |r| ==> r[j].id == books[j].id;
  }

  lemma {:induction false} UpdateKeepsWellFormed(books: seq<Book>, reviews: seq<Review>, k: nat, x: Review)
    requires ReviewsWellFormed(books, reviews) && k < |reviews| && ValidRating(x.rating)
    requires x.memberId == reviews[k].memberId && x.bookId == reviews[k].bookId
    ensures ReviewsWellFormed(WithAverage(books, reviews[k := x], x.bookId), reviews[k := x])
  {
    var after := reviews[k := x];
    forall b | b != x.bookId ensures RatingsOf(after, b) == RatingsOf(reviews, b) {
      UpdateOthers(reviews, k, x, b);
    }
    RecomputeKeepsCurrent(books, reviews, after, x.bookId);
    assert forall i :: 0 <= i < |after| ==> after[i].memberId == reviews[i].memberId && after[i].bookId == reviews[i].bookId;
    var r := WithAverage(books, after, x.bookId);
    assert forall j :: 0 <= j < |r| ==> r[j].id == books[j].id;
  }

  lemma {:induction false} RemoveKeepsWellFormed(books: seq<Book>, reviews: seq<Review>, k: nat)
    requires ReviewsWellFormed(books, reviews) && k < |reviews|
    ensures ReviewsWellFormed(WithAverage(books, RemoveAt(reviews, k), reviews[k].bookId), RemoveAt(reviews, k))
  {
    var after := RemoveAt(reviews, k);
    forall b | b != reviews[k].bookId ensures RatingsOf(after, b) == RatingsOf(reviews, b) {
      RemoveOthers(reviews, k, b);
    }
    RecomputeKeepsCurrent(books, reviews, after, reviews[k].bookId);
    forall i, j | 0 <= i < j < |after| ensures DifferentReviewKeys(after[i], after[j]) {
      var i' := if i < k then i else i + 1;
      var j' := if j < k then j else j + 1;
      assert after[i] == reviews[i'] && after[j] == reviews[j'];
    }
    var r := WithAverage(books, after, reviews[k].bookId);
    assert forall j :: 0 <= j < |r| ==> r[j].id == books[j].id;
  }

  // ----- the actions -----

  /** The body of a create request, and of an update request (which has no
      `bookId`). The comment is `null` when the request leaves it out. */
  datatype ReviewInput = ReviewInput(bookId: int, rating: int, comment: Option<string>)

  /** The request validation: `[Range(1, 5)]` on the rating and `[Required]`
      (which also refuses empty and all-white-space strings) on the comment. */
  predicate InputValid(rating: int, comment: Option<string>) {
    ValidRating(rating) && !IsNullOrWhiteSpace(comment)
  }

  /** `UpdateBookAverageRating`: stores the recomputed average on the book,
      touching nothing else. */
  method UpdateBookAverageRating(db: AppDbContext, bookId: int)
    modifies db`books
    ensures db.books == WithAverage(old(db.books), db.reviews, bookId)
  {
    var b := BookIndex(db.books, bookId);
    if b.None? {
      return;
    }
    var book := db.books[b.value];
    var ratings := RatingsOf(db.reviews, bookId);
    var average := if |ratings| > 0 then Round2(Mean(ratings)) else 0.0;
    db.books := db.books[b.value := book.(averageRating := average)];
  }

  /** `CreateReview`: refuses an invalid request, an unknown book and a
      second review of the same book by the same member; otherwise stores
      the review and recomputes the book's average. */
  method CreateReview(db: AppDbContext, user: Principal, dto: ReviewInput, now: Ticks)
    returns (status: Status)
    modifies db`reviews, db`books, db`nextId
    ensures !InputValid(dto.rating, dto.comment) ==> status == BadRequest
    ensures InputValid(dto.rating, dto.comment) && MemberId(user).None? ==> status == ServerError
    ensures status != Ok ==>
      db.reviews == old(db.reviews) && db.books == old(db.books) && db.nextId == old(db.nextId)
    ensures InputValid(dto.rating, dto.comment) && MemberId(user).Some? ==>
      var m := MemberId(user).value;
      if BookIndex(old(db.books), dto.bookId).None? then status == NotFound
      else if HasReview(old(db.reviews), m, dto.bookId) then status == Conflict
      else
        && status == Ok
        && db.reviews == old(db.reviews) + [Review(old(db.nextId), m, dto.bookId, dto.rating, dto.comment.value, now, now)]
        && db.books == WithAverage(old(db.books), db.reviews, dto.bookId)
        && db.nextId == old(db.nextId) + 1
    ensures ReviewsWellFormed(old(db.books), old(db.reviews)) ==> ReviewsWellFormed(db.books, db.reviews)
  {
    if !InputValid(dto.rating, dto.comment) {
      return BadRequest;
    }
    var memberId := MemberId(user);
    if memberId.None? {
      return ServerError;
    }
    var m := memberId.value;
    if BookIndex(db.books, dto.bookId).None? {
      return NotFound;
    }
    if HasReview(db.reviews, m, dto.bookId) {
      return Conflict;
    }
    var id := db.NewId();
    var review := Review(id, m, dto.bookId, dto.rating, dto.comment.value, now, now);
    if ReviewsWellFormed(db.books, db.reviews) {
      AppendKeepsWellFormed(db.books, db.reviews, review);
    }
    db.reviews := db.reviews + [review];
    UpdateBookAverageRating(db, dto.bookId);
    status := Ok;
  }

  /** `UpdateReview`: only the caller's own review, and then only its
      rating, comment and update time change. */
  method UpdateReview(db: AppDbContext, user: Principal, id: int, rating: int, comment: Option<string>, now: Ticks)
    returns (status: Status)
    modifies db`reviews, db`books
    ensures !InputValid(rating, comment) ==> status == BadRequest
    ensures InputValid(rating, comment) && MemberId(user).None? ==> status == ServerError
    ensures status != Ok ==> db.reviews == old(db.reviews) && db.books == old(db.books)
    ensures InputValid(rating, comment) && MemberId(user).Some? ==>
      match OwnReviewIndex(old(db.reviews), id, MemberId(user).value)
      case None => status == NotFound
      case Some(k) =>
        var x := old(db.reviews)[k];
        && status == Ok
        && db.reviews == old(db.reviews)[k := x.(rating := rating, comment := comment.value, updatedAt := now)]
        && db.books == WithAverage(old(db.books), db.reviews, x.bookId)
    ensures ReviewsWellFormed(old(db.books), old(db.reviews)) ==> ReviewsWellFormed(db.books, db.reviews)
  {
    if !InputValid(rating, comment) {
      return BadRequest;
    }
    var memberId := MemberId(user);
    if memberId.None? {
      return ServerError;
    }
    var k := OwnReviewIndex(db.reviews, id, memberId.value);
    if k.None? {
      return NotFound;
    }
    var review := db.reviews[k.value];
    review := review.(rating := rating, comment := comment.value, updatedAt := now);
    if ReviewsWellFormed(db.books, db.reviews) {
      UpdateKeepsWellFormed(db.books, db.reviews, k.value, review);
    }
    db.reviews := db.reviews[k.value := review];
    UpdateBookAverageRating(db, review.bookId);
    status := Ok;
  }

  /** `DeleteReview`: only the caller's own review is removed, and its book's
      average is recomputed over the reviews that remain. */
  method DeleteReview(db: AppDbContext, user: Principal, id: int)
    returns (status: Status)
    modifies db`reviews, db`books
    ensures MemberId(user).None? ==> status == ServerError
    ensures status != Ok ==> db.reviews == old(db.reviews) && db.books == old(db.books)
    ensures MemberId(user).Some? ==>
      match OwnReviewIndex(old(db.reviews), id, MemberId(user).value)
      case None => status == NotFound
      case Some(k) =>
        && status == Ok
        && db.reviews == RemoveAt(old(db.reviews), k)
        && db.books == WithAverage(old(db.books), db.reviews, old(db.reviews)[k].bookId)
    ensures ReviewsWellFormed(old(db.books), old(db.reviews)) ==> ReviewsWellFormed(db.books, db.reviews)
  {
    var memberId := MemberId(user);
    if memberId.None? {
      return ServerError;
    }
    var k := OwnReviewIndex(db.reviews, id, memberId.value);
    if k.None? {
      return NotFound;
    }
    var bookId := db.reviews[k.value].bookId;
    if ReviewsWellFormed(db.books, db.reviews) {
      RemoveKeepsWellFormed(db.books, db.reviews, k.value);
    }
    db.reviews := RemoveAt(db.reviews, k.value);
    UpdateBookAverageRating(db, bookId);
    status := Ok;
  }

  // ----- listing -----

  datatype ReviewResponse = ReviewResponse(
    id: int, memberId: int, memberName: string, bookId: int, bookTitle: string,
    rating: int, comment: string, createdAt: Ticks)

  /** `BuildDtoFromEntity`: the review with its author's name and its book's
      title, each "Unknown" when the record is missing. */
  function BuildReviewResponse(x: Review, members: seq<Member>, books: seq<Book>): (r: ReviewResponse)
    ensures r.id == x.id && r.memberId == x.memberId && r.bookId == x.bookId
    ensures r.rating == x.rating && r.comment == x.comment && r.createdAt == x.createdAt
    ensures r.memberName == match MemberIndex(members, x.memberId)
      case None => "Unknown"
      case Some(i) => members[i].name
    ensures r.bookTitle == match BookIndex(books, x.bookId)
      case None => "Unknown"
      case Some(i) => books[i].title
  {
    var memberName := match MemberIndex(members, x.memberId)
      case None => "Unknown"
      case Some(i) => members[i].name;
    var bookTitle := match BookIndex(books, x.bookId)
      case None => "Unknown"
      case Some(i) => books[i].title;
    ReviewResponse(x.id, x.memberId, memberName, x.bookId, bookTitle, x.rating, x.comment, x.createdAt)
  }

  predicate NewerReviewFirst(a: Review, b: Review) {
    a.createdAt >= b.createdAt
  }

  lemma NewerReviewFirstIsPreorder()
    ensures TotalPreorder(NewerReviewFirst)
  {
  }

  /** `Where(r => r.MemberId == memberId).OrderByDescending(r => r.CreatedAt)`. */
  function MyReviews(reviews: seq<Review>, memberId: int): (r: seq<Review>)
    ensures forall x :: x in r <==> x in reviews && x.memberId == memberId
    ensures forall x :: multiset(r)[x] == if x.memberId == memberId then multiset(reviews)[x] else 0
    ensures Sorted(r, NewerReviewFirst)
  {
    NewerReviewFirstIsPreorder();
    var p := (x: Review) => x.memberId == memberId;
    FilterCount(reviews, p);
    var mine := Filter(reviews, p);
    SortSorted(mine, NewerReviewFirst);
    var r := Sort(mine, NewerReviewFirst);
    assert forall x :: x in r <==> x in multiset(r);
    assert forall x :: x in mine <==> x in multiset(mine);
    r
  }

  function ReviewResponses(reviews: seq<Review>, members: seq<Member>, books: seq<Book>): (r: seq<ReviewResponse>)
    ensures |r| == |reviews|
    ensures forall k :: 0 <= k < |reviews| ==> r[k] == BuildReviewResponse(reviews[k], members, books)
  {
    if reviews == [] then []
    else ReviewResponses(reviews[..|reviews| - 1], members, books) + [BuildReviewResponse(reviews[|reviews| - 1], members, books)]
  }

  /** `GetMyReviews`: a server error without a parseable id; otherwise the
      caller's reviews, newest first. */
  function GetMyReviews(db: AppDbContext, user: Principal): (r: Option<seq<ReviewResponse>>)
    reads db
    ensures MemberId(user).None? ==> r.None?
    ensures MemberId(user).Some? ==> r == Some(ReviewResponses(MyReviews(db.reviews, MemberId(user).value), db.members, db.books))
  {
    var id := MemberId(user);
    if id.None? then None else Some(ReviewResponses(MyReviews(db.reviews, id.value), db.members, db.books))
  }
}
