# Pustakalaya bookstore — a Dafny model

Pustakalaya is an online bookstore. Its back end is an ASP.NET Core Web API
over an Entity Framework database. Its shop front is a Vue single-page app.
This project models the core of both in Dafny 4.11:

- the database context (`Data`): one table per entity set, the unique
  indexes, and what each delete takes with it;
- the start-up admin seeding (`AdminSeeder`);
- the controllers: accounts (`AccountController`), books and genres with the
  filter query (`BookController`), the home-page shelves (`HomeController`),
  the validated cart (`CartController`) and the earlier unvalidated one
  (`LegacyCartController`), orders (`OrderController`), reviews
  (`ReviewController`), bookmarks (`BookmarkController`) and announcements
  (`AnnouncementController`);
- the shop front's cart store (`UseCart`) and navigation guard (`Router`).

Shared modules:

- `Wrappers` holds the `Option` type.
- `Text` holds strings: `ToLower`, `long.TryParse`, `ToString("D6")`,
  substring search and ordinal order.
- `Ordering` holds `Where`, `OrderBy` (an insertion sort that keeps ties in
  table order) and `Take`, with their lemmas.
- `Entities` holds the records, the HTTP outcome `Status`, and the outcome
  of the framework's `Forbid`.

How the model is built:

- The database is a class, `Data.AppDbContext`, with one `seq` field per
  table, kept in insertion order. Every identity column draws from one
  counter, `nextId`.
- Controller actions that write are methods. Each takes the context, uses a
  `modifies` frame of the tables it writes, and has an `ensures` giving the
  whole new state.
- Queries are functions.
- Loops in the source stay loops with invariants:
  - the stock check and the line loop of checkout;
  - the discount block;
  - the image edit of a book update.
- The cart store of the shop front is a class whose fields are its reactive
  state.

These are parameters of the model:

- the clock (`now`, in ticks);
- the random claim-code bytes;
- uploaded file names;
- the password hash and its verification;
- the membership number;
- the replies of the server to the shop front.

## Model

| member | source | states |
|---|---|---|
| Data.AppDbContext.constructor | WebApplication2/Pustakalaya/Data/AppDBContext.cs:1-126 | every table starts empty and the key counter at 1 |
| Data.AppDbContext.NewId | WebApplication2/Pustakalaya/Data/AppDBContext.cs:1-126 | an insert gets the next key and the counter moves on by one |
| Data.AppDbContext.DeleteBookAt | WebApplication2/Pustakalaya/Data/AppDBContext.cs:61-105 | deleting a book removes its reviews, cart lines, order lines and bookmarks, and nothing else |
| Data.AppDbContext.DeleteGenreAt | WebApplication2/Pustakalaya/Data/AppDBContext.cs:40-44 | deleting a genre removes its books and everything that cascades from those books |
| Data.AppDbContext.DeleteAdminAt | WebApplication2/Pustakalaya/Data/AppDBContext.cs:33-37 | deleting an admin removes the admin's books and their cascades |
| Data.AppDbContext.DeleteMemberAt | WebApplication2/Pustakalaya/Data/AppDBContext.cs:47-58 | deleting a member removes their orders, reviews and bookmarks, makes their announcements public, and keeps their cart |
| Data.AdminEmailIndex | WebApplication2/Pustakalaya/Data/AdminSeeder.cs:14-15 | finds an admin with the email, or none exists |
| Data.MemberIndex | WebApplication2/Pustakalaya/Controllers/ReviewController.cs:145-158 | finds the member with the key, or none exists |
| Data.CartIndex | WebApplication2/Pustakalaya/Controllers/OrderController.cs:45-49 | finds the first cart of the member, or the member has none |
| Data.ReviewsWithoutBooks | WebApplication2/Pustakalaya/Data/AppDBContext.cs:61-65 | exactly the reviews of books that are not deleted survive, each at most as often as before |
| Data.BookmarksWithoutBooks | WebApplication2/Pustakalaya/Models/Bookmark.cs:13-15 | exactly the bookmarks of books that are not deleted survive |
| Data.CartItemsWithoutBooks | WebApplication2/Pustakalaya/Data/AppDBContext.cs:87-91 | exactly the cart lines of books that are not deleted survive |
| Data.OrderItemsWithoutBooks | WebApplication2/Pustakalaya/Data/AppDBContext.cs:101-105 | exactly the order lines of books that are not deleted survive |
| Data.CartsWithoutBooks | WebApplication2/Pustakalaya/Data/AppDBContext.cs:80-91 | every cart stays with its key, owner and times; only the lines of deleted books go |
| Data.OrdersWithoutBooks | WebApplication2/Pustakalaya/Data/AppDBContext.cs:94-105 | every order stays unchanged except that the lines of deleted books go |
| Data.BookIdsOfGenre | WebApplication2/Pustakalaya/Data/AppDBContext.cs:40-44 | the keys of exactly the books of the genre |
| Data.BookIdsOfAdmin | WebApplication2/Pustakalaya/Data/AppDBContext.cs:33-37 | the keys of exactly the books the admin added |
| Data.BooksWithoutGenre | WebApplication2/Pustakalaya/Data/AppDBContext.cs:40-44 | exactly the books of other genres survive |
| Data.BooksWithoutAdmin | WebApplication2/Pustakalaya/Data/AppDBContext.cs:33-37 | exactly the books of other admins survive |
| Data.OrdersWithoutMember | WebApplication2/Pustakalaya/Data/AppDBContext.cs:47-51 | exactly the orders of other members survive |
| Data.ReviewsWithoutMember | WebApplication2/Pustakalaya/Data/AppDBContext.cs:54-58 | exactly the reviews of other members survive |
| Data.BookmarksWithoutMember | WebApplication2/Pustakalaya/Data/AppDBContext.cs:108-112 | exactly the bookmarks of other members survive |
| Data.AnnouncementsDetached | WebApplication2/Pustakalaya/Data/AppDBContext.cs:115-119 | every announcement stays; those addressed to the member lose the member id, and nothing else changes |
| Data.ReviewDeletesKeepPairsUnique | WebApplication2/Pustakalaya/Data/AppDBContext.cs:68-70 | no cascade breaks the one-review-per-member-and-book index |
| Data.RemoveKeepsEmailsUnique | WebApplication2/Pustakalaya/Data/AppDBContext.cs:28-30 | deleting a member keeps member emails unique |
| AdminSeeder.SeedAdmins | WebApplication2/Pustakalaya/Data/AdminSeeder.cs:10-49 | adds each built-in admin whose email is free, in order, with fresh keys, and at most two admins |
| AdminSeeder.SeededProperties | WebApplication2/Pustakalaya/Data/AdminSeeder.cs:14-45 | afterwards both built-in emails exist, the earlier admins are kept first and unchanged, and at most two are added |
| AdminSeeder.SeedEmpty | WebApplication2/Pustakalaya/Data/AdminSeeder.cs:17-43 | on an empty table exactly the default admin and the super admin are added |
| AdminSeeder.SeedIdempotent | WebApplication2/Pustakalaya/Data/AdminSeeder.cs:14-15 | a second seeding run adds nothing |
| AdminSeeder.SeedKeepsUnique | WebApplication2/Pustakalaya/Data/AdminSeeder.cs:14-32 | seeding keeps admin emails unique |
| Text.LowerEqualsIff | WebApplication2/Pustakalaya/Controllers/BookmarkController.cs:22-23 | `ToLower(s) == t` for lower-case `t` holds exactly when s matches t letter by letter, with either case allowed |
| Text.ParseLong | WebApplication2/Pustakalaya/Controllers/BookmarkController.cs:25-30 | a parsed value lies in the 64-bit range |
| Text.ParseLongRoundTrip | WebApplication2/Pustakalaya/Controllers/BookmarkController.cs:25-30 | parsing the rendering of any 64-bit value gives that value back |
| Text.FormatDExact | WebApplication2/Pustakalaya/Controllers/OrderController.cs:29-36 | `ToString("D" + w)` of a value below 10^w is w digits that spell the value |
| Text.LexLessEqTotal | WebApplication2/Pustakalaya/Controllers/BookController.cs:361-371 | ordinal title order is total |
| Text.LexLessEqTransitive | WebApplication2/Pustakalaya/Controllers/BookController.cs:361-371 | ordinal title order is transitive |
| Text.LexLessEqAntisymmetric | WebApplication2/Pustakalaya/Controllers/BookController.cs:361-371 | two titles each at most the other are equal |
| Ordering.FilterCount | WebApplication2/Pustakalaya/Controllers/BookController.cs:339-359 | `Where` keeps each passing element exactly as often as it occurs, and no failing one |
| Ordering.FilterSnoc | WebApplication2/Pustakalaya/Controllers/BookController.cs:339-359 | `Where` works front to back: appending an element extends the result by it exactly when it passes, so the kept elements stay in their original order |
| Ordering.FilterSorted | WebApplication2/Pustakalaya/Controllers/HomeController.cs:68-80 | an order that held between the elements before `Where` still holds between those it keeps |
| Ordering.SortSorted | WebApplication2/Pustakalaya/Controllers/OrderController.cs:147-179 | `OrderBy` gives a permutation of its input, sorted by the key |
| Ordering.TopProperties | WebApplication2/Pustakalaya/Controllers/HomeController.cs:68-80 | `OrderBy(...).Take(n)` holds min(n, size) elements of the input in order, and nothing left out ranks ahead of anything kept |
| Entities.Wrap32 | WebApplication2/Pustakalaya/Controllers/CartController.cs:82-84 | 32-bit `int` addition wraps into range, is the identity in range, and is congruent modulo 2^32 |
| Entities.ForbidAnswer | WebApplication2/Pustakalaya/Program.cs:33-50 | `Forbid(schemes)` answers 403 exactly when every named scheme is registered (only the bearer scheme is), and a server error otherwise |
| Entities.ForbidWithMessage | WebApplication2/Pustakalaya/Controllers/BookController.cs:109 | `Forbid(message)` with a message that is no scheme name is a server error |
| Entities.ForbidDefault | WebApplication2/Pustakalaya/Program.cs:33-37 | `Forbid()` with no argument answers 403 |
| Entities.MemberId | WebApplication2/Pustakalaya/Controllers/CartController.cs:23 | `long.Parse` of the name identifier yields a 64-bit value or fails |
| AccountController.LowerOpt | dotnetwebapi/Pustakalaya/Controllers/AccountController.cs:36-37 | `role?.ToLower()` is null exactly for a null role |
| AccountController.MemberEmailIndex | dotnetwebapi/Pustakalaya/Controllers/AccountController.cs:39-40 | finds a member with the email, or none exists |
| AccountController.UsernameIndex | dotnetwebapi/Pustakalaya/Controllers/AccountController.cs:42-43 | finds a member with the username, or none exists |
| AccountController.AdminIndex | dotnetwebapi/Pustakalaya/Controllers/AccountController.cs:239 | finds the admin with the key, or none exists |
| AccountController.SignupError | dotnetwebapi/Pustakalaya/Controllers/AccountController.cs:36-43 | a sign-up passes exactly when the role is "member" in any case and both the email and the username are free |
| AccountController.NewMember | dotnetwebapi/Pustakalaya/Controllers/AccountController.cs:45-61 | the new member is active, registered now, never logged in, and holds the hashed password |
| AccountController.SignupKeepsUnique | dotnetwebapi/Pustakalaya/Controllers/AccountController.cs:39-61 | an accepted sign-up keeps emails and usernames unique |
| AccountController.Signup | dotnetwebapi/Pustakalaya/Controllers/AccountController.cs:33-87 | a refused sign-up stores nothing; otherwise exactly one member is appended; uniqueness is kept |
| AccountController.NewAdmin | dotnetwebapi/Pustakalaya/Controllers/AccountController.cs:95-104 | the new admin has the role "admin", the hashed password, and no login yet |
| AccountController.RegisterKeepsUnique | dotnetwebapi/Pustakalaya/Controllers/AccountController.cs:92-104 | registering a free email keeps admin emails unique |
| AccountController.RegisterAdmin | dotnetwebapi/Pustakalaya/Controllers/AccountController.cs:89-123 | a taken email stores nothing; otherwise exactly one admin is appended; uniqueness is kept |
| AccountController.LoginDecision | dotnetwebapi/Pustakalaya/Controllers/AccountController.cs:127-174 | signs in only a record of the lower-cased role's table with that email and a verified password; an unknown role is exactly the BadRequest case |
| AccountController.LoginFindsTheAccount | dotnetwebapi/Pustakalaya/Controllers/AccountController.cs:132-150 | with unique emails a member login picks the one matching member, and an unknown email is Unauthorized |
| AccountController.Login | dotnetwebapi/Pustakalaya/Controllers/AccountController.cs:127-174 | a refusal changes nothing; a member login stamps the last login and the update time; an admin login stamps only the update time |
| AccountController.LoginKeepsUnique | dotnetwebapi/Pustakalaya/Controllers/AccountController.cs:138 | stamping a login keeps the unique indexes |
| AccountController.ForgotPassword | dotnetwebapi/Pustakalaya/Controllers/AccountController.cs:178-189 | NotFound exactly for an unknown email, Ok otherwise |
| AccountController.IdClaim | dotnetwebapi/Pustakalaya/Controllers/AccountController.cs:198-199 | the name identifier claim, falling back to the subject |
| AccountController.GetProfile | dotnetwebapi/Pustakalaya/Controllers/AccountController.cs:194-257 | Unauthorized for an unparseable id; the exact role picks the table; a profile found has that id; NotFound exactly when the key is missing |
| AnnouncementController.ChannelRoundTrip | WebApplication2/Pustakalaya/Controllers/AnnouncementController.cs:54-56 | the audience is read back from its push channel name |
| AnnouncementController.ChannelInjective | WebApplication2/Pustakalaya/Controllers/AnnouncementController.cs:54-56 | different audiences never share a channel |
| AnnouncementController.CreateAnnouncement | WebApplication2/Pustakalaya/Controllers/AnnouncementController.cs:30-75 | a blank title or message or a missing date is BadRequest and stores nothing; an addressee who is no member breaks the foreign key, a server error storing nothing; otherwise it stores the announcement and names its channel |
| AnnouncementController.NewerAnnouncementFirstIsPreorder | WebApplication2/Pustakalaya/Controllers/AnnouncementController.cs:91 | newest-first is a total preorder |
| AnnouncementController.VisibleTo | WebApplication2/Pustakalaya/Controllers/AnnouncementController.cs:85-90 | exactly the active announcements for everyone or for the member whose window holds now |
| AnnouncementController.LatestForProperties | WebApplication2/Pustakalaya/Controllers/AnnouncementController.cs:85-92 | exactly min(5, visible) announcements, all visible, newest first, and no visible one left out is newer than one shown |
| AnnouncementController.LatestForComplete | WebApplication2/Pustakalaya/Controllers/AnnouncementController.cs:92 | with five or fewer visible, all are shown |
| AnnouncementController.GetForCurrentUser | WebApplication2/Pustakalaya/Controllers/AnnouncementController.cs:79-101 | a server error without a parseable id; otherwise the member's latest visible announcements |
| AnnouncementController.PublicAnnouncements | WebApplication2/Pustakalaya/Controllers/AnnouncementController.cs:183-197 | exactly the announcements with no member, each as often as in the table, newest first |
| AnnouncementController.AnnouncementIndex | WebApplication2/Pustakalaya/Controllers/AnnouncementController.cs:141-143 | finds the announcement with the key, or none exists |
| AnnouncementController.UpdateAnnouncement | WebApplication2/Pustakalaya/Controllers/AnnouncementController.cs:138-160 | NotFound changes nothing; otherwise the five fields are replaced while the key, audience and creation time stay |
| AnnouncementController.DeleteAnnouncement | WebApplication2/Pustakalaya/Controllers/AnnouncementController.cs:164-179 | NotFound changes nothing; otherwise exactly that record goes |
| BookController.UploadedImages | WebApplication2/Pustakalaya/Controllers/BookController.cs:144-157 | one image per uploaded file, under the image folder, in upload order |
| BookController.KeptImages | WebApplication2/Pustakalaya/Controllers/BookController.cs:201-214 | exactly the images not marked for deletion; no list deletes nothing |
| BookController.KeptImagesCount | WebApplication2/Pustakalaya/Controllers/BookController.cs:201-214 | each image not marked for deletion stays exactly as often as it was on the book, and no marked one stays |
| BookController.EditImages | WebApplication2/Pustakalaya/Controllers/BookController.cs:201-229 | the edited list is the kept images followed by the uploads |
| BookController.RemoveMarked | WebApplication2/Pustakalaya/Controllers/BookController.cs:201-214 | the deletion loop leaves exactly the kept images |
| BookController.AppendUploads | WebApplication2/Pustakalaya/Controllers/BookController.cs:216-229 | the upload loop appends one image per file, in order |
| BookController.EditedImagesContent | WebApplication2/Pustakalaya/Controllers/BookController.cs:201-229 | an image is present afterwards exactly when it was kept or uploaded; the uploads come last |
| BookController.NewBook | WebApplication2/Pustakalaya/Controllers/BookController.cs:117-157 | the new book belongs to the admin, has its uploaded images, and has no rating and no sales |
| BookController.EditedBook | WebApplication2/Pustakalaya/Controllers/BookController.cs:181-199 | an update keeps the key, owner, rating, sales and creation time |
| BookController.PostBook | WebApplication2/Pustakalaya/Controllers/BookController.cs:105-163 | a non-admin gets a server error (see Findings), and it, Unauthorized and BadRequest store nothing; otherwise exactly the new book is appended |
| BookController.PutBook | WebApplication2/Pustakalaya/Controllers/BookController.cs:166-233 | a non-admin gets a server error (see Findings); it, NotFound and BadRequest change nothing; otherwise only that book changes, to its edited form |
| BookController.DeleteBook | WebApplication2/Pustakalaya/Controllers/BookController.cs:236-250 | a non-admin gets a server error (see Findings) and an unknown book NotFound, both changing nothing; otherwise the book goes with exactly its cascades |
| BookController.CreateGenre | WebApplication2/Pustakalaya/Controllers/BookController.cs:280-293 | a non-admin gets a server error (see Findings) and a blank name BadRequest, both storing nothing; the body's genre is inserted as bound: a key of 0 gets the next generated key, any other key is stored as given, and a key already taken is a server error storing nothing |
| BookController.UpdateGenre | WebApplication2/Pustakalaya/Controllers/BookController.cs:295-312 | a non-admin gets a server error (see Findings), a mismatched id BadRequest and an unknown one NotFound, all changing nothing; otherwise only the name changes |
| BookController.DeleteGenre | WebApplication2/Pustakalaya/Controllers/BookController.cs:314-328 | a non-admin gets a server error (see Findings) and an unknown genre NotFound, both changing nothing; otherwise the genre goes with its books, and the reviews, cart lines, order lines and bookmarks of those books |
| BookController.BySearch | WebApplication2/Pustakalaya/Controllers/BookController.cs:339-344 | a non-blank search keeps exactly the books whose title or author contains it |
| BookController.ByGenre | WebApplication2/Pustakalaya/Controllers/BookController.cs:346-349 | a given genre keeps exactly its books |
| BookController.ByMinPrice | WebApplication2/Pustakalaya/Controllers/BookController.cs:351-354 | a given minimum keeps exactly the books at or above it |
| BookController.ByMaxPrice | WebApplication2/Pustakalaya/Controllers/BookController.cs:356-359 | a given maximum keeps exactly the books at or below it |
| BookController.Filtered | WebApplication2/Pustakalaya/Controllers/BookController.cs:339-359 | exactly the books meeting every active condition, each as often as in the table |
| BookController.PriceOrdersArePreorders | WebApplication2/Pustakalaya/Controllers/BookController.cs:361-371 | both price orders are total preorders |
| BookController.TitleOrdersArePreorders | WebApplication2/Pustakalaya/Controllers/BookController.cs:361-371 | both title orders are total preorders |
| BookController.SortBooks | WebApplication2/Pustakalaya/Controllers/BookController.cs:361-371 | sorting is a permutation |
| BookController.FilterBooksProperties | WebApplication2/Pustakalaya/Controllers/BookController.cs:330-403 | exactly the matching books, each as often as in the table, sorted by the requested key, and in table order under any other key |
| BookController.UnusedFiltersIgnored | WebApplication2/Pustakalaya/Dtos/BookFilterDto.cs:5-29 | the filter fields the query never reads do not change the result |
| BookmarkController.IsAdminIff | WebApplication2/Pustakalaya/Controllers/BookmarkController.cs:22-23 | the admin test accepts exactly the spellings of "admin" in any mix of cases |
| BookmarkController.TryGetMemberId | WebApplication2/Pustakalaya/Controllers/BookmarkController.cs:25-30 | the same parse as the other controllers' member id, in the 64-bit range |
| BookmarkController.PairIndex | WebApplication2/Pustakalaya/Controllers/BookmarkController.cs:108-109 | finds a bookmark of the pair, or none exists |
| BookmarkController.View | WebApplication2/Pustakalaya/Controllers/BookmarkController.cs:40-52 | a row shows the book's key, title, author, price and image URLs |
| BookmarkController.MemberBookmarks | WebApplication2/Pustakalaya/Controllers/BookmarkController.cs:40-41 | exactly the caller's bookmarks, each as often as in the table |
| BookmarkController.ViewsSnoc | WebApplication2/Pustakalaya/Controllers/BookmarkController.cs:40-52 | the join goes through the bookmarks in order: a further bookmark adds its row exactly when its book is on record |
| BookmarkController.ViewsExact | WebApplication2/Pustakalaya/Controllers/BookmarkController.cs:40-52 | each row comes from a listed bookmark whose book exists, and each such bookmark has its row |
| BookmarkController.GetBookmarks | WebApplication2/Pustakalaya/Controllers/BookmarkController.cs:34-60 | Unauthorized without an id; otherwise the caller's bookmarks joined with their books |
| BookmarkController.OnlyOwnBookmarks | WebApplication2/Pustakalaya/Controllers/BookmarkController.cs:40-52 | every row shown comes from one of the caller's own bookmarks |
| BookmarkController.AddKeepsUnique | WebApplication2/Pustakalaya/Controllers/BookmarkController.cs:78-92 | adding a pair not yet present keeps pairs unique |
| BookmarkController.AddBookmark | WebApplication2/Pustakalaya/Controllers/BookmarkController.cs:64-95 | an admin gets a server error (see Findings); it, Unauthorized, NotFound and BadRequest store nothing; otherwise exactly the pair is appended; pairs stay unique |
| BookmarkController.RemoveExactlyThePair | WebApplication2/Pustakalaya/Controllers/BookmarkController.cs:108-115 | with unique pairs, removal takes exactly that pair and keeps every other bookmark |
| BookmarkController.RemoveBookmark | WebApplication2/Pustakalaya/Controllers/BookmarkController.cs:99-118 | an admin gets a server error (see Findings), and it and Unauthorized change nothing; an absent pair is NotFound; otherwise exactly that bookmark goes |
| CartController.LineIndex | WebApplication2/Pustakalaya/Controllers/CartController.cs:79-80 | finds the first line for the book, or none exists |
| CartController.LineCartIndex | WebApplication2/Pustakalaya/Controllers/CartController.cs:120-123 | finds a cart of the member with a line for the book, or none exists |
| CartController.LineCartIsMemberCart | WebApplication2/Pustakalaya/Controllers/CartController.cs:120-123 | with one cart per member, that line lookup lands in the member's cart |
| CartController.MergedQuantityAsWritten | WebApplication2/Pustakalaya/Controllers/CartController.cs:82-84 | the merge as written: a 32-bit wrapped sum, accepted when it does not exceed the stock |
| CartController.MergeOverflowAccepted | WebApplication2/Pustakalaya/Controllers/CartController.cs:82-84 | that merge accepts int.MaxValue + 1 against int.MaxValue copies of stock and stores int.MinValue |
| CartController.MergedQuantity | WebApplication2/Pustakalaya/Controllers/CartController.cs:80-93 | the intended merge is accepted exactly when the true sum does not exceed the stock |
| CartController.MergeAgreesWithoutOverflow | WebApplication2/Pustakalaya/Controllers/CartController.cs:82-84 | the two merges agree whenever the sum fits in 32 bits |
| CartController.MergedQuantityBounds | WebApplication2/Pustakalaya/Controllers/CartController.cs:80-93 | a merged line asks for between one copy and the stock |
| CartController.AddError | WebApplication2/Pustakalaya/Controllers/CartController.cs:53-93 | an add passes exactly when the quantity is at least one, the book exists, and the quantity plus any existing line fits the stock; the book is NotFound exactly when it is missing |
| CartController.AddLine | WebApplication2/Pustakalaya/Controllers/CartController.cs:79-103 | an existing line for the book takes the copies and the other lines stay; otherwise one line is appended |
| CartController.AddedToCarts | WebApplication2/Pustakalaya/Controllers/CartController.cs:63-105 | only the member's cart changes; a member without a cart gets a new one |
| CartController.AddLineKeepsDistinct | WebApplication2/Pustakalaya/Controllers/CartController.cs:79-103 | adding keeps one line per book, and the book then has its line |
| CartController.AddLineKeepsPositive | WebApplication2/Pustakalaya/Controllers/CartController.cs:79-103 | adding one copy or more keeps every line of the cart at one copy or more |
| CartController.AddKeepsWellFormed | WebApplication2/Pustakalaya/Controllers/CartController.cs:48-109 | a successful add keeps one cart per member, one line per book and positive quantities |
| CartController.AddedLineWithinStock | WebApplication2/Pustakalaya/Controllers/CartController.cs:53-93 | after a successful add the book's line asks for between one copy and the stock |
| CartController.AddLineWithinStock | WebApplication2/Pustakalaya/Controllers/CartController.cs:79-103 | the same within one cart's lines |
| CartController.AddToCart | WebApplication2/Pustakalaya/Controllers/CartController.cs:48-109 | a refusal changes nothing; a success stores exactly the added carts and keeps the carts well-formed |
| CartController.MergeIntoCart | WebApplication2/Pustakalaya/Controllers/CartController.cs:79-103 | the merge succeeds exactly when there is no line yet or the merged sum fits the stock, and the cart then has the added line |
| CartController.UpdateError | WebApplication2/Pustakalaya/Controllers/CartController.cs:117-133 | an update passes exactly when the quantity is at least one, the member has the line, the book exists and the stock suffices |
| CartController.SetQuantity | WebApplication2/Pustakalaya/Controllers/CartController.cs:135-136 | only that line changes, to the new quantity |
| CartController.SetQuantityKeepsWellFormed | WebApplication2/Pustakalaya/Controllers/CartController.cs:112-140 | a valid update keeps the carts well-formed and stores the requested quantity, between one and the stock |
| CartController.UpdateQuantity | WebApplication2/Pustakalaya/Controllers/CartController.cs:112-140 | a refusal changes nothing; otherwise exactly the quantity is set |
| CartController.RemoveLine | WebApplication2/Pustakalaya/Controllers/CartController.cs:148-154 | only the member's cart loses that one line |
| CartController.RemoveLineEffect | WebApplication2/Pustakalaya/Controllers/CartController.cs:143-158 | the carts stay well-formed, the book has no line left, and every other line stays |
| CartController.RemoveLineItems | WebApplication2/Pustakalaya/Controllers/CartController.cs:154 | removing one line from distinct lines leaves exactly the lines for other books |
| CartController.RemoveItem | WebApplication2/Pustakalaya/Controllers/CartController.cs:143-158 | NotFound changes nothing; otherwise exactly that line goes |
| CartController.ClearedCarts | WebApplication2/Pustakalaya/Controllers/CartController.cs:165-172 | the member's cart is emptied and every other cart is untouched |
| CartController.ClearedCartsEffect | WebApplication2/Pustakalaya/Controllers/CartController.cs:160-176 | clearing keeps every cart row and well-formedness, and leaves the member's cart empty |
| CartController.ClearCart | WebApplication2/Pustakalaya/Controllers/CartController.cs:160-176 | the member's cart is emptied, and the message says whether it already was |
| CartController.WellFormedCheckoutKeepsStock | WebApplication2/Pustakalaya/Controllers/OrderController.cs:55-104 | a well-formed cart that passes the checkout's stock test drives no stock below zero |
| LegacyCartController.LegacyAddLine | dotnetwebapi/Pustakalaya/Controllers/CartController.cs:71-86 | the book's line takes the copies with 32-bit wrap-around; otherwise one line is appended |
| LegacyCartController.LegacyAddedToCarts | dotnetwebapi/Pustakalaya/Controllers/CartController.cs:59-88 | only the member's cart changes; a member without a cart gets a new one |
| LegacyCartController.LegacyAddKeepsDistinct | dotnetwebapi/Pustakalaya/Controllers/CartController.cs:59-88 | an add keeps one cart per member and one line per book |
| LegacyCartController.LegacyAgreesWithValidated | dotnetwebapi/Pustakalaya/Controllers/CartController.cs:48-92 | wherever the validated cart accepts an add, the legacy one stores the same carts |
| LegacyCartController.LegacyAddLineAgrees | dotnetwebapi/Pustakalaya/Controllers/CartController.cs:71-86 | while the merged count fits in 32 bits, the wrapping line update equals the mathematical one |
| LegacyCartController.LegacyAcceptsNegative | dotnetwebapi/Pustakalaya/Controllers/CartController.cs:48-92 | a request for -3 copies is stored as it is |
| LegacyCartController.AddToCart | dotnetwebapi/Pustakalaya/Controllers/CartController.cs:48-92 | an unknown book is NotFound and stores nothing; any other request is added; lines stay distinct |
| LegacyCartController.UpdateQuantity | dotnetwebapi/Pustakalaya/Controllers/CartController.cs:94-110 | any quantity is stored in the member's line; a missing line is NotFound |
| LegacyCartController.RemoveItem | dotnetwebapi/Pustakalaya/Controllers/CartController.cs:112-127 | exactly the member's line for the book goes; a missing line is NotFound |
| LegacyCartController.ClearCart | dotnetwebapi/Pustakalaya/Controllers/CartController.cs:129-145 | the member's cart is emptied, and the message says whether it already was |
| OrderController.ClaimCodeValue | WebApplication2/Pustakalaya/Controllers/OrderController.cs:29-36 | the drawn value is below one million |
| OrderController.ClaimCode | WebApplication2/Pustakalaya/Controllers/OrderController.cs:29-36 | the claim code is six digits that spell the drawn value |
| OrderController.ClaimCodeCoversAll | WebApplication2/Pustakalaya/Controllers/OrderController.cs:29-36 | every code from 000000 to 999999 can be drawn |
| OrderController.ClaimCodeInjective | WebApplication2/Pustakalaya/Controllers/OrderController.cs:29-36 | two draws give the same code exactly when they give the same value |
| OrderController.LineError | WebApplication2/Pustakalaya/Controllers/OrderController.cs:57-66 | a line is fine exactly when its book exists and has enough stock |
| OrderController.StockError | WebApplication2/Pustakalaya/Controllers/OrderController.cs:55-66 | no error exactly when every line is fine; otherwise the error is that of the first bad line |
| OrderController.StockErrorAt | WebApplication2/Pustakalaya/Controllers/OrderController.cs:55-66 | the error reported is the first bad line's |
| OrderController.CheckoutError | WebApplication2/Pustakalaya/Controllers/OrderController.cs:45-66 | checkout passes exactly when the member has a non-empty cart whose lines are all fine |
| OrderController.DeductLine | WebApplication2/Pustakalaya/Controllers/OrderController.cs:100-101 | one line changes the stock and sales of its book only, and no key, price or title |
| OrderController.Deduct | WebApplication2/Pustakalaya/Controllers/OrderController.cs:82-104 | the books keep their keys, prices and titles |
| OrderController.LinesSnapshot | WebApplication2/Pustakalaya/Controllers/OrderController.cs:82-104 | each order line copies its cart line's book and quantity, the book's price, no discount, and price times quantity |
| OrderController.TakeStep | WebApplication2/Pustakalaya/Controllers/OrderController.cs:82-104 | one turn of the line loop deducts and snapshots the next line |
| OrderController.AllLinesPrefix | WebApplication2/Pustakalaya/Controllers/OrderController.cs:55-66 | a prefix of a cart whose books all exist has only existing books |
| OrderController.DeductEffect | WebApplication2/Pustakalaya/Controllers/OrderController.cs:82-104 | each book's stock falls and its sales rise by exactly the total its lines ask for, and nothing else changes |
| OrderController.SellTwice | WebApplication2/Pustakalaya/Controllers/OrderController.cs:100-101 | two sales of a book add up to one |
| OrderController.QuantityForDistinct | WebApplication2/Pustakalaya/Controllers/OrderController.cs:82-104 | with distinct books, at most one line asks for a given book |
| OrderController.DistinctLinesKeepStock | WebApplication2/Pustakalaya/Controllers/OrderController.cs:55-104 | a validated cart with one line per book leaves no stock negative |
| OrderController.DuplicateLinesOverdraw | WebApplication2/Pustakalaya/Controllers/OrderController.cs:55-104 | two lines of 3 for a book with stock 4 pass validation and leave -2 |
| OrderController.DiscountClosedForm | WebApplication2/Pustakalaya/Controllers/OrderController.cs:106-128 | the discounts amount to 5%, 10% or 14.5%, with the right tags, and price plus discount is the subtotal |
| OrderController.AppliedDiscountTags | WebApplication2/Pustakalaya/Controllers/OrderController.cs:106-128 | the tags are one of four strings and name "bulk" and "loyalty" exactly when each rule fires |
| OrderController.TagSearches | WebApplication2/Pustakalaya/Controllers/OrderController.cs:106-128 | which of the four tag strings contain "bulk" and which contain "loyalty" |
| OrderController.BulkExample | WebApplication2/Pustakalaya/Controllers/OrderController.cs:106-114 | five books for 40.00 cost 38.00 after 2.00 bulk discount |
| OrderController.NewOrderShape | WebApplication2/Pustakalaya/Controllers/OrderController.cs:68-77 | a new order is pending, unpaid, for pickup, due in seven days, and its price and discount add up to the subtotal |
| OrderController.ItemResponse | WebApplication2/Pustakalaya/Controllers/OrderController.cs:279-287 | an item shows its book's title and first image, or "Unknown" and "/fallback.png" |
| OrderController.BuildOrderResponse | WebApplication2/Pustakalaya/Controllers/OrderController.cs:266-289 | the response copies the order's fields and has one item per line |
| OrderController.ValidateCart | WebApplication2/Pustakalaya/Controllers/OrderController.cs:55-66 | the stock-check loop reports exactly the first bad line's error |
| OrderController.TakeFromStock | WebApplication2/Pustakalaya/Controllers/OrderController.cs:82-104 | the line loop deducts every line from stock, builds every snapshot line, and sums the line totals |
| OrderController.PriceOrder | WebApplication2/Pustakalaya/Controllers/OrderController.cs:106-128 | the discount block computes the closed-form pricing |
| OrderController.CreateOrder | WebApplication2/Pustakalaya/Controllers/OrderController.cs:40-144 | a rejection changes nothing; a success deducts the stock, appends the new order, removes the cart, and answers with the order |
| OrderController.OrderIndex | WebApplication2/Pustakalaya/Controllers/OrderController.cs:199-203 | finds the first order with the key, or none exists |
| OrderController.OwnOrderIndex | WebApplication2/Pustakalaya/Controllers/OrderController.cs:224-228 | finds an order of the caller with the key, or none exists |
| OrderController.ClaimIndex | WebApplication2/Pustakalaya/Controllers/OrderController.cs:298-302 | finds the first order with the code, or none exists |
| OrderController.CancelOrder | WebApplication2/Pustakalaya/Controllers/OrderController.cs:217-242 | only the caller's own pending order is cancelled and stamped; stock is untouched; anything else changes nothing |
| OrderController.ClaimOrderByCode | WebApplication2/Pustakalaya/Controllers/OrderController.cs:291-317 | a blank code is BadRequest; only a pending order becomes claimed and paid; anything else changes nothing |
| OrderController.ClaimTwice | WebApplication2/Pustakalaya/Controllers/OrderController.cs:291-317 | a code that claims once fails the second time with BadRequest |
| OrderController.UpdateStatus | WebApplication2/Pustakalaya/Controllers/OrderController.cs:195-215 | any status is stored as given; the paid flag changes only when supplied |
| OrderController.DeleteOrder | WebApplication2/Pustakalaya/Controllers/OrderController.cs:244-263 | exactly that order goes, and the response shows it as it was |
| OrderController.NewerOrderFirstIsPreorder | WebApplication2/Pustakalaya/Controllers/OrderController.cs:174 | newest-first is a total preorder |
| OrderController.MyOrders | WebApplication2/Pustakalaya/Controllers/OrderController.cs:169-175 | exactly the caller's orders, each as often as in the table, newest first |
| OrderController.Responses | WebApplication2/Pustakalaya/Controllers/OrderController.cs:177 | one response per order, in order |
| OrderController.GetMyOrders | WebApplication2/Pustakalaya/Controllers/OrderController.cs:162-179 | Unauthorized without an id; otherwise the caller's orders, newest first |
| OrderController.AllOrders | WebApplication2/Pustakalaya/Controllers/OrderController.cs:147-160 | every order, newest first |
| OrderController.GetOrderById | WebApplication2/Pustakalaya/Controllers/OrderController.cs:181-193 | NotFound exactly when no order has the key; otherwise the response of an order with that key |
| ReviewController.RatingsOf | WebApplication2/Pustakalaya/Controllers/ReviewController.cs:164-167 | the ratings of one book's reviews |
| ReviewController.RoundHalfEven | WebApplication2/Pustakalaya/Controllers/ReviewController.cs:167 | `Math.Round`: within one half of the value, ties to even |
| ReviewController.RoundHalfEvenBetween | WebApplication2/Pustakalaya/Controllers/ReviewController.cs:167 | rounding stays between integer bounds |
| ReviewController.Round2 | WebApplication2/Pustakalaya/Controllers/ReviewController.cs:167 | `Math.Round(x, 2)` is within 0.005 of x |
| ReviewController.Round2Between | WebApplication2/Pustakalaya/Controllers/ReviewController.cs:167 | two-place rounding stays between integer bounds |
| ReviewController.RatingsOfValid | WebApplication2/Pustakalaya/Dtos/ReviewCreateDto.cs:9-13 | valid reviews give valid ratings |
| ReviewController.SumBounds | WebApplication2/Pustakalaya/Controllers/ReviewController.cs:167 | n valid ratings sum to between n and 5n |
| ReviewController.MeanBounds | WebApplication2/Pustakalaya/Controllers/ReviewController.cs:167 | the mean of valid ratings lies between 1 and 5 |
| ReviewController.QuotientBounds | WebApplication2/Pustakalaya/Controllers/ReviewController.cs:167 | a quotient of bounded values is bounded |
| ReviewController.AverageRatingBounds | WebApplication2/Pustakalaya/Controllers/ReviewController.cs:160-174 | the average is 0 without reviews and between 1 and 5 with them |
| ReviewController.WithAverage | WebApplication2/Pustakalaya/Controllers/ReviewController.cs:160-174 | only the book's average changes; an unknown book leaves the table as it is |
| ReviewController.RecomputeKeepsCurrent | WebApplication2/Pustakalaya/Controllers/ReviewController.cs:160-174 | recomputing the one book whose ratings changed keeps every average current |
| ReviewController.AppendOthers | WebApplication2/Pustakalaya/Controllers/ReviewController.cs:38-53 | a new review changes only its own book's ratings |
| ReviewController.UpdateOthers | WebApplication2/Pustakalaya/Controllers/ReviewController.cs:67-69 | an edit changes only its own book's ratings |
| ReviewController.RemoveOthers | WebApplication2/Pustakalaya/Controllers/ReviewController.cs:83-85 | a delete changes only its own book's ratings |
| ReviewController.OwnReviewIndex | WebApplication2/Pustakalaya/Controllers/ReviewController.cs:61-65 | finds a review of the caller with the key, or none exists |
| ReviewController.AppendKeepsWellFormed | WebApplication2/Pustakalaya/Controllers/ReviewController.cs:25-54 | a new valid review of an unreviewed pair keeps the pairs unique, ratings valid and averages current |
| ReviewController.UpdateKeepsWellFormed | WebApplication2/Pustakalaya/Controllers/ReviewController.cs:56-76 | an edit with a valid rating keeps the invariant |
| ReviewController.RemoveKeepsWellFormed | WebApplication2/Pustakalaya/Controllers/ReviewController.cs:78-95 | a delete keeps the invariant |
| ReviewController.UpdateBookAverageRating | WebApplication2/Pustakalaya/Controllers/ReviewController.cs:160-174 | stores the recomputed average on the book and changes nothing else |
| ReviewController.CreateReview | WebApplication2/Pustakalaya/Controllers/ReviewController.cs:25-54 | an invalid request, an unknown book or a repeat review stores nothing; otherwise the review is appended and the average recomputed; the invariant is kept |
| ReviewController.UpdateReview | WebApplication2/Pustakalaya/Controllers/ReviewController.cs:56-76 | only the caller's own review changes, in its rating, comment and time; the invariant is kept |
| ReviewController.DeleteReview | WebApplication2/Pustakalaya/Controllers/ReviewController.cs:78-95 | only the caller's own review goes and its book's average is recomputed; the invariant is kept |
| ReviewController.BuildReviewResponse | WebApplication2/Pustakalaya/Controllers/ReviewController.cs:145-158 | the review with its author's name and book's title, each "Unknown" when missing |
| ReviewController.NewerReviewFirstIsPreorder | WebApplication2/Pustakalaya/Controllers/ReviewController.cs:120-125 | newest-first is a total preorder |
| ReviewController.MyReviews | WebApplication2/Pustakalaya/Controllers/ReviewController.cs:120-125 | exactly the caller's reviews, each as often as in the table, newest first |
| ReviewController.ReviewResponses | WebApplication2/Pustakalaya/Controllers/ReviewController.cs:120-128 | one response per review, in order |
| ReviewController.GetMyReviews | WebApplication2/Pustakalaya/Controllers/ReviewController.cs:115-129 | a server error without an id; otherwise the caller's reviews, newest first |
| HomeController.GenreName | WebApplication2/Pustakalaya/Controllers/HomeController.cs:108 | the genre's name, or "" for a missing genre |
| HomeController.MapToDto | WebApplication2/Pustakalaya/Controllers/HomeController.cs:98-124 | every field is copied, with the genre name and the image URLs |
| HomeController.MapToDtoKeepsFields | WebApplication2/Pustakalaya/Controllers/HomeController.cs:98-124 | books with the same display record agree on every field except the genre and owner keys |
| HomeController.MapAll | WebApplication2/Pustakalaya/Controllers/HomeController.cs:98-124 | one display record per book, in order |
| HomeController.ShelfOrdersArePreorders | WebApplication2/Pustakalaya/Controllers/HomeController.cs:20-95 | the five shelf orders are total preorders |
| HomeController.ShelfProperties | WebApplication2/Pustakalaya/Controllers/HomeController.cs:20-66 | a shelf holds exactly min(n, qualifying) books, ordered, only qualifying ones, and no qualifying book left out ranks ahead of one shown |
| HomeController.ShelfComplete | WebApplication2/Pustakalaya/Controllers/HomeController.cs:20-66 | with few enough qualifying books, all are shown |
| HomeController.DiscountedProperties | WebApplication2/Pustakalaya/Controllers/HomeController.cs:20-35 | exactly min(12, on sale now) books on sale now, in order of discount, the biggest discounts shown |
| HomeController.ExclusiveProperties | WebApplication2/Pustakalaya/Controllers/HomeController.cs:37-50 | exactly min(10, exclusive) exclusive editions, newest first, none left out newer than one shown |
| HomeController.TopRatedProperties | WebApplication2/Pustakalaya/Controllers/HomeController.cs:52-66 | exactly min(10, rated 4.5 or more) such books, best rated first, then by sales, none left out ranking ahead |
| HomeController.BestSellersProperties | WebApplication2/Pustakalaya/Controllers/HomeController.cs:68-80 | exactly min(10, size) books, with the top sales |
| HomeController.NewArrivalsProperties | WebApplication2/Pustakalaya/Controllers/HomeController.cs:82-95 | exactly min(10, size) books, the latest publications, ties broken by creation time |
| HomeController.ShelfResponse | WebApplication2/Pustakalaya/Controllers/HomeController.cs:20-95 | one display record per shelf book, each the book's `MapToDto`, in shelf order |
| UseCart.OrDefault | vuejsshopfrontend/src/store/useCart.js:74-78 | JavaScript's `message \|\| fallback` |
| UseCart.ImagesOrDefault | vuejsshopfrontend/src/store/useCart.js:42-44 | a non-empty image list is kept; otherwise the default image is used |
| UseCart.ToEntry | vuejsshopfrontend/src/store/useCart.js:36-47 | an entry copies the product's book id, title, price and quantity |
| UseCart.ToEntries | vuejsshopfrontend/src/store/useCart.js:36-47 | one entry per product, in reply order |
| UseCart.TotalItemsOfFetched | vuejsshopfrontend/src/store/useCart.js:130-132 | the item count is the sum of the fetched quantities |
| UseCart.TotalsAppend | vuejsshopfrontend/src/store/useCart.js:130-135 | both totals add over a split of the cart |
| UseCart.TotalsNonNegative | vuejsshopfrontend/src/store/useCart.js:130-135 | with no negative prices or quantities, neither total is negative |
| UseCart.NonNegativeProduct | vuejsshopfrontend/src/store/useCart.js:133-135 | a line amount is not negative |
| UseCart.Fetch | vuejsshopfrontend/src/store/useCart.js:27-52 | signed out or on a failed request the lines are empty; otherwise they are the mapped products |
| UseCart.CartStore.constructor | vuejsshopfrontend/src/store/useCart.js:16-19 | the store starts empty and signed out |
| UseCart.CartStore.CheckAuthentication | vuejsshopfrontend/src/store/useCart.js:22-24 | signed in exactly when a non-empty token is stored |
| UseCart.CartStore.FetchCart | vuejsshopfrontend/src/store/useCart.js:27-52 | the lines become what `Fetch` says |
| UseCart.CartStore.CheckState | vuejsshopfrontend/src/store/useCart.js:55-61 | reads the token, then fetches |
| UseCart.CartStore.AddToCart | vuejsshopfrontend/src/store/useCart.js:64-80 | signed out or failed: no change and the right message; on success the cart is refetched |
| UseCart.CartStore.UpdateQuantity | vuejsshopfrontend/src/store/useCart.js:83-97 | the same shape with its own messages |
| UseCart.CartStore.RemoveFromCart | vuejsshopfrontend/src/store/useCart.js:100-112 | the same shape with its own messages |
| UseCart.CartStore.ClearCart | vuejsshopfrontend/src/store/useCart.js:115-127 | the same shape with its own messages |
| Router.SignedOutRule | vuejsshopfrontend/src/router/index.js:54-56 | signed out, a navigation goes through exactly for a public page, and otherwise goes to the login page |
| Router.SignedInAuthRule | vuejsshopfrontend/src/router/index.js:59-61 | signed in, the login page sends the user home |
| Router.AdminRule | vuejsshopfrontend/src/router/index.js:64-66 | signed in, an admin page is allowed exactly for the role "admin" |
| Router.MemberRuleRedundant | vuejsshopfrontend/src/router/index.js:69-71 | the fourth rule never changes a decision |
| Router.SignedInOpenPages | vuejsshopfrontend/src/router/index.js:49-74 | signed in, every non-admin page other than login is allowed |
| Router.AdminRoutesNotPublic | vuejsshopfrontend/src/router/index.js:20-42 | no admin route is public |
| Router.DecisionTargets | vuejsshopfrontend/src/router/index.js:49-74 | the guard only allows, or redirects to the login page (signed out, never from it) or home (signed in, from the login page or an admin page only) |

## Left out

- Authentication and token issuing: JWT creation, signature checks and the
  `[Authorize]` role attributes belong to the host. The model takes the
  caller's claims as a `Principal` value. An endpoint restricted to staff is
  modelled without that gate.
- Password hashing: BCrypt hashing and verification are function parameters.
- Email and push: the reset-code mail of `ForgotPassword` and the push of a
  new announcement are not sent. The model only names the push channel.
- File storage: book images are written to and deleted from disk. The model
  takes the generated file names as input and keeps only the image records.
- Randomness and clock: the claim-code bytes, GUID file names, the
  membership number and `DateTime.UtcNow` are parameters. Dates are ticks, so
  `DateTime.Kind` and UTC conversion are not modelled.
- Floating point: prices, discounts and averages are `real`. `decimal` and
  `double` rounding, and JavaScript numbers in the cart totals, are not
  modelled. `Math.Round` is modelled exactly on reals, ties to even.
- Concurrency: each action runs alone and saves atomically. Two requests
  interleaving between a check and its write are not modelled; for example,
  two sign-ups with one email, or two checkouts of one book.
- SQL ordering: `OrderBy` is modelled as an insertion sort that keeps ties
  in table order (no lemma states that tie order). The database may break
  ties differently.
- Text collation: BookController.TitleAsc and BookController.TitleDesc, with
  Text.LexLessEq, order titles by code point. The source sorts inside the
  PostgreSQL query, which orders text by the database collation (under
  en_US.UTF-8 "apple" comes before "Banana"; by code point it comes after).
- Culture: Text.ToLower, AccountController.LowerOpt and
  BookmarkController.IsAdmin fold only the ASCII letters A-Z. .NET's
  `ToLower()` follows the current culture (under tr-TR "ADMIN" becomes
  "admın"), which is not modelled.
- BookController.CreateGenre: the nested `Books` list of the bound genre is
  not modelled (the model's genre has no such field), so books posted inside
  a new genre are not inserted. A key given in the body does not move the
  key counter, so a later generated key can meet it; as with the other
  generated keys, the model does not check that clash.
- Foreign keys checked only in one place: AnnouncementController.CreateAnnouncement
  answers a server error for an addressee who is no member. The same failure
  for inserts keyed by the caller's token after that member or admin was
  deleted is not modelled: ReviewController.CreateReview,
  BookmarkController.AddBookmark, the new cart of CartController.AddToCart,
  OrderController.CreateOrder and BookController.PostBook store the record.
- Keys drawn by a failed insert: the database sequence moves on even when
  saving fails; the model leaves `nextId` unchanged.
- Missing records: the inner join of the bookmark listing skips bookmarks
  whose book is missing. A `null` navigation property becomes the "Unknown"
  or "" defaults the source uses.
- Request validation: only the attributes on the review and announcement
  bodies are modelled. Model binding of malformed JSON is not.
- `UseCart.CartStore.Items` and `UseCart.CartStore.Amount` are the two
  getters, with no contract of their own. Their properties are proved about
  `TotalItems` and `TotalAmount`.
- Read-only endpoints not modelled:
  - `GetCart` of both cart controllers;
  - `GetReviewsForBook` and `GetReviewById`;
  - the announcement `GetAll` and `GetById`;
  - `GetBooks`, `GetBook`, `GetGenres` and `GetGenre`.

  They are plain projections of one table.
- CartController.AddToCart and CartController.MergeIntoCart use the
  corrected merge (`CartController.MergedQuantity`), not the 32-bit wrap of
  the source. The wrap is modelled separately, as a finding below.
- Files that are not part of this model: the chat store, the two `main.js`
  files, the migrations, and the email and push services. Of `Program.cs`
  only the registered authentication scheme is used.
- Where the code and the written description of the system differ, the
  model follows the code:
  - An announcement's dates are non-nullable in the code, so the `null` tests
    in the `/my` query can never fire. There is no open-ended announcement.
  - `Login` lower-cases the role, but `GetProfile` compares the role claim
    exactly. `BookController` checks the role "admin" exactly, while
    `BookmarkController` lower-cases it.
  - A repeat bookmark is answered with BadRequest, not Conflict.
  - Cancelling an order does not give back its stock or sales
    (`OrderController.CancelOrder`).
  - Checkout checks each line against the stock before any deduction, so two
    lines for one book can overdraw it (`OrderController.DuplicateLinesOverdraw`).
    The validated cart never creates such lines
    (`CartController.WellFormedCheckoutKeepsStock`).
  - `UpdateStatus` accepts any status string with no transition check.

## Findings

| source | as written | input that shows it | evidently intended | confidence | as-written member | corrected member |
|---|---|---|---|---|---|---|
| WebApplication2/Pustakalaya/Controllers/BookController.cs:109 | the admin checks return `Forbid("Only admin users can add books.")`, and likewise at BookController.cs lines 169, 240, 284, 299 and 318 and BookmarkController.cs lines 68 and 103; `Forbid(string)` takes its argument as an authentication scheme name, and only the bearer scheme is registered, so the framework throws | a member calling `POST /api/book`: no handler named "Only admin users can add books." exists, and the answer is a server error instead of 403 | the refusal answers 403, as `Forbid()` with no argument does (a message would go in the body) | not executed | Entities.ForbidWithMessage | Entities.ForbidDefault |
| WebApplication2/Pustakalaya/Controllers/CartController.cs:82-84 | the repeat-add merge `item.Quantity + request.Quantity` is unchecked 32-bit `int` arithmetic, and only the wrapped sum is compared with the stock | a line holding 2147483647 copies of a book with stock 2147483647, plus a request for 1: the sum wraps to -2147483648, passes the `> Stock` test and is stored | a merge whose true sum exceeds the stock is refused | not executed | CartController.MergeOverflowAccepted | CartController.MergedQuantityBounds |

The controllers keep the `Forbid` behaviour as written: their admin checks
answer a server error. The validated cart, by contrast, uses the corrected
merge.
