# Admin panel core, modelled in Dafny

This project models the core of an admin panel: a Go backend (gin handlers
over GORM repositories on PostgreSQL) and the React screens and components
that drive it. The model covers the following.

- **Backend**
  - The generic CRUD helpers. The chief one is the positional shift that keeps
    items and blog posts ordered within a language.
  - The repositories for items, properties, blog posts, calendar events and
    users.
  - The calendar reminder queries.
  - The password service.
  - The media file-name helpers.
  - The request-user lookups.
  - The bearer-token and login-rate-limit middleware.
  - The HTTP handlers for items, posts, events and the users list and delete.
- **Frontend**
  - The paginated item, post and user screens: page parameter, request window,
    next and previous page, prefetch and footer.
  - The item search filter and category list.
  - The language tabs.
  - The row action menu.
  - The image gallery.
  - The post edit dialog.
  - The item images and properties editors.
  - The category and language selectors.

The database is one `Database.Db` object with a `seq` (or `map`) field per
table. Repository methods take it and name the tables they change in their
`modifies` clause. A table is a sequence of rows in storage order.

UUIDs are natural numbers, with 0 standing for `uuid.Nil`. Times are integer
minutes counted from Go's zero time, so the zero time is 0.

What the code cannot know in advance becomes a parameter:
- the ids `uuid.New()` draws;
- the clock;
- the bcrypt hash and compare functions;
- the JWT parser;
- the outcome of a bucket deletion;
- whether a server call succeeded.

React components with state become classes. Their fields are the component's
state, and their methods are its event handlers. Each `ensures` ties the new
state to the pure functions the lemmas are about.

Some behaviour of the code is modelled as written, even though the design
suggests another intent.
- The `BeforeCreate` hooks of items and properties test `ID != uuid.Nil`, so
  every created item or property gets a fresh id.
- Item and post deletion require the requester to own the row AND be a
  superuser.
- A refused item or post update has already been saved when the 401 is
  answered.
- `DeleteEventById` and `DeleteUserById` never report a missing row, because
  the generic delete does not return `ErrRecordNotFound`.
- An item without a property row cannot be read back, so the item read and
  delete handlers answer 500 for it.
- The post list ignores `skip` and `limit`.
- An empty page of users is sent as `"data": null`, because the response
  list is grown from a nil slice. The users screen reads `data.length` and
  `data.map` without a guard, so a page past the last user (reached, for
  example, by Next from a full last page) throws instead of showing an
  empty table.

Some effects come from the schema rather than from the Go code.
- The owner keys of items, posts and calendar events are declared with
  `OnDelete:CASCADE`, and AutoMigrate creates those foreign keys. Deleting a
  user therefore deletes every item, post and event they own. Their property
  and media rows have no foreign key and stay behind.
- `IsActive` is a `default:true` column. GORM's Create replaces the zero
  value false by the default, so every created user is active, and the
  response says so.

## Model

| member | source | states |
|---|---|---|
| Common.Distinct | frontend/src/routes/_layout/items.tsx:122-124 | the result has no duplicates and holds exactly the values of the input |
| Common.DistinctKeepsFirstAppearanceOrder | frontend/src/routes/_layout/items.tsx:122-124 | `new Set` keeps values in the order of their first appearance |
| Common.Filter | frontend/src/routes/_layout/items.tsx:109-119 | an element is kept iff it is in the input and satisfies the predicate, and the result is no longer than the input |
| Common.FilterIsSubsequence | frontend/src/routes/_layout/items.tsx:109-119 | a filter keeps the relative order of what it keeps: its result is a subsequence of its input |
| Common.RemoveAt | frontend/src/components/Blog/EditPost.tsx:143-148 | `splice(i, 1)` on a copy: one element shorter, the elements before `i` in place and those after moved down by one |
| Common.RemoveAtLosesOne | frontend/src/components/Blog/EditPost.tsx:143-148 | the removed list plus the removed element is the same multiset as the original |
| Common.NonEmptyOrRules | backend/modules/property/repository/property_repository.go:85-111 | the "assign only when non-empty" rule keeps the current value iff the update is empty, is idempotent, and never yields "" from a non-empty value |
| Common.Window | backend/modules/item/repository/item_repository.go:226 | `OFFSET skip LIMIT limit`: at most `limit` elements, exactly the elements from `skip` on, and the exact length |
| Crud.Shifted | backend/internal/repository/crud.go:88-122 | the table after a shift has the same length, and each row is bumped by one iff it has the language and a position at or above the new position |
| Crud.ShiftPositions | backend/internal/repository/crud.go:88-122 | the selection, increment and save loops leave exactly `Shifted` of the table |
| Crud.ShiftMovesExactlyTheSelected | backend/internal/repository/crud.go:92-112 | selected rows gain exactly one; every other row and every id, language and payload is unchanged |
| Crud.ShiftFreesSlot | backend/internal/repository/crud.go:88-122 | after a shift no row of that language holds the new position |
| Crud.ShiftPreservesOrder | backend/internal/repository/crud.go:103-112 | within one language the strict and non-strict order of positions is kept |
| Crud.ShiftWithoutMatchIsIdentity | backend/internal/repository/crud.go:92-100 | with no selected row the table is unchanged |
| Crud.ShiftKeepsRecords | backend/internal/repository/crud.go:115-119 | the shift creates and deletes no record: the id column is unchanged |
| Crud.PositionTakenIgnoresLanguage | backend/internal/repository/crud.go:48-54 | GetPosition reports a position as taken by a row of any language |
| Crud.CreateEssenceId | backend/internal/repository/crud.go:11-18 | a nil id is replaced by the fresh id, any other id is kept, and the result is never nil |
| Crud.FindById | backend/internal/repository/crud.go:20-26 | not found iff no row has the id; a found row is in the table with that id |
| Crud.DeleteById | backend/internal/repository/crud.go:56-62 | a row survives iff its id differs |
| Crud.SaveRow | backend/internal/repository/crud.go:115-119 | db.Save replaces exactly the rows with the record's id |
| Crud.Ids | backend/internal/repository/crud.go:88-122 | the id column of a table, row for row |
| Crud.SortByPosition | backend/modules/item/repository/item_repository.go:226 | `ORDER BY position ASC` gives a sorted permutation of the rows |
| Crud.Insert | backend/modules/item/repository/item_repository.go:226 | inserting into a sorted table stays sorted and adds exactly that row |
| Crud.SortKeepsRows | backend/modules/blog/repository/blog_repository.go:51 | a row is in the sorted answer iff it is in the table |
| Crud.WindowKeepsOrder | backend/modules/item/repository/item_repository.go:226 | the offset/limit window of a sorted answer is sorted |
| MediaModels.ImagesOf | backend/modules/item/repository/item_repository.go:73-76 | the images of a content id are URLs of media rows with that content id, no more of them than rows |
| MediaModels.GroupMedia | backend/modules/item/repository/item_repository.go:248-251 | the grouping loop maps each content id to exactly its images in row order |
| MediaModels.WithContentIn | backend/modules/item/repository/item_repository.go:240-245 | `content_id IN (ids)` keeps only media rows of the listed ids |
| MediaModels.ImagesOfWithContentIn | backend/modules/item/repository/item_repository.go:240-251 | narrowing the media query to the listed ids does not change any listed id's images |
| PropertyModels.FindByContentId | backend/internal/repository/crud.go:71-77 | `First` on content_id: not found iff no row has it; a found row is in the table with that content id |
| PropertyModels.FindProperty | backend/internal/repository/crud.go:20-26 | `First` on the primary key: not found iff no row has the id |
| ItemModels.BeforeCreate | backend/modules/item/models/item.go:27-32 | the hook replaces a non-nil id by a fresh one and keeps a nil id |
| BlogModels.ToBlogGet | backend/modules/blog/repository/blog_repository.go:117-125 | the response leaves Language empty |
| UserModels.BeforeCreate | backend/modules/user/models/user.go:26-31 | a nil id gets a fresh one, any other id is kept |
| UserModels.FindUser | backend/internal/repository/crud.go:20-26 | not found iff no user has the id; a found user is stored with that id |
| PropertyRepository.BeforeCreate | backend/modules/property/models/property.go:22-27 | the hook replaces a non-nil id by a fresh one and keeps a nil id |
| PropertyRepository.CreatedPropertyGetsHookId | backend/modules/property/repository/property_repository.go:11-15 | CreateEssence fills a nil id and the hook then replaces it, so a created property always gets the hook's id |
| PropertyRepository.CreateProperty | backend/modules/property/repository/property_repository.go:11-29 | the property is appended with the hook's id and returned |
| PropertyRepository.GetPropertyById | backend/modules/property/repository/property_repository.go:31-50 | found iff a row has the id, else gorm's not-found error |
| PropertyRepository.PropertyByItemId | backend/modules/property/repository/property_repository.go:52-76 | the item's first property, or the empty property (not an error) when it has none |
| PropertyRepository.MergeProperty | backend/modules/property/repository/property_repository.go:85-111 | the merge keeps id and content id |
| PropertyRepository.MergePropertyOverwritesNonEmpty | backend/modules/property/repository/property_repository.go:85-111 | each of the nine attributes takes the update's value iff it is non-empty |
| PropertyRepository.MergeEmptyIsIdentity | backend/modules/property/repository/property_repository.go:85-111 | an all-empty update changes nothing |
| PropertyRepository.MergePropertyIdempotent | backend/modules/property/repository/property_repository.go:85-111 | applying an update twice equals applying it once |
| PropertyRepository.MergePropertyNeverClears | backend/modules/property/repository/property_repository.go:85-111 | no attribute can be cleared back to "" |
| PropertyRepository.ReplaceProperty | backend/modules/property/repository/property_repository.go:113 | db.Save replaces exactly the row with the property's id |
| PropertyRepository.UpdateProperty | backend/modules/property/repository/property_repository.go:78-131 | not found leaves the table; otherwise the merged row is saved and returned |
| PropertyRepository.UpdateKeepsOtherRows | backend/modules/property/repository/property_repository.go:113 | every other property row is unchanged |
| PropertyRepository.DeleteProperty | backend/modules/property/repository/property_repository.go:133-139 | the rows with that id are removed and no error is reported, not even for a missing row |
| ItemRepository.CreateItem | backend/modules/item/repository/item_repository.go:16-49 | an empty title is rejected with the table unchanged; otherwise the table is shifted when the position is taken, then the item is appended with the hook's id |
| ItemRepository.CreatedItemHoldsItsSlot | backend/modules/item/repository/item_repository.go:20-35 | the created item is the last row and the only row of its language at its position |
| ItemRepository.CreateItemMovesOnlyItsLanguage | backend/modules/item/repository/item_repository.go:20-30 | only rows of its language at or above its position move, no record is lost, and a free position moves nothing |
| ItemRepository.ItemView | backend/modules/item/repository/item_repository.go:51-105 | found iff the item AND a property row for it exist; the view carries that property and the item's media URLs |
| ItemModels.ToItemGet | backend/modules/item/repository/item_repository.go:77-103 | every stored item field, the owner, the property and the images are carried into the response |
| ItemRepository.GetItemById | backend/modules/item/repository/item_repository.go:51-105 | the method answers `ItemView` of the tables |
| ItemRepository.ItemWithoutPropertyIsNotFound | backend/modules/item/repository/item_repository.go:62-66 | an item without a property row reads back as not found |
| ItemRepository.MergeItem | backend/modules/item/repository/item_repository.go:115-146 | the merge keeps id and owner |
| ItemRepository.MergeItemOverwritesPresentFields | backend/modules/item/repository/item_repository.go:115-146 | exactly the fields present (non-nil) in the update are overwritten |
| ItemRepository.MergeItemIdentityAndIdempotence | backend/modules/item/repository/item_repository.go:115-146 | an empty update changes nothing and applying an update twice equals once |
| ItemRepository.UpdateItemById | backend/modules/item/repository/item_repository.go:107-154 | not found leaves the table; otherwise the shift on a position change, then the merged row is saved and read back |
| ItemRepository.OverwritePresentFields | backend/modules/item/repository/item_repository.go:123-146 | the eight conditional assignments give the merge with the position left alone |
| ItemRepository.UpdateMovesItemIntoFreedSlot | backend/modules/item/repository/item_repository.go:115-121 | after a move no other row of the item's language holds the new position |
| ItemRepository.UpdateShiftIgnoresNewLanguage | backend/modules/item/repository/item_repository.go:116 | the shift uses the old language, so rows of a new language are untouched |
| ItemRepository.DeleteItemById | backend/modules/item/repository/item_repository.go:156-189 | the item and its property go; the media rows go only when the bucket deletion succeeded |
| ItemRepository.NormalizeParameters | backend/modules/item/repository/item_repository.go:192-205 | the result has a language, a non-negative skip and a positive limit |
| ItemRepository.NormalizeParametersKeepsValid | backend/modules/item/repository/item_repository.go:192-205 | valid parameters pass unchanged, the defaults are idempotent, and a missing record gives ("pl", 0, 100) |
| ItemRepository.ItemPageContents | backend/modules/item/repository/item_repository.go:213-229 | every row of the page is stored and visible; the page is sorted and holds at most `limit` rows |
| ItemRepository.ItemPageComplete | backend/modules/item/repository/item_repository.go:213-229 | with a first page larger than the listing, every visible row is on it |
| ItemRepository.PropertiesOf | backend/modules/item/repository/item_repository.go:254-263 | every listed id maps to its `PropertyByItemId` |
| ItemRepository.ItemResponses | backend/modules/item/repository/item_repository.go:266-282 | one response per listed item, in order, with its property and images |
| ItemRepository.GetAllItems | backend/modules/item/repository/item_repository.go:191-286 | the response is the page for the normalised parameters; Count is the page size |
| BlogRepository.CreateBlog | backend/modules/blog/repository/blog_repository.go:13-43 | an empty title is rejected with the table unchanged; otherwise shift-if-taken, then append with the hook's id |
| BlogRepository.CreatedBlogHoldsItsSlot | backend/modules/blog/repository/blog_repository.go:18-33 | the created post is the last row and the only one of its language at its position |
| BlogRepository.BlogView | backend/modules/blog/repository/blog_repository.go:98-126 | found iff the post exists; the view has its id, its media URLs and an empty language |
| BlogRepository.GetBlogById | backend/modules/blog/repository/blog_repository.go:98-126 | the method answers `BlogView` of the tables |
| BlogRepository.MergeBlog | backend/modules/blog/repository/blog_repository.go:137-154 | the merge keeps id, language and owner |
| BlogRepository.MergeBlogFields | backend/modules/blog/repository/blog_repository.go:137-154 | title and content change only when non-empty; position and status are always taken |
| BlogRepository.UpdateBlogById | backend/modules/blog/repository/blog_repository.go:128-164 | not found leaves the table; otherwise shift on a position change, save the merge, read back |
| BlogRepository.UpdateMovesBlogIntoFreedSlot | backend/modules/blog/repository/blog_repository.go:138-144 | after a move no other post of its language holds the new position |
| BlogRepository.OmittedPositionMovesToZero | backend/modules/blog/repository/blog_repository.go:138-144 | an update without a position moves a post stored elsewhere to 0 |
| BlogRepository.DeleteBlogById | backend/modules/blog/repository/blog_repository.go:166-192 | the post goes; its media rows go only when the bucket deletion succeeded |
| BlogRepository.BlogListContents | backend/modules/blog/repository/blog_repository.go:51-57 | the listing holds exactly the visible posts, as often as stored, sorted by position |
| BlogRepository.SuperUserSeesAllBlogs | backend/modules/blog/repository/blog_repository.go:52-54 | a superuser's listing is a permutation of the table |
| BlogRepository.BlogResponses | backend/modules/blog/repository/blog_repository.go:82-92 | one response per listed post, in order |
| BlogRepository.GetAllBlogs | backend/modules/blog/repository/blog_repository.go:45-96 | the response is the listing with grouped media; Count is its size |
| CalendarRepository.FindEvent | backend/internal/repository/crud.go:20-26 | not found iff no event has the id |
| CalendarRepository.ReplaceEvent | backend/modules/calendar/repository/calendar_repository.go:171 | db.Save replaces exactly the event with that id |
| CalendarRepository.ValidateEvent | backend/modules/calendar/repository/calendar_repository.go:14-19 | valid iff titled and the start is not after the end; each failure gives its own message |
| CalendarRepository.CreateEvent | backend/modules/calendar/repository/calendar_repository.go:13-56 | an invalid event leaves the table; a valid one is appended with the hook's id and returned |
| CalendarRepository.CreatedEventIsOrdered | backend/modules/calendar/repository/calendar_repository.go:17-31 | a stored event starts no later than it ends, and with a non-negative offset its reminder is due no later than its start |
| CalendarRepository.GetAllEvents | backend/modules/calendar/repository/calendar_repository.go:58-95 | the user's events, in table order |
| CalendarRepository.AllEventsOfUser | backend/modules/calendar/repository/calendar_repository.go:62 | an event is listed iff it is stored and belongs to the user |
| CalendarRepository.GetEventById | backend/modules/calendar/repository/calendar_repository.go:97-124 | found iff stored, else "event not found" |
| CalendarRepository.MergeEvent | backend/modules/calendar/repository/calendar_repository.go:137-169 | the merge keeps id, user, SendEmail and ReminderSent |
| CalendarRepository.MergeEventFlagsOnlyRise | backend/modules/calendar/repository/calendar_repository.go:152-169 | an update can switch a flag on but never off |
| CalendarRepository.MergeEventFields | backend/modules/calendar/repository/calendar_repository.go:137-169 | strings change only when non-empty, dates only when non-zero, the offset only when non-zero |
| CalendarRepository.MergeEventIdempotent | backend/modules/calendar/repository/calendar_repository.go:137-169 | applying an update twice equals once |
| CalendarRepository.UpdateCanInvertDates | backend/modules/calendar/repository/calendar_repository.go:143-148 | an update can give a valid event a start after its end |
| CalendarRepository.CalendarUpdateEvent | backend/modules/calendar/repository/calendar_repository.go:126-196 | not found leaves the table; otherwise the merged event is saved and returned |
| CalendarRepository.DeleteEventById | backend/modules/calendar/repository/calendar_repository.go:198-207 | the event is removed and no error is ever reported |
| Reminder.GetUpcomingReminders | backend/modules/calendar/service/reminder.go:11-30 | an event is returned iff it is stored and due (reminder time passed, not yet sent, mail wanted) |
| Reminder.IsDue | backend/modules/calendar/service/reminder.go:19 | due iff the reminder time has passed, the reminder is not yet sent and mail is wanted |
| CalendarModels.ReminderTime | backend/modules/calendar/service/reminder.go:19 | the reminder time is the start minus the offset |
| Reminder.RemindedOrSilentNeverReturned | backend/modules/calendar/service/reminder.go:19 | a sent or mail-less event is never returned |
| Reminder.DueStaysDue | backend/modules/calendar/service/reminder.go:19 | a due event stays due at every later instant |
| Reminder.MarkedSent | backend/modules/calendar/service/reminder.go:32-37 | only the event with that id gets ReminderSent set |
| Reminder.MarkReminderSent | backend/modules/calendar/service/reminder.go:32-37 | the table becomes `MarkedSent` and no error is reported |
| Reminder.MarkedEventNotReturned | backend/modules/calendar/service/reminder.go:11-37 | after marking, the event is never returned, and every other event is due as before |
| UserRepository.ToResponse | backend/modules/user/service/user_service.go:68-78 | the response carries the user's id, e-mail and role flags |
| UserRepository.ReplaceUser | backend/modules/user/repository/user_repository.go:116 | db.Save replaces exactly the user with that id |
| UserRepository.FindUserByEmail | backend/modules/user/repository/user_repository.go:84-94 | not found iff no user has the e-mail |
| UserRepository.NewUserRecord | backend/modules/user/repository/user_repository.go:17-29 | the stored password is the hash, an empty avatar becomes the default, the id is not nil, the user is active (the `default:true` column), and name, e-mail, acronym and roles are kept |
| UserRepository.CreateUser | backend/modules/user/repository/user_repository.go:13-40 | the record with the column defaults filled in is appended, and the response (active, like the record) lacks avatar and LastSeenAt |
| UserRepository.CreateUserStoresHash | backend/modules/user/repository/user_repository.go:17-21 | the plaintext is stored only if it is its own hash |
| UserRepository.GetAllUsers | backend/modules/user/repository/user_repository.go:42-48 | at most `limit` users, each the table row at `skip + i` |
| UserRepository.GetUserById | backend/modules/user/repository/user_repository.go:50-71 | found iff stored; the response has that id |
| UserRepository.MergeUser | backend/modules/user/repository/user_repository.go:105-114 | the merge keeps id, password, acronym, flags and LastSeenAt |
| UserRepository.MergeUserFields | backend/modules/user/repository/user_repository.go:105-114 | full name, e-mail and avatar follow the non-empty rule and the acronym is never applied |
| UserRepository.UpdateUserById | backend/modules/user/repository/user_repository.go:96-130 | "user not found" leaves the table; otherwise the merge is saved |
| UserRepository.DeleteUserById | backend/modules/user/repository/user_repository.go:132-141 | the user is removed, the ON DELETE CASCADE removes exactly the items, posts and events they own, properties and media stay, and nil is always returned |
| UserService.PasswordChange | backend/modules/user/service/user_service.go:12-40 | success iff the user exists and the current password verifies; otherwise "not found" or "incorrect", in that order |
| UserService.UpdateCurrentUserPassword | backend/modules/user/service/user_service.go:12-40 | on success the stored password is the new hash; on failure nothing is saved |
| UserService.SameCheckFollowsVerification | backend/modules/user/service/user_service.go:21-26 | a wrong current password is reported before the same-password check |
| UserService.ChangedPasswordVerifies | backend/modules/user/service/user_service.go:28-37 | after a change the new password verifies against what is stored |
| UserService.ResetCurrentUserPassword | backend/modules/user/service/user_service.go:42-63 | only the e-mail must exist; the stored password becomes the hash of the new one |
| Common.AppendedSliceJson | backend/modules/user/service/user_service.go:65-82 | a slice grown from nil by `append` is written `null` iff nothing was appended, else as its elements |
| UserService.TransformUsers | backend/modules/user/service/user_service.go:65-83 | one response per user, in order, without the password |
| RequestUser.CurrentUserId | backend/internal/services/utils/user.go:15-29 | the context id, or 401 when there is none |
| RequestUser.CurrentUser | backend/internal/services/utils/user.go:32-56 | 401 without an id, 500 for an unknown id, otherwise the stored user with that id |
| RequestUser.IsSuperUserOf | backend/internal/services/utils/user.go:58-66 | the stored flag of that user, or not-found |
| RequestUser.CurrentUserFlagAgrees | backend/internal/services/utils/user.go:32-66 | the current user's flag is what GetIsSuperUser reports |
| Auth.TrimPrefix | backend/internal/middleware/auth.go:18 | with the prefix, prefix plus result is the input; without it, the input itself |
| Auth.HasPrefix | backend/internal/middleware/auth.go:18-19 | the header starts with the prefix, which is when `TrimPrefix` changes it |
| Auth.Authenticate | backend/internal/middleware/auth.go:10-34 | missing header and non-Bearer headers are 401; accepted iff Bearer and the parser accepts the rest, with the parser's claims |
| Auth.BearerTokenReachesParser | backend/internal/middleware/auth.go:18-29 | "Bearer " plus a token hands exactly that token to the parser |
| Auth.OnlyOnePrefixRemoved | backend/internal/middleware/auth.go:18 | only one prefix is removed |
| Auth.BarePrefixReachesParser | backend/internal/middleware/auth.go:18-24 | the bare prefix passes the empty token to the parser |
| Auth.OtherSchemeRefused | backend/internal/middleware/auth.go:18-23 | another scheme is refused whatever the parser says |
| LoginLimiter.BanMinutes | backend/internal/middleware/login_limiter.go:77-87 | the ban for a count: none below 3, 5 minutes from 3, 10 from 6, a hundred years from 9 |
| LoginLimiter.AfterFailure | backend/internal/middleware/login_limiter.go:72-87 | one more attempt, stamped now, banned when the count calls for it, otherwise the earlier ban kept |
| LoginLimiter.Limit | backend/internal/middleware/login_limiter.go:15-96 | the status and attempt table after one request, branch by branch: pass-through, 400, 429, reset on 200, or one more failure |
| LoginLimiter.LoginLimiterMiddleware | backend/internal/middleware/login_limiter.go:15-96 | the status and attempt table after one request: pass-through, 400, 429, reset on 200, or count a failure |
| LoginLimiter.OtherRequestsPassThrough | backend/internal/middleware/login_limiter.go:19-22 | other methods and paths pass through with the table untouched |
| LoginLimiter.BadBodyAborts | backend/internal/middleware/login_limiter.go:36-39 | a body without a usable e-mail is 400 and records nothing |
| LoginLimiter.BannedPairIsBlocked | backend/internal/middleware/login_limiter.go:52-57 | a banned pair gets 429 and its count does not move |
| LoginLimiter.SuccessResetsCounter | backend/internal/middleware/login_limiter.go:66-69 | a 200 deletes the pair's record |
| LoginLimiter.FailureCountsOne | backend/internal/middleware/login_limiter.go:72-93 | a failure adds exactly one attempt, creating the record if needed |
| LoginLimiter.OtherPairsUnaffected | backend/internal/middleware/login_limiter.go:45 | no request touches another (e-mail, ip) pair |
| LoginLimiter.BanLengthMonotone | backend/internal/middleware/login_limiter.go:77-87 | the ban length never decreases as the count grows |
| LoginLimiter.FailuresFromScratch | backend/internal/middleware/login_limiter.go:72-93 | n failures from scratch count n, and from the third on the pair is banned |
| LoginLimiter.ThirdFailureBans | backend/internal/middleware/login_limiter.go:84-86 | a fourth attempt within five minutes of the third failure is blocked |
| MediaUtils.Ext | backend/modules/media/service/utils.go:14 | the extension is a suffix of the name, empty or starting with its only '.', and holding no '/' |
| MediaUtils.ExtWithoutDot | backend/modules/media/service/utils.go:14 | a name without '.' has no extension |
| MediaUtils.GenerateUniqueFileName | backend/modules/media/service/utils.go:12-17 | `prefix_stem.ext` |
| MediaUtils.GeneratedNameRoundTrip | backend/modules/media/service/utils.go:12-17 | the generated name is prefix, '_' and the whole original name, so dropping 8 characters gives it back |
| MediaUtils.GeneratedNameWithoutDot | backend/modules/media/service/utils.go:12-17 | a name without '.' yields `prefix_name` |
| MediaUtils.Unescape | backend/modules/media/service/utils.go:21 | percent-decoding: every '%' must start a two-hex-digit escape, else the parse fails |
| MediaUtils.ParseUrl | backend/modules/media/service/utils.go:21 | `url.Parse` as far as the path goes: control characters, a bad scheme or a bad escape fail; the fragment and query are split off |
| MediaUtils.Base | backend/modules/media/service/utils.go:27 | `path.Base`: "." for an empty path, "/" for slashes only, else the last element; never empty |
| MediaUtils.PublicUrl | backend/modules/media/service/images.go:59 | the public URL is the bucket host's `/file/`, the bucket, '/' and the file name |
| MediaUtils.UnescapePlain | backend/modules/media/service/utils.go:21 | text without '%' decodes to itself |
| MediaUtils.LettersThenColon | backend/modules/media/service/utils.go:21 | letters followed by ':' scan as a scheme |
| MediaUtils.AfterLastSlash | backend/modules/media/service/utils.go:27 | a suffix of the path that holds no '/' |
| MediaUtils.ExtractFileNameFromURL | backend/modules/media/service/utils.go:20-33 | "" for a URL that `ParseUrl` refuses (authority checks aside), and never a name holding '?' |
| MediaUtils.RootedUrlWithScheme | backend/modules/media/service/utils.go:21-27 | a URL with a scheme, no query and a rooted rest parses to its decoded path |
| MediaUtils.PathAfterHost | backend/modules/media/service/utils.go:21-27 | the path after `//host` is what follows the host |
| MediaUtils.PublicUrlPath | backend/modules/media/service/utils.go:20-33 | the uploaded file's public URL parses and its path is the object's path |
| MediaUtils.ExtractInvertsPublicUrl | backend/modules/media/service/utils.go:20-33 | extraction gives back the stored file name from its public URL |
| MediaUtils.GeneratedNameSurvivesUpload | backend/modules/media/service/utils.go:12-33 | a generated name survives upload and extraction |
| Strconv.Atoi | backend/modules/item/handlers/item_hundler.go:140-141 | a number iff an optional sign and digits; its sign follows the text |
| Strconv.AtoiInvertsItoa | backend/modules/user/handlers/user_handler.go:90-98 | Atoi reads back what Itoa writes |
| Strconv.AtoiOrZero | backend/modules/item/handlers/item_hundler.go:140-141 | `n, _ := strconv.Atoi(s)`: the number, or 0 on a syntax error |
| Strconv.Itoa | backend/modules/item/handlers/item_hundler.go:140-141 | decimal digits with a leading '-' for a negative number, the form of the default query values "0" and "100" |
| ItemHandler.DeleteStricterThanAccess | backend/modules/item/handlers/item_hundler.go:58-182 | who may delete may read; a superuser may read but not delete another's item; an owner who is not a superuser may not delete their own |
| ItemHandler.MayAccess | backend/modules/item/handlers/item_hundler.go:58 | read and update are allowed to the owner or a superuser |
| ItemHandler.MayDelete | backend/modules/item/handlers/item_hundler.go:179 | delete is allowed only to an owner who is also a superuser |
| ItemHandler.OwnedBy | backend/modules/item/handlers/item_hundler.go:28 | the item gets the requester as owner, everything else kept |
| ItemHandler.CreateItemHandler | backend/modules/item/handlers/item_hundler.go:15-37 | 401, 400, 500 for an empty title, else 201 with the requester as owner |
| ItemHandler.GetItemStatus | backend/modules/item/handlers/item_hundler.go:39-65 | 400, the lookup's status, 500 when unreadable, 401 unless owner or superuser, else 200 |
| ItemHandler.UpdateItemByIdHandler | backend/modules/item/handlers/item_hundler.go:93-125 | the refusals in order; the update is saved before the ownership check |
| ItemHandler.UpdateItemOutcome | backend/modules/item/handlers/item_hundler.go:93-125 | the status and item table of an update, in the handler's order, saved before the ownership check |
| ItemHandler.RefusedUpdateStaysSaved | backend/modules/item/handlers/item_hundler.go:112-121 | a refused update is saved with its owner unchanged and answered 401 |
| ItemHandler.ListParameters | backend/modules/item/handlers/item_hundler.go:139-147 | defaults "pl", 0 and 100 for missing values, 0 for a non-number |
| ItemHandler.ListDefaults | backend/modules/item/handlers/item_hundler.go:139-149 | with the repository defaults, missing or non-numeric values give ("pl", 0, 100) |
| ItemHandler.GetAllItemsHandler | backend/modules/item/handlers/item_hundler.go:127-156 | the requester's page; a failed lookup leaves its status |
| ItemHandler.AvailableLanguages | backend/modules/item/handlers/item_hundler.go:67-78 | each stored language once |
| ItemHandler.AvailableCategories | backend/modules/item/handlers/item_hundler.go:80-91 | each stored category once |
| ItemHandler.DeleteItemGate | backend/modules/item/handlers/item_hundler.go:158-182 | the refusals in order; the delete runs only for an owner who is also a superuser |
| ItemHandler.DeleteItemByIdHandler | backend/modules/item/handlers/item_hundler.go:158-189 | the gate's status; the tables change only when the delete runs |
| BlogHandler.OwnedBy | backend/modules/blog/handlers/blog_hundler.go:26 | the post gets the requester as owner |
| BlogHandler.CreateBlogHandler | backend/modules/blog/handlers/blog_hundler.go:13-35 | 401, 400, 500 for an empty title, else 201 with the requester as owner |
| BlogHandler.GetAllBlogsHandler | backend/modules/blog/handlers/blog_hundler.go:37-55 | every post the requester may list, unpaginated |
| BlogHandler.GetBlogStatus | backend/modules/blog/handlers/blog_hundler.go:57-82 | 401, 400, 500 for a missing post, 401 for anyone but the owner |
| BlogHandler.SuperUserCannotReadOthersPost | backend/modules/blog/handlers/blog_hundler.go:76-79 | being a superuser does not open another user's post |
| BlogHandler.UpdateBlogByIdHandler | backend/modules/blog/handlers/blog_hundler.go:84-117 | the refusals in order; the update is saved before the ownership check |
| BlogHandler.UpdateBlogOutcome | backend/modules/blog/handlers/blog_hundler.go:84-117 | the status and post table of an update, in the handler's order, saved before the ownership check |
| BlogHandler.RefusedBlogUpdateStaysSaved | backend/modules/blog/handlers/blog_hundler.go:104-113 | someone else's update is saved and answered 401 |
| BlogHandler.DeleteBlogGate | backend/modules/blog/handlers/blog_hundler.go:119-142 | the refusals in order; the delete runs only for an owner who is a superuser |
| BlogHandler.DeleteBlogByIdHandler | backend/modules/blog/handlers/blog_hundler.go:119-149 | the gate's status; the tables change only when the delete runs |
| CalendarHandler.CreateEventHandler | backend/modules/calendar/handlers/calendar_handler.go:13-35 | 401, 400, 500 when validation fails, else 201 with the requester's event |
| CalendarHandler.EventGate | backend/modules/calendar/handlers/calendar_handler.go:45-70 | 400 for a missing or bad id, 404 for a missing event, the given refusal for a non-owner |
| CalendarHandler.UpdateEventGate | backend/modules/calendar/handlers/calendar_handler.go:37-70 | the body is checked before the event, so a bad body is 400 even for a missing event |
| CalendarHandler.UpdateCalendarEventHandler | backend/modules/calendar/handlers/calendar_handler.go:37-79 | the gate's status; only an owner's update changes the table |
| CalendarHandler.GetAllEventsHandler | backend/modules/calendar/handlers/calendar_handler.go:81-95 | the requester's events |
| CalendarHandler.DeleteCalendarEventHandler | backend/modules/calendar/handlers/calendar_handler.go:97-134 | the gate's status; only an owner's delete changes the table |
| CalendarHandler.NonOwnerRefused | backend/modules/calendar/handlers/calendar_handler.go:67-125 | a non-owner gets 403 on update and 401 on delete and nothing changes |
| UserHandler.LimitParam | backend/modules/user/handlers/user_handler.go:87-93 | the limit is never negative |
| UserHandler.SkipParam | backend/modules/user/handlers/user_handler.go:88-98 | the skip is never negative |
| UserHandler.ListParamsReadBack | backend/modules/user/handlers/user_handler.go:87-98 | a written non-negative number is taken as is, 0 included; a negative or missing one gives the default |
| UserHandler.NonNumericParams | backend/modules/user/handlers/user_handler.go:90-98 | non-numbers give the defaults |
| UserHandler.ReadAllUsers | backend/modules/user/handlers/user_handler.go:85-111 | the page for the read parameters without passwords; count is its size; `data` is null iff the page is empty |
| UserHandler.DeleteUserStatus | backend/modules/user/handlers/user_handler.go:139-175 | 401, 400, the lookups' 500s, 403 twice, and 200 iff allowed |
| UserHandler.DeleteUser | backend/modules/user/handlers/user_handler.go:139-186 | the decided status; iff 200, the target and, by the cascade, their items, posts and events are removed; otherwise no table changes |
| UserHandler.SuperUserNeverDeletesSuperUser | backend/modules/user/handlers/user_handler.go:166-169 | a superuser cannot delete a superuser, itself included |
| UserHandler.OrdinaryUserDeletesOnlySelf | backend/modules/user/handlers/user_handler.go:171-174 | a user who is not a superuser may delete exactly their own account |
| UserHandler.MalformedIdIgnoresTable | backend/modules/user/handlers/user_handler.go:148-152 | a malformed id is 400 whatever the table holds |
| ClientModels.FileRefs | frontend/src/components/Blog/EditPost.tsx:216 | the sent list: one ref per pending file, in order |
| ClientModels.FileRefsAppend | frontend/src/components/Blog/EditPost.tsx:130-136 | the refs of a concatenation are the concatenation of the refs |
| Pagination.PageFromSearch | frontend/src/routes/_layout/items.tsx:36-38 | a number is kept, anything else reads as page 1 |
| Pagination.QueryFor | frontend/src/routes/_layout/items.tsx:56-66 | limit is the page size, skip is non-negative from page 1, and skip + perPage is page * perPage |
| Pagination.HasNextPage | frontend/src/routes/_layout/items.tsx:91 | Next is offered iff the data is fresh (not placeholder data) and the page holds exactly the page size |
| Pagination.HasPreviousPage | frontend/src/routes/_layout/items.tsx:92 | Previous is offered iff the page is past page 1 |
| Pagination.RowIsOnItsPage | frontend/src/routes/_layout/items.tsx:56-66 | row k of an OFFSET/LIMIT list is on page k / perPage + 1 |
| Pagination.RowIsOnNoOtherPage | frontend/src/routes/_layout/items.tsx:56-66 | and on no other page |
| Pagination.Prefetch | frontend/src/routes/_layout/items.tsx:93-103 | the next page is prefetched iff there is one |
| Pagination.ShortPageIsLast | frontend/src/routes/_layout/items.tsx:91 | when a page shows no next page, the next page's window is empty |
| Pagination.FullLastPageOffersEmptyNext | frontend/src/routes/_layout/items.tsx:91 | a full last page still offers Next, whose page is empty |
| Pagination.FooterFor | frontend/src/components/Common/PaginationFooter.tsx:27-36 | Previous is disabled iff no previous page or page <= 1; Next is disabled iff no next page; the shown page is the page |
| Pagination.Requested | frontend/src/components/Common/PaginationFooter.tsx:27-36 | a click asks for a page iff its button is enabled: page - 1 (at least 1) or page + 1 |
| Pagination.PreviousUndoesNext | frontend/src/routes/_layout/items.tsx:92 | Previous is enabled exactly past page 1, and Previous after Next returns to the page |
| Pagination.PagedScreen.constructor | frontend/src/routes/_layout/items.tsx:36-38 | the screen starts on the page read from the search |
| Pagination.PagedScreen.Query | frontend/src/routes/_layout/items.tsx:56-66 | the query is the one for the page on screen |
| Pagination.PagedScreen.Click | frontend/src/components/Common/PaginationFooter.tsx:27-36 | the page becomes the requested one, or stays, and never drops below 1 |
| ActionsMenu.OwnerId | frontend/src/components/Common/ActionsMenu.tsx:33 | `owner_id` when the row has one, else the row's id |
| ActionsMenu.Menu | frontend/src/components/Common/ActionsMenu.tsx:36-82 | the button is disabled iff the menu is; delete and its dialog are disabled iff the user is not allowed |
| ActionsMenu.UserRowRule | frontend/src/components/Common/ActionsMenu.tsx:33-36 | on a user row a user is allowed iff superuser or it is their own row |
| ActionsMenu.OwnerMenuLooserThanServer | frontend/src/components/Common/ActionsMenu.tsx:36 | an owner who is not a superuser sees delete enabled, which the item handler refuses |
| ActionsMenu.AllowedMeansServerAccess | frontend/src/components/Common/ActionsMenu.tsx:36 | whatever the menu allows on an item, the server lets the user read |
| AdminRoute.UsersQuery | frontend/src/routes/_layout/admin.tsx:40-46 | ten users per page from (page - 1) * 10 |
| AdminRoute.ServedPage | backend/modules/user/handlers/user_handler.go:85-111 | the body of a users page has null data iff the page starts at or past the last user |
| AdminRoute.UsersHasNextPage | frontend/src/routes/_layout/admin.tsx:71 | the evaluation throws iff the data is fresh and null; Next is offered iff fresh data holds ten users |
| AdminRoute.RowsThrow | frontend/src/routes/_layout/admin.tsx:107 | mapping the rows throws iff the query has settled with a body whose data is null |
| AdminRoute.ScreenRenders | frontend/src/routes/_layout/admin.tsx:71-107 | the users screen renders iff neither the next-page test nor the row mapping throws |
| AdminRoute.PastTheLastPageBreaksScreen | frontend/src/routes/_layout/admin.tsx:71-107 | a page past the last user makes the screen throw |
| AdminRoute.PageWithUsersRenders | frontend/src/routes/_layout/admin.tsx:71-107 | a page holding users renders |
| AdminRoute.FullLastPageLeadsToBrokenScreen | frontend/src/routes/_layout/admin.tsx:71-107 | with a multiple of ten users the last full page offers Next, and the page it leads to throws |
| AdminRoute.RoleLabel | frontend/src/routes/_layout/admin.tsx:140-144 | superuser over admin over user, each iff its flags |
| AdminRoute.UserRowMenu | frontend/src/routes/_layout/admin.tsx:159-162 | the menu is disabled iff it is the viewer's own row; delete is enabled iff the viewer is a superuser or it is their own row |
| AdminRoute.OrdinaryViewerCannotDeleteHere | frontend/src/routes/_layout/admin.tsx:162 | a viewer who is not a superuser never reaches an enabled delete |
| AdminRoute.SuperUserReachesOtherRows | frontend/src/routes/_layout/admin.tsx:162 | a superuser may delete every other row |
| BlogRoute.PostsQuery | frontend/src/routes/_layout/blog.tsx:41-47 | seven posts per page from (page - 1) * 7 |
| BlogRoute.PostsHaveNextPage | frontend/src/routes/_layout/blog.tsx:69 | Next is offered iff fresh data is an array of exactly seven posts |
| BlogRoute.GalleryImages | frontend/src/routes/_layout/blog.tsx:113 | an array as is, a non-empty string as the only image, else none |
| BlogRoute.PostRows | frontend/src/routes/_layout/blog.tsx:104-135 | one row per post, or the single "no posts" row iff there are none |
| BlogRoute.SameListOnEveryPage | frontend/src/routes/_layout/blog.tsx:69 | the server ignores paging, so Next is offered on every page iff exactly seven posts exist |
| ItemsRoute.ItemsQueryFor | frontend/src/routes/_layout/items.tsx:56-66 | the request and cache key carry the language and page; seven per page |
| ItemsRoute.DistinctPagesAskDisjointRows | frontend/src/routes/_layout/items.tsx:56-66 | different pages of a language have different cache keys and request non-overlapping row windows |
| ItemsRoute.ItemsHaveNextPage | frontend/src/routes/_layout/items.tsx:91 | Next is offered iff fresh data is an array of exactly seven items |
| ItemsRoute.MatchesSearch | frontend/src/routes/_layout/items.tsx:110-113 | the lower-cased query occurs in the lower-cased title or in the lower-cased category |
| ItemsRoute.MatchesCategory | frontend/src/routes/_layout/items.tsx:115-116 | "all" matches every item; any other selection matches exactly that category |
| ItemsRoute.FilteredItems | frontend/src/routes/_layout/items.tsx:109-119 | a row is shown iff it matches the search and the category, in page order |
| ItemsRoute.InitialFilterKeepsEverything | frontend/src/routes/_layout/items.tsx:105-119 | the initial search shows the whole page |
| ItemsRoute.NonEmptyCategories | frontend/src/routes/_layout/items.tsx:123 | exactly the non-empty categories of the page |
| ItemsRoute.Categories | frontend/src/routes/_layout/items.tsx:122-124 | each non-empty category once |
| ItemsRoute.CategoriesInFirstAppearanceOrder | frontend/src/routes/_layout/items.tsx:122-124 | listed in order of first appearance |
| ItemsRoute.LanguageTabs.Sync | frontend/src/routes/_layout/items.tsx:255-261 | the tabs become the fetched languages |
| ItemsRoute.LanguageTabs.SelectTab | frontend/src/routes/_layout/items.tsx:313-318 | the clicked tab becomes active |
| ItemsRoute.LanguageTabs.OnNewLanguage | frontend/src/routes/_layout/items.tsx:298-302 | a new language is appended and becomes the active tab; a known one changes nothing; no duplicates appear |
| ItemsRoute.LanguageTabs.constructor | frontend/src/routes/_layout/items.tsx:255-256 | no tabs, and the first tab is active |
| ImageGallery.Thumbnails | frontend/src/components/Modals/ModalImageGallery.tsx:39 | `slice(0, n)` with a negative end counting from the back |
| ImageGallery.Badge | frontend/src/components/Modals/ModalImageGallery.tsx:54-66 | a badge only on thumbnail n-1 when images are hidden, counting them |
| ImageGallery.BadgeCountsTheRest | frontend/src/components/Modals/ModalImageGallery.tsx:39-66 | shown thumbnails plus the badge count are all the images; without hidden images no badge |
| ImageGallery.Gallery.Sync | frontend/src/components/Modals/ModalImageGallery.tsx:22-24 | a missing list reads as empty |
| ImageGallery.Gallery.OpenLightbox | frontend/src/components/Modals/ModalImageGallery.tsx:26-31 | opens at the index when there are images, else nothing |
| ImageGallery.Gallery.CloseLightbox | frontend/src/components/Modals/ModalImageGallery.tsx:33-35 | the lightbox is closed |
| ImageGallery.ClickedThumbnailIsASlide | frontend/src/components/Modals/ModalImageGallery.tsx:39-75 | a clicked thumbnail is a slide that exists |
| ImageGallery.Gallery.constructor | frontend/src/components/Modals/ModalImageGallery.tsx:17-19 | no images, the lightbox closed, index 0 |
| ImageGallery.Gallery.Slides | frontend/src/components/Modals/ModalImageGallery.tsx:75 | every image is a slide, in order, not only the thumbnails |
| EditPost.Split | frontend/src/components/Blog/EditPost.tsx:62-64 | at least one piece and no piece contains the separator |
| EditPost.JoinSplit | frontend/src/components/Blog/EditPost.tsx:62-64 | joining the pieces gives the string back |
| EditPost.SplitCount | frontend/src/components/Blog/EditPost.tsx:62-64 | one piece iff the string has no separator |
| EditPost.ExistingImages | frontend/src/components/Blog/EditPost.tsx:62-64 | an array as is, a non-empty string split on commas, else none |
| EditPost.DialogAndListAgreeWithoutCommas | frontend/src/components/Blog/EditPost.tsx:62-64 | the dialog and the list screen agree unless the stored string holds a comma |
| EditPost.EditPostForm.constructor | frontend/src/components/Blog/EditPost.tsx:58-81 | no pending files, the stored images, an undefined value, the post's position and a clean form |
| EditPost.EditPostForm.Open | frontend/src/components/Blog/EditPost.tsx:84-98 | opening resets the form (the position to the post's), the stored images and the pending files |
| EditPost.EditPostForm.Touch | frontend/src/components/Blog/EditPost.tsx:66-81 | an edited field makes the form dirty |
| EditPost.EditPostForm.EditPosition | frontend/src/components/Blog/EditPost.tsx:332-346 | the position input takes the typed value (none when cleared) and the form is dirty |
| EditPost.EditPostForm.AddFiles | frontend/src/components/Blog/EditPost.tsx:120-137 | chosen files are appended in order; no choice changes nothing |
| EditPost.EditPostForm.RemoveFile | frontend/src/components/Blog/EditPost.tsx:142-157 | exactly that file is removed; the value is undefined iff none is left |
| EditPost.EditPostForm.DeleteImage | frontend/src/components/Blog/EditPost.tsx:101-117 | a stored image leaves the list only after a successful delete |
| EditPost.EditPostForm.Submit | frontend/src/components/Blog/EditPost.tsx:185-340 | with the position empty or below 1 nothing is sent and nothing changes; otherwise the position and the pending files in order are sent, and success clears the files and resets the form |
| EditPost.PositionValid | frontend/src/components/Blog/EditPost.tsx:336-340 | a position is accepted iff it is filled in and at least 1 |
| EditPost.EditPostForm.SaveDisabled | frontend/src/components/Blog/EditPost.tsx:371 | Save is disabled iff the form is clean, no file is pending and no stored image is left |
| EditableImages.ImagesEditor.constructor | frontend/src/components/Items/EditableImages.tsx:35-36 | the stored images and no pending files |
| EditableImages.ImagesEditor.AddFiles | frontend/src/components/Items/EditableImages.tsx:40-49 | chosen files are appended; no choice changes nothing |
| EditableImages.ImagesEditor.RemoveFile | frontend/src/components/Items/EditableImages.tsx:51-56 | exactly that pending file is removed |
| EditableImages.ImagesEditor.DeleteImage | frontend/src/components/Items/EditableImages.tsx:58-67 | a stored image leaves the list only after a successful delete |
| EditableImages.ImagesEditor.Upload | frontend/src/components/Items/EditableImages.tsx:69-83 | no request with nothing pending; otherwise the files are sent in order and a success clears them |
| EditableImages.DeletedImageIsGone | frontend/src/components/Items/EditableImages.tsx:58-67 | the deleted URL is gone and every other image stays, in order |
| EditableProperties.EditableProps | frontend/src/components/Items/EditableProperties.tsx:36-40 | every entry except "ID" and "content_id", values unchanged |
| EditableProperties.EditablePropsIdempotent | frontend/src/components/Items/EditableProperties.tsx:36-40 | filtering twice is filtering once |
| EditableProperties.PropertiesEditor.constructor | frontend/src/components/Items/EditableProperties.tsx:33-44 | not editing, with the editable entries of the property |
| EditableProperties.PropertiesEditor.StartEditing | frontend/src/components/Items/EditableProperties.tsx:110-111 | edit mode is on |
| EditableProperties.PropertiesEditor.HandleChange | frontend/src/components/Items/EditableProperties.tsx:73-75 | one key takes the value, every other entry stays, and a shown key keeps the row keys out |
| EditableProperties.PropertiesEditor.HandleCancel | frontend/src/components/Items/EditableProperties.tsx:77-80 | the map is rebuilt from the property and edit mode ends |
| EditableProperties.PropertiesEditor.HandleSave | frontend/src/components/Items/EditableProperties.tsx:52-84 | the map is sent as is; success ends edit mode |
| EditableProperties.ChangeKeepsShownKeys | frontend/src/components/Items/EditableProperties.tsx:73-80 | editing a shown key keeps the row keys out and neither adds nor removes a field |
| SelectOptions.Selected | frontend/src/components/Items/Selectors/CategorySelector.tsx:55-56 | the first option with the value; an undefined value matches none |
| SelectOptions.Remember | frontend/src/components/Items/Selectors/CategorySelector.tsx:68-83 | one more option iff the value is defined, non-empty and new |
| SelectOptions.RememberAddsNoDuplicate | frontend/src/components/Items/Selectors/CategorySelector.tsx:68-83 | no value is added twice, and the new value is then an option |
| CategorySelector.Trim | frontend/src/components/Items/Selectors/CategorySelector.tsx:22-26 | no white space at either end; a string without any is unchanged |
| CategorySelector.CapitalizeFirst | frontend/src/components/Items/Selectors/CategorySelector.tsx:22-26 | only a leading word character is upper-cased |
| CategorySelector.NormalizeLabel | frontend/src/components/Items/Selectors/CategorySelector.tsx:22-26 | trim, lower-case, then upper-case a leading word character |
| CategorySelector.NormalizeLabelShape | frontend/src/components/Items/Selectors/CategorySelector.tsx:22-26 | a label is trimmed, as long as the trimmed input, lower case after its first character |
| CategorySelector.NormalizeLabelIdempotent | frontend/src/components/Items/Selectors/CategorySelector.tsx:22-26 | normalising twice is normalising once |
| CategorySelector.CategoryOptions | frontend/src/components/Items/Selectors/CategorySelector.tsx:37-45 | the categories with normalised captions, then the created ones |
| CategorySelector.CategoryPicker.constructor | frontend/src/components/Items/Selectors/CategorySelector.tsx:37 | no created options and the given field value |
| CategorySelector.CategoryPicker.OnChange | frontend/src/components/Items/Selectors/CategorySelector.tsx:68-83 | the field gets the trimmed value and a new non-empty one becomes an option |
| CategorySelector.ChangeSelectsTheValue | frontend/src/components/Items/Selectors/CategorySelector.tsx:55-83 | after a change to a non-empty value it is selected, and no value appears twice |
| LanguageSelector.LanguageOptions | frontend/src/components/Items/Selectors/LanguageSelector.tsx:30-36 | the codes captioned in upper case, then the created ones |
| LanguageSelector.LanguagePicker.constructor | frontend/src/components/Items/Selectors/LanguageSelector.tsx:28 | no created options and the given field value |
| LanguageSelector.LanguagePicker.OnChange | frontend/src/components/Items/Selectors/LanguageSelector.tsx:56-68 | the field gets the lower-cased value; a new one becomes an option captioned in upper case |
| LanguageSelector.KnownCodeInAnyCase | frontend/src/components/Items/Selectors/LanguageSelector.tsx:46-68 | a known code typed in any case selects it and creates nothing |
| LanguageSelector.CreatedCaptionIsUpperValue | frontend/src/components/Items/Selectors/LanguageSelector.tsx:56-68 | a created option's caption is its value upper-cased |

## Left out

- SQL, GORM and driver errors are not modelled. This covers failed queries, failed saves, the login limiter's "DB error" 500 and the bucket client's own failures. Only the outcomes the code derives from the data are modelled; bucket failure is a parameter.
- Time zones are left out: calendar dates are converted to Europe/Warsaw only for display, which does not change any instant.
- Prices are floating point and are carried as opaque payload.
- bcrypt hashing failures are left out: the hash is a total function parameter.
- Unique constraints of the database are left out; the model does not reject a duplicate e-mail.
- LoginLimiter.BanMinutes: the hundred-year ban is a fixed number of minutes, not calendar arithmetic.
- LoginLimiter.LoginLimiterMiddleware: the time in the 429 message is not formatted. Requests are modelled one at a time, so the table holds one row per (e-mail, IP) pair and no increment is lost. The source reads the row, runs the handler and then creates or saves it, with no unique index on the pair; concurrent failed logins can create duplicate rows or overwrite each other's count, which can postpone the 3/6/9 bans that FailuresFromScratch and ThirdFailureBans prove for sequential requests.
- MediaUtils.ParseUrl: the authority checks of `url.Parse` (user info, host escapes, IPv6 brackets, port syntax) are not modelled. URLs such as `http://a:b/x` or `http://[::1/x` parse here although Go refuses them, so ExtractFileNameFromURL gives `x` where the source gives "" and RootedUrlWithScheme also holds for such URLs. The public URLs the upload builds have a fixed, valid host, so the round trip is unaffected.
- The clock and the client IP are parameters.
- Case mapping and `trim` cover ASCII only; Unicode case folding and white space are not modelled.
- Strings are sequences of characters, and byte encodings are not modelled.
- EditPost.EditPostForm.Touch: react-hook-form's `isDirty` compares the values with the defaults; the model keeps one flag that any edit or `setValue(…, {shouldDirty: true})` sets.
- React Query caching, placeholder data and refetching are left out. `isPlaceholder` is an input to the next-page test.
- The order of rows that tie on position is left to the database; the model's sort picks one order.
- The order of `SELECT DISTINCT` is left to the database; the model lists first appearances.
- UserRepository.GetAllUsers: the model follows PostgreSQL's handling of a limit of 0 (no rows). Some GORM versions drop a zero LIMIT clause.
- Strconv.Atoi: the out-of-range error of 64-bit parsing is not modelled; integers are unbounded.
- RequestUser.CurrentUser: the per-request user cache is left out; it returns what the lookup would.
- The "Invalid user ID format" 500 cannot happen, because the auth middleware always stores a UUID, so it is not modelled.
- The handlers ReadUserMe, ReadUserById, UpdateCurrentUser and CreateUser of the user module are not part of this model; their repository calls are.
- The display label of a language code is left out, because it only affects what is shown.
- Page navigation keeps the other search parameters; the model keeps only the page.
- Fractional page numbers from the URL are not modelled; pages are integers.
- The `isDisabled` prop of the post edit dialog is never read by the component, so it is not modelled.
- Toasts, object-URL revocation and focus handling have no state the model needs.
- ImageGallery.Gallery.Sync: an open lightbox is not closed when the images become empty, as in the component. Slides are then an empty list.
- Network calls from the frontend are left out. Their success is an input to the handlers that react to it.
