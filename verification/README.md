# Marketplace client: state transitions and the browse pipeline

This project models the deterministic core of a marketplace web client. On
the client, customers browse service listings, book them and chat with
providers. Nearly everything the client does is a call to its remote
back end (authentication, a document store, blob storage). What remains, and
what is modelled here, falls into four parts:

- **The state slices** are the Redux reducers for services, bookings, chat
  and auth, plus a placeholder services slice.
  - Each reducer is a pure function `Reduce(state, action)`. In the four
    main slices the state is a `Lifecycle.Slice` holding the slice's data,
    an `isLoading` flag and an `error` message. The placeholder slice
    declares its own record of the same three fields
    (`MockServicesSlice.State`), as its source file declares its own state
    interface.
  - Every asynchronous operation ("thunk") goes through `pending`, then
    `fulfilled` or `rejected`. These steps are modelled as actions.
  - The list updates work on sequences of id-keyed records: append,
    replace-first-by-id, remove-all-by-id, append-if-id-absent and
    mark-read-by-id.
- **The pure parts of the thunks** are:
  - the records they build (a new listing, account, conversation or
    message);
  - their not-found branches;
  - the lookup-or-create of a conversation, over the stored conversations
    given as a sequence.

  Every remote outcome is a parameter. A `Read` is found, missing or failed.
  A `Write` is written (with the id or URL it produced) or failed.
- **The browse page pipeline** filters the loaded listings in order: by
  category, by a case-insensitive search, then by an inclusive price range.
  It then sorts them in one of five orders. The page's filter handlers are
  modelled too.
- **The route guard** decides between a spinner, a redirect to the login
  page, or the guarded page.

Modules follow the source files. The shared modules are:
- `Common`: option, result and remote-outcome types.
- `Seqs`: order-preserving filter and stable insertion sort.
- `Text`: ASCII lower-casing and substring search.
- `IdList`: id-keyed list operations.
- `Lifecycle`: the state template shared by the four main slices.

Dates are `nat` timestamps, prices and amounts are `int`, and ratings are
`real`. Document ids are opaque strings.

Some behaviours of the code are easy to misread, and the model keeps them
as written:
- **Pending and the error.** Every `pending` case clears the error except
  `signOut.pending` (src/features/auth/authSlice.ts:184-186), which only
  raises `isLoading`; an earlier error stays visible
  (`AuthSlice.SignOutKeepsStaleError`).
- **Booking status.** `cancelBooking` writes `cancelled` over any status,
  `completed` included (src/features/bookings/bookingsSlice.ts:141;
  `BookingsSlice.CancelWrite`). No code anywhere restricts booking status
  transitions.
- **Unread count.** `sendMessage` stores the literal 1 as the unread count
  (src/features/chat/chatSlice.ts:153), although the comment on that line
  says "Increment" (`ChatSlice.UnreadStaysOne`).
- **Message type.** The message interface has no conversation id. The code
  writes one on every send and queries by it, so `Types.Message` carries
  `conversationId`.
- **Rejection fallback.** In the placeholder slice the fallback message
  "Failed to fetch services" is chosen with JavaScript `||`. It therefore
  replaces an empty message as well as an absent one.

## Model

| member | source | states |
|---|---|---|
| Lifecycle.Start | src/features/services/servicesSlice.ts:192-195 | every pending case: loading, no error, data untouched |
| Lifecycle.Fail | src/features/services/servicesSlice.ts:200-203 | every rejected case: not loading, the message stored, data untouched |
| Lifecycle.Settle | src/features/services/servicesSlice.ts:196-199 | every fulfilled case: not loading, the new data in place, the error as it was |
| Lifecycle.ClearError | src/features/services/servicesSlice.ts:185-187 | the `clearError` reducer: no error, loading flag and data untouched |
| Types.ParseUserType | src/types/index.ts:6 | exactly "customer" and "provider" name a user type, each the one it spells |
| Types.UserTypeRoundTrip | src/types/index.ts:6 | parsing the wire name of a user type gives it back |
| Types.ParseBookingStatus | src/types/index.ts:64 | exactly the four status strings name a booking status, each the one it spells |
| Types.BookingStatusRoundTrip | src/types/index.ts:64 | parsing the wire name of a booking status gives it back |
| Types.ParsePaymentStatus | src/types/index.ts:65 | exactly "pending", "paid" and "refunded" name a payment status, each the one it spells |
| Types.PaymentStatusRoundTrip | src/types/index.ts:65 | parsing the wire name of a payment status gives it back |
| IdList.ReplaceFirst | src/features/services/servicesSlice.ts:251-254 | `findIndex` then assignment: the first element with the record's id is replaced and nothing else changes; without a match the list is unchanged |
| IdList.FindIndex | src/features/services/servicesSlice.ts:251-252 | `findIndex` by id: absent exactly when no element has the id, else the first position holding it |
| IdList.ReplaceFirstIdempotent | src/features/services/servicesSlice.ts:249-255 | applying the same update payload twice leaves the list as applying it once |
| IdList.ReplaceFirstKeepsUnique | src/features/services/servicesSlice.ts:251-254 | replacing by id keeps ids distinct |
| IdList.RemoveAll | src/features/services/servicesSlice.ts:268 | filtering by `id !==`: no element with the id is left, every other element is kept with its multiplicity |
| IdList.RemoveAllConcat | src/features/services/servicesSlice.ts:268 | removal by id keeps the survivors in order (distributes over concatenation) |
| IdList.RemoveAllIdempotent | src/features/services/servicesSlice.ts:268 | removing an id twice is removing it once |
| IdList.AppendIfAbsent | src/features/chat/chatSlice.ts:246-249 | `some` then `push`: the id is present afterwards; the list grows by the record exactly when the id was absent |
| IdList.ModifyFirst | src/features/chat/chatSlice.ts:297-300 | only the first element with the id is changed, by the given update |
| Seqs.Filter | src/pages/Services.tsx:47 | `Array.prototype.filter`: each element kept with its multiplicity exactly when it passes |
| Seqs.FilterConcat | src/pages/Services.tsx:47 | the survivors keep their order (filter distributes over concatenation) |
| Seqs.FilterFuse | src/pages/Services.tsx:43-63 | two filters in a row are one filter by the conjunction |
| Seqs.SortBy | src/pages/Services.tsx:66-81 | `Array.prototype.sort` with a numeric comparator: the result is sorted by the key and a permutation of the input |
| Seqs.SortByStable | src/pages/Services.tsx:66-81 | the sort is stable: the elements of any one key appear in input order |
| Text.Lower | src/pages/Services.tsx:52 | ASCII `toLowerCase`: same length, each character lowered |
| Text.LowerIdempotent | src/pages/Services.tsx:52-56 | lowering an already lowered string changes nothing |
| Text.Contains | src/pages/Services.tsx:55-56 | `includes` holds exactly when the term occurs at some position |
| ServicesSlice.Created | src/features/services/servicesSlice.ts:235-239 | the list grows by exactly one, old elements first and the payload last; the payload becomes current |
| ServicesSlice.Updated | src/features/services/servicesSlice.ts:249-256 | the first listing with the payload's id is replaced and every other index kept; without a match the list is unchanged; the payload becomes current |
| ServicesSlice.Deleted | src/features/services/servicesSlice.ts:266-272 | every listing with the id is removed, the rest kept; the current listing is cleared exactly when it has that id |
| ServicesSlice.Reduce | src/features/services/servicesSlice.ts:178-278 | pending sets loading, clears the error and keeps the data; rejected stores the message and keeps the data; the two list fetches replace the list wholesale; each clear reducer touches only its own field |
| ServicesSlice.FailedAttemptKeepsData | src/features/services/servicesSlice.ts:189-276 | pending then rejected changes only the two flags |
| ServicesSlice.ReducePreservesUniqueIds | src/features/services/servicesSlice.ts:178-278 | distinct listing ids are an invariant of the reducer under payloads with fresh ids |
| ServicesSlice.DeleteUndoesCreate | src/features/services/servicesSlice.ts:235-272 | deleting a just-created listing with a fresh id restores the list and clears the current listing |
| ServicesSlice.DeleteIdempotent | src/features/services/servicesSlice.ts:266-272 | a second delete of the same id changes nothing |
| ServicesSlice.NewServiceRecord | src/features/services/servicesSlice.ts:108-121 | a new listing has rating 0 and review count 0, the stored id, the uploaded image URL and the draft's fields |
| ServicesSlice.CreateServiceResult | src/features/services/servicesSlice.ts:95-126 | fulfils exactly when both the upload and the write succeed, with the new record; otherwise rejects with the first failure's message |
| ServicesSlice.FetchServiceByIdResult | src/features/services/servicesSlice.ts:73-92 | an existing document fulfils under the requested id; a missing one rejects with "Service not found"; a failed read rejects with its message |
| ServicesSlice.CreateReachesList | src/features/services/servicesSlice.ts:95-126 | a created listing ends up last in the list and on display, under the store's id, rated 0 with no reviews; a failure keeps the data and shows the first failure's message; a fresh id keeps ids unique |
| ServicesSlice.FetchServiceByIdReaches | src/features/services/servicesSlice.ts:73-92 | a found listing goes on display under the requested id; a missing one keeps the data and shows "Service not found"; a failed read shows its message |
| BookingsSlice.Created | src/features/bookings/bookingsSlice.ts:213-217 | exactly one booking is appended at the end and becomes current |
| BookingsSlice.Replaced | src/features/bookings/bookingsSlice.ts:227-251 | the first booking with the payload's id is replaced and every other index kept; without a match the list is unchanged; the payload becomes current |
| BookingsSlice.Reduce | src/features/bookings/bookingsSlice.ts:156-257 | the lifecycle cases as in the services slice; both bookings fetches replace the list; update and cancel both replace by id; clearing the current booking touches nothing else |
| BookingsSlice.FailedAttemptKeepsData | src/features/bookings/bookingsSlice.ts:170-181 | pending then rejected changes only the two flags |
| BookingsSlice.ReducePreservesUniqueIds | src/features/bookings/bookingsSlice.ts:156-257 | distinct booking ids are an invariant of the reducer under payloads with fresh ids |
| BookingsSlice.CancelWrite | src/features/bookings/bookingsSlice.ts:141 | the status becomes cancelled whatever it was, and no other field changes |
| BookingsSlice.CancelBookingResult | src/features/bookings/bookingsSlice.ts:136-154 | fulfils exactly when the write succeeds, with the re-read booking under the requested id and status cancelled |
| BookingsSlice.CancelReachesList | src/features/bookings/bookingsSlice.ts:136-251 | after a cancel the first listed booking with the id becomes the stored booking, possibly newer than the local copy, with status cancelled, completed included; no other booking changes |
| BookingsSlice.FetchBookingByIdResult | src/features/bookings/bookingsSlice.ts:71-90 | an existing document fulfils under the requested id; a missing one rejects with "Booking not found"; a failed read rejects with its message |
| BookingsSlice.FetchBookingByIdReaches | src/features/bookings/bookingsSlice.ts:71-90 | a found booking goes on display under the requested id; a missing one keeps the data and shows "Booking not found"; a failed read shows its message |
| ChatSlice.Resolved | src/features/chat/chatSlice.ts:241-250 | the payload becomes current; it joins the list exactly when no listed conversation has its id |
| ChatSlice.Sent | src/features/chat/chatSlice.ts:273-282 | the message is appended; an open conversation takes its content and timestamp and keeps its id, participants and unread count |
| ChatSlice.MarkRead | src/features/chat/chatSlice.ts:296-301 | a local message is marked read exactly when it is the first with its id and some payload message has that id; every other message is unchanged |
| ChatSlice.MarkedRead | src/features/chat/chatSlice.ts:292-307 | the read flags as above, and the open conversation's unread count becomes 0 |
| ChatSlice.Reduce | src/features/chat/chatSlice.ts:203-313 | the lifecycle cases; clearing the conversation empties the messages; adding a message appends exactly one |
| ChatSlice.FailedAttemptKeepsData | src/features/chat/chatSlice.ts:224-311 | pending then rejected changes only the two flags |
| ChatSlice.ResolveIdempotent | src/features/chat/chatSlice.ts:241-250 | resolving a conversation twice is resolving it once |
| ChatSlice.ResolveKeepsIdsUnique | src/features/chat/chatSlice.ts:241-250 | resolving never introduces a duplicate conversation id |
| ChatSlice.Query | src/features/chat/chatSlice.ts:63-68 | the query selects exactly the stored conversations whose participants contain the user |
| ChatSlice.FirstInvolving | src/features/chat/chatSlice.ts:70-72 | `find`: nothing exactly when no conversation includes the other user, else the first one that does, with none before it including them |
| ChatSlice.FirstWithBoth | src/features/chat/chatSlice.ts:64-72 | reference: nothing exactly when no stored conversation has both users, else the first stored conversation with both |
| ChatSlice.LookupFindsFirstWithBoth | src/features/chat/chatSlice.ts:64-72 | query-by-user then find-other returns the first stored conversation with both users |
| ChatSlice.FirstWithBothSymmetric | src/features/chat/chatSlice.ts:64-72 | the lookup does not depend on which user is asked first |
| ChatSlice.NewConversation | src/features/chat/chatSlice.ts:76-87 | a new conversation has participants [user, other], an empty preview and unread count 0 |
| ChatSlice.FetchOrCreate | src/features/chat/chatSlice.ts:58-95 | the first stored conversation with both users if any; otherwise a new one under the id the store assigns, or the write's failure |
| ChatSlice.AppendedIsFirstWithBoth | src/features/chat/chatSlice.ts:75-88 | a conversation created when none had both users is then the one found |
| ChatSlice.InsertedIsFirstWithBoth | src/features/chat/chatSlice.ts:64-88 | a conversation created when none had both users is the one found next, wherever the unordered query returns it |
| ChatSlice.FetchOrCreateIsStable | src/features/chat/chatSlice.ts:58-95 | a second call for the same pair, in either order and with nothing in between, finds the first call's conversation and creates nothing, wherever the store places the new conversation |
| ChatSlice.NewMessage | src/features/chat/chatSlice.ts:137-159 | a sent message is unread and carries the given ids, content and time |
| ChatSlice.AfterSend | src/features/chat/chatSlice.ts:149-154 | after a send the stored preview is the message and the unread count is 1 |
| ChatSlice.UnreadStaysOne | src/features/chat/chatSlice.ts:149-154 | after any non-empty run of sends the unread count is 1, not the number sent, and the preview is the last message |
| ChatSlice.SendMessageResult | src/features/chat/chatSlice.ts:122-164 | fulfils exactly when both writes succeed, with the new message; otherwise rejects with the first failure's message |
| ChatSlice.AllRead | src/features/chat/chatSlice.ts:192-196 | each returned message is the stored one with the read flag set |
| ChatSlice.ReadReceipts | src/features/chat/chatSlice.ts:172-196 | every stored unread message of the conversation addressed to the user is among the receipts, and every receipt is such a stored message with only its read flag set |
| ChatSlice.MarkReadClearsUnread | src/features/chat/chatSlice.ts:167-306 | provided local message ids are distinct and every awaiting local message was loaded from the store: after marking read with the receipts, no local message of the conversation awaits the user, and the open conversation's unread count is 0 |
| AuthSlice.Reduce | src/features/auth/authSlice.ts:131-196 | pending of register and both sign-ins sets loading and clears the error; signOut.pending keeps the error; fulfilled sign-ins set the account; sign-out clears it; rejected stores the message and keeps the account; setUser and clearError touch only their field |
| AuthSlice.FailedAttemptKeepsUser | src/features/auth/authSlice.ts:145-194 | a failed attempt of any auth operation keeps whoever was signed in |
| AuthSlice.SignOutKeepsStaleError | src/features/auth/authSlice.ts:184-190 | an earlier error survives a successful sign-out |
| AuthSlice.RegisteredAccount | src/features/auth/authSlice.ts:43-50 | the registered account is keyed by the uid, with the form's name and role, and an empty string for a missing email or photo |
| AuthSlice.GoogleAccount | src/features/auth/authSlice.ts:99-106 | the synthesised account is keyed by the uid and is a customer; missing profile fields become empty strings |
| AuthSlice.SignInResult | src/features/auth/authSlice.ts:67-80 | the stored account fulfils; none rejects with "User data not found"; a failed read rejects with its message |
| AuthSlice.GoogleSignInResult | src/features/auth/authSlice.ts:89-111 | the stored account if any; otherwise the synthesised customer once written, or the write's failure |
| AuthSlice.RegistrationSignsIn | src/features/auth/authSlice.ts:27-60 | a registration signs in the account just written, keyed by the uid with the chosen role and name |
| AuthSlice.SignInReaches | src/features/auth/authSlice.ts:63-82 | a stored profile is signed in; a missing one keeps the previous account and shows "User data not found"; a failed read shows its message |
| AuthSlice.GoogleSignInReaches | src/features/auth/authSlice.ts:85-116 | a returning user gets the stored profile; a newcomer is signed in as a customer keyed by the uid once saved; a failed save keeps the previous account and shows the failure |
| MockServicesSlice.MockServices | src/store/slices/servicesSlice.ts:33-58 | exactly two listings, ids "1" and "2" |
| MockServicesSlice.Reduce | src/store/slices/servicesSlice.ts:62-81 | pending sets loading and clears the error; fulfilled replaces the list; rejected keeps the list and stores the message, or "Failed to fetch services" when it is absent or empty |
| MockServicesSlice.RejectionAlwaysExplained | src/store/slices/servicesSlice.ts:76-79 | a rejection always leaves a non-empty message |
| MockServicesSlice.FetchLoadsMockListings | src/store/slices/servicesSlice.ts:29-75 | a fetch from the initial state ends with the two listings and no error |
| ServicesPage.ParseSortOrder | src/pages/Services.tsx:66-84 | each of the five known sort keys selects its order; anything else selects none |
| ServicesPage.VisibleTestIsVisible | src/pages/Services.tsx:46-63 | the effect's filter callbacks agree with the stated visibility rule |
| ServicesPage.Selected | src/pages/Services.tsx:43-63 | the filtered listings are exactly the visible loaded ones, each with its multiplicity |
| ServicesPage.PipelineIsSelected | src/pages/Services.tsx:43-63 | category, search and price filters in a row select what one pass by the visibility rule selects, in loaded order |
| ServicesPage.Order | src/pages/Services.tsx:66-84 | a permutation sorted per order: newest and rating non-increasing, oldest and price-low non-decreasing, price-high non-increasing; unknown keeps the order |
| ServicesPage.OrderIsStable | src/pages/Services.tsx:66-84 | listings that tie on the order's key keep their filtered order; with an unknown key all tie and nothing moves |
| ServicesPage.Browse | src/pages/Services.tsx:41-88 | every shown listing is loaded and visible and every visible one is shown; a permutation of the filtered subsequence; category, search and inclusive price hold; sorted per the key; an unknown key keeps the filtered order |
| ServicesPage.BrowseIsStable | src/pages/Services.tsx:41-88 | shown listings that tie on the sort key appear in loaded order |
| ServicesPage.BrowseEffect | src/pages/Services.tsx:41-88 | with no listings loaded the shown listings keep their previous value |
| ServicesPage.SearchIgnoresCase | src/pages/Services.tsx:51-58 | two terms that lower-case alike show the same listings in the same order |
| ServicesPage.SearchByLoweredTerm | src/pages/Services.tsx:51-58 | searching for a term and for its lower-cased form shows the same listings in the same order |
| ServicesPage.EmptyRangeShowsNothing | src/pages/Services.tsx:61-63 | a minimum above the maximum shows nothing |
| ServicesPage.ChangePriceRange | src/pages/Services.tsx:107-113 | only the named bound changes, to the parsed number or 0 when it does not parse |
| ServicesPage.PriceRangeChanges | src/pages/Services.tsx:107-113 | changing the two bounds commutes; changing one bound twice keeps the second value |
| ServicesPage.ClearFilters | src/pages/Services.tsx:119-126 | the filters return to empty term and category, range 0 to 1000, newest first |
| ServicesPage.ClearedFiltersShowAffordableNewestFirst | src/pages/Services.tsx:119-126 | `Browse` under the cleared filters yields exactly the loaded listings priced 0 to 1000, newest first; the page shows that when some listing is loaded, and keeps its previous listings when none is |
| ProtectedRoute.Guard | src/components/ProtectedRoute.tsx:10-29 | spinner exactly while loading; otherwise a redirect to "/login" exactly without an account, the children exactly with one |
| ProtectedRoute.SignInOpensGuardedPages | src/components/ProtectedRoute.tsx:10-29 | a successful sign-in of either kind shows the guarded page; a sign-in with a missing profile sends a signed-out visitor to the login page |
| ProtectedRoute.GuardFollowsAuth | src/components/ProtectedRoute.tsx:10-29 | any auth operation in flight shows the spinner; after sign-out the visitor is redirected; after any sign-in the page shows; a failed attempt leaves the decision to the prior account |

## Left out

- **Remote I/O.** Every remote call is left out: authentication, document
  reads, writes, queries and deletes, and blob uploads. Their outcomes are
  parameters (`Read`, `Write`, or an abstract payload). This includes the
  list queries behind the fetch thunks and the auth provider's sign-out.
- **Clock values.** `new Date()` and `Date.now()` become a `now: nat`
  parameter.
- **Concurrency.** Both of these are about asynchronous scheduling:
  - the read-then-create race in `fetchOrCreateConversation`;
  - thunks settling out of order.
- ChatSlice.FetchOrCreateIsStable: proves one conversation per pair only
  for calls that do not overlap, because the race is not modelled. The new
  conversation may sit anywhere in the store's answer; the lemma covers
  every position.
- **Subscription plumbing.** The auth-state listener and route table of
  `src/App.tsx` and the store aggregator of `src/features/store.ts` are
  left out.
- **Presentational pages.** These are the other pages and the header.
- **URL parameters.** The browse page's effects and handlers on the URL
  parameters (the category from the URL, `handleCategoryChange`) are left
  out, because reading and writing URL parameters is I/O.
- **Listing and booking records.** The partial merge of `updateService` /
  `updateBooking` is left out, and so is the record `createBooking` writes.
  Their fulfilled payloads are abstract.
- **Numbers.** Floating-point prices and ratings become `int` and `real`.
  `parseInt` is reduced to a parse result that is present or absent.
  Lower-casing maps only the ASCII letters A-Z: JavaScript's
  `toLowerCase` also lowers non-ASCII letters (`'É'` becomes `'é'`), which
  `Text.Lower` leaves unchanged.
- ServicesSlice.FetchServiceByIdResult: assumes stored documents carry no
  `id` field of their own. In the source the spread of the document data
  comes after the id, so a stored `id` field would win.
- BookingsSlice.FetchBookingByIdResult: the same assumption about a stored
  `id` field.
- BookingsSlice.CancelBookingResult: assumes the re-read after the status
  write succeeds, and assumes the same about a stored `id` field.
- ChatSlice.MarkReadClearsUnread: promises nothing when a message id is
  held twice locally. `addMessage` and `sendMessage.fulfilled` push without
  checking ids, and `markMessagesAsRead.fulfilled` marks only the first copy
  it finds, so a second copy can stay unread.
- **Review.** The review record is declared, but no code operates on it.
- **Status transitions.** No code restricts which booking status may
  follow which, so there is no transition relation to model.
