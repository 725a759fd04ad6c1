# Waste-zero backend: a Dafny model of its decision rules

The waste-zero backend is a Django REST service. Donors give away food,
merchants sell surplus offers, consumers order them, and users earn and
trade points. This project models the rules inside its views, models and
serializers:

- the points ledger: add points, transfer points, and the leaderboard;
- the donation state machine: reservation and the status patch, the
  `save` hook that rewards the donor, and the scoping of the list views;
- the status patch that orders, offers, notifications and transactions all
  repeat, written once and parameterised by each entity's `STATUS_CHOICES`,
  together with the conjunctive list filters and the bulk "mark all read";
- the permission classes, the older authentication check, and the
  middleware that gates e-mail verification;
- the response envelope `format_response`, the token-expiry check, and the
  user serializer's create, partial update and login decision.

Each database table is a `map<int, Record>` keyed by primary key. A table
the handlers change is a field of a class, and each handler is a method
with a `modifies` clause. A handler returns an `Outcome`: either its value,
or a `Failure` with the HTTP kind (400, 401, 403, 404 or 500) and the
`errors` dict the envelope carries. Every handler is proved to change
nothing when it fails, except where the source writes before it fails:
the donation handlers as written store the row and then answer 500 (see
"Findings").

Request payloads are maps from field names to `Python.Value`, a decoded
JSON value. The model therefore keeps Python's truthiness, `int()` (with
its ValueError and TypeError) and the "string versus number" comparisons
the views make. Times and today's date are integer parameters. Decimal
prices and amounts are integer cents.

Modules, one per file:

- `Python`: values, truthiness, `int()`, `str(n)`, `join`, `lower`.
- `Http`: outcomes and failures.
- `Utils`: the envelope and the token expiry.
- `Permissions`, `Middleware`.
- `StatusGuard`: the shared status patch and `filter()`.
- `Points`, `Donations`, `Orders`, `Offers`, `Notifications`,
  `Transactions`, `Users`.

`core/utils.py` holds a second `format_response` with the same body as
`core/utils/utils.py`, so it is modelled once, by `Utils.FormatResponse`.

## Model

| member | source | states |
|---|---|---|
| Python.ToInt | core/points/views.py:77-87 | `int(v)`: integers convert to themselves; None, lists and dicts raise TypeError; any other failure is a ValueError |
| Python.IntRoundTrip | core/donations/views.py:462 | `int(str(n)) == n` for every integer, so an id the server writes as text reads back as the same key |
| Http.KeyLookup | core/points/views.py:158-167 | a payload value used as an integer key: None selects no row; otherwise the key is `int(v)`, and an `int()` failure ends in the 500 |
| Http.Denied | core/utils/permissions.py:14-21 | a refused permission check becomes a 401 exactly when it raised NotAuthenticated, and a 403 exactly when it raised PermissionDenied |
| Utils.FormatResponse | core/utils/utils.py:9-35 | `success` is always present; `errors` is present iff errors are truthy; `data` is present iff there are no errors and data is truthy; `message` is present iff truthy; no other key; the status code passes through |
| Utils.ErrorsExcludeData | core/utils.py:22-25 | no envelope carries both `errors` and `data` |
| Utils.EmptyListHasNoData | core/utils/utils.py:29-30 | a successful empty listing has no `data` key |
| Utils.IsTokenExpired | core/utils/utils.py:41-44 | a missing creation time is expired; otherwise the token is expired iff more than one day has passed |
| Utils.TokenExpiryMonotone | core/utils/utils.py:44 | an expired token stays expired later; a token exactly one day old is not expired |
| Permissions.PermissionDenied | core/utils/permissions.py:41-47 | a 403 whose detail envelope has `success` false, `permission` as its only error, and no `data` |
| Permissions.CustomIsAuthenticated | core/utils/permissions.py:14-31 | allows iff a user is present and authenticated; otherwise raises NotAuthenticated with `error`, `success` false and `data` None |
| Permissions.LegacyIsAuthenticated | core/permissions.py:8-15 | allows iff a user is present and authenticated; otherwise raises PermissionDenied with `success` false and `data` None |
| Permissions.AuthenticationComesFirst | core/utils/permissions.py:39 | every derived predicate answers an unauthenticated caller with exactly the NotAuthenticated of `CustomIsAuthenticated`, whatever the object or method |
| Permissions.AdminUserIgnoresFlags | core/utils/permissions.py:38-48 | `IsAdminUser` allows iff the role is administrator; the staff and superuser flags make no difference |
| Permissions.SelfOrAdminExactly | core/utils/permissions.py:55-68 | `IsSelfOrAdmin` allows iff the caller is an administrator or the object is the caller's own User |
| Permissions.SuperAdminIsSuperuser | core/utils/permissions.py:76-87 | `IsSuperAdmin` allows iff `is_superuser`; the role makes no difference |
| Permissions.ReadOnlyForNonStaff | core/utils/permissions.py:95-109 | safe methods are always allowed; a write is allowed iff the caller is staff |
| Permissions.OwnerOrAdminExactly | core/utils/permissions.py:117-131 | `IsOwnerOrAdmin` allows iff the caller is staff or superuser or the object's `user` is the caller; an object without `user` is refused |
| Permissions.MerchantNeverMatchesUser | core/utils/permissions.py:146 | a merchant's own offer, whose `merchant` is a Merchant profile, is refused by the as-written check and allowed by the corrected one |
| Permissions.MerchantOwnerByKeyExactly | core/utils/permissions.py:138-155 | the corrected merchant check allows iff the caller is an administrator or staff, or the offer's merchant key is the caller's id |
| Permissions.DonationAccessExactly | core/donations/views.py:20-37 | donation access is allowed iff the caller is an administrator, staff, the donor, or the bound recipient; a refusal is a PermissionDenied |
| Permissions.LegacyDiffersOnlyInKind | core/permissions.py:9-10 | the older check accepts exactly the callers the current one accepts; it refuses with PermissionDenied where the current one raises NotAuthenticated |
| Middleware.Call | core/utils/middleware.py:7-12 | the rest of the stack answers iff the request is not blocked; a blocked request raises PermissionDenied("Please verify your email address first") and `get_response` is not called |
| Middleware.WhoPassesThrough | core/utils/middleware.py:8-10 | anonymous requests and verified users always pass; an unverified user passes iff the path is one of the three exempt paths |
| StatusGuard.ChoiceValues | core/orders/views.py:229 | the list of values has one entry per choice, in declaration order |
| StatusGuard.CheckStatus | core/orders/views.py:219-237 | accepts iff `status` is present and is one of the values; a missing `status` is the 400 "This field is required"; any other value is the 400 "Must be one of: ..." |
| StatusGuard.InvalidStatusListsChoices | core/orders/views.py:231-233 | the 400 message for an unknown status contains every valid value |
| StatusGuard.PatchDecision | core/orders/views.py:215-263 | a status patch checks permission (401), then existence (404 "Entity not found"), then the guard; an accepted value is one of the choices and the row exists |
| StatusGuard.ChoicesListing | core/orders/views.py:339-340 | one `{value, display}` entry per choice, in declaration order |
| StatusGuard.ListingMatchesGuard | core/orders/views.py:339-340 | a value is listed iff the status patch accepts it |
| StatusGuard.Where | core/offers/views.py:76-94 | `filter(p)` keeps exactly the rows satisfying `p`, unchanged |
| StatusGuard.Narrow | core/offers/views.py:76-86 | `if given: filter(p)`: without the parameter every row stays, with it exactly the rows satisfying `p`, unchanged |
| StatusGuard.WhereWhere | core/offers/views.py:76-94 | chained filters select the rows that meet all conditions |
| Points.NewPoint | core/points/models.py:7 | a new row has balance 0 |
| Points.Credited | core/points/models.py:10-12 | `add_points`: the balance grows by exactly the amount, the owner stays, and `last_updated` becomes now |
| Points.PositiveAmount | core/points/views.py:77-87 | accepts iff `int(amount)` succeeds and is positive, returning it; a ValueError or a non-positive amount is the 400 "Must be a positive integer"; a TypeError is the 500 |
| Points.AmountForms | core/points/views.py:78 | an amount sent as a number and the same amount sent as its decimal string are judged alike |
| Points.AddPointsCheck | core/points/views.py:65-104 | the order of checks: permission (401), then the row (404 "Point record not found"), then a missing `amount` (400), then the amount check |
| Points.MissingErrors | core/points/views.py:135-143 | the 400 names exactly the missing fields among from_user_id, to_user_id and amount |
| Points.FindRow | core/points/views.py:158-167 | a key that converts and has a row finds exactly that row; a missing row or a None key is the 404 "One or both users not found"; an unconvertible key is the 500 |
| Points.TransferCheck | core/points/views.py:132-176 | the checks in source order, each with its own answer: 401; the 400 naming the missing fields; the amount's 400 (or 500); the source lookup's 404 (or 500); the target lookup's; and a transfer is accepted only when all pass and the source has enough points |
| Points.TransferCheckAccepts | core/points/views.py:145-176 | conversely, a complete request that resolves, from a source with enough points, is accepted with exactly those values |
| Points.TransferCheckInsufficient | core/points/views.py:170-176 | a resolved request whose source balance is below the amount is the 400 "Insufficient points" |
| Points.Rewarded | core/donations/models.py:24-25 | crediting a user adds the amount to their balance, creating the row at zero if missing, and leaves every other row alone |
| Points.RewardsAccumulate | core/donations/models.py:21-25 | repeated credits add up |
| Points.TotalUpdate | core/points/views.py:182 | saving one row changes the sum of balances by that row's change |
| Points.TotalInsert | core/donations/models.py:25 | adding a row adds its balance to the sum |
| Points.PointLedger.AddPointsTo | core/points/models.py:10-12 | `add_points` on one row: only that row changes, by `Credited`, and the sum grows by the amount |
| Points.PointLedger.Reward | core/donations/models.py:24-25 | the donor reward: the ledger becomes `Rewarded` and the sum grows by the amount |
| Points.PointLedger.AddPoints | core/points/views.py:65-97 | on success the row gains exactly the amount and is returned; on any failure the ledger is unchanged |
| Points.PointLedger.SaveCopies | core/points/views.py:179-183 | the as-written mutation: the ledger becomes `SavedCopies` (two copies saved source first, so the target's save wins when both are the same row) and the two copies' balances are returned |
| Points.PointLedger.SaveInTurn | core/points/views.py:179-189 | the corrected mutation: the ledger becomes `Moved`, the sum is conserved, and the two new balances are returned |
| Points.PointLedger.Transfer | core/points/views.py:132-200 | the as-written transfer: a failure changes nothing; a success leaves the ledger `SavedCopies` and returns the two copies' balances |
| Points.PointLedger.TransferConserving | core/points/views.py:132-200 | the corrected transfer: a failure changes nothing; a success moves the points one save at a time and conserves the sum |
| Points.SavedCopies | core/points/views.py:179-183 | the as-written result: the target always ends `amount` higher, the source `amount` lower when it is a different row, every other row stays |
| Points.SavedCopiesApart | core/points/views.py:179-183 | between two different users the as-written and the corrected transfers leave the same ledger |
| Points.Moved | core/points/views.py:179-183 | a transfer touches no key beyond the ledger's own |
| Points.MovedConserves | core/points/views.py:179-183 | carried out one save at a time, a transfer conserves the sum of balances, a transfer to oneself included |
| Points.MovedBetweenTwo | core/points/views.py:179-189 | between distinct users the source loses exactly the amount, the target gains it, other rows stay, and the sum is conserved |
| Points.MovedToSelf | core/points/views.py:159-160 | in the corrected transfer, sending to oneself leaves the balance as it was |
| Points.SelfTransferMints | core/points/views.py:159-160 | as written, a transfer to oneself raises the balance and the sum by the amount |
| Points.LeaderboardLimit | core/points/views.py:220-222 | the limit defaults to 10; a non-positive limit becomes 10; an unparsable one is the 500; the result is positive |
| Points.Insert | core/points/views.py:209 | inserting into a descending sequence keeps it descending and adds exactly one element |
| Points.ByBalance | core/points/views.py:209 | `order_by('-balance')` is descending and a permutation of the rows |
| Points.Leaderboard | core/points/views.py:218-239 | the leaderboard succeeds iff the limit parses; otherwise it is the 500 |
| Points.TopOfSorted | core/points/views.py:224 | the first k rows of a descending permutation are descending, are drawn from the rows, and outrank every row left out |
| Points.LeaderboardIsTop | core/points/views.py:209-224 | the leaderboard holds min(limit, rows) rows in non-increasing balance, drawn from the table, and no row left out has more points than a row shown |
| Points.LeaderboardDefaultsToTen | core/points/views.py:220-222 | no limit and a non-positive limit both give the leaderboard for 10 |
| Donations.StatusValues | core/donations/models.py:6-10 | the donation statuses are available, reserved and collected, in that order |
| Donations.CreateStatus | core/donations/models.py:17 | a new donation is available by default; a submitted status must be one of the three |
| Donations.ReserveCheck | core/donations/views.py:457-504 | a reservation is accepted iff the caller is authenticated, the donation exists, `recipient` is present and equals `str(caller id)`, and the donation is available; the value stored is the caller's id |
| Donations.ReserveRefusalOrder | core/donations/views.py:462-484 | a foreign recipient is a 403 whatever the status; an unavailable donation is a 400 before a missing recipient is noticed |
| Donations.NumericRecipientRefused | core/donations/views.py:462 | a recipient sent as a JSON number never equals a string, so it is refused with 403 |
| Donations.ReserveStoresCaller | core/donations/views.py:487 | the recipient key the ORM stores from an accepted payload is the caller's id |
| Donations.ReservedFor | core/donations/views.py:487-488 | a reservation sets recipient and status and no other field |
| Donations.ReserveAtMostOnce | core/donations/views.py:470-476 | once reserved, a donation cannot be reserved again by anyone |
| Donations.StatusPatchCheck | core/donations/views.py:281-333 | permission (401), 404, then the object permission, whose refusal is caught as a 500, then the guard with its 400 for a missing or unknown status; past the guard it succeeds iff a truthy payload `recipient` converts (otherwise the 500); success sets the status, replaces the recipient only when one is truthy in the payload, and keeps the other fields |
| Donations.StatusPatchAnyTransition | core/donations/views.py:306-311 | the outcome does not depend on the current status |
| Donations.DonationStore.SaveAsWritten | core/donations/models.py:21-25 | the row is written; the hook raises iff the status is available; no points are given |
| Donations.DonationStore.Save | core/donations/models.py:21-25 | the row is written; an available donation credits its donor 10 points, on every such save; the sum of points grows by exactly that |
| Donations.DonationStore.Create | core/donations/views.py:147-172 | with the corrected hook: an authenticated request with a valid status succeeds; the caller becomes the donor with no recipient; the status defaults to available; a fresh key is used; the donor is credited when available; a failure changes nothing |
| Donations.DonationStore.CreateAsWritten | core/donations/views.py:147-172 | as written: the same checks; a valid request stores the donation under a fresh key, and when it is available the hook's TypeError makes the answer the 500, with no points given |
| Donations.DonationStore.Reserve | core/donations/views.py:457-511 | on success the donation is reserved for the caller and nothing else changes; a failure changes nothing |
| Donations.DonationStore.PatchStatus | core/donations/views.py:281-333 | with the corrected hook: on success the row is the checked update and the save hook credits the donor again when the status is available; a failure changes nothing |
| Donations.DonationStore.PatchStatusAsWritten | core/donations/views.py:281-333 | as written: a refused check changes nothing; an accepted one stores the update, and a patch to available is then answered with the 500 |
| Donations.VisibleTo | core/donations/views.py:127-136 | administrators and staff list everything; anyone else lists exactly the donations they gave or received |
| Donations.VisibleMeansAccessible | core/donations/views.py:127-136 | a caller lists a donation iff the object permission lets them open it |
| Donations.AvailableOnly | core/donations/views.py:411-412 | the available listing holds exactly the available donations |
| Donations.AvailableIsReservable | core/donations/views.py:411-489 | anything the available listing shows can be reserved by any authenticated caller naming themself |
| Donations.MadeBy | core/donations/views.py:354-380 | one donor's donations, narrowed by a truthy status |
| Donations.MadeByAsWritten | core/donations/views.py:346-398 | as written, a caller who is neither administrator nor staff is always refused (as a 500), their own donations included |
| Donations.MadeByOwn | core/donations/views.py:346-398 | corrected: a caller who is neither administrator nor staff lists exactly their own donations |
| Donations.OwnDonationsRefused | core/donations/views.py:350-352 | a donor asking for their own donations is refused as written and served when corrected |
| Orders.OrderStatuses | core/orders/models.py:6-11 | the four order statuses, and the exact message an unknown status gets |
| Orders.OrderTable.PatchStatus | core/orders/views.py:215-263 | on success only the status changes, to the accepted value; a failure changes nothing |
| Orders.PatchIgnoresOwnership | core/orders/views.py:204 | the outcome does not depend on which authenticated user asks; any of them can complete any order |
| Orders.ConsumerOrders | core/orders/views.py:276-306 | exactly the consumer's orders, narrowed by a truthy status |
| Orders.ConsumerOrdersNarrow | core/orders/views.py:293-295 | a status filter only narrows; a status outside the choices selects nothing |
| Orders.StatusChoices | core/orders/views.py:337-340 | four entries in declaration order; a value is listed iff the patch accepts it |
| Offers.OfferTable.PatchStatus | core/offers/views.py:223-270 | on success only the status changes, to the accepted value; a failure changes nothing |
| Offers.MerchantFilter | core/offers/views.py:76-77 | a truthy `merchant` filters on its `int()`; an unparsable one is the 500 |
| Offers.MerchantAndStatus | core/offers/views.py:76-80 | exactly the rows of the merchant, when one is given, and of the status, when a truthy one is given |
| Offers.PriceWindow | core/offers/views.py:82-86 | exactly the rows whose price lies within the given bounds; an offer without a price passes no bound |
| Offers.OfferList | core/offers/views.py:64-112 | exactly the offers meeting every given filter: merchant, status, both price bounds and availability today |
| Offers.ActiveOffers | core/offers/views.py:341-391 | exactly the offers running today and available, narrowed by the merchant and price filters |
| Offers.ActiveIsAvailableNow | core/offers/views.py:88-94 | the active-offers view equals the offer list asked for `available_now=true` |
| Offers.EmptyPriceWindow | core/offers/views.py:82-86 | a minimum price above the maximum selects nothing |
| Offers.MerchantOffers | core/offers/views.py:283-310 | exactly the offers of that merchant, narrowed by a truthy status |
| Notifications.UnreadOf | core/notifications/views.py:344-347 | exactly the user's notifications still marked sent |
| Notifications.MarkedRead | core/notifications/views.py:358 | the bulk update keeps the table's keys |
| Notifications.NotificationTable.PatchStatus | core/notifications/views.py:276-323 | on success only the status changes, to sent or read; a failure changes nothing |
| Notifications.NotificationTable.MarkAllRead | core/notifications/views.py:341-365 | permission first; the count returned is the number of the user's sent notifications; the table becomes `MarkedRead` |
| Notifications.MarkedReadEffect | core/notifications/views.py:344-358 | afterwards the user has no sent notification; exactly the counted rows became read; every other row is unchanged |
| Notifications.MarkedReadIdempotent | core/notifications/views.py:349-354 | a second call finds nothing to mark and changes nothing |
| Notifications.MarkedReadLeavesOthers | core/notifications/views.py:344-347 | other users' unread notifications stay unread |
| Transactions.ByOrder | core/transactions/views.py:234-265 | permission first; succeeds iff some transaction has that order, returning it; otherwise the 404 "No transaction found for this order" |
| Transactions.ByOrderFindsEach | core/transactions/views.py:234-237 | every transaction is found by its own order |
| Transactions.TransactionList | core/transactions/views.py:63-74 | exactly the transactions matching a truthy status and a truthy payment method |
| Transactions.ListFiltersCommute | core/transactions/views.py:66-74 | the two filters conjoin in either order, and with no parameters the whole table is listed |
| Transactions.TransactionTable.PatchStatus | core/transactions/views.py:177-224 | on success only the status changes, to pending, successful or failed; a failure changes nothing |
| Users.Required | core/users/serializers.py:21-28 | on an update, username, email, role and password are optional; every other field is required as on create |
| Users.UpdateRequiresLess | core/users/serializers.py:24-28 | an update requires exactly the create's required fields minus the four |
| Users.NewPassword | core/users/serializers.py:49-50 | a non-empty supplied password replaces the current one; otherwise it stays |
| Users.ActiveFlag | core/users/serializers.py:32 | a supplied `is_active` is the new flag; without one the flag keeps its value |
| Users.Create | core/users/serializers.py:30-36 | the password is kept out of the stored fields and set only when non-empty; `is_active` is the account's flag, true unless supplied false; every other field is stored; a missing role is consumer |
| Users.Supplied | core/users/serializers.py:45-47 | the non-None values among the supplied keys |
| Users.MergeUpdateRules | core/users/serializers.py:38-55 | omitted and None-valued fields keep their value; supplied values overwrite; groups, user_permissions, password and is_active never reach the fields |
| Users.MergeUpdateIdempotent | core/users/serializers.py:38-55 | applying the same update twice is applying it once |
| Users.UserInstance.SetSupplied | core/users/serializers.py:45-47 | the `setattr` loop sets exactly the non-None values |
| Users.UserInstance.Update | core/users/serializers.py:38-55 | the fields become `MergeUpdate`, the password becomes `NewPassword`, and the active flag becomes `ActiveFlag` of the supplied `is_active` |
| Users.Login | core/users/serializers.py:61-84 | succeeds iff the email is known, the password matches and the user is active, returning that user's username and email; every refusal is "Incorrect credentials" |
| Users.RefusalsLookAlike | core/users/serializers.py:64-70 | an unknown email, a wrong password and an inactive user get the same answer |
| Users.CreatedUserLogsIn | core/users/serializers.py:31-35 | a user created with a non-empty password and not created inactive logs in with exactly that password; one created without a password or with `is_active` false cannot log in |
| Users.UpdatedPasswordLogsIn | core/users/serializers.py:45-50 | the updated account takes the merged fields, new password and flag, and is looked up by its updated email (the old email no longer finds it); after an update with a non-empty password only that password logs in, if the account is active afterwards; after one with neither password nor `is_active`, the old password logs in exactly when it did before; a successful login returns the updated username; after one with `is_active` false every login is refused |

## Left out

- Framework plumbing: `get_object`, serializers, `Response`, routing and migrations. Rows are map entries and a response is an `Outcome`.
- The permission check of the list views (leaderboard, consumer orders, offer lists, donation lists, transaction list) is not repeated in front of each list function. It is modelled once, by `Permissions.CustomIsAuthenticated`, in the handlers that change state.
- For 500 responses the source reports `str(e)`. Those exception texts are not modelled, and the `errors` dict is left empty.
- Permissions.PermissionDenied: the detail is modelled as the envelope's dict. The source passes the `Response` object itself, and how DRF renders that object is not modelled.
- `OrderingFilter` and `SearchFilter` ordering of the list views is not modelled. List results are maps.
- Points.ByBalance: rows of equal balance keep their input order. The database gives no order for ties.
- Decimal prices and amounts are integer cents. Parsing the decimal `min_price`/`max_price` query parameters is not modelled; the bounds arrive already converted.
- Wall-clock time: `timezone.now()` is an integer parameter. `created_at`/`updated_at` are not modelled; only `Point.last_updated` is.
- The database integer range, foreign-key existence and `PositiveIntegerField` range checks are not modelled. Balances are `nat`, and every transfer that the balance check accepts keeps them non-negative.
- Concurrency: Transfer and Reserve are modelled as sequential; nothing is claimed about interleaving.
- JWT issuance, password hashing (`set_password` and `check_password` compare the raw password), `secrets.token_urlsafe` and `send_mail` are foreign calls.
- The donation serializer is not part of this model. `Donations.DonationStore.Create` stores only title, description and a choice-checked status.
- Users.Create: many-to-many `groups` and `user_permissions` passed to `objects.create` are not modelled.
- `Python.Lower` folds ASCII letters only.
- Python.ToInt: a JSON number too large for a float (`1e400`) becomes infinity in Python, and `int()` of it raises OverflowError (a 500); the model reads it as a large integer. Python's `int()` also accepts non-ASCII Unicode digits and strips non-ASCII Unicode whitespace (`\x85`, `\xa0`, ...), which the model refuses.
- Middleware.Call: the HTTP answer to the raised PermissionDenied is not modelled. The exception is DRF's, raised from a Django middleware outside any view's exception handling, so Django answers it as an uncaught exception (a 500) and the message stays in the exception. The middleware also reads Django's `request.user`, the user set by Django's own authentication middleware, not the JWT user DRF authenticates later in the view; the model takes the user as given.
- Donations.DonationStore.Create and Donations.DonationStore.PatchStatus run the corrected save hook, so they describe the intended behaviour. The source's behaviour (row written, then the 500, no points) is `Donations.DonationStore.CreateAsWritten` and `Donations.DonationStore.PatchStatusAsWritten`, built on `SaveAsWritten`.
- The payment-method choices of orders and transactions are not checked by any modelled handler and are not modelled.
- The thin CRUD views (detail and update views, consumers, merchants, categories, administrators, reviews, `PointDetailView`) are outside this model.

## Findings

| source | as written | input that shows it | evidently intended | confidence | as-written member | corrected member |
|---|---|---|---|---|---|---|
| core/points/views.py:159-183 | the source and target rows are loaded as two copies and saved in turn, so for `from_user_id == to_user_id` the target's save overwrites the source's | `from_user_id = to_user_id = 1`, balance 50, amount 20: the balance becomes 70 | a transfer to oneself leaves the balance at 50 and conserves the total | high, not executed | Points.PointLedger.Transfer, Points.SelfTransferMints | Points.PointLedger.TransferConserving, Points.MovedConserves |
| core/donations/models.py:21-25 | `Point.objects.create(user=self.donor, points=10)` passes a field `Point` does not have; it raises TypeError after the row is written, and the handler's catch-all answers 500 | any save of a donation with status `available` | credit the donor 10 points, creating the row when missing | high, not executed | Donations.DonationStore.SaveAsWritten, Donations.DonationStore.CreateAsWritten, Donations.DonationStore.PatchStatusAsWritten | Donations.DonationStore.Save, Donations.DonationStore.Create, Donations.DonationStore.PatchStatus |
| core/donations/views.py:350-352 | `str(self.request.user.id) != donor_id` compares a string with the integer URL argument, so the two never match | user 5, neither administrator nor staff, lists the donations of donor 5: refused | a donor may list their own donations | high, not executed | Donations.MadeByAsWritten, Donations.OwnDonationsRefused | Donations.MadeByOwn |
| core/utils/permissions.py:146 | `obj.merchant == request.user` compares a Merchant instance with a User, which Django never considers equal | merchant user 7 opens their own offer: refused | the offer's merchant profile belongs to the caller | medium, not executed (if the Merchant profile's key is its user's id) | Permissions.IsMerchantOwnerOrAdmin, Permissions.MerchantNeverMatchesUser | Permissions.IsMerchantOwnerOrAdminByKey, Permissions.MerchantOwnerByKeyExactly |

Behaviour the model keeps as the code has it, although other readings are possible:

- Donation status patch: the object permission's refusal is raised inside `get_object()`, within the handler's `try`. The catch-all turns it into a 500, not a 403.
- Reserve: a recipient sent as a JSON number is compared with the string `str(request.user.id)`. It never matches, so the request gets the 403.
- Nothing forces a donation with status available to have no recipient: the status patch can set any status with any recipient.
