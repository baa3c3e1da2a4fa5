# testing-raneeti: a Dafny model of the festival site's logic

This project models the logic of a Next.js festival web site: sign-in, event registration, merchandise orders, an admin area and a prom ticket page. The model is in Dafny, and the properties of it are proved. It covers four parts.

- **Admin authority.** This covers:
  - the credential check (`lib/admin-auth.ts`);
  - the 24-hour HS256 session token and its verifier;
  - the `admin-session` cookie in the request's cookie jar;
  - the middleware gate on `/admin…` paths (`lib/middleware-utils.ts`, `middleware.ts`);
  - the admin login and logout routes.
- **The registration and order store** (`lib/database-operations.ts`). The MongoDB collections are held in memory in a class, `Database.Store`. Its methods are proved against pure specification functions over a snapshot `Db`. Three kinds of code are modelled on top of it:
  - the routes that call the store (`/api/events/register`, `/api/merch/order`, `/api/user/register`);
  - the next-auth callbacks (`lib/auth.ts`);
  - the two admin export routes (the registrations CSV and the merch-order rows).
- **Client state logic.** This is:
  - the prom early-bird counter;
  - the merch grid's search, sort, favourites, quantity and order handler;
  - the events grid's filters and register/unregister handler;
  - the admin merch editor's image and size lists;
  - the registration form;
  - the dashboard's sports tab;
  - three image carousels.

  Each component's state is a class whose methods change its fields. Each method is proved against a pure function of the old state, and the component's promises are lemmas about that function.
- **External effects as parameters.** Everything the code does through the outside world is a parameter of the model:
  - fetch responses, as a `FetchOutcome`: `Ok`, `NotOk(error)` or `Threw`;
  - the data a re-fetch returns;
  - the clock, in milliseconds or seconds;
  - `bcrypt.compare`;
  - `ObjectId` parsing;
  - date rendering;
  - `parseFloat`.

  HS256 signing is symbolic. A signature is the value `Mac(key, alg, claims)`, and verification recomputes it. As a result, "a fresh token verifies" and "a changed token fails" are proved as lemmas, with no axioms.

The files are:

| file | modules |
|---|---|
| `common.dfy` | Common |
| `client.dfy` | ClientCommon |
| `admin_auth.dfy` | AdminAuth |
| `route_gate.dfy` | MiddlewareUtils, Middleware |
| `admin_routes.dfy` | AdminLoginRoute, AdminLogoutRoute |
| `database.dfy` | Database |
| `api_routes.dfy` | EventsRegisterRoute, MerchOrderRoute, UserRegisterRoute |
| `auth_callbacks.dfy` | AuthCallbacks |
| `export.dfy` | ExportRegistrations, ExportMerch |
| `prom.dfy` | Prom |
| `merch_grid.dfy` | MerchGrid |
| `events_grid.dfy` | EventsGrid |
| `merch_management.dfy` | MerchManagement |
| `registration_form.dfy` | RegistrationForm |
| `user_dashboard.dfy` | UserDashboard |
| `carousel.dfy` | Carousel, HeadsGallery, ImageGallery, MerchPage |

`Common` holds shared string and sequence helpers:
- ASCII `toLowerCase`, `includes`, `trim`, `join` and `split`;
- `Array.prototype.filter`;
- a "remove every copy" operation;
- integer rendering.

## Model

| member | source | states |
|---|---|---|
| AdminAuth.VerifyAdminCredentials | lib/admin-auth.ts:14-41 | Acceptance implies configured credentials and an exactly equal username. In development/production mode it accepts exactly the configured pair; otherwise it accepts exactly when bcrypt reports a match. |
| AdminAuth.MisconfiguredRejectsAll | lib/admin-auth.ts:18-21 | With the username or password unset or empty, every credential pair is rejected. |
| AdminAuth.WrongUsernameRejected | lib/admin-auth.ts:23-26 | A username that differs from the configured one in any single character (case included) is rejected whatever the password. |
| AdminAuth.PlainTextAcceptsOnlyConfiguredPair | lib/admin-auth.ts:28-32 | In development or production mode the check holds exactly for the configured username and password. |
| AdminAuth.BcryptExceptionRejects | lib/admin-auth.ts:34-40 | When the bcrypt comparison throws, the check returns false. |
| AdminAuth.CreatePayload | lib/admin-auth.ts:43-49 | The payload keeps the username and has isAdmin set. `iat` is the floor of the first clock read in seconds; `exp` is the floor of the second read plus 86400. |
| AdminAuth.PayloadLifetime | lib/admin-auth.ts:47-48 | `exp - iat` is 86400, or 86401 when the two clock reads straddle a second boundary. It is exactly 86400 when both reads fall in the same second. |
| AdminAuth.Sign | lib/admin-auth.ts:51 | The signed token carries header alg HS256 and exactly the given claims. |
| AdminAuth.VerifyAdminSession | lib/admin-auth.ts:54-61 | Returns a payload exactly for a compact HMAC token whose signature matches under the key and whose `exp` is in the future. The payload returned is the token's own claims; every failure gives None. |
| AdminAuth.IssuedTokenVerifies | lib/admin-auth.ts:43-61 | A token issued under a key verifies under that key, before its expiry, to the payload it was issued with. |
| AdminAuth.ExpiredTokenRejected | lib/admin-auth.ts:54-61 | A token is rejected from its `exp` second on. |
| AdminAuth.DayOldTokenRejected | lib/admin-auth.ts:43-61 | A token issued more than 24 hours ago no longer verifies. |
| AdminAuth.TamperedTokenRejected | lib/admin-auth.ts:54-61 | A token whose signature is not the MAC of its header and claims under the key is rejected. |
| AdminAuth.AlteredClaimsRejected | lib/admin-auth.ts:54-61 | Replacing the claims of a signed token invalidates it. |
| AdminAuth.OtherKeyRejected | lib/admin-auth.ts:54-61 | A token signed under another secret is rejected. |
| AdminAuth.VerifierIgnoresRole | lib/admin-auth.ts:54-57 | The verifier does not look at `isAdmin`: a validly signed payload with isAdmin false is returned as is. |
| AdminAuth.SessionCookie | lib/admin-auth.ts:78-84 | The cookie is httpOnly, sameSite lax, path "/" and maxAge 86400 (the token lifetime). It is secure exactly in production. |
| AdminAuth.SessionFromJar | lib/admin-auth.ts:63-72 | No `admin-session` cookie, or an empty token, gives null. A present, non-empty token gives exactly what verifying it gives. |
| AdminAuth.ClearedJarHasNoSession | lib/admin-auth.ts:63-90 | After the cookie is deleted, getAdminSession yields null. |
| AdminAuth.SetJarHasSession | lib/admin-auth.ts:63-85 | After setAdminSession, getAdminSession yields the issued payload until it expires. |
| AdminAuth.CookieStore.SetAdminSession | lib/admin-auth.ts:74-85 | Sets exactly the `admin-session` entry of the jar to the session cookie holding a freshly issued token. |
| AdminAuth.CookieStore.ClearAdminSession | lib/admin-auth.ts:87-90 | Removes exactly the `admin-session` entry of the jar. |
| AdminAuth.CookieStore.GetAdminSession | lib/admin-auth.ts:63-72 | Returns the session read from the jar, and only for a present, non-empty token. |
| MiddlewareUtils.RequireAdminAuth | lib/middleware-utils.ts:4-17 | Continues (null) exactly when an `admin-session` token is present and verifies. Every other result is the redirect to `/admin/login`. |
| MiddlewareUtils.NoCookieRedirects | lib/middleware-utils.ts:5-9 | A request without the cookie is redirected to `/admin/login`. |
| MiddlewareUtils.FailureCausesIndistinguishable | lib/middleware-utils.ts:8-13 | A missing token and a token that fails verification get identical responses. |
| MiddlewareUtils.IssuedTokenPasses | lib/middleware-utils.ts:11-16 | A request carrying a freshly issued, unexpired token continues. |
| Middleware.HandleRequest | middleware.ts:4-16 | Ungated paths always continue. A gated path continues exactly when requireAdminAuth returns null, and otherwise returns its redirect unchanged. |
| Middleware.LoginPagesExempt | middleware.ts:8 | Every path starting with `/admin/login` is ungated and continues, so the login page never redirects to itself. |
| Middleware.RawPrefixTest | middleware.ts:8 | The test is a raw prefix test. `/administrator`, `/admin-panel` and `/admin/events` are gated; `/admin/loginx` and `/admin/login/` are exempt. |
| Middleware.MatchedPathsGatedUnlessLogin | middleware.ts:8-20 | On the paths the matcher selects, a path is gated exactly when it does not start with `/admin/login`. |
| Middleware.AdministratorNotMatched | middleware.ts:8-20 | `/administrator` passes the prefix test but is not selected by the `/admin/:path*` matcher. |
| AdminLoginRoute.LoginDecision | app/api/admin/login/route.ts:4-26 | 400 exactly for a parsed body with a falsy username or password. 401 exactly when both are present and the credential check fails. 200 exactly when it succeeds and the cookie store does not fail; everything else is 500. A username to set the cookie for is returned exactly with 200. |
| AdminLoginRoute.MissingFieldIgnoresCredentials | app/api/admin/login/route.ts:8-10 | With a falsy field the answer is 400 whatever the configuration and bcrypt, so the credential check is never consulted. |
| AdminLoginRoute.MisconfigurationIs401 | app/api/admin/login/route.ts:12-16 | With credentials not configured, a complete body gets 401 "Invalid credentials" and no cookie. |
| AdminLoginRoute.Post | app/api/admin/login/route.ts:4-26 | Answers as LoginDecision does. On 200 it sets exactly the session cookie for the given username; on every other status it leaves the jar unchanged. |
| AdminLoginRoute.LoginThenSession | app/api/admin/login/route.ts:18-21 | After a successful login, getAdminSession yields the new session until it expires. |
| AdminLogoutRoute.LogoutEffect | app/api/admin/logout/route.ts:4-12 | Without a store failure the status is 200 and exactly the `admin-session` entry is removed. With one it is 500 and the jar is unchanged. |
| AdminLogoutRoute.LogoutIdempotent | app/api/admin/logout/route.ts:4-7 | Logging out twice gives the same status and jar as once. |
| AdminLogoutRoute.NoSessionAfterLogout | app/api/admin/logout/route.ts:6 | After logout, getAdminSession yields null. |
| AdminLogoutRoute.Post | app/api/admin/logout/route.ts:4-12 | Changes the jar and answers as LogoutEffect states. |
| Database.FindRow | lib/database-operations.ts:163-166 | Returns the index of the first row for (email, eventId), or -1 exactly when there is none. |
| Database.UserByEmail | lib/database-operations.ts:115-118 | None exactly when no user has the email; otherwise the user at some index with that email such that no earlier user has it (the first match in stored order). |
| Database.UserEventRegistrations | lib/database-operations.ts:214-218 | Every returned event id comes from a row of that user, and every row of that user contributes its event id. |
| Database.UserEventRegistrationsAppend | lib/database-operations.ts:214-218 | The list distributes over appended rows, so it keeps row order. |
| Database.UsersWithEmail | lib/database-operations.ts:283-291 | The `$lookup` on users yields exactly the users whose email is the row's. |
| Database.JoinSound | lib/database-operations.ts:276-309 | Every joined registration comes from a stored row, with a user of that email and the event of that id. |
| Database.JoinComplete | lib/database-operations.ts:276-309 | Every row whose user and event both exist appears in the join with that user and event. |
| Database.DanglingRowDropped | lib/database-operations.ts:292-305 | A row whose event does not exist is dropped by the inner-join `$unwind`. |
| Database.AllEventRegistrationsAppend | lib/database-operations.ts:276-309 | The join of concatenated rows is the concatenation of the joins, so each row's outputs stay together in row order. |
| Database.UsersWithEmailSingle | lib/database-operations.ts:283-291 | When exactly one user has the email, the `$lookup` yields that user alone. |
| Database.OneJoinPerRow | lib/database-operations.ts:276-309 | With unique emails and every row's user and event present, the join has exactly one output per row, output i being row i. |
| Database.CreateEventProperties | lib/database-operations.ts:9-18 | A new event gets a fresh id and an empty `registrations` list. Every other event and collection is unchanged, and the store's invariants hold. |
| Database.CreateUserProperties | lib/database-operations.ts:99-108 | A new user is appended with a fresh id, the given email, empty `registeredEvents` and no phone or college. The invariants hold. |
| Database.UpdateEventProperties | lib/database-operations.ts:30-35 | An unparsable id fails and changes nothing. Otherwise it reports whether the event exists, and that event's fields become the given ones where given and stay as stored elsewhere; no other event changes. The registrations lists and rows are untouched. |
| Database.UpdateFirstUser | lib/database-operations.ts:120-125 | The update keeps the number of users, and with no user of that id it reports no match and changes nothing. |
| Database.UpdateFirstUserMatched | lib/database-operations.ts:120-125 | The update reports a match exactly when some user has the id. |
| Database.UpdateFirstUserProperties | lib/database-operations.ts:120-125 | The first user with the id gets exactly name, phoneNumber, collegeName and sports, and every other user is unchanged. |
| Database.UpdateFirstUserKeepsIds | lib/database-operations.ts:120-125 | No user's id changes. |
| Database.RegisterDuplicateRejected | lib/database-operations.ts:163-171 | If a row for (email, eventId) exists, registration fails with "User already registered for this event" and changes nothing. |
| Database.RegisterInsertsOneRow | lib/database-operations.ts:173-185 | A successful registration appends exactly one row with a fresh id and pushes that id onto the event's `registrations`. Nothing else changes. |
| Database.RegisterKeepsInvariants | lib/database-operations.ts:160-186 | Registration keeps the ids unique and below the id counter, and keeps each event's `registrations` in step with its rows. |
| Database.UnregisterMissingRejected | lib/database-operations.ts:191-199 | Without a matching row, unregistration fails with "Registration not found" and changes nothing. |
| Database.UnregisterDeletesOneRow | lib/database-operations.ts:188-212 | A successful unregistration deletes exactly the first matching row and pulls that row's id, and no other id, from the event's list. No other event, user, item or order changes. In a well-formed store no row of the pair and no row with that id remains. |
| Database.PullMatchesDelete | lib/database-operations.ts:201-211 | Pulling the row id from the event's list gives the list of the rows left after deleting that row. |
| Database.UnregisterKeepsInvariants | lib/database-operations.ts:188-212 | Unregistration keeps the store's invariants. |
| Database.RegisterUnregisterRoundTrip | lib/database-operations.ts:160-212 | Registering and then unregistering the same (email, eventId) restores every collection; only the id counter has moved. |
| Database.RegisterExtendsUserList | lib/database-operations.ts:173-185 | After registering, the user's event list is the old one plus the event, and every other user's list is unchanged. |
| Database.MerchOrderProperties | lib/database-operations.ts:220-240 | An unparsable or unknown merch id fails and changes nothing. Otherwise one order is appended with a fresh id, the merch's title and price, the given size and status "pending". |
| Database.Store.CreateEvent | lib/database-operations.ts:9-18 | Keeps the invariants; result and new state are those of the specification function. |
| Database.Store.UpdateEvent | lib/database-operations.ts:30-35 | Keeps the invariants; result and new state are those of the specification function. |
| Database.Store.CreateUser | lib/database-operations.ts:99-108 | Keeps the invariants; result and new state are those of the specification function. |
| Database.Store.UpdateUser | lib/database-operations.ts:120-125 | Keeps the invariants; result and new state are those of the specification function. |
| Database.Store.RegisterUserForEvent | lib/database-operations.ts:160-186 | Keeps the invariants; result and new state are those of the specification function. |
| Database.Store.UnregisterUserFromEvent | lib/database-operations.ts:188-212 | Keeps the invariants; result and new state are those of the specification function. |
| Database.Store.CreateMerchOrder | lib/database-operations.ts:220-240 | Keeps the invariants; result and new state are those of the specification function. |
| EventsRegisterRoute.UnauthorizedRejected | app/api/events/register/route.ts:8-31 | POST and DELETE answer 401 and change nothing without a session email. |
| EventsRegisterRoute.MissingEventIdRejected | app/api/events/register/route.ts:13-36 | A missing or empty eventId answers 400 "Event ID is required". |
| EventsRegisterRoute.DuplicateIs500 | app/api/events/register/route.ts:18-23 | A duplicate registration surfaces as 500 "Registration failed" with the store unchanged. |
| EventsRegisterRoute.MissingRegistrationIs500 | app/api/events/register/route.ts:38-43 | Unregistering a registration that does not exist surfaces as 500 "Unregistration failed" with the store unchanged. |
| EventsRegisterRoute.RowKeyedBySession | app/api/events/register/route.ts:18 | The row a successful POST inserts carries the session's email. |
| EventsRegisterRoute.PostThenDeleteRestores | app/api/events/register/route.ts:6-44 | A successful POST followed by a DELETE of the same event answers 200 and restores the store. |
| EventsRegisterRoute.Post | app/api/events/register/route.ts:6-24 | Keeps the store's invariants; reply and new store are those of its specification. |
| EventsRegisterRoute.Delete | app/api/events/register/route.ts:26-44 | Keeps the store's invariants; reply and new store are those of its specification. |
| MerchOrderRoute.StatusCases | app/api/merch/order/route.ts:9-23 | 401 without a session email and 400 without merchId or size. Otherwise 200 exactly for a known merch id, and 500 "Order failed" in every other case. |
| MerchOrderRoute.QuantityIgnored | app/api/merch/order/route.ts:13-18 | The client's quantity does not affect the answer or the store, and success creates exactly one order. |
| MerchOrderRoute.Post | app/api/merch/order/route.ts:6-24 | Keeps the store's invariants; reply and new store are those of its specification. |
| UserRegisterRoute.PostSpec | app/api/user/register/route.ts:6-43 | A 200 answer implies a session email and a body whose four fields are all truthy. |
| UserRegisterRoute.FailureCases | app/api/user/register/route.ts:11-27 | 401 without a session email. 400 "All fields are required" when any field is falsy. 404 when no user has the email. None of these writes anything. |
| UserRegisterRoute.SuccessWritesProfile | app/api/user/register/route.ts:24-38 | For a known user and a complete body: 200, and the first user with the session's email (the one getUserByEmail finds) gets name, phoneNumber, collegeName and sports from the body. Every other user is unchanged. |
| UserRegisterRoute.Post | app/api/user/register/route.ts:6-43 | Keeps the store's invariants; reply and new store are those of its specification. |
| AuthCallbacks.SignInCreatesOnlyWhenAbsent | lib/auth.ts:17-36 | A Google sign-in succeeds and creates a user (fresh, unregistered) only when none has the email; with an existing user the store is unchanged. A store failure gives false and no change. |
| AuthCallbacks.OtherProvidersUntouched | lib/auth.ts:38 | Other providers are allowed and the store is not touched. |
| AuthCallbacks.SessionCallback | lib/auth.ts:41-48 | The session is unchanged without an email or a stored user. Otherwise it gets the user's id, and isRegistered is true exactly when phone number and college name are both non-empty. |
| AuthCallbacks.NewUserNotRegistered | lib/auth.ts:17-45 | A user just created by sign-in is reported as not registered. |
| AuthCallbacks.JwtCallback | lib/auth.ts:50-54 | The access token is copied into the JWT only when an account is present; otherwise the token is unchanged. |
| AuthCallbacks.SignIn | lib/auth.ts:16-39 | Keeps the store's invariants; result and new store are those of its specification. |
| ExportRegistrations.Fields | app/api/admin/export/registrations/route.ts:21-29 | Each row has the seven header columns, and a missing sportsToPlay gives an empty Sports field. |
| ExportRegistrations.Csv | app/api/admin/export/registrations/route.ts:16-33 | The output begins with the header line (the seven column names joined by ",", then a line break). |
| ExportRegistrations.EmptyExportIsHeader | app/api/admin/export/registrations/route.ts:16-33 | With no registrations the output is the header line alone. |
| ExportRegistrations.CsvRoundTrip | app/api/admin/export/registrations/route.ts:17-31 | When no value contains "," or "\n", splitting the body on "\n" and each line on "," gives back one line per row, in order, with its seven fields. |
| ExportRegistrations.ColumnsPerLine | app/api/admin/export/registrations/route.ts:21-29 | A line splits into 7 plus (number of commas inside the values) columns, since nothing is quoted. |
| ExportRegistrations.HeaderSplitsBack | app/api/admin/export/registrations/route.ts:16 | The header line has no line break and splits at commas back into exactly the seven column names, in order. |
| ExportRegistrations.CsvIsJoinOfLines | app/api/admin/export/registrations/route.ts:16-33 | A non-empty export is the header line followed by the rows' lines, all joined by line breaks. |
| ExportRegistrations.CsvSplitsBack | app/api/admin/export/registrations/route.ts:16-33 | When no value contains "," or "\n", the whole export splits into one line more than there are rows: line 0 splits into the column names and line i + 1 into the seven values of row i. |
| ExportRegistrations.LinesOfBody | app/api/admin/export/registrations/route.ts:17-31 | The body holds one line break per row boundary plus every line break inside the values, with no trailing newline. |
| ExportRegistrations.ExportRows | app/api/admin/export/registrations/route.ts:17-20 | One exported row per joined registration, in join order: row i holds the values of the i-th joined registration. |
| ExportRegistrations.ExportedRowsAreJoined | app/api/admin/export/registrations/route.ts:17-29 | Each exported row is the title, name, email, phone, college, sports and date of a stored registration whose user and event exist. |
| ExportRegistrations.Get | app/api/admin/export/registrations/route.ts:5-45 | 401 "Unauthorized" exactly without an admin session. With a session, a store fault gives 500 "Export failed", and otherwise 200 with the CSV of the exported rows of the joined registrations. |
| ExportMerch.AllMerchOrders | lib/database-operations.ts:311-333 | Each joined order pairs a stored order with a stored user of the order's email. |
| ExportMerch.AllMerchOrdersAppend | lib/database-operations.ts:311-333 | The join of concatenated orders is the concatenation of the joins, so each order's outputs stay together in order. |
| ExportMerch.MerchJoinComplete | lib/database-operations.ts:311-333 | Every order is joined with every user of its email. |
| ExportMerch.OrderWithoutUserDropped | lib/database-operations.ts:311-333 | An order whose email no user has is dropped by the `$unwind`. |
| ExportMerch.OneJoinPerOrder | lib/database-operations.ts:311-333 | With unique emails and a customer for every order, the join has exactly one output per order, output i being order i. |
| ExportMerch.ExportRecord | app/api/admin/export/merch/route.ts:17-28 | Every record has the same 10 keys in the fixed column order. |
| ExportMerch.ExportData | app/api/admin/export/merch/route.ts:17-28 | One record per order, in order. |
| ExportMerch.WidthsMatchColumns | app/api/admin/export/merch/route.ts:35-47 | The width table has exactly one entry per exported column (10). |
| ExportMerch.RecordCells | app/api/admin/export/merch/route.ts:21-25 | A falsy phone number becomes "N/A" and a truthy one is kept. Price is "₹" followed by the rendered price, and the email is the order's. |
| ExportMerch.Get | app/api/admin/export/merch/route.ts:7-66 | 401 "Unauthorized" exactly without a user email. With one, a store fault gives 500 "Failed to export merchandise orders", and otherwise 200 with the records of the joined orders, one per joined order, in order. |
| ExportMerch.AnyUserCanExport | app/api/admin/export/merch/route.ts:9-12 | Any signed-in user, admin or not, gets the export. |
| Prom.PriceFor | app/prom/page.tsx:79-82 | The price is 299 exactly when the count is below 30, and 399 otherwise. |
| Prom.StatusFor | app/prom/page.tsx:77-84 | The status for a count has early bird exactly below 30, the matching price, and count + spotsRemaining = 100. |
| Prom.InitialIsFetchedZero | app/prom/page.tsx:58-63 | The initial status is the one derived from a count of 0. |
| Prom.FullSubmitRejected | app/prom/page.tsx:115-122 | With no spots left, submit shows the "all spots filled" toast and leaves the status unchanged. |
| Prom.SubmitKeepsCoherent | app/prom/page.tsx:115-138 | A coherent status stays coherent. spotsRemaining never goes negative, and a successful submit moves count up by 1 and spotsRemaining down by 1. |
| Prom.ConfirmationQuotesPreviousPrice | app/prom/page.tsx:124-127 | The confirmation quotes the tier and price in effect before the increment. |
| Prom.LastEarlyBirdSeat | app/prom/page.tsx:124-138 | The 30th registration is confirmed at 299, after which the price is 399. |
| Prom.CountAndPriceMonotone | app/prom/page.tsx:130-138 | Over any number of submits the count and price never decrease, and once 399 the price stays 399. |
| Prom.EarlyBirdSpotsLeft | app/prom/page.tsx:201 | While early bird is on, the spots-left figure is 30 − count, between 1 and 30. |
| Prom.PromRegistration.FetchRegistrationCount | app/prom/page.tsx:77-84 | The status becomes the one derived from the fetched count. |
| Prom.PromRegistration.OnSubmit | app/prom/page.tsx:102-138 | Toast and new status are those of the submit specification on the old status. |
| ClientCommon.ErrorText | components/events-grid.tsx:107 | `data.error \|\| fallback`: the server's error when truthy, else the fallback. |
| ClientCommon.SearchIgnoresCase | components/merch-grid.tsx:39-43 | The search match is unchanged by lower-casing title, description or term. |
| ClientCommon.EmptyTermMatches | components/events-grid.tsx:38-42 | The empty term matches every item. |
| MerchGrid.EmptySearchKeepsAll | components/merch-grid.tsx:39-43 | An empty search term keeps the whole list in order. |
| MerchGrid.Sort | components/merch-grid.tsx:45-55 | Sorting is a permutation of its input. |
| MerchGrid.SortSorted | components/merch-grid.tsx:45-55 | The sorted list is ordered by the comparator. |
| MerchGrid.ShownIsMatchingPermutation | components/merch-grid.tsx:38-58 | The shown list is a permutation of the matching items: an item is shown exactly when it is in `merch` and matches the term. |
| MerchGrid.ShownIsOrdered | components/merch-grid.tsx:45-55 | "price-low" shows ascending prices and "price-high" descending prices; any other key shows titles in order. |
| MerchGrid.BeforeTransitive | components/merch-grid.tsx:45-55 | The comparator's order is transitive for each sort key, and total (BeforeTotal). |
| MerchGrid.Toggled | components/merch-grid.tsx:119-129 | Toggling flips membership of that id and no other. |
| MerchGrid.ToggleTwice | components/merch-grid.tsx:119-129 | Toggling twice restores the favourites. |
| MerchGrid.TogglesCommute | components/merch-grid.tsx:119-129 | Toggles of two ids commute. |
| MerchGrid.Decrement | components/merch-grid.tsx:332 | The minus button never goes below 1 and otherwise subtracts 1. |
| MerchGrid.PlusMinusInverse | components/merch-grid.tsx:332-341 | Minus undoes plus, and plus undoes minus above 1. |
| MerchGrid.DecrementsFloor | components/merch-grid.tsx:332 | n presses of minus give max(1, q − n). |
| MerchGrid.LabelShowsTotal | components/merch-grid.tsx:357-361 | The button shows "Add to Cart - ₹" with price × quantity, "Processing..." while ordering, and "Login to Order" without a session. |
| MerchGrid.OpenProductSpec | components/merch-grid.tsx:112-117 | Opening selects the product and resets the image index to 0, the size to "" and the quantity to 1. Message, ordering and favourites are unchanged. |
| MerchGrid.GuardsSendNothing | components/merch-grid.tsx:74-83 | With no session or no size nothing is sent. No session navigates to sign-in with the state unchanged; no size sets the "Please select a size" error. |
| MerchGrid.OrderOutcomes | components/merch-grid.tsx:85-110 | With a size the order is sent with the current quantity and ordering ends. Success closes the product and resets size and quantity as opening does. Failure keeps them and shows an error. |
| MerchGrid.Grid.ApplyFilters | components/merch-grid.tsx:38-58 | `filteredMerch` becomes the shown list, and `merch` is not modified. |
| MerchGrid.Grid.OpenProductModal | components/merch-grid.tsx:112-117 | The new state is OpenProductSpec of the old. |
| MerchGrid.Grid.ToggleFavorite | components/merch-grid.tsx:119-129 | The favourites become the toggled set. |
| MerchGrid.Grid.DecrementQuantity | components/merch-grid.tsx:332 | Quantity becomes Decrement of the old one. |
| MerchGrid.Grid.IncrementQuantity | components/merch-grid.tsx:341 | Quantity goes up by exactly 1. |
| MerchGrid.Grid.HandleOrder | components/merch-grid.tsx:74-110 | Action and new state are those of the order specification, and the lists are untouched. |
| EventsGrid.Filtered | components/events-grid.tsx:37-51 | Every listed event is in `events` and matches. Under "registered" its id is among the user's registrations, and under "available" it is not. |
| EventsGrid.RegisteredAvailablePartition | components/events-grid.tsx:44-48 | "registered" and "available" split the search results into two disjoint parts whose union (as a multiset) is the "all" list. |
| EventsGrid.AllShowsEveryMatch | components/events-grid.tsx:38-42 | Every matching event is listed under "all", and an empty term lists every event. |
| EventsGrid.NoSessionNoRequest | components/events-grid.tsx:80-83 | Without a session the handler navigates to sign-in and changes nothing. |
| EventsGrid.UnregisterRemovesEveryCopy | components/events-grid.tsx:97-100 | A successful unregister is a DELETE that removes every copy of the id and keeps every other id's count. `registering` is cleared. |
| EventsGrid.RegisterAppends | components/events-grid.tsx:101-103 | A successful register is a POST that appends the id and keeps the rest of the list. |
| EventsGrid.RegisterThenUnregister | components/events-grid.tsx:97-104 | Registering then unregistering an id not yet registered restores the list. |
| EventsGrid.FailureKeepsRegistrations | components/events-grid.tsx:106-113 | A refused or failed request keeps registrations and events, clears `registering` and shows an error. |
| EventsGrid.Grid.ApplyFilters | components/events-grid.tsx:37-51 | `filteredEvents` becomes the filtered list. |
| EventsGrid.Grid.HandleRegistration | components/events-grid.tsx:79-114 | Action and new state are those of the handler specification, with the search and filter fields untouched. |
| MerchManagement.AddField | components/admin/merch-management.tsx:121-132 | Adding appends exactly one "" and keeps the existing entries in order. |
| MerchManagement.WithoutIndex | components/admin/merch-management.tsx:126-135 | Filtering out index i deletes exactly that entry and shifts the later ones; an index out of range changes nothing. |
| MerchManagement.RemoveField | components/admin/merch-management.tsx:125-137 | The list never becomes empty. |
| MerchManagement.RemoveFieldCases | components/admin/merch-management.tsx:125-128 | Removing from a longer list deletes only that index, and removing the last entry gives [""]. |
| MerchManagement.AddThenRemoveRestores | components/admin/merch-management.tsx:121-128 | Adding a field and removing it again restores the list. |
| MerchManagement.SetField | components/admin/merch-management.tsx:207-236 | An edit changes exactly one entry. |
| MerchManagement.CleanedProperties | components/admin/merch-management.tsx:61-62 | Submit keeps exactly the entries that are not blank after trimming, in their relative order. |
| MerchManagement.BlankFieldsDropped | components/admin/merch-management.tsx:61-62 | A list of blank entries is cleaned to []. |
| MerchManagement.SaveRequestTargets | components/admin/merch-management.tsx:59-67 | When editing, PUT to `/api/admin/merch/{id}`; otherwise POST to `/api/admin/merch`. The body carries the cleaned lists. |
| MerchManagement.ResetSpec | components/admin/merch-management.tsx:110-119 | Reset restores the empty form and clears the item being edited. |
| MerchManagement.SubmitOutcomes | components/admin/merch-management.tsx:75-79 | Success closes the dialog and resets the form; a failure changes nothing. |
| MerchManagement.EditThenSubmitTargetsItem | components/admin/merch-management.tsx:66-95 | Submitting after editing an item is a PUT to that item's URL, and after a reset a POST. |
| MerchManagement.FieldsFor | components/admin/merch-management.tsx:90-91 | An item with no images or sizes gives [""]; otherwise its list is copied. |
| MerchManagement.EditSpec | components/admin/merch-management.tsx:85-95 | Editing opens the dialog on the item, copies title, description and price, and keeps both lists non-empty. |
| MerchManagement.EditRoundTrip | components/admin/merch-management.tsx:59-95 | Editing an item without blank entries and submitting sends back its images and sizes unchanged. |
| MerchManagement.Editor.AddImageField | components/admin/merch-management.tsx:121-123 | The images list gains a "" and the rest of the form is unchanged. |
| MerchManagement.Editor.RemoveImageField | components/admin/merch-management.tsx:125-128 | The images list becomes RemoveField of the old one; the lists stay non-empty. |
| MerchManagement.Editor.AddSizeField | components/admin/merch-management.tsx:130-132 | The sizes list gains a "". |
| MerchManagement.Editor.RemoveSizeField | components/admin/merch-management.tsx:134-137 | The sizes list becomes RemoveField of the old one. |
| MerchManagement.Editor.UpdateImage | components/admin/merch-management.tsx:207-211 | Exactly one image entry is replaced. |
| MerchManagement.Editor.UpdateSize | components/admin/merch-management.tsx:232-236 | Exactly one size entry is replaced. |
| MerchManagement.Editor.HandleEdit | components/admin/merch-management.tsx:85-95 | The new state is EditSpec of the old. |
| MerchManagement.Editor.ResetForm | components/admin/merch-management.tsx:110-119 | The new state is ResetSpec of the old. |
| MerchManagement.Editor.HandleSubmit | components/admin/merch-management.tsx:55-83 | Sends the save request for the old state and moves to SubmitState for the outcome. |
| RegistrationForm.InitialForm | components/registration-form.tsx:48-54 | The form starts with the user's name (or "") and everything else empty. |
| RegistrationForm.SportsChange | components/registration-form.tsx:73-85 | Checking appends the sport and unchecking removes it. Every other field is unchanged. |
| RegistrationForm.UncheckRemovesOnlyThatSport | components/registration-form.tsx:79-84 | Unchecking removes every copy of that sport and keeps every other sport's count. |
| RegistrationForm.CheckThenUncheckRestores | components/registration-form.tsx:73-85 | Checking an unselected sport and unchecking it restores the form. |
| RegistrationForm.FindCollege | components/registration-form.tsx:88 | None exactly when no college has the id; otherwise a college with that id. |
| RegistrationForm.CollegeChangeCases | components/registration-form.tsx:87-96 | An unknown id leaves the form unchanged. A known one copies the first such college's name and type and nothing else. |
| RegistrationForm.SubmitOutcomes | components/registration-form.tsx:98-130 | With no sport nothing is sent and the sport error is set. Success navigates to the dashboard, the form is kept, and loading always ends. |
| RegistrationForm.BodyAsSent | components/registration-form.tsx:115 | The body the route reads from the form's JSON has no `leaderName` and no `sports`. |
| RegistrationForm.EveryFormSubmissionRefused | app/api/user/register/route.ts:16-21 | Every body the form sends is answered 400 "All fields are required" and nothing is written. |
| RegistrationForm.RefusalShownToUser | components/registration-form.tsx:120-124 | That refusal is what the form's error banner shows. |
| RegistrationForm.SportsCountsOf | app/api/user/register/route.ts:35 | One count of 1 per selected sport, in order. |
| RegistrationForm.IntendedBody | app/api/user/register/route.ts:16 | The corrected body carries the form's name as `leaderName` and its sports as counts. |
| RegistrationForm.IntendedBodyCompletesRegistration | app/api/user/register/route.ts:16-38 | With the corrected body a filled-in form gets 200 and the user's profile is written. |
| RegistrationForm.Form.HandleSportsChange | components/registration-form.tsx:73-85 | The form becomes SportsChange of the old. |
| RegistrationForm.Form.HandleCollegeChange | components/registration-form.tsx:87-96 | The form becomes CollegeChange of the old. |
| RegistrationForm.Form.HandleSubmit | components/registration-form.tsx:98-130 | Action and new state are those of the submit specification. |
| UserDashboard.Spaced | components/user-dashboard.tsx:166 | The `replace` adds one character per capital letter. |
| UserDashboard.UnspacedSpaced | components/user-dashboard.tsx:166 | For a key without whitespace, `replace` inserts spaces and nothing else. |
| UserDashboard.LabelRoundTrip | components/user-dashboard.tsx:166 | For a key without whitespace, deleting the spaces from its label gives back the key. |
| UserDashboard.LabelOfLowerStart | components/user-dashboard.tsx:166 | A key that neither starts nor ends with whitespace and has no leading capital loses nothing to `trim`. |
| UserDashboard.SpacedOneCapital | components/user-dashboard.tsx:166 | A key with one capital and no other gets exactly one space, placed before that capital. |
| UserDashboard.LabelExample | components/user-dashboard.tsx:165-166 | "badmintonMen" is labelled "badminton Men". |
| UserDashboard.LeadingCapital | components/user-dashboard.tsx:166 | A leading capital's inserted space is removed by `trim`. |
| UserDashboard.ListedProperties | components/user-dashboard.tsx:159-163 | Exactly the sports with a positive count are listed, in entry order. |
| UserDashboard.EmptyStateIffNothingListed | components/user-dashboard.tsx:154-163 | For counts that are never negative, the empty-state text shows exactly when no sport is listed. |
| UserDashboard.NegativeCountShowsNothing | components/user-dashboard.tsx:154-163 | A negative count shows neither the empty-state text nor any sport. |
| UserDashboard.EmptyStateIntendedIffNothingListed | components/user-dashboard.tsx:154-163 | Testing "no count is positive" shows the text exactly when nothing is listed. For non-negative counts it agrees with the written test. |
| UserDashboard.SportsTabOf | components/user-dashboard.tsx:154-170 | The empty-state text shows exactly in the empty state. Otherwise card i shows the i-th listed sport: its key, its label (the key spaced before capitals and trimmed) and its count. |
| UserDashboard.CardsShowKeysAndCounts | components/user-dashboard.tsx:159-167 | When no key holds whitespace, each card's label gives its key back once the spaces are removed, and its key and positive count are an entry of the sports object. |
| UserDashboard.Render | components/user-dashboard.tsx:52-84 | Spinner while loading. "Profile Not Found" for a null profile after loading. A loaded profile always gives the dashboard headed "Welcome, {name}!" with that profile's sports tab. |
| Carousel.NextInRange | components/heads-gallery.tsx:167-171 | `(i + 1) % n` stays in [0, n) and wraps the last index to 0. |
| Carousel.PrevInRange | components/heads-gallery.tsx:173-177 | Both previous-index forms stay in [0, n) and agree. |
| Carousel.NextPrevInverse | components/image-gallery.tsx:64-74 | Next and previous are mutual inverses. |
| HeadsGallery.Lightbox.OpenLightbox | components/heads-gallery.tsx:159-161 | Sets the selected index. |
| HeadsGallery.Lightbox.CloseLightbox | components/heads-gallery.tsx:163-165 | Clears the selection. |
| HeadsGallery.Lightbox.NextImage | components/heads-gallery.tsx:167-171 | Does nothing while closed; otherwise moves to the wrapped next index. |
| HeadsGallery.Lightbox.PrevImage | components/heads-gallery.tsx:173-177 | Does nothing while closed; maps 0 to n − 1 and any other index i to i − 1. |
| ImageGallery.Lightbox.OpenLightbox | components/image-gallery.tsx:56-58 | Sets the selected index. |
| ImageGallery.Lightbox.CloseLightbox | components/image-gallery.tsx:60-62 | Clears the selection. |
| ImageGallery.Lightbox.NextImage | components/image-gallery.tsx:64-68 | Does nothing while closed; otherwise moves to the wrapped next index. |
| ImageGallery.Lightbox.PrevImage | components/image-gallery.tsx:70-74 | Does nothing while closed; maps 0 to n − 1 and any other index i to i − 1. |
| MerchPage.ProductModal.HandleOpenModal | app/merch/page.tsx:39-42 | Selects the item and resets the image index to 0. |
| MerchPage.ProductModal.HandleCloseModal | app/merch/page.tsx:44-46 | Clears the selection but keeps the image index. |
| MerchPage.ProductModal.ShowNextImage | app/merch/page.tsx:48-52 | With no selection nothing changes; otherwise `(i + 1) % len`. |
| MerchPage.ProductModal.ShowPrevImage | app/merch/page.tsx:54-58 | With no selection nothing changes; otherwise `(i − 1 + len) % len`, so 0 wraps to len − 1. |
| MerchPage.CatalogueHasImages | app/merch/page.tsx:39-58 | Every catalogue item has images, so the index arithmetic is never modulo 0. |

## Left out

- HS256 signing and `bcrypt.compare` are not computed. A signature is the symbolic value `Mac(key, alg, claims)`, and bcrypt is a function parameter returning a match or an exception. The secret's fallback (lib/admin-auth.ts:5) is a configuration input.
- `jwtVerify` checks only the signature and `exp` in this model. The `nbf`, `iat` and critical-header checks of jose are not modelled.
- Date.now, toLocaleDateString, ObjectId parsing and id rendering, and `parseFloat` are parameters of the model.
- The clock is given in milliseconds for token issue and in seconds for verification.
- Prices are integers. Floating-point prices from `parseFloat` are not modelled.
- The MongoDB connection, the aggregation engine and the XLSX workbook writing are not modelled. The joins are written out as the `$lookup`/`$unwind` pipeline computes them, and the XLSX file is modelled only as its row records and column widths.
- Concurrency is not modelled. Each store operation runs atomically, so the race between the duplicate check and the insert in registerUserForEvent is not captured.
- The database functions that the auth, registration, order and export paths do not call are not part of this model: getAllEvents, deleteEvent, the merch and college CRUD, registerForEvent, getEventRegistrations, getUserRegistrations and getUserProfile. Neither are the thin admin and read routes that pass them through.
- Database.Store.UpdateEvent: the update carries only the event's own fields. A `$set` of `registrations` through this call, which the source's `Partial<Event>` would allow, is not modelled, and none of the routes modelled here sends one.
- Database.Store.UpdateUser: the update carries only the profile fields that its only caller (the user/register route) writes.
- User.sportsToPlay, read by the registrations export, is an optional list that none of createUser, updateUser or the user/register route writes.
- Request bodies are typed records, with `None` for unparsable JSON. Non-string JSON values in string fields are not modelled.
- `getServerSession` and next-auth's OAuth flow are inputs: a session email, a user and an account.
- ExportRegistrations.Csv: the header constant is the column list joined by ",", not the route's single literal. Its equality with that literal is not proved; ExportRegistrations.HeaderSplitsBack proves that the line splits back into exactly the seven names.
- Prom.PromRegistration.FetchRegistrationCount: the page uses a mock count of 0. The model takes the count as a parameter, of which 0 is the case the page runs (Prom.InitialIsFetchedZero).
- MerchGrid.Sort: `Array.prototype.sort` is modelled as an insertion sort. The stability the engine guarantees is not stated, only that the result is an ordered permutation.
- `localeCompare` is modelled as code-point lexicographic order. `toLowerCase`, `includes` and `trim` are modelled over ASCII, and Unicode case mapping and whitespace beyond ASCII are not modelled.
- Fetch outcomes are parameters. So are the lists a re-fetch returns, with `None` when that fetch fails quietly. The intermediate state of an `await` (`ordering`, `registering`, `isLoading` while the request is in flight) is not observable in the model: each handler runs to completion in one step.
- The initial data fetches of the components (`fetchMerch`, `fetchEvents`, `fetchColleges`, `fetchUserData`) only store what they receive. They are not modelled beyond that data being part of the state.
- The CSS `capitalize` applied to the dashboard label is presentation and is not part of the label.
- MerchPage.ProductModal.HandleOpenModal: requires an item with at least one image. Every item of the page's fixed catalogue has two (MerchPage.CatalogueHasImages).
- HeadsGallery.Lightbox.OpenLightbox, ImageGallery.Lightbox.OpenLightbox: require an index inside the gallery, which is what the page's thumbnails pass.
- Toasts' variant, router navigation targets beyond their identity, and every rendering detail outside the sports tab are not modelled.

## Findings

| source | as written | input that shows it | evidently intended | confidence | as-written member | corrected member |
|---|---|---|---|---|---|---|
| components/registration-form.tsx:115 and app/api/user/register/route.ts:16-21 | The form posts `{name, phoneNumber, collegeName, collegeType, sportsToPlay}`, but the route reads `leaderName` and `sports`, which are then always undefined. | any form with a name, phone, college and at least one sport: the route answers 400 "All fields are required" and the profile is never written | the form sends its name as `leaderName` and its sports as the `sports` count object the route stores | not executed; high for the refusal, the shape of the count object is assumed | RegistrationForm.EveryFormSubmissionRefused | RegistrationForm.IntendedBodyCompletesRegistration |
| components/user-dashboard.tsx:154-163 | The empty-state test is "every count is 0", while the list shows counts greater than 0. | sports `{ football: -1 }` (the route stores any object it receives): neither the empty-state text nor any sport is shown | the empty state shows exactly when no sport is listed, i.e. no count is positive | not executed; medium, negative counts need a client other than the form | UserDashboard.NegativeCountShowsNothing | UserDashboard.EmptyStateIntendedIffNothingListed |
