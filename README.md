# akti-portal in Dafny

A Dafny model of the logic inside the akti-portal Next.js application. The
portal lets administrators manage customer service representatives (CSRs),
courses and users, and lets CSRs manage students and look up co-workers. The
model covers:

- **The request gate** (`middleware.js`). It takes the session token from the
  `token` cookie, or failing that from an `Authorization: Bearer <token>`
  header (section 2.1 of RFC 6750). It checks the token's role claims against
  the `/admin` and `/csr` prefixes. It also covers the `config.matcher` that
  decides which paths the gate runs on.
- **The session lifecycle.**
  - The login route: the field check, the Admin-then-CSR lookup, role
    resolution, the signed claims, the redirect, and the cookie attributes of
    section 4.1.2 of RFC 6265.
  - The logout route: it overwrites the cookie with an empty value and
    `Max-Age=0`.
  - The browser's `localStorage` session cache.
  - The client guards (`useAuth`, `withAdminAuth`, `withCsrAuth`), the two
    section layouts, and the login page.
- **The create handlers of the API routes** for CSRs, co-workers, students and
  courses.
  - Each is a fixed chain of early-return checks followed by an insert into a
    collection held as a sequence.
  - The model includes the Mongoose schema's `trim` setters, defaults,
    `required`/`match`/`min` validators and `unique` indexes, which run on
    `save()`.
  - Each GET listing is also modelled, newest first where the route sorts.
- **The client list logic of the admin and CSR pages.**
  - Case-insensitive search filters.
  - Update, append and delete by `_id`.
  - The course page's duration flag ⇄ label ⇄ checkbox mappings and its
    trainer id ⇄ name lookup.
  - The dashboards' counts.
  - The pages' handlers, as classes whose fields are the pages' `useState`
    variables.
- **The heading string function** `toTitleCase` of the two top bars,
  including the CSR bar's "CSR Dashboard" override.

Some things are oracles, passed in as function parameters:

- JWT signing and verification (`sign`, `verify: string -> Option<Claims>`);
  `verify` covers signature checking and `exp` expiry, section 4.1.4 of
  RFC 7519;
- bcrypt (`hash`, `compare`);
- `parseFloat` and `Number.prototype.toString` on prices.

Some inputs are plain parameters:

- the clock (`now`, `isoNow`) and new document ids;
- the outcome of every `fetch` (`Fetched`, `Outcome`).

One module per source file:

| file | source |
|---|---|
| `middleware.dfy` | `middleware.js` |
| `login_route.dfy` | `app/api/login/route.js` |
| `logout_route.dfy` | `app/api/logout/route.js` |
| `auth_token.dfy` | `lib/useAuthToken.js` |
| `auth_guard.dfy` | `lib/auth.js` |
| `layouts.dfy` | `app/admin/layout.js`, `app/csr/layout.js` |
| `login_page.dfy` | `app/page.js` |
| `models.dfy` | `models/Admin.js`, `models/CSR.js` |
| `csr_route.dfy` | `app/api/csr/route.js` |
| `coworkers_route.dfy` | `app/api/co-workers/route.js` |
| `students_route.dfy` | `app/api/students/route.js` |
| `courses_route.dfy` | `app/api/courses/route.js` |
| `course_management.dfy` | `app/admin/course-management/page.js` |
| `users_page.dfy` | `app/admin/users/page.js` |
| `add_csr_page.dfy` | `app/admin/add-csr/page.js` |
| `student_management.dfy` | `app/csr/student-management/page.js` |
| `csr_dashboard.dfy` | `app/csr/csr-dashboard/page.js` |
| `admin_dashboard.dfy` | `app/admin/dashboard/page.js` |
| `title_case.dfy` | `components/AdminTop.js`, `components/CsrTop.js` |

Shared modules:

- `wrappers.dfy`: `Option`.
- `text.dfy`: ASCII case mapping, `includes`, `startsWith`, `trim`,
  truthiness, and integer printing and parsing.
- `lists.dfy`: `filter` and the newest-first sort.
- `api.dfy`: responses, requests and fetch outcomes.
- `session.dfy`: claims and cookies.
- `patterns.dfy`: the CNIC, phone and email regular expressions, written as
  character predicates.

Where the portal's own pieces disagree with one another, the model follows
the code. The lemmas named below state each such disagreement.

- The CSR create route checks uniqueness only among CSRs. A CSR can therefore
  take an admin's username, and login then always finds the admin
  (`CsrRoute.CsrWithAdminUsernameIsShadowed`).
- An inactive CSR can still log in (`LoginRoute.InactiveCsrStillLogsIn`).
- The CSR layout admits admins, while `withCsrAuth` turns them away
  (`CsrLayout.LayoutAndWrapperDisagreeOnAdmins`).
- The co-workers, students and courses routes define their own schemas, so
  `models/Course.js` and `models/CoWorker.js` are not part of this model. The
  courses route's schema has no `trainerId` or `durationLabels`, and its
  duration keys are the ones the course page sends.

## Model

| member | source | states |
|---|---|---|
| Middleware.HeaderToken | middleware.js:9-10 | a header token exists only when `Authorization` starts with exactly "Bearer ", and it is the rest of the header after that prefix |
| Middleware.BearerRoundTrip | middleware.js:10 | the token after "Bearer " is taken back out unchanged |
| Middleware.BearerIsCaseSensitive | middleware.js:10 | "bearer " in lower case yields no token |
| Middleware.Decide | middleware.js:6-50 | the only outcomes are pass-through or a redirect to "/". A path under neither prefix always passes. A protected path passes iff the cookie-or-header token is truthy, verifies, and its claims admit the prefix. No token, or a verification failure, redirects. An `/admin` pass implies `isAdmin`. A `/csr` pass implies `isCSR` or `isAdmin` |
| Middleware.CookieTakesPrecedence | middleware.js:8-13 | with a non-empty cookie token the header plays no part in the decision |
| Middleware.HeaderAsFallback | middleware.js:8-13 | with no usable cookie, a bearer header decides exactly as the same token in the cookie would |
| Middleware.Gate | middleware.js:53-55 | on matched paths the verdict is the middleware's; any redirect happens only on a protected path |
| Middleware.MatchedPathsAreProtected | middleware.js:53-55 | every path the matcher names starts with `/admin` or `/csr` |
| Middleware.NoTokenIsRedirected | middleware.js:26-29 | a matched path requested with neither cookie nor header is redirected to "/" |
| Middleware.NonAdminClaimsBarredFromAdmin | middleware.js:37-39 | an `/admin/…` request whose verified claims lack `isAdmin` is redirected |
| Middleware.AdminClaimsOpenEverything | middleware.js:36-45 | a verified token with `isAdmin` passes on every path |
| LoginRoute.Lookup | app/api/login/route.js:27-41 | the Admin collection is searched first and the CSR collection only if no admin matches. The result is the first admin with the username, in collection order, when there is one. Otherwise it is the first CSR with it. The result is None iff neither collection holds the username. An admin match carries no `isActive` |
| LoginRoute.ClaimsFor | app/api/login/route.js:53-75 | the claims carry the user's id and username. `isAdmin` holds iff the user's does. `isCSR` holds iff the user is not an admin and has `isCSR` or a true `isActive`. The claims never carry both roles. `isActive` is always true. `isLeadRole` holds iff the user's is true |
| LoginRoute.Login | app/api/login/route.js:11-110 | a missing or empty field gives 400 before any lookup. An unknown username gives 401 on "username". A wrong password gives 401 on "password". Login succeeds iff the user is found and the password matches. The redirect is "/admin/dashboard" iff isAdmin, "/csr/csr-dashboard" iff isCSR, and "/" iff neither. `isCSR` holds iff the user is not an admin and has `isCSR` or a true `isActive`. The token is the found user's claims signed for 86400 s. The cookie is `token` (httpOnly, SameSite strict, path "/", max-age 604800, `secure` iff production) and carries a token signed for 86400 s |
| LoginRoute.AdminShadowsCsr | app/api/login/route.js:27-33 | while an admin has the username, the CSR collection does not affect the outcome |
| LoginRoute.MissingFieldsSkipLookup | app/api/login/route.js:15-20 | with a missing field, the answer does not depend on either collection |
| LoginRoute.InactiveCsrStillLogsIn | app/api/login/route.js:57-74 | an inactive CSR with the right password logs in as a CSR, with `isActive: true` in the token |
| LogoutRoute.Logout | app/api/logout/route.js:3-22 | always success. The `token` cookie is emptied with max-age 0 and keeps httpOnly, SameSite strict and path "/". It is `secure` iff production |
| LogoutRoute.LogoutCookieMatchesLogin | app/api/logout/route.js:12-20 | the clearing cookie has the login cookie's name, path and flags, so it replaces it |
| LogoutRoute.LoggedOutRequestIsRedirected | app/api/logout/route.js:12-19 | once the emptied cookie is sent, a matched page without a bearer header is redirected to "/", whatever `verify` says |
| AuthToken.Stored | lib/useAuthToken.js:14-23 | `setAuthToken` writes the three keys and leaves every other key alone. Without a window it changes nothing |
| AuthToken.Cleared | lib/useAuthToken.js:34-41 | `clearAuthToken` removes the three keys and leaves every other key alone. Without a window it changes nothing |
| AuthToken.SetThenQuery | lib/useAuthToken.js:17-29 | after a set, `getAuthToken` returns the token and `getUserRole` the role, and `isAuthenticated` holds iff the token is non-empty |
| AuthToken.ClearThenQuery | lib/useAuthToken.js:34-57 | after a clear, `isAuthenticated` is false and the role is null |
| AuthToken.RolesExclusive | lib/useAuthToken.js:60-67 | `isAdmin` and `isCSR` never both hold; for any other role neither holds |
| AuthToken.LastWriteWins | lib/useAuthToken.js:17-19 | a second set overwrites all three values |
| AuthToken.SetClearRoundTrip | lib/useAuthToken.js:14-41 | set then clear leaves storage as a clear alone would |
| AuthToken.LocalStorageSession.constructor | lib/useAuthToken.js:10-11 | the session object starts over the given storage |
| AuthToken.LocalStorageSession.SetAuthToken | lib/useAuthToken.js:14-23 | the storage becomes `Stored(old storage, …)` |
| AuthToken.LocalStorageSession.GetAuthToken | lib/useAuthToken.js:26-31 | returns the stored token, or null without a window |
| AuthToken.LocalStorageSession.ClearAuthToken | lib/useAuthToken.js:34-41 | the storage becomes `Cleared(old storage)` and the browser goes to "/" iff there is a window |
| AuthToken.LocalStorageSession.IsAuthenticated | lib/useAuthToken.js:44-49 | true iff a non-empty token is stored |
| AuthToken.LocalStorageSession.GetUserRole | lib/useAuthToken.js:52-57 | returns the stored role, or null |
| AuthToken.LocalStorageSession.IsAdmin | lib/useAuthToken.js:60-62 | true iff the role is exactly 'admin' |
| AuthToken.LocalStorageSession.IsCSR | lib/useAuthToken.js:65-67 | true iff the role is exactly 'csr' |
| Auth.UseAuth | lib/auth.js:7-29 | the only effects are staying or going to "/". No token sends the browser to "/". With no required role any token holder stays. With a role the page stays iff the token is present and the role matches exactly |
| Auth.WithAdminAuth | lib/auth.js:32-37 | the component is always rendered; the page stays iff the user is authenticated with role 'admin' |
| Auth.WithCsrAuth | lib/auth.js:40-45 | the component is always rendered; the page stays iff the user is authenticated with role 'csr' |
| Auth.CsrGuardTurnsAwayAdmin | lib/auth.js:40-43 | a cached admin is sent to "/" by `withCsrAuth` |
| Auth.GuardAdmitsFreshLogin | lib/auth.js:13-26 | right after storing a token with role r, the guard for r lets the page stay |
| Auth.GuardRejectsAfterClear | lib/auth.js:17-20 | after a clear, every guard sends the browser to "/" |
| AdminLayout.CsrNeverAdmitted | app/admin/layout.js:16 | a cached 'csr' role is never authorized |
| AdminLayout.Layout.constructor | app/admin/layout.js:11 | the layout starts unauthorized |
| AdminLayout.Layout.RunEffect | app/admin/layout.js:14-21 | the layout becomes authorized iff the user is authenticated as 'admin'; otherwise it navigates to "/" |
| AdminLayout.Layout.Render | app/admin/layout.js:24-35 | it renders nothing until authorized, then the children inside the admin shell |
| AdminLayout.MountAdminLayout | app/admin/layout.js:11-35 | the first render is empty; the page appears iff the cache admits it, and navigation to "/" happens iff it does not |
| CsrLayout.Layout.constructor | app/csr/layout.js:21 | the layout starts unauthorized |
| CsrLayout.Layout.RunEffect | app/csr/layout.js:24-34 | it becomes authorized iff the user is authenticated as 'csr' or 'admin'. With a window it otherwise navigates to "/". Without a window it does nothing |
| CsrLayout.Layout.Render | app/csr/layout.js:37-45 | null until authorized, then the children inside the CSR shell |
| CsrLayout.MountCsrLayout | app/csr/layout.js:21-45 | the first render is empty; the page appears iff the cache admits it |
| CsrLayout.OtherRolesTurnedAway | app/csr/layout.js:28-29 | any role other than 'csr' or 'admin', or none, is not admitted |
| CsrLayout.LayoutAndWrapperDisagreeOnAdmins | app/csr/layout.js:27-32 | an authenticated admin is admitted by the layout but sent away by `withCsrAuth` |
| LoginPage.RoleTag | app/page.js:62 | 'admin' iff isAdmin, 'csr' iff CSR and not admin, 'user' iff neither |
| LoginPage.ReturningTarget | app/page.js:29-37 | an authenticated admin goes to /admin/dashboard and a CSR to /csr/csr-dashboard; there is no navigation otherwise |
| LoginPage.ErrorAfter | app/page.js:68-70 | after a failed answer the message is the server's, or a non-empty default; otherwise it is unchanged |
| LoginPage.Page.constructor | app/page.js:23-24 | not loading, no error |
| LoginPage.Page.RedirectIfLoggedIn | app/page.js:29-37 | navigates to `ReturningTarget` of the cache |
| LoginPage.Page.HandleLogin | app/page.js:44-78 | loading is false afterwards. The cache is written only when `res.ok` and `success` hold. Navigation goes exactly to the server's redirect on success. The error message follows `ErrorAfter`. An alert is raised iff the request threw |
| LoginPage.ReturningUserReachesSameDashboard | app/page.js:60-67 | after an admin or CSR logs in, reopening the login page forwards to the same dashboard the server chose |
| LoginPage.FailedLoginShowsRouteMessage | app/page.js:68-70 | a failed login leaves the cache untouched and shows the route's own message |
| Models.NewAdmin | models/Admin.js:4-11 | `isCSR` and `isAdmin` default to false; the other fields are stored as given |
| Models.NewCsr | models/CSR.js:4-13 | `isActive` and `isCSR` default to true; `isLeadRole` and `isAdmin` default to false |
| Models.FindFirst | app/api/csr/route.js:25-27 | `findOne` returns a matching record from the collection, and None iff no record matches |
| Models.FindFirstIsFirst | app/api/csr/route.js:25-27 | what `findOne` returns is a match with no match before it in collection order |
| Models.AdminEmailNotUnique | models/Admin.js:6-8 | two admins with one email form a valid Admin collection |
| CsrRoute.Built | app/api/csr/route.js:47-57 | the new record is active, a CSR and not an admin. It is a lead iff the input says true. It stores the hash of the password |
| CsrRoute.Post | app/api/csr/route.js:7-80 | a missing field gives 400 and stores nothing. A clash gives 400 on the field of the first clashing record, username before email. A complete input with no clash succeeds iff the hash is not empty; otherwise save fails with 500. Success appends exactly the built record. Any error leaves the store unchanged |
| CsrRoute.Get | app/api/csr/route.js:83-103 | one view per stored CSR, in order, without the password |
| CsrRoute.PostKeepsCollection | app/api/csr/route.js:24-59 | a create keeps the CSR collection valid, with usernames and emails unique |
| CsrRoute.PostOnlyAppends | app/api/csr/route.js:47-59 | a successful create adds one record at the end and moves nothing else |
| CsrRoute.CreatedIsFresh | app/api/csr/route.js:24-42 | a successful create reuses no stored username or email |
| CsrRoute.ResponseHidesHash | app/api/csr/route.js:61-72 | the create response does not depend on the hash function |
| CsrRoute.GetHidesHashes | app/api/csr/route.js:90 | collections differing only in password hashes list identically |
| CsrRoute.EarlierEmailClashWins | app/api/csr/route.js:25-41 | an earlier email-only clash is reported on "email" even though a later record has the username |
| CsrRoute.CsrWithAdminUsernameIsShadowed | app/api/csr/route.js:25-27 | a CSR can be created with an admin's username, and login with that username then reaches the admin |
| CoWorkersRoute.Post | app/api/co-workers/route.js:64-115 | a missing name or CNIC gives 400. A malformed CNIC gives 400. A duplicate CNIC gives 400. Success, which also needs a name that is not blank after trimming, appends one record holding the trimmed fields. Errors leave the store unchanged |
| CoWorkersRoute.Get | app/api/co-workers/route.js:42-62 | the same records, newest first |
| CoWorkersRoute.PostKeepsCollection | app/api/co-workers/route.js:88-101 | a create keeps every CNIC well-formed and distinct |
| CoWorkersRoute.BlankNameIsServerError | app/api/co-workers/route.js:69-114 | a whitespace-only name passes the route's check but fails the schema: 500 and nothing stored |
| CoWorkersRoute.SecondRegistrationRefused | app/api/co-workers/route.js:90-97 | registering the same CNIC again right after a success is refused with 400 |
| Patterns.CnicIsGroups | app/api/co-workers/route.js:77-78 | a CNIC is digit groups of 5, 7 and 1 joined by hyphens |
| Patterns.CnicSurvivesTrim | app/api/co-workers/route.js:12-16 | a valid CNIC has no white space, so `trim` keeps it |
| Patterns.PhoneSurvivesTrim | app/api/students/route.js:23-28 | an 11-digit phone is its own trim |
| Patterns.MatchEmailIsShape | app/api/students/route.js:80-81 | the one-pass matcher accepts exactly the strings `^\S+@\S+\.\S+$` matches |
| Patterns.EmailSurvivesTrim | app/api/students/route.js:17-22 | a valid email is its own trim |
| StudentsRoute.Post | app/api/students/route.js:67-118 | checks run in the order required fields, email, phone, and each gives 400 with its own message. Success appends one record with the trimmed fields. Errors leave the store unchanged |
| StudentsRoute.Get | app/api/students/route.js:45-65 | the same records, newest first |
| StudentsRoute.PostKeepsCollection | app/api/students/route.js:102-104 | a create keeps every stored student valid |
| StudentsRoute.DuplicatesAccepted | app/api/students/route.js:102-110 | with no duplicate check, the same submission is stored twice |
| CoursesRoute.DurationOf | app/api/courses/route.js:22-27 | an omitted flag, or an omitted duration, is false |
| CoursesRoute.Post | app/api/courses/route.js:66-107 | a missing name or trainer, or an undefined price, gives 400. A NaN or negative price gives 400. A null price gives 500. Success appends one record. Errors leave the store unchanged |
| CoursesRoute.Get | app/api/courses/route.js:44-64 | the same records, newest first |
| CoursesRoute.PostKeepsCollection | app/api/courses/route.js:91-93 | a create keeps every course named and non-negatively priced |
| Lists.Filter | app/csr/csr-dashboard/page.js:33-37 | `filter` keeps exactly the elements that pass, in order. If every element passes, the list comes back whole |
| Lists.SortNewestFirst | app/api/students/route.js:52 | `sort({ createdAt: -1 })` gives a permutation in non-increasing `createdAt` order |
| Text.Lower | app/admin/users/page.js:150-152 | `toLowerCase` maps each character and keeps the length |
| Text.TrimEmptyIff | app/api/co-workers/route.js:7-11 | `trim` leaves nothing iff the string is all white space |
| Text.ParseInt | app/admin/course-management/page.js:90 | `parseInt` reads the leading digits, and is NaN when the string has none |
| Text.ParsePrinted | app/admin/course-management/page.js:165 | `parseInt` of a printed non-negative integer gives the integer back |
| CourseManagement.TrainerById | app/admin/course-management/page.js:90-95 | the trainer whose id `parseInt` reads from the form, and None iff no trainer has that id |
| CourseManagement.TrainerByName | app/admin/course-management/page.js:163-166 | the trainer with that exact name, and None iff none has it |
| CourseManagement.TrainerRoundTrip | app/admin/course-management/page.js:11-17 | every trainer is found again from its name and from its printed id |
| CourseManagement.TrainerNameTrimmed | app/admin/course-management/page.js:11-17 | trainer names survive the route's `trim` |
| CourseManagement.SelectedFlags | app/admin/course-management/page.js:39-42 | each label is selected exactly when its own flag is set |
| CourseManagement.LabelsExact | app/admin/course-management/page.js:38-42 | a label is present iff its flag is set. The labels keep the fixed order. The flags can be read back from the labels |
| CourseManagement.BuildDurationLabels | app/admin/course-management/page.js:38-42 | the four conditional pushes produce `LabelsOf(flags)` |
| CourseManagement.Listed | app/admin/course-management/page.js:45-49 | a processed course keeps its fields, gains `id = _id`, and its labels give back its flags |
| CourseManagement.DurationRoundTrip | app/admin/course-management/page.js:102-107 | the checkboxes sent and stored are read back by `handleEdit` as the same checkboxes |
| CourseManagement.Prepare | app/admin/course-management/page.js:81-110 | refused iff no checkbox is set, or the trainer id is unknown. Otherwise the body carries the trainer's name and the mapped flags. It is a POST to /api/courses with no editingId, else a PUT to /api/courses/{id} |
| CourseManagement.EditedForm | app/admin/course-management/page.js:156-175 | the form takes the name, the printed price and the mapped checkboxes; an unknown trainer leaves the trainer field as it was |
| CourseManagement.Page.constructor | app/admin/course-management/page.js:19-21 | no courses, no editingId, loading, default form |
| CourseManagement.Page.FetchCourses | app/admin/course-management/page.js:28-63 | on success the list becomes the fetched courses, each with `id` and labels; otherwise it is unchanged; loading ends |
| CourseManagement.Page.OnSubmit | app/admin/course-management/page.js:81-154 | a refusal sends nothing and changes nothing. Otherwise the prepared request goes out. A successful update ends editing. Any answer resets the form. An exception leaves both |
| CourseManagement.Page.HandleEdit | app/admin/course-management/page.js:156-175 | editingId is the course's `_id`, and the form is `EditedForm` |
| CourseManagement.Page.HandleCancel | app/admin/course-management/page.js:200-203 | editingId becomes null and the form resets |
| CourseManagement.EditThenSubmitPreserves | app/admin/course-management/page.js:81-175 | editing a course and submitting unchanged sends a PUT for it, with the same trainer and flags |
| CourseManagement.CreateIsStored | app/admin/course-management/page.js:98-108 | a valid new course is stored by the route with the trainer's name and the chosen flags |
| CourseManagement.UnparseablePriceIsServerError | app/admin/course-management/page.js:101 | an unparseable price is sent as null and the route answers 500 |
| UsersPage.Merge | app/admin/users/page.js:82 | form fields override; `_id` and `createdAt` stay; the password is kept unless the form has one |
| UsersPage.Updated | app/admin/users/page.js:81-83 | same length and ids, in order; only users with the edited `_id` are merged |
| UsersPage.NewUser | app/admin/users/page.js:89-93 | the id is the printed clock and `createdAt` the ISO time; the form's fields are merged in |
| UsersPage.FormFor | app/admin/users/page.js:110-114 | loading a user into the form and merging back gives the user, unless the user has no password and the form kept one |
| UsersPage.Without | app/admin/users/page.js:126 | exactly the users with another `_id`, in order |
| UsersPage.Search | app/admin/users/page.js:149-153 | a user is kept iff the lower-cased term occurs in the lower-cased name, username or email; the result is an order-preserving sublist |
| UsersPage.EmptySearchKeepsAll | app/admin/users/page.js:149-153 | an empty term keeps every user |
| UsersPage.SearchIgnoresTermCase | app/admin/users/page.js:149-153 | the search gives the same result for a term and its lower-cased form |
| UsersPage.EditUntouchedIsIdentity | app/admin/users/page.js:79-114 | editing a user and saving untouched leaves the list unchanged |
| UsersPage.DeleteRemovesExactly | app/admin/users/page.js:126 | no user with the id remains, every other user remains, and the length is unchanged iff no user had the id |
| UsersPage.Page.constructor | app/admin/users/page.js:10-18 | empty list, loading, nothing selected, form empty |
| UsersPage.Page.FetchUsers | app/admin/users/page.js:24-75 | the list becomes the three sample users; loading ends |
| UsersPage.Page.OnSubmit | app/admin/users/page.js:77-103 | an edit replaces the list with `Updated` and ends editing. An addition appends `NewUser` and hides the form. The form resets |
| UsersPage.Page.HandleEdit | app/admin/users/page.js:105-115 | selects the user, shows the form, and fills it with `FormFor` |
| UsersPage.Page.HandleDelete | app/admin/users/page.js:117-120 | selects the user and opens the dialog |
| UsersPage.Page.ConfirmDelete | app/admin/users/page.js:122-136 | with no selection nothing changes; otherwise the list becomes `Without(id)`, the dialog closes and the selection is cleared |
| UsersPage.Page.CancelDelete | app/admin/users/page.js:138-141 | the dialog closes and the selection is cleared |
| UsersPage.Page.HandleCancel | app/admin/users/page.js:143-147 | ends editing, hides the form and resets it |
| UsersPage.Page.ToggleAddForm | app/admin/users/page.js:169-173 | toggles the form, ends editing and resets the form |
| UsersPage.Page.Shown | app/admin/users/page.js:149-153 | the rows are the users the search keeps, in order |
| AddCsrPage.Stripped | app/admin/add-csr/page.js:106 | the payload is the form without `confirmPassword` |
| AddCsrPage.FilterCsrs | app/admin/add-csr/page.js:67-75 | a CSR is kept iff the lower-cased term occurs in the lower-cased "name username email"; the result is an order-preserving sublist |
| AddCsrPage.FieldMatchIsFound | app/admin/add-csr/page.js:68-72 | a term found in any one field is found in the joined text |
| AddCsrPage.MatchSpansFields | app/admin/add-csr/page.js:69-72 | a term can match across a field boundary |
| AddCsrPage.UntickedActiveStillActive | app/api/csr/route.js:53-54 | creating from a form with "active" unticked still stores an active CSR; the lead flag follows the form |
| AddCsrPage.Page.constructor | app/admin/add-csr/page.js:33-61 | the initial state, with the filtered list consistent |
| AddCsrPage.Page.SetSearchTerm | app/admin/add-csr/page.js:67-75 | the filtered list is recomputed for the new term |
| AddCsrPage.Page.FetchCsrs | app/admin/add-csr/page.js:77-94 | on success the list is replaced and refiltered; otherwise it is unchanged; fetching ends |
| AddCsrPage.Page.OnSubmit | app/admin/add-csr/page.js:96-148 | different passwords send nothing. Otherwise the stripped payload goes out: a PUT to /api/csr/{id} when editing, else a POST to /api/csr. Success resets and hides the form; only an update ends editing. Loading is false afterwards |
| AddCsrPage.Page.HandleEdit | app/admin/add-csr/page.js:150-160 | the form takes the CSR's fields with both password fields blank |
| AddCsrPage.Page.HandleDelete | app/admin/add-csr/page.js:162-165 | selects the id and opens the modal |
| AddCsrPage.Page.ConfirmDelete | app/admin/add-csr/page.js:167-188 | sends a DELETE for the selected id. The modal closes only on success. `deleting` ends false |
| AddCsrPage.Page.HandleCancel | app/admin/add-csr/page.js:190-194 | ends editing, resets and hides the form |
| StudentManagement.Listed | app/csr/student-management/page.js:52 | a listed student carries every field of the stored record |
| StudentManagement.FilterStudents | app/csr/student-management/page.js:126-132 | kept iff the name, guardian name or email contains the term ignoring case, or the phone contains it exactly. The result is an order-preserving sublist |
| StudentManagement.BlankStudentNeverShown | app/csr/student-management/page.js:126-132 | a student with every field missing matches no term |
| StudentManagement.EmptyTermKeepsListed | app/csr/student-management/page.js:126-132 | the empty term keeps every student that has at least one of the four searched fields |
| StudentManagement.PhoneMatchIsExact | app/csr/student-management/page.js:131 | the phone is compared case-sensitively |
| StudentManagement.SubmitRequest | app/csr/student-management/page.js:65-66 | a PUT to /api/students/{id} iff editing, else a POST to /api/students |
| StudentManagement.Page.constructor | app/csr/student-management/page.js:25-32 | the initial state |
| StudentManagement.Page.Shown | app/csr/student-management/page.js:126-132 | the rows are the students the search keeps |
| StudentManagement.Page.FetchStudents | app/csr/student-management/page.js:46-60 | on success the list becomes `students \|\| []`; otherwise it is unchanged |
| StudentManagement.Page.OnSubmit | app/csr/student-management/page.js:62-88 | sends `SubmitRequest`. A refetch happens iff it succeeded. Success clears editing, the form and its visibility; failure leaves all three |
| StudentManagement.Page.HandleEdit | app/csr/student-management/page.js:90-97 | selects the student and fills the form |
| StudentManagement.Page.HandleDeleteClick | app/csr/student-management/page.js:99-102 | selects the id and opens the modal |
| StudentManagement.Page.ConfirmDelete | app/csr/student-management/page.js:104-118 | sends a DELETE for the selected id; the modal closes whatever the outcome |
| StudentManagement.Page.HandleCancel | app/csr/student-management/page.js:120-124 | clears editing and hides the form |
| CsrDashboard.FilterCoWorkers | app/csr/csr-dashboard/page.js:33-37 | kept iff the name contains the term ignoring case, or a present purpose or reference does; the result is an order-preserving sublist |
| CsrDashboard.EmptyTermKeepsAll | app/csr/csr-dashboard/page.js:33-37 | the empty term keeps every co-worker |
| CsrDashboard.TermCaseIgnored | app/csr/csr-dashboard/page.js:33-37 | a term and its lower-cased form give the same result |
| CsrDashboard.Page.constructor | app/csr/csr-dashboard/page.js:7-9 | empty list, loading, empty term |
| CsrDashboard.Page.Total | app/csr/csr-dashboard/page.js:67 | the total is the unfiltered count, never below the number shown |
| CsrDashboard.Page.Shown | app/csr/csr-dashboard/page.js:33-37 | the rows are the co-workers the search keeps |
| CsrDashboard.Page.FetchCoWorkers | app/csr/csr-dashboard/page.js:12-27 | a successful reply replaces the list; anything else leaves it; loading ends |
| CsrDashboard.Page.SetSearchTerm | app/csr/csr-dashboard/page.js:54 | only the term changes |
| CsrDashboard.Mount | app/csr/csr-dashboard/page.js:7-30 | a failed fetch leaves an empty list with total 0, and loading off |
| AdminDashboard.ActiveCount | app/admin/dashboard/page.js:31 | at most the total, and equal to it iff every CSR is active |
| AdminDashboard.ActiveCountAppend | app/admin/dashboard/page.js:31 | an appended CSR adds one to the count iff it is active |
| AdminDashboard.StatsOf | app/admin/dashboard/page.js:30-38 | stats exist iff nothing threw and both the CSR and co-worker fetches succeeded. Then they are the totals, the number of CSRs whose `isActive` is true (at most the total), and the students' length or 0 |
| AdminDashboard.Page.constructor | app/admin/dashboard/page.js:7-13 | zero stats, loading |
| AdminDashboard.Page.FetchStats | app/admin/dashboard/page.js:16-45 | the stats become `StatsOf(...)` when it exists, else stay; loading ends |
| AdminDashboard.Mount | app/admin/dashboard/page.js:6-48 | the stats are `StatsOf`'s counts when it gives them, and zeros otherwise, in particular unless both required fetches succeeded. The active count ≤ the total |
| AdminDashboard.InactiveNotCounted | app/admin/dashboard/page.js:31-35 | an inactive CSR is counted in the total only |
| TitleCase.CollapseSeps | components/AdminTop.js:8 | the result has no '-' or '_' and is no longer than the input |
| TitleCase.CollapseSepsFree | components/AdminTop.js:8 | text without separators is unchanged |
| TitleCase.CollapseRunOnce | components/AdminTop.js:8 | a whole run of separators, however mixed, becomes one space |
| TitleCase.SplitOn | components/AdminTop.js:10 | `split` gives at least one piece, and no piece contains the separator |
| TitleCase.SplitJoin | components/AdminTop.js:10-13 | splitting a join of separator-free pieces gives the pieces |
| TitleCase.JoinSplit | components/AdminTop.js:10-13 | joining a split gives the string |
| TitleCase.Capitalize | components/AdminTop.js:12 | the first character is upper-cased and the rest kept |
| TitleCase.Words | components/AdminTop.js:8-11 | the words are non-empty and lower-case, with no space or separator |
| TitleCase.CapitalizeAll | components/AdminTop.js:12 | each word capitalized, in order |
| TitleCase.TitleCaseSpacing | components/AdminTop.js:6-14 | the result has no leading, trailing or doubled spaces |
| TitleCase.TitleWords | components/AdminTop.js:6-14 | every word is upper-case first and lower-case after |
| TitleCase.TitleCaseIdempotent | components/AdminTop.js:6-14 | title-casing twice equals title-casing once |
| TitleCase.Segments | components/AdminTop.js:20 | the path's non-empty parts, without '/' |
| TitleCase.AdminHeading | components/AdminTop.js:20 | it fails (throws) iff there are fewer than two segments; otherwise it is the second segment title-cased, with clean spacing |
| TitleCase.CsrHeading | components/CsrTop.js:20-23 | it throws as AdminTop does; a title starting "Csr" becomes "CSR Dashboard"; any other title is AdminTop's |
| TitleCase.HyphenatedHeading | components/AdminTop.js:20 | "/area/a-b" is headed "A B" with both words capitalized, so "/admin/add-csr" gives "Add Csr" |
| TitleCase.TwoSegments | components/AdminTop.js:20 | "/area/seg" has exactly the two segments |
| TitleCase.HyphenatedWords | components/AdminTop.js:8-11 | two plain words joined by a hyphen give those two words |
| TitleCase.HyphenToSpace | components/AdminTop.js:8 | a hyphen between plain words becomes one space |
| TitleCase.SplitSpaced | components/AdminTop.js:10-11 | splitting "a b" and dropping empties gives the two words |
| TitleCase.CsrPrefixOverrides | components/CsrTop.js:21-23 | a second segment beginning "csr" in any case gets "CSR Dashboard" |
| TitleCase.TitleStartsCsr | components/CsrTop.js:21 | a segment beginning "csr" in any case title-cases to one beginning "Csr" |

## Left out

- I/O is outside the model: MongoDB connections and the connection cache in
  `lib/mongoose.js`, `fetch`, `console` and toasts. Collections are sequences.
  On the pages, a request's outcome is a parameter, and so is the clock.
- The routes' catch-all 500 answers are not modelled in any route. They cover a
  database error and an unreadable JSON body (`req.json()` throwing), in
  app/api/login/route.js:103-109, app/api/csr/route.js:73-79 and 96-101 and
  the other routes' `catch` blocks. `LoginResponse` therefore has no 500
  case. The 500s the routes' own validators cause on save are modelled.
- JWT signing and verification and bcrypt hashing and comparison are
  oracles. Nothing is proved about their cryptographic behaviour.
- The `[id]` routes (GET, PUT and DELETE of a single record) are not part of
  this model. The pages' requests to them are modelled only as the request
  sent and its outcome.
- Other parts of the repository are not part of this model:
  - `scripts/createAdmin.js`;
  - the reports, settings and co-working pages;
  - the navbar, background video and mouse-glow components;
  - `models/Course.js` and `models/CoWorker.js`, which no modelled code
    imports.
- The form library's client-side validation (react-hook-form `required` and
  `pattern` rules) is left out. Every form value may reach the handlers.
- Case mapping is ASCII only. Unicode `toLowerCase` and `toUpperCase` are not
  modelled.
- Prices are reals without NaN. `parseFloat`, `toString` and `toLocaleString`
  are parameters, and `isNaN` on a string is a price variant.
- Text.ParseInt: the `0x` prefix (radix 16) is not modelled. The trainer ids
  it reads are decimal.
- Middleware.Decide: `verify` is synchronous and total. The `jose` error path
  is its `None`.
- AddCsrPage.Page.FetchCsrs: a successful reply without a `csrs` list is read
  as the empty list. The page itself stores `undefined`, and the next filter
  then throws.
- CsrDashboard.Page.FetchCoWorkers: a successful reply without a `coWorkers`
  list leaves the list unspecified, for the same reason. The page stores
  `undefined` and the filter throws.
- UsersPage.FormFor: the form library keeps a stale password when a user
  without one is edited. The model states this rather than the spread the
  code intends.
- LoginPage.Page.HandleLogin: the `alert` and the loading spinner's timing
  are observable only as the `alerted` flag and the final `loading`.
- CourseManagement.Page.OnSubmit: `reset()` is modelled as returning the form
  to its default values, which is what react-hook-form does with the
  `defaultValues` given.
