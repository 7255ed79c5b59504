# Storefront auth handlers and client state machines, in Dafny

This project models the three small pieces of logic in a storefront web
application that carry state or rules of their own:

1. **The two authentication request handlers** on an in-memory copy of the
   `user` and `passwordResetToken` tables (`Store.Database`):
   - registration (`RegisterRoute.Register`) validates the body against the
     registration schema, answers 409 for a taken email, and otherwise creates
     one `BUYER` whose password column holds the bcrypt digest and whose `name`
     is first name, a space, last name; it answers 201 with the row minus its
     password;
   - the password-reset request (`PasswordResetRoute.RequestPasswordReset`)
     answers 400 to a missing, empty or non-string email; for a known email it
     deletes that user's reset tokens and inserts one token holding the bcrypt
     digest of a 64-character hex raw token, expiring 3 600 000 ms later. Its
     reply never depends on whether the user exists.
2. **The scroll-visibility / expand state machine** of the left and right
   sidebars (`Sidebar.ExpandableSidebar`, threshold 50) and of the bottom
   navigation bar (`BottomNavbar.Navbar`, threshold 70), all driven by the
   one scroll rule `ScrollVisibility.Step`; the right sidebar's navigation
   filter by session status (`RightSidebarNav`); the navigation bar's
   seller-mode toggle and its three-way profile section.
3. **The sign-up form schema** (`SignUpForm.ValidateSignUp`), with a proof
   that whatever the form accepts, the server's registration schema accepts
   with the same values.

Opaque collaborators are parameters: `bcrypt.hash` is a function
`(string, nat) -> Digest` given to each handler call (its salt may differ
between calls), `crypto.randomBytes(32)` is a `Bytes32` value, `Date.now()`
is an integer, and Zod's email format check is a predicate `string -> bool`.
Bytes are turned into the raw token by `Crypto.ToHex`, which models
`Buffer.toString("hex")` exactly and is proved invertible. String lengths in
the schemas are JavaScript lengths, counted in UTF-16 code units
(`JsValues.JsLength`). Request bodies are JSON values (`JsValues.Json`), and
the JavaScript truthiness and `typeof` tests of the reset handler are modelled
as written.

The file `src/components/layout/Header.jsx` defines a component named
`BottomNavbar`; the module takes that name.

The reset handler answers 400 to a missing, empty or non-string email and
500 when the body cannot be read or is `null`. There is no
reset-confirmation endpoint.

## Model

| member | source | states |
|---|---|---|
| `JsValues.JsLength` | src/app/api/auth/register/route.ts:10-13 | a string's JavaScript length is between its number of characters and twice that, and equals it when no character lies above the Basic Multilingual Plane |
| `JsValues.Truthy` | src/app/api/auth/request-password-reset/route.ts:16 | `undefined` and `null` are falsy, arrays and objects truthy, a string truthy exactly when non-empty, a boolean exactly when true |
| `JsValues.TypeOf` | src/app/api/auth/request-password-reset/route.ts:16 | `typeof` is one of the five names a JSON value can give; it is "string" exactly for a string and "undefined" exactly for a missing property |
| `Crypto.ToHex` | src/app/api/auth/request-password-reset/route.ts:36 | hex encoding gives two lower-case hexadecimal digits per byte |
| `Crypto.FromHexToHex` | src/app/api/auth/request-password-reset/route.ts:36 | the bytes can be read back from their hex encoding |
| `Crypto.ToHexInjective` | src/app/api/auth/request-password-reset/route.ts:36 | distinct random byte strings give distinct raw tokens |
| `Crypto.RawTokenShape` | src/app/api/auth/request-password-reset/route.ts:36 | the raw token from 32 random bytes is 64 hexadecimal characters |
| `Store.WithoutPassword` | src/app/api/auth/register/route.ts:76 | the returned record keeps id, names, email and role; its type has no password field |
| `Store.FindByEmail` | src/app/api/auth/register/route.ts:42-44 | a found row is in the table and has the email; nothing is found exactly when no row has the email |
| `Store.WithoutTokensOf` | src/app/api/auth/request-password-reset/route.ts:32-34 | a row survives `deleteMany` exactly when it belonged to another user |
| `Store.DeleteLeavesNoneOf` | src/app/api/auth/request-password-reset/route.ts:32-34 | after the deletion no row of that user is left |
| `Store.DeleteKeepsOthers` | src/app/api/auth/request-password-reset/route.ts:32-34 | every other user's rows are unchanged, in order |
| `Store.IssueToken` | src/app/api/auth/request-password-reset/route.ts:32-46 | delete-then-create ends with the new row, and a row is in the table afterwards exactly when it is the new one or an old row of another user |
| `Store.IssueLeavesExactlyOne` | src/app/api/auth/request-password-reset/route.ts:30-46 | after delete-then-create the user has exactly one row, the new one |
| `Store.IssueKeepsOthers` | src/app/api/auth/request-password-reset/route.ts:32-46 | issuing a token for one user leaves every other user's rows unchanged |
| `Store.IssueTwiceLeavesLatest` | src/app/api/auth/request-password-reset/route.ts:32-46 | two requests for one user leave one row for that user, the later one |
| `Store.Database.CreateUser` | src/app/api/auth/register/route.ts:60-73 | appends exactly one row with a fresh id, keeps emails and ids unique, leaves the token table alone |
| `Store.Database.DeleteResetTokensOf` | src/app/api/auth/request-password-reset/route.ts:32-34 | the token table becomes the filtered table; users unchanged |
| `Store.Database.CreateResetToken` | src/app/api/auth/request-password-reset/route.ts:40-46 | appends the one row; every token row still refers to a user |
| `RegisterRoute.FieldErrors` | src/app/api/auth/register/route.ts:10-15 | each field is in error exactly when it breaks its rule: names of length at least 1, email format, password of length at least 8, newsletter absent or boolean |
| `RegisterRoute.ParseRegistration` | src/app/api/auth/register/route.ts:9-16 | a non-object fails with no field errors; an object fails with exactly the fields breaking their rule (names of length at least 1, email format, password of length at least 8, optional boolean newsletter); success carries the body's strings and the newsletter flag, false when absent |
| `RegisterRoute.ParseSucceedsIff` | src/app/api/auth/register/route.ts:21-23 | the schema accepts exactly the objects whose fields all keep their rules |
| `RegisterRoute.Register` | src/app/api/auth/register/route.ts:18-89 | unreadable body: 500; schema failure: 400 "Invalid input" with the field errors; taken email: 409; only 201 changes the user table, appending one `Buyer` row whose name is first + " " + last and whose password is the bcrypt digest at cost 10, returned without password, and the id counter moves on by one; the token table never changes |
| `RegisterRoute.RegisterTwice` | src/app/api/auth/register/route.ts:42-51 | the same valid body twice: 201, then 409, with one row added in all |
| `PasswordResetRoute.EmailGuard` | src/app/api/auth/request-password-reset/route.ts:16-21 | the JavaScript test rejecting a falsy or non-string email passes exactly the non-empty strings |
| `PasswordResetRoute.ClassifyRequest` | src/app/api/auth/request-password-reset/route.ts:14-21 | unreadable or null body is an error; otherwise the request names an email exactly when its `email` property is a non-empty string |
| `PasswordResetRoute.ReplyFor` | src/app/api/auth/request-password-reset/route.ts:16-73 | 200 with the generic notice exactly for a request naming an email, 400 "Email is required." for a missing one, 500 for an unreadable body; the store plays no part |
| `PasswordResetRoute.NoEnumeration` | src/app/api/auth/request-password-reset/route.ts:58-65 | any two requests naming an email get identical replies |
| `PasswordResetRoute.NewToken` | src/app/api/auth/request-password-reset/route.ts:36-46 | the new row belongs to the user, stores the digest of the 64-character raw token, expires at now + 3600000 |
| `PasswordResetRoute.RequestPasswordReset` | src/app/api/auth/request-password-reset/route.ts:12-74 | users never change; 400, 500 and unknown emails leave the token table unchanged; a known email leaves exactly that user's new row and every other user's rows as they were; the reply is a function of the request alone |
| `PasswordResetRoute.RequestTwice` | src/app/api/auth/request-password-reset/route.ts:30-46 | two requests for one user both answer 200 and leave only the second token for that user |
| `ScrollVisibility.Step` | src/components/home/LeftSidebar.tsx:27-38 | scrolling down past the threshold hides; scrolling up or reaching the threshold shows; holding still past it keeps visibility; the remembered offset is the offset clamped at 0 |
| `ScrollVisibility.HiddenIff` | src/components/home/LeftSidebar.tsx:29-36 | an event leaves the element hidden exactly when it scrolls down past the threshold or holds still while hidden |
| `ScrollVisibility.StepIdempotent` | src/components/home/LeftSidebar.tsx:27-38 | repeated events at the same offset change nothing after the first |
| `ScrollVisibility.ReplayKeepsOffset` | src/components/home/LeftSidebar.tsx:37 | after any run of events the remembered offset is not negative and is the last offset clamped at 0 |
| `ScrollVisibility.ReplayEndingNearTopIsVisible` | src/components/home/LeftSidebar.tsx:31-35 | a run ending at or under the threshold leaves the element visible |
| `Sidebar.ExpandableSidebar.constructor` | src/components/home/LeftSidebar.tsx:20-25 | starts visible at offset 0, neither expanded nor hovering |
| `Sidebar.NewLeftSidebar` | src/components/home/LeftSidebar.tsx:17-25 | LeftSidebar's machine uses threshold 50 and starts visible at offset 0, not expanded |
| `Sidebar.NewRightSidebar` | src/components/home/RightSidebar.tsx:25-40 | RightSidebar's machine is the same one with the same threshold 50 and the same initial state |
| `Sidebar.ExpandableSidebar.IsEffectivelyExpanded` | src/components/home/LeftSidebar.tsx:66-67 | effective expansion implies scroll visibility and one of the two expansion flags |
| `Sidebar.ExpandableSidebar.HandlePageScroll` | src/components/home/RightSidebar.tsx:45-56 | visibility and offset follow the scroll rule (the same code in both sidebars, threshold 50); expansion flags unchanged |
| `Sidebar.ExpandableSidebar.HandleMouseEnter` | src/components/home/LeftSidebar.tsx:45-53 | a timer is pending afterwards exactly when the sidebar is visible |
| `Sidebar.ExpandableSidebar.HoverTimerFires` | src/components/home/LeftSidebar.tsx:48-52 | a pending timer sets hover expansion unless the sidebar is manually expanded |
| `Sidebar.ExpandableSidebar.HandleMouseLeave` | src/components/home/LeftSidebar.tsx:55-58 | clears hover expansion and the pending timer |
| `Sidebar.ExpandableSidebar.ToggleManualExpand` | src/components/home/RightSidebar.tsx:78-82 | flips the manual flag, clears hover expansion and the timer; in the model, keeps the invariant that hover and manual expansion never hold together |
| `Sidebar.ToggleTwice` | src/components/home/LeftSidebar.tsx:60-64 | toggling twice restores the manual flag |
| `Sidebar.EnterWhileHidden` | src/components/home/LeftSidebar.tsx:45-52 | entering while hidden by scroll schedules no expansion |
| `Sidebar.ExpandedSellers` | src/components/home/LeftSidebar.tsx:141 | at most 3 sellers, a prefix of the list, all of it when shorter |
| `RightSidebarNav.IsShown` | src/components/home/RightSidebar.tsx:168 | an entry is rendered exactly when it needs no session or the user is authenticated, so an authenticated user sees every entry |
| `RightSidebarNav.VisibleItems` | src/components/home/RightSidebar.tsx:167-169 | the expanded list is no longer than `navItems` |
| `RightSidebarNav.VisibleItemsMembers` | src/components/home/RightSidebar.tsx:167-169 | an entry is listed exactly when it is a nav item that needs no session or the user is authenticated |
| `RightSidebarNav.VisibleItemsKeepOrder` | src/components/home/RightSidebar.tsx:167-169 | filtering distributes over concatenation, so the listed entries keep their order |
| `RightSidebarNav.AuthenticatedSeesAll` | src/components/home/RightSidebar.tsx:168 | an authenticated user sees every entry |
| `RightSidebarNav.UnauthenticatedSeesPublicItems` | src/components/home/RightSidebar.tsx:88-105 | without a session the list is exactly Cart, Shopping, Feedback |
| `RightSidebarNav.CollapsedItems` | src/components/home/RightSidebar.tsx:212 | the collapsed sidebar shows at most 4 entries |
| `RightSidebarNav.CollapsedItemsMembers` | src/components/home/RightSidebar.tsx:212-215 | an entry is shown collapsed exactly when it is among the first four and passes the same auth rule |
| `RightSidebarNav.CollapsedNavItems` | src/components/home/RightSidebar.tsx:212-226 | collapsed: Cart and Shopping without a session, the first four entries with one |
| `RightSidebarNav.ShowsAuthButtons` | src/components/home/RightSidebar.tsx:150-199 | Login and Sign Up show exactly when the sidebar is effectively expanded and the status is unauthenticated |
| `BottomNavbar.Navbar.constructor` | src/components/layout/Header.jsx:18-20 | starts visible at offset 0 in buyer mode |
| `BottomNavbar.Navbar.HandleScroll` | src/components/layout/Header.jsx:25-36 | visibility and offset follow the scroll rule with threshold 70; the mode is unchanged |
| `BottomNavbar.Navbar.ToggleSellerMode` | src/components/layout/Header.jsx:112 | flips seller mode and nothing else |
| `BottomNavbar.Navbar.ModeLabel` | src/components/layout/Header.jsx:115 | the label is "For Sellers" exactly in seller mode, "For Buyers" otherwise |
| `BottomNavbar.ToggleTwice` | src/components/layout/Header.jsx:111-116 | pressing the mode button twice restores the mode |
| `BottomNavbar.RenderProfileSection` | src/components/layout/Header.jsx:47-101 | loading, authenticated and unauthenticated each select their own one of the three sections; the link goes to /profile with the session image when it is non-empty; the menu routes Login to /login and Sign Up to /signup |
| `SignUpForm.NewsletterChoice` | src/components/auth/SignUpForm.tsx:40 | the flag is true only for the boolean true; absent or invalid values become false |
| `SignUpForm.FormErrors` | src/components/auth/SignUpForm.tsx:22-45 | each field is in error exactly when it breaks its rule; `confirmPassword` exactly when the terms value is a boolean and the confirmation differs from the password |
| `SignUpForm.ValidateSignUp` | src/components/auth/SignUpForm.tsx:22-45 | accepted exactly when both names have length at least 2, the email is valid, the password has length at least 8, the terms value is true and the confirmation equals the password; on failure each field is in error exactly when it breaks its rule, a mismatch is reported on `confirmPassword`, and it is not checked when the terms value is not a boolean (that aborts the object parse); accepted values carry terms true and the coerced newsletter flag |
| `SignUpForm.SubmittedBody` | src/components/auth/SignUpForm.tsx:73-77 | the posted JSON object has exactly the seven form keys, each holding the submitted value |
| `SignUpForm.FormAcceptedImpliesServerAccepts` | src/components/auth/SignUpForm.tsx:22-45 | whatever the form accepts and posts, the server schema accepts with the same names, email, password and newsletter flag |

## Left out

- Logging, the reset URL and email dispatch: the handlers only write to the console; the reset URL literal is not well-formed and nothing sends it.
- RegisterRoute.Register: the 500 answer is modelled for a body that is not JSON; a failing bcrypt call or database call, which the code also turns into 500, is not modelled.
- PasswordResetRoute.RequestPasswordReset: the 500 answer is modelled for a body that is not JSON or is `null`; failing bcrypt or database calls are not modelled.
- Concurrency between requests: each handler is one atomic step, so the race between two delete-then-create sequences is not modelled.
- bcrypt and the random source are opaque: the cost argument is passed, but its effect on the digest, the salt and the entropy are not modelled, so two digests of one input may or may not differ as the given functions decide.
- Zod's email format check is an opaque predicate, and the messages attached to field errors are left out; only the set of fields in error is modelled.
- JSON numbers are integers, and strings cannot hold lone UTF-16 surrogates.
- User ids are natural numbers handed out in order; the database schema (id strategy, columns other than those the registration handler writes) is not part of this model.
- Sidebar.ExpandableSidebar.HandlePageScroll: each scroll event is applied to the state the previous event left. In the source the listener reads `lastScrollTop` from the closure of its render and is re-registered only after a re-render, so events arriving before that compare against a stale offset (from offset 0, events 100 then 60 before a re-render leave the source hidden and the model visible). `window.pageYOffset` is a double; the model uses integers.
- BottomNavbar.Navbar.HandleScroll: the same two abstractions as the sidebars' handler, for the listener of the navigation bar: events are applied in sequence rather than against the offset of the last render, and offsets are integers rather than doubles.
- Sidebar.ExpandableSidebar.HandleMouseEnter: the 500 ms delay is the separate event `HoverTimerFires`. The timer handle in the source is a variable of one render, so a re-render between mouse-enter and mouse-leave loses it and the timer is not cleared; the model treats the handle as always reachable.
- Sidebar.ExpandableSidebar.ToggleManualExpand: the toggle is modelled as clearing every pending hover timer. In the source the timer handle belongs to one render, so a toggle after a re-render cannot clear a timer scheduled earlier, and that timer's callback tests the manual flag of its own render. Mouse-enter with manual expansion off, a re-render (for example from scrolling), a toggle that turns manual expansion on, then the timer firing, leaves both flags set. The `!(isManuallyExpanded && isHoverExpanded)` part of `Valid()` therefore holds in the model only.
- Rendering: JSX, animation values, CSS classes, icons, toasts and router navigation other than the routes in the profile menu.
- The reset-confirmation endpoint does not exist in the code, so token consumption and expiry checks are not modelled.
- The login form, the forgot-password form, the authentication library's route, the GraphQL route, the seed script, the database client module and the presentational components are outside the modelled core.
