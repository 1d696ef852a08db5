# TrapiHaus session gate and reviews screen, in Dafny

This project models two parts of the TrapiHaus mobile app (a property-listing
app written in React Native) and proves properties about them. It also models
the two JavaScript builtins they depend on.

- **Session gate** (`auth_context.dfy`, module `AuthContext`). `AuthProvider`
  has two in-memory flags, `isReady` and `isSignedIn`, and one entry in the
  device's key-value store under `"@trapihaus/isSignedIn"`. The store is the
  class `Storage`, a `map<string, string>` that its methods rewrite.
  - The provider's mount effect is the class `InitEffect`. It holds the
    `cancelled` variable that teardown sets. Its `Settle` method is the step in
    which the pending `getItem` call resolves or rejects.
  - `SignInWithAdmin` checks the credentials against the fixed pair
    ("admin", "admin"). The user name is trimmed first.
  - `SignOut` clears the flag and removes the stored entry.
  - Each storage call is one atomic step. A read gives `Present(s)`, `Absent`
    or `Failed`. Whether a read fails is a parameter of the read.
  - The methods at the end of the module (`Boot`, `SignInThenRestart`, …) run
    whole sequences on freshly created objects. They state what a later
    process start sees after sign-in and after sign-out.
- **Reviews screen** (`reviews.dfy`, module `Reviews`). The screen's logic is
  modelled as pure functions:
  - the star filter over the reviews;
  - the guard that renders nothing, redirects to `/login` or renders;
  - the chip row, with each chip's key, label, selection and press target;
  - the two reviews the screen hard-codes (app/listing/reviews.tsx:67-85),
    which are the constants `R1` and `R3` and the list `AllReviews`.

  Ratings are natural numbers in tenths of a star, so 4.8 is 48 and
  `Math.floor` is `rating / 10`. This is exact for one-decimal ratings, which
  are the only ones the screen holds.
- **JavaScript builtins** (`js_string.dfy`, module `JsString`):
  - `String.prototype.trim`, which strips ECMAScript WhiteSpace and
    LineTerminator code points from both ends;
  - `String(n)` for a non-negative integer, with a parser that reads it back.

A storage read that fails does not force "signed out". A rejected `getItem`
skips the `setIsSignedIn` call and goes straight to `finally`, so `isSignedIn`
keeps the value it had. The model does the same: see `InitEffect.Settle` and
`SignedInAfterRead`. A freshly mounted provider starts signed out, so a start-up
whose read fails still ends signed out, as `Boot` shows.

## Model

| member | source | states |
|---|---|---|
| `JsString.IsJsWhitespace` | context/auth-context.tsx:48 | the code points `trim` strips: within ASCII exactly tab, line feed, vertical tab, form feed, carriage return and space; no digit or Latin letter is among them |
| `JsString.LeadingWhitespace` | context/auth-context.tsx:48 | the count of whitespace code points at the front, before the first character that is not whitespace (if there is one) |
| `JsString.TrailingWhitespace` | context/auth-context.tsx:48 | the count of whitespace code points at the back, after the last character that is not whitespace (if there is one) |
| `JsString.Trim` | context/auth-context.tsx:48 | the trimmed name has no whitespace at either end, and it is empty only when the whole input was whitespace |
| `JsString.TrimIsFramedSlice` | context/auth-context.tsx:48 | the input is the trimmed text with only whitespace before and after it |
| `JsString.TrimOfPadded` | context/auth-context.tsx:48 | any text that neither starts nor ends with whitespace, padded with whitespace, trims to exactly that text |
| `JsString.TrimIdempotent` | context/auth-context.tsx:48 | trimming twice gives the same result as trimming once |
| `JsString.DecimalString` | app/listing/reviews.tsx:103 | `String(n)` is a non-empty string of digits, starts with '0' only for 0, and is a single digit below 10 |
| `JsString.DecimalRoundTrip` | app/listing/reviews.tsx:103 | parsing `String(n)` gives back `n` |
| `JsString.DecimalStringInjective` | app/listing/reviews.tsx:103 | different numbers have different decimal strings |
| `AuthContext.ReadItem` | context/auth-context.tsx:30 | a read fails exactly when the store errs; otherwise it returns the stored value when the key is present, and null (`Absent`) when it is not |
| `AuthContext.SignedInAfterRead` | context/auth-context.tsx:30-33 | only a read that settles can change `isSignedIn`: after a rejected read it keeps its prior value; after a successful one it is true exactly for the stored value "1", whatever it was before |
| `AuthContext.SentinelDecides` | context/auth-context.tsx:30-32 | a successful read signs in exactly when the stored value is "1"; an absent key or the empty string signs out |
| `AuthContext.CredentialsAccepted` | context/auth-context.tsx:48 | acceptance needs the password to be exactly "admin" and a user name at least five characters long; "admin"/"admin" itself is accepted; a blank user name never is |
| `AuthContext.AcceptsPaddedAdmin` | context/auth-context.tsx:48 | "admin" with any whitespace around it is accepted as the user name, with password "admin" |
| `AuthContext.AcceptedIsPaddedAdmin` | context/auth-context.tsx:48 | an accepted user name is "admin" with only whitespace around it, and the accepted password is exactly "admin" |
| `AuthContext.PasswordNotTrimmed` | context/auth-context.tsx:48 | "admin" with any non-empty whitespace added before or after it is refused as the password, whatever the user name |
| `AuthContext.Storage.GetItem` | context/auth-context.tsx:30 | `getItem` returns the read outcome for the current store and does not change the store |
| `AuthContext.Storage.SetItem` | context/auth-context.tsx:51 | `setItem` maps the key to the value and leaves every other entry unchanged |
| `AuthContext.Storage.RemoveItem` | context/auth-context.tsx:56 | `removeItem` deletes the key and leaves every other entry unchanged |
| `AuthContext.AuthProvider.constructor` | context/auth-context.tsx:22-23 | both flags start false |
| `AuthContext.AuthProvider.SignInWithAdmin` | context/auth-context.tsx:47-53 | returns true exactly when the credentials pass. On success it sets `isSignedIn` and maps the key to "1", with no other change to the store. On failure the flag and the store are unchanged. `isReady` never changes |
| `AuthContext.AuthProvider.SignOut` | context/auth-context.tsx:54-57 | `isSignedIn` becomes false and the key is removed, with no other change to the store. `isReady` is unchanged |
| `AuthContext.InitEffect.Mount` | context/auth-context.tsx:25-28 | the effect starts its load with `cancelled` false |
| `AuthContext.InitEffect.Teardown` | context/auth-context.tsx:38-40 | teardown sets `cancelled` |
| `AuthContext.InitEffect.Settle` | context/auth-context.tsx:28-36 | if teardown came first, neither flag changes. Otherwise `isReady` becomes true; after a successful read `isSignedIn` is true exactly for the value "1", and after a rejected read it keeps its value |
| `AuthContext.Boot` | context/auth-context.tsx:22-36 | a fresh start whose read settles (resolves or rejects) ends ready. It is signed in exactly when the read succeeds and finds "1": no key, any other string, or a read failure all give signed out |
| `AuthContext.BootTornDown` | context/auth-context.tsx:26-40 | if teardown comes before the read resolves, the provider stays not ready and signed out |
| `AuthContext.SignInThenRestart` | context/auth-context.tsx:30-53 | an accepted sign-in sets the flag, and a later start whose read succeeds comes up signed in. After a refused sign-in, the later start depends only on what was stored before |
| `AuthContext.SignOutThenRestart` | context/auth-context.tsx:30-57 | after sign-in and then sign-out, the flag is false, the key is gone, and a later start comes up signed out |
| `AuthContext.SignOutTwice` | context/auth-context.tsx:54-57 | signing out twice leaves the same store as signing out once: only the gate's key is gone, and the flags are ready and signed out |
| `Reviews.WholeStars` | app/listing/reviews.tsx:89 | `Math.floor` of a rating in tenths: the largest whole number of stars not above the rating |
| `Reviews.KeepStars` | app/listing/reviews.tsx:89 | the result is a subsequence of the input in the same order and no longer than it. Each review with `n` whole stars appears as often as in the input, and no other review appears |
| `Reviews.Passes` | app/listing/reviews.tsx:88-89 | every review passes "all"; a review passes star filter `n` exactly when its rating lies from `n` up to, but not including, `n + 1` |
| `Reviews.AllKeepsEverything` | app/listing/reviews.tsx:87-88 | the initial filter "all" returns the list unchanged |
| `Reviews.Filtered` | app/listing/reviews.tsx:87-90 | under any filter, the shown list is an order-preserving subsequence of the input, no longer than it, and holds exactly the input reviews that pass |
| `Reviews.StarFilterCounts` | app/listing/reviews.tsx:89 | a star filter never lengthens the list, and keeps every passing review as many times as the input has it |
| `Reviews.AtMostOneStarFilter` | app/listing/reviews.tsx:89 | no review is kept by two different star filters |
| `Reviews.SampleFilters` | app/listing/reviews.tsx:67-90 | on the screen's own two reviews (4.8 and 5.0): "all" shows both, 5 shows r3, 4 shows r1, and 3, 2 and 1 show nothing |
| `Reviews.ChipIndex` | app/listing/reviews.tsx:102 | every filter value has a chip in the row, and only one |
| `Reviews.ChipKey` | app/listing/reviews.tsx:103 | the key is "all" exactly for the "all" chip; a star chip's key is the single decimal digit of its value, and it parses back to the value |
| `Reviews.ChipLabel` | app/listing/reviews.tsx:106 | the label is "All" exactly for the "all" chip; a star chip's label is the single decimal digit of its value, and it parses back to the value |
| `Reviews.Chips` | app/listing/reviews.tsx:102-114 | six chips keyed "all", "5", "4", "3", "2", "1", labelled "All", "5", "4", "3", "2", "1", whose presses select all, 5, 4, 3, 2, 1 in that order; exactly one chip is selected, the one at the current filter's place in the row |
| `Reviews.ExactlyOneChipSelected` | app/listing/reviews.tsx:102-105 | every filter value has a chip, and exactly one chip is selected: the one for the current filter |
| `Reviews.ChipsDistinct` | app/listing/reviews.tsx:102-106 | no two chips share a list key or a label |
| `Reviews.ReviewsScreen` | app/listing/reviews.tsx:87-114 | renders nothing exactly when not ready and redirects to "/login" exactly when ready but signed out. Only when ready and signed in does it render, showing the chip row for the current filter and the filtered reviews |
| `Reviews.PressSelects` | app/listing/reviews.tsx:105-111 | pressing a chip selects its filter: on the next render that chip alone is selected, and the list is what its filter keeps |

## Left out

- The async scheduling of the gate is left out. Each `getItem`, `setItem` and
  `removeItem` call is one atomic step, so the model does not capture the gap
  in which the in-memory flag has already flipped but the write has not yet
  finished.
- Because reads are atomic, the model samples the store when the read settles,
  not when `getItem` is issued at mount. The source can resolve an early read
  with the value stored before a sign-in or a sign-out that happened
  meanwhile, and then overwrite the flag with it; in the model, a
  `SignInWithAdmin` or a `SignOut` between `Mount` and `Settle` is seen by the
  read. The screens render nothing until the gate is
  ready, so no user action can fall in that window.
- Write failures in `setItem` and `removeItem` are left out. The code does not
  handle them.
- The model does not include the rejection that a failed `getItem` passes out
  of the `try`/`finally` to the caller. Only its effect on the two flags is
  modelled.
- React plumbing is left out: `createContext`, `useMemo`, and the error that
  `useAuth` throws outside a provider. This is wiring, not gate logic.
- React re-running the mount effect is out of scope. Nothing stops a second
  `InitEffect.Mount` on the same provider, but each scenario method mounts one
  effect per provider, and `Settle` runs at most once for each effect.
- The display of `rating.toFixed(1)` and the fixed "4.8 (40 Reviews)" header
  text are left out. Ratings are whole tenths instead of floating-point
  numbers.
- Layout is left out: JSX layout, styles, colours, safe-area insets and the
  hidden listing-id header.
- The components `listing-card`, `category-pills`, `social-auth-row` and
  `auth-text-input` are not part of this model. They contain presentation
  only.
- The other screens that use the same guard or call the gate are not part of
  this model: the `(tabs)` and `(auth)` layouts, the listing detail screen,
  registration and profile.
