# Birthday reminder: the friend list and the authentication service

This project models the two stateful parts of an Angular birthday reminder and proves
properties about them.

- **The birthday reminder page** (`BirthdayReminder.BirthdayReminderComponent`). It keeps an
  ordered list of friends and a modal form for adding or editing one. It offers deletion
  after a confirmation, a case-insensitive search over first name, last name and city, and
  a sort by a chosen column. Clicking the active column flips the direction; clicking
  another column selects it, ascending. The form's validators are predicates: both names
  need at least two characters, the phone must match `^07[0-9]{8}$`, and city and birthdate
  are required.
- **The authentication service** (`Auth.AuthService`). It has two browser storage areas,
  `local` and `session`, each with an `authToken` and a `userData` entry, plus the
  authenticated flag. Login writes to exactly one area, chosen by "remember me", and
  leaves the other alone. Logout clears all four entries. Reading the token or the user
  tries the local area first, then the session area. The startup check looks only at
  the local area.

The modules follow the program:

- `Auth` (auth.dfy) models `auth.service.ts`.
- `BirthdayReminder` (birthday_reminder.dfy) models `birthday-reminder.component.ts`.
- Three small modules hold the JavaScript library behaviour the two rely on:
  - `Seqs`: `Array.prototype.filter`.
  - `Strings`: `toLowerCase`, `includes`, string comparison and the decimal text of a number.
  - `Sorting`: the stable `Array.prototype.sort`.
- `Wrappers` holds `Option` and `Result`.

Each class is modelled imperatively: its fields are the source's signals and storage
entries, and its methods state the whole new state. List operations are pure functions
with lemmas: filter, replace-by-id, remove-by-id and sort.

Inputs that the source takes from the environment are parameters:

- the backend's user table (the login query keeps the users whose email and password both
  match, in table order);
- the answer to `POST /users`, as a function of the posted record;
- `Date.now()`;
- the text of `Math.random().toString(36)`;
- the answer to `confirm()`.

Two behaviours of the code are worth noting:

- Login writes only the chosen area, so an older local token still wins in `getToken`
  after a session-only login (`Auth.AuthService.Login`).
- Of the seed records, only John Doe contains an "o" (`BirthdayReminder.FilterSeedO`).

## Model

| member | source | states |
|---|---|---|
| `Seqs.KeepPositions` | src/app/features/birthday-reminder/birthday-reminder.component.ts:149-153 | `Keep` (the model of `filter`): a filter's result is the subsequence of its input at strictly increasing positions, and a position is kept if and only if its element satisfies the predicate |
| `Strings.ContainsAt` | src/app/features/birthday-reminder/birthday-reminder.component.ts:150-152 | `Contains` (the model of `includes`) holds exactly when the text occurs at some offset of the string |
| `Strings.LexLeqTransitive` | src/app/features/birthday-reminder/birthday-reminder.component.ts:161-165 | `LexLeq`, the string comparison used for sorting, is transitive |
| `Strings.LexLeqTotal` | src/app/features/birthday-reminder/birthday-reminder.component.ts:161-165 | any two strings are comparable under `LexLeq` |
| `Strings.LexLeqAntisymmetric` | src/app/features/birthday-reminder/birthday-reminder.component.ts:161-165 | two strings that each compare before the other are equal, so ties are equal keys |
| `Strings.Lower` | src/app/features/birthday-reminder/birthday-reminder.component.ts:150-152 | `toLowerCase` keeps the length, leaves no upper-case letter, turns each of A to Z into its lower-case partner and keeps every other character |
| `Strings.LowerIdempotent` | src/app/features/birthday-reminder/birthday-reminder.component.ts:150-152 | lower-casing an already lower-cased text changes nothing |
| `Strings.ContainsLength` | src/app/features/birthday-reminder/birthday-reminder.component.ts:150-152 | a string includes only texts no longer than itself |
| `Strings.NatToString` | src/app/auth/auth.service.ts:60 | the decimal text of a number is non-empty, all digits, and starts with 0 only for zero |
| `Strings.NatToStringParseNat` | src/app/auth/auth.service.ts:60 | a digit string without a leading zero is the decimal text of the number it reads as |
| `Strings.IntToString` | src/app/features/birthday-reminder/birthday-reminder.component.ts:158-159 | the text of an id has a minus sign exactly when the id is negative, its digits read back as the id's magnitude, and they have no leading zero |
| `Strings.ParseNatToString` | src/app/auth/auth.service.ts:60 | the decimal text of the registration time reads back as that time |
| `Sorting.SortPermutation` | src/app/features/birthday-reminder/birthday-reminder.component.ts:157-166 | the sorted list is a permutation of the input |
| `Sorting.SortSorted` | src/app/features/birthday-reminder/birthday-reminder.component.ts:157-166 | every earlier key comes before every later key, the comparison reversed for descending |
| `Sorting.SortStable` | src/app/features/birthday-reminder/birthday-reminder.component.ts:157-166 | elements with equal keys keep their input order, in both directions |
| `Auth.MatchingUsersFirst` | src/app/auth/auth.service.ts:32-39 | `MatchingUsers`, the lookup, returns exactly the users matching both email and password, and the first one is the earliest match in the table |
| `Auth.RandomSuffix` | src/app/auth/auth.service.ts:60 | `substr(2, 9)` yields at most nine characters, those from the third position on |
| `Auth.MakeTokenParses` | src/app/auth/auth.service.ts:60 | a token built by `MakeToken`, `token-<time>-<suffix>`, splits back into its issue time and its suffix |
| `Auth.ParseTokenMakes` | src/app/auth/auth.service.ts:60 | a token that parses is exactly `token-` + the decimal time + `-` + the suffix it parses to, so parsing is the inverse of building a token |
| `Auth.ParseTokenInjective` | src/app/auth/auth.service.ts:60 | two tokens with the same issue time and suffix are the same token |
| `Auth.RegistrationData` | src/app/auth/auth.service.ts:55-61 | the posted record copies email, password, first and last name unchanged, and its token is `token-` + the decimal time + `-` + the random suffix, which parses back to that time and suffix |
| `Auth.RegistrationOutcome` | src/app/auth/auth.service.ts:63-76 | success passes the created record through; a failure becomes "Registration failed: " followed by the body's message when it is non-empty, else by the transport message |
| `Auth.AuthService.constructor` | src/app/auth/auth.service.ts:22-29 | the flag starts true exactly when the local area holds a non-empty token; the session area is ignored |
| `Auth.AuthService.CheckAuthStatus` | src/app/auth/auth.service.ts:26-29 | sets the flag from the local token alone and changes neither area |
| `Auth.AuthService.Login` | src/app/auth/auth.service.ts:31-52 | no match: fails with invalid credentials and changes nothing. Otherwise: returns the first match, sets the flag, writes `SignedIn` of the user (token and record) to the local area with remember-me and to the session area otherwise, and leaves the other area as it was (so an older local token still wins) |
| `Auth.AuthService.Register` | src/app/auth/auth.service.ts:53-77 | posts the registration record, whose token is `token-` + the decimal time + `-` + the random suffix, and returns the outcome for the backend's answer |
| `Auth.AuthService.Logout` | src/app/auth/auth.service.ts:79-86 | both areas emptied and the flag false, so token and user data both read as absent |
| `Auth.AuthService.GetToken` | src/app/auth/auth.service.ts:92-94 | the local token when present and non-empty (`Truthy`), otherwise the session area's token; absent exactly when the local token is absent or empty and the session area has none |
| `Auth.AuthService.GetUserData` | src/app/auth/auth.service.ts:96-99 | the local user when stored, otherwise the session one; absent exactly when neither area holds one |
| `BirthdayReminder.ValidPhone` | src/app/features/birthday-reminder/birthday-reminder.component.ts:41 | a valid phone is ten digits starting "07" |
| `BirthdayReminder.FormValid` | src/app/features/birthday-reminder/birthday-reminder.component.ts:38-44 | a valid form has a valid ten-digit phone, and the blank form the modal resets to is never valid |
| `BirthdayReminder.ValidPhoneShape` | src/app/features/birthday-reminder/birthday-reminder.component.ts:41 | a phone is valid exactly when it is "07" followed by eight digits |
| `BirthdayReminder.PhoneExamples` | src/app/features/birthday-reminder/birthday-reminder.component.ts:41 | "123456789" and "0812345678" are rejected, "0712345678" is accepted |
| `BirthdayReminder.Merge` | src/app/features/birthday-reminder/birthday-reminder.component.ts:104-107 | the merged record keeps the edited record's id and owner and takes every form field |
| `BirthdayReminder.MergeUnchangedForm` | src/app/features/birthday-reminder/birthday-reminder.component.ts:82-107 | saving an untouched edit form (`FormOf` of the record) gives back the record that was edited |
| `BirthdayReminder.OwnerId` | src/app/features/birthday-reminder/birthday-reminder.component.ts:117 | the owner is the signed-in user's id, or 1 when there is no user or its id is 0; never 0 |
| `BirthdayReminder.NewFriend` | src/app/features/birthday-reminder/birthday-reminder.component.ts:114-118 | the new record has the time as id, the given owner and the form's fields |
| `BirthdayReminder.ReplaceById` | src/app/features/birthday-reminder/birthday-reminder.component.ts:109-111 | same length; every element with the edited id becomes the updated record, every other one stays in place |
| `BirthdayReminder.ReplaceAbsentId` | src/app/features/birthday-reminder/birthday-reminder.component.ts:109-111 | an id no record has leaves the list unchanged |
| `BirthdayReminder.RemoveByIdSpec` | src/app/features/birthday-reminder/birthday-reminder.component.ts:128 | `RemoveById`: no record with the id remains; the result is the list at the increasing positions of exactly the other records; an absent id changes nothing |
| `BirthdayReminder.FilterSpec` | src/app/features/birthday-reminder/birthday-reminder.component.ts:148-154 | `Filter`, the search result, holds matching records only: the list at increasing positions, exactly those whose record matches |
| `BirthdayReminder.Matches` | src/app/features/birthday-reminder/birthday-reminder.component.ts:150-152 | the empty term matches every record; a term longer than the first name, last name and city never matches |
| `BirthdayReminder.MatchesCaseInsensitive` | src/app/features/birthday-reminder/birthday-reminder.component.ts:150-152 | the search ignores case in the term and in the record's first name, last name and city |
| `BirthdayReminder.FilterComplete` | src/app/features/birthday-reminder/birthday-reminder.component.ts:148-154 | no matching record is dropped |
| `BirthdayReminder.FilterEmptyTerm` | src/app/features/birthday-reminder/birthday-reminder.component.ts:148-154 | an empty search term yields the whole list |
| `BirthdayReminder.FilterSeedCluj` | src/app/features/birthday-reminder/birthday-reminder.component.ts:148-154 | on the seed records "cluj" finds only Jane Smith |
| `BirthdayReminder.FilterSeedO` | src/app/features/birthday-reminder/birthday-reminder.component.ts:148-154 | on the seed records "o" finds only John Doe |
| `BirthdayReminder.SortKey` | src/app/features/birthday-reminder/birthday-reminder.component.ts:158-159 | a sort key holds no upper-case letter, so sorting ignores case; an unknown column gives the empty key and the two numeric columns a non-empty one |
| `BirthdayReminder.SortFriendsSpec` | src/app/features/birthday-reminder/birthday-reminder.component.ts:156-167 | `SortFriends`, sorting by a column, gives a permutation, ordered by the column's lower-cased text in the chosen direction, with ties in list order |
| `BirthdayReminder.NextSort` | src/app/features/birthday-reminder/birthday-reminder.component.ts:169-176 | the clicked column becomes the sort column; the direction flips (`Flip`) on the same column and resets to ascending on another |
| `BirthdayReminder.NextSortTwice` | src/app/features/birthday-reminder/birthday-reminder.component.ts:169-176 | two clicks on the current column restore the direction; two clicks on another column end descending on it |
| `BirthdayReminder.BirthdayReminderComponent.constructor` | src/app/features/birthday-reminder/birthday-reminder.component.ts:25-45 | empty list and search, sort by first name ascending, form hidden, blank and not editing |
| `BirthdayReminder.BirthdayReminderComponent.OnInit` | src/app/features/birthday-reminder/birthday-reminder.component.ts:47-49 | initialisation loads the seed list |
| `BirthdayReminder.BirthdayReminderComponent.LoadFriends` | src/app/features/birthday-reminder/birthday-reminder.component.ts:51-73 | the list becomes the two `Seed` records (ids 1 and 2) whatever it was, so loading twice is loading once; nothing else changes |
| `BirthdayReminder.BirthdayReminderComponent.AddFriend` | src/app/features/birthday-reminder/birthday-reminder.component.ts:75-79 | opens a blank form with no record being edited; the list is unchanged |
| `BirthdayReminder.BirthdayReminderComponent.EditFriend` | src/app/features/birthday-reminder/birthday-reminder.component.ts:81-91 | opens the form filled from the friend (`FormOf`) and remembers it as the record being edited; the list is unchanged |
| `BirthdayReminder.BirthdayReminderComponent.SaveFriend` | src/app/features/birthday-reminder/birthday-reminder.component.ts:93-124 | invalid form: list, form, visibility and edited record unchanged. Valid while editing: records with the edited id are replaced in place by the merged record. Valid new friend: exactly one record appended, owned by the signed-in user. After a valid save the form is closed and blank |
| `BirthdayReminder.BirthdayReminderComponent.DeleteFriend` | src/app/features/birthday-reminder/birthday-reminder.component.ts:126-130 | confirmed: every record with the id is removed; not confirmed: the list is unchanged |
| `BirthdayReminder.BirthdayReminderComponent.CloseModal` | src/app/features/birthday-reminder/birthday-reminder.component.ts:132-136 | form hidden, blank and not editing; list unchanged |
| `BirthdayReminder.BirthdayReminderComponent.Logout` | src/app/features/birthday-reminder/birthday-reminder.component.ts:138-140 | the service's areas are emptied and its flag cleared |
| `BirthdayReminder.BirthdayReminderComponent.FilteredFriends` | src/app/features/birthday-reminder/birthday-reminder.component.ts:148-154 | exactly the matching records of the list; the whole list for an empty search term |
| `BirthdayReminder.BirthdayReminderComponent.SortedFriends` | src/app/features/birthday-reminder/birthday-reminder.component.ts:156-167 | a permutation of the shown friends, ordered by the selected column and direction, stable, computed without changing the list |
| `BirthdayReminder.BirthdayReminderComponent.Sort` | src/app/features/birthday-reminder/birthday-reminder.component.ts:169-176 | the new column and direction are those of `NextSort`; nothing else changes |

## Left out

- HTTP calls and the rxjs `Observable`/`BehaviorSubject` plumbing. The login query is a
  filter over a given user table. The registration POST is a function parameter. The
  subject is the `authenticated` field, and `isAuthenticated()` is that field.
- Transport failures of the login request, since the network is not modelled. json-server's
  query matching is modelled as exact string equality, with no URL encoding of the email
  or the password.
- Router navigation after login, registration and logout, and `console.log`/`console.error`.
  These are effects only and hold no state.
- `JSON.stringify`/`JSON.parse`: the storage areas hold the `User` value itself. A stored
  user is therefore always present and never the empty string.
- Storage keys other than `authToken` and `userData`. The service does not touch them.
- A page reload is a new `AuthService` built over the same two areas. The end of a
  browser session, which empties the session area, is outside the model.
- `Date.now()`, `Math.random()` and `confirm()` are parameters. `Date.now()` is an
  integer, or a natural number where its decimal text goes into a token.
- `Sorting.SortByKey`: `localeCompare` is replaced by lexicographic order on character
  codes, proved total, transitive and antisymmetric. Locale-aware collation is not
  modelled.
- `Strings.Lower`: `toLowerCase` lower-cases only the ASCII letters A to Z. Unicode case
  mapping, such as Romanian letters with diacritics, is not modelled.
- `BirthdayReminder.SortKey`: a column name that is not one of the seven `Friend` fields
  gives the empty key. Inherited JavaScript properties such as `toString` are not
  modelled.
- `BirthdayReminder.OwnerId`: JavaScript's `|| 1` also replaces `NaN` and `undefined`.
  Ids here are integers, so only 0 and a missing user are covered.
- Angular form internals. `reset()` empties the controls, which is modelled as "" instead
  of null; the required validators reject both alike. Also left out: `markAsTouched`
  (display only), `patchValue` (modelled by `FormOf`) and the template getters at
  birthday-reminder.component.ts:142-146 and 179-183.
- Lengths and characters are Dafny characters. JavaScript counts UTF-16 code units in
  `minLength`.
- The login and register components: form wiring and loading and error flags. Their only
  logic is the password-match check.
- Routing and bootstrap configuration: app.routes.ts and main.ts.
- The route guard and the HTTP interceptor (auth.guard.ts, auth.interceptor.ts) are not
  part of this model.
