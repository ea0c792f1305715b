# Booking modal controller — a Dafny model

This project models the controller behind the vehicle-rental booking form
(`bookNow.js`). The page lists vehicle cards. Clicking "book now" on an
available card opens a modal form and pre-selects the card's vehicle in a
dropdown. Picking a pickup date keeps the return date no earlier than it.
Typing in a field removes its error marker. Submitting the form validates
every field, then either shows a blocking message or appends one booking to
the `bookings` list in client storage, resets the form and closes the modal.

Modules:

- `Text` (text.dfy) models `trim`, ASCII `toLowerCase` and the string `<`
  operator. `trim` removes exactly the ECMAScript WhiteSpace and
  LineTerminator characters. It is proved to be the unique "all whitespace
  outside, no whitespace at either end" slice. `<` is proved to be a strict
  total order.
- `Vehicle` (vehicle.dfy) models the clicked control and its card as values.
  It derives the vehicle name as `getVehicleNameFromCard` does. It picks
  the first option whose trimmed, lower-cased value equals the lower-cased
  name, as `Array.prototype.find` does.
- `Booking` (booking.dfy) holds the functions that describe a submission:
  which fields are marked, which values are staged, which message is shown
  and which record is saved. It also holds the lemmas about them, and the
  class `BookingController`. The class has one method per event handler.
  Its fields are the modal's `display` state, the tracked `input`/`select`
  elements (id, default value, current value, `error` class), the return
  date's `min` attribute and the `bookings` storage entry.
- `Scenarios` (scenarios.dfy) holds client methods and lemmas that replay
  three interactions using only the controller's contracts: a rejected
  return date, a saved booking after an earlier one, and card clicks.

Choices that shape the model:

- The messages that `alert` shows are returned by `Submit` as an `Alert`
  value. `Message` gives their exact text.
- The `savedAt` timestamp is a parameter of `Submit`.
- The stored list is `Option<seq<Record>>`. `None` means the key is
  absent, which reads as the empty list.
- Each `Record` is a `map<string, string>`.
- The pickup date, return date and vehicle selector are positions in the
  field sequence. The constructor requires the fields at those positions to
  carry the element ids `pickup-date`, `return-date` and `vehicle-type`,
  and no earlier field to carry the same id, as `getElementById` takes the
  first such element in document order.
  `Valid()` keeps the three positions in range and distinct. Every handler
  states its new field sequence outright, and none of them changes an id.
- The validation pass of the `submit` handler is the method `Validate`. It
  computes the marked fields, the `valid` flag and the staged map from the
  fields, and `Submit` stores the marked fields back.
- A field passes validation when it is not `Blank` (all whitespace).
  `TrimEmptyIffBlank` proves that this is the code's test, an empty
  `trim()` result.
- A form reset (the user's reset button, or `form.reset()` at line 141)
  first runs the `reset` listener, which clears every error marker. The
  browser then restores every default value.
- The modal and the overlay always gain and lose `display` together, so
  they are one boolean.

## Model

| member | source | states |
|---|---|---|
| Text.IsSpace | bookNow.js:107 | defines the characters `trim` removes: the ECMAScript WhiteSpace and LineTerminator characters |
| Text.Less | bookNow.js:120 | defines the string `<` used here and at line 83: lexicographic by character, a proper prefix first |
| Text.SkipSpaces | bookNow.js:107 | the leading-whitespace scan of `trim` stops at the first non-whitespace character, and everything it skips is whitespace |
| Text.SkipSpacesBack | bookNow.js:107 | the trailing-whitespace scan of `trim` stops after the last non-whitespace character, and everything it skips is whitespace |
| Text.Trim | bookNow.js:107 | `trim` never lengthens a string, leaves no whitespace at either end, and leaves a string without edge whitespace unchanged |
| Text.TrimUnique | bookNow.js:107 | the trimmed value is the one slice with only whitespace before and after it and no whitespace at its own ends |
| Text.TrimSlice | bookNow.js:107 | the trimmed value is a contiguous slice of the input with only whitespace outside it |
| Text.BlankIsAllSpace | bookNow.js:107-109 | the recursive blank test holds exactly when every character is whitespace |
| Text.TrimEmptyIffBlank | bookNow.js:107-109 | a value fails the `!value` test after trimming exactly when it is all whitespace (both directions) |
| Text.TrimIdempotent | bookNow.js:44-47 | trimming an already trimmed brand or sub-name changes nothing |
| Text.JoinTrimmed | bookNow.js:47 | `${brand} ${sub}`.trim() of trimmed parts is `brand + " " + sub`, or just the non-empty part when the other is empty |
| Text.Lower | bookNow.js:68 | lower-casing keeps the length and maps each character through the ASCII rule |
| Text.LowerKeepsClean | bookNow.js:68 | lower-casing a name without edge whitespace leaves it without edge whitespace |
| Text.LowerIdempotent | bookNow.js:68 | lower-casing a lower-cased name changes nothing |
| Text.LessAt | bookNow.js:83 | two strings that agree up to a position are ordered by the first character where they differ |
| Text.LessIrreflexive | bookNow.js:120 | no date string is earlier than itself, so equal dates pass the date check |
| Text.LessTotal | bookNow.js:120 | any two different date strings are ordered one way or the other |
| Text.LessTransitive | bookNow.js:120 | the string order is transitive |
| Text.NotLessIsAtLeast | bookNow.js:83-86 | "return not earlier than pickup" means "return equals pickup or comes after it" |
| Vehicle.Brand | bookNow.js:44 | defines the brand: the trimmed header text, or "" when the card has no `.card-header` |
| Vehicle.SubName | bookNow.js:45 | defines the sub-name: the trimmed `.car-subname` text, or "" when there is none |
| Vehicle.VehicleName | bookNow.js:40-48 | defines `getVehicleNameFromCard`: the trimmed header text (or "") and the trimmed sub-name (or "") joined by a space, then trimmed |
| Vehicle.IsNotAvailable | bookNow.js:50-52 | defines `isNotAvailable`: the card contains a `.not-available` element |
| Vehicle.ClickIgnored | bookNow.js:59-62 | defines the click guards: the control is marked not available, has no enclosing card, or its card is not available |
| Vehicle.Matches | bookNow.js:68 | defines the `find` predicate: the trimmed, lower-cased option value equals the lower-cased name |
| Vehicle.SelectedValue | bookNow.js:71 | defines the value given to the selector: the first matching option's own value, or "" |
| Vehicle.VehicleNameParts | bookNow.js:40-48 | the derived name is brand and sub-name joined by one space; with an empty brand it is the sub-name, with an empty sub-name it is the brand |
| Vehicle.FindFrom | bookNow.js:67-69 | `find` returns the first position whose element satisfies the predicate, and nothing exactly when no element does |
| Vehicle.FindOption | bookNow.js:67-69 | the chosen option is the first whose trimmed, lower-cased value equals the lower-cased name, and there is none exactly when no option matches |
| Vehicle.SelectedValueIsOption | bookNow.js:71 | the selector is given "" or an option's own untrimmed value, and that option matches the name |
| Vehicle.MatchIgnoresCase | bookNow.js:68 | whether an option matches does not depend on the case of the card's name |
| Booking.Message | bookNow.js:123-140 | defines the exact text of the three alerts at lines 123, 128 and 140 |
| Booking.Filled | bookNow.js:107-109 | defines passing validation: the value is not all whitespace, so its trimmed value is non-empty (see `TrimEmptyIffBlank`) |
| Booking.AllFilledUpTo | bookNow.js:102-110 | defines the `valid` flag after the first `n` fields: true exactly while none of them has failed |
| Booking.Checked | bookNow.js:106-116 | defines the fields after the validation pass: each marked in error exactly when it is not filled |
| Booking.StagedUpTo | bookNow.js:103-117 | defines `formdata` after the first `n` fields: each filled field's trimmed value under its id, a later id overwriting an earlier one |
| Booking.DateViolation | bookNow.js:120 | defines the extra date check: both date values set and the return value earlier than the pickup value |
| Booking.Verdict | bookNow.js:119-130 | defines which alert a submission ends with: the date error first, then the generic error when some field is empty, else saved |
| Booking.NewRecord | bookNow.js:134-137 | defines the appended record: the staged values with `savedAt` set last |
| Booking.Existing | bookNow.js:133 | defines the list read from storage: the stored list, or `[]` when the key is missing |
| Booking.AllFilledUpToAll | bookNow.js:102-117 | the `valid` flag after `n` fields is true exactly when each of the first `n` fields passed |
| Booking.CheckedMarksEmpty | bookNow.js:106-116 | the validation pass changes only error markers, and marks exactly the fields whose trimmed value is empty |
| Booking.StagedKeys | bookNow.js:106-117 | the staged ids are exactly the ids of the fields whose trimmed value is non-empty |
| Booking.StagedValue | bookNow.js:115 | a filled field that no later filled field with the same id overrides is staged under its id with its trimmed value |
| Booking.StagedValuesFromFields | bookNow.js:107-115 | every staged value is non-empty, has no edge whitespace, and is the trimmed value of a filled field with that id |
| Booking.StagedCompleteForm | bookNow.js:106-117 | with every field filled and distinct ids, the staged ids are exactly the field ids, each with its field's trimmed value |
| Booking.RecordOfCompleteForm | bookNow.js:133-137 | for a fully filled form with distinct ids, the saved record has exactly one entry per field (its trimmed value) plus `savedAt` |
| Booking.SavedDatesOrdered | bookNow.js:119-137 | a booking is saved only with both untrimmed date values set and the untrimmed return value equal to or after the untrimmed pickup value (the stored, trimmed dates need not be ordered), and both dates are in the record |
| Booking.VerdictCases | bookNow.js:119-130 | success holds exactly when every trimmed value is non-empty and return is not before pickup; the generic message appears exactly when the date check passes and some field is all whitespace |
| Booking.Cleared | bookNow.js:154 | defines the reset listener's effect: every error marker removed, everything else kept |
| Booking.Restored | bookNow.js:141 | defines what `form.reset()` does to the fields: every marker removed and every value back to its default |
| Booking.Initial | bookNow.js:9-10 | defines the tracked fields as the page loads them: each at its default value and without a marker |
| Booking.RestoredIsInitial | bookNow.js:141 | a form reset puts every field back exactly as the page loaded it, whatever was typed since |
| Booking.Validate | bookNow.js:102-117 | the validation loop marks each field exactly as `Checked` says, reports whether all fields are filled, and stages the filled ones in order |
| Booking.BookingController.constructor | bookNow.js:3-14 | the page loads with the modal closed, every field at its default and without an error marker, and no `min` on the return date |
| Booking.BookingController.Open | bookNow.js:19-22 | the modal is shown whatever its state (so opening twice is opening once), nothing else changes |
| Booking.BookingController.Close | bookNow.js:24-30 | the modal is hidden whatever its state, nothing else changes |
| Booking.BookingController.KeyDown | bookNow.js:33-35 | Escape closes the modal; any other key changes nothing |
| Booking.BookingController.BookNowClick | bookNow.js:57-75 | a control marked not available, a control outside any card, or a card marked not available changes nothing; otherwise only the vehicle value becomes the first matching option ("" if none) and the modal opens |
| Booking.BookingController.PickupChange | bookNow.js:80-86 | the return `min` becomes the pickup value; the return value is cleared exactly when it is non-empty and earlier than pickup; afterwards it is "" or not earlier than pickup |
| Booking.BookingController.ClearError | bookNow.js:91-94 | an `input` or `change` event removes only that field's error marker |
| Booking.BookingController.Edit | bookNow.js:80-94 | a user edit sets the value and clears that field's marker; on the pickup field the pickup handler also runs |
| Booking.BookingController.ResetHandler | bookNow.js:153-155 | the reset listener removes every error marker and changes nothing else |
| Booking.BookingController.Reset | bookNow.js:141 | a form reset leaves every field at its default value without a marker, and keeps the modal state and the return `min` |
| Booking.BookingController.Submit | bookNow.js:99-148 | the date error wins over the generic one and marks the return field; either failure leaves storage, modal and `min` unchanged; success appends exactly one record (staged values plus `savedAt`) after the existing ones, resets the form, clears `min` and closes the modal |
| Scenarios.PaddedLowerCaseMatches | bookNow.js:67-69 | an option written as the lower-cased name between blanks matches the name |
| Scenarios.OtherLengthDoesNotMatch | bookNow.js:67-69 | an option without edge blanks and of another length than the name does not match it |
| Scenarios.CardSelectsPaddedOption | bookNow.js:40-71 | a card with a brand and a sub-name derives "brand sub" and selects the padded lower-case option, not an empty option before it |

## Left out

- Finding the elements and registering listeners (bookNow.js:3-14 and the
  `addEventListener` calls) are not modelled. The elements are the
  constructor's parameters, and each listener is a method.
- `classList` mechanics are not modelled. Only the `display` and `error`
  markers that the handlers toggle are kept.
- `alert` is not modelled as a blocking call. `Submit` returns the message
  instead (`Alert`, with its text given by `Message`).
- `localStorage` and JSON serialisation are not modelled. The stored list
  is a value, and a missing key reads as `[]`. Stored text that parses to
  a falsy value (`null`, `0`, `false`, `""`) also reads as `[]`. Text that
  does not parse, or parses to a truthy value that is not an array, makes
  the code throw. The model represents only a missing key and a stored
  list.
- `new Date().toISOString()` reads the clock, so the timestamp is a
  parameter of `Submit`.
- Text.Lower: only ASCII letters are lower-cased. Full Unicode case mapping
  (including mappings that change a string's length) is not modelled.
- Text.Less: characters are compared by code point. JavaScript compares
  UTF-16 code units, which orders characters above U+FFFF differently
  against U+E000–U+FFFF. Dates are plain strings, as in the code.
- Reading `childNodes[0].textContent` is not modelled. The card's header
  text and sub-name text are given strings. A header with no child node
  would throw in the code.
- `e.preventDefault()` (bookNow.js:100) is not modelled, since navigation
  is not modelled.
- Native HTML constraint validation is not modelled. That includes
  `required` and the return date's `min` blocking a submit. The form's
  markup is not part of this model.
- How the browser sanitises date-input values is not modelled, nor which
  values a `select` accepts from the user. `Edit` takes any string.
- The reset value of each field is its `defaultValue`. For a `select` this
  stands for the value the browser picks on reset: the last option marked
  `selected`, or, when none is, the first option that is not disabled.
  Which option that is, is not computed here.
- Booking.StagedUpTo: a field whose id is `__proto__` is staged like any
  other. In the code, `formdata` is a plain object, so that assignment
  (bookNow.js:115) goes to the inherited prototype setter and creates no
  own key, and the spread at line 135 leaves it out. JavaScript object
  semantics are not modelled, so the model assumes no such id.
- The comment above the `reset` listener (bookNow.js:151) speaks of
  closing the form, but the listener (lines 153-155) only removes error
  markers. The model follows the code: `Reset` keeps the modal state.
- The model assumes this page is the only writer of the `bookings` key.
  The code re-reads `localStorage` on every submit (bookNow.js:133), so a
  write from another page between two submits would be seen there. In the
  model only `Submit` changes `bookings`.
- The model assumes the pickup date, return date and vehicle selector are
  among the form's tracked `input`/`select` elements. `getElementById`
  (bookNow.js:12-14) searches the whole document, so the code also accepts
  such an element outside the form, which is then never validated, reset
  or staged. The constructor's positions encode this assumption about the
  markup.
- The `valid = false` assignment in the date branch (bookNow.js:121) has
  nothing that observes it afterwards, so it is not modelled.
