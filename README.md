# 4Wheels car rental: a verified model of its decision logic

4Wheels is a car-rental web application: an Express API server over an Oracle
schema (cars, car types, users, rentals, payments, reviews) and a static storefront
script. Almost every endpoint runs one SQL statement and returns the rows. This
project models the parts that decide something, and proves what they promise:

- **Accounts** (`accounts.dfy`, from `server.js`): registration runs an ordered chain
  of checks (required fields, the e-mail regular expression, a password of at least
  six characters, an address not already taken ignoring case) and inserts one
  `customer` row with a bcrypt digest of the password. Login looks the address up
  ignoring case and answers one generic 401 for both an unknown address and a wrong
  password. The USERS table is the field of a class; `Register` changes it and
  `Login` reads it. The decisions are pure functions (`Screen`, `Authenticate`).
- **Bookings** (`bookings.dfy`, from `server.js`): a booking inserts one `booked`
  rental whose cost is what the database pricing function returns. The cost the
  client sends is ignored, and a falsy user id is stored as NULL. The RENTALS table
  is the field of a class.
- **Storefront** (`storefront.dfy`, from `js/app.js`): the normalisation of the rows
  of GET /api/cars, the order-preserving filter by type and search text, the Book
  button of a car card, the booking modal's selected car, and the quote
  (ceiling of days times the daily rate). The script's module-level state is a class,
  whose invariant is that the list on show is always drawn, in order, from the
  loaded cars.
- Supporting modules: `options.dfy` (an Option type), `js_text.dfy` (the JavaScript
  and SQL string operations used: `\s`, `toLowerCase`, `UPPER`, `includes`, decimal
  text, UTF-16 length), `credentials.dfy` (bcrypt as `Hash`/`Compare`).

Conventions: dates in the server are day numbers, dates in the storefront are
instants in milliseconds (what `new Date("YYYY-MM-DD")` gives, UTC midnight), money
is in integer cents. The database pricing function `fn_calculate_rental_cost` is a
parameter of `CreateBooking`, since its body is not part of this model.

Behaviour of the code worth knowing, which the model keeps as written:

- Oracle returns rows with uppercase keys, and the storefront picks each field with
  `UPPER || lower`. A falsy uppercase value (a mileage of 0, an empty licence plate)
  therefore becomes `undefined` (`UppercaseRowKeepsTruthyValues`).
- `openBookingModal` assigns the result of `find` before testing it, so an unknown id
  clears the selection rather than keeping the previous car. When the car's rate is not
  a number, `toFixed` throws after the car is selected, and the modal stays hidden.
- The storefront reads `data.booking_id` from the booking answer, while the server
  sends `rental_id`; the confirmation therefore shows `undefined` as the id. The
  storefront's booking submission is not part of the model, so the model does not
  cover this mismatch.
- `createCarCard` calls `toLocaleString` on the mileage and `toFixed` on the daily
  rate, and throws when the mileage is undefined or null or the rate is not a number.
  One such car stops the whole grid from being drawn, and the error is caught with
  the connection failures: the page then says it cannot connect to the server.
  Together with the first point, a car with a mileage of 0 in Oracle's uppercase rows
  does exactly this (`ZeroMileageBlanksGrid`, `Page.ReceiveCars`).
- The Book button writes the car id into its `onclick` code as text, which the
  browser evaluates again. A numeric id comes back as the same number; a string id
  becomes an identifier (a ReferenceError) or a number, and never selects its car
  (`BookNowFindsACar`, `StringIdNeverSelected`). Oracle returns `CAR_ID` as a number.
- The booking handler does not change the car's status; a car stays `available`
  after it is booked unless the database does it elsewhere. The model does not
  change it either.
- The storefront computes its own quote for display, while the server prices the
  booking with the database function; the two are independent.

## Model

| member | source | states |
|---|---|---|
| `JsText.IsWhitespace` | server.js:700 | `\s` of the e-mail pattern: the ECMAScript white-space and line-terminator code points, none of them a printable ASCII character |
| `JsText.Upper` | server.js:720 | SQL `UPPER` keeps the length and maps each character on its own, lower-case ASCII letters to upper case |
| `JsText.SameIgnoringCase` | server.js:720 | `UPPER(a) = UPPER(b)` holds exactly when the two have the same length and agree character by character once upper-cased |
| `JsText.Lower` | js/app.js:113 | `toLowerCase` keeps the length and maps each character on its own, upper-case ASCII letters to lower case |
| `JsText.NatTextRoundTrip` | js/app.js:101 | the decimal text of a natural number is a numeral without leading zeros and reads back as the number |
| `JsText.IncludesIffOccurs` | js/app.js:118-119 | `includes` holds exactly when the needle occurs at some position of the string |
| `JsText.Utf16Length` | server.js:709 | a string's `length` counts UTF-16 code units: between its code-point count and twice that |
| `Accounts.MatchesEmailPattern` | server.js:700-701 | `emailRegex.test` holds when some '@' and '.' split the string into three non-empty runs without whitespace or '@'; any match has at least five characters |
| `Accounts.PasswordLongEnough` | server.js:709 | the length test counts UTF-16 units: six characters always pass, and a passing password has at least three characters |
| `Accounts.EmailTaken` | server.js:719-724 | the address is taken when some stored address equals it ignoring case; such an address has the same length |
| `Accounts.EmailTakenIgnoresCase` | server.js:720 | whether an address is taken does not depend on the letter case it is given in |
| `Credentials.CompareAcceptsOnlyItsPassword` | server.js:733 | a stored digest compares equal with the password it was made from and with no other |
| `Accounts.EmailPatternIsWellFormed` | server.js:700-706 | `/^[^\s@]+@[^\s@]+\.[^\s@]+$/` matches exactly the strings with no whitespace, exactly one '@', a non-empty local part, and a domain holding a '.' with text on both sides |
| `Accounts.Screen` | server.js:692-729 | the registration checks in order: any missing field gives the required-fields 400 whatever else; then a malformed address, then a short password (UTF-16 length below 6) give their 400; a 409 exactly when all of these pass and the address is taken ignoring case; no rejection exactly when all four pass |
| `Accounts.FormatRejectionIgnoresTable` | server.js:692-716 | a request rejected by the checks that run before the database is rejected alike, with a 400, whatever the table holds |
| `Accounts.NewUser` | server.js:732-749 | the inserted row has the given names and address, role `customer`, a digest the password compares equal with, and a NULL phone exactly when none is given |
| `Accounts.AcceptedRegistrationKeepsEmailsUnique` | server.js:719-749 | inserting the row of an accepted registration keeps every address unique ignoring case |
| `Accounts.FindByEmail` | server.js:799-813 | the lookup gives the first row whose address equals the given one ignoring case, and none exactly when the address is not taken; the query has no ORDER BY, and with unique addresses at most one row matches, so which one is first does not matter |
| `Accounts.Authenticate` | server.js:789-837 | a missing address or password gives the 400; an unknown address gives 401 "Invalid email or password"; every 401 carries that message; a success is a row with the address (ignoring case) whose digest matches the password, returned without its hash |
| `Accounts.LoginSucceedsExactlyForStoredPassword` | server.js:799-823 | with unique addresses, a login with both fields succeeds exactly when some account has the address ignoring case and the password matches its digest |
| `Accounts.UnknownEmailAndWrongPasswordLookAlike` | server.js:806-823 | an unknown address and a wrong password for a known one get the identical 401 answer |
| `Accounts.RegisterThenLogin` | server.js:719-836 | after an accepted registration, logging in with the same password and the address in any letter case succeeds and returns the new account's id, names, address, phone and role |
| `Accounts.UserTable.Register` | server.js:686-780 | keeps addresses unique; a rejected request leaves the table unchanged and gets the first failing check's answer; an accepted one appends exactly the new customer row and answers 201 echoing names, address and role `customer` |
| `Accounts.UserTable.Login` | server.js:783-854 | leaves the table unchanged and, with both fields given, succeeds exactly when an account with that address ignoring case has a digest matching the password |
| `Bookings.StoredUserId` | server.js:186 | a missing, null or zero user id is stored as NULL and any other is stored as given |
| `Bookings.NewRental` | server.js:181-194 | the inserted rental has status `booked`, the car and dates of the request, the stored user id, and the computed cost |
| `Bookings.ClientFieldsIgnored` | server.js:167-190 | the total cost the client claims and the customer fields it sends do not change the inserted row |
| `Bookings.RentalTable.CreateBooking` | server.js:164-218 | when the pricing function raises, nothing is inserted and the answer is a 500; otherwise exactly one `booked` rental is appended with the computed cost, and the answer's id and cost are the stored row's |
| `Storefront.Or` | js/app.js:25-35 | `a || b` is the first operand when it is truthy and the second otherwise, truthy exactly when either is |
| `Storefront.PlaceholderImage` | js/app.js:35 | the fallback image is the placeholder service's URL followed by a non-empty text naming brand and model |
| `Storefront.Normalize` | js/app.js:24-36 | a normalised car always has a truthy image URL, the placeholder naming brand and model when the row has none |
| `Storefront.UppercaseRowKeepsTruthyValues` | js/app.js:24-34 | for a row with Oracle's uppercase keys only, each field keeps the value when it is truthy and is `undefined` otherwise |
| `Storefront.LowercaseRowKeepsValues` | js/app.js:24-34 | for a row with lowercase keys only, each field is the row's value |
| `Storefront.NormalizeAll` | js/app.js:24-36 | the loaded list has one car per row, each the normalised row at the same position |
| `Storefront.TypeMatches` | js/app.js:116 | no chosen type matches every car; a chosen type matches exactly the cars with that type name |
| `Storefront.SearchMatches` | js/app.js:117-119 | the search part throws exactly when the term is non-empty and the model is not a string, or the model misses the term and the brand is not a string; otherwise it holds exactly when the term is empty or inside the lowercased model or brand |
| `Storefront.Keep` | js/app.js:115-122 | the callback throws exactly when the search part throws; otherwise it keeps the car exactly when the type matches and the term is empty or inside the lowercased model or brand |
| `Storefront.Filter` | js/app.js:115-122 | the filter fails exactly when the callback throws on some car; otherwise the result keeps the cars' order and holds each kept car as often as the input does and no other car |
| `Storefront.FilterWithoutCriteria` | js/app.js:116-117 | no type and no search term give back every car, in order |
| `Storefront.CarCard` | js/app.js:77-108 | building a card throws exactly when the mileage is undefined or null or the rate is not a number; otherwise the card offers an enabled Book button exactly when the status is the string `available`, its code holding the id's text |
| `Storefront.Cards` | js/app.js:73 | the cards of a list throw exactly when some card throws; otherwise there is one card per car, in order |
| `Storefront.Display` | js/app.js:65-74 | an empty list shows the no-results text; otherwise the grid is replaced by the cards of every car, and is not replaced when some card throws |
| `Storefront.ZeroMileageBlanksGrid` | js/app.js:73-92 | an Oracle row with a MILEAGE of 0 makes building the cards of the loaded list throw |
| `Storefront.ClickArgument` | js/app.js:101 | the argument text of the button's code evaluates to `undefined`, `null` or a number, never to a string |
| `Storefront.ClickArgumentOfText` | js/app.js:101 | an id that is not a string is evaluated back to itself from its text |
| `Storefront.FindCar` | js/app.js:129 | `find` gives the first car whose id is strictly equal to the given one, and nothing exactly when no car has it |
| `Storefront.BookNowFindsACar` | js/app.js:100-129 | the Book button of a listed car whose id is not a string passes that id and selects a car with it |
| `Storefront.StringIdNeverSelected` | js/app.js:100-129 | the Book button of a car whose id is a string never selects that car: the click throws or passes a non-string |
| `Storefront.DaysBetween` | js/app.js:157 | the day count of a span is at least one and is its ceiling in days: one day less would not cover the span, the count does |
| `Storefront.WholeDays` | js/app.js:153-157 | between two UTC midnights the day count is the difference of the day numbers |
| `Storefront.DayLabel` | js/app.js:160 | one day reads "1 day", more read "N days" |
| `Storefront.Total` | js/app.js:158 | for a numeric rate the total is days times the rate |
| `Storefront.QuoteForWholeDays` | js/app.js:153-158 | the quote between two midnights is the number of days times the daily rate |
| `Storefront.Page.ReceiveCars` | js/app.js:16-48 | keeps the shown list an in-order sub-list of the loaded cars; on success both lists become the normalised rows and the grid shows them, or the connection message when a card throws; on failure the lists are unchanged and the grid shows the matching error message |
| `Storefront.Page.FilterCars` | js/app.js:111-125 | keeps the shown list an in-order sub-list of the loaded cars: it becomes the filter of the loaded cars by type and lowercased search text, or stays as it was when the callback throws; the grid is redrawn from the new list unless a card throws; the loaded list is unchanged |
| `Storefront.Page.OpenBookingModal` | js/app.js:128-141 | the selection becomes the first car with the id, or none; the modal is shown only when a car is found whose rate is a number; the car lists are unchanged |
| `Storefront.Page.CloseBookingModal` | js/app.js:143-147 | the modal is hidden and the selection is cleared |
| `Storefront.Page.CalculateTotal` | js/app.js:150-163 | the summary changes only when a car is selected and the end is after the start, to the day label and days times the rate; nothing else changes |

## Left out

- Database failures: a failing connection or statement gives a 500 in every handler; the model's tables do not fail, except that the booking's pricing function may raise.
- Concurrency: requests run one at a time in the model. In the server, the duplicate-address check and the insert are separate statements, so two simultaneous registrations could both pass the check.
- The pricing, cancel, recalculate and car-status procedures of the database (`fn_calculate_rental_cost`, `fn_get_car_status`, `proc_cancel_rental`, `proc_calculate_rental_cost`): their bodies are not part of this model, so the server-side cost is a parameter and cancel and recalculate are not modelled.
- The read-only endpoints (cars, car types, bookings, users, reviews, payments, statistics, health, auth check, calculate-cost) pass a query's rows through and decide nothing.
- config/database.js, test-connection.js and check-tables.js: connection-pool setup and diagnostic scripts, pure I/O.
- Letter case: `UPPER` and `toLowerCase` are modelled on the ASCII letters only; other scripts' case mappings are not modelled.
- Request bodies: fields are strings or absent/null; other JSON values (numbers, booleans, objects) in the registration and login fields, and non-integer user ids in a booking, are not modelled.
- bcrypt: the salt, the digest bytes, the 72-byte input limit and the timing of `compare` are not modelled; a digest records the cost factor and the password it was made from.
- Identity columns: new user and rental ids are modelled as a counter starting at 1.
- Storefront values: numbers are integers (a daily rate in cents); NaN, floating point, `toFixed` and `toLocaleString` formatting are not modelled.
- Storefront.ClickArgument: only `undefined`, `null` and decimal integer literals are evaluated; any other argument text counts as throwing before the call, which holds for identifiers (a ReferenceError) but not for texts that happen to be other JavaScript expressions.
- Accounts.FindByEmail: picks the first matching row, while Oracle's order without ORDER BY is unspecified; the two agree whenever addresses are unique, which the concurrency gap above can break.
- Storefront.Total: a string daily rate gives NaN in the model, while JavaScript would convert a numeric string to its number.
- Dates: `new Date` parsing of the inputs is not modelled; the date inputs are given as instants or as absent/invalid.
- DOM: the card and grid HTML beyond the Book button, the summary car and rate texts, the form reset, `setMinDate` (a clock read), the event listeners and `window.onclick` are not modelled.
- `submitBooking` (sending the booking from the storefront) is not modelled; its use of `booking_id` is noted above.
