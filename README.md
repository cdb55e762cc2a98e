# Salon booking app: verified model of its core rules

This project models in Dafny the rules at the heart of a small salon booking
app: a React Native front end (earnings and clients screens) over a FastAPI +
SQLAlchemy back end (auth and appointment routers). It proves properties of
that model. It covers four parts.

- **Earnings screen.** `groupByDay` buckets appointments by the date part of
  their start time and returns the buckets in ascending day order. The
  `total` and per-day `dayTotal` reducers count a non-numeric price as 0.
  `startOfDay`/`endOfDay` work on copies of a `Date`. `toISO` writes the
  local timestamp text. The Today / This Week / This Month presets compute
  their date bounds.
- **Appointment router.** `create_appointment` checks that the end is after
  the start, then that the client and staff exist, then builds and inserts
  the row. As written, the row constructor is given a `price` keyword the
  table has no column for, so it fails for every request (see
  "## Findings"); the model of the operation builds the row from the fields
  that have columns.
  `list_appointments` applies its optional bounds and orders by start time.
- **Clients screen.** `createClient` validates the names, normalises the
  payload and resets the form only on success. `load` guards against a body
  that is not an array.
- **Auth router.** `register` keeps emails unique and stores only the hash.
  `login` answers every failure with the same 401. `create_access_token`
  adds `exp` to a copy of the claims.

Layout, one module per file:

| file | module | what |
|---|---|---|
| common.dfy | `Common` | `Option`, `Result`, and `FirstWhere`, the `.first()` lookup |
| decimal.dfy | `Decimal` | `String(n)`/`str(n)`, `padStart(2, '0')`, and parsing back |
| calendar.dfy | `Calendar` | proleptic Gregorian dates, day ordinals, weekday, day arithmetic |
| date_object.dfy | `DateObject` | JavaScript `Date` as a class: copy, `new Date(y, m, d)`, `setHours`, `setDate`, `getDay` |
| earnings_range.dfy | `EarningsRange` | `startOfDay`, `endOfDay`, `toISO`, `applyPreset` |
| string_order.dfy | `StringOrder` | default `Array.prototype.sort` order on strings |
| earnings.dfy | `Earnings` | `groupByDay`, `total`, `dayTotal` |
| models.dfy | `Models` | table rows, `HTTPException`, the `Database` class |
| appointments.dfy | `Appointments` | `create_appointment`, `list_appointments` |
| auth.dfy | `Auth` | `register`, `login`, `create_access_token` |
| clients_screen.dfy | `ClientsScreen` | `trim`, the client payload, `load`, `createClient` |

Representation choices:

- Back-end `datetime` values are whole microseconds on one time line, and a
  `timedelta` is a microsecond count.
- Prices are integer cents. `None` stands for what `Number(price)` turns
  into NaN.
- A JavaScript `Date` is modelled by its local wall-clock fields.
- Password hashing, hash verification, JWT encoding, the clock and the two
  network replies of the clients screen are parameters of the operations
  that use them.

## Model

| member | source | states |
|---|---|---|
| `Common.FirstWhere` | backend/app/routers/appointments.py:18-21 | `.first()` finds nothing exactly when no row matches, and otherwise finds a matching row |
| `Common.FirstWhereAppend` | backend/app/auth.py:35 | appending a row leaves an existing first match alone and makes the new row the match when there was none |
| `Decimal.NatToString` | frontend/app/screens/EarningsScreen.js:20 | `String(n)` is a non-empty run of digits without a leading zero |
| `Decimal.NatRoundTrip` | frontend/app/screens/EarningsScreen.js:20-21 | reading the digits of `String(n)` back gives n |
| `Decimal.IntToString` | backend/app/auth.py:50 | `str(i)` starts with '-' exactly for negative i and is otherwise all digits; `IntRoundTrip` reads it back as i |
| `Decimal.IntRoundTrip` | backend/app/auth.py:50 | `str(user.id)` parses back to the id, negative ids included |
| `Decimal.PadStart2` | frontend/app/screens/EarningsScreen.js:20 | `padStart(2, '0')` yields at least two characters and leaves longer texts' length alone |
| `Decimal.Pad2RoundTrip` | frontend/app/screens/EarningsScreen.js:20 | a number below 100 pads to two digits that read back as itself |
| `Decimal.FourDigitText` | frontend/app/screens/EarningsScreen.js:21 | years 1000..9999 print as four digits |
| `DateObject.ConstructorYear` | frontend/app/screens/EarningsScreen.js:98-99 | `new Date(y, m, d)` reads years 0..99 as 1900 + y and other years as given |
| `DateObject.Date.Copy` | frontend/app/screens/EarningsScreen.js:9 | `new Date(d)` is a new object with the same value as `d` |
| `DateObject.Date.FromParts` | frontend/app/screens/EarningsScreen.js:98-99 | `new Date(y, m, d)` is midnight on the date reached by carrying the month into the year and counting `d - 1` days from the first; years 0..99 mean 1900 + y |
| `DateObject.Date.GetDay` | frontend/app/screens/EarningsScreen.js:89 | `getDay()` lies in 0..6 |
| `DateObject.Date.SetHours` | frontend/app/screens/EarningsScreen.js:10 | `setHours` replaces the time of day and keeps the date |
| `DateObject.Date.SetDate` | frontend/app/screens/EarningsScreen.js:91-92 | `setDate(n)` moves to the date `n - getDate()` days away, rolling into neighbouring months, and keeps the time |
| `DateObject.MakeDay` | frontend/app/screens/EarningsScreen.js:98-99 | the date `new Date(y, m, d)` denotes is always a valid calendar date |
| `Calendar.AddDays` | frontend/app/screens/EarningsScreen.js:91-92 | shifting a valid date by k days, forwards or backwards, gives a valid date |
| `Calendar.AddDaysOrdinal` | frontend/app/screens/EarningsScreen.js:91-92 | shifting by k days moves the ordinal by exactly k |
| `Calendar.NextDay` | frontend/app/screens/EarningsScreen.js:92 | the next day of a valid date is valid, across month and year ends |
| `Calendar.NextDayOrdinal` | frontend/app/screens/EarningsScreen.js:92 | the next day is exactly one ordinal later, across month and year ends |
| `Calendar.PrevDay` | frontend/app/screens/EarningsScreen.js:91 | the previous day of a valid date is valid |
| `Calendar.PrevDayOrdinal` | frontend/app/screens/EarningsScreen.js:91 | the previous day is exactly one ordinal earlier, across month and year starts |
| `Calendar.OrdinalInjective` | frontend/app/screens/EarningsScreen.js:91-92 | different dates have different ordinals, so day arithmetic is determined by ordinals |
| `Calendar.LeapYearsStep` | frontend/app/screens/EarningsScreen.js:99 | each year adds 366 days when it is a leap year and 365 otherwise |
| `Calendar.LeapCountStep` | frontend/app/screens/EarningsScreen.js:99 | a year adds one to the count of leap years before it exactly when it is itself a leap year |
| `Calendar.DaysInMonth` | frontend/app/screens/EarningsScreen.js:99 | every month has between 28 and 31 days |
| `Calendar.Weekday` | frontend/app/screens/EarningsScreen.js:89 | `getDay()` lies in 0..6, 0 being Sunday |
| `Calendar.ShiftFromFirstOfMonth` | frontend/app/screens/EarningsScreen.js:91-92 | counting `n - 1` days on from the first of the month is the same as shifting by `n - day` |
| `Calendar.DayBeforeNextMonth` | frontend/app/screens/EarningsScreen.js:99 | day 0 of the following month is the last day of this month, December included |
| `Calendar.MondayThirdOfMarch2025` | frontend/app/screens/EarningsScreen.js:89 | 3 March 2025 gets weekday 1 (Monday) |
| `EarningsRange.StartOfDay` | frontend/app/screens/EarningsScreen.js:8-12 | returns a fresh copy on the same date at 00:00:00.000 |
| `EarningsRange.EndOfDay` | frontend/app/screens/EarningsScreen.js:13-17 | returns a fresh copy on the same date at 23:59:59.999 |
| `EarningsRange.Format` | frontend/app/screens/EarningsScreen.js:18-22 | the text starts with the unpadded year and has at least 15 more characters; `FixedWidthPartFields`, `FormatRoundTrip` and `FormatIsRfc3339` give its fields and shape |
| `EarningsRange.ToIso` | frontend/app/screens/EarningsScreen.js:18-22 | for a valid `Date`, the local year, month + 1, day, hours, minutes and seconds read back from `toISO(dt)` |
| `EarningsRange.FixedWidthPartFields` | frontend/app/screens/EarningsScreen.js:20-21 | after the year, the text is 15 characters with separators at fixed places and two-digit fields holding month + 1, day, hours, minutes, seconds |
| `EarningsRange.FormatRoundTrip` | frontend/app/screens/EarningsScreen.js:18-22 | parsing the `toISO` text gives back year, `getMonth() + 1`, day, hours, minutes, seconds |
| `EarningsRange.FormatIsRfc3339` | frontend/app/screens/EarningsScreen.js:18-22 | for four-digit years the text is an RFC 3339 `full-date "T" partial-time` with an existing day of the month |
| `EarningsRange.DaysSinceMonday` | frontend/app/screens/EarningsScreen.js:90 | `(day + 6) % 7` lies in 0..6 |
| `EarningsRange.WeekStart` | frontend/app/screens/EarningsScreen.js:89-91 | the week's first day is a valid date; `WeekBounds` proves it is a Monday no later than today |
| `EarningsRange.WeekEnd` | frontend/app/screens/EarningsScreen.js:92 | the week's last day is a valid date; `WeekBounds` proves it is the Sunday six days after the Monday, no earlier than today |
| `EarningsRange.WeekBounds` | frontend/app/screens/EarningsScreen.js:88-94 | the week starts on a weekday-1 Monday and ends six days later on a weekday-0 Sunday, and contains today |
| `EarningsRange.MondayByDayOfMonth` | frontend/app/screens/EarningsScreen.js:91 | `setDate(getDate() - diffToMon)` lands on the week's Monday |
| `EarningsRange.SundayByDayOfMonth` | frontend/app/screens/EarningsScreen.js:92 | `setDate(monday.getDate() + 6)` lands on the week's Sunday |
| `EarningsRange.MondayOf` | frontend/app/screens/EarningsScreen.js:89-91 | the `monday` copy holds the week's Monday at the current time of day |
| `EarningsRange.SundayOf` | frontend/app/screens/EarningsScreen.js:92 | the `sunday` copy holds the week's Sunday |
| `EarningsRange.MonthStart` | frontend/app/screens/EarningsScreen.js:98 | `new Date(y, m, 1)` is a valid date; `MonthBounds` proves it is the first of today's month |
| `EarningsRange.MonthEnd` | frontend/app/screens/EarningsScreen.js:99 | `new Date(y, m + 1, 0)` is a valid date; `MonthBounds` proves it is the month's last day |
| `EarningsRange.MonthBounds` | frontend/app/screens/EarningsScreen.js:97-101 | the month runs from day 1 to its last day, 29 February exactly in leap years, contains today, and the day after its end is a first |
| `EarningsRange.MonthBoundsTwoDigitYear` | frontend/app/screens/EarningsScreen.js:98-99 | for years 0..99 both bounds fall in year 1900 + y |
| `EarningsRange.TodayBounds` | frontend/app/screens/EarningsScreen.js:83-85 | the Today bounds are the texts of today at 00:00:00 and at 23:59:59 |
| `EarningsRange.ThisWeekBounds` | frontend/app/screens/EarningsScreen.js:88-94 | the This Week bounds are the texts of the week's Monday at 00:00:00 and its Sunday at 23:59:59 |
| `EarningsRange.ThisMonthBounds` | frontend/app/screens/EarningsScreen.js:97-101 | the This Month bounds are the texts of the first and last day of the month |
| `EarningsRange.ApplyPreset` | frontend/app/screens/EarningsScreen.js:80-105 | each preset passes the bounds stated above to `load` |
| `StringOrder.LexIrreflexive` | frontend/app/screens/EarningsScreen.js:35 | no key sorts before itself |
| `StringOrder.LexTransitive` | frontend/app/screens/EarningsScreen.js:35 | the sort order is transitive |
| `StringOrder.LexTotal` | frontend/app/screens/EarningsScreen.js:35 | any two different keys are ordered one way or the other |
| `StringOrder.LexAsymmetric` | frontend/app/screens/EarningsScreen.js:35 | two keys are never each before the other |
| `StringOrder.LexLeqTransitive` | frontend/app/screens/EarningsScreen.js:35 | "not after" is transitive |
| `StringOrder.Insert` | frontend/app/screens/EarningsScreen.js:35 | inserting adds exactly one element and removes none |
| `StringOrder.InsertBound` | frontend/app/screens/EarningsScreen.js:35 | a lower bound met by the element and the list is met by the result |
| `StringOrder.InsertSorted` | frontend/app/screens/EarningsScreen.js:35 | inserting into a sorted list keeps it sorted |
| `StringOrder.SortStrings` | frontend/app/screens/EarningsScreen.js:35 | `sort()` returns a sorted permutation of the keys |
| `StringOrder.DistinctCount` | frontend/app/screens/EarningsScreen.js:35 | a list without repeats holds each key at most once |
| `StringOrder.DistinctPermutation` | frontend/app/screens/EarningsScreen.js:35 | a permutation of a list without repeats has none |
| `StringOrder.SortedDistinctAscending` | frontend/app/screens/EarningsScreen.js:35 | a sorted list without repeats is strictly ascending |
| `StringOrder.SortDistinct` | frontend/app/screens/EarningsScreen.js:35 | sorting the distinct object keys gives strictly ascending days |
| `StringOrder.AscendingUnique` | frontend/app/screens/EarningsScreen.js:35-36 | two strictly ascending lists with the same members are equal |
| `Earnings.DayKey` | frontend/app/screens/EarningsScreen.js:31 | the key is the start time's prefix of ten characters, or all of it when shorter, and "" when there is none |
| `Earnings.SumBy` | frontend/app/screens/EarningsScreen.js:75 | a left fold from 0 is never negative when no term is, and 0 when every term is |
| `Earnings.Total` | frontend/app/screens/EarningsScreen.js:74-77 | the `total` (and a bucket's `dayTotal`, line 184) is 0 when no record has a usable price and never negative when no price is; `TotalAppend` and `TotalIsSumOfDayTotals` relate it to the buckets |
| `Earnings.Contribution` | frontend/app/screens/EarningsScreen.js:75 | a record adds its price, or 0 when the price is missing or non-numeric |
| `Earnings.FillByDay` | frontend/app/screens/EarningsScreen.js:29-34 | the loop leaves a map from each day key that occurs to that day's appointments in input order, with its keys listed once each |
| `Earnings.DaysSnoc` | frontend/app/screens/EarningsScreen.js:30-32 | appending a record adds its day key to the days that occur |
| `Earnings.SortedSameKeys` | frontend/app/screens/EarningsScreen.js:35 | `Object.keys(map).sort()` holds exactly the keys of the map |
| `Earnings.BucketsFromMap` | frontend/app/screens/EarningsScreen.js:35-36 | pairing the sorted, distinct keys with their lists from the map gives buckets in strictly ascending day order, one per day that occurs, each with that day's records in input order |
| `Earnings.GroupByDay` | frontend/app/screens/EarningsScreen.js:28-37 | the result has strictly ascending days, exactly the day keys that occur, and each day's appointments in input order |
| `Earnings.GroupingUnique` | frontend/app/screens/EarningsScreen.js:28-37 | the grouping of an input is unique, so the result above is determined |
| `Earnings.ExactlyOneBucket` | frontend/app/screens/EarningsScreen.js:30-33 | each appointment is in the bucket of its own day and in no other, and no bucket is empty |
| `Earnings.BucketSizesSum` | frontend/app/screens/EarningsScreen.js:30-36 | the bucket sizes add up to the number of appointments |
| `Earnings.TotalIsSumOfDayTotals` | frontend/app/screens/EarningsScreen.js:75 | the total equals the sum of the `dayTotal`s of the buckets |
| `Earnings.EmptyGrouping` | frontend/app/screens/EarningsScreen.js:29-36 | empty input gives no buckets and a total of 0 |
| `Earnings.UnpricedAddsZero` | frontend/app/screens/EarningsScreen.js:75 | a record without a usable price adds 0 yet stays in its day's bucket |
| `Earnings.TotalAppend` | frontend/app/screens/EarningsScreen.js:74-77 | the total of two lists joined is the sum of their totals |
| `Earnings.OnDayMembers` | frontend/app/screens/EarningsScreen.js:31-33 | a day's list holds exactly the appointments with that key |
| `Earnings.CountIsLength` | frontend/app/screens/EarningsScreen.js:30-33 | counting each record once gives the number of records |
| `Earnings.SumOverDaysStep` | frontend/app/screens/EarningsScreen.js:30-33 | a new record changes the per-day sums by its value once when its day is listed |
| `Earnings.SumOverDaysPartition` | frontend/app/screens/EarningsScreen.js:30-36 | summing over the day lists equals summing over the input |
| `Earnings.EmptyOverDays` | frontend/app/screens/EarningsScreen.js:29 | with no records every day's sum is 0 |
| `Earnings.BucketsAreDays` | frontend/app/screens/EarningsScreen.js:36 | summing over buckets is summing over their days' lists |
| `Earnings.GroupingPartition` | frontend/app/screens/EarningsScreen.js:28-37 | any per-record value summed over the buckets equals its sum over the input |
| `Models.RoleName` | backend/app/models.py:8-10 | the role column holds "owner" for owners and "staff" for staff |
| `Models.NextId` | backend/app/models.py:14 | a new row's id is positive and above every id in the table |
| `Models.Database.Empty` | backend/app/models.py:12-40 | a database starts with empty tables that meet the table invariants |
| `Appointments.RowFromCreateRoundTrip` | backend/app/routers/appointments.py:22 | the stored row keeps every submitted field except the price |
| `Appointments.Construct` | backend/app/routers/appointments.py:22 | the row constructor fails exactly when a keyword names no attribute of the row class |
| `Appointments.ConstructAsWrittenFails` | backend/app/routers/appointments.py:22 | with all dumped fields, `price` included, the constructor fails for every request |
| `Appointments.ConstructStoredFields` | backend/app/routers/appointments.py:22 | with only the fields that have columns, the row is built and loses only the price |
| `Appointments.ConstructStored` | backend/app/routers/appointments.py:22 | the corrected construction that `CreateAppointment` runs succeeds and gives the row of every submitted field but the price |
| `Appointments.CreateAppointment` | backend/app/routers/appointments.py:12-26 | with the row construction of line 22 corrected as in "## Findings": end <= start gives 400 "end_time must be after start_time" whatever the ids; otherwise a missing client or staff gives 400 "Invalid client or staff id"; a rejection changes nothing; a success appends exactly one row, keeps the other tables, and keeps every stored row well-ordered |
| `Appointments.Matching` | backend/app/routers/appointments.py:35-39 | the filters keep each row as often as it is stored when it meets both optional bounds, and drop it otherwise |
| `Appointments.InsertByStart` | backend/app/routers/appointments.py:40 | inserting adds exactly one row and removes none |
| `Appointments.InsertByStartBound` | backend/app/routers/appointments.py:40 | a lower bound on start times met by the row and the list is met by the result |
| `Appointments.InsertByStartSorted` | backend/app/routers/appointments.py:40 | inserting into a list ordered by start time keeps it ordered |
| `Appointments.SortByStart` | backend/app/routers/appointments.py:40 | the ordering returns a permutation in ascending start time |
| `Appointments.ListAppointments` | backend/app/routers/appointments.py:28-40 | the result is in ascending start order and holds exactly the stored rows with `start_time >= start` and `end_time <= end`, each as often as it is stored |
| `Appointments.ListWithoutBounds` | backend/app/routers/appointments.py:35-40 | without bounds, every stored appointment is returned |
| `Appointments.ListedRowsWellOrdered` | backend/app/routers/appointments.py:15-16 | every listed row of a valid table ends after it starts |
| `Appointments.ListMonotone` | backend/app/routers/appointments.py:36-39 | narrowing the bounds never adds a row |
| `Auth.Expiry` | backend/app/auth.py:18-28 | the expiry is now plus a non-zero delta, and otherwise now plus 1440 minutes |
| `Auth.ClaimDict.Of` | backend/app/auth.py:50 | the claims dict holds the given entries |
| `Auth.ClaimDict.Copy` | backend/app/auth.py:27 | `copy()` holds the same entries as the original |
| `Auth.ClaimDict.Update` | backend/app/auth.py:29 | `update` adds or overwrites the given entries |
| `Auth.WithExpiry` | backend/app/auth.py:27-29 | the encoded claims are the caller's plus `exp`, and nothing else changes |
| `Auth.CreateAccessToken` | backend/app/auth.py:26-31 | encodes the caller's claims with `exp` set, and leaves the caller's dict unchanged |
| `Auth.UserByEmail` | backend/app/auth.py:35 | the lookup finds nothing exactly when no user has the email, and under unique emails finds the one that has it |
| `Auth.Register` | backend/app/auth.py:33-43 | a taken email gives 400 "Email already registered." and changes nothing; otherwise exactly one user is appended with `hash(password)` as its hash, and emails stay unique |
| `Auth.Authenticate` | backend/app/auth.py:47-49 | login succeeds exactly when a user has the email and the password verifies against its hash; every failure is 401 "Invalid credentials" |
| `Auth.LoginClaims` | backend/app/auth.py:50 | the claims are exactly `sub`, the decimal text of the user id, which parses back to it, and `role`, the role's name: "owner" for an owner and "staff" for a staff member |
| `Auth.Login` | backend/app/auth.py:45-51 | a rejected login gives the 401; an accepted one returns a bearer token encoding `sub`, `role` and the default expiry |
| `Auth.RegisterThenAuthenticate` | backend/app/auth.py:33-49 | a newly registered user is found by their email and logs in with their password |
| `Auth.RegisteredEmailOnce` | backend/app/auth.py:35-39 | appending a user whose email is new keeps emails unique |
| `ClientsScreen.TrimStart` | frontend/app/screens/ClientsScreen.js:40 | removes exactly the leading whitespace |
| `ClientsScreen.TrimEnd` | frontend/app/screens/ClientsScreen.js:40 | removes exactly the trailing whitespace |
| `ClientsScreen.Trim` | frontend/app/screens/ClientsScreen.js:40-47 | the result of `trim()` neither begins nor ends with whitespace |
| `ClientsScreen.TrimSlices` | frontend/app/screens/ClientsScreen.js:40-47 | the result of `trim()` is a middle slice of the input, with only whitespace cut away at either end |
| `ClientsScreen.TrimBlank` | frontend/app/screens/ClientsScreen.js:40 | a name trims to "" exactly when it is all whitespace |
| `ClientsScreen.TrimIdempotent` | frontend/app/screens/ClientsScreen.js:44-47 | trimming twice is trimming once |
| `ClientsScreen.OrNull` | frontend/app/screens/ClientsScreen.js:46-47 | phone and email become null when they trim to "" and the non-empty trimmed text otherwise |
| `ClientsScreen.OrNullIdempotent` | frontend/app/screens/ClientsScreen.js:46-47 | normalising a normalised phone or email changes nothing |
| `ClientsScreen.BuildPayload` | frontend/app/screens/ClientsScreen.js:43-48 | the payload holds the trimmed names and the normalised phone and email |
| `ClientsScreen.PayloadNormal` | frontend/app/screens/ClientsScreen.js:43-48 | rebuilding a payload from its own fields gives the same payload |
| `ClientsScreen.AcceptedPayload` | frontend/app/screens/ClientsScreen.js:40-48 | an accepted form sends non-empty names and no blank optional field |
| `ClientsScreen.ListOrEmpty` | frontend/app/screens/ClientsScreen.js:23 | a body that is not an array becomes the empty client list |
| `ClientsScreen.Screen.constructor` | frontend/app/screens/ClientsScreen.js:8-15 | the screen starts with no clients and four empty fields |
| `ClientsScreen.Screen.Load` | frontend/app/screens/ClientsScreen.js:19-24 | a failed reply throws "list clients failed: status text" and keeps the list; otherwise the list becomes the array or empty; the form is untouched |
| `ClientsScreen.Screen.ResetAndReload` | frontend/app/screens/ClientsScreen.js:51-54 | after a successful post all four fields are empty; a good reload replaces the list and confirms, a failed one keeps the list and alerts the error |
| `ClientsScreen.Screen.CreateClient` | frontend/app/screens/ClientsScreen.js:38-58 | a missing name alerts "Missing info", sends nothing and changes nothing; otherwise it sends the normalised payload; a failed post alerts the error before the reset, so the form is unchanged; a successful post clears all four fields and then reloads the list |

## Left out

- Rendering, styling, widgets, navigation, keyboard handling and token storage are user interface, not logic.
- The loading flags are left out: `setLoading` and `setRefreshing` only drive the spinner.
- Fetching, URLs and JSON are not modelled. Replies and parsed bodies are parameters. A reply whose body is not JSON is left out.
- React state updates are modelled as immediate assignments. React batches them, which changes nothing for the fields here.
- The earnings screen's own `load` is left out. It is a fetch wrapper whose `Array.isArray` guard matches the clients screen's `load`.
- `applyCustom` is left out. `new Date("YYYY-MM-DD")` parses as UTC midnight, which depends on the host time zone.
- The `toISOString().slice(0, 10)` display strings are left out. They convert to UTC and depend on the host time zone.
- Time zones and daylight-saving changes are left out. A `Date` is its local fields.
- The engine's limit of ±8.64e15 ms on `Date` values is left out.
- `fmtMoney` and floating-point prices are left out. Prices are integer cents.
- `Number("12.5")` and other fractional texts are not distinguished from integers.
- Text with characters above U+FFFF is outside the model. JavaScript's `sort()` and `slice(0, 10)` count UTF-16 code units, while a Dafny `char` is a whole Unicode scalar value. Start times are ASCII dates, so day keys never contain such characters.
- JavaScript object keys that clash with `Object.prototype` (a day key of "toString") are left out: a plain map is used.
- `Object.keys` lists integer-like keys first. The model lists keys in insertion order, which `sort()` makes irrelevant.
- Appointments.ListAppointments: SQL leaves the order of rows with equal start times unspecified. The contract promises only ascending order and the multiset, and the insertion sort is one admissible order.
- Database sessions, commit and refresh are left out. Inserts append to an in-memory table.
- Models.NextId: ids come from the database. The model takes one above the largest id; only freshness is relied on.
- Pydantic validation is left out, including `EmailStr` normalisation. Emails are compared as given.
- Naive versus aware `datetime` comparison errors are left out. Instants are integers.
- bcrypt and JWT internals are left out. They are the `hash`, `verify` and `encode` parameters.
- `SECRET_KEY` and `ALGORITHM` are left out: they only feed `encode`.
- Auth.Expiry: the environment override of `ACCESS_TOKEN_EXPIRE_MINUTES` is not modelled. The default of 1440 is used.
- `datetime` overflow on a huge delta is left out.
- `me`, `deps.get_current_user` and `main.py` are not part of this model.
- The clients router, a bare insert and select-all, is not part of this model.
- AppointmentsScreen.js is left out: it forwards raw strings to the server.

## Findings

| source | as written | input that shows it | evidently intended | confidence | as-written member | corrected member |
|---|---|---|---|---|---|---|
| backend/app/routers/appointments.py:22 | `models.Appointment(**appt.model_dump())` passes every schema field, `price` included (backend/app/schemas.py:58), but the mapped class has no `price` attribute (backend/app/models.py:28-40). The declarative constructor raises a TypeError for that keyword, so no booking is ever stored. | any request that passes both guards, e.g. existing client 1 and staff 1, start 10:00, end 11:00, no price | store the row without the price (or add a price column) | medium, not executed; the `Base` of the models is not part of this model and is taken to be SQLAlchemy's declarative base | `Appointments.ConstructAsWrittenFails` | `Appointments.ConstructStoredFields` |
