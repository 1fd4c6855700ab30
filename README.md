# Toll reconciliation core, in Dafny

A model of the business rules of a small toll-reconciliation web
application (`app.py`). The application does four things:

- It turns pasted reservation e-mails into reservation records.
- It matches toll charges to those reservations by plate and time window, and totals them.
- It enforces a password rule.
- It keeps per-user account state: export credits, administrator edits of users and plans, and e-mail verification with a 24-hour link.

The web framework, the database, mail and captcha glue are outside the model.

Modules:

- `Wrappers` (wrappers.dfy): `Option`, and the clock constants. Times are integer microseconds.
- `Sequences` (sequences.dfy): the filtering list comprehension, `[x for x in xs if keep(x)]`. The matcher, the dashboard filter and the chunk filter all use it.
- `Text` (text.dfy): the parts of Python's `str` the parser relies on.
  - `lower` is modelled for ASCII only.
  - `strip` uses the `str.isspace` character set.
  - `splitlines` uses Python's line-break set and counts `\r\n` as one terminator.
  - `split(":", 1)` and `split(sep)` are modelled, with `join` as the inverse of `split`.
- `ReservationEmail` (reservation_email.dfy): `extract_value`, `parse_reservation_email` and the chunk loop of `ingest_email`.
  - The date parser `datetime.fromisoformat` is a parameter `parseTime: string -> Option<int>`; `None` stands for a `ValueError`.
- `TollMatcher` (toll_matcher.dfy): `get_matched_reservations`, and `dashboard` with its date filters. Toll amounts are integer cents.
- `Passwords` (passwords.dfy): `is_strong_password`.
- `Accounts` (accounts.dfy): credits, `admin_update_user`, `admin_update_plan`, `verify_email` and the signup timing gate.
  - `User` and `Plan` are classes whose methods assign fields, as the handlers assign the ORM row's fields.
  - Each method is proved equal to a pure step function on an `Account` value. The lemmas state what those steps promise.
  - Database lookups ("is this plan name on record", "is this e-mail taken") are passed in as sets. The current time and the fresh token hash are passed in as values.

## Model

| member | source | states |
|---|---|---|
| ReservationEmail.FirstQualifying | app.py:633-639 | The line `extract_value` takes: the first whose lower-cased text starts with the lower-cased label and that has a colon; a label line without a colon is skipped and the scan continues; `None` exactly when no line qualifies |
| ReservationEmail.ExtractedValueIsClean | app.py:633-638 | An extracted value is the stripped remainder of one line: it holds no line break and neither starts nor ends with white space |
| ReservationEmail.ParseFailsIff | app.py:611-621 | A chunk yields no reservation exactly when its start text (`Start`, else `Pickup`) or end text (`End`, else `Return`) is missing or does not parse |
| ReservationEmail.ParsedFields | app.py:611-629 | A parsed reservation has state "CO", the parsed start and end, the `Guest` value, the `Booking ID`-else-`Reservation` value and the plate text |
| ReservationEmail.PlateDefaults | app.py:614 | The plate is the first `Plate` value when non-empty and "CO1234" otherwise; it is never empty and is a clean one-line value |
| ReservationEmail.NonBlankMultiplicity | app.py:299 | Every chunk whose stripped text is non-empty is kept as many times as the split yields it, and no blank chunk is kept |
| ReservationEmail.NonBlankAppend | app.py:299 | Dropping blank chunks keeps the order of the others |
| ReservationEmail.ParsedCount | app.py:299-306 | One reservation per accepted chunk; the count never exceeds the number of chunks and equals it exactly when every chunk parses |
| ReservationEmail.ParsedAppend | app.py:301-306 | The reservations of two batches of chunks are those of the first followed by those of the second (chunk order is kept) |
| ReservationEmail.IngestChunks | app.py:300-306 | The loop adds, in chunk order, the reservation of every chunk the parser accepts, and its counter equals the number added and the number of accepted chunks |
| ReservationEmail.IngestEmail | app.py:297-309 | `ingest_email` ingests exactly the accepted non-blank `-----` chunks and reports their number, at most the number of non-blank chunks |
| Text.JoinSplit | app.py:299 | Splitting on the separator loses nothing: joining the pieces with it gives back the pasted text |
| Text.SplitPiecesAreFree | app.py:299 | No piece of a split contains the separator |
| Text.StripIsTrimmedSlice | app.py:638 | `strip` returns a contiguous slice with only white space cut on either side, with no white space at its ends, empty exactly when the text is all white space |
| Text.SplitLinesOneLine | app.py:634 | Non-empty text without a line break is one line, itself |
| Text.SplitLinesAfterBreak | app.py:634 | A break-free line ended by a one-character line break (other than a "\r" before "\n") is the first line, followed by the lines of the rest; a final terminator adds no empty line |
| Text.SplitLinesAfterCrLf | app.py:634 | A break-free line ended by "\r\n" is the first line, followed by the lines of the rest: the pair is one terminator |
| Text.AfterFirstColon | app.py:636-638 | `split(":", 1)[1]` is the suffix after the first colon, and no colon precedes it |
| TollMatcher.GetMatchedReservations | app.py:643-661 | One record per reservation, in reservation order, holding exactly the filtered toll list and its total |
| TollMatcher.MatchesMembership | app.py:648-653 | A toll is in a reservation's match list iff it is one of the tolls, its plate equals the reservation's after lower-casing and its entry time lies in [start, end] |
| TollMatcher.MatchesMultiplicity | app.py:648-653 | The match list keeps each matching toll as many times as the toll list has it, and no other toll |
| TollMatcher.MatchesAppend | app.py:648-653 | Matching keeps the relative order of the toll list |
| TollMatcher.WindowIsInclusive | app.py:652 | A toll on the plate entering exactly at the start or at the end of the reservation matches |
| TollMatcher.MatchesIgnorePlateCase | app.py:651 | Changing the ASCII case of the reservation's plate changes no match list |
| TollMatcher.NoMatchMeansZero | app.py:658 | A reservation no toll matches gets an empty list and total 0 |
| TollMatcher.TotalAppend | app.py:658 | The total of two runs of tolls is the sum of their totals |
| TollMatcher.TotalPermutation | app.py:658 | The total does not depend on the order of the tolls |
| TollMatcher.TollOrderIrrelevant | app.py:644-658 | Reordering the toll rows (as another query order would) changes neither a reservation's matched tolls, counted with repeats, nor its total |
| TollMatcher.ReadFilter | app.py:255-266 | A date filter applies exactly when its query value is present, non-empty and parses, and its bound is then the parsed date; it is reported invalid exactly when present, non-empty and unparsable |
| TollMatcher.ShownMembership | app.py:257-267 | A reservation is shown iff it is one of the rows, starts at or after the start filter and ends before the day after the end filter |
| TollMatcher.ShownMultiplicity | app.py:257-267 | Every row in the window is shown as many times as the query returns it, and no other row is shown |
| TollMatcher.ShownAppend | app.py:257-267 | Filtering keeps the order of the reservation rows |
| TollMatcher.Dashboard | app.py:251-291 | `dashboard` reports exactly the invalid filters, shows the filtered reservations and matches tolls to each of them as `get_matched_reservations` does |
| Passwords.Search | app.py:603-606 | `re.search` for a one-character class finds a match iff some character is in the class |
| Passwords.IsStrongPassword | app.py:600-607 | A password is strong iff it has at least 8 characters, an ASCII letter and a digit |
| Passwords.StrongPasswordExtends | app.py:600-607 | Adding characters at either end of a strong password keeps it strong |
| Passwords.NoDigitIsWeak | app.py:605-606 | A password without a digit is never strong |
| Accounts.ConsumeCreditStep | app.py:665-672 | Refused exactly when credits are zero or below, with nothing changed; otherwise exactly one credit is spent and nothing else changes; a non-negative balance stays non-negative |
| Accounts.ExportsBoundedByCredits | app.py:665-672 | From c >= 0 credits, n export requests grant exactly min(n, c) and leave c - min(n, c) |
| Accounts.BuyCreditsStep | app.py:334-335 | Buying adds exactly the requested amount, 5 when the field is absent, and changes nothing else; a non-numeric amount fails the request with nothing changed |
| Accounts.BuyingGrantsExports | app.py:334-335 | After buying k >= 0 credits, n requests grant min(n, c + k) |
| Accounts.User.ConsumeCredit | app.py:665-672 | The user's fields change as `ConsumeCreditStep` says |
| Accounts.User.BuyCredits | app.py:333-335 | The user's fields and the result are as `BuyCreditsStep` says |
| Accounts.NormalizedEmailShape | app.py:463 | The normalised e-mail has no upper-case ASCII letter and no white space at its ends, and is empty exactly when the raw text is all white space |
| Accounts.AdminUpdateUserStep | app.py:457-496 | Every refused update leaves the user unchanged |
| Accounts.OmittedFieldsOnUpdate | app.py:463-487 | An accepted update from a form that leaves out the role stores "subscriber" (demoting an administrator), one that leaves out the plan stores "Colorado Starter", and a left-out fleet size or credit count keeps the stored value raised to 1 or 0 |
| Accounts.BlankEmailRefused | app.py:463-475 | An administrator's form with valid numbers and a missing or all-white-space e-mail is refused as "e-mail required", with nothing changed |
| Accounts.AdminUpdateOutcomes | app.py:458-479 | Refused as forbidden iff the actor is not an admin; as not-a-number iff an admin sent a non-numeric fleet size or credits; as e-mail-required iff the normalised e-mail is empty; as e-mail-exists iff a changed e-mail is already registered |
| Accounts.AdminUpdateStores | app.py:481-493 | An accepted update stores the e-mail and role, fleet size max(n, 1), credits max(n, 0), the plan or "Colorado Starter" when it is not on record; a changed e-mail clears verification and stores the fresh token hash and send time, an unchanged one keeps them |
| Accounts.User.AdminUpdate | app.py:457-496 | The user's fields change as `AdminUpdateUserStep` says, outcome included |
| Accounts.AdminUpdatePlanStep | app.py:517-533 | Forbidden iff the actor is not an admin; not-a-number iff an admin sent non-numeric text; negative iff an admin's read price is below 0; updated otherwise; the stored price changes only when updated, and then to the non-negative read price |
| Accounts.Plan.AdminUpdatePrice | app.py:517-533 | The plan's price changes as `AdminUpdatePlanStep` says; its name never changes |
| Accounts.VerifyEmailStep | app.py:544-554 | "Already verified" iff the user is verified; "expired" iff unverified and sent more than 24 hours ago; verifies otherwise, setting verified and clearing token hash and send time; in every other case nothing changes |
| Accounts.VerificationIsFinal | app.py:544-553 | After a successful verification the token no longer finds the user and any later attempt answers "already verified" |
| Accounts.ExpiryBoundary | app.py:547 | A link used exactly 24 hours after sending still verifies; one microsecond later it has expired |
| Accounts.User.Verify | app.py:544-554 | The user's fields change as `VerifyEmailStep` says |
| Accounts.FirstWithTokenHash | app.py:540 | The first user holding the token hash, or `None` exactly when nobody holds it |
| Accounts.VerifyEmail | app.py:537-555 | An unknown token hash changes no user; otherwise the first user holding it changes as `VerifyEmailStep` says and no other user changes |
| Accounts.SignupTimingAccepted | app.py:162-166 | An accepted signup has a non-zero start time and an elapsed time between 3 s and 3600 s |
| Accounts.SignupWindow | app.py:164 | From a non-zero start, signup is accepted iff 3 s <= elapsed <= 3600 s |

## Left out

- Flask routing, redirects, flash messages, templates, sessions, the rate limiter and CSRF: web-framework glue. Each outcome datatype stands for the flash message chosen.
- SQLAlchemy models, queries, commits and `ensure_user_columns`: persistence. Query results are input sequences in the order the query returns them. The descending sort by start date or entry time is not modelled; `TollOrderIrrelevant` shows that toll order does not change the totals.
- `dashboard`'s date filters are applied to the reservation sequence in the model, not inside the SQL query.
- `send_verification_email`, SMTP and the Turnstile captcha request: network I/O. So are the honeypot field and the rest of `signup`, `login`, admin user creation and deletion, `sync_tolls` and the CSV and PDF exports around `consume_credit`: these are request glue around the rules modelled here.
- Token generation with `secrets` and SHA-256, and password hashing: cryptographic library calls. The new token's hash is an input, and `verify_email` receives the hash of the presented token.
- `datetime.fromisoformat` and `datetime.utcnow`: the parser is an abstract `string -> Option<int>`, and the clock is an integer microsecond value passed in. Mixing timezone-aware and naive datetimes, which Python rejects with `TypeError`, is not modelled.
- Float toll amounts and their `.2f` formatting: amounts are integer cents.
- Unicode `lower()` and `\d`: only ASCII letters are lower-cased, and only ASCII digits count as digits.
- `time.time()` is a float of seconds; the signup gate uses integer microseconds.
- Accounts.BuyCreditsStep: the source accepts any integer, including a negative one, and so does the model. Credits are therefore not an invariant `>= 0`, and the non-negativity in `ConsumeCreditStep` is stated only for a non-negative starting balance. The `ValueError` on non-numeric text ends the request with an error page in the source; the model reports it as `false`.
- ExportsBoundedByCredits: holds for export requests handled one after another. `consume_credit` reads the balance loaded at the start of the request and writes it back decremented (app.py:666-669), so two concurrent exports with one credit can both pass the check. Concurrency is not modelled.
- Accounts.User.ConsumeCredit: `export_pdf` spends the credit before it checks that the PDF library is installed (app.py:374-378), so a failed PDF export still costs a credit. The export routes around `consume_credit` are not modelled.
- Dashboard: the end filter's one-day shift (app.py:263) raises `OverflowError` for an end on the last representable day, 9999-12-31. Only `ValueError` is caught, so the page fails. The model's timestamps are unbounded and it shows the filtered reservations instead.
- Accounts.User.AdminUpdate: takes the form after `ReadUserForm` has read it. The e-mail normalisation is stated separately in `NormalizedEmailShape`.
