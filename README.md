# golang-playspace core, modelled in Dafny

This project models the core of the golang-playspace repository, a collection
of small Go programs, and proves properties of the model:

- **outlook cleaner** (`cmd/outlookcleaner`): connecting the configured mail
  accounts and checking their folders, fetching the newest messages of a
  folder, turning an IMAP message into a database record, and the prune run
  that sorts the archive folder into buckets and moves them.
- **transaction generation** (`cmd/transaction-generation`): expanding
  transaction patterns into a time series of dated points.
- **cash-flow prototype** (`cmd/ct-prototype`): splitting a range
  transaction into one equal share per day.
- **sqlx character store** (`cmd/sqlx`): building the filtered List query with
  its bind arguments, and Store, insert, update and Delete.
- **stringer CLI** (`cmd/cobra-cli`): reversing a string rune by rune and
  counting its bytes or its digit runes.
- **htmx joke site** (`cmd/htmx-specter`): sign-in, sign-up, sign-out, joke
  posting, and the authentication middleware with its session helpers.
- **budget app guards** (`cmd/withauth`): the CSRF gate, handing out the CSRF
  token through a cookie, reading the sign-in cookie, and the hex-encoded
  random tokens.

Modelling conventions:

- Go strings are `seq<char>`, one element per rune. Go's `len` on a string is
  the UTF-8 byte count, `Text.Utf8Length`.
- Go's integer division truncates toward zero; it is written out as
  `GoArith.TruncDiv`.
- Instants are whole hours on a UTC time line.
- The outside world is passed in as parameters:
  - Library functions without a model of their own are function values
    (`Text.Library`): `unicode.IsPrint`, `strings.ToLower`, and the
    `strutil.Words` word splitter.
  - Date parsing and formatting are also function values.
  - The IMAP server is a `MailServer` or session record. Its answers (dial,
    LIST, SELECT, SEARCH, MOVE) are functions of the request.
  - The database is a record of functions.
  - The random stream is `nat -> byte`.
  - bcrypt is an oracle.

Modules, one per source area:

- `Wrappers`: Option and Result.
- `Text`: UTF-8 length, rune filtering, joining, character counts.
- `GoArith`: truncating division.
- `Imap`: messages, envelopes, body structures, the pre-order walk, flags and
  attachment names.
- `MailIngest`: `ops_ingest.go`.
- `MailAccounts`: `mail_account_manager.go`.
- `FetchWindow`: `ingest.go`.
- `MailPrune`: `ops_prune.go`.
- `TimeSeries`: `transaction-generation/main.go`.
- `RangeExpand`: `ct-prototype/transaction_utils.go`.
- `CharacterStore`: `sqlx/main.go`.
- `Stringer`: `cobra-cli/main.go`.
- `SpecterForms`: `htmx-specter/main.go`.
- `WithAuth`: `withauth/auth.go`.

Loops in the source become Dafny methods with loop invariants: the body walk,
classification, moves, account connection, point generation, range
expansion, query building, reversal and digit counting. Each method is
proved against a specification function, and lemmas state the properties of
that function. The `Character`, the htmx `Session` and the `ResponseWriter`
are updated in place in the source, so they are classes that the methods
modify.

## Model

| member | source | states |
|---|---|---|
| Text.Utf8Width | cmd/cobra-cli/main.go:24 | a rune takes one to four UTF-8 bytes, and exactly one when it is below U+0080 |
| Text.Utf8Length | cmd/cobra-cli/main.go:24 | `len` of a string is at least its rune count and at most four times it; it is zero only for the empty string |
| Text.Utf8LengthConcat | cmd/cobra-cli/main.go:24 | the byte length of a concatenation is the sum of the byte lengths |
| Text.Utf8LengthAscii | cmd/cobra-cli/main.go:24 | an all-ASCII string has as many bytes as runes |
| Text.KeepIf | cmd/outlookcleaner/ops_ingest.go:165-170 | keeping the printable runes yields only printable runes, no more than the input has; a rune is in the result iff it is in the input and printable |
| Text.KeepIfConcat | cmd/outlookcleaner/ops_ingest.go:165-170 | filtering distributes over concatenation |
| Text.KeepIfAllKept | cmd/outlookcleaner/ops_ingest.go:165-170 | a subject made only of printable runes is stored unchanged |
| Text.KeepIfIdempotent | cmd/outlookcleaner/ops_ingest.go:165-170 | filtering a filtered subject changes nothing |
| Text.Occurrences | cmd/sqlx/main.go:210-216 | a character occurs at most once per position, and zero times iff it is absent |
| Text.OccurrencesConcat | cmd/sqlx/main.go:210-216 | occurrence counts add up over concatenation |
| Text.OccurrencesAllConcat | cmd/sqlx/main.go:210-216 | the total count over a list of strings adds up over list concatenation |
| Text.OccurrencesJoin | cmd/sqlx/main.go:211 | `strings.Join` with a separator free of the character keeps the total count of the joined parts |
| Text.Join | cmd/outlookcleaner/ops_ingest.go:215 | strings.Join: "" for no parts, the lone part for one, otherwise the parts in order with the separator between neighbours and at neither end |
| GoArith.Abs | cmd/transaction-generation/main.go:47 | the absolute value is non-negative and equal to the input or to its negation |
| GoArith.TruncDiv | cmd/transaction-generation/main.go:47 | Go's integer `/`: the quotient of the magnitudes, negated when the operands' signs differ, so it rounds toward zero; its meaning is pinned down by TruncDivRemainder |
| GoArith.TruncDivRemainder | cmd/transaction-generation/main.go:47 | Go's quotient truncates toward zero: the remainder has the dividend's sign and is smaller than the divisor |
| GoArith.TruncDivNatural | cmd/ct-prototype/transaction_utils.go:6 | for a non-negative dividend and positive divisor Go's quotient is the floor quotient |
| GoArith.TruncDivBelow | cmd/transaction-generation/main.go:47 | every multiple of the divisor below the quotient stays below the dividend |
| GoArith.TruncDivNegative | cmd/transaction-generation/main.go:47 | a negative duration over a positive period never gives a positive count |
| Imap.PreOrder | cmd/outlookcleaner/ops_ingest.go:200-214 | `Walk` visits the part itself first |
| Imap.PreOrderAllSnoc | cmd/outlookcleaner/ops_ingest.go:200-214 | walking one more child appends that child's walk |
| Imap.PreOrderAllSplit | cmd/outlookcleaner/ops_ingest.go:200-214 | the walk of a list of children splits over concatenation |
| Imap.ChildWalkInside | cmd/outlookcleaner/ops_ingest.go:200-214 | every part visited under a child is visited under the parent |
| Imap.AsciiLowerRune | cmd/outlookcleaner/ops_ingest.go:201 | the case fold of `EqualFold` against "attachment" maps A-Z to a-z and leaves every other rune alone |
| Imap.IsAttachment | cmd/outlookcleaner/ops_ingest.go:201 | a part is an attachment iff its disposition equals "attachment" up to case, as strings.EqualFold compares |
| Imap.AttachmentNamesOf | cmd/outlookcleaner/ops_ingest.go:200-214 | there is at most one name per visited part |
| Imap.AttachmentNamesOfConcat | cmd/outlookcleaner/ops_ingest.go:200-214 | collected names split over concatenation of visited parts |
| Imap.AttachmentNamesOfEmpty | cmd/outlookcleaner/ops_ingest.go:200-214 | no name is collected iff no visited part has disposition "attachment" |
| Imap.AttachmentNamesEmptyIff | cmd/outlookcleaner/ops_ingest.go:200-214 | a message has attachment names iff some part of its body is an attachment |
| Imap.NestedAttachmentFound | cmd/outlookcleaner/ops_ingest.go:200-214 | an attachment at any depth is found, because the walk descends into every child |
| Imap.WalkAttachments | cmd/outlookcleaner/ops_ingest.go:200-214 | the recursive walk appends exactly the names of the attachment parts in pre-order |
| Imap.AddressText | cmd/outlookcleaner/ops_ingest.go:162 | Address(): the mailbox name, "@", then the host name |
| Imap.HasFlag | cmd/outlookcleaner/ops_ingest.go:173-185 | the lo.Find flag tests: some flag equals the wanted one (\Seen for the seen test, \Flagged or $Important for the flagged one) |
| Imap.IsFlaggedBy | cmd/outlookcleaner/ops_ingest.go:180-185 | the flagged test: some flag is \Flagged or $Important |
| MailIngest.MessageToRecord | cmd/outlookcleaner/ops_ingest.go:133-261 | sender from reply-to, sender or from in that order ("unknown" when all are empty); fields copied; subject filtered to printable runes; seen and flagged from the flags; receipt iff a subject word is a keyword; attachment names joined; everything else zero; no error |
| MailIngest.HasKeywordWord | cmd/outlookcleaner/ops_ingest.go:187-196 | the receipt test: some word of the subject, lower-cased, is one of the keywords |
| MailIngest.EmptyFilenameInvisible | cmd/outlookcleaner/ops_ingest.go:205-215 | an attachment whose only name is empty leaves the stored names empty although the message has an attachment |
| MailIngest.JoinedNamesEmpty | cmd/outlookcleaner/ops_ingest.go:215 | the joined names are empty iff there are no names or a single empty one |
| MailAccounts.Names | cmd/outlookcleaner/mail_account_manager.go:43-46 | the name list has one entry per mailbox, in order |
| MailAccounts.FirstMissing | cmd/outlookcleaner/mail_account_manager.go:50-59 | nothing is reported iff every wanted folder is present; otherwise the earliest missing folder is reported |
| MailAccounts.FirstMissingAt | cmd/outlookcleaner/mail_account_manager.go:50-59 | when folder k is the first missing one, it is the one reported |
| MailAccounts.AccountCheck | cmd/outlookcleaner/mail_account_manager.go:35-66 | an account connects iff dialing and listing succeed and every ingest and prune folder exists; otherwise the first failure is reported, in the order client, list, ingest folder, prune folder; a missing-folder error names the first configured folder the listing lacks |
| MailAccounts.ConnectAccount | cmd/outlookcleaner/mail_account_manager.go:35-66 | one turn of the account loop yields the account's check result |
| MailAccounts.NewMailAccountConnections | cmd/outlookcleaner/mail_account_manager.go:23-69 | no accounts is an error; success iff every account connects, with one connection per account in order; the first failing account's error is returned, later accounts are not tried, and the result is empty |
| FetchWindow.NewWindow | cmd/outlookcleaner/ingest.go:87-95 | the window ends at the message count and covers exactly the newest three messages, or all of them when there are fewer |
| FetchWindow.Covers | cmd/outlookcleaner/ingest.go:87-95 | a sequence number is in the window iff it lies between its two ends, both included, as AddRange(from, to) takes them |
| FetchWindow.EmptyMailboxWindow | cmd/outlookcleaner/ingest.go:87-95 | an empty mailbox yields 1:0, which covers nothing |
| FetchWindow.WindowHoldsThree | cmd/outlookcleaner/ingest.go:87-95 | with three or more messages only the last three sequence numbers are covered |
| FetchWindow.FetchNewMessages | cmd/outlookcleaner/ingest.go:79-141 | only the first folder is selected; a SELECT error is returned; otherwise the newest-messages window is fetched and the SEARCH error returned; the result is always empty |
| MailPrune.Bucket | cmd/outlookcleaner/ops_prune.go:67-113 | a bucket has at most one entry per message |
| MailPrune.Classify | cmd/outlookcleaner/ops_prune.go:67-113 | the classification loop fills each bucket with the sequence numbers of exactly its messages, in order |
| MailPrune.BucketStep | cmd/outlookcleaner/ops_prune.go:67-113 | taking one more message extends each bucket by that message's number exactly when it belongs there |
| MailPrune.BucketMembers | cmd/outlookcleaner/ops_prune.go:67-113 | a number is in a bucket iff some message with that number belongs to it |
| MailPrune.BucketIncreasing | cmd/outlookcleaner/ops_prune.go:67-113 | bucket entries keep the messages' increasing order |
| MailPrune.StaleIsEverything | cmd/outlookcleaner/ops_prune.go:112 | the stale bucket holds every message, flagged, receipt and attachment ones included |
| MailPrune.ConfirmationOnlyAtIngest | cmd/outlookcleaner/ops_prune.go:81-90 | a subject "Confirmation" makes a receipt at ingest but not at prune, whose keyword list lacks it |
| MailPrune.NonEmpty | cmd/outlookcleaner/ops_prune.go:126-139 | only buckets with something to move are kept |
| MailPrune.Plan | cmd/outlookcleaner/ops_prune.go:116-124 | the ops list: the flagged, attachment and receipt buckets, in that order, each with its folder; the stale bucket is left out, as its entry is commented out |
| MailPrune.Issued | cmd/outlookcleaner/ops_prune.go:126-139 | the moves the loop issues: empty ops are skipped, and the run stops after the first rejected move; every issued move has ids and is one of the ops |
| MailPrune.MoveFails | cmd/outlookcleaner/ops_prune.go:134-138 | the loop returns early: some op with ids has its move rejected |
| MailPrune.IssuedIsPrefix | cmd/outlookcleaner/ops_prune.go:126-139 | the moves issued are a prefix of the non-empty buckets in plan order |
| MailPrune.IssuedAcceptedBeforeLast | cmd/outlookcleaner/ops_prune.go:126-139 | every issued move but the last was accepted |
| MailPrune.FirstFailureEnds | cmd/outlookcleaner/ops_prune.go:126-139 | the run fails iff some non-empty bucket's move is rejected; then the last issued move is the rejected one; otherwise every non-empty bucket is moved |
| MailPrune.RunMoves | cmd/outlookcleaner/ops_prune.go:126-139 | the move loop issues exactly the planned moves up to the first rejection and reports whether one was rejected |
| MailPrune.CustomPrune | cmd/outlookcleaner/ops_prune.go:13-145 | the run stops at the first failure, in order: no connection (with the first failing account's error), the archive folder missing from the listing, SELECT failing, SEARCH failing; exactly when all four succeed the archive is classified into the four buckets and the planned moves are run |
| TimeSeries.PatternPoints | cmd/transaction-generation/main.go:57-79 | each point carries the pattern's amount; a recurring pattern yields one point per instant; a non-recurring one yields its own date |
| TimeSeries.PointCount | cmd/transaction-generation/main.go:41-50 | `points` for one pattern: the truncated quotient of the date span by the period for a recurring pattern, 1 otherwise |
| TimeSeries.FirstPassTotal | cmd/transaction-generation/main.go:39-52 | `totalPoints`: the sum of the patterns' counts, negative ones included |
| TimeSeries.Instants | cmd/transaction-generation/main.go:66-73 | the dates of a recurring pattern's points: the start, then one period later each time, one per counted period, none for a non-positive count |
| TimeSeries.Expected | cmd/transaction-generation/main.go:57-80 | the series the second pass builds: each pattern's points in pattern order |
| TimeSeries.CountPoints | cmd/transaction-generation/main.go:39-52 | the first pass panics iff some recurring pattern has period zero; otherwise it yields the first-pass total |
| TimeSeries.EmitPoints | cmd/transaction-generation/main.go:57-80 | the second pass appends exactly each pattern's points, in input order |
| TimeSeries.EmitRecurring | cmd/transaction-generation/main.go:66-73 | the inner loop appends exactly the points of one recurring pattern |
| TimeSeries.GenerateTimeSeriesPoints | cmd/transaction-generation/main.go:38-82 | as written: a zero period panics, a negative total panics in `make`, and otherwise the series is generated |
| TimeSeries.CountPointsClamped | cmd/transaction-generation/main.go:39-52 | the clamped first pass yields exactly the number of points generated |
| TimeSeries.GenerateTimeSeriesPointsClamped | cmd/transaction-generation/main.go:38-82 | with the clamped capacity only a zero period panics, and the series is always generated otherwise |
| TimeSeries.ExpectedConcat | cmd/transaction-generation/main.go:57-80 | the series of concatenated pattern lists is the concatenation of their series |
| TimeSeries.ClampedTotalIsLength | cmd/transaction-generation/main.go:39-54 | the clamped total is the exact length of the series |
| TimeSeries.FirstPassTotalIsLength | cmd/transaction-generation/main.go:39-54 | when no pattern's count is negative the first-pass total is the exact length of the series |
| TimeSeries.ForwardRangeCountsNonNegative | cmd/transaction-generation/main.go:45-47 | a forward range with a positive period has a non-negative count |
| TimeSeries.ReversedRangeHasNoPoints | cmd/transaction-generation/main.go:62-73 | a range that ends before it starts adds no points and a non-positive count |
| TimeSeries.RecurringInstantsInRange | cmd/transaction-generation/main.go:66-73 | instants start at the start date, lie before the end date and step by the period |
| TimeSeries.RecurringInstantsIncreasing | cmd/transaction-generation/main.go:66-73 | the instants strictly increase |
| TimeSeries.NegativeTotalExample | cmd/transaction-generation/main.go:39-54 | a pattern ending a day before it starts gives a total of -1, and generation panics |
| RangeExpand.DayCount | cmd/ct-prototype/transaction_utils.go:6-9 | the day count is never zero; a span from just under a day back to just under two days forward counts as one; a forward span counts its whole days; a span a day or more backwards gives a negative count |
| RangeExpand.NormalisedKind | cmd/ct-prototype/transaction_utils.go:15-20 | the kind is "income" iff the input is "income", and "expense" otherwise |
| RangeExpand.EntryOf | cmd/ct-prototype/transaction_utils.go:13-28 | entry i: the range's id, title and category, the date i days after the start, the normalised kind and the daily share of the amount; the other ids stay nil |
| RangeExpand.Expand | cmd/ct-prototype/transaction_utils.go:3-31 | one entry per day, none for a negative day count, each entry day i of the range with an equal share |
| RangeExpand.EntryDatesIncrease | cmd/ct-prototype/transaction_utils.go:14 | entries are a day apart, so their dates strictly increase |
| RangeExpand.EntriesWithinRange | cmd/ct-prototype/transaction_utils.go:6-14 | every entry starts within the range, and each whole day fits before the end |
| RangeExpand.ExpandKeepsTotal | cmd/ct-prototype/transaction_utils.go:10-28 | the shares of an expansion add up to the range's amount |
| RangeExpand.EqualSharesTotal | cmd/ct-prototype/transaction_utils.go:10-28 | n equal shares sum to n times the share |
| CharacterStore.Character.constructor | cmd/sqlx/main.go:22-26 | a character holds its id, actor id and name |
| CharacterStore.LikePattern | cmd/sqlx/main.go:195 | a LIKE pattern: the lower-cased text between two "%" |
| CharacterStore.Conditions | cmd/sqlx/main.go:188-208 | at most three filter conditions, and none without filters |
| CharacterStore.Wheres | cmd/sqlx/main.go:188-208 | one WHERE clause per condition, clause i belonging to condition i |
| CharacterStore.Args | cmd/sqlx/main.go:188-208 | one bind argument per condition, argument i belonging to condition i |
| CharacterStore.Joins | cmd/sqlx/main.go:193-204 | the JOIN clauses: the actors join for a name filter on the actor, the scenes join for a scene filter, in filter order |
| CharacterStore.QueryFor | cmd/sqlx/main.go:184-216 | the query text: the SELECT, then " " and the joins joined with " " when there are joins, then " WHERE " and the clauses joined with " AND " when there are clauses |
| CharacterStore.FilterClauses | cmd/sqlx/main.go:188-208 | the filter block appends exactly each condition's join, WHERE clause and argument |
| CharacterStore.ListQuery | cmd/sqlx/main.go:183-216 | the query and arguments are those of the filter conditions |
| CharacterStore.ClausesSnoc | cmd/sqlx/main.go:188-208 | appending a condition appends its join (if any), clause and argument |
| CharacterStore.NoFilterBareQuery | cmd/sqlx/main.go:188-216 | no condition iff no filters or all filters zero; then the query is the bare SELECT with no arguments |
| CharacterStore.ActorIdTakesPrecedence | cmd/sqlx/main.go:189-196 | an actor id makes the actor name irrelevant and adds no actors join |
| CharacterStore.JoinsFollowFilters | cmd/sqlx/main.go:192-206 | the actors join comes with an actor-name filter without an id, and the scenes join with a scene number |
| CharacterStore.JoinsConcat | cmd/sqlx/main.go:188-208 | the joins split over concatenation of conditions |
| CharacterStore.ArgumentsComeFromFilters | cmd/sqlx/main.go:191-206 | every argument is the actor id, a lower-cased `%...%` pattern of a filter string, or the scene number |
| CharacterStore.ArgsAt | cmd/sqlx/main.go:188-208 | argument i belongs to condition i |
| CharacterStore.ClausePlaceholders | cmd/sqlx/main.go:190-205 | each WHERE clause carries one `?` and each join none |
| CharacterStore.WheresPlaceholders | cmd/sqlx/main.go:188-215 | the WHERE clauses carry one `?` per condition |
| CharacterStore.JoinsPlaceholders | cmd/sqlx/main.go:188-211 | the joins carry no `?` |
| CharacterStore.PlaceholdersMatchArgs | cmd/sqlx/main.go:182-219 | the final query has exactly as many `?` placeholders as bind arguments |
| CharacterStore.JoinPartPlaceholders | cmd/sqlx/main.go:210-212 | the join part of the query carries no `?` |
| CharacterStore.WherePartPlaceholders | cmd/sqlx/main.go:214-216 | the WHERE part of the query carries one `?` per condition |
| CharacterStore.AffectedOutcome | cmd/sqlx/main.go:134-143 | zero rows affected is not-found, a failure is wrapped, anything else succeeds |
| CharacterStore.Insert | cmd/sqlx/main.go:107-126 | insert sets the id to the last scanned id, leaves the other fields, and reports query and scan errors |
| CharacterStore.ScanIds | cmd/sqlx/main.go:118-123 | the scan loop: fails iff some row fails to scan, reporting the first such failure wrapped; otherwise the id is the last row's, or unchanged without rows |
| CharacterStore.InsertOutcome | cmd/sqlx/main.go:107-126 | insert: a failed query keeps the id and reports the error wrapped as "insert character"; otherwise the rows are scanned |
| CharacterStore.Update | cmd/sqlx/main.go:128-144 | update reports not-found for zero rows and wraps errors |
| CharacterStore.Store | cmd/sqlx/main.go:99-105 | id zero inserts, any other id updates without touching the character |
| CharacterStore.Delete | cmd/sqlx/main.go:149-161 | delete reports not-found for zero rows and wraps errors |
| CharacterStore.List | cmd/sqlx/main.go:182-225 | the database is asked the filter query with its arguments; its rows or its wrapped error are returned |
| CharacterStore.InsertSetsReturnedId | cmd/sqlx/main.go:118-125 | a single returned id becomes the character's id |
| CharacterStore.ScanKeepsLastId | cmd/sqlx/main.go:118-123 | scanning several rows keeps the last id, and no rows keeps the old one |
| Stringer.Reversed | cmd/cobra-cli/main.go:15-20 | the reversal has the same length, and rune i is rune n-1-i of the input |
| Stringer.Reverse | cmd/cobra-cli/main.go:15-20 | the prepend loop yields the reversal |
| Stringer.ReversedTwice | cmd/cobra-cli/main.go:15-20 | reversing twice gives back the input |
| Stringer.ReversedConcat | cmd/cobra-cli/main.go:15-20 | the reversal of a concatenation is the concatenation of the reversals, swapped |
| Stringer.ReversedKeepsBytes | cmd/cobra-cli/main.go:15-20 | reversal keeps the byte length |
| Stringer.ReverseExamples | cmd/outlookcleaner/mailbox_test.go:13-15 | the test pairs reverse as listed, multi-byte runes included |
| Stringer.DigitCount | cmd/cobra-cli/main.go:29-37 | the digit count is at most the rune count |
| Stringer.AtoiAccepts | cmd/cobra-cli/main.go:30-31 | strconv.Atoi of a single rune succeeds iff the rune is '0' to '9' |
| Stringer.InspectNumbers | cmd/cobra-cli/main.go:29-37 | the loop counts exactly the runes that parse as a number |
| Stringer.Inspect | cmd/cobra-cli/main.go:22-27 | without digits the byte length and "char"; with digits the digit count and "digit" |
| Stringer.DigitsWithinChars | cmd/cobra-cli/main.go:22-37 | digits never outnumber runes, and runes never outnumber bytes |
| Stringer.AllDigitsIff | cmd/cobra-cli/main.go:29-37 | every rune is counted iff every rune is a digit |
| Stringer.AllDigitsCountsAgree | cmd/cobra-cli/main.go:22-37 | on an all-digit input both counts agree |
| Stringer.DigitCountConcat | cmd/cobra-cli/main.go:29-37 | digit counts add up over concatenation |
| Stringer.InspectExample | cmd/cobra-cli/main.go:101 | "A1B2C3" has three digits among six bytes |
| Stringer.PluralSuffix | cmd/cobra-cli/main.go:113-117 | the suffix is empty iff the count is one, and "s" otherwise |
| SpecterForms.Session.constructor | cmd/htmx-specter/main.go:686 | a session holds its values |
| SpecterForms.GetLogin | cmd/htmx-specter/main.go:693-701 | the login is non-empty iff the session holds a non-empty string under "login", and then it is that string |
| SpecterForms.IsSignIn | cmd/htmx-specter/main.go:685-691 | isSignIn: signed in iff "authenticated" holds the boolean true; a missing key or a value of another type reads as signed out |
| SpecterForms.SignedInValues | cmd/htmx-specter/main.go:176-177 | the session after sign-in or sign-up: signed in, the login stored, every other value kept |
| SpecterForms.SignedOutValues | cmd/htmx-specter/main.go:226 | the session after sign-out: not signed in, every other value, the login included, kept |
| SpecterForms.SignInIsRemembered | cmd/htmx-specter/main.go:176-178 | after sign-in the session is signed in under that login |
| SpecterForms.SignOutKeepsLogin | cmd/htmx-specter/main.go:223-227 | after sign-out the session is not signed in, but the login stays |
| SpecterForms.SignOut | cmd/htmx-specter/main.go:223-237 | sign-out sets "authenticated" to false and keeps the other values |
| SpecterForms.RedirectFor | cmd/htmx-specter/main.go:180-184 | an htmx request gets an HX-Redirect, any other request a 302, both to the given place |
| SpecterForms.SignInErrors | cmd/htmx-specter/main.go:131-148 | the errors report per field what is wrong; an empty password is reported as too short |
| SpecterForms.SignInReportEmptyIff | cmd/htmx-specter/main.go:131-148 | there are no errors iff the login is non-empty and the password has at least six bytes |
| SpecterForms.PasswordLengthInBytes | cmd/htmx-specter/main.go:131 | the length check counts bytes: three two-byte runes pass, five ASCII ones do not |
| SpecterForms.SignIn | cmd/htmx-specter/main.go:100-221 | GET renders; bad input renders the errors; an unknown login renders not-found; a lookup or bcrypt error is a 500; a match signs in and redirects to /jokes |
| SpecterForms.SignUpErrors | cmd/htmx-specter/main.go:269-290 | the errors report per field what is wrong, a password mismatch included |
| SpecterForms.SignUpReportEmptyIff | cmd/htmx-specter/main.go:269-290 | no errors iff login non-empty, passwords equal, and at least six bytes |
| SpecterForms.SignUpStricter | cmd/htmx-specter/main.go:131-290 | what sign-up accepts, sign-in accepts |
| SpecterForms.SignUp | cmd/htmx-specter/main.go:239-348 | a user is created and signed in iff a POST passes validation; an htmx non-GET request with no errors is redirected to /jokes, otherwise the form is rendered |
| SpecterForms.JokePost | cmd/htmx-specter/main.go:401-490 | a joke is created, with the newJoke trigger, iff name and content are non-empty; the errors say which is missing |
| SpecterForms.JokeReportEmptyIff | cmd/htmx-specter/main.go:421-432 | no errors iff name and content are both non-empty |
| SpecterForms.AuthMiddleware | cmd/htmx-specter/main.go:669-683 | as written: the handler runs when signed in or when the request is not htmx; a signed-out request gets a redirect to /signout |
| SpecterForms.AuthMiddlewareIntended | cmd/htmx-specter/main.go:64-69 | the handler runs iff the session is signed in; otherwise a redirect to /signout |
| SpecterForms.UnauthenticatedRequestReachesHandler | cmd/htmx-specter/main.go:672-681 | an empty session on a plain request reaches the handler as written, but not as intended |
| SpecterForms.MiddlewaresAgree | cmd/htmx-specter/main.go:669-683 | both agree on signed-in and on htmx requests |
| SpecterForms.SignedOutIsLockedOut | cmd/htmx-specter/main.go:223-227 | after sign-out the intended middleware never runs the handler |
| WithAuth.FindCookie | cmd/withauth/auth.go:21 | no cookie is found iff none has the name; otherwise the first one with that name |
| WithAuth.Csrf | cmd/withauth/auth.go:15-30 | the handler runs iff a POST's form token equals its first csrf-token cookie; non-POST gets 405 with Allow POST; otherwise 400 |
| WithAuth.EmptyTokenMatchesEmptyCookie | cmd/withauth/auth.go:21-26 | an empty form token passes against an empty cookie |
| WithAuth.FirstCookieDecides | cmd/withauth/auth.go:21-26 | only the first csrf-token cookie counts |
| WithAuth.HexDigit | cmd/withauth/auth.go:58 | each nibble maps to a lower-case hex digit |
| WithAuth.HexValue | cmd/withauth/auth.go:58 | a hex digit's value is below sixteen and maps back to that digit |
| WithAuth.HexEncode | cmd/withauth/auth.go:58 | two lower-case hex digits per byte |
| WithAuth.HexDecode | cmd/withauth/auth.go:58 | decoding halves the length |
| WithAuth.HexRoundTrip | cmd/withauth/auth.go:58 | decoding the encoding gives back the bytes |
| WithAuth.HexEncodeInjective | cmd/withauth/auth.go:58 | distinct byte strings give distinct tokens |
| WithAuth.RandomBytes | cmd/withauth/auth.go:53-57 | n bytes, byte i from the random stream |
| WithAuth.GenerateCsrfToken | cmd/withauth/auth.go:69-76 | 32 lower-case hex digits encoding 16 random bytes |
| WithAuth.GenerateSignInToken | cmd/withauth/auth.go:52-59 | 64 lower-case hex digits encoding 32 random bytes |
| WithAuth.ResponseWriter.constructor | cmd/withauth/auth.go:34 | a fresh response has set no cookie |
| WithAuth.CsrfCookie | cmd/withauth/auth.go:40-48 | the issued cookie is named csrf-token and carries the token |
| WithAuth.GetCsrfToken | cmd/withauth/auth.go:34-50 | a non-empty csrf-token cookie is reused and nothing is set; otherwise a new token is generated and set as that cookie |
| WithAuth.HandedOutTokenPasses | cmd/withauth/auth.go:15-50 | a POST whose form token equals the value of its first "csrf-token" cookie passes, whatever that cookie's other attributes and whatever cookies follow; this covers a fresh token and one reused from a cookie read back by r.Cookie |
| WithAuth.ForgedTokenRefused | cmd/withauth/auth.go:15-30 | a POST whose form token differs from its first "csrf-token" cookie's value gets 400, whatever else the request carries |
| WithAuth.GetSignInCookie | cmd/withauth/auth.go:61-67 | the sign-in cookie's value, or empty without one |

## Left out

- Credential decryption (AES, base64) and configuration loading through viper are not modelled; the account list arrives decrypted as a parameter.
- bcrypt hashing and comparison are an oracle parameter; GORM and SQL persistence are records of functions.
- The IMAP plumbing is not modelled: TLS dialing, login, logout via `defer`, the goroutine and the 50-slot channel of the folder listing. Only their results matter here, so they are answers of the server record.
- `fetchMessages`, message parsing, `CustomPrune1`, `CustomPrune2` and the bulk delete are outside the core.
- Duplicate helper definitions elsewhere in the outlook cleaner are outside the core.
- A nil message, envelope or body structure is not modelled; the model always has them.
- MIME header decoding, and the text printed by `fmt` and `log`, including the inspect command's output line, are left out: output only.
- MailPrune.RunMoves: sequence numbers are taken as stable across the MOVE commands. On a real server each MOVE expunges its messages and renumbers the folder (section 3.3 of RFC 6851). So the later MOVEs, which reuse the numbers gathered before the first, can hit other messages. The model abstracts the server's answer as `accepts: MoveOp -> bool` and states which commands are issued, not which messages they reach.
- FetchWindow.FetchNewMessages: go-imap's reading of a stop of 0 as "*" is not modelled. The empty window 1:0 is treated as covering nothing. The fetch itself only logs its error.
- Calendar arithmetic is not modelled: time zones, daylight saving and `AddDate` are treated as whole hours and whole 24-hour days.
- The int64 overflow of `time.Duration` is not modelled: durations are unbounded integers.
- RangeExpand.Expand: the amount is a Dafny `real`, not a float64, so rounding of the per-day share is not modelled; `Hours() / 24` is taken as whole-hour integer division truncated toward zero.
- Invalid UTF-8 in a Go string (which `range` turns into U+FFFD) is not modelled; strings are sequences of valid runes.
- The gorm.Model bookkeeping fields of the message record are not modelled.
- RangeExpand.Expand: the expanded entries carry no CreatedAt and UpdatedAt fields; Expand never sets them, so in Go they keep the zero time, and the model has no clock to give them a value.
- The `?` bindvars of the sqlx List query are kept as written; whether the postgres driver accepts them is outside the model.
- `CharacterStore.Get` and the program's `main` are outside the core. A `RowsAffected` error, ignored by the source, is read as zero rows.
- The panic branches after `rand.Read` in the token generators are unreachable with the `math/rand` source and are not modelled.
- `FormValue` also reads URL query parameters; the model receives the form values directly.
- Template parsing and rendering, and their errors, are not modelled; a response is the data handed to the template.
- SpecterForms.SignUp: the GET and PUT render paths are reduced to "rendered with the errors", not the template chosen.
- The joke listing, viewing, random, new and delete handlers, and all web server set-up, are outside the core.

## Findings

| source | as written | input that shows it | evidently intended | confidence | as-written member | corrected member |
|---|---|---|---|---|---|---|
| cmd/transaction-generation/main.go:39-54 | the first pass adds each recurring pattern's truncated period count, negative for a range whose end precedes its start, and hands the total to `make` as a capacity; a negative capacity panics | one recurring pattern with start 2020-01-02, end 2020-01-01 and a 24-hour period: the total is -1 | the capacity counts the points the second pass emits, which is never negative | not executed | TimeSeries.GenerateTimeSeriesPoints, TimeSeries.NegativeTotalExample | TimeSeries.GenerateTimeSeriesPointsClamped, TimeSeries.CountPointsClamped, TimeSeries.ClampedTotalIsLength |
| cmd/htmx-specter/main.go:669-683 | a signed-out request without the HX-Request header gets the 302 to /signout, but there is no `return` after it, so the protected handler still runs | a POST to /jokes with no session cookie and no HX-Request header | the routes marked as needing authentication run only for a signed-in session | not executed | SpecterForms.AuthMiddleware, SpecterForms.UnauthenticatedRequestReachesHandler | SpecterForms.AuthMiddlewareIntended, SpecterForms.SignedOutIsLockedOut |
