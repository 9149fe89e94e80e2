# tgm: a verified model of the multi-account Telegram sender

tgm sends one text to many Telegram contacts from several accounts. The
desktop sender (`attached_assets/novint.py`) works in five steps:

- It checks a per-account delay ("throttle") before every send.
- It deals the selected contacts round-robin to the accounts that have a
  session, in "waves".
- It dispatches every wave in account order, with one retry on a
  flood-wait error.
- It records every attempt in `sent_messages`, and it advances the
  account's last-sent stamp only on success.
- It keeps its Telegram clients in a registry keyed by account id.

Recipient identifiers are either a `@username` or a phone number. The
phone number is cleaned to `+digits`. Contacts come from a bulk-paste
dialog, TXT files or CSV files.

The web variant has three parts modelled here:

- A Flask backend. The model covers the in-memory store of
  `backend/models.py`, the helpers of `backend/utils.py`, the request
  validator of `backend/auth.py` and the decisions inside the
  `backend/routes.py` handlers.
- A React contact-import box.
- A React mass-sending form.

The model is plain Dafny, one module per source component:

| file | module | models |
|---|---|---|
| `throttle.dfy` | `Throttle` | `check_account_delay` |
| `planner.dfy` | `WavePlanner` | contact sorting, the round-robin queues, `max_waves` and the wave order of `send_messages` |
| `dispatch.dfy` | `Dispatch` | the wave/account send loop, flood retry, `record_sent_message`, `update_account_timestamp`, `save_message` |
| `registry.dfy` | `Registry` | `TelegramClientManager`, `TelegramAccountClient` construction and recipient normalisation |
| `contact_import.dfy` | `ContactImport` | `add_bulk_contacts` and `import_contacts` (TXT and CSV) |
| `utils.dfy` | `Utils` | `validate_phone`, `validate_email`, `split_message_by_length`, `escape_html`, `parse_html_entities` |
| `models.dfy` | `Models` | the store of `backend/models.py` as a class over sequences |
| `auth.dfy` | `Auth` | the field loop of `validate_user_input` |
| `routes.dfy` | `Routes` | `register`, `login`, `add_telegram_account`, local auto-reply, CORS preflight, `serve_react` |
| `contact_list.dfy` | `ContactList` | the text parser of `handleImportContacts` |
| `mass_sending.dfy` | `MassSending` | toggle, select-all and the submit check |
| `text.dfy`, `sorting.dfy`, `wrappers.dfy` | `Text`, `Sorting`, `Wrappers` | Python string built-ins (`strip`, `split`, `lower`, `in`, `replace`), a stable insertion sort standing for `sorted`, and `Option`/`Result` |

### Time, outside calls and state

- **Time.** All time is integer. The dispatcher's clock counts
  milliseconds. Stored stamps count whole seconds, `clock / 1000`, which is
  the truncation `strftime` performs. The throttle wait is the integer
  ceiling of the remaining milliseconds divided by 1000.
- **Telegram.** The send primitive is an oracle `nat -> Attempt`.
  Attempt `k` of a campaign gets the answer `send(k)`: delivered or an
  error text, plus its duration.
- **Other outside calls.** These are parameters:
  - the database insert in the contact imports (`insertOk`);
  - the password-hash check in `login`;
  - the file test in `serve_react`;
  - "now" and "today" in the store.
- **Stateful code.** Where the source updates objects in place, the
  model is a class with `modifies` clauses:
  - `Dispatch.SenderDb` for the four tables the dispatcher uses;
  - `Registry.ClientManager`;
  - `Models.Store`.

  Each method is proved against a specification function over values,
  and the properties are lemmas about that function.
- **Dicts.** A Python dict kept in insertion order, keyed 1..n, is a
  sequence whose index `i` holds id `i + 1`.
- **Code and specification differ.** The code is followed.
  `ContactList.js` has an error branch for "no contacts" after a non-empty
  input. The model proves it is unreachable (`ContactList.NoContactsUnreachable`):
  - every non-blank line is either accepted or aborts the import;
  - Python/JS `split` always yields a piece;
  - so a non-empty trimmed text always has a non-blank line.

## Model

| member | source | states |
|---|---|---|
| Throttle.CeilSeconds | attached_assets/novint.py:516-525 | the wait in whole seconds is the least r with ms <= r * 1000, so it rounds a positive remainder up |
| Throttle.CheckAccountDelay | attached_assets/novint.py:479-534 | unknown account gives (False, 0); a read error, a missing or unparsable stamp gives (True, 0) (fail-open); otherwise elapsed < delay gives (False, r) with r >= 1 the ceiling of the remainder, and elapsed >= delay gives (True, 0) |
| Throttle.WaitSuffices | attached_assets/novint.py:516-525 | waiting out the returned seconds always reaches the point where the check passes, and elapsed + wait covers the delay |
| Throttle.PermitsLater | attached_assets/novint.py:516-525 | once the delay has passed it stays passed at every later time |
| Throttle.ExampleSevenSeconds | attached_assets/novint.py:516-525 | a delay of 10 s and 3 s elapsed asks for 7 s more |
| Throttle.ExampleRoundsUp | attached_assets/novint.py:516-525 | 7.5 s elapsed of a 10 s delay asks for 3 s (2.5 rounded up) |
| WavePlanner.SortContacts | attached_assets/novint.py:1959-1960 | the contacts sorted by id, a permutation of the selection |
| WavePlanner.RoundRobin | attached_assets/novint.py:1956-1974 | one queue per available account |
| WavePlanner.PlanWaves | attached_assets/novint.py:1952-1974 | the while-loop planner builds exactly the round-robin queues of the id-sorted contacts |
| WavePlanner.DealRound | attached_assets/novint.py:1965-1974 | one pass over the accounts appends the next contact to each queue in turn |
| WavePlanner.RoundRobinHome | attached_assets/novint.py:1965-1974 | the k-th sorted contact sits in queue k mod M at position k div M |
| WavePlanner.RoundRobinOrigin | attached_assets/novint.py:1965-1974 | every queue entry is some sorted contact, entry t of queue j being contact j + t*M |
| WavePlanner.RoundRobinPartition | attached_assets/novint.py:1965-1974 | so every contact lands in exactly one queue, once |
| WavePlanner.RoundRobinBalanced | attached_assets/novint.py:1965-1974 | queue lengths never grow along the account order and differ by at most one |
| WavePlanner.RoundRobinFirstLength | attached_assets/novint.py:1965-1974 | the first queue holds ceil(n / M) contacts |
| WavePlanner.ExampleFiveTwo | attached_assets/novint.py:1965-1974 | five contacts over two accounts give [c1,c3,c5] and [c2,c4] |
| WavePlanner.DealAt | attached_assets/novint.py:1965-1974 | queue j has an entry t iff j + t*M is a contact index, and that entry is that contact |
| WavePlanner.DealSnoc | attached_assets/novint.py:1965-1974 | one more contact extends only the queue of its turn |
| WavePlanner.MaxWaves | attached_assets/novint.py:1981 | an upper bound on every queue length that some queue reaches, and 0 without queues |
| WavePlanner.MaxWavesOfPlan | attached_assets/novint.py:1981 | for the plan, the wave count is the first queue's length, ceil(n / M) |
| WavePlanner.PlanCovers | attached_assets/novint.py:1981 | the waves times the accounts cover every contact |
| WavePlanner.WavesPrefix | attached_assets/novint.py:1985-1996 | the first w waves, each in account order, are the first w*M sorted contacts, contact k from account k mod M |
| WavePlanner.AllWaves | attached_assets/novint.py:1981-1996 | all max_waves waves together send every sorted contact once, in sorted order, contact k from account k mod M |
| WavePlanner.PlanInSortedOrder | attached_assets/novint.py:1952-1996 | the same for the planner's own queues from the unsorted selection |
| WavePlanner.ExampleWaves | attached_assets/novint.py:1985-1996 | the five-contact example runs c1..c5 alternating the two accounts |
| Dispatch.StampRead | attached_assets/novint.py:383-402 | get_account_last_sent: a row exactly for an account with a stamp, and it is that stamp |
| Dispatch.FirstDigit | attached_assets/novint.py:2051-2054 | the position of the first digit, with none before it |
| Dispatch.DigitRun | attached_assets/novint.py:2051-2054 | the length of the maximal digit run at the start |
| Dispatch.FirstNumber | attached_assets/novint.py:2051-2054 | re.search for a digit run: none iff the text has no digit, otherwise the value of the first maximal run |
| Dispatch.Succeed | attached_assets/novint.py:2029-2038 | a success appends one 'sent' row stamped now and moves only that account's stamp to now |
| Dispatch.Fail | attached_assets/novint.py:2079-2083 | a failure appends one 'failed' row and leaves every stamp alone |
| Dispatch.Ready | attached_assets/novint.py:2008-2022 | the time after the throttle sleep is never before the clock and never before stamp + delay |
| Dispatch.Resolve | attached_assets/novint.py:2008-2083 | one or two attempts per job; only a success after the flood retry is left out of total_sent; a delivery is never before stamp + delay |
| Dispatch.AfterError | attached_assets/novint.py:2045-2083 | the error branch makes at most one more attempt, and a delivery needs that retry |
| Dispatch.IsFlood | attached_assets/novint.py:2045 | the flood test, "flood" and "wait" in the lowered error text; its effect is stated by Dispatch.FloodRetry and Dispatch.NoRetry |
| Dispatch.FirstDelivered | attached_assets/novint.py:2029-2038 | a delivered first attempt ends the job, counted, when the send returns |
| Dispatch.FirstFailed | attached_assets/novint.py:2040-2045 | a failed first attempt goes to the error branch at the time it returned |
| Dispatch.FloodRetry | attached_assets/novint.py:2045-2076 | a flood-wait error with a number n retries exactly once after min(n, 120) s; the retry's answer decides, and a delivered retry is not counted in total_sent |
| Dispatch.NoRetry | attached_assets/novint.py:2045-2083 | any other error, or a flood error without digits, fails the job at once with no retry |
| Dispatch.Attend | attached_assets/novint.py:2008-2086 | one job writes exactly one row for its account and contact: the stamp moves iff the row is 'sent', a 'sent' row respects the delay since the old stamp, and the counters follow the row |
| Dispatch.StepResolves | attached_assets/novint.py:1992-1994 | a job whose account has a row is attended; one without is skipped with no row and no counter change |
| Dispatch.Step | attached_assets/novint.py:1992-2083 | one job of the wave loop; Dispatch.StepResolves and Dispatch.StepEffect state that it attends a known account and skips an unknown one |
| Dispatch.RunSnoc | attached_assets/novint.py:1985-2086 | a run over the jobs plus one is the run then that job |
| Dispatch.RunJobs | attached_assets/novint.py:1985-2086 | the jobs of the wave loop, one Step after another; Dispatch.RunSnoc, RunAppend, RunRecords, RunCounts, RunStamps and RunSpaced state what a run writes |
| Dispatch.RunAppend | attached_assets/novint.py:1985-2086 | a run over two job lists is the first run followed by the second |
| Dispatch.Pairs | attached_assets/novint.py:404-430 | the (account, contact) of each row, in order |
| Dispatch.Expected | attached_assets/novint.py:1992-1994 | the (account, contact) of the jobs whose account exists, never more than the jobs |
| Dispatch.CountSent | attached_assets/novint.py:2029-2038 | the number of 'sent' rows, at most all rows |
| Dispatch.StepEffect | attached_assets/novint.py:1985-2086 | each step has the effect of Attend, or changes nothing for an unknown account |
| Dispatch.LastStep | attached_assets/novint.py:1985-2086 | the last step of a run has that effect |
| Dispatch.AddedStep | attached_assets/novint.py:404-430 | rows are only ever appended, one per attended job |
| Dispatch.RunRecords | attached_assets/novint.py:1985-2086 | a run keeps the old rows, adds exactly one row per job with a known account, in job order, all for the campaign's message, and never moves the clock back |
| Dispatch.RunCounts | attached_assets/novint.py:2029-2086 | success_count counts the new 'sent' rows, fail_count the others, and total_sent grows by at most the rows added |
| Dispatch.CountsBounded | attached_assets/novint.py:2029-2086 | successes plus failures never exceed the number of jobs |
| Dispatch.RunStamps | attached_assets/novint.py:420-424 | after a run an account's stamp is the time of its last new 'sent' row, or, without one, what it was before |
| Dispatch.RunTimes | attached_assets/novint.py:2008-2086 | rows are written in time order and never after the clock |
| Dispatch.TimesStep | attached_assets/novint.py:2008-2086 | a row written at the current time keeps the rows time-ordered |
| Dispatch.LastSentAtBounds | attached_assets/novint.py:420-424 | in time-ordered rows the last 'sent' time of an account bounds each of its 'sent' rows |
| Dispatch.RunSpaced | attached_assets/novint.py:2008-2038 | any two new 'sent' rows of one account are at least its delay apart |
| Dispatch.SpacedStep | attached_assets/novint.py:2008-2038 | appending a 'sent' row that respects the delay since every earlier one keeps the rows spaced |
| Dispatch.SenderDb.constructor | attached_assets/novint.py:57-120 | empty stamp, message and row tables over the given account delays |
| Dispatch.SenderDb.SaveMessage | attached_assets/novint.py:312-328 | the text is appended and its id is its row number, nothing else changes |
| Dispatch.SenderDb.UpdateAccountTimestamp | attached_assets/novint.py:349-381 | the account's stamp is set or created as now, nothing else changes |
| Dispatch.SenderDb.RecordSentMessage | attached_assets/novint.py:404-430 | one row appended; the stamp moves to now iff the status is 'sent' |
| Dispatch.SenderDb.SendOne | attached_assets/novint.py:2008-2038 | the inner-loop body for one job has the state change Apply(Resolve(...)) states |
| Dispatch.SenderDb.SendFailed | attached_assets/novint.py:2040-2083 | the error branch for one job has the state change AfterError states |
| Dispatch.DispatchWave | attached_assets/novint.py:1988-2083 | one wave equals the run of its row of jobs, each account with an entry at that index in account order |
| Dispatch.DispatchWaves | attached_assets/novint.py:1985-2086 | waves 0 .. max_waves - 1 in order equal the run of all wave rows |
| Dispatch.SendMessages | attached_assets/novint.py:1873-2086 | it succeeds iff the stripped text, the selection and the available accounts are all non-empty; an empty text, an empty selection or no available account aborts with that error and no write; otherwise the stripped text is saved once, and the stamps, rows and counters are those of running the sorted contacts in order, contact k from available account k mod M |
| Registry.NewClient | attached_assets/novint.py:616-627 | a new client is disconnected and unauthorised, keeps the account's id and session, and its delay defaults to 1200 |
| Registry.Without | attached_assets/novint.py:869-881 | removing an id from the key order keeps every other id, and distinct ids stay distinct |
| Registry.Available | attached_assets/novint.py:934-945 | exactly the ids of clients with a non-empty session string, in insertion order, without repeats |
| Registry.AvailableSnoc | attached_assets/novint.py:934-945 | a newly added id is available at the end iff its session is non-empty |
| Registry.ClientManager.constructor | attached_assets/novint.py:848-858 | an empty registry |
| Registry.ClientManager.AddAccount | attached_assets/novint.py:864-867 | installs or replaces the client for the id; a new id goes last in the order, a known one keeps its place |
| Registry.ClientManager.RemoveAccount | attached_assets/novint.py:869-881 | removes only that id, from the map and the order; an absent id changes nothing; a failing disconnect still removes |
| Registry.ClientManager.GetClient | attached_assets/novint.py:883-887 | None exactly for an absent id, otherwise that id's client |
| Registry.ClientManager.AvailableClients | attached_assets/novint.py:934-945 | the available ids in insertion order: each has a session string, none is missing or repeated |
| Registry.ClientManager.UpdateClientDelay | attached_assets/novint.py:947-951 | only an existing client's delay changes; an absent id changes nothing |
| Registry.StripAts | attached_assets/novint.py:691-695 | lstrip('@'): drops exactly the leading '@' characters |
| Registry.KeepPhoneChars | attached_assets/novint.py:718-720 | keeps only '+' and digits, and leaves a clean number unchanged |
| Registry.KeepPhoneCharsConcat | attached_assets/novint.py:718 | the filter works per character: filtering a concatenation is concatenating the filtered parts, so kept '+' signs and digits stay in place |
| Registry.KeepPhoneCharsCounts | attached_assets/novint.py:718 | every digit and every '+' is kept exactly as often as it occurs, and no other character is |
| Registry.DigitsOfKept | attached_assets/novint.py:718-720 | cleaning keeps every digit of the identifier, in order |
| Registry.Classify | attached_assets/novint.py:691-720 | a leading '@' means a username with at most the identifier's length; anything else is the phone number KeepPhoneChars gives, every '+' and digit kept in place, with one '+' put in front only when it does not already start with '+' |
| Registry.PhoneKeepsDigits | attached_assets/novint.py:718-720 | the cleaned phone number has exactly the identifier's digits |
| Registry.PhoneIdempotent | attached_assets/novint.py:718-720 | normalising an already normalised number changes nothing |
| Registry.UsernameRoundTrip | attached_assets/novint.py:691-695 | "@" + name classifies back to that name |
| Registry.PrepareSend | attached_assets/novint.py:685-720 | a disconnected or unauthorised client fails with no send; otherwise the target is the classified identifier |
| ContactImport.FirstSpace | attached_assets/novint.py:1468 | the first whitespace position, none before it |
| ContactImport.BulkFieldsWord | attached_assets/novint.py:1468-1479 | a bulk line without a space is the contact, named by itself or, for @username, without the '@' |
| ContactImport.BulkFields | attached_assets/novint.py:1466-1479 | one stripped bulk line split at its first space into contact and name; ContactImport.BulkFieldsWord and ContactImport.BulkFieldsSplit state both cases |
| ContactImport.BulkFieldsSplit | attached_assets/novint.py:1468-1473 | a bulk line with a space splits at the first one into contact and stripped name |
| ContactImport.PairParts | attached_assets/novint.py:1468-1473 | both halves of a stripped line split at a space are non-empty after stripping |
| ContactImport.TrimStripped | attached_assets/novint.py:1463 | stripping a stripped line changes nothing |
| ContactImport.Inserted | attached_assets/novint.py:1481-1486 | the entries whose insert succeeded, never more than were tried |
| ContactImport.BulkEntriesCount | attached_assets/novint.py:1462-1466 | one entry per non-blank line |
| ContactImport.AddBulkContacts | attached_assets/novint.py:1450-1494 | an empty list is refused; otherwise every non-blank line is tried once, successful + failed is the number of non-blank lines, and the added contacts are the successful entries in order |
| ContactImport.AddLines | attached_assets/novint.py:1462-1486 | the loop over the lines tries each parsed line once, in order: the successful inserts are added, and successful + failed is the number of parsed lines |
| ContactImport.InsertedAll | attached_assets/novint.py:1481-1486 | when every insert succeeds all entries are added |
| ContactImport.AddRow | attached_assets/novint.py:1539-1592 | in a file import a failed insert aborts and keeps what was added; after an abort nothing changes |
| ContactImport.TxtFieldsShape | attached_assets/novint.py:1569-1586 | a TXT line splits at its first whitespace into a non-empty contact and a name; a one-word line is the contact, named after its user name without '@' or "Контакт N" numbered by the contacts so far |
| ContactImport.TxtFields | attached_assets/novint.py:1569-1583 | one stripped TXT line split at its first whitespace; ContactImport.TxtFieldsShape states the contact and name it gives |
| ContactImport.ImportTxt | attached_assets/novint.py:1566-1586 | the TXT loop equals the fold of its lines |
| ContactImport.Fold | attached_assets/novint.py:1539-1592 | the import of a file's lines in order, stopping at the first failed insert; ContactImport.FoldAborted and ContactImport.TxtRunComplete state its results |
| ContactImport.TxtRun | attached_assets/novint.py:1566-1586 | the TXT branch as a fold of the file's lines; ContactImport.ImportTxt is proved equal to it and ContactImport.TxtRunComplete states its result |
| ContactImport.FoldAborted | attached_assets/novint.py:1539-1592 | nothing after the first failed insert is imported |
| ContactImport.TxtRunComplete | attached_assets/novint.py:1566-1586 | without an abort every non-blank TXT line is imported, and never more |
| ContactImport.ImportCsv | attached_assets/novint.py:1556-1565 | the CSV loop equals the fold of its rows |
| ContactImport.CsvRun | attached_assets/novint.py:1556-1565 | the CSV branch: header skipped, rows with two or more fields inserted; ContactImport.CsvRunAborted and ContactImport.CsvRunComplete state its results |
| ContactImport.CsvRunAborted | attached_assets/novint.py:1556-1565 | nothing after the first failed CSV insert is imported |
| ContactImport.CsvRunComplete | attached_assets/novint.py:1556-1565 | without an abort every row after the header with at least two fields is imported, and never more |
| Utils.ValidatePhoneMatches | backend/utils.py:6-10 | validate_phone is true exactly for '+' and 10 to 15 ASCII digits, optionally followed by one final newline |
| Utils.ValidatePhone | backend/utils.py:6-10 | validate_phone; Utils.ValidatePhoneMatches proves it equal to the independent PhoneForm |
| Utils.AddressSplits | backend/utils.py:12-15 | an address built from its parts splits back at its first '@' and first '.' |
| Utils.EmailFormValid | backend/utils.py:12-15 | every well-formed local@domain.tld, with or without one final newline, validates |
| Utils.ValidateEmailMatches | backend/utils.py:12-15 | validate_email is true exactly for the regular-expression form |
| Utils.ValidateEmail | backend/utils.py:12-15 | validate_email; Utils.ValidateEmailMatches proves it equal to the independent EmailForm, and Utils.EmailFormValid that every well-formed address passes |
| Utils.SplitMessageByLength | backend/utils.py:48-57 | a short message is one part; otherwise the parts are the max_length slices, no parts for a negative length, an error for a zero step |
| Utils.ChunksConcat | backend/utils.py:53-57 | the parts concatenate back to the message |
| Utils.ChunksSizes | backend/utils.py:53-57 | every part is non-empty and at most max_length, all but the last exactly max_length |
| Utils.ChunksCount | backend/utils.py:53-57 | the number of parts is ceil(len / max_length) |
| Utils.SplitParts | backend/utils.py:48-57 | a long message gives at least two parts, with all of the above |
| Utils.ReplaceAllSnoc | backend/utils.py:69-70 | the replacement loop applies the table entries one after another |
| Utils.ReplaceEach | backend/utils.py:69-70 | the loop over the table equals the sequential replacement |
| Utils.EscapeHtml | backend/utils.py:74-87 | escape_html replaces '<', '>', '&', '"', "'" in that order |
| Utils.ParseHtmlEntities | backend/utils.py:59-72 | parse_html_entities replaces the five entities in dict order |
| Utils.EscapeSteps | backend/utils.py:76-85 | escape_html is the five replace calls in dict order |
| Utils.EntitySteps | backend/utils.py:61-70 | parse_html_entities is the five replace calls in dict order |
| Utils.EscapeRemovesSpecials | backend/utils.py:74-87 | escaped text contains no '<', '>', '"' or "'" |
| Utils.EscapePlainUnchanged | backend/utils.py:74-87 | text without any of the five specials is returned unchanged |
| Utils.EntityPlainUnchanged | backend/utils.py:59-72 | text without '&' is returned unchanged |
| Utils.EscapeDoublesLessThan | backend/utils.py:76-85 | as written, '<' becomes "&amp;lt;", because the '&' pass re-escapes the earlier output |
| Utils.EntityDecodesTwice | backend/utils.py:61-70 | as written, "&amp;quot;" decodes to '"' rather than "&quot;" |
| Utils.DecodeEscapeRoundTrip | backend/utils.py:59-87 | the one-pass escape and decode are inverse: decoding an escaped text gives it back |
| Utils.EscapeCharsLessThan | backend/utils.py:76-78 | the one-pass escape turns '<' into "&lt;" |
| Utils.DecodePlain | backend/utils.py:59-72 | the one-pass decode leaves text without '&' unchanged |
| Utils.DecodeOnce | backend/utils.py:61-66 | the one-pass decode turns "&amp;" into '&' once, without decoding the result again |
| Utils.EscapeCharsRemovesSpecials | backend/utils.py:74-87 | the one-pass escape leaves no '<', '>', '"' or "'" |
| Models.NumberedIncreasing | backend/models.py:8-40 | ids 1..n in insertion order are strictly increasing |
| Models.Select | backend/models.py:83-194 | a filter keeps exactly the matching records, never more than there are |
| Models.SelectIncreasing | backend/models.py:83-194 | a filter keeps insertion (id) order |
| Models.SelectSnoc | backend/models.py:83-194 | a new record joins a query's result at the end iff it matches |
| Models.Take | backend/models.py:221-228 | Python slicing [:days], including negative days |
| Models.Touch | backend/models.py:139-143 | the chat pass over all chats keeps their number |
| Models.TouchOnly | backend/models.py:139-143 | save_message sets the target chat's last_message and adds one unread iff the sender is not 0; every other chat is unchanged |
| Models.BumpAllCounts | backend/models.py:139-143 | after many messages the unread count grows by the messages from others and last_message is the last text |
| Models.FindStat | backend/models.py:203-211 | the first statistics row of (account, date), or none exists |
| Models.SentOnSnoc | backend/models.py:197-218 | a new row adds its counts to its own (account, date) |
| Models.SentOnUpdate | backend/models.py:197-218 | updating a row in place adds the difference to its (account, date) |
| Models.RecordTotals | backend/models.py:197-218 | intended update_statistics: the day's totals for (account, today) grow by sent and received, every other pair is unchanged |
| Models.RecordKeepsShape | backend/models.py:197-218 | intended update_statistics keeps one row per (account, date) and ids 1..n, returns the id of the row for today, and adds a row only for a new pair |
| Models.Record | backend/models.py:197-218 | the intended update_statistics on the rows; Models.RecordTotals and Models.RecordKeepsShape state its effect |
| Models.RecordAsWritten | backend/models.py:197-218 | as written the call raises AttributeError iff the account already has a row |
| Models.SecondCallRaises | backend/models.py:203-218 | as written a second call for the same account raises, while the intended update returns the same row id |
| Models.Store.constructor | backend/models.py:8-40 | all dictionaries empty |
| Models.Store.SaveUser | backend/models.py:46-55 | id len+1 and a record equal to the arguments; nothing else changes |
| Models.Store.GetUserByUsername | backend/models.py:58-63 | the first user with that username in insertion order, or None iff there is none |
| Models.Store.GetUserById | backend/models.py:66-68 | the user with that id, or None iff no user has it |
| Models.Store.SaveTelegramAccount | backend/models.py:71-80 | id len+1 and a record equal to the arguments; nothing else changes |
| Models.Store.GetTelegramAccounts | backend/models.py:83-86 | exactly the user's accounts, in insertion order |
| Models.Store.SaveContact | backend/models.py:89-98 | id len+1 and a record equal to the arguments; nothing else changes |
| Models.Store.GetContacts | backend/models.py:101-104 | exactly the account's contacts, in insertion order |
| Models.Store.SaveChat | backend/models.py:107-117 | id len+1 and a record equal to the arguments; nothing else changes |
| Models.Store.GetChats | backend/models.py:120-123 | exactly the account's chats, in insertion order |
| Models.Store.SaveMessage | backend/models.py:126-144 | id len+1, an unread record stamped now, and the chat bookkeeping of TouchOnly; nothing else changes |
| Models.Store.GetMessages | backend/models.py:147-153 | exactly the chat's messages, by timestamp ascending, ties in insertion order |
| Models.Store.SaveAutoReply | backend/models.py:156-166 | id len+1 and a record equal to the arguments; nothing else changes |
| Models.Store.GetAutoReplies | backend/models.py:169-172 | exactly the account's auto-replies, in insertion order |
| Models.Store.SaveMassSending | backend/models.py:175-188 | id len+1 and the arguments, with status 'pending' and sent_count 0; nothing else changes |
| Models.Store.GetMassSendings | backend/models.py:191-194 | exactly the account's mass sendings, in insertion order |
| Models.Store.UpdateStatistics | backend/models.py:197-218 | the intended update_statistics on the store; only statistics changes |
| Models.Store.GetStatistics | backend/models.py:221-228 | min(days, n) of the account's n rows (for a negative `days`, max(n + days, 0), as Python's slice), newest date first, distinct rows of the account (a sub-multiset of them), and none left out is newer than one kept |
| Models.LatestStats | backend/models.py:221-228 | get_statistics on the rows; Models.LatestStatsProperties states its length, membership and order |
| Models.LatestStatsProperties | backend/models.py:221-228 | the specification of get_statistics: only the account's rows, each at most as often as it occurs (a sub-multiset), date descending, exactly min(days, n) of the account's n rows (max(n + days, 0) for negative `days`), the newest ones |
| Models.NewestKept | backend/models.py:221-228 | a prefix of a newest-first list keeps the newest rows |
| Sorting.SortBy | backend/models.py:147-153 | sorted(): an ordered permutation |
| Sorting.SortByStable | backend/models.py:147-153 | sorted() is stable: equal keys keep their original order |
| Sorting.InsertPermutes | backend/models.py:147-153 | one insertion step adds exactly the new element |
| Auth.CollectErrors | backend/auth.py:69-97 | the loop over the schema fills in exactly the specified error map |
| Auth.Errors | backend/auth.py:69-97 | the error map of the schema loop; Auth.CollectErrors is proved equal to it, and Auth.ErrorKeysInSchema and Auth.ErrorsPerField state its keys and values |
| Auth.ValidateUserInput | backend/auth.py:68-99 | the handler runs iff there is no error; otherwise a 400 with the whole error map |
| Auth.ErrorKeysInSchema | backend/auth.py:69-97 | every error key is a schema field |
| Auth.ErrorsPerField | backend/auth.py:69-97 | with distinct fields, a field has an error iff its own check fails, and that message is its error |
| Auth.FieldErrorRules | backend/auth.py:71-94 | a missing or None value gives "required" if required and nothing otherwise; a non-string gets only the type check; for strings the last failing check wins (max over min over type) |
| Auth.FieldError | backend/auth.py:71-94 | one field's error; Auth.FieldErrorRules and Auth.TypeErrorExact state its rules |
| Auth.TypeErrorExact | backend/auth.py:80-88 | the three type names fail exactly for the mismatching JSON kinds (bool counts as integer), any other type name never fails |
| Routes.Register | backend/routes.py:19-57 | 400 iff username or password is missing, 409 iff both are present and taken, otherwise the user is saved with an empty e-mail as none |
| Routes.LoginDecision | backend/routes.py:61-97 | 400 iff a field is missing; demo/demo123 always passes; otherwise 401 iff the user is unknown or the hash check fails |
| Routes.AddAccountCheck | backend/routes.py:282-314 | missing name or phone, exactly one credential, a non-numeric api_id and a missing credential are refused in that order; a connection is tried only with a non-zero api_id and a hash |
| Routes.AddAccountRejects | backend/routes.py:296-314 | a connection is tried iff name, phone, both credentials and a non-zero numeric api_id are given |
| Routes.ZeroApiIdRefused | backend/routes.py:296-314 | an api_id of "0" passes the both-or-neither check but is refused as a missing credential |
| Routes.ParseInt | backend/routes.py:304-308 | int() of a string; Routes.ParseIntRoundTrip and Routes.ParseIntZero state what it reads |
| Routes.ParseIntZero | backend/routes.py:304-314 | int("0") is 0, which the later credential check treats as missing |
| Routes.ParseIntRoundTrip | backend/routes.py:304-308 | int() reads back the decimal text of every integer, negative ones with their '-' |
| Routes.FirstAutoReply | backend/routes.py:843-855 | the index of the first active reply whose lowered trigger occurs in the lowered text, or none fires |
| Routes.FiresMeans | backend/routes.py:845 | a reply fires iff it is active and its lowered trigger occurs at some position of the lowered text |
| Routes.SendLocal | backend/routes.py:837-855 | the user's message is saved with the next id, then one reply message from the contact iff some reply fires, the first firing one; the chat is touched by the user's message and then by the reply, and the day's statistics record (1 sent, 0 received) and then (0, 1) when a reply fires; users, accounts, contacts, rules and jobs untouched |
| Routes.PreflightOrigin | backend/routes.py:1015-1024 | the allowed origin: the request's if listed or '*' allowed, else the first listed, else '*'; defaults ['*'] and '*' |
| Routes.PreflightNeverWidens | backend/routes.py:1015-1024 | with a non-empty list without '*', the answer is always a listed origin |
| Routes.ServeReact | backend/routes.py:1039-1059 | the five routing rules in their order: api/ 404, register, dashboard prefix, an existing file, index.html |
| Routes.ServeReactPages | backend/routes.py:1044-1059 | a 404 exactly for api/ paths, and no served file is under api/ |
| ContactList.ReadLineBlank | frontend/src/components/ContactList.js:79-81 | a line is skipped iff it is only whitespace |
| ContactList.ReadLine | frontend/src/components/ContactList.js:79-97 | one line of the loop; ContactList.ReadLineBlank, ReadLineFormat, ReadLineErrors, ReadLineAccepted, ReadPair and ExtraFieldsIgnored state what it gives |
| ContactList.ReadLineFormat | frontend/src/components/ContactList.js:82-86 | a non-blank line without a comma is a format error |
| ContactList.ReadLineErrors | frontend/src/components/ContactList.js:82-94 | a line can only fail with the format or the phone error |
| ContactList.ReadLineAccepted | frontend/src/components/ContactList.js:88-94 | an accepted entry has a non-empty name and a phone starting with '+' |
| ContactList.ReadPair | frontend/src/components/ContactList.js:88-89 | "name, phone" gives the trimmed name and phone |
| ContactList.ExtraFieldsIgnored | frontend/src/components/ContactList.js:88-89 | fields after the second are ignored |
| ContactList.Classify | frontend/src/components/ContactList.js:79-97 | one reading per input line |
| ContactList.ErrorSticks | frontend/src/components/ContactList.js:79-97 | after the first error later lines change nothing |
| ContactList.ReadAll | frontend/src/components/ContactList.js:79-97 | the loop with early returns equals the fold over the lines |
| ContactList.ImportContacts | frontend/src/components/ContactList.js:70-102 | the handler equals the import function: empty input, first failing line, or the accepted entries |
| ContactList.Import | frontend/src/components/ContactList.js:70-102 | the handler's result; ContactList.ImportContacts is proved equal to it, and ContactList.CollectMeaning, KeptWellFormed and NoContactsUnreachable state its meaning |
| ContactList.Collect | frontend/src/components/ContactList.js:79-97 | the loop over the lines with its early error return; ContactList.CollectMeaning and ContactList.ErrorSticks state its result |
| ContactList.CollectMeaning | frontend/src/components/ContactList.js:79-102 | success iff no line is rejected, and then the result is the accepted entries in line order; it is empty iff every line is blank; an error is the first rejected line's |
| ContactList.KeptWellFormed | frontend/src/components/ContactList.js:88-97 | every imported contact has a name and a '+' phone |
| ContactList.ReadLinesErrors | frontend/src/components/ContactList.js:79-97 | the loop only fails with the format or the phone error |
| ContactList.NothingReadIsBlank | frontend/src/components/ContactList.js:70-97 | a non-blank text always has a non-blank line |
| ContactList.NoContactsUnreachable | frontend/src/components/ContactList.js:99-102 | the "no contacts" error can never be returned |
| MassSending.Without | frontend/src/components/MassSending.js:84-86 | the filter removes every copy of the id and keeps every other id with its multiplicity |
| MassSending.ToggleFlips | frontend/src/components/MassSending.js:81-95 | a present id is removed by the filter Without, an absent id is appended at the end, so membership flips; other fields unchanged |
| MassSending.Toggle | frontend/src/components/MassSending.js:81-95 | handleToggleContact; MassSending.ToggleFlips, ToggleTwice and ToggleDistinct state its effect |
| MassSending.ToggleTwice | frontend/src/components/MassSending.js:82-93 | toggling an unselected id twice restores the form |
| MassSending.ToggleDistinct | frontend/src/components/MassSending.js:81-95 | toggling keeps a selection without repeats |
| MassSending.SelectAll | frontend/src/components/MassSending.js:98-112 | a selection with as many ids as there are contacts becomes empty, any other becomes all contact ids in contact order; other fields unchanged |
| MassSending.SelectAllMeansAll | frontend/src/components/MassSending.js:98-112 | for repeat-free lists drawn from the contacts, equal counts mean every contact is selected |
| MassSending.SelectAllTwice | frontend/src/components/MassSending.js:98-112 | on a partial selection select-all selects every contact id, and pressing it again clears the selection |
| MassSending.Submit | frontend/src/components/MassSending.js:50-53 | refused with its message iff the text or the selection is empty; otherwise the request carries the form |
| MassSending.SubmitAfterSelection | frontend/src/components/MassSending.js:50-53 | a form with a text becomes submittable once a contact is toggled in, and the empty form is refused |

## Left out

- Telethon: connect, authorisation, the console tool and the direct sends are left out. They are network calls into an unseen library. The send primitive is an oracle of outcomes, and `PrepareSend` takes the connection flags as given.
- `backend/telegram_api.py` and `backend/telegram_mock.py` are not part of this model. The mock sleeps and fails at random.
- SQLite: connections, schema creation and the SQL strings are left out. Tables are maps and sequences, and the UPSERT of `update_account_timestamp` sets the stamp to now.
- The issue of a message id by SQLite is modelled as the next row number, as `lastrowid` on a table without deletes gives it.
- The asyncio event-loop thread and all `time.sleep` calls are left out. A sleep advances the integer clock.
- PyQt widgets, dialogs and tables are left out, as are all React rendering and the frontend files other than the two modelled parsers. These are user interface.
- `frontend/src/api/index.js` is left out: it is HTTP plumbing.
- Floating-point time (`time.mktime`, `time.time()`) is replaced by integer milliseconds with an integer ceiling.
- The mix of UTC (`CURRENT_TIMESTAMP`) and local time (`datetime.now`) is not modelled: there is one clock.
- `format_datetime` depends on the wall clock, and `generate_random_string` is random. Both are left out.
- JWT decorators, token creation, `backend/app.py`, `main.py` and `init_demo_data` are left out. They are framework set-up, not logic.
- The account-creation path from routes to `save_telegram_account` with six arguments is not modelled. The function takes three; the store models the three-argument function.
- The CSV reader of `import_contacts` is a parameter. The model starts from the rows `csv.reader` yields; quoting and dialects are not modelled.
- Database insert outcomes in the contact imports are an oracle `insertOk` indexed by attempt: which insert fails is not derived from constraints.
- Whitespace is ASCII: `strip`, `trim` and `split` use space, tab, newline, carriage return, vertical tab and form feed. Other Unicode whitespace is not modelled.
- `lower()` covers ASCII and basic Cyrillic letters, not full Unicode case mapping.
- `int()` of a string accepts optional surrounding whitespace, an optional sign and ASCII digits. Underscores and non-ASCII digits are not modelled.
- Dispatch.FirstDigit, Dispatch.DigitRun, Dispatch.FirstNumber: `\d` in `re.search(r'(\d+)', …)` matches every Unicode decimal digit; the model takes only ASCII '0'..'9', because Dafny has no Unicode character database.
- Registry.KeepPhoneChars: `str.isdigit()` also accepts superscripts and other Unicode digits; the model keeps only ASCII '0'..'9' and '+', for the same reason.
- In `routes.py`, JSON fields are strings or absent. A non-string value (a number where a name is expected, say) is not modelled, except `api_id`, which may be a number or a string.
- The store lookups, the password-hash check (`check_password_hash`), and the file test of `serve_react` are parameters of the route decisions.
- The one-second sleep before the local auto-reply is the `later` timestamp parameter of `Routes.SendLocal`.
- Routes.SendLocal: the statistics updates go through the intended update_statistics (`Models.Store.UpdateStatistics`), since the function as written raises on the second call for an account; see Findings.
- The connected-mode Telegram path of `send_message` is left out: it calls Telethon.
- The double timestamp update after a success is modelled. `record_sent_message` sets the stamp, and the caller sets it again to the same value.
- Throttle.CheckAccountDelay: errors are represented by a read-error value, not by any exception a real database could raise.

## Findings

| source | as written | input that shows it | evidently intended | confidence | as-written member | corrected member |
|---|---|---|---|---|---|---|
| backend/utils.py:76-85 | `escape_html` replaces `&` after `<` and `>`, so it re-escapes their entities | `"<"` becomes `"&amp;lt;"` | one pass per character, `"<"` becomes `"&lt;"`, and decoding inverts it | high (not executed) | Utils.EscapeDoublesLessThan | Utils.DecodeEscapeRoundTrip |
| backend/utils.py:61-70 | `parse_html_entities` decodes `&amp;` before `&quot;`, so it decodes its own output again | `"&amp;quot;"` becomes `"\""` | each entity decoded once: `"&amp;quot;"` becomes `"&quot;"` | high (not executed) | Utils.EntityDecodesTwice | Utils.DecodeOnce |
| backend/models.py:203-214 | `update_statistics` stores `date` as a `date` object and compares with `stat['date'].date()`, which a `date` object does not have | two calls for the same account: the second raises AttributeError | add into the existing (account, today) row and return its id | high (not executed) | Models.SecondCallRaises | Models.RecordTotals |
