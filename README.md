# Aeroflot subsidised-ticket watcher: a Dafny model

The program is a Telegram bot. Users pick travel dates on an inline calendar;
the bot stores each (user, date) pair in a SQLite table, and a background
thread checks the airline's subsidised-fare search once an hour. When a probe
of a date finds tickets, every user watching that date gets a message.

This project models that core:

- **The watch store** (`watches.dfy`). The `watches` table is a class whose
  rows are kept in insertion (rowid) order. Its invariant is the `UNIQUE(user_id, date)`
  constraint. The class has the insert, delete and three queries of the
  source, and each query is a loop proved against a specification function.
- **One checker cycle** (`checker.dfy`). The browser, the remote search and
  Telegram are an `Oracle`:
  - whether driver setup fails;
  - what the search script yields for each date;
  - whether each send succeeds.

  A cycle returns the log of what it did: probes, send attempts, a setup
  failure, and sleeps. `PassLog` specifies a pass for any listing of dates
  and watchers the two queries may return; `RunCycle` is proved equal to
  `CycleLog`, its instance for the store's answers. The lemmas state, for
  every listing, which dates are probed and who is messaged.
- **The probe classification** (`probe.dfy`). `check_date`'s decision is a
  function over an abstract JSON value. Any exception is also an input.
- **The calendar and button payloads** (`calendar.dfy`, `handlers.dfy`):
  - month navigation;
  - the `CALENDAR|ACTION|Y|M|D` payload and its decoding by `split('|')` and
    `int`;
  - the zero-padded date string;
  - the `del_<date>` button;
  - the calendar, `/list` and delete handlers as they touch the store.
- **Python and SQLite primitives** (`pystr.dfy`), which the above rely on:
  - `str.split`;
  - `str(int)` and `int(str)`;
  - SQLite's default (BINARY) text order, used by `ORDER BY date`.

The checker takes its dates from `SELECT DISTINCT date FROM watches`
(main.py:86) and each date's watchers from `SELECT user_id FROM watches
WHERE date = ?` (main.py:94). Neither query has an `ORDER BY`, so no probe
order and no send order is guaranteed. The cycle lemmas are therefore stated
for every answer the queries may give: any duplicate-free listing of the
watched dates, and for each date any duplicate-free listing of its watchers.

## Model

| member | source | states |
|---|---|---|
| Watches.Store.constructor | aeroflot_checker/main.py:42-55 | a freshly created table is empty and satisfies the uniqueness invariant |
| Watches.Store.AddWatch | aeroflot_checker/main.py:57-66 | returns True exactly when the pair was absent, and then appends it; on a present pair it returns False and changes nothing; afterwards the set of watches is the old set plus the pair |
| Watches.AddWatchTwice | aeroflot_checker/main.py:57-66 | two identical inserts in a row: the first succeeds exactly when the pair was new, the second always fails, and the pair is stored once |
| Watches.Without | aeroflot_checker/main.py:71 | the rows kept by the DELETE are exactly the old rows other than the pair, uniqueness is preserved, and nothing is added |
| Watches.WithoutAbsent | aeroflot_checker/main.py:71 | deleting a pair that is not stored leaves the rows unchanged |
| Watches.Store.RemoveWatch | aeroflot_checker/main.py:68-73 | the new rows are the old rows without the pair (order kept); the set of watches loses exactly that pair; removing an absent pair is a no-op |
| Watches.Store.UserWatches | aeroflot_checker/main.py:75-81 | the result is strictly ascending in SQLite text order and holds exactly the dates the user watches, so each appears once |
| Watches.DistinctDates | aeroflot_checker/main.py:86 | every watched date appears, nothing else does, and no date appears twice |
| Watches.Store.AllUniqueDates | aeroflot_checker/main.py:83-89 | the scan returns the distinct dates of the table |
| Watches.UsersOf | aeroflot_checker/main.py:94 | a user is listed exactly when they watch the date; under the uniqueness invariant no user is listed twice |
| Watches.Store.UsersForDate | aeroflot_checker/main.py:91-97 | the scan returns the watchers of the date |
| Probe.Truthy | aeroflot_checker/main.py:131-142 | Python truthiness: the falsy values are exactly None, False, 0 and the empty string, list and dict |
| Probe.Classify | aeroflot_checker/main.py:131-151 | False for a raised exception, for a falsy response and for a truthy `error` field; True only for a dict holding `data` |
| Probe.ClassifySearchReply | aeroflot_checker/main.py:139-147 | on a search reply, tickets are found exactly when `route_itineraries` is non-empty |
| Probe.ClassifyDataObject | aeroflot_checker/main.py:135-147 | with no truthy `error` and a dict `data`, tickets are found exactly when `data` holds a truthy `route_itineraries`, whatever else either dict holds |
| Probe.ClassifyItineraries | aeroflot_checker/main.py:139-147 | with no truthy `error` and a dict `data`: a list of itineraries finds tickets exactly when it is non-empty; a missing `route_itineraries` finds none |
| Probe.ClassifyWithoutDataObject | aeroflot_checker/main.py:139-151 | a dict response without `data`, or whose `data` is not a dict, finds no tickets |
| Checker.QueriesAreListings | aeroflot_checker/main.py:83-97 | under the uniqueness invariant, the store model's answers to both queries are listings: each watched date once, each watcher of a date once |
| Checker.NotifyWatchers | aeroflot_checker/main.py:199-205 | the send loop makes one attempt per watcher of the date, in query order, each logged with its own outcome |
| Checker.ProbeDate | aeroflot_checker/main.py:196-207 | one date: its probe, the fan-out only when the probe is positive, then the 5-second pause |
| Checker.RunCycle | aeroflot_checker/main.py:180-216 | one pass of the loop produces exactly the specified cycle log, and the store is only read |
| Checker.RunCycles | aeroflot_checker/main.py:180-216 | a bounded run is the concatenation of the cycles' logs |
| Checker.ListsDatesEmpty | aeroflot_checker/main.py:182-186 | any answer to the distinct-date query is empty exactly when the table is |
| Checker.QuietPassProbesNothing | aeroflot_checker/main.py:182-190 | an empty date list or a failed driver setup means no probe at all |
| Checker.ProbesOfProbeAll | aeroflot_checker/main.py:196-207 | probing a list of dates logs exactly those dates as probes, in that order |
| Checker.FullPassProbesEveryDate | aeroflot_checker/main.py:196-207 | otherwise the probes are exactly the listed dates, in the listed order |
| Checker.CycleProbesEachDateOnce | aeroflot_checker/main.py:182-197 | for every listing of the watched dates: both cases above; also no date is probed twice, and a date is probed exactly when it is watched and setup succeeded |
| Checker.FanoutEvents | aeroflot_checker/main.py:200-205 | a fan-out holds only sends for its date and its users, with their own outcomes, and holds one for every user |
| Checker.CycleNotifiesWatchers | aeroflot_checker/main.py:196-205 | for every listing of dates and watchers: a send (u, d, ok) is logged exactly when setup succeeded, (u, d) is stored, the probe of d is positive and ok is that send's own outcome; each logged probe carries `check_date`'s verdict |
| Checker.FailedSendIsIsolated | aeroflot_checker/main.py:200-205 | for every listing: a failed send to one watcher does not stop a successful send to another watcher of the same date |
| Checker.CycleSendsOnce | aeroflot_checker/main.py:196-205 | for every duplicate-free listing of dates and watchers, no (user, date) pair is messaged twice in a cycle |
| Checker.CycleEndsWithFullSleep | aeroflot_checker/main.py:180-216 | for every listing of the dates: every cycle ends with the 3600-second sleep; an empty table gives only that sleep; a failed setup gives the failure and that sleep |
| Checker.RecoversAfterSetupFailure | aeroflot_checker/main.py:180-216 | after a cycle whose setup failed, the next cycle probes every watched date, each once and nothing else |
| Checker.ExampleCycle | aeroflot_checker/main.py:196-205 | two watchers of 2026-01-10 and one of 2026-02-01, tickets only on 2026-01-10, first send fails: the second watcher is still messaged, the failure is logged, the third hears nothing |
| Calendar.PrevMonth | aeroflot_checker/main.py:248-252 | for a month in 1..12 the result is in 1..12 and one month earlier; January wraps to December of the previous year |
| Calendar.NextMonth | aeroflot_checker/main.py:254-258 | for a month in 1..12 the result is in 1..12 and one month later; December wraps to January of the next year |
| Calendar.NavigationRoundTrip | aeroflot_checker/main.py:248-258 | next-of-previous and previous-of-next are the identity on valid months |
| Calendar.Pad2 | aeroflot_checker/main.py:296 | `:02d` of a non-negative number is made of digits only |
| Calendar.Pad2TwoDigits | aeroflot_checker/main.py:296 | `:02d` on 0..99 gives exactly two digits |
| Calendar.ParseIntOfPad2 | aeroflot_checker/main.py:296 | a padded field parses back to its number |
| Calendar.FormatDate | aeroflot_checker/main.py:296 | a date string holds only digits and '-' (so never the '_' or '\|' the payloads split on) |
| Calendar.FormatDateFields | aeroflot_checker/main.py:296 | for non-negative fields the date string splits on '-' into year, padded month and padded day |
| Calendar.FormatDateInjective | aeroflot_checker/main.py:296 | different (year, month, day) triples with non-negative fields give different date strings |
| Calendar.FormatDateOrder | aeroflot_checker/main.py:78 | for four-digit years and fields in 0..99, `ORDER BY date` on stored strings is (year, month, day) order |
| Calendar.CalendarPayload | aeroflot_checker/main.py:243 | every calendar payload starts with `CALENDAR\|`, the prefix that routes it to the calendar handler (main.py:285) |
| Calendar.SelectPayload | aeroflot_checker/main.py:243 | pressing a day button decodes to adding the zero-padded date string of that day |
| Calendar.PrevPayload | aeroflot_checker/main.py:248-261 | the "<" button decodes to redrawing the calendar at the previous month |
| Calendar.NextPayload | aeroflot_checker/main.py:254-263 | the ">" button decodes to redrawing the calendar at the next month |
| Calendar.ParseCallback | aeroflot_checker/main.py:288-289 | a decoded payload had exactly five fields, and its action is the second field |
| Calendar.CalendarPayloadRoundTrip | aeroflot_checker/main.py:288-289 | a payload built for any action without '\|' splits into five fields and its numbers parse back unchanged |
| Calendar.DecodeCalendar | aeroflot_checker/main.py:286-305 | the error branch is taken exactly when the payload does not unpack into five fields with three integers; a selected date is made of digits and '-'; an action other than IGNORE, SELECT, PREV and NEXT does nothing |
| Calendar.DeletePayload | aeroflot_checker/main.py:321 | a delete button's data always starts with `del_` |
| Calendar.DeletedDate | aeroflot_checker/main.py:328 | `split('_')[1]` of a `del_` payload is the text after `del_` up to the next '_' or the end |
| Calendar.DeletePayloadRoundTrip | aeroflot_checker/main.py:328 | `split('_')[1]` of a delete button recovers its date when the date has no '_' |
| Calendar.DeleteButtonForFormattedDate | aeroflot_checker/main.py:321 | every date the calendar can store survives the delete button intact |
| Handlers.OnCalendarCallback | aeroflot_checker/main.py:285-309 | per decoded action: SELECT adds the watch and reports added or already watched; PREV/NEXT redraw for months 1..12 and fail otherwise; IGNORE, unknown actions and parse errors leave the store alone |
| Handlers.DeleteButtons | aeroflot_checker/main.py:318-322 | one button per date in order, each decoding back to its date when the date has no '_' |
| Handlers.ListDates | aeroflot_checker/main.py:311-324 | `/list` shows exactly the user's dates, ascending and without repeats, one delete button each |
| Handlers.OnDeleteCallback | aeroflot_checker/main.py:326-342 | the pair named by the button is deleted and nothing else; the redrawn list is the user's remaining dates |
| Handlers.DeleteListedDate | aeroflot_checker/main.py:319-329 | pressing the delete button `/list` made for one of the user's watches removes exactly that watch |
| PyStr.Split | aeroflot_checker/main.py:288 | `str.split` gives at least one field, no field holds the separator, and the first field runs up to the first separator or the end |
| PyStr.SplitJoin | aeroflot_checker/main.py:288 | splitting a '\|'-joined list of separator-free fields gives the fields back |
| PyStr.SplitAtSeparator | aeroflot_checker/main.py:328 | splitting at the first separator gives the prefix, then the split of the rest |
| PyStr.IntToString | aeroflot_checker/main.py:243 | `str(int)` is non-empty and made of digits and '-' only |
| PyStr.ParseInt | aeroflot_checker/main.py:289 | `int()` accepts only an optional sign followed by one or more ASCII digits, and an unsigned numeral is non-negative |
| PyStr.ParseIntOfIntToString | aeroflot_checker/main.py:289 | `int(str(n)) == n` for every integer |
| PyStr.Below | aeroflot_checker/main.py:78 | in SQLite's text order a proper prefix sorts first, and no string sorts before itself or one of its prefixes |
| PyStr.BelowTotal | aeroflot_checker/main.py:78 | SQLite's text order is total: distinct strings are always ordered one way or the other |
| PyStr.BelowTransitive | aeroflot_checker/main.py:78 | SQLite's text order is transitive |
| PyStr.BelowDigits | aeroflot_checker/main.py:78 | on equal-length digit strings, text order is numeric order |
| PyStr.InsertSorted | aeroflot_checker/main.py:78 | inserting a new date into an ascending list keeps it ascending and adds exactly that date |

## Left out

- **SQLite mechanics.** Connections, commits and the `created_at` column are not modelled. Errors other than the UNIQUE violation are also left out (a locked or corrupt database raises out of the store functions). The constructor stands for `init_db` on a new database file.
- Watches.DistinctDates, Watches.UsersOf: the two checker queries have no `ORDER BY`, so SQLite fixes no order for their answers. These functions give one possible order (first occurrence among the rows, and row order). The cycle properties do not depend on it: they are proved for every duplicate-free listing of the dates and of each date's watchers (`Checker.ListsDates`, `Checker.ListsWatchers`).
- PyStr.ParseInt: Python's `int()` also accepts surrounding whitespace, `_` between digits and non-ASCII digits. The model accepts only ASCII digits after an optional sign. Payloads the bot builds itself never need more.
- **Selenium.** Driver options, `driver.get`, the 15-second page load, the JavaScript `fetch` and the remote API are all one oracle. Either setup fails (`init_driver` or `driver.get` raising, which lands in the outer `except`), or the search script returns a JSON value or raises, per date. `driver.quit` is not modelled.
- **JSON.** JSON numbers are integers; a float's truthiness is the same as a non-zero test.
- **Exceptions during the date loop.** The model assumes none escape `check_date` or the per-send `try`: database errors from `get_users_for_date` and an exception raised by `time.sleep` are not modelled.
- **Telegram.** `send_message`, `reply_to`, `edit_message_*`, `answer_callback_query` and the keyboard layout built from `calendar.monthcalendar` become an oracle or the handler's returned value. The month grid itself is not modelled; only the payloads of its day buttons and its navigation buttons are. `RU_MONTHS` indexing is not modelled either: together with `monthcalendar`, it makes a redraw fail for a month outside 1..12, and that failure is modelled.
- **Time.** Sleeps are logged as events with their length; wall-clock time, `datetime.now()` and the `/add` command that starts from the current month are left out.
- **Concurrency.** The polling thread and the checker thread are left out. The model keeps the table fixed for a whole cycle and between the cycles of a bounded run, so "the users watching a date" means the rows of that fixed table.
- **Other handlers.** `send_welcome`, `send_ping`, `add_date_command` and `main` only send fixed text or wire the process together, so they are not modelled.
- **Unbounded run.** The `while True` loop is modelled as a bounded sequence of cycles (`RunCycles`).
