# Pool reservation bot — a Dafny model of its core

The system books swimming-pool sessions automatically:

- A chat bot lets a small set of users add, list and delete sessions. Each session is a registration-opening datetime plus a session page URL.
- Sessions are stored as JSON lists in two files: `sessions.lst` for pending sessions and `sessions_passed.lst` for the archive of passed ones.
- A long-running service loop does three things on every cycle:
  - it moves overdue sessions from the pending list to the archive and caps the archive;
  - it keeps at most one recorded worker process, aimed at the head of the pending list (the earliest session when the file is sorted), killing the recorded worker before spawning a new one; none is recorded while the list is empty, and a worker that has already finished stays recorded and is not respawned;
  - each worker sleeps until shortly before the opening, polls the clock, then reloads the page and clicks the reserve button a bounded number of times.

The model has one module per core source file, plus one shared module:

| module | file | form |
|---|---|---|
| `Records` | (shared) | the session record `Session(dtStr, url, passed)`; the datetime parser `strptime(s, '%d/%m/%Y %H:%M')` as an abstract partial function `string -> Option<int>` (seconds) |
| `SessionsUtils` | sessions_utils.py | a `SessionFile` class whose `content` field is the file (a JSON list, or text that does not decode). The list operations behind it are functions: a stable sort, given as insertion sort and proved sorted, a permutation and stable per key; and delete-by-index |
| `CheckNewSession` | check_new_session.py | pure functions for the three ordered checks: format, past, 300-second proximity |
| `ReservationService` | reservation_service.py | a `Service` class holding the loop's variables (`cur_datetime_str`, `cur_url_str`, `proc`) and a trace of kills and spawns. Its `Step` method is one cycle of the loop. Retirement is a loop method proved against a specification function; the archive trim, `reservation_kill` and the worker reconciliation are functions |
| `ReservationProcess` | reservation_process.py | one method with the worker's nested loops. Clock readings and click outcomes are inputs |
| `ReservationBot` | reservation_bot.py | a `Bot` class holding `bot_activated` and one user's `user_data`; the add-session conversation handlers as methods; the access gates, `/deletesession` argument handling, `/printsessions` and the log-dump line selection as functions |

Behaviours of the service and the worker worth knowing, each modelled as the code does it:

- **Retirement stops at the first pending session that is not overdue** (reservation_service.py:115-123). Every later session stays pending, even an overdue one (`KeptAfterFirstNonRetirable`). The scan parses only the datetimes it reaches: the overdue prefix and the first session that is not overdue. One of those failing to parse raises and ends the service loop. A bad datetime further on is never parsed (`RetireCountFaultIff`).
- **The archive cap keeps the oldest entries** (reservation_service.py:128-129). The slice `[:-max_passed_n]` drops the newest `max_passed_n` entries and keeps the rest, so the archive can also stay longer than `max_passed_n` (see Findings).
- **`reservation_kill` sends SIGKILL straight after one probe** (reservation_service.py:224-240). If the probe after `terminate()` still finds the process, SIGKILL follows with no wait in between. Nothing checks afterwards that the process is gone.
- **Only "button not found" is retried in the worker** (reservation_process.py:83-89). `NoSuchElementException` is the only exception caught; any other exception ends the worker.
- **The worker's clock polling sleeps 0.01 s** (reservation_process.py:95). In the service, the interval between cycles is `update_delay_t` (reservation_service.py:179), the same value as the overdue threshold at line 118.

A few other behaviours of the code are modelled as written:

- `bot_activated` starts `True`, and no handler ever sets it to `False`. So the activation gate only ever blocks if the variable is changed outside the model.
- When the user answers "Yes", `user_data` is not cleared.
- When `add_new_session` returns a positive code, the "Yes" branch replies through `update.message`. That attribute is absent on a button-press update, so the handler raises (`Bot.AddSessionProcess`).

## Model

| member | source | states |
|---|---|---|
| `SessionsUtils.SortByKey` | sessions_utils.py:49-50 | The reference for `sorted(..., key=...)`: stable insertion, one element at a time, after every element whose key is not greater. Its length equals the input's; sortedness, permutation and stability are in `SortByKeyCorrect` |
| `SessionsUtils.SortByKeyCorrect` | sessions_utils.py:49-50 | `sorted(..., key=strptime)` is modelled by a reference stable sort. Its result is ordered by key, is a permutation of the input, and keeps elements with equal keys in their input order |
| `SessionsUtils.AddedList` | sessions_utils.py:38-50 | The list add_new_session builds: the old list with `{datetime, url, passed: False}` appended, then sorted by parsed datetime. It holds exactly the old sessions plus the new one; order and stability are in `AddedListSpec` |
| `SessionsUtils.AddedListSpec` | sessions_utils.py:34-50 | The list add_new_session writes is one longer: the old sessions plus `{datetime, url, passed: False}`, ordered by parsed datetime. The new session comes after existing sessions with the same datetime, and everything in it still parses |
| `SessionsUtils.DeleteAt` | sessions_utils.py:118-123 | `pop(n)` happens exactly when `0 <= n < len`. The result keeps the elements before `n`, shifts the ones after it down by one, and loses exactly `s[n]` |
| `SessionsUtils.SessionFile.GetSessionsList` | sessions_utils.py:57-71 | Reading a file yields its JSON list, or `[]` when decoding raises ValueError |
| `SessionsUtils.SessionFile.PutSessionsList` | sessions_utils.py:75-92 | Writing stores the list and returns `(0, '')`. A serialisation ValueError returns `(ERR_JSON, 'json error: ' + msg)` and leaves a file that no longer decodes |
| `SessionsUtils.SessionFile.AddNewSession` | sessions_utils.py:12-55 | The file becomes the sorted extended list, with put's status returned. A datetime the sort cannot parse raises before anything is written |
| `SessionsUtils.SessionFile.DeleteAllSessions` | sessions_utils.py:95-106 | Truncating gives `(0, '')`, and the file then reads back as `[]`. An error opening the file returns `(ERR_IO, msg)` with the file untouched |
| `SessionsUtils.SessionFile.DeleteSession` | sessions_utils.py:108-125 | An index inside the list is removed and put's status returned. An index outside returns `(ERR_IO, 'Session number is out of bounds.')` without rewriting the file |
| `CheckNewSession.Code` | check_new_session.py:5 | The error codes `range(4)`: 0 exactly for acceptance, positive for every refusal |
| `CheckNewSession.ScanStored` | check_new_session.py:39-46 | The `for session in sessions_list` scan, where the first clash ends it. It can only accept, report a clash, or raise ValueError; the exact conditions are in `ScanAcceptsIff`, `ScanReportsFirstClash` and `ScanOutcomes` |
| `CheckNewSession.CheckNewDatetime` | check_new_session.py:10-48 | check_new_datetime as written: NameError exactly when the datetime does not parse, and never the bad-format verdict. Acceptance and clashes are characterised in `CheckAcceptsIff`, `CheckOutcomes` and `CheckReportsFirstClash` |
| `CheckNewSession.CheckNewDatetimeFixed` | check_new_session.py:24-29 | check_new_datetime as evidently intended: the bad-format verdict (code 1) exactly when the datetime does not parse, and never NameError. Its agreement with the written check is in `FixedCheckReportsBadFormat` |
| `CheckNewSession.ScanAcceptsIff` | check_new_session.py:39-48 | The scan of stored sessions accepts if and only if every stored datetime parses and lies at least 300 s from the new one |
| `CheckNewSession.ScanReportsFirstClash` | check_new_session.py:40-46 | A too-close verdict names exactly the first stored session, in list order, that lies under 300 s away; every session before it is far enough |
| `CheckNewSession.ScanOutcomes` | check_new_session.py:40-48 | The scan either accepts, reports a clash, or raises ValueError. It raises only if some stored datetime does not parse |
| `CheckNewSession.PastDateIgnoresStore` | check_new_session.py:31-35 | A datetime before now is refused with code 2 before the store is read, whatever the store holds |
| `CheckNewSession.CheckAcceptsIff` | check_new_session.py:10-48 | check_new_datetime returns code 0 if and only if: the string parses; it is not before now (equal passes); and every stored session is at least 300 s away |
| `CheckNewSession.CheckOutcomes` | check_new_session.py:10-48 | The checks run in the order format, past, proximity. Code 1 is never returned as written, and the only returned codes are 0, 2 and 3 |
| `CheckNewSession.CheckReportsFirstClash` | check_new_session.py:37-46 | Once the datetime parses and is not past, a too-close verdict names exactly the first stored session that clashes |
| `CheckNewSession.UnparseableDateFaults` | check_new_session.py:24-29 | As written, an unparseable datetime makes the check raise NameError instead of returning a verdict |
| `CheckNewSession.FixedCheckReportsBadFormat` | check_new_session.py:24-29 | As intended, an unparseable datetime gets code 1; otherwise the corrected check agrees with the written one and never raises NameError |
| `ReservationService.RetireCount` | reservation_service.py:115-123 | The number of sessions the retirement scan retires, or a fault when strptime raises. It is never more than the list length; `RetireCountIsLongestPrefix` and `RetireCountFaultIff` characterise it |
| `ReservationService.RetireCountIsLongestPrefix` | reservation_service.py:113-123 | The `for ... break` scan retires exactly the longest prefix of overdue sessions: every session before position `k` is more than `update_delay_t` past, and the session at `k` parses and is not |
| `ReservationService.RetireCountFaultIff` | reservation_service.py:115-118 | The scan raises if and only if it reaches, through overdue sessions only, a datetime that does not parse |
| `ReservationService.KeptAfterFirstNonRetirable` | reservation_service.py:115-126 | The retired count never passes a session that is not overdue: that session, and so every later one, is in the tail `sessions_list[sessions_passed:]` written back as pending |
| `ReservationService.RetireOverdue` | reservation_service.py:113-123 | The retirement loop succeeds exactly when the scan does not fault. It counts the retired prefix and appends that prefix, each session marked passed, to the archive |
| `ReservationService.TrimArchive` | reservation_service.py:128-129 | `[:-max_passed_n]` under its length guard, with Python slice semantics. The result is always a prefix of the archive: kept whole within the cap, emptied by a cap of 0, `len - cap` entries for a positive cap, the first `-cap` for a negative one |
| `ReservationService.TrimKeepsOldest` | reservation_service.py:128-129 | As written, retiring `cap + extra` sessions into an empty archive keeps the `extra` oldest of them |
| `ReservationService.TrimDropsNewestExample` | reservation_service.py:128-129 | Five archived sessions with a cap of 3: as written the first two survive; as intended the last three do |
| `ReservationService.TrimArchiveNewest` | reservation_service.py:128-129 | The intended cap: the result is the newest `min(len, cap)` entries, a suffix of the archive |
| `ReservationService.TrimNewestKeepsMostRecent` | reservation_service.py:128-129 | As intended, after at least `cap` retirements the archive holds exactly the `cap` most recently retired sessions |
| `ReservationService.ReservationKill` | reservation_service.py:200-240 | No process means no signal. Otherwise the kill sends terminate and then one probe. A process still alive gets SIGKILL at once, with no wait. A raising SIGKILL is fatal (`sys.exit`). Every signal goes to the recorded pid, and nothing is spawned |
| `ReservationService.KillOfDeadProcessIdempotent` | reservation_service.py:221-232 | Killing a process that is already gone always ends the same way, after terminate and probe, without SIGKILL |
| `ReservationService.Reconcile` | reservation_service.py:134-175 | The worker branch of one cycle. After a non-fatal cycle the handle targets the head of the pending list, or holds no worker when the list is empty. A fatal cycle leaves the handle as it was, and happens only when a live worker's SIGKILL raised. Event order is in `ReconcileEmpty`, `ReconcileSameTarget` and `ReconcileReplace` |
| `ReservationService.ReconcileEmpty` | reservation_service.py:135-147 | With an empty pending list, a live worker is killed once and the handle cleared; with no worker nothing happens; nothing is spawned |
| `ReservationService.ReconcileSameTarget` | reservation_service.py:149-152 | When the handle already holds the head's datetime and URL strings, there is no kill and no spawn |
| `ReservationService.ReconcileReplace` | reservation_service.py:149-175 | When either string differs, any existing worker is killed first. Then exactly one worker is spawned for the head, as the cycle's last event, and the handle records it. A fatal kill ends the service before any spawn |
| `ReservationService.ReconcileKeepsHandleValid` | reservation_service.py:134-175 | Reconciliation keeps the single-slot invariant: a worker is recorded exactly when a datetime is |
| `ReservationService.Service.constructor` | reservation_service.py:92-94 | The loop starts with no worker: empty datetime and URL, `proc = None` |
| `ReservationService.Service.Step` | reservation_service.py:107-179 | One cycle. A parse fault stops the service and changes nothing. Otherwise: the pending file holds the list after the retired prefix. The archive file holds the old archive with the retired sessions (marked passed) appended, then trimmed by `TrimArchive`. The handle and trace follow the reconciliation against the new head, and the single-slot invariant is kept |
| `ReservationService.Service.ReconcileWorker` | reservation_service.py:134-175 | The imperative kill/spawn branch leaves the handle, trace and exit flag that the reconciliation function gives |
| `ReservationProcess.InitialWait` | reservation_process.py:43-45 | The first sleep is never negative. It is zero exactly when the opening is within `browser_delay_t` of now; otherwise the worker wakes exactly `browser_delay_t` before the opening |
| `ReservationProcess.AttemptEvents` | reservation_process.py:80-91 | The trace of `n` completed attempts: two events per attempt. The attempt-then-sleep order is in `AttemptEventsShape` |
| `ReservationProcess.AttemptEventsShape` | reservation_process.py:80-91 | Every completed attempt, the successful one included, is followed by one `reload_delay_t` sleep |
| `ReservationProcess.ReservationProcess` | reservation_process.py:24-95 | No attempt is made before the clock reaches the opening. There are at most `page_reload_n` attempts, all before the last being "not found". `registration_done` holds exactly when the last attempt clicked; an uncaught error ends the worker. When every attempt fails, exactly `page_reload_n` are made; the first success within the budget ends the loop there |
| `ReservationBot.Gate` | reservation_bot.py:36-67 | A gated handler runs exactly when the user is on the list and the bot is activated. An unlisted user is refused first; a listed user of an inactive bot is told to /start |
| `ReservationBot.DatetimeReply` | reservation_bot.py:152-169 | The datetime step goes on to the URL exactly on code 0, re-asks (DATETIME) exactly on a positive code, and propagates an exception from the check |
| `ReservationBot.DatetimeStepAdvancesIff` | reservation_bot.py:142-169 | The conversation reaches the URL step if and only if the datetime parses, is not past and is 300 s from every stored session. As written, an unparseable datetime makes the handler raise; with the corrected check the user would be asked again |
| `ReservationBot.DeleteArgument` | reservation_bot.py:296-307 | No argument asks for one; a non-integer first argument is refused; otherwise the first argument's integer value is the index |
| `ReservationBot.PrintSessions` | reservation_bot.py:271-283 | The listing is empty exactly when both files are; otherwise the rows are the pending sessions followed by the passed ones, in order |
| `ReservationBot.PrintedIndicesDeletable` | reservation_bot.py:273-309 | Of the row indices /printsessions shows, /deletesession accepts exactly those of pending rows and removes that very session; indices of passed rows are refused |
| `ReservationBot.LastLines` | reservation_bot.py:453 | `lines[-n:]` for positive `n`: the last `min(n, len)` lines |
| `ReservationBot.LogDump` | reservation_bot.py:427-457 | Each reply happens exactly in its case. An unopenable log is reported. The count is 10 without an argument, else the integer argument. A non-integer argument is refused, and a count `<= 0` dumps nothing. A readable non-empty log with a positive count always dumps its last `min(n, len)` lines; an empty log is reported as empty |
| `ReservationBot.LogDumpDefault` | reservation_bot.py:439-440 | Without an argument a non-empty log dumps its last ten lines |
| `ReservationBot.Bot.LogDumpCommand` | reservation_bot.py:423-494 | `@admin` and `@activated` wrap both log dumps: the caller is stopped exactly when they are not on the admin list (refused first) or the bot is inactive. Otherwise the reply is the log selection |
| `ReservationBot.Bot.constructor` | reservation_bot.py:17 | The bot starts activated with empty `user_data` |
| `ReservationBot.Bot.Start` | reservation_bot.py:73-92 | A listed user leaves the bot activated; an unlisted one changes nothing |
| `ReservationBot.Bot.AddSession` | reservation_bot.py:124-140 | The conversation is entered (state DATETIME) exactly for a listed user of an activated bot |
| `ReservationBot.Bot.AddSessionDatetime` | reservation_bot.py:142-169 | The reply follows check_new_datetime against the stored list, and `datetime-str` is stored exactly when the conversation moves on to the URL |
| `ReservationBot.Bot.AddSessionUrlLink` | reservation_bot.py:171-202 | An invalid URL re-asks and stores nothing. A valid one is stored as `url-str`; the confirmation step follows, or a KeyError if no datetime is stored |
| `ReservationBot.Bot.AddSessionProcess` | reservation_bot.py:204-229 | "No" clears `user_data` and ends. "Yes" adds the stored session through add_new_session; it raises on a missing key, a sort fault or a positive code, and otherwise ends with the file holding the sorted extended list. Any other answer ends with nothing changed |
| `ReservationBot.Bot.AddSessionCancel` | reservation_bot.py:231-242 | /cancel clears `user_data` and ends the conversation |
| `ReservationBot.Bot.AddSessionUnknown` | reservation_bot.py:244-259 | Any other command during the conversation clears `user_data` and ends it |
| `ReservationBot.Bot.DeleteSession` | reservation_bot.py:287-318 | Gate, then argument handling, then delete_session. The reply names the removed index only when delete_session returned 0; the file is changed only by an in-range index |
| `ReservationBot.Bot.DeleteAll` | reservation_bot.py:321-329 | For an allowed caller the file is truncated, unless opening it fails. The reply says all were deleted whatever the outcome |

## Left out

- File I/O is reduced to the `content` of a `SessionFile`. A missing file, which makes `open` raise, is not modelled. Nor is a concurrent writer or reader: the bot and the service share the pending file without locking.
- The JSON encoding itself is not modelled. A session is its three keys; `FileContent.NotJson` stands for any text that does not decode.
- `datetime.strptime` and `datetime.now()` are parameters. Datetimes are whole seconds; the source's float seconds and timedelta arithmetic are not modelled.
- The chat library is not modelled: message texts, Markdown tables, inline keyboards and the dispatcher's routing. `ConversationHandler.END` is the constant -1.
- The configuration commands (`/configset`, `/configreset`, `/configprintuser`, `/configprintdefault`), `/help`, `/about` and the unknown-message handlers only reply or edit the configuration file. They are not part of this model.
- `check_new_url` (the `validators` library) is a boolean parameter of `Bot.AddSessionUrlLink`.
- The signal handlers of the service and the worker are not modelled: process signals and `sys.exit`. As written, both refer to names that are not defined where they run.
- `get_configuration` and the configuration reload before each spawn are not modelled: `Config` and `WorkerConfig` are given values.
- The browser is not modelled: Selenium, the virtual display, the login form, the screenshot and `quit`. Each attempt of the worker is its `ClickOutcome`, and the clock is a finite sequence of readings.
- `ReservationProcess.ReservationProcess`: the worker's loops are bounded by the given readings. The unbounded `while True` polling is modelled up to the last reading supplied.
- `ReservationService.Service.Step`: the closing `time.sleep(update_delay_t)` and the loop around the cycle are not modelled. Each call is one cycle. The two `put_sessions_list` calls are modelled as succeeding, since lists read back from JSON always serialise.
- `ReservationService.Service.Step`: spawning a worker (`reservation_call`) is a `Spawn` event that carries the pid it is given. Starting the child process is not modelled.
- `ReservationBot.Bot.Start`: the help text it sends on activation is a reply only.
- Reading a log file is not modelled. `ReservationBot.LogDump` takes the log as a list of lines, or `None` when it cannot be opened.

## Findings

| source | as written | input that shows it | evidently intended | confidence | as-written member | corrected member |
|---|---|---|---|---|---|---|
| reservation_service.py:128-129 | `sessions_passed_list[:-max_passed_n]` keeps all but the newest `max_passed_n` entries | an archive of five sessions with `max_passed_n = 3` keeps the two oldest | keep the newest `max_passed_n` entries (`[-max_passed_n:]`) | high; not executed | `ReservationService.TrimKeepsOldest` | `ReservationService.TrimNewestKeepsMostRecent` |
| check_new_session.py:27 | the format-error branch assigns the undefined name `CHECK_SESS_ERR_BAD_FORMAT` (the constant is `CHECK_SESS_DATE_ERR_BAD_FORMAT`), so NameError escapes | the datetime text `tomorrow` | return code 1 with the bad-format message | high; not executed | `CheckNewSession.UnparseableDateFaults` | `CheckNewSession.FixedCheckReportsBadFormat` |

`Service.Step` and `Bot.AddSessionDatetime` keep the behaviour as written. For the archive, `TrimDropsNewestExample` sets the written trim against `TrimArchiveNewest`. For the datetime check, `DatetimeStepAdvancesIff` shows what each definition does to the conversation.
