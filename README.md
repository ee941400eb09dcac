# pgauditlogtofile in Dafny

A model of `logtofile.c`, the part of pgauditlogtofile that takes pgaudit's
events away from the PostgreSQL server log and writes them to rotating audit
files of their own. The model covers four parts:

- **Rotation clock and filename** (`rotation.dfy`, module `RotationClock`).
  - The next rotation time is the next local boundary of the rotation interval.
  - C's truncating `%` is written out explicitly (`CRemainder`).
  - The window start is one interval before the next rotation.
  - The filename is `directory + "/" + render(pattern, windowStart)`.
  - `render` stands in for `pg_strftime`/`pg_localtime`. The UTC offset is an input.
- **Interception** (`interception.dfy`, module `Interception`).
  - The prefix tables and their lengths.
  - The `is_prefixed` loops, which compare case-insensitively like `pg_strncasecmp`.
  - How `emit_log` chooses `exclude_nchars`.
- **Record formatter** (`audit_line.dfy`, module `AuditLine`).
  - The 22 positional fields, appended one by one with their commas.
  - The per-process line counter, which restarts when the pid changes.
  - The millisecond paste into the fixed 128-byte timestamp buffer, modelled as an `array<char>`.
  - The split round trip: a reader who cuts a line at commas gets the fields back when no value holds a comma.
- **Coordinator** (`log_to_file.dfy`, module `LogToFile`).
  - The force-rotation flag in shared memory (class `RotationFlag`).
  - The process-local globals (class `AuditLogToFile`): the settings, the schedule, the derived filename, the name of the open file and the "file open" state.
  - `request_rotation`, the three-way `needs_rotate_file`, and open, close and write.
  - `record_audit` and `emit_log`.
  - The outcomes of `fopen` and `fwrite` are method parameters: `succeeds`, and `capacity`, the number of bytes `fwrite` manages to write.
  - Each `fwrite` is recorded in the ghost history `appends`.

Helpers for C strings and `printf` conversions (`text.dfy`, module `Text`):
- the text up to the first NUL;
- ASCII case folding;
- the `pg_strncasecmp` prefix test;
- `%d`, `%x`, `%u`, `%03d`, and the reinterpretation of an `int` as unsigned.

`wrappers.dfy` holds `Option`.

Where the code and its own comments disagree, the model follows the code:
- **`filename` and `filename_in_use` are per-process statics** (logtofile.c:90-91). The comments at logtofile.c:381-382 ("the global name") and 440 treat `filename` as shared.
  - The third check of `needs_rotate_file` compares two names owned by the same process.
  - That check only fires when this process's own file is not open under the derived name.
  - A forced rotation is consumed by the first worker that checks (`LogToFile.ForcedRotationReachesOneWorker`).
  - A worker that checks later keeps its file until its schedule is due, unless it requests a rotation itself. All three settings are reloaded on SIGHUP (logtofile.c:184, 191, 197), so each backend's own reload runs the assign hook and requests the rotation again.
  - That own request makes the second worker rotate only when it comes after the first worker consumed the earlier force (`LogToFile.ReloadReachesSecondWorker`). A request made while the flag is still set adds nothing (logtofile.c:137): when both workers reload before either checks, only the first to check rotates (`LogToFile.InterleavedReloadsReachOneWorker`).
- **A force consumed once the schedule is due keeps the schedule.** The filename is then derived for the window that ended at the schedule, not for the one holding `now`. That one record goes to the file of the window that has passed, and the next record rotates again (`LogToFile.ForcedAfterBoundaryWritesPastWindow`).
- **On a failed record, `emit_log` sets `output_to_server` to true** (logtofile.c:280-283). It does not restore an earlier value (`LogToFile.AuditLogToFile.EmitLog`).
- **The location field is not always one field.** Under verbose errors, when the event names a function, the field reads `func, file:line` and carries a comma of its own. A reader then sees more than 22 parts (`AuditLine.LocationField`).
- **The message is not escaped either** (`AuditLine.UnescapedCommaInMessage`).
- **A new rotation age keeps the old schedule.** The assign hook only requests a rotation. The forced rotation then names the window that ends at the old boundary and is one new interval long (`RotationClock.AgeChangeKeepsOldBoundary`).
- **Local times before the epoch overshoot.** There, C's `%` rounds toward zero, and the next rotation can be more than one interval after `now` (`RotationClock.BeforeEpochRotationOvershoots`).

## Model

| member | source | states |
|---|---|---|
| `Text.CStr` | logtofile.c:573-574 | the text appended is the longest NUL-free prefix, followed by a NUL when shorter than the buffer |
| `Text.CStrOfTerminated` | logtofile.c:529 | a NUL-free text followed by its NUL reads back as exactly that text, whatever follows |
| `Text.ToLowerAscii` | logtofile.c:269 | folding changes exactly the letters A-Z, each to its lower-case letter, and never makes or removes a NUL |
| `Text.CaseEqualPrefix` | logtofile.c:269 | a successful `pg_strncasecmp(s1, s2, n)` means the two strings agree up to ASCII case on each of the first `n` positions both have before `s1` ends |
| `Text.CaseEqualPrefixMeans` | logtofile.c:351-356 | `pg_strncasecmp(s, prefix, n) == 0` for a NUL-free prefix holds iff `s` has at least `n` characters and they fold equal to the prefix's |
| `Text.NatToString` | logtofile.c:543 | at least one character, all digits of the base, with no leading zero unless the number is 0 |
| `Text.NatToStringRoundTrip` | logtofile.c:557 | digits written in any base from 2 to 16 read back in that base as the number written |
| `Text.Decimal` | logtofile.c:561 | `%d`/`%ld` output holds no comma, newline or NUL |
| `Text.DecimalRoundTrip` | logtofile.c:561 | the number `%d`/`%ld` writes reads back as itself, negative numbers included |
| `Text.Hex` | logtofile.c:557 | `%x`/`%lx` output holds no comma, dot or newline, and reads back in base 16 as the value printed |
| `Text.Unsigned32` | logtofile.c:587 | `%u` of a 32-bit value: the residue modulo 2^32, the value itself when already in range |
| `Text.Unsigned64` | logtofile.c:557 | `%lx` of a long: the residue modulo 2^64, the value itself when already in range |
| `Text.ThreeDigits` | logtofile.c:695 | `%03d` below 1000 is exactly three decimal digits that read back as the value |
| `RotationClock.ZeroRotationAgeAcceptedAsWritten` | logtofile.c:194-200 | the setting's declared range admits 0 minutes, an interval of 0 seconds; the corrected range does not |
| `RotationClock.AcceptedRotationAgeIsUsable` | logtofile.c:194-200 | every rotation age the corrected range admits gives an interval in seconds between 1 and INT_MAX; the default of one day is admitted |
| `RotationClock.CRemainder` | logtofile.c:402 | C's `%` for a positive divisor: strictly inside (-b, b), Euclidean for non-negative operands, non-positive for negative ones, and `a - r` a multiple of `b` |
| `RotationClock.DivisionUnique` | logtofile.c:402 | quotient and remainder are determined by `x == b*q + r` with `0 <= r < b` |
| `RotationClock.NextRotationTime` | logtofile.c:393-407 | the next rotation is strictly after `now`, lies on a local interval boundary, and is at most one interval away when the local time is not before the epoch |
| `RotationClock.NextRotationIsFirstBoundary` | logtofile.c:401-404 | from the epoch on, no local boundary after `now` comes before the computed next rotation |
| `RotationClock.SameWindowSameRotation` | logtofile.c:393-407 | from the epoch on, two instants in the same local window get the same next rotation |
| `RotationClock.NextRotationMonotone` | logtofile.c:393-407 | from the epoch on, a later `now` never gives an earlier next rotation |
| `RotationClock.BeforeEpochRotationOvershoots` | logtofile.c:402-404 | with truncating `%`, five seconds before the epoch and a 10 s interval give a next rotation 15 s later |
| `RotationClock.WindowContainsNow` | logtofile.c:457-461 | from the epoch on, the filename's window, one interval before the next rotation, holds `now`, starts on a local boundary, and is the floor of local `now` to the interval |
| `RotationClock.HourlyRotationAtQuarterPast` | logtofile.c:393-407 | an hourly schedule at 10:15 rotates at 11:00, and the current file is for the 10:00 window |
| `RotationClock.AgeChangeKeepsOldBoundary` | logtofile.c:173-175 | after a switch from 60 to 30 minutes at 10:15, the forced rotation names the 10:30 window, which is still in the future |
| `RotationClock.AuditFilename` | logtofile.c:457-471 | the path is as long as the directory, the slash and the rendered pattern together |
| `RotationClock.AuditFilenameParts` | logtofile.c:464-470 | the path begins with the directory and a slash, and the rest is the pattern rendered at the window start |
| `RotationClock.WorkersConvergeOnFilename` | logtofile.c:457-471 | from the epoch on, two workers with the same settings and time zone that compute their schedule in the same local window derive byte-identical filenames |
| `Interception.TablesAgree` | logtofile.c:50-73 | each length table has one entry per prefix, equal to that prefix's length; no prefix holds a NUL; the audit prefix is 7 characters long |
| `Interception.ConnPrefixAgrees` | logtofile.c:50-62 | the i-th connection prefix has the length listed for it and no NUL |
| `Interception.IsPrefixed` | logtofile.c:346-360 | the two guarded loops find a match iff an enabled table has an entry the message starts with, ignoring case |
| `Interception.ExcludeChars` | logtofile.c:268-277 | the audit prefix, in any case, gives 7; otherwise an enabled connection or disconnection prefix gives 0; otherwise nothing is intercepted; the count never exceeds the message length |
| `Interception.ChooseExcludeChars` | logtofile.c:268-277 | the branches of `emit_log` give exactly the decision `ExcludeChars` describes, with -1 for no interception |
| `Interception.AuditPrefixIgnoresCase` | logtofile.c:268-271 | 7 is chosen iff the message has at least 7 characters that fold equal to "AUDIT: " |
| `Interception.TogglesOffOnlyAudit` | logtofile.c:346-360 | with both toggles off, only the audit prefix is intercepted |
| `Interception.LowerCaseAuditIntercepted` | logtofile.c:268-271 | "audit: x" is intercepted with 7 characters left out |
| `Interception.ConnectionReceivedIntercepted` | logtofile.c:346-360 | a received-connection message is intercepted whole with connection logging on, and left alone with it off |
| `AuditLine.MillisText` | logtofile.c:695 | `.%03d` of the milliseconds: a dot and three decimal digits that read back as `usec / 1000` |
| `AuditLine.PasteMillis` | logtofile.c:694-696 | the pasted timestamp keeps its length and every character outside positions 19-22, which now hold three decimal digits after the dot that read back as the milliseconds |
| `AuditLine.Split` | logtofile.c:529-659 | cutting text at commas always yields at least one part |
| `AuditLine.OccurrencesAppend` | logtofile.c:529-659 | the commas of two pieces add up when the pieces are appended |
| `AuditLine.SeparatorsInTerminated` | logtofile.c:529-659 | fields appended each with its comma hold one comma per field plus those inside the values |
| `AuditLine.SeparatorsInLine` | logtofile.c:529-659 | a line of n fields holds n - 1 commas of its own besides those inside the values, and ends in the newline |
| `AuditLine.SplitCount` | logtofile.c:529-659 | cutting at commas gives one part more than there are commas |
| `AuditLine.SplitWithoutSeparator` | logtofile.c:529-659 | a comma-free value is one part |
| `AuditLine.SplitAfterField` | logtofile.c:529-659 | a comma-free value followed by a comma splits off as the first part |
| `AuditLine.TerminatedCons` | logtofile.c:529-659 | appending fields with commas from the front is the same as appending them from the back |
| `AuditLine.SplitJoined` | logtofile.c:529-659 | splitting joined comma-free fields at commas gives back exactly those fields |
| `AuditLine.UserField` | logtofile.c:532-535 | the user field holds no comma when the user name holds none |
| `AuditLine.DatabaseField` | logtofile.c:537-540 | the database field holds no comma when the database name holds none |
| `AuditLine.RemoteField` | logtofile.c:546-554 | host and optional `:port` hold no comma when neither does |
| `AuditLine.SessionIdField` | logtofile.c:556-558 | the session id `%lx.%x` never holds a comma |
| `AuditLine.PsDisplayField` | logtofile.c:564-578 | the ps display field holds no comma when the display holds none |
| `AuditLine.VirtualXidField` | logtofile.c:584-588 | the `%d/%u` virtual xid never holds a comma |
| `AuditLine.DetailField` | logtofile.c:602-607 | the detail-for-log, else the detail, holds no comma when neither does |
| `AuditLine.InternalPosField` | logtofile.c:619-622 | the internal position never holds a comma |
| `AuditLine.StatementField` | logtofile.c:629-634 | the statement field holds no comma when the statement holds none |
| `AuditLine.CursorPosField` | logtofile.c:635-637 | the cursor position never holds a comma |
| `AuditLine.LocationField` | logtofile.c:639-653 | without a function name and with a comma-free file name the location holds no comma; with a function name under verbose errors it holds at least one |
| `AuditLine.AuditFields` | logtofile.c:529-657 | 22 fields; the message field is the message without its first `exclude` characters, unescaped; the line-number field reads back as the counter |
| `AuditLine.ProcessFields` | logtofile.c:527-592 | eleven fields, the line number among them reading back as the counter |
| `AuditLine.EventFields` | logtofile.c:594-657 | eleven fields, the second of them the message without its first `exclude` characters |
| `AuditLine.RecordSplitsIntoFields` | logtofile.c:529-659 | when no copied text holds a comma, a reader splitting a record's line, without its final newline, at commas gets back exactly its 22 fields, however many are empty |
| `AuditLine.ProcessFieldsSeparatorFree` | logtofile.c:527-592 | under the same conditions no process field holds a comma |
| `AuditLine.EventFieldsSeparatorFree` | logtofile.c:594-657 | under the same conditions no event field holds a comma |
| `AuditLine.UnescapedCommaInMessage` | logtofile.c:598-600 | a comma in the message makes the line split into more than 22 parts, one extra part per comma inside the values |
| `AuditLine.OccursWhenIn` | logtofile.c:599 | a character present in a text is counted at least once |
| `AuditLine.SeparatorsAtLeast` | logtofile.c:529-659 | the commas inside all values are at least the commas inside any one value |
| `AuditLine.AppendField` | logtofile.c:529-530 | appending a value and its comma to a buffer holding the first k fields gives the first k + 1 |
| `AuditLine.AppendClientFields` | logtofile.c:527-554 | the C conditionals append exactly the first five fields, each with its comma |
| `AuditLine.AppendSessionFields` | logtofile.c:556-592 | continuing, they append exactly fields six to eleven |
| `AuditLine.AppendMessageFields` | logtofile.c:594-617 | continuing, they append exactly fields twelve to sixteen |
| `AuditLine.AppendContextFields` | logtofile.c:619-653 | continuing, they append exactly fields seventeen to twenty-one |
| `AuditLine.LineFormatter.constructor` | logtofile.c:507-511 | a process starts with counter and pid zero and a zeroed timestamp buffer of 128 bytes |
| `AuditLine.LineFormatter.FormatLogTime` | logtofile.c:678-697 | the buffer holds the rendering with the milliseconds pasted over positions 19-22, then a NUL, so reading it as C text gives the pasted timestamp; the bytes after the NUL are left as they were |
| `AuditLine.LineFormatter.CreateAuditLine` | logtofile.c:504-660 | on a pid change the counter restarts so the line number is 1 and the start time is re-rendered; otherwise it grows by exactly 1; the result is the 22 fields joined by commas, then the newline |
| `LogToFile.RequestRotationAsWritten` | logtofile.c:132-142 | the code as written faults exactly when a segment is mapped but the extension's struct is not, and returns early exactly when no segment is mapped |
| `LogToFile.LoadedLibraryAssignDereferencesNull` | logtofile.c:132-142 | in a process that loaded the library by LOAD, the request reads through the NULL address of the struct |
| `LogToFile.RequestRotationGuarded` | logtofile.c:132-142 | the request guarded on the struct never faults, and sets the flag exactly when the struct is attached |
| `LogToFile.GuardedRequestAgreesWhereDefined` | logtofile.c:132-142 | the guarded request does what the code does wherever the code does not fault, and does nothing where it faults |
| `LogToFile.Written` | logtofile.c:484-499 | `fwrite`'s count is at most the line and at most what fits, and is the whole line iff the line fits |
| `LogToFile.RotationFlag.constructor` | logtofile.c:246-250 | the struct's first initialisation clears the flag |
| `LogToFile.AuditLogToFile.Interval` | logtofile.c:396-397 | the interval in seconds is positive and fits an int |
| `LogToFile.AuditLogToFile.constructor` | logtofile.c:236-258 | with the struct attached, the schedule is the next rotation after `now` and the filename is derived for its window; otherwise both keep their zero values; no file is open |
| `LogToFile.AuditLogToFile.RequestRotation` | logtofile.c:132-142 | with the struct attached the flag is set, so a second call changes nothing; otherwise nothing changes; no other state is touched |
| `LogToFile.AuditLogToFile.SetDirectory` | logtofile.c:147-149 | the new directory takes effect and a rotation is requested; schedule, filename and file are untouched |
| `LogToFile.AuditLogToFile.SetFilename` | logtofile.c:154-156 | the new pattern takes effect and a rotation is requested; schedule, filename and file are untouched |
| `LogToFile.AuditLogToFile.SetRotationAge` | logtofile.c:173-175 | the new age takes effect and a rotation is requested; the schedule is not recomputed |
| `LogToFile.AuditLogToFile.CalculateNextRotationTime` | logtofile.c:393-407 | the schedule becomes the next local boundary after `now`, at most one interval away from the epoch on, and nothing else changes |
| `LogToFile.AuditLogToFile.CalculateFilename` | logtofile.c:457-471 | the filename becomes the directory, a slash and the pattern rendered at the window start, and nothing else changes |
| `LogToFile.AuditLogToFile.NeedsRotateFile` | logtofile.c:365-388 | the answer is forced, else due, else renamed, in that order; a force is consumed without touching the schedule; a due schedule is advanced past `now`; otherwise nothing changes; an open file that is not forced and not due is never rotated |
| `LogToFile.AuditLogToFile.CloseFile` | logtofile.c:326-331 | afterwards no file is open and nothing else changes |
| `LogToFile.AuditLogToFile.OpenFile` | logtofile.c:412-452 | a successful open makes the derived filename the one in use; a failed one leaves no file open and the name in use unchanged |
| `LogToFile.AuditLogToFile.WriteAudit` | logtofile.c:476-499 | the formatted line, or as much of it as fits, is appended to the file in use; success means the whole line was written; the session start time is re-rendered on a pid change and kept otherwise |
| `LogToFile.AuditLogToFile.RotateIfNeeded` | logtofile.c:307-311 | a rotation decision re-derives the filename for the window ending at the schedule and closes the file; a force keeps the schedule, a due schedule moves to the next boundary, whose window then holds `now` from the epoch on; no rotation changes nothing |
| `LogToFile.AuditLogToFile.OpenAndWrite` | logtofile.c:313-320 | a file stays open, or is opened only when none is; a failed open returns false with no write and leaves the name in use, the pid, the line counter and the session start time alone; otherwise one write of the formatted line goes to the derived filename, the counter restarts at 1 with the start time re-rendered on a pid change and otherwise grows by 1 with the start time kept, and success means the whole line was written |
| `LogToFile.AuditLogToFile.RecordAudit` | logtofile.c:306-321 | the new state is related to the old by the record relation: the rotation decision is that of `needs_rotate_file` on the old state; a rotation re-derives the filename for the window ending at the schedule; the schedule is kept when forced, advanced to the next boundary when due and kept otherwise; a file is open afterwards iff one stayed open without rotation or the open succeeded; with no file open nothing is written and the name in use, pid, counter and start time are unchanged; with one open, one write of the formatted line goes to the derived filename, pid, counter and start time follow the pid rule, and success means the whole line was written |
| `LogToFile.AuditLogToFile.IsEnabled` | logtofile.c:293-301 | an enabled process has the struct attached, so its rotation requests set the flag even through the request as written |
| `LogToFile.AuditLogToFile.EmitLog` | logtofile.c:264-288 | only `output_to_server` of the event changes; a disabled extension or an unmatched message leaves the event and the whole process and shared state alone; an intercepted event, with its prefix left out, moves the state by the same record relation as `record_audit` (rotation, filename, schedule, open file, write, pid, counter and start time), and is handed back to the server log exactly when it was not recorded, that is when no file is open afterwards or the line did not fit |
| `LogToFile.ForcedRotationReachesOneWorker` | logtofile.c:365-388 | of two workers on the same struct, the first to check consumes the force; the second, with its file open and its schedule not due, keeps its file |
| `LogToFile.ReloadReachesSecondWorker` | logtofile.c:146-149 | when the second worker reloads the directory setting as well, its own request makes it rotate after the first consumed the earlier force |
| `LogToFile.InterleavedReloadsReachOneWorker` | logtofile.c:132-142 | when two workers both reload the directory setting before either checks, the second request finds the flag set and adds nothing: the first to check rotates, and the second, with its file open and its schedule not due, keeps its file and its filename |
| `LogToFile.ForcedAfterBoundaryWritesPastWindow` | logtofile.c:365-371 | a force consumed once the schedule is due keeps the schedule, and the record goes to the file of a window that ended at or before `now` |

## Left out

- The file system: `MakePGDirectory`/`mkdir`, `umask`, `fopen`, `setvbuf`, `fseek`, `fflush` and `fclose`. The open outcome and the byte count `fwrite` manages are parameters. The written bytes are kept as a ghost history rather than as file contents.
- The LWLocks, `RequestAddinShmemSpace`, `ShmemInitStruct` and its `found` result. Every call runs alone. The struct's first initialisation is `RotationFlag`'s constructor. A process's shmem_startup is `AuditLogToFile`'s constructor for an attached process.
- Concurrency between workers, beyond the two-worker scenarios in `ForcedRotationReachesOneWorker`, `ReloadReachesSecondWorker` and `InterleavedReloadsReachOneWorker`.
- `pg_localtime`, `pg_strftime` and `gettimeofday`. The offset from UTC is the function `utcOffset`, and the pattern rendering is the function `render`. The log-time rendering is the `text` input of `Clock`, whose length is in [23, 128). The session start rendering (logtofile.c:665-673) is the backend's `startTimeText`.
- `needs_rotate_file` and `calculate_next_rotation_time` each read the clock separately. Here both read the same `now`.
- `_PG_init`, `_PG_fini` and the hook chaining, including the call of `prev_emit_log_hook`; `ereport` warnings; `canonicalize_path` in the directory check hook.
- GUC strings that are NULL. They are modelled as empty strings, which `is_enabled` treats the same way.
- NUL bytes inside the host's strings. The settings, the message and the other copied texts are taken to be NUL-free, as C strings are, so `appendStringInfoString` copies each of them whole.
- The MAXPGPATH truncation of the filename by `snprintf`/`pg_strftime`, and the bound of 128 on the formatted timestamps beyond the log time's own length.
- Overflow of `pg_time_t` and of `log_line_number`, which are 64-bit in C and unbounded here.
- Case folding of characters outside ASCII by `pg_strncasecmp`.
- The host values `MyProcPort`, `get_ps_display`, `GetTopTransactionIdIfAny`, `unpack_sql_state`, `debug_query_string` and `application_name`. They are the inputs `Backend` and `ErrorData`.
- `RotationClock.NextRotationTime`: the bound "at most one interval ahead" is stated only when local time is not before the epoch. Before the epoch, C's truncating `%` makes the bound false (`BeforeEpochRotationOvershoots`).
- `RotationClock.SameWindowSameRotation`: stated only from the epoch on. Before it, truncating `%` splits a Euclidean window: -600 and -5 with a 600 s interval share one, yet rotate at 0 and 600.
- `RotationClock.WindowContainsNow`: stated only from the epoch on. Before it the window can start after `now`: at -5 with a 600 s interval the next rotation is 600, so the window starts at 0.
- `RotationClock.WorkersConvergeOnFilename`: stated only from the epoch on, for the same reason as `SameWindowSameRotation`.
- `AuditLine.RecordSplitsIntoFields`: the 22-field round trip is stated only when no copied value holds a comma and the location does not name a function. The code escapes nothing, so no stronger statement holds.

## Findings

| source | as written | input that shows it | evidently intended | confidence | as-written member | corrected member |
|---|---|---|---|---|---|---|
| logtofile.c:194-200 | pgaudit.log_rotation_age accepts 0 minutes | log_rotation_age = 0: rotinterval is 0 and `now % rotinterval` at logtofile.c:402 divides by zero on the first schedule computation | a minimum of 1 minute, so the interval is always positive | high, not executed | `RotationClock.ZeroRotationAgeAcceptedAsWritten` | `RotationClock.AcceptedRotationAgeIsUsable` |
| logtofile.c:132-142 | the early return tests `UsedShmemSegAddr`, then `pgaudit_log_shm` is dereferenced | the library brought in by LOAD in a running backend: the segment is mapped, the struct was never looked up, and the assign hook runs while `_PG_init` defines the settings | return when `pgaudit_log_shm` is NULL | medium, not executed | `LogToFile.LoadedLibraryAssignDereferencesNull` | `LogToFile.RequestRotationGuarded` |
