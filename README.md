# Time-logging session core, modelled in Dafny

This project models the session core of the TLCS time logger (`Session.cs`). A user types a command line. `Validate` stores the argument vector and hands its first word to `CallCommand`. `CallCommand` upper-cases the word and walks the callback table that `InitCommands` built from the `CommandList` enumeration. It triggers every callback whose command name occurs anywhere in the word. The handlers do the following:

- they punch the user in and out (IN, REST, RESUME, OUT, END);
- they keep two stopwatches, one for the session and one cumulative;
- they log entries;
- behind the "system events" switch (SYSLIS), they open and close processes and maintain an alias store in the registry (OPEN, CLOSE, HOTKEY, NEWALI, GENALIKEY);
- they report stored duration metrics (GETHRS, GETMINS, GETSECS).

The model has three layers.

- **Values and pure functions.** These are the following modules:
  - `Text`: upper-casing, substring search, splitting, and parsing of `bool` and `Int32`;
  - `Stopwatch`;
  - `TimeSpan`: tick totals and the `hh\:mm\:ss\.mm` rendering;
  - `Commands`: the enumeration, the callback table, and the set and order of handlers a word fires;
  - `Aliases`: the registry values;
  - `Handlers`: one function per handler, from the session value before the handler to the session value after it, plus the exception that escaped, if any.
- **The session object.** `SessionClass.Session` is a class whose fields are the static fields of `Session.cs`.
  - The metric arrays, the callback table and the stored argument vector are arrays, written in place as the source writes them.
  - Every handler, `CallCommand`'s loop, `InitCommands`' loop, the launch loop of `OpenProcess` and the loop of `CloseProcess` are methods.
  - Each method is proved to produce exactly the session value, and raise exactly the exception, that the `Handlers` function of the same name describes.
- **Properties.** `Properties` proves scenario-level facts about the pure layer:
  - which handlers a word fires;
  - a full working day, and the hours GETHRS reports after it;
  - the system-events gate;
  - the alias store;
  - the launch sequence of OPEN and the release calls of CLOSE.

An exception is modelled as a result `Outcome(state, fault)`, and the state it carries is the one at the throw. A fault stops `CallCommand`'s loop as the exception does in the source. The outside world is passed in as parameters in an `Env` value:

- the clock reading;
- the raw command string (`_commandString`);
- the administrator check;
- whether the existing alias key may be opened for writing by this user;
- the set of targets on which `Process.Start` fails (the empty target always does);
- the process snapshot that `Process.GetProcesses` returns.

In several places the code does something other than what its names, comments or log messages lead one to expect. The model follows the code:

- **END.** One would expect END to make the user INACTIVE, as OUT does. The code only clears `_inSession` and logs (`Session.cs:346-351`). Also, `InitCommands` never registers END (`Session.cs:479-488`), so no command reaches it (`Commands.Fired`, `Properties.EndFiresNothing`).
- **Launches.** One would expect the `|`-separated targets of an alias to be launched independently. In the code one `try` surrounds the whole loop, so the first failing target ends the launch and later targets are not tried (`Session.cs:357-394`, `Properties.FirstFailureStopsLaunch`).
- **Cumulative timer.** One would expect the cumulative stopwatch to keep counting across punches. IN replaces it with `Stopwatch.StartNew()` (`Session.cs:135`), so every IN restarts it from zero (`Handlers.LoginCommand`).
- **Duration queries.** The selector code suggests that an argument of 1 picks the session metric. The selector is read while it still holds 0 (`Session.cs:294-295`), so the cumulative metric is always reported (`Handlers.GetRuntimeCommand`, `Properties.HoursQueryIgnoresArgument`).
- **Keyword matching.** Matching is by substring, so GETMINS and PRINT also fire IN (`Properties.GetMinutesAlsoPunchesIn`, `Properties.PrintAlsoPunchesIn`).

## Model

| member | source | states |
|---|---|---|
| Text.UpperChar | Session.cs:445 | an ASCII lower-case letter becomes its upper-case letter; every other character is unchanged; the result is never lower-case |
| Text.ToUpper | Session.cs:445 | same length as the input, and every character upper-cased on its own |
| Text.ToUpperIdempotent | Session.cs:445 | upper-casing an upper-cased word changes nothing |
| Text.ContainsIsSubstring | Session.cs:445 | the search that String.Contains performs succeeds exactly when the needle is a contiguous slice of the word |
| Text.Split | Session.cs:125 | String.Split(char) returns one more part than there are separators, and no part holds the separator |
| Text.SplitJoinsBack | Session.cs:372 | joining the parts of a split with the separator gives back the original string |
| Text.SplitJoin | Session.cs:372 | splitting a join of separator-free parts gives back exactly those parts |
| Text.SplitWithoutSeparator | Session.cs:369-389 | a string without the separator splits into itself alone, so the single-target branch of OpenProcess is the one-part case of the split branch |
| Text.TrimStart | Session.cs:211 | the result is a suffix of the input, everything dropped in front of it is padding, and it does not start with padding |
| Text.TrimEnd | Session.cs:211 | the result is a prefix of the input, everything dropped after it is padding, and it does not end with padding |
| Text.ParseBool | Session.cs:211 | bool.Parse gives true exactly when the trimmed, upper-cased text is TRUE, false exactly when it is FALSE, and a format error otherwise |
| Text.ParseBoolText | Session.cs:211 | bool.Parse reads back "True" and "False" |
| Text.NatText | Session.cs:204 | the decimal rendering of a number is a non-empty string of digits |
| Text.DigitsValueNatText | Session.cs:204 | reading the digits of that rendering gives the number back |
| Text.ParseDigits | Session.cs:204 | a digit string parses exactly when it is non-empty and all digits |
| Text.ParseInt32 | Session.cs:204 | Convert.ToInt32 yields only Int32 values; what it accepts and rejects is stated by Text.Int32TextPadded, Text.PlusTextParses and Text.ParseInt32Rejects |
| Text.Int32TextParses | Session.cs:204 | every Int32 value, rendered in decimal, parses back to itself |
| Text.Int32TextPadded | Session.cs:204 | every Int32 rendering, with any white space on either side and any NULs after it, parses back to itself |
| Text.PlusTextParses | Session.cs:204 | a leading '+' is accepted: "+" followed by the digits of any value up to Int32.MaxValue parses to that value |
| Text.ParseInt32Rejects | Session.cs:204 | a string holding any character other than white space, a digit, a sign or NUL is a format error |
| Stopwatch.Elapsed | Session.cs:494 | elapsed time is at least what earlier runs banked, and exactly that while the watch is stopped |
| Stopwatch.StartNew | Session.cs:134-135 | a new watch runs, and at any later reading shows the time since it was made |
| Stopwatch.Start | Session.cs:156 | the watch runs, and at any later reading shows what it showed at the start plus the time since |
| Stopwatch.Stop | Session.cs:145-146 | the watch stops, and at any later reading shows what it showed at the stop |
| Stopwatch.Restart | Session.cs:155 | the watch runs from zero: at any later reading it shows the time since the restart |
| Stopwatch.ElapsedMonotone | Session.cs:494 | elapsed time never goes down while the clock goes forward |
| Stopwatch.PauseExcludesGap | Session.cs:145-156 | a stop followed by a start leaves out exactly the pause |
| Stopwatch.ElapsedAfter | Session.cs:494 | a later reading adds the time in between on a running watch, and nothing on a stopped one |
| TimeSpan.Totals | Session.cs:495-497 | TotalHours, TotalMinutes and TotalSeconds as exact fractions: the seconds slot times the ticks per second is the span, each larger unit is sixty of the next smaller one, and the hours times the ticks per hour are the span |
| TimeSpan.MetricsShowTotals | Session.cs:495-497 | a metric array that shows a span is exactly that span's totals |
| TimeSpan.TotalsWholeUnits | Session.cs:495-497 | the whole seconds and the whole hours of a span are the integer parts of its totals |
| TimeSpan.Components | Session.cs:499 | hours, minutes and seconds are in range and name the second of the day the span has reached |
| TimeSpan.Recompose | Session.cs:499 | hours, minutes and seconds rebuild the second of the day |
| TimeSpan.SecondsInjective | Session.cs:499 | two in-range clock readings with the same second of the day are equal |
| TimeSpan.TwoDigits | Session.cs:499 | a number below 100 rendered as two digits that read back as the number |
| TimeSpan.Format | Session.cs:97 | the rendering is hh:mm:ss.mm, eleven characters; the trailing field repeats the minutes, because the custom specifier after the dot is mm again |
| TimeSpan.FormatReadsBack | Session.cs:97 | the rendering holds exactly the span's hours, minutes and seconds |
| TimeSpan.FormatIgnoresDays | Session.cs:97 | spans a whole day apart render the same, because hh shows no days |
| TimeSpan.ComponentsIgnoreDays | Session.cs:97 | spans a whole day apart have the same components |
| Commands.Ordinal | Session.cs:407-429 | every enumeration member has a value below the member count |
| Commands.FromOrdinal | Session.cs:407-429 | the cast from int to CommandList is the inverse of the member's value |
| Commands.Name | Session.cs:487 | ToString of a member is a non-empty upper-case name |
| Commands.WrittenFor | Session.cs:121-351 | every handler of CommandMethodList is written for a member other than NULL |
| Commands.HandlerListAligned | Session.cs:121-351 | CommandMethodList has one handler per member after NULL, and handler i is written for member i + 1 |
| Commands.PositionIsSlot | Session.cs:121-351 | the handler at position i of CommandMethodList sits in table slot i + 1 |
| Commands.HandlerSlots | Session.cs:121-351 | every handler has exactly one position in CommandMethodList |
| Commands.Table | Session.cs:479-488 | the table has one slot fewer than the enumeration; slot 0 is empty; slot i holds the name of member i with the handler whose slot is i; END's handler is in no slot |
| Commands.InitCommands | Session.cs:477-490 | the loop fills a new array with exactly the table |
| Commands.TableRegistered | Session.cs:479-488 | every filled slot holds its own handler under the name of the member that handler was written for |
| Commands.FiredFrom | Session.cs:443-449 | the loop from a given slot can fire at most one handler per remaining slot |
| Commands.FiredFromMembers | Session.cs:443-449 | from a given slot on, a handler fires exactly when its slot is reached and its command name occurs in the word |
| Commands.FiredFromOrdered | Session.cs:443-449 | the handlers fire in strictly increasing slot order |
| Commands.Fired | Session.cs:441-450 | the handlers a word fires are exactly those, other than END, whose command name occurs in the upper-cased word, in enumeration order |
| Commands.SlotOrderedUnique | Session.cs:443-449 | the set of fired handlers determines their order: two slot-ordered sequences with the same members are equal |
| Commands.FiredExactly | Session.cs:441-450 | any slot-ordered sequence with exactly the fired handlers is what a word fires |
| Commands.EndIsLast | Session.cs:479-488 | END has the last slot, the one the loop never reaches |
| Aliases.ValueOf | Session.cs:531 | a value RegistryKey.GetValue finds is the value of an entry whose name equals the query up to ASCII case |
| Aliases.ValueOfMissing | Session.cs:531 | RegistryKey.GetValue finds nothing exactly when no entry's name equals the query up to ASCII case |
| Aliases.GetAliasProcessString | Session.cs:524-536 | resolution returns the value of the first name that contains the query, and the empty string when no name does |
| Aliases.SetValue | Session.cs:253 | a name already present in any case keeps its place and its stored spelling, so the key keeps its length and its names; a name not present is added at the end with the new value |
| Aliases.SetValueLookup | Session.cs:253 | after SetValue every spelling of the name that differs only in case finds the new value, and every other name finds what it found before |
| Aliases.SetValueKeepsNamesUnique | Session.cs:253 | SetValue keeps the value names of the key unique up to case |
| Handlers.NewSession | Session.cs:451-475 | a new session is INACTIVE and out of the session with system events off; both stopwatches run from the moment of creation; both metric arrays show zero; no punch stamps, no stored arguments, no snapshot, an empty log and no calls; the alias store is the one in the registry |
| Handlers.AddEntry | Session.cs:126 | logging appends exactly one entry |
| Handlers.UpdateUserStatus | Session.cs:538 | the status becomes the one given |
| Handlers.MarkPunchIn | Session.cs:513-517 | stamps the punch-in and makes the user ACTIVE |
| Handlers.MarkPunchOut | Session.cs:518-522 | stamps the punch-out; the user is ONREST exactly for a BREAK punch-out, whose value is 1, and INACTIVE otherwise |
| Handlers.Failing | Session.cs:375 | Process.Start throws on every target the environment names, and always on the empty target |
| Handlers.GetSessionRuntime | Session.cs:492-500 | only DurationMetrics changes, and it holds the session stopwatch's elapsed span in hours, minutes and seconds |
| Handlers.GetCumulativeSessionRuntime | Session.cs:502-511 | only CumulativeDurationMetrics changes, and it holds the cumulative stopwatch's elapsed span in hours, minutes and seconds |
| Handlers.SnapshotBoth | Session.cs:143-144 | both metric arrays hold their stopwatch's elapsed span, and nothing else changes |
| Handlers.PostCommand | Session.cs:123-127 | POST succeeds exactly when the command string has a quoted segment and args has a second element; it then stores the segment in args[1], logs it and changes nothing else; otherwise it throws with the session unchanged |
| Handlers.LoginCommand | Session.cs:130-137 | IN enters the session and makes the user ACTIVE whatever the prior status; it stamps the punch-in, restarts both stopwatches from zero, logs one PUNCHIN entry, and changes nothing else |
| Handlers.RestCommand | Session.cs:140-148 | REST logs both runtimes, leaves both metric arrays holding the elapsed spans, stops both stopwatches keeping what they counted, stamps the punch-out, makes the user ONREST, and changes nothing else |
| Handlers.ResumeCommand | Session.cs:151-158 | RESUME logs both runtimes, leaves both metric arrays holding the elapsed spans, restarts the session stopwatch from zero, resumes the cumulative one without resetting it, stamps the punch-in, makes the user ACTIVE, and changes nothing else |
| Handlers.OutCommand | Session.cs:161-169 | OUT leaves the session, logs both runtimes, leaves both metric arrays holding the elapsed spans, stops both stopwatches keeping what they counted, stamps the punch-out, makes the user INACTIVE, and changes nothing else |
| Handlers.Launched | Session.cs:373-380 | the targets started are the prefix before the first failing one |
| Handlers.FirstFailed | Session.cs:375 | the target a launch stops at is one that fails |
| Handlers.StartCalls | Session.cs:375 | one Process.Start per target, in order |
| Handlers.StartedEntries | Session.cs:379 | one success entry per started target, in order |
| Handlers.LaunchTargets | Session.cs:373-393 | the launch loop changes only the calls made, the log and the process snapshot |
| Handlers.LaunchTargetsSteps | Session.cs:373-393 | the launch loop adds, as a whole, what the loop body adds target by target |
| Handlers.LaunchTargetsClosed | Session.cs:373-393 | Process.Start is called on every target up to and including the first failing one; each success is logged once and a failure once; the snapshot is refreshed exactly when some target started |
| Handlers.LaunchStepsClosed | Session.cs:373-393 | the target-by-target reading of the loop agrees with the closed form |
| Handlers.OpenCommand | Session.cs:172-182 | with system events off, OPEN does nothing; with them on it succeeds exactly when the quoted segment and args[1] exist, and then stores the segment in args[1], logs the start request and runs OpenProcess on the segment; on a throw the session is unchanged; only args, the log, the calls and the snapshot can change |
| Handlers.MatchingIndices | Session.cs:400-404 | the snapshot positions whose process name equals the argument, all of them and in order |
| Handlers.ReleaseCalls | Session.cs:403 | one Process.Close per position, in order |
| Handlers.ReleaseStep | Session.cs:400-404 | one step of the CloseProcess loop adds the call for that position exactly when its name matches |
| Handlers.CloseCommand | Session.cs:185-196 | with system events off, CLOSE does nothing; with them on it succeeds exactly when the quoted segment and args[1] exist and a snapshot has been taken; without the segment or args[1] it throws with the session unchanged; otherwise it stores the segment in args[1], logs the request and adds one release call per matching snapshot position, none when there is no snapshot, where it throws |
| Handlers.HotkeyCommand | Session.cs:199-206 | with system events off, HOTKEY does nothing; with them on it succeeds exactly when args[2] parses as an Int32, and then logs the key and the command; only the log changes |
| Handlers.SystemListenCommand | Session.cs:208-216 | SYSLIS is not gated; it succeeds exactly when args[1] parses as a bool, then sets the switch to that value, logs it and changes nothing else; otherwise it throws with the session unchanged |
| Handlers.SessionTimeCommand | Session.cs:224-231 | SESTIM logs both runtimes, leaves both metric arrays holding the elapsed spans, and changes nothing else |
| Handlers.NewAliasFailed | Session.cs:259-266 | the catch blocks log one failure naming args[2], and themselves throw when args has no third element |
| Handlers.NewAliasCommand | Session.cs:240-267 | with system events off, NEWALI does nothing; when the segments, the arguments, the key, administrator rights (without which the key is opened read-only) and write access to the key are all present, it stores value = segment 1 under name = segment 2 and logs success; otherwise the store is unchanged and at most one entry is logged |
| Handlers.GenerateAliasKeyCommand | Session.cs:269-289 | with system events off, GENALIKEY does nothing; with no key, an administrator gets a new empty key and the entries "generated" then "already generated"; with a key this user may open for writing, only "already generated"; an existing key the user may not open, or a missing key without administrator rights, gives one failure entry; it never throws |
| Handlers.GetRuntimeCommand | Session.cs:291-337 | GETHRS, GETMINS and GETSECS log the stored cumulative metric of their unit, whatever the argument |
| Handlers.EndCommand | Session.cs:345-351 | END leaves the session, logs the end, and changes nothing else, neither the user status nor the stopwatches |
| Handlers.Step | Session.cs:121-351 | every handler keeps the session readable at the dispatch's clock reading |
| Handlers.Run | Session.cs:443-449 | triggering handlers in turn keeps the session readable |
| Handlers.FireSlot | Session.cs:445-448 | one step of the CallCommand loop keeps the session readable; what it runs is stated by Handlers.RunFiredFrom |
| Handlers.RunFiredFrom | Session.cs:443-449 | running the handlers fired from a slot is the callback in that slot first, then the later slots unless it threw |
| Handlers.CallCommand | Session.cs:441-450 | the dispatch keeps the session readable |
| Handlers.Validate | Session.cs:432-439 | Validate keeps the session readable |
| SessionClass.Session.constructor | Session.cs:451-475 | a new session is the model's new session, with the callback table built by InitCommands |
| SessionClass.Session.UpdateUserStatus | Session.cs:538 | the field update is the model's UpdateUserStatus |
| SessionClass.Session.MarkPunchIn | Session.cs:513-517 | the field updates are the model's MarkPunchIn |
| SessionClass.Session.MarkPunchOut | Session.cs:518-522 | the field updates are the model's MarkPunchOut |
| SessionClass.Session.GetSessionRuntime | Session.cs:492-500 | writes the three metric slots in place as the model says, and returns "SESSION RUNTIME: " followed by the rendering |
| SessionClass.Session.GetCumulativeSessionRuntime | Session.cs:502-511 | writes the three cumulative slots in place as the model says, and returns "CUMULATIVE SESSION RUNTIME: " followed by the rendering |
| SessionClass.Session.LogRuntimes | Session.cs:143-144 | the two snapshots followed by one entry carrying both runtimes |
| SessionClass.Session.PostCommand | Session.cs:123-127 | state and exception are those of the model's POST |
| SessionClass.Session.LoginCommand | Session.cs:130-137 | state and exception are those of the model's IN |
| SessionClass.Session.RestCommand | Session.cs:140-148 | state and exception are those of the model's REST |
| SessionClass.Session.ResumeCommand | Session.cs:151-158 | state and exception are those of the model's RESUME |
| SessionClass.Session.OutCommand | Session.cs:161-169 | state and exception are those of the model's OUT |
| SessionClass.Session.OpenCommand | Session.cs:172-182 | state and exception are those of the model's OPEN |
| SessionClass.Session.CloseCommand | Session.cs:185-196 | state and exception are those of the model's CLOSE |
| SessionClass.Session.HotkeyCommand | Session.cs:199-206 | state and exception are those of the model's HOTKEY |
| SessionClass.Session.SystemListenCommand | Session.cs:208-216 | state and exception are those of the model's SYSLIS |
| SessionClass.Session.SessionTimeCommand | Session.cs:224-231 | state and exception are those of the model's SESTIM |
| SessionClass.Session.NewAliasFailed | Session.cs:259-266 | state and exception are those of the model's NEWALI catch blocks |
| SessionClass.Session.NewAliasCommand | Session.cs:240-267 | state and exception are those of the model's NEWALI |
| SessionClass.Session.GenerateAliasKeyCommand | Session.cs:269-289 | state and exception are those of the model's GENALIKEY |
| SessionClass.Session.SelectMetric | Session.cs:295 | the selector's choice between the two metric arrays |
| SessionClass.Session.GetRuntimeCommand | Session.cs:291-337 | state and exception are those of the model's duration queries |
| SessionClass.Session.EndCommand | Session.cs:345-351 | state and exception are those of the model's END |
| SessionClass.Session.OpenProcess | Session.cs:354-395 | the field updates are the model's OpenProcess |
| SessionClass.Session.LaunchEach | Session.cs:372-380 | the foreach loop does what the model's launch loop does |
| SessionClass.Session.CloseProcess | Session.cs:397-405 | the loop makes exactly the release calls of the model |
| SessionClass.Session.Trigger | Session.cs:121-351 | triggering a callback gives the model's step for that handler |
| SessionClass.Session.CallCommand | Session.cs:441-450 | the loop over the table gives the model's dispatch, stopping at the first exception |
| SessionClass.Session.CallStep | Session.cs:443-449 | one pass of the loop either stops with the model's dispatch outcome, or leaves the state from which the later slots give that outcome |
| SessionClass.Session.FireSlot | Session.cs:445-448 | one loop iteration gives the model's FireSlot |
| SessionClass.Session.Validate | Session.cs:432-439 | stores the caller's array itself as the argument vector and dispatches on its first element, as the model says |
| Properties.KeywordInIsName | Session.cs:445 | the written-out keyword of each handler is the name it is registered under |
| Properties.FiredByKeywords | Session.cs:441-450 | the fired handlers are determined by the keywords the word contains |
| Properties.GetMinutesAlsoPunchesIn | Session.cs:441-450 | "getmins" fires IN and then GETMINS, because GETMINS contains IN |
| Properties.GetMinutesFires | Session.cs:441-450 | "GETMINS" fires IN and then GETMINS |
| Properties.PrintAlsoPunchesIn | Session.cs:441-450 | "PRINT" fires IN and then PRINT |
| Properties.FiringFollowsEnumeration | Session.cs:443-449 | "OUTREST" fires REST before OUT: the order is the enumeration's, not the word's |
| Properties.EndFiresNothing | Session.cs:479-488 | "END" fires nothing, because END is never registered |
| Properties.InFiresLogin | Session.cs:441-450 | "IN" fires IN alone |
| Properties.RestFiresRest | Session.cs:441-450 | "REST" fires REST alone |
| Properties.ResumeFiresResume | Session.cs:441-450 | "RESUME" fires RESUME alone, not REST |
| Properties.OutFiresOut | Session.cs:441-450 | "OUT" fires OUT alone |
| Properties.GetHoursFires | Session.cs:441-450 | "GETHRS" fires GETHRS alone |
| Properties.NothingFires | Session.cs:441-450 | a word that contains no command name fires nothing |
| Properties.UnmatchedTokenOnlyStoresArgs | Session.cs:432-450 | for such a word, Validate only stores the argument vector |
| Properties.ValidateFiresOne | Session.cs:432-450 | a word that fires one handler makes Validate that handler's step |
| Properties.RunOne | Session.cs:443-449 | running one handler is that handler's step |
| Properties.ValidateLogin | Session.cs:130-137 | Validate ["IN"] enters the session, makes the user ACTIVE, and restarts both stopwatches from zero |
| Properties.ValidateRest | Session.cs:140-148 | Validate ["REST"] makes the user ONREST and stops both stopwatches keeping their counts |
| Properties.ValidateResume | Session.cs:151-158 | Validate ["RESUME"] makes the user ACTIVE, zeroes the session stopwatch and lets the cumulative one carry on |
| Properties.ValidateOut | Session.cs:161-169 | Validate ["OUT"] leaves the session, makes the user INACTIVE, stops both stopwatches and leaves both metric arrays holding the elapsed spans |
| Properties.DayLedger | Session.cs:130-169 | the stopwatch and log arithmetic of IN, REST, RESUME and OUT |
| Properties.WorkingDay | Session.cs:130-169 | IN, REST, RESUME, OUT at t0 ≤ t1 ≤ t2 ≤ t3: no exception; the user ends INACTIVE; the cumulative stopwatch and metrics show (t1 − t0) + (t3 − t2), leaving out the break; the session stopwatch and metrics show t3 − t2; the log holds the four punch entries with their runtimes |
| Properties.WorkingDayHours | Session.cs:291-305 | GETHRS after that working day, at any later time, logs the hour total of (t1 − t0) + (t3 − t2), the time worked without the break |
| Properties.HoursOfSnapshot | Session.cs:291-305 | GETHRS logs the hour total of the span the cumulative metrics show |
| Properties.ValidateGetHours | Session.cs:291-305 | Validate ["GETHRS"] stores the arguments and logs the cumulative hours metric as it stands, and nothing else |
| Properties.HoursQueryIgnoresArgument | Session.cs:291-305 | Validate ["GETHRS", x] logs the cumulative hours for every x, "1" included |
| Properties.GateClosed | Session.cs:174-274 | with system events off, OPEN, CLOSE, HOTKEY, NEWALI and GENALIKEY change nothing and throw nothing |
| Properties.SystemListenOpensGate | Session.cs:208-216 | SYSLIS "True" turns system events on even when they are off |
| Properties.SystemListenClosesGate | Session.cs:208-216 | SYSLIS "False" turns them off, after which every gated handler does nothing |
| Properties.GenerateAliasKeyIdempotent | Session.cs:269-289 | after one GENALIKEY on a key this user may write, existing or created by an administrator, the key exists; a second one leaves the store as it is and logs only "already generated" |
| Properties.NewAliasStores | Session.cs:247-257 | a successful NEWALI stores segment 1 under name segment 2, so that every spelling of the name differing only in case finds it; a name already present in any case is overwritten in place; every other name keeps its value; names stay unique up to case; one success entry is logged |
| Properties.CaseOnlyOverwrite | Session.cs:253 | setting "note" over a stored "Note" overwrites its value under the spelling "Note"; the case-sensitive resolution then finds it for "ote" but not for "note" |
| Properties.NewAliasFailure | Session.cs:251-266 | NEWALI without a key, without administrator rights, or with a key it may not open for writing, logs one failure naming the alias and leaves the store unchanged |
| Properties.FirstContainingNameWins | Session.cs:524-536 | with "notepad" stored before "note", the query "note" resolves to notepad's value |
| Properties.UnknownAliasFallsBack | Session.cs:359-365 | when the alias key opens and no name contains the query, OPEN launches the raw input |
| Properties.OpenProcessOutcomes | Session.cs:354-395 | the key is opened for writing when running as administrator; when it does not open (missing, or refused to that administrator), one error entry and no launch; otherwise the resolved string, or else the input, is split on '\|' and its targets launched in order, and only the calls, the log and the snapshot change |
| Properties.FirstFailureStopsLaunch | Session.cs:372-394 | the first failing target is the last one started; the earlier ones are logged as started, and exactly one error entry follows |
| Properties.AllTargetsStart | Session.cs:372-389 | when no target fails, each is started once in order and logged as started, and no error entry is logged |
| Properties.ReleaseCallsMembers | Session.cs:400-404 | the release calls name exactly the matching positions, in order |
| Properties.CloseReleasesMatching | Session.cs:397-405 | CloseProcess calls Process.Close on exactly the snapshot positions whose name equals the argument, in snapshot order, and changes nothing else |
| Properties.OpenRequestOutcome | Session.cs:172-182 | OPEN with system events on and a quoted target stores it in args[1] and logs the request; when the alias key does not open, one error entry follows; when it opens, the alias the target names, or else the target, is split on '\|' and its targets launched in order, with the calls, entries and snapshot of the launch |
| Properties.CloseRequestOutcome | Session.cs:185-196 | CLOSE with system events on, a quoted name and a snapshot stores the name in args[1], logs the request and calls Process.Close on exactly the snapshot positions holding that name, in order; nothing else changes |

## Left out

- Windows identity, administrator check, user, machine and IP queries, and process and service counts (`Session.cs:35-83`). These are operating-system queries. The administrator check enters as the flag `Env.isAdmin`. Whether the existing alias key may be opened for writing, which the access rule added at creation decides, enters as the flag `Env.aliasKeyWritable`. GENALIKEY always opens the key for writing; NEWALI and OPEN do so only when running as administrator. Opening it for reading is taken never to fail.
- The registry access rule built in the constructor (`Session.cs:115`, `Session.cs:453-465`). Only the presence of the alias key and its name/value pairs are modelled.
- `Process.Start`, `Process.GetProcesses` and `Process.Close`. They are recorded as calls (`OsCall`). Whether a start fails and what the snapshot holds are parameters (`Env.failing`, `Env.running`). The empty target always fails (`Handlers.Failing`). A process is identified by its position in the snapshot.
- The text of log entries, their colours and the wording of `TimeLog`. An entry is its kind plus a message constructor carrying the values its text is rendered from. `TimeLog` and `SessionCallback` are not part of this model. `SessionCallback.Code` is taken to be the name passed to `Create`.
- `DateTime.Now.ToLongTimeString()` punch stamps. A stamp is the abstract clock reading.
- Floating-point rounding of `TotalHours`, `TotalMinutes` and `TotalSeconds`. The metric arrays hold them as exact reals (`TimeSpan.Totals`).
- Upper-casing, `bool.Parse`, the white space and signs of `Convert.ToInt32`, and the case-insensitive matching of registry value names cover ASCII only. Culture and Unicode case rules are not modelled.
- Handlers.HotkeyCommand: an out-of-range `Convert.ToInt32` value is folded into the format error. The two exceptions are not told apart.
- All handlers of one command see one clock reading. The source reads the clock separately for each stopwatch access.
- `_storedArgs` starts as an empty array rather than null. A command that touches it before the first `Validate` throws `IndexOutOfRange` in the model and `NullReference` in the source.
- The uncaught exceptions (too-short `args`, `bool.Parse` failure, a null `_TrackedProcesses`) are modelled as faults that stop the loop, not as preconditions.
- LOGTAR, PRINT and HELP have empty bodies in the source. They are modelled as steps that do nothing.
- Handlers.NewAliasCommand: its failure branch is stated only as "store unchanged, at most one entry". `Properties.NewAliasFailure` pins the single failure entry for the missing-key and missing-rights cases.
- Handlers.Step: its own contract states only that the session stays readable. What a dispatch does is stated by `Commands.Fired`, `Handlers.RunFiredFrom` and the `Properties` lemmas.
- Handlers.Run: its own contract states only that the session stays readable. What a dispatch does is stated by `Commands.Fired`, `Handlers.RunFiredFrom` and the `Properties` lemmas.
- Handlers.FireSlot: its own contract states only that the session stays readable. What a dispatch does is stated by `Commands.Fired`, `Handlers.RunFiredFrom` and the `Properties` lemmas.
- Handlers.CallCommand: its own contract states only that the session stays readable. What a dispatch does is stated by `Commands.Fired`, `Handlers.RunFiredFrom` and the `Properties` lemmas.
- Handlers.Validate: its own contract states only that the session stays readable. What a dispatch does is stated by `Commands.Fired`, `Handlers.RunFiredFrom` and the `Properties` lemmas.
