# Raid emulator log core, in Dafny

This project models the core of cactbot's raid emulator
(`ui/raidboss/raidemulator.js`). The emulator takes an imported network log
stream, cuts it into fights, and replays one fight against the clock so that
the raid boss timelines can run on it. Four parts are modelled:

- **`LogCollector`** (`collector.dfy`) splits the stream of lines into fights.
  A countdown line opens a fight. Every later line is appended to it, except a
  change to a different non-empty zone: that line closes the fight without
  being appended, and may itself open the next fight. A wipe line is appended
  and then closes the fight. A closed fight is kept only when no kept fight
  starts with the same line. `Step` is one
  iteration of `AppendImportLogs` as a function on `CollectorState`, and `Run`
  is a whole import. The class `LogCollector` holds the same fields and updates
  them in place, and its methods are proved equal to `Run` and `EndFightSpec`.
- **`LogPlayer`** (`player.dfy`) replays a fight. `Start` sends the zone event
  and ticks once. Each `Tick` sends one batch: the longest run of lines from the
  cursor that are due at the current time. Once the last line is sent, it sends
  the synthetic wipe line and stops. The clock becomes a `now` parameter. The
  dispatched events are appended to the field `emitted`. The class `LogPlayer`
  is proved equal to `TickSpec`, `StartSpec`, `StopSpec` and `ResetSpec`.
- **`dateFromLogLine`** (`log_time.dfy`) reads the leftmost
  `[dd:dd:dd?ddd]` of a line. The time is milliseconds since midnight,
  `h*3600000 + m*60000 + s*1000 + ms`. The JavaScript `Date` setters roll
  over the same linear way, so durations agree. `DateToTimeStr` renders such a
  time as `HH:MM`.
- **The fight summary** of `EmulatorView.ShowFightInfo` (`summary.dfy`). It
  shows the zone, the start and end times, the clear flag, and the actor names
  sorted and without duplicates. The text is cached in the fight's `info`.

`log_patterns.dfy` models the regular expressions the core uses. The model
follows JavaScript semantics: `.` matches any character except a line
terminator (`\n`, `\r`, U+2028, U+2029), `\d` matches the ASCII digits,
`[^:]` matches any character except `:` (line terminators included), the
leftmost match wins, and a greedy `(.*)\.` ends at the last reachable `.`.

The model follows the code where it does less than it appears to:

- The duplicate test of `EndFight` (`raidemulator.js:79-83`) compares the
  first lines and the field `currentZone` of both fights. Fights carry
  `zoneName`, and none has a field `currentZone`. So that half of the test
  always holds, and fights are told apart by their first lines alone.
- The comment at `raidemulator.js:75-77` says a fight is added only if it has
  not been seen before. Importing the same lines a second time can still add
  a fight: when the first import ends inside an open fight, the second copy of
  the lines is appended to it. `Collector.ReimportNotIdempotent` gives the
  lines `[countdownA, wipe, countdownB]`: one import keeps one fight, and two
  imports keep two.
- `AppendImportLogs` throws only inside `EndFight`, which calls `getTime()` on
  the time of the line that ends the fight and on the fight's `startDate`. A
  countdown line without a timestamp opens a fight whose `startDate` is
  `undefined`, and nothing fails until that fight ends. The model keeps
  `startDate` optional and asks for a timestamp only at that point
  (`Collector.CanStep`, `Collector.Importable`).

Characters are Unicode code points throughout. JavaScript strings are
sequences of UTF-16 code units. So a character above U+FFFF is one character
here, but two in the code. It counts twice for the eight `.` of the actor
control and actor expressions. It fills the unescaped `.` of the timestamp
expression here, where JavaScript finds no timestamp, so `DateFromLogLine`
can read a time the code does not. And it sorts differently (see `Summary.Below`
under "## Left out").

## Model

| member | source | states |
|---|---|---|
| LogPatterns.Contains | ui/raidboss/raidemulator.js:92 | `indexOf(t) != -1` holds exactly when `t` occurs in the line at some index |
| LogPatterns.FindFrom | ui/raidboss/raidemulator.js:92 | `match` finds the leftmost index where the pattern matches, and no match exists when it returns none |
| LogPatterns.IsWipeMeaning | ui/raidboss/raidemulator.js:90-93 | `IsWipe` holds exactly when the line has a `" 21:"` actor control with code `40000010` (eight non-terminators between) or contains `00:0038:cactbot wipe` |
| LogPatterns.IsClearMeaning | ui/raidboss/raidemulator.js:304-305 | the clear test holds exactly when the line has a `" 21:"` actor control with code `40000003`; the `indexOf` guard adds nothing |
| LogPatterns.IsWipe | ui/raidboss/raidemulator.js:90-93 | the wipe test: the `" 21:"` control expression with code `40000010`, or the text `00:0038:cactbot wipe` |
| LogPatterns.IsClear | ui/raidboss/raidemulator.js:304 | the clear test: `indexOf(' 21:')`, then the control expression with code `40000003` |
| LogPatterns.ParseZoneChange | ui/raidboss/raidemulator.js:95-100 | returns a name exactly when the zone-change expression matches; the line then contains `" 01:Changed Zone to " + name + "."`; the name holds no line terminator |
| LogPatterns.ParseZoneChangeMeaning | ui/raidboss/raidemulator.js:95-100 | the name is `m[1]` of the leftmost match, and the greedy `(.*)` ends at the last `.` reachable from there (so `" 01:Changed Zone to A.B."` gives `A.B`) |
| LogPatterns.ActorName | ui/raidboss/raidemulator.js:308-309 | `m[1]` exists exactly when the actor expression matches; the captured name holds no `:` |
| LogPatterns.ActorNameMeaning | ui/raidboss/raidemulator.js:308-309 | the name is the text of the leftmost match from the end of its 13-character prefix to the first `:` after it |
| LogTime.DateFromLogLine | ui/raidboss/raidemulator.js:329-339 | a time that is read lies between 0 and the largest time two-digit fields can spell |
| LogTime.DateFromLogLineMeaning | ui/raidboss/raidemulator.js:329-339 | no time exactly when no `[dd:dd:dd?ddd]` occurs (any character in the `?` place); otherwise the linear value of the fields of the leftmost one |
| LogTime.StampFromFinds | ui/raidboss/raidemulator.js:329-339 | scanning the line from a position reads the time of the timestamp the leftmost-match search finds there, and nothing when it finds none |
| LogTime.StampRoundTrip | ui/raidboss/raidemulator.js:329-338 | a line that starts with the stamp of `h:m:s.ms` reads back as `h*3600000 + m*60000 + s*1000 + ms`, whatever follows |
| LogTime.DecimalRoundTrip | ui/raidboss/raidemulator.js:187 | the decimal text of a number that `'0' + num` builds reads back as that number |
| LogTime.Pad2 | ui/raidboss/raidemulator.js:186-188 | `pad2` gives two digits that spell the number, for numbers below 100 |
| LogTime.DateToTimeStr | ui/raidboss/raidemulator.js:185-190 | five characters `HH:MM`, all digits but the `:`, spelling the hours (mod 24) and the minutes (mod 60) of the date |
| LogTime.ClockFields | ui/raidboss/raidemulator.js:185-190 | the hours and minutes of a time of day are the fields it was built from |
| LogTime.StampShownAs | ui/raidboss/raidemulator.js:185-190 | a fight that starts on a line stamped `hh:mm:ss.mmm` of the day is shown as `hh:mm` |
| LogTime.TwoDigitsUnique | ui/raidboss/raidemulator.js:187 | two two-digit texts that spell the same number are the same text |
| Collector.ZoneChange | ui/raidboss/raidemulator.js:41-42 | a line changes the zone exactly when `ParseZoneChange` gives a non-empty (truthy) name, and then to that name |
| Collector.EndsFight | ui/raidboss/raidemulator.js:41-51 | the line makes `AppendImportLogs` call `EndFight`: a change to another zone, or a wipe, while a fight is open |
| Collector.CanStep | ui/raidboss/raidemulator.js:69-72 | the line does not throw: a line that ends no fight never throws, and one that ends a fight throws exactly when it, or the `startDate` the opening countdown gave the fight, has no time |
| Collector.Step | ui/raidboss/raidemulator.js:39-65 | one iteration of the import loop: the zone change (ending the open fight first), then appending to the open fight and ending it on a wipe, or opening a fight on a countdown |
| Collector.Importable | ui/raidboss/raidemulator.js:38-72 | the import runs to the end: every line can be taken in the state the lines before it leave |
| Collector.Run | ui/raidboss/raidemulator.js:38-67 | the lines applied in order |
| Collector.IsDuplicate | ui/raidboss/raidemulator.js:79-83 | a kept fight has the same first line |
| Collector.EndFightSpec | ui/raidboss/raidemulator.js:69-88 | the open fight is closed with the line's time and a duration, the open fight is cleared, and the closed fight is kept and reported unless it is a duplicate |
| Collector.StepInv | ui/raidboss/raidemulator.js:38-88 | one line keeps the invariant: the zone is non-empty when set, kept fights are closed (their `startDate` is the time of their first line, they have an `endDate`, `durationMs` is `endDate - startDate`, no `info`) with `key` equal to their index, first lines of kept fights are distinct, the open fight's key is the number of kept fights, and the callback has received exactly the kept fights in order |
| Collector.RunInv | ui/raidboss/raidemulator.js:38-67 | a whole import keeps that invariant |
| Collector.IdleLine | ui/raidboss/raidemulator.js:48-65 | with no fight open, no line throws, and only a countdown opens a fight, holding just that line, in the current zone, starting at the line's time (`undefined` without one), with no end and no duration; the kept fights do not change, wipe and zone-change lines included |
| Collector.IgnoredLine | ui/raidboss/raidemulator.js:41-65 | with no fight open, a line that is neither a countdown nor a change to another zone does not throw and changes nothing |
| Collector.ZoneChangeClosesFight | ui/raidboss/raidemulator.js:41-49 | a change to a different non-empty zone closes the open fight without appending the line, keeps it unless it is a duplicate, makes the zone current, and opens the next fight when the line is also a countdown |
| Collector.OpenFightAppends | ui/raidboss/raidemulator.js:48-51 | with a fight open and no change to another zone, the line is appended to the fight; a wipe line then ends the fight as its last line |
| Collector.EndFightKeeps | ui/raidboss/raidemulator.js:69-88 | `EndFight` always clears the open fight, appends the closed fight exactly when no kept fight has the same first line, and reports exactly the kept fights |
| Collector.StepKeepsFights | ui/raidboss/raidemulator.js:38-67 | one line never removes or changes a kept fight |
| Collector.RunKeepsFights | ui/raidboss/raidemulator.js:38-67 | an import only appends to the list of kept fights |
| Collector.ImportablePrefix | ui/raidboss/raidemulator.js:38-67 | an import that runs to the end runs through each prefix of its lines |
| Collector.RunConcat | ui/raidboss/raidemulator.js:38-67 | importing `a + b` runs to the end exactly when importing `b` after `a` does, and then it is importing `a`, then `b` |
| Collector.RunSnoc | ui/raidboss/raidemulator.js:38-67 | importing `logs + [log]` runs to the end exactly when importing `logs` does and `log` can be taken after it, and it is then importing `logs`, then one more iteration of the loop on `log` |
| Collector.WipeKeepsOpenFight | ui/raidboss/raidemulator.js:48-51 | with one kept fight and a different open one, a plain line and then a wipe line close the open fight and keep it as a second fight |
| Collector.ReimportNotIdempotent | ui/raidboss/raidemulator.js:38-67 | importing `[countdownA, wipe, countdownB]` keeps one fight, and importing those lines twice keeps two |
| Collector.LogCollector.constructor | ui/raidboss/raidemulator.js:30-36 | no zone, no open fight, no kept fight |
| Collector.LogCollector.AppendImportLogs | ui/raidboss/raidemulator.js:38-67 | for lines that do not throw, the new state is `Run` of the old state over the lines, and the invariant holds after it |
| Collector.LogCollector.AppendLine | ui/raidboss/raidemulator.js:39-65 | one iteration of the loop, in place: the new state is `Step` of the old state |
| Collector.LogCollector.EndFight | ui/raidboss/raidemulator.js:69-88 | the new state is `EndFightSpec` of the old state: the fight is closed with the line's time and kept unless a kept fight has the same first line |
| Player.DueCount | ui/raidboss/raidemulator.js:150-153 | the number of lines the loop of `Tick` takes from the cursor; it never runs past the last line |
| Player.TickSpec | ui/raidboss/raidemulator.js:139-161 | a tick: nothing when idle; otherwise the due run as one batch, the cursor moved past it, and a stop when it reaches the last line |
| Player.StartSpec | ui/raidboss/raidemulator.js:125-133 | `Start`: the clock and the fight's `startDate` stored, the cursor at 0, the zone event sent, then one tick |
| Player.DueCountMeaning | ui/raidboss/raidemulator.js:150-159 | the lines the loop of `Tick` takes from the cursor form the longest due run: every line in it has a time at most the cut-off, and the line after it, if any, does not |
| Player.DueStep | ui/raidboss/raidemulator.js:150-152 | a due line at the cursor extends the due run by exactly one line |
| Player.StampsAt | ui/raidboss/raidemulator.js:150 | the time recorded for line `k` is `dateFromLogLine` of that line |
| Player.IdleTick | ui/raidboss/raidemulator.js:139-142 | a tick with no fight sends nothing and changes nothing |
| Player.EarlyTick | ui/raidboss/raidemulator.js:148-160 | a tick before the next line is due sends an empty batch and leaves the cursor in place |
| Player.TickBatch | ui/raidboss/raidemulator.js:139-161 | a tick sends exactly the due run from the cursor and moves the cursor past it; when the run reaches the end, it sends the batch, then the wipe line, and stops |
| Player.TickStops | ui/raidboss/raidemulator.js:154-158 | a due run that reaches the last line sends the rest of the fight and then stops |
| Player.TickContinues | ui/raidboss/raidemulator.js:150-160 | a due run that ends before the last line is sent and the cursor moves past it |
| Player.StartReplays | ui/raidboss/raidemulator.js:125-133 | `Start` sends the zone event before any batch, and what it sends begins a replay of the fight in order |
| Player.TickReplays | ui/raidboss/raidemulator.js:139-161 | one tick keeps the replay in order: the batches sent so far are exactly the lines before the cursor, and after stopping they are all the lines followed by one wipe line |
| Player.TicksReplay | ui/raidboss/raidemulator.js:139-161 | any sequence of ticks, at any times, keeps the replay in order: no line is skipped, repeated or reordered |
| Player.LateTickFinishes | ui/raidboss/raidemulator.js:154-167 | once every remaining line is due, the next tick ends the replay: all lines sent in order, then exactly one wipe line, and the player is idle |
| Player.ReplayingInv | ui/raidboss/raidemulator.js:139-161 | a replay in progress satisfies the player's invariant (cursor inside the fight) |
| Player.TickInv | ui/raidboss/raidemulator.js:139-161 | a tick keeps the cursor inside the fight while playing |
| Player.LogPlayer.constructor | ui/raidboss/raidemulator.js:104-113 | a new player holds no fight and has sent nothing |
| Player.LogPlayer.Reset | ui/raidboss/raidemulator.js:109-113 | clears the fight and the cursor, and nothing else |
| Player.LogPlayer.SendLogEvent | ui/raidboss/raidemulator.js:115-118 | appends one log event with the batch |
| Player.LogPlayer.SendZoneEvent | ui/raidboss/raidemulator.js:120-123 | appends one zone-changed event |
| Player.LogPlayer.Start | ui/raidboss/raidemulator.js:125-133 | the new state is `StartSpec`: whatever was playing is dropped, the zone event is sent, and one tick runs |
| Player.LogPlayer.IsPlaying | ui/raidboss/raidemulator.js:135-137 | true exactly when a fight is held |
| Player.LogPlayer.Tick | ui/raidboss/raidemulator.js:139-161 | the new state is `TickSpec` of the old state |
| Player.LogPlayer.Stop | ui/raidboss/raidemulator.js:163-167 | always sends the wipe line, then resets |
| Summary.Below | ui/raidboss/raidemulator.js:321 | the default order of `sort()`: lexicographic by character, a proper prefix first |
| Summary.Join | ui/raidboss/raidemulator.js:322 | `actors.join(', ')` |
| Summary.Summary | ui/raidboss/raidemulator.js:313-322 | the text `ShowFightInfo` builds: zone (`null` for none), `From HH:MM to HH:MM`, `(Clear)` or `(Wipe?)`, and the sorted listed actors |
| Summary.BelowIrreflexive | ui/raidboss/raidemulator.js:321 | the sort order never puts a name before itself |
| Summary.BelowTransitive | ui/raidboss/raidemulator.js:321 | the sort order is transitive |
| Summary.BelowTotal | ui/raidboss/raidemulator.js:321 | any two different names are ordered one way or the other |
| Summary.InsertSorted | ui/raidboss/raidemulator.js:321 | inserting keeps the list strictly sorted, and it then holds the old names and the new one, and nothing else |
| Summary.SortedUnique | ui/raidboss/raidemulator.js:319-321 | two strictly sorted lists with the same names are equal, so the sorted actor list is determined by the set of names |
| Summary.SortSet | ui/raidboss/raidemulator.js:319-321 | the sorted list of a set is strictly sorted and holds exactly the set's names |
| Summary.HasClearMeaning | ui/raidboss/raidemulator.js:302-305 | the clear flag is set exactly when some line of the fight reports a clear |
| Summary.CapturesAt | ui/raidboss/raidemulator.js:307-309 | the name recorded for line `k` is the actor name it captures, when it names an actor |
| Summary.GatherMeaning | ui/raidboss/raidemulator.js:309 | a name is a key of `actorMap` exactly when some line stored it |
| Summary.ActorsOfFight | ui/raidboss/raidemulator.js:307-321 | a name is listed exactly when it is neither empty nor `__proto__` and some line of the fight naming an actor captures it |
| Summary.SummaryCached | ui/raidboss/raidemulator.js:293-297 | once stored, the summary counts as cached, so the next call shows it without walking the lines |
| Summary.ClosedSummarizable | ui/raidboss/raidemulator.js:313-315 | a fight the collector keeps has an end date and no cached summary |
| Summary.ScanLines | ui/raidboss/raidemulator.js:300-311 | the walk over the lines sets the clear flag exactly as `HasClear` and collects exactly the names `Captured` gathers |
| Summary.SortedKeys | ui/raidboss/raidemulator.js:319-321 | the keys come out as the one strictly sorted list of exactly those names |
| Summary.EmulatorView.constructor | ui/raidboss/raidemulator.js:173-183 | the view keeps the info element's text as the page hands it over; it writes none |
| Summary.EmulatorView.ShowFightInfo | ui/raidboss/raidemulator.js:288-326 | no fight shows `""`; a cached summary is shown unchanged; otherwise the text is `Summary` (zone, `From HH:MM to HH:MM`, `(Clear)` or `(Wipe?)`, sorted distinct actors joined by `", "`) and it is stored in the fight's `info` |

## Left out

- The DOM and UI of `EmulatorView` (fight list, radio buttons, timer bar,
  elapsed time, `requestAnimationFrame`) are not modelled; only the info text
  of `ShowFightInfo` is. The duration label and `msToTimeStr` are display
  formatting only.
- Event dispatch on `document` is modelled as appending to `emitted`. The
  global listeners, `DOMContentLoaded`, `UserConfig`, `playLogFile` and
  `stopLogFile` are not part of this model.
- The clock (`+new Date()`) is a `now` parameter of `Start` and `Tick`.
  `Start` takes two times: the one it stores and the one its first tick reads.
- `gLang.countdownEngageRegex()` is a language table outside this core. It is
  the parameter `isCountdown` of the collector.
- `console.error` for a fight that starts before any zone is known is not
  modelled; the fight is still recorded, as in the code.
- `addFightCallback` is modelled by the list `notified` of fights it received
  and the flag `hasCallback`. What the callback does is not modelled.
- `dateFromLogLine` anchors the time on today's date. The date part, time
  zones, daylight saving time and fights that cross midnight are not modelled.
  Times are milliseconds since midnight.
- Fights are values. The code shares fight objects between the collector, the
  view's `fightMap` and the player, so `fight.info = info` is seen by all of
  them. Here `ShowFightInfo` returns the fight with its new `info` instead.
- `LogPlayer()` in the code is a method named like the class, never a
  constructor, so a new player only has `fight` undefined. The model's
  constructor gives the same idle state. `Reset` also clears a field
  `localStartTime` that nothing reads; the model leaves it out. `logIdx`
  stored as `null` is the cursor 0.
- Collector.LogCollector.AppendImportLogs: requires `Importable`: no line ends
  a fight while it, or the countdown that opened the fight, lacks a timestamp.
  That is exactly when the code throws, on `getTime()` of `undefined` in
  `EndFight`. The crash itself is not modelled. The code leaves the lines
  before the failing one applied. A failing wipe line has already been
  appended to the open fight (`raidemulator.js:48-51`). A failing change to
  another zone throws before anything changes: the line is not appended and
  `currentZone` keeps its old value (`raidemulator.js:42-45`).
- Player.LogPlayer.Start: requires a fight with a `startDate`, at least one
  line and a timestamp on every line. Without a `startDate`, `Start` throws
  on `getTime()`. With no lines, `Tick` reads `logs[0]`, and
  `dateFromLogLine(undefined)` throws on `undefined.match`. A line without a
  timestamp throws on `getTime()` once a tick reaches it. A replay that is
  stopped early never reaches the later lines, so that last demand is stronger
  than one `Start` needs. The crashes are not modelled.
- The info element's text before the first `ShowFightInfo` belongs to the
  page; the constructor of `EmulatorView` takes it as a parameter.
- Summary.EmulatorView.ShowFightInfo: requires, for a fight without a cached
  summary, a start date, an end date and an actor match on every line that contains
  `" 15:"` or `" 16:"`. Otherwise the code throws reading `m[1]` or
  `getHours()`; the crash is not modelled.
- Summary.Below: compares Unicode code points. JavaScript's default sort
  compares UTF-16 code units, which orders characters above U+FFFF
  differently from those in U+E000 to U+FFFF.
- `Object.keys` on `actorMap` lists every stored name except `__proto__`.
  Assigning `true` to that key only tries to replace the prototype. The model
  drops that one name; other inherited property names are stored like any
  name.
