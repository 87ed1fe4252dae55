# jemoview in Dafny

jemoview reads the model files (`.jsn`, JSON) of Jeti transmitters and writes a readable
report of each model: its functions, servos, flight modes, timers, mixes, telemetry and
switch assignments. This project models the part of the viewer that decodes and resolves
data; the report text is not modelled. It covers the current revision
(`jemoview-2023-01-31.py`) and three earlier ones: `jemoview-2021-01-16.py`,
`jemoview.py` (July 2020) and `jemoview-2020-06-11.py`.

The modelled core:

- **The switch decoder `getSwitch`** (`switch.dfy`, module `Switches`).
  - The transmitter stores a switch assignment as eight comma-separated integers.
  - Codes 76-79 in field 7 refer to the timer, function, servo and flight-mode tables.
  - If field 1 is 0, field 7 indexes the seventh-position tables.
  - Otherwise field 1 names a stick or switch. Its value is annotated with a percentage or an arrow.
  - The earlier revisions' decoders are in `legacy_switch.dfy` (`LegacySwitches`).
- **The value helpers** (`values.dfy`, `Values`): `getTime`, `getDeviceID`, `setDecPoint`, `writeEssence`, `getYesNo`, `checkBala` and `getCurve`, plus the percentage rounding of the annotations. The earlier `getJaNein` and the January 2021 receiver-id split are in `legacy_values.dfy`.
- **The table builders** that `extractDict` runs for each document (`builders.dfy`, `typespec.dfy`, `telemetry.dfy`, `extraction.dfy`):
  - `typespecific` fills the servo-count vector.
  - `functions1` and `functions2` fill the function table.
  - `servos1` fills the servo names.
  - `flightmodes1` fills the flight modes and their display sequence.
  - `timers1` fills the timers.
  - `telemdetect` fills the sensor dictionary.
  - `lua1` fills the Lua app ids.
  - `extractOpt` reads the switch orientations.
  - The builders are methods of the class `Extraction.Viewer`, whose fields are the viewer's per-document tables and the unknown-data counter `zefixmark`. Each method is proved against a function in `Builders`, `TypeSpecific` or `Telemetry`.
  - The older servos, flight modes and mix indexing are in `legacy_servos.dfy` and `legacy_modes.dfy`.
- **The pass order of `extractDict`** and of the January 2021 `extract` (`order.dfy`, `PassOrder`): which pass reads a table before any pass has built it.
- **The listing step of `extractPat`** (`patterns.dfy`, `Patterns`): filter the found control names, then sort them without repetition.

Two modules model Python behaviour that the decoders rely on:

- `Text`: `str(int)`, `int()` on a checked literal, `str.split` and `isdigit`.
- `PyList`: list indexing with negative indices and `IndexError`, `list.index`, and a run of index assignments.

Where Python raises, a pure function returns an explicit outcome (`Raised`, `Raises` or `None`). A builder method reports `raised`. The bare `except` around `extractDict` (jemoview-2023-01-31.py:2275) then skips the document. `Skipped` states when a document is skipped by one of the modelled builders. The report passes can raise as well; they are not modelled (see "## Left out").

On a raise, `Extraction.Viewer.TelemDetect` keeps the devices it has committed and the unknown data it has counted, as the source does. `Extraction.Viewer.TypeSpecific` instead promises that nothing changes, while the source may already have written part of the servo-count vector. No later pass can observe the difference: the document is skipped, and the next one starts with the reset at jemoview-2023-01-31.py:2093-2104.

The extraction pipeline runs `telemdetect` with its guard as written (jemoview-2023-01-31.py:1752). A measurement at Param 256 therefore raises, and the document is skipped (`Extraction.SkippedAtParam256`). The guard the code evidently intends is modelled beside it and proved under "## Findings".

Where the code and its own comments disagree, the model follows the code:

- In `jemoview.py`, `mixesmain` stops a global mix after its first row (the `break` at jemoview.py:856-857). So a global mix is emitted once, not once per flight mode (`LegacyModes.MixesMain`, `LegacyModes.GlobalMixRows`).
- `extractDict`'s comments say that `telemvoice` and `telctrl` set the sensor dictionary; they only read it (`PassOrder.DictPass`).
- The comment on `flightmodes1` calls the number stored after the labels a count. It is the last index (jemoview-2023-01-31.py:673); `Extraction.Viewer.FlightModes1` stores `|modes| - 1`.

## Model

| member | source | states |
|---|---|---|
| Switches.GetSwitch | jemoview-2023-01-31.py:99-240 | a text that does not split into eight fields gives `-`; a result that counts unknown data is `?zefix?`; what it decodes is stated by GetSwitchOfEncoded, MalformedIsDash and EmptyFieldRaises |
| Switches.FieldShape | jemoview-2023-01-31.py:135-140 | a field passes the shape check exactly when it is an optional sign followed by at least one ASCII digit; it is the empty field (on which `ss[0]` raises) exactly when it is empty |
| Switches.FieldsShape | jemoview-2023-01-31.py:131-140 | all fields pass exactly when every field is a signed decimal literal; the check raises exactly when an empty field comes before any malformed one |
| Switches.ParseFields | jemoview-2023-01-31.py:143-148 | one integer per field, each the value of `int()` of that field |
| Switches.DecodeFields | jemoview-2023-01-31.py:151-240 | on every path that is not a sentinel (`-`, `??`, `?zefix?`), the fourth result is `field3 == 1`; a result that counts unknown data is `?zefix?` |
| Switches.TimerRef | jemoview-2023-01-31.py:152-161 | code 76: a timer without a label gives `??`; it raises exactly when the id cannot be indexed, or the timer is labelled and its id is not among the timer ids; it never counts unknown data |
| Switches.FunctionRef | jemoview-2023-01-31.py:162-178 | code 77: an index at or past the table gives `?zefix?` and counts once; a decoded result is unknown only then; it raises only for an index below `-len`; otherwise the proportional flag is kept |
| Switches.ServoRef | jemoview-2023-01-31.py:179-183 | code 78 decodes exactly when `servolist[n + 1]` can be indexed, and never counts unknown data |
| Switches.FlightModeRef | jemoview-2023-01-31.py:184-190 | code 79 gives `??` exactly when the id is not among the stored flight-mode ids |
| Switches.SeventhRef | jemoview-2023-01-31.py:192-200 | with field 1 equal to 0: it raises exactly when field 7 is past the 130 seventh-position entries; it counts unknown data exactly at an unidentified entry; a negative field 7 gives `-` |
| Switches.Switches7At | jemoview-2023-01-31.py:103-128 | the 130 seventh-position entries in order: logical switches 0-31, voice commands 32-47, telemetry controls 48-63, accelerometers 64-79, sequencers 80-89, then channels, trims and Lua controls; entry 0 is `Log1`, 32 `V01`, 80 `Q1`, 127 `Log.MAX`, and 24 is unidentified |
| Switches.ControlRef | jemoview-2023-01-31.py:201-240 | a genuine control or switch counts unknown data exactly when it gives `?zefix?` (an S name missing from the switch list); otherwise it keeps the proportional flag |
| Switches.Annotate | jemoview-2023-01-31.py:206-240 | as ControlRef, for a given name; it raises only for a switch name in the switch list (where the orientation settings are too short) |
| Switches.Texts | jemoview-2023-01-31.py:143-144 | `str` of each integer, position by position |
| Switches.EncodedFields | jemoview-2023-01-31.py:131-148 | the text of eight integers splits into their `str` forms; these pass the shape check and parse back to the same integers |
| Switches.GetSwitchOfEncoded | jemoview-2023-01-31.py:131-148 | every eight integers the transmitter writes decode as those integers: the shape check never rejects them |
| Switches.MalformedIsDash | jemoview-2023-01-31.py:131-140 | a text that does not split into eight fields, or whose first failing field is non-empty and not a literal, gives `['-','-','-',False]` |
| Switches.EmptyFieldRaises | jemoview-2023-01-31.py:135-136 | with eight fields, an empty field before any malformed one raises |
| Switches.ReferencesIgnoreOtherFields | jemoview-2023-01-31.py:151-190 | for codes 76-79 the result depends only on fields 1, 3 and 7: field 1's switch table is never consulted |
| Switches.FunctionNumbering | jemoview-2023-01-31.py:167-178 | code 77, n > 13: `U` and a number that reads back as n - 13, then `  (label)` when the label is set, or `Butterfly` alone; n in 0-13: the label, or `??` when unset |
| Switches.ServoNumbering | jemoview-2023-01-31.py:179-183 | code 78: `O` and a number that reads back as n + 1, then `  (servolist[n+1])` when that slot is named |
| Switches.Labelled | jemoview-2023-01-31.py:156-160 | a reference name splits back into its prefix, its number and, unless the label is `nix`, the label in parentheses |
| Switches.FlightModeNumbering | jemoview-2023-01-31.py:184-190 | code 79: `FM` and a number k with `flightmoseq[k-1]` the mode's id |
| Switches.TimerNumbering | jemoview-2023-01-31.py:152-161 | code 76: `T0` (raw id below 10) or `T`, then a number j with `stopwatchid[j]` the timer's id |
| Switches.ControlInversionNegates | jemoview-2023-01-31.py:216-219 | a P control outside interval mode shows `round(100·val/4000)%`; inverted, it shows the negated value, whose percentage is the negated percentage; the third result is the bare name |
| Switches.ControlAnnotation | jemoview-2023-01-31.py:209-219 | the full result of a P control outside interval mode: the name, the name with the possibly negated percentage, the bare name, and the proportional flag |
| Switches.IntervalKeepsValue | jemoview-2023-01-31.py:209-215 | in interval mode (field 8 = -1), inversion changes only the comparator (`≥` to `≤`), never the value |
| Switches.SwListNames | jemoview-2023-01-31.py:129 | every name of the switch list is an S switch |
| Switches.SwitchArrow | jemoview-2023-01-31.py:220-237 | an S switch shows the arrow of its value, with the sign flipped once for a reversed orientation setting and once more when inverted; the third result equals the second |
| Switches.TimerRefDefined | jemoview-2023-01-31.py:153-155 | once every labelled timer's id is among the timer ids, code 76 never raises for an id within the timer table: `.index` cannot fail |
| Switches.FlightModeRefDefined | jemoview-2023-01-31.py:185-189 | once every stored flight-mode id is in the display sequence and has a label slot, code 79 never raises |
| Text.DigitChar | jemoview-2023-01-31.py:156 | the digit character of d is an ASCII digit whose value is d |
| Text.NatToString | jemoview-2023-01-31.py:156 | Python's `str(n)`: ASCII digits only, reading back as n, and with no leading zero |
| Text.IntToString | jemoview-2023-01-31.py:143-144 | Python's `str(i)` is a literal that `int()` reads back as i; for i ≥ 0 it is NatToString |
| Text.Pad2 | jemoview-2023-01-31.py:256-264 | two digits reading back as n |
| Text.Split | jemoview-2023-01-31.py:132 | Python's `s.split(c)`: one more part than separators; no part contains the separator; the parts joined back give s |
| Text.SplitJoin | jemoview-2023-01-31.py:132 | split undoes join when no part contains the separator |
| Text.IntLiteralChars | jemoview-2023-01-31.py:135-140 | a literal that passes the check holds only digits and signs |
| PyList.Slot | jemoview-2023-01-31.py:163 | the position Python's `s[i]` designates: i itself when i ≥ 0, n + i when negative, always below n |
| PyList.At | jemoview-2023-01-31.py:163 | `s[i]` is defined exactly for `-len <= i < len` and gives the element Python gives; otherwise IndexError |
| PyList.IndexOf | jemoview-2023-01-31.py:155 | `s.index(x)` raises exactly when x is absent; otherwise it is the first position holding x |
| PyList.AssignStep | jemoview-2023-01-31.py:920-923 | carrying out one more assignment `s[i] = v` updates exactly slot Slot(i) |
| PyList.AssignSnoc | jemoview-2023-01-31.py:920-923 | appending an assignment to a run updates exactly its slot |
| PyList.IndexOfAt | jemoview-2023-01-31.py:155 | `list.index` returns the first occurrence |
| PyList.AssignUntouched | jemoview-2023-01-31.py:920-923 | a slot no assignment targets keeps its value |
| PyList.AssignLastWriter | jemoview-2023-01-31.py:920-923 | a slot holds the value of the last assignment that targets it |
| Values.GetTime | jemoview-2023-01-31.py:244-266 | the text starts with `+` for t ≥ 0 and with `-` otherwise |
| Values.SplitTimeFields | jemoview-2023-01-31.py:253-265 | the three colon-separated fields split apart again |
| Values.ParseTime | jemoview-2023-01-31.py:244-266 | the reader of the text getTime writes: only a text starting with `+` or `-` reads back |
| Values.ParseTimeText | jemoview-2023-01-31.py:244-266 | a sign, unpadded hours and two-digit minutes and seconds below 60 read back as their signed total |
| Values.GetTimeRoundTrip | jemoview-2021-01-16.py:141-163 | every number of seconds t formats as `±H:MM:SS` and reads back as t. So the sign follows t, minutes and seconds are below 60, and H·3600 + M·60 + S = \|t\| (0 gives `+0:00:00`) |
| Values.GetDeviceID | jemoview-2023-01-31.py:73-86 | `-` exactly for 0 |
| Values.EncodeDeviceID | jemoview-2023-01-31.py:73-86 | the transmitter's two's-complement packing of (high, low) lies in the signed 32-bit range |
| Values.HalvesOf | jemoview-2023-01-31.py:80-86 | splitting a non-negative `h·65536 + l` gives `"l:h+offset"` |
| Values.DeviceIDRoundTrip | jemoview-2023-01-31.py:73-86 | every pair (high, low) in [0, 65535]² other than (0, 0), wrapped or not, decodes back to `"low:high"` |
| Values.SetDecPoint | jemoview-2023-01-31.py:294-298 | n ≤ 0 returns the value unchanged; otherwise the value divided by 10ⁿ (also `setDecimal`, jemoview.py:112-116) |
| Values.Interleave | jemoview-2023-01-31.py:318-323 | each label followed by its value, in order |
| Values.WriteEssence | jemoview-2023-01-31.py:310-323 | all values equal to the first: `\nGlobal` and that value once; otherwise each label followed by its value; it raises on no values, or on fewer labels than unequal values (also `checkGlobal`, jemoview.py:24-36, and jemoview-2021-01-16.py:191-203) |
| Values.InterleaveLabelsPrefix | jemoview-2023-01-31.py:318-323 | only the first \|values\| labels matter |
| Values.YesNo | jemoview-2023-01-31.py:270-282 | 0 and 1 give the language's no and yes; any other value counts unknown data and gives `?zefix?` |
| Values.CheckBala | jemoview-2023-01-31.py:42-49 | "yes" exactly when some balancer point is non-zero; never unknown data |
| Values.GetCurve | jemoview-2023-01-31.py:54-67 | point data follows exactly for codes 8-11; codes ≥ 13 give `?zefix?` and count once; codes 0-12 take the table's label; a code below -13 raises |
| Values.Percent | jemoview-2023-01-31.py:215-219 | `round(100·val/4000)` is within half a step of val/40: `val - 40·p` lies between -20 and 20 |
| Values.PercentProperties | jemoview-2023-01-31.py:215-219 | the percentage is odd in the value, is 0 at 0 and ±100 at ±4000, and stays within ±100 for values within ±4000 |
| Values.PercentOdd | jemoview-2023-01-31.py:219 | rounding half to even of val/40 is symmetric about zero |
| LegacyValues.JaNein | jemoview.py:39-43 | `nein`/`ja` (or `no`/`yes`) exactly for 0 and 1, agreeing with getYesNo; None otherwise, where the current getYesNo counts unknown data (also jemoview-2020-06-11.py:26-31) |
| LegacyValues.ReceiverId2021 | jemoview-2021-01-16.py:863-891 | `-` exactly for values ≤ 0, overflowed negatives included |
| LegacyValues.ReceiverIdAgreesOnPositive | jemoview-2021-01-16.py:863-891 | a positive value is shown as the current getDeviceID shows it |
| LegacyValues.ReceiverIdPairs | jemoview-2021-01-16.py:863-891 | a pair with high below 32768 reads back as `"low:high"`; a pair whose packing wraps to a negative value shows `-`, where getDeviceID recovers it |
| Builders.ServoNames | jemoview-2023-01-31.py:1534-1558 | 64 names, for codes 257 to 320 |
| Builders.Marks | jemoview-2023-01-31.py:1560-1565 | one claim flag per user-name slot |
| Builders.MarksIff | jemoview-2023-01-31.py:1560-1565 | slot k is claimed exactly when some servo carries user code 288 + k |
| Builders.MarkedBy | jemoview-2023-01-31.py:1562-1565 | the slot of a servo with a user code is claimed |
| Builders.UserNames | jemoview-2023-01-31.py:1569-1576 | a claimed slot holds the label of function 14 + slot when that is set; every other slot reads `nix` |
| Builders.UserNamesAt | jemoview-2023-01-31.py:1569-1576 | the same, for one slot |
| Builders.UserSlotName | jemoview-2023-01-31.py:1560-1576 | the slot a servo claims ends up with its function's label, or `nix` |
| Builders.UserServoName | jemoview-2023-01-31.py:1578-1594 | a servo with code 288-299 whose slot is claimed (which `MarkedBy` guarantees for every such servo) is named after function 14 + (code - 288) when that is set, and `nix` otherwise |
| Builders.UserCodeName | jemoview-2023-01-31.py:1590-1591 | a user code takes its user-name slot |
| Builders.StandardServoNames | jemoview-2023-01-31.py:1583-1589 | codes 257-287 and 300-320 take the table's name; codes past 320 are `?zefix?` |
| Builders.ServoName | jemoview-2023-01-31.py:1583-1592 | the name of one servo code: the table name for 257-287 and 300-320, `?zefix?` past 320, the user slot for 288-299; its contract is in UserCodeName and StandardServoNames |
| Builders.ServoUpdates | jemoview-2023-01-31.py:1578-1594 | at most one servolist assignment per servo record |
| Builders.UpdateSource | jemoview-2023-01-31.py:1578-1594 | every servolist assignment comes from a servo with a code above 256 and targets its `Index + 1` |
| Builders.ServoUpdatesAppend | jemoview-2023-01-31.py:1578-1594 | the third pass over two runs of servos is the pass over each, in order |
| Builders.ServoUpdatesLast | jemoview-2023-01-31.py:1578-1594 | the last servo adds its own assignment, if its code is above 256 |
| Builders.ServoUpdatesStep | jemoview-2023-01-31.py:1578-1594 | the third pass, one servo further |
| Builders.NamedSnoc | jemoview-2023-01-31.py:1592-1594 | one more name lands in its slot and counts once if it is `?zefix?` |
| Builders.ServoUpdatesRaise | jemoview-2023-01-31.py:1593 | a servo whose output slot cannot be indexed makes the pass raise |
| Builders.ServoSlotUntouched | jemoview-2023-01-31.py:1578-1594 | a servolist slot that no servo with a code above 256 addresses keeps its value: the slots of codes ≤ 256 stay `nix` |
| Builders.StoredLabels | jemoview-2023-01-31.py:668-672 | ten label slots after flightmodes1 |
| Builders.StoredIds | jemoview-2023-01-31.py:668-672 | eleven id slots after flightmodes1 |
| Builders.Rotation | jemoview-2023-01-31.py:674-677 | eleven slots in the display sequence |
| Builders.StoredStep | jemoview-2023-01-31.py:668-672 | storing mode i puts its label (below the eleventh) and its id at place i |
| Builders.RotationFinish | jemoview-2023-01-31.py:677 | the default mode goes to the last place |
| Builders.RotationPermutes | jemoview-2023-01-31.py:674-677 | the first n places of the display sequence are a permutation of the first n stored ids |
| Builders.RotationNumbering | jemoview-2023-01-31.py:674-677 | the mode stored at p ≥ 1 is displayed at p - 1, the default mode at n - 1; so they print as `FM{p}` and `FM{n}` |
| Builders.RotationAt | jemoview-2023-01-31.py:674-677 | place i shows the id of mode i + 1, and the last place the default mode |
| Builders.ModeIndices | jemoview-2023-01-31.py:184-190 | with distinct ids, `flightmoid.index` finds mode p at p and `flightmoseq.index` at p - 1 (the default mode at the last place) |
| Builders.StoredTimerIds | jemoview-2023-01-31.py:1833-1841 | eleven timer id slots |
| Builders.StoredLua | jemoview-2023-01-31.py:1312-1322 | the Lua id table keeps its size |
| Builders.WithButterfly | jemoview-2023-01-31.py:940-947 | with two or more ailerons, function 31 becomes Butterfly, and slots 5 and 6 become Brk and Flp where they are unset; every other slot is kept; with fewer ailerons nothing changes |
| Builders.SettingUpdates | jemoview-2023-01-31.py:2331-2342 | every stored orientation addresses a switch of the switch list and is 0 or 1 |
| Builders.SettingStep | jemoview-2023-01-31.py:2335-2339 | an entry for a listed switch with value 0 or 1 stores its value at the switch's position; any other entry is dropped |
| Builders.SettingsStayBinary | jemoview-2023-01-31.py:2331-2342 | orientations that start as 0 or 1 stay 0 or 1 |
| TypeSpecific.TailTypes | jemoview-2023-01-31.py:1918-1919 | each revision's tail table is within the longest |
| TypeSpecific.ReadWing | jemoview-2023-01-31.py:1925-1937 | the Wing-Type branch carries out one wing step |
| TypeSpecific.ReadTail | jemoview-2023-01-31.py:1938-1970 | the Tail-Type branch carries out one tail step |
| TypeSpecific.Configure | jemoview-2023-01-31.py:1898-1997 | a model type other than Aero leaves the vector and counts nothing; only an Aero document, or one without a model type, can raise |
| TypeSpecific.ConfigureLoop | jemoview-2023-01-31.py:1898-1997 | the loop over the Type-Specific entries raises exactly when Configure says it does; otherwise it ends with Configure's vector and unknown-data count (also jemoview.py:1135-1204, jemoview-2020-06-11.py:954-1017) |
| TypeSpecific.AppliedAfterRaise | jemoview-2023-01-31.py:1925-1970 | after a raise later entries change nothing |
| TypeSpecific.ItemRaises | jemoview-2023-01-31.py:1925-1970 | one entry raises exactly when its type index cannot be looked up |
| TypeSpecific.RaisesIff | jemoview-2023-01-31.py:1925-1970 | the loop raises exactly when some entry has an index it cannot look up |
| TypeSpecific.UnknownsCounted | jemoview-2023-01-31.py:1925-1970 | in the current revision every wing or tail index past its table adds one to the unknown-data count |
| TypeSpecific.LastWingDecides | jemoview-2023-01-31.py:1925-1937 | the last readable Wing-Type entry decides the aileron and flap counts |
| TypeSpecific.WingKept | jemoview-2023-01-31.py:1925-1970 | an entry other than Wing-Type keeps the aileron and flap counts |
| TypeSpecific.WingSet | jemoview-2023-01-31.py:1925-1937 | a readable Wing-Type entry sets both counts from the wing tables |
| TypeSpecific.TailMixedStep | jemoview-2023-01-31.py:1938-1970 | one entry sets the mixed-tail flag exactly when it mixes the tail (Elevon always; Ailevator with two or more ailerons), and otherwise keeps it (also jemoview-2020-06-11.py:976-994) |
| TypeSpecific.MixedAtFront | jemoview-2023-01-31.py:1938-1970 | an entry before the last is judged alike with or without the last |
| TypeSpecific.TailMixedIff | jemoview-2023-01-31.py:1938-1970 | the mixed-tail flag stays 0 or 1 and is 1 exactly when it was set before or some Tail-Type entry mixes the tail |
| Telemetry.Fresh | jemoview-2023-01-31.py:1744 | a device starts with every slot `nix` |
| Telemetry.Step | jemoview-2023-01-31.py:1745-1780 | one record keeps the device size |
| Telemetry.Run | jemoview-2023-01-31.py:1745-1780 | the loop keeps the device size |
| Telemetry.RunHalts | jemoview-2023-01-31.py:1752-1754 | once the loop has returned or raised, later records change nothing |
| Telemetry.Group | jemoview-2023-01-31.py:1741-1781 | an empty stream returns the dictionary untouched; a grouped result keeps every key the dictionary had and counts at most two pieces of unknown data per record |
| Telemetry.RunBounds | jemoview-2023-01-31.py:1745-1780 | the loop never drops a key of the dictionary and counts at most two pieces of unknown data per record |
| Telemetry.GroupDevices | jemoview-2023-01-31.py:1741-1781 | the loop raises exactly when Group does, and otherwise ends with Group's dictionary and unknown-data count; on a raise it ends with the dictionary and count the loop had reached; an empty stream commits nothing (also jemoview-2021-01-16.py:1345-1364, jemoview.py:1080-1098, jemoview-2020-06-11.py:900-915) |
| Telemetry.RunNext | jemoview-2023-01-31.py:1745-1780 | the loop variables after record i follow from those before it |
| Telemetry.RunStopsAt | jemoview-2023-01-31.py:1752-1754 | a loop that stops at record i ends with the variables it had there |
| Telemetry.Blocks | jemoview-2023-01-31.py:1747-1751 | the stream cut before every header: no block is empty, and there are no blocks exactly for an empty stream |
| Telemetry.BlocksSnoc | jemoview-2023-01-31.py:1747-1751 | a header or the first record opens a new block; any other record joins the last one |
| Telemetry.Updates | jemoview-2023-01-31.py:1755 | one label at its Param per record, in order |
| Telemetry.DeviceOfSnoc | jemoview-2023-01-31.py:1755 | a record joining a block writes its label into its slot, whatever its ID |
| Telemetry.BlocksInRange | jemoview-2023-01-31.py:1745-1755 | every block is made of records of the stream |
| Telemetry.StepClean | jemoview-2023-01-31.py:1745-1780 | a clean record keeps the loop running: a header commits the current device and opens a new one; a measurement writes its slot |
| Telemetry.CommitNewBlock | jemoview-2023-01-31.py:1748-1750 | a new block commits the one before it, when that one has a header |
| Telemetry.CommitGrowLast | jemoview-2023-01-31.py:1755 | growing the last block leaves the earlier commits alone |
| Telemetry.MatchesAfterHeader | jemoview-2023-01-31.py:1747-1751 | a header keeps the loop in step with the block view |
| Telemetry.AllInRangeSnoc | jemoview-2023-01-31.py:1745-1755 | appending a block in range keeps every block in range |
| Telemetry.MatchesAfterMeasurement | jemoview-2023-01-31.py:1755-1780 | a measurement keeps the loop in step with the block view |
| Telemetry.RunMatchesBlocks | jemoview-2023-01-31.py:1745-1780 | while the loop runs cleanly, its variables are those of the block view |
| Telemetry.GroupMatchesReference | jemoview-2023-01-31.py:1741-1781 | a clean stream is grouped exactly as the block view says: every block with a header is committed under its ID at each header, and the last block after the loop |
| Telemetry.GuardStopsScan | jemoview-2023-01-31.py:1752-1754 | with the intended guard, a Param above 255 counts unknown data once and ends the scan without committing the current device |
| Telemetry.AsWrittenGuardRaises | jemoview-2023-01-31.py:1752-1755 | with the guard as written, a header at Param 0 followed by a record at Param 256 raises; with the intended guard it returns after counting once |
| Telemetry.AsWrittenRaisesAt256 | jemoview-2023-01-31.py:1752-1755 | with the guard as written, any record at Param 256 that the scan reaches raises, whatever follows it |
| Telemetry.CurrentNeverRaisesOnLargeParam | jemoview-2023-01-31.py:1752-1755 | with the intended guard the loop never fails on a large Param |
| Extraction.Skipped | jemoview-2023-01-31.py:2077-2136 | a document is skipped by a modelled builder when typespecific, functions1, servos1, flightmodes1, timers1, functions2's getSwitch of a Control or Trim-Control (929-930), telemdetect (guard as written) or lua1 raises |
| Extraction.Extracted | jemoview-2023-01-31.py:2077-2136 | the tables after the modelled builders, for a document whose table builders get through (`Built`, which every document that is not skipped satisfies) |
| Extraction.UnknownsOf | jemoview-2023-01-31.py:2077-2136 | the unknown data counted by the modelled builders: globalstr's transmitter type, typespecific, servos1, functions2's control decodes and telemdetect |
| Extraction.SkippedAtParam256 | jemoview-2023-01-31.py:1752-1755 | every document whose telemetry scan reaches a record at Param 256 is skipped |
| Extraction.ExtractedTimersConsistent | jemoview-2023-01-31.py:1833-1841 | after extraction every labelled timer has its id among the timer ids, so code 76's `.index` cannot fail |
| Extraction.ExtractedTimerNumbering | jemoview-2023-01-31.py:152-161 | with distinct non-negative timer ids, code 76 names timer j `T0`/`T`, then j + 1, then its label |
| Extraction.StoredTimer | jemoview-2023-01-31.py:1833-1841 | timers1 leaves timer j's label at its id and its id at position j + 1 |
| Extraction.ExtractedFlightModesConsistent | jemoview-2023-01-31.py:667-677 | after extracting at most ten flight modes, every stored id is in the display sequence and has a label slot |
| Extraction.ExtractedFlightModeNumbering | jemoview-2023-01-31.py:184-190 | with distinct ids, code 79 names mode p ≥ 1 `FM{p}` and the default mode `FM{n}`, followed by the label |
| Extraction.StoredModeRef | jemoview-2023-01-31.py:184-190 | the same for any tables whose flight-mode part flightmodes1 filled from the modes |
| Extraction.Viewer.constructor | jemoview-2023-01-31.py:25-36 | the tables start blank, every switch in its normal orientation, and the counter at 0 |
| Extraction.Viewer.Reset | jemoview-2023-01-31.py:2093-2104 | the reset before each document blanks every table and `zefix(0)` clears the counter; the language and switch settings are kept |
| Extraction.Viewer.MarkUnknown | jemoview-2023-01-31.py:327-335 | `zefix(1)` adds exactly one and returns `?zefix?`; nothing else changes |
| Extraction.Viewer.UnknownCount | jemoview-2023-01-31.py:327-335 | `zefix(2)` returns the count without changing it |
| Extraction.Viewer.DecodeSwitch | jemoview-2023-01-31.py:99-240 | getSwitch against the current tables; the counter goes up exactly when it returns `?zefix?` |
| Extraction.Viewer.DecodeCurve | jemoview-2023-01-31.py:54-67 | getCurve; the counter goes up by one exactly for unknown codes |
| Extraction.Viewer.DecodeYesNo | jemoview-2023-01-31.py:270-282 | getYesNo; the counter goes up by one exactly for values other than 0 and 1 |
| Extraction.Viewer.TypeSpecific | jemoview-2023-01-31.py:1898-1997 | the servo-count vector becomes Configure's vector and the counter adds its unknown entries; a raise changes nothing |
| Extraction.Viewer.Functions1 | jemoview-2023-01-31.py:920-923 | each function's label at its ID; it raises exactly when an ID cannot be indexed |
| Extraction.Viewer.Functions2 | jemoview-2023-01-31.py:926-947 | decodes the Control and the Trim-Control of each function against the tables as they stand, raising exactly when `ControlUnknowns` says and then changing nothing; otherwise the counter rises by the unknown data those decodes find and the function table becomes WithButterfly of the aileron count |
| Extraction.Viewer.DecodeControls | jemoview-2023-01-31.py:926-932 | the decoding loop of functions2 changes no table; it raises exactly when `ControlUnknowns` says, and otherwise the counter rises by the unknown data it finds |
| Extraction.ControlUnknowns | jemoview-2023-01-31.py:926-932 | the decoding loop of functions2: a raise, or at most two pieces of unknown data per function |
| Extraction.ControlsRaiseIff | jemoview-2023-01-31.py:929-930 | functions2 raises exactly when getSwitch raises on the Control or the Trim-Control of some function |
| Extraction.ControlsAllKnown | jemoview-2023-01-31.py:929-930 | functions2 counts no unknown data exactly when every Control and Trim-Control decodes without a raise and to a known switch |
| Extraction.Viewer.Servos1 | jemoview-2023-01-31.py:1532-1594 | servolist receives the third pass's assignments, with names from the user slots of the first two passes; the counter adds one per `?zefix?` name; it raises exactly when an output cannot be indexed |
| Extraction.Viewer.ClaimedSlots | jemoview-2023-01-31.py:1560-1565 | the first pass's loop computes Marks |
| Extraction.Viewer.UserLabels | jemoview-2023-01-31.py:1569-1576 | the second pass's loop computes UserNames; a slot that is not `nix` is claimed and holds function 14 + slot's label |
| Extraction.Viewer.NameServos | jemoview-2023-01-31.py:1578-1594 | the third pass's loop: as Servos1, for given user names |
| Extraction.Viewer.ServoLabel | jemoview-2023-01-31.py:1583-1591 | the name of one servo code above 256 |
| Extraction.Viewer.MarkUnknownText | jemoview-2023-01-31.py:327-335 | the marker `?zefix?` |
| Extraction.Viewer.NameOne | jemoview-2023-01-31.py:1593 | `servolist[ind] = name`; it raises exactly when ind cannot be indexed |
| Extraction.Viewer.FlightModes1 | jemoview-2023-01-31.py:667-677 | labels and ids in file order; the last index; the rotated display sequence; it raises exactly for more than eleven modes |
| Extraction.Viewer.Reorder | jemoview-2023-01-31.py:674-677 | the display sequence becomes the rotation of the stored ids |
| Extraction.Viewer.Timers1 | jemoview-2023-01-31.py:1833-1841 | each timer's label at its id and its id at its 1-based position; it raises exactly when an id cannot be indexed or there are eleven or more timers, the last position then being past the table |
| Extraction.Viewer.TelemDetect | jemoview-2023-01-31.py:1741-1781 | with the guard as written: it raises exactly when Group does (so a reached Param 256 raises); otherwise the sensor dictionary becomes Group's and the counter adds Group's unknown count; on a raise the dictionary keeps the devices committed before it and the counter the unknown data counted before it |
| Extraction.Viewer.Lua1 | jemoview-2023-01-31.py:1312-1322 | the app ids at positions 1, 2, …; it raises exactly for 31 or more apps; no Lua section changes nothing |
| Builders.Orientations | jemoview-2023-01-31.py:2333-2340 | the loop over the settings entries stores exactly the SettingUpdates, every one of them at an indexable place |
| Extraction.Viewer.ApplySwitchSettings | jemoview-2023-01-31.py:2331-2342 | the orientations of the settings file are applied in order, with unknown switches and values other than 0 and 1 dropped |
| Extraction.Viewer.Transmitter | jemoview-2023-01-31.py:1143-1155 | the transmitter type decides `hasAccel`; an unknown version counts once |
| Extraction.Viewer.ExtractDict | jemoview-2023-01-31.py:2077-2136 | the document is skipped by a modelled builder exactly when `Skipped` holds (telemdetect with its guard as written); otherwise the tables are Extracted and the counter is the unknown data counted by the modelled builders |
| Extraction.Viewer.EarlyPasses | jemoview-2023-01-31.py:2092-2110 | the reset, globalstr, typespecific, functions1 and servos1 |
| Extraction.Viewer.LaterPasses | jemoview-2023-01-31.py:2111-2136 | flightmodes1, timers1, functions2 (its control decodes included), telemdetect (guard as written) and lua1 complete the Extracted tables and count functions2's and telemdetect's unknown data, or raise exactly when `Skipped` says |
| LegacySwitches.Lookup | jemoview-2021-01-16.py:131-137 | Python's `table[i]`: defined exactly for indices Python accepts |
| LegacySwitches.Switches7At | jemoview-2021-01-16.py:60-98 | each seventh-position entry per revision: logical switches, voice commands (unidentified in June 2020), and so on |
| LegacySwitches.SharedSegments | jemoview.py:46-78 | the table segments the revisions share |
| LegacySwitches.GetSwitch2021 | jemoview-2021-01-16.py:59-139 | a text that does not split into eight fields gives `-`, and only an eight-field text can raise |
| LegacySwitches.Decode2021 | jemoview-2021-01-16.py:111-137 | January 2021 raises exactly where a table index is out of range |
| LegacySwitches.TimerName2021 | jemoview-2021-01-16.py:117-122 | code 76 shows `T0` (raw id below 10) or `T`, then the raw id, which reads back from the name; so distinct ids give distinct names |
| LegacySwitches.References2021IgnoreFunctions | jemoview-2021-01-16.py:117-129 | codes 76, 78 and 79 never read a table |
| LegacySwitches.ServoAndFlightModeNumbers2021 | jemoview-2021-01-16.py:126-129 | code 78 shows the 1-based output and code 79 the raw id less one; both read back |
| LegacySwitches.GetSwitch2021OfEncoded | jemoview-2021-01-16.py:100-115 | the transmitter's texts decode as their integers |
| LegacySwitches.GetSwitchJuly2020 | jemoview.py:46-103 | a text that does not split into eight fields gives `-`, and only an eight-field text can raise |
| LegacySwitches.DecodeJuly2020 | jemoview.py:91-102 | July 2020 raises exactly where a table index is out of range |
| LegacySwitches.NoReferencesJuly2020 | jemoview.py:66-69 | codes 76-79 with field 1 equal to 0 give only the placeholders `?40`-`?43` |
| LegacySwitches.Placeholders | jemoview.py:66-69 | the last four accelerometer entries are `?40` to `?43` |
| LegacySwitches.July2020Agrees2021 | jemoview.py:91-102 | outside codes 76-79 and the new Log.MAX entry, July 2020 decodes as January 2021 |
| LegacySwitches.Switches7Agree2021 | jemoview.py:46-78 | the seventh-position entries July 2020 shares with 2021 |
| LegacySwitches.GetSwitchJuly2020OfEncoded | jemoview.py:80-89 | the transmitter's texts decode as their integers |
| LegacySwitches.LegacyShapeCheck | jemoview-2021-01-16.py:100-109 | too few or too many fields, or a first failing field that is not empty, give `-`; an empty field first raises (also jemoview.py:80-89) |
| LegacySwitches.GetSwitchJune2020 | jemoview-2020-06-11.py:66-77 | a name comes out only when the first field is an integer literal |
| LegacySwitches.DecodeJune2020 | jemoview-2020-06-11.py:66-75 | June 2020 raises exactly where a table index is out of range |
| LegacySwitches.GetSwitchJune2020OfEncoded | jemoview-2020-06-11.py:66-75 | the transmitter's texts decode as their integers |
| LegacySwitches.June2020FewFieldsRaise | jemoview-2020-06-11.py:67-72 | with field 0 equal to 0 and fewer than seven fields, `split(',')[6]` raises |
| LegacySwitches.June2020ReadsFirstField | jemoview-2020-06-11.py:67-75 | a non-zero field 0 is all that is read |
| LegacySwitches.June2020AgreesJuly2020 | jemoview-2020-06-11.py:66-75 | with field 0 equal to 0, a negative field 7 gives `nix` where July 2020 gives `-`, and the shared segments decode alike |
| LegacySwitches.FirstPositionMoved | jemoview-2020-06-11.py:34-38 | SM-SP sit at 21-24 and `?P9`/`?P10` at 25-26; later revisions moved SM-SP up by two |
| LegacyServos.LegacyNames | jemoview-2021-01-16.py:1155-1177 | 64 names for codes 257 onwards |
| LegacyServos.Records | jemoview-2021-01-16.py:1181-1184 | each servo's code, position by position |
| LegacyServos.LegacyUserNames | jemoview-2021-01-16.py:1188-1193 | one name per user slot |
| LegacyServos.LegacyServoName | jemoview-2021-01-16.py:1209-1219 | it raises exactly in June 2020 for codes past 320 |
| LegacyServos.ServoStep | jemoview-2021-01-16.py:1195-1223 | one servo raises exactly when its reverse flag is not 0 or 1, or its name or slot fails |
| LegacyServos.ServosPass | jemoview-2021-01-16.py:1195-1223 | the third loop keeps the list size |
| LegacyServos.ServosPassNext | jemoview-2021-01-16.py:1195-1223 | one servo further |
| LegacyServos.ServosPassRaises | jemoview-2021-01-16.py:1195-1223 | the loop raises exactly when some servo fails |
| LegacyServos.ServosPassStops | jemoview-2021-01-16.py:1195-1223 | after a raise later servos change nothing |
| LegacyServos.ServosPassNames | jemoview-2021-01-16.py:1209-1223 | without a raise, a servo above 256 whose slot no later servo takes shows its name there |
| LegacyServos.ServosPassUntouched | jemoview-2021-01-16.py:1195-1223 | without a raise, a slot no servo above 256 addresses keeps its value |
| LegacyServos.UserServoNameLegacy | jemoview-2021-01-16.py:1179-1193 | a servo with code 288-299 is named after function 14 + (code - 288) when that is set, and `str(code)` otherwise (also jemoview.py:918-960, jemoview-2020-06-11.py:747-790) |
| LegacyServos.LegacyUserNamesAt | jemoview-2021-01-16.py:1188-1193 | the same, for one slot |
| LegacyServos.ServoNamesBeyondTable | jemoview-2021-01-16.py:1213-1217 | codes past 320 show `???SN` in 2021 and July 2020 and raise in June 2020 (jemoview-2020-06-11.py:783-784); the current revision counts them as unknown |
| LegacyServos.Servos | jemoview-2021-01-16.py:1151-1223 | the three loops end as ServosPass over the user names of the claimed slots |
| LegacyServos.Claimed | jemoview-2021-01-16.py:1181-1184 | a slot reads other than `nix` exactly when it is claimed |
| LegacyServos.ClaimedSlots | jemoview-2021-01-16.py:1181-1184 | one entry per user slot |
| LegacyServos.ClaimSlot | jemoview-2021-01-16.py:1184 | claiming slot k writes `str` of its code there and nothing else |
| LegacyServos.MarksNext | jemoview-2021-01-16.py:1181-1184 | the marks after one more servo |
| LegacyServos.ClaimUserCodes | jemoview-2021-01-16.py:1181-1184 | the first loop computes the claimed slots |
| LegacyServos.NameUserCodes | jemoview-2021-01-16.py:1188-1193 | the second loop computes the user names |
| LegacyServos.NameServos | jemoview-2021-01-16.py:1195-1223 | the third loop ends as ServosPass |
| LegacyServos.NameOne | jemoview-2021-01-16.py:1196-1223 | one servo ends as ServoStep |
| LegacyModes.WithLabels | jemoview.py:333-346 | ten label slots |
| LegacyModes.FlightModesWith | jemoview.py:330-347 | for the decoder the loop calls: it stops at the first mode whose switch makes the decoder raise (jemoview.py:340, jemoview-2020-06-11.py:257) or at a twelfth mode, with the labels before it in place; without a raise it stores the last index (July 2020) or the count (June 2020, jemoview-2020-06-11.py:263), and in both revisions mixesmain then walks exactly the flight modes there are |
| LegacyModes.FlightModes | jemoview.py:330-347 | the same with the revision's own getSwitch (`GetSwitchOf`: GetSwitchJuly2020 or GetSwitchJune2020; also jemoview-2020-06-11.py:247-263) |
| LegacyModes.DoneFrom | jemoview.py:334-346 | from mode i on, the loop gets through exactly the modes up to the first whose switch raises or that has no label slot |
| LegacyModes.Done | jemoview.py:334-346 | the modes the loop handles: at most eleven, all passing, and the next one fails |
| LegacyModes.DoneAt | jemoview.py:334-346 | the first failing mode is where the loop stops |
| LegacyModes.RaisesPastEleven | jemoview.py:334-346 | when every switch decodes, the loop raises exactly for more than eleven modes |
| LegacyModes.RaisingSwitchStops | jemoview.py:340 | in July 2020 a switch on which getSwitch raises (an empty field, say) stops the loop at that mode |
| LegacyModes.MixRows | jemoview.py:800-857 | one row per flight mode, or one alone for a global mix in July 2020 |
| LegacyModes.MixesMain | jemoview.py:800-857 | the two loops produce the rows of every mix, mix after mix (also jemoview-2020-06-11.py:646-652) |
| LegacyModes.MixRowsInRange | jemoview.py:803-805 | mix ii in flight mode jj reads `Mixes-Values[jj·anz_mix + ii]` |
| LegacyModes.RowsInRange | jemoview.py:803-805 | every read is below `anz_mix · count`, so Mixes-Values with one entry per mix and flight mode is never indexed past its end |
| LegacyModes.EntryBound | jemoview.py:803-805 | `mode·anz + mix < anz·count` |
| LegacyModes.RowsDistinct | jemoview.py:803-805 | no entry of Mixes-Values is read twice |
| LegacyModes.EntryUnique | jemoview.py:803-805 | `mode·anz + mix` with mix < anz determines mode and mix |
| LegacyModes.RowsCover | jemoview-2020-06-11.py:646-652 | where no mix stops early, every entry is read |
| LegacyModes.RowsOfMix | jemoview.py:800-857 | a mix's rows appear among all rows |
| LegacyModes.GlobalMixRows | jemoview.py:856-857 | in July 2020 a global mix has a single row; in June 2020 one per flight mode |
| PassOrder.EarlyReadsSound | jemoview-2023-01-31.py:2106-2136 | every early read reported is real: exactly the tables the pass needs that no earlier pass built |
| PassOrder.EarlyReadsComplete | jemoview-2023-01-31.py:2106-2136 | every needed table not yet built is reported |
| PassOrder.EarlyReadsExactly | jemoview-2023-01-31.py:2106-2136 | a pass is listed exactly when it misses a table |
| PassOrder.CheckOrder | jemoview-2023-01-31.py:2106-2136 | running the passes in order finds exactly the early reads |
| PassOrder.DictBuilderFirst | jemoview-2023-01-31.py:2106-2136 | the pass that first builds each table |
| PassOrder.DictBuiltBy | jemoview-2023-01-31.py:2106-2136 | a table is built before pass k exactly when its first builder comes before k |
| PassOrder.DictNeedsLater | jemoview-2023-01-31.py:2106-2136 | pass by pass, what it needs and is built only later |
| PassOrder.ExtractDictOrder | jemoview-2023-01-31.py:2106-2136 | in extractDict only globalstr (its Rx-900Sw getSwitch, 1207-1211, before every table) and common, ctrlsound and functions2 (before the virtual functions) read a table early; every other pass finds all it reads built |
| PassOrder.ExtractBuilderFirst | jemoview-2021-01-16.py:1608-1660 | the pass that first builds each table |
| PassOrder.ExtractBuiltBy | jemoview-2021-01-16.py:1608-1660 | a table is built before pass k exactly when its first builder comes before k |
| PassOrder.ExtractNeedsLater | jemoview-2021-01-16.py:1608-1660 | pass by pass, what it needs and is built only later |
| PassOrder.ExtractOrder2021 | jemoview-2021-01-16.py:1608-1660 | in the January 2021 extract, globalstr, common, ctrlsound and functions decode switches before the function table is filled; every other pass finds all it reads built |
| Patterns.StrLessIrreflexive | jemoview-2023-01-31.py:2179-2185 | Python's string order is irreflexive |
| Patterns.StrLessTransitive | jemoview-2023-01-31.py:2179-2185 | and transitive |
| Patterns.StrLessTotal | jemoview-2023-01-31.py:2179-2185 | and total on distinct strings |
| Patterns.ShownSortKey | jemoview-2023-01-31.py:2171-2185 | renaming P10 to Q10 and back gives every listed name back |
| Patterns.NoQ10 | jemoview-2023-01-31.py:2157-2162 | no listed control is called Q10 |
| Patterns.Listed | jemoview-2023-01-31.py:2157-2176 | the sort keys of exactly the listed names found |
| Patterns.InsertAscending | jemoview-2023-01-31.py:2179 | inserting keeps a list ascending and adds one element |
| Patterns.SortedSetSpec | jemoview-2023-01-31.py:2179 | `sorted(set(xs))` is ascending and has the elements of xs |
| Patterns.HeadInElems | jemoview-2023-01-31.py:2179 | the head is an element |
| Patterns.AscendingHead | jemoview-2023-01-31.py:2179 | the head of an ascending list is below every other element |
| Patterns.AscendingTail | jemoview-2023-01-31.py:2179 | an ascending list has no element twice |
| Patterns.AscendingUnique | jemoview-2023-01-31.py:2179 | an ascending list is determined by its elements |
| Patterns.ExtractPat | jemoview-2023-01-31.py:2151-2185 | the output lists each listed control found, once, and nothing else, ordered by sort key (P10 after P9 and before the S switches) |
| Patterns.ShownIsListing | jemoview-2023-01-31.py:2179-2185 | showing `sorted(set(swlist))` with Q10 as P10 gives such a listing |
| Patterns.ListingDetermined | jemoview-2023-01-31.py:2179-2185 | there is only one such listing |
| Patterns.KeysCovered | jemoview-2023-01-31.py:2179-2185 | two listings of the same finds have the same sort keys |
| Patterns.P10AfterP9 | jemoview-2023-01-31.py:2171-2176 | the renaming puts P10 after every other P control and before every S control, where plain string order would put it before P2 |

## Left out

- **Report output.** The report-writing passes (`common`, `controls`, `flightmodes2`/`3`, `functionspecs`, `mixesmain`'s text, `alarms`, `vario`, `telctrl`, `telemvoice`, `lua2`, `displayedtelemetry` and others), the `printDict` dumps and `writeLine` are not modelled. Their getSwitch calls could raise too; the pass order records only which tables they read.
- **GUI and files.** The tkinter windows, file dialogs, opening and JSON parsing of the model and settings files, and the csv folder placement are not modelled. A document is given as a `Document` value, and the settings file as a list of (switch, value) entries.
- **The regex scan of `extractPat`** is not modelled; `ExtractPat` takes the switch names already found.
- **Floating point.** `setDecPoint`/`setDecimal` divide exactly over reals. `round(100·val/4000)` is computed exactly as round-half-to-even of val/40; the text of `str(float)` is not modelled.
- **Localisation.** German and English texts are chosen by a `Lang` parameter; the older revisions are German only.
- **Python `int()` and `isdigit`.** `int()` is modelled only on signed decimal literals. In the revisions with the shape check, whitespace and `_` separators, which `int()` also accepts, cannot pass that check; June 2020 has no shape check (see `LegacySwitches.GetSwitchJune2020` below). `isdigit` counts ASCII digits only, not other Unicode digits.
- **Mixed-type lists.** The integer stored among the flight-mode labels is a separate field `flightmoLast`. The servo codes stored in `servoOther`/`servoSonst` before the labels are kept as their `str`, which is what the third loop reads.
- **In-place list writes.** `Extraction.Viewer.FlightModes1`, `Timers1` and `ApplySwitchSettings` build the new table in a local sequence and assign it to the field at the end. No other code runs in between, so the result equals the source's in-place writes.
- **PassOrder** abstracts each pass to the tables it builds and reads and to whether it decodes switches; the report text of a pass that reads a table early is not modelled.
- **globalstr** is modelled only for the transmitter type (`hasAccel`) and, as a pass, for its early getSwitch of `Rx-900Sw` (jemoview-2023-01-31.py:1207-1211). Its report text is not modelled.
- **telemdetect**: the loop models what can raise or count unknown data: `getYesNo` of `Rep` and `Trig` (jemoview-2023-01-31.py:1769-1770), the `prioDe[item['Prio']]` lookup (1771), and the strict yes/no raises of the older revisions. Three things stay out. The report text is not modelled. Neither is `int(item['DataType'])` (1773), which raises on a value `int()` refuses. The receiver-voice lines before the loop (1733-1735) are not modelled either; their `getYesNo` calls also count unknown data, and their priority lookup can raise.
- **Unknown data elsewhere.** `zefix(2)` (jemoview-2023-01-31.py:2285) also reads the unknown data counted outside the modelled builders: the `Model-Type` check (1180), `getYesNo` of Rx-900 (1199), telemdetect's receiver-voice lines (1733-1734), and the report passes (for example 385, 1247-1295, 1465-1473). `UnknownsOf` counts only the modelled builders.
- **Extraction.Viewer.TypeSpecific** promises an unchanged state when it raises; the source may already have written part of the vector. Nothing can observe the difference, because the document is skipped and the next one starts with the reset.
- **LegacySwitches.GetSwitchJune2020** accepts only the literals the shape check would accept. The June 2020 `getSwitch` has no shape check, and `int()` also reads texts with surrounding whitespace or `_` separators (`' 3'`, `'1_0'`), so the source decodes some texts for which the model raises.
- LegacyModes.FlightModes does not model `int(item['ID'])` (jemoview.py:336, jemoview-2020-06-11.py:253): a `Mode` carries no ID, so an ID on which `int()` raises, which would also stop the loop, is not modelled; only the switch decoder's raise is.
- **Builders.StoredLabels**, **Builders.StoredIds**, **Builders.Rotation**, **Builders.StoredTimerIds** and **Builders.StoredLua** state only the size of the table in their own contract; what they store is stated by StoredStep, RotationPermutes, RotationNumbering, RotationAt, ModeIndices and StoredTimer.
- **LegacySwitches.Decode2021**, **LegacySwitches.DecodeJuly2020** and **LegacySwitches.DecodeJune2020** state in their own contract only when they raise; the names are stated by the lemmas beside them.
- **functions1**'s report of the function labels, and `functions2`'s text (the decoded switch names and `Trim-Max`), are not modelled; its getSwitch calls are, for their raise and their unknown data.
- **The January 2021 functions, flightmodes and timers passes** are not modelled as table builders; only their place in the pass order is.

## Findings

| source | as written | input that shows it | evidently intended | confidence | as-written member | corrected member |
|---|---|---|---|---|---|---|
| jemoview-2023-01-31.py:1752 | the guard `ind > len(device)` lets Param 256 through to `device[256]` of a 256-slot device, which raises IndexError; the bare `except` then skips the whole document | a header record with Param 0, followed by a record with Param 256 | `ind >= len(device)`: count the unknown data and stop the scan | not executed | Telemetry.AsWrittenGuardRaises | Telemetry.GuardStopsScan |
