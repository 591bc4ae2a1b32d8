# pc-config-reader, modelled in Dafny

pc-config-reader is an interactive terminal inspector for host hardware. It fetches
one snapshot of CPU, memory, graphics and battery facts at start-up. A main menu
then lets the user open one category. Each category screen prints its record and
offers a config menu with two entries: copy the record to the clipboard as JSON,
or go back to the main menu.

The model covers:

- `utils.dfy` (module `Utils`): the four formatting helpers of `src/lib/utils.ts`.
  - `PercentColor` picks the colour tier of a percentage.
  - `ToMB` and `ToGB` print a byte count with two decimals. Their value is computed
    exactly and rounded as `toFixed(2)` rounds: the nearest hundredth, and the
    larger one on a tie.
  - `MinutesToTime` prints a minute count as "Hh Mm".
- `telemetry.dfy` (module `Telemetry`): the snapshot records.
  - The records carry JavaScript value semantics: `Truthy` is the test behind
    `||`, and `Nullish` is the test behind `??`.
  - `JsData` is the untyped value a screen hands to its config menu and the
    clipboard receives.
- `screen.dfy` (module `Screen`): terminal output with colours dropped, as a
  sequence of `Line`s.
  - It holds the parts both entry points print alike: the main-menu header, the
    memory screen, a GPU controller's block and a present battery's fields.
  - It also holds the numbered-list layout: "#1" .. "#n", with a divider between
    entries but none after the last. Lemmas about that layout are proved once,
    generically.
- `navigator.dfy` (module `Navigator`): the live entry point, `src/index.ts`.
  - `main()` and `configMenu()` become a transition function `Step` over the
    states main menu, category view, config menu, halted and exited.
    - A view is drawn without an answer.
    - A screen that returns without calling anything halts the program.
  - A session `Run` folds `Step` over a list of answers. It collects the output
    and the values copied to the clipboard.
  - The GPU and displays screens are methods with a loop, proved equal to
    specification functions. The other screens are functions.
- `legacy.dfy` (module `LegacyNavigator`): the older entry point, `index.ts`, with
  the same structure. It differs from the live one in these ways:
  - It has four categories and no displays screen.
  - The GPU screen takes the whole graphics record, so a copy there copies the
    displays too.
  - The CPU screen has no fallbacks.
  - Without a battery, the battery screen prints only the warning and stops.
  - With a battery, the screen also prints the bare `acConnected` flag.
  - Exit has no pause.

Answers are the values of the options the prompts offer. The main menu's
else-if chain has no final `else`, so any answer that is not a category or
exit calls nothing, and the program then has nothing left to do (`Halted`). The
config menu's `else` sends every answer except "copy" back to the main menu.

Behaviours of the code worth noting:

- `minutesToTime` returns its placeholder for `0` too, because `!min` is true for
  zero.
  - Its placeholder is the three characters `â€”`. These are the UTF-8 bytes of
    an em dash read as Windows-1252, as they stand in `src/lib/utils.ts`. It is
    not the `—` the screens print.
- A controller with a zero or missing memory counter does not show its
  Total/Used/Free lines with a dash. All three lines are left out.
- The battery's capacities and cycle count fall back with `??`, so a zero prints
  `0`, not a dash.
- The live CPU screen falls back to the ASCII `-`, not the dash.
- The older CPU screen has no fallback at all: a missing field prints
  `undefined`.
- The colour tiers are green, yellow and red (≥ 80, ≥ 40, below).

## Model

| member | source | states |
|---|---|---|
| Utils.PercentColor | src/lib/utils.ts:3-5 | green exactly when p ≥ 80, yellow exactly when 40 ≤ p < 80, red exactly when p < 40 |
| Utils.PercentColorMonotone | src/lib/utils.ts:3-5 | a larger percentage never gets a lower tier |
| Utils.NatToString | src/lib/utils.ts:19 | the numeral `${n}` prints for a non-negative integer is canonical: non-empty, all digits, no leading zero |
| Utils.NatToStringRoundTrip | src/lib/utils.ts:19 | reading the printed numeral back gives the number |
| Utils.CanonicalIsNatToString | src/lib/utils.ts:19 | a canonical numeral is the printed numeral of its own value, so printing and reading are inverse both ways |
| Utils.FixedTwo | src/lib/utils.ts:8 | the two-decimal numeral for n hundredths has a canonical whole part, a point and two digits, and reads back as n |
| Utils.FixedTwoUnique | src/lib/utils.ts:8 | FixedTwo(n) is the only two-decimal numeral with a canonical whole part that reads as n |
| Utils.HalfUpIsNearest | src/lib/utils.ts:8 | the half-up quotient is the nearest hundredth, the larger one on a tie |
| Utils.RoundHundredths | src/lib/utils.ts:8 | bytes / unit rounded to hundredths is the nearest hundredth, the larger one on a tie |
| Utils.NearestIsUnique | src/lib/utils.ts:8 | only one hundredth satisfies that rounding rule, so the printed value is determined |
| Utils.ToMB | src/lib/utils.ts:7-9 | the result is a two-decimal numeral followed by " MB" |
| Utils.ToMBRounding | src/lib/utils.ts:7-9 | the printed number is bytes / 1024 / 1024 rounded as toFixed(2) rounds |
| Utils.ToMBDetermined | src/lib/utils.ts:7-9 | any two-decimal numeral rounded as toFixed(2) rounds, followed by " MB", is exactly toMB's text |
| Utils.OneMebibyte | src/lib/utils.ts:7-9 | 1048576 bytes print as "1.00 MB" |
| Utils.ToGB | src/lib/utils.ts:11-13 | the result is a two-decimal numeral followed by " GB" |
| Utils.ToGBRounding | src/lib/utils.ts:11-13 | the printed number is bytes / 1024 / 1024 / 1024 rounded as toFixed(2) rounds |
| Utils.ToGBDetermined | src/lib/utils.ts:11-13 | any two-decimal numeral rounded as toFixed(2) rounds, followed by " GB", is exactly toGB's text |
| Utils.OneGibibyte | src/lib/utils.ts:11-13 | 1073741824 bytes print as "1.00 GB" |
| Utils.MinutesToTime | src/lib/utils.ts:15-20 | the placeholder is returned exactly when the count is null, zero or negative |
| Utils.MinutesToTimeRoundTrip | src/lib/utils.ts:15-20 | a positive count prints as canonical hours and minutes below 60 that add back up to it |
| Utils.ParseDurationOnlyPrinted | src/lib/utils.ts:17-19 | the only "{h}h {m}m" text with canonical numerals and m < 60 that reads as a positive count is the text minutesToTime prints for it |
| Utils.TwoHoursFiveMinutes | src/lib/utils.ts:15-20 | 125 minutes print as "2h 5m" |
| Telemetry.FallbacksDifferOnFalsy | src/index.ts:312-329 | on 0 and "" the `\|\|` fallback replaces the value while `??` prints it |
| Screen.MainMenuScreen | src/index.ts:64-68 | main() prints four items, from a clear to a divider, with no numbered header |
| Screen.Entry | src/index.ts:156-192 | entry i starts with its header "#(i+1)"; its dividers are stated by Screen.EntryDividers |
| Screen.Entries | src/index.ts:155-193 | a non-empty list starts with the header "#1"; numbering and separators are stated by Screen.EntriesNumbered and Screen.EntriesSeparators |
| Screen.PrintEntries | src/index.ts:155-193 | the loop over the entries appends exactly the list layout Entries to what was printed before |
| Screen.HeadersAppend | src/index.ts:155-193 | the headers of a concatenation are the headers of each part, in order |
| Screen.NoHeaderHeaders | src/index.ts:155-193 | lines without a header contribute no header |
| Screen.EntryHeaders | src/index.ts:156 | the only header of entry i is "#(i+1)" |
| Screen.EntriesNumbered | src/index.ts:155-193 | the headers of k list entries are "#1" .. "#k", in order |
| Screen.DividersAppend | src/index.ts:155-194 | the dividers of a concatenation add up |
| Screen.EntryDividers | src/index.ts:190-192 | an entry adds one divider to its block's unless it is the last |
| Screen.EntriesSeparators | src/index.ts:190-192 | a full list of n entries has n - 1 separating dividers besides its blocks' own |
| Screen.FramedListHeaders | src/index.ts:145-196 | a list screen's headers are "#1" .. "#n" |
| Screen.FramedListDividers | src/index.ts:190-194 | a non-empty list screen has n dividers besides its header's and its blocks': n - 1 separators and the closing one |
| Screen.LastEntryUndivided | src/index.ts:190-192 | no divider follows the last entry's block |
| Screen.FramedListEnding | src/index.ts:190-194 | a list screen ends with the last entry's header and block, then the closing divider alone |
| Screen.ControllerNames | src/index.ts:157-174 | the lines printed for every controller: 8 lines, VRAM at index 6 with its fallback, and no memory-counter label |
| Screen.ControllerBlock | src/index.ts:157-189 | a controller block has no header and has 11 lines exactly when all three memory counters are truthy, 8 otherwise |
| Screen.ControllerVram | src/index.ts:167-169 | VRAM shows the dash exactly when the counter is zero or missing |
| Screen.ControllerMemoryLines | src/index.ts:175-189 | Total/Used/Free appear together, exactly when all three counters are truthy |
| Screen.GbField | src/index.ts:133-141 | a size line of the memory screen ends in " GB" |
| Screen.RamLines | src/index.ts:130-142 | the memory screen is 13 lines and every field is a size in GB |
| Screen.BatteryDetails | src/index.ts:282-338 | a present battery prints 19 lines ending in a divider, with the power source at index 5 and the charge coloured by percentColor |
| Screen.BatteryCountFallbacks | src/index.ts:312-329 | Current, Designed, Max and Cycles show the dash when the value is null or undefined and the value itself otherwise, so a zero prints 0; the capacity unit falls back to empty on any falsy value |
| Screen.BatteryFallbacks | src/index.ts:306-336 | voltage shows the dash exactly when falsy; zero minutes show the helper's placeholder, which is not the dash |
| Navigator.Slice | src/index.ts:85-95 | each category is handed the part of the snapshot its screen expects |
| Navigator.ExitStep | src/index.ts:341-348 | exit clears, prints the farewell as its second line, waits 1000 ms, clears again and ends with status 0 |
| Navigator.MainMenuStep | src/index.ts:85-97 | a view opens exactly for a category answer, with that answer's tag; exactly the config menu's answers halt; nothing is copied |
| Navigator.ConfigMenuStep | src/index.ts:40-62 | something is copied exactly when the answer is copy, and it is the data on show, which is redrawn; any other answer goes to main() |
| Navigator.MainMenuDispatch | src/index.ts:64-98 | a category answer opens exactly that category's slice, exit ends with status 0, and the config menu's answers halt |
| Navigator.CpuInfo | src/index.ts:99-128 | the CPU screen is 21 lines from a clear to a closing divider |
| Navigator.CpuFallbacks | src/index.ts:107-124 | a falsy model prints "-" (not the dash), a truthy one prints itself, and falsy cache sizes print "- KB" |
| Navigator.RamInfo | src/index.ts:129-144 | the memory screen is 13 lines, every size is printed in GB, and the RAM config menu follows with the memory record, nothing copied |
| Navigator.GpuControllersScreen | src/index.ts:145-196 | the screen opens with the header; it halts after 4 lines exactly when there are no controllers, and otherwise ends in a divider and the config menu for the list |
| Navigator.GpuControllersInfo | src/index.ts:145-196 | the header, then either the notice and no menu, or the entries' loop, the closing divider and the config menu, exactly as GpuControllersScreen |
| Navigator.GpuScreenNumbering | src/index.ts:156 | controllers are numbered 1 .. n, in order |
| Navigator.GpuScreenDividers | src/index.ts:150-194 | the GPU screen has the title divider, the blocks' dividers, n - 1 separators and one closing divider |
| Navigator.GpuScreenEnding | src/index.ts:190-194 | the last controller's block is followed by the closing divider alone |
| Navigator.Resolution | src/index.ts:239-253 | a resolution shows the dash exactly when either part is falsy |
| Navigator.ResolutionText | src/index.ts:241-242 | a truthy pair prints the first part, "×", then the second part |
| Navigator.DisplayBlock | src/index.ts:210-253 | a display block has 13 lines, no header, and Native/Current show the dash exactly when a part is falsy |
| Navigator.DisplaysScreen | src/index.ts:197-262 | the screen opens with the header; it halts after 4 lines exactly when there are no displays, and otherwise ends in a divider and the config menu for the list |
| Navigator.DisplaysInfo | src/index.ts:197-262 | the header, then either the notice and no menu, or the entries' loop, the closing divider and the config menu, exactly as DisplaysScreen |
| Navigator.DisplaysScreenNumbering | src/index.ts:210 | displays are numbered 1 .. n, in order |
| Navigator.DisplaysScreenDividers | src/index.ts:202-260 | the displays screen has the title divider, the blocks' dividers, n - 1 separators and one closing divider |
| Navigator.BatteryInfo | src/index.ts:263-340 | the config menu always follows; without a battery the screen has 6 lines and its only field is the power source |
| Navigator.Render | src/index.ts:47-59 | every screen starts with a clear, copies nothing, and ends halted or in the config menu for its own tag and data |
| Navigator.RenderEndsInConfigMenu | src/index.ts:127-339 | every screen ends in the config menu with its own tag and data, except an empty list, which prints one notice and halts |
| Navigator.Settle | src/index.ts:47-59 | a step that opened a view ends at a prompt or at the end, in a well-tagged state |
| Navigator.Step | src/index.ts:19-98 | one answer leads to a prompt or to the end, never to an undrawn view |
| Navigator.BackReturnsToMainMenu | src/index.ts:60-62 | any config-menu answer except copy returns to the main menu |
| Navigator.CopyRedrawsSameCategory | src/index.ts:40-59 | copy copies the data on show, confirms, waits 1500 ms and redraws the same category |
| Navigator.StepKeepsSnapshot | src/index.ts:10 | every view shows the snapshot's slice for its tag, and a copy copies that slice |
| Navigator.Run | src/index.ts:19-98 | a session copies at most once per answer and never stops in an undrawn view |
| Navigator.Launch | src/index.ts:10-349 | the program opens with main()'s header, copies at most once per answer, and never stops in an undrawn view |
| Navigator.RunKeepsSnapshot | src/index.ts:10 | however long a session runs, the snapshot is never fetched again and only its slices reach the clipboard |
| Navigator.CpuCopyEndToEnd | src/index.ts:19-128 | CPU then copy puts the CPU record on the clipboard and returns to the CPU config menu |
| LegacyNavigator.Slice | index.ts:82-92 | the GPU screen is handed the whole graphics record |
| LegacyNavigator.ExitStep | index.ts:270-274 | exit clears, prints the farewell as its second line and ends with status 0 at once, with no pause |
| LegacyNavigator.MainMenuStep | index.ts:82-92 | a view opens exactly for a category answer, with that answer's tag; exactly the config menu's answers halt; nothing is copied |
| LegacyNavigator.ConfigMenuStep | index.ts:38-58 | something is copied exactly when the answer is copy, and it is the data on show, which is redrawn; any other answer goes to main() |
| LegacyNavigator.MainMenuDispatch | index.ts:60-93 | a category answer opens its slice, exit ends at once with status 0 and no pause, and other answers halt |
| LegacyNavigator.CpuInfo | index.ts:94-124 | the CPU screen is 21 lines from a clear to a closing divider |
| LegacyNavigator.CpuWithoutFallbacks | index.ts:103-121 | fields print as they are: a missing model prints "undefined", a zero cache size "0 KB" |
| LegacyNavigator.RamInfo | index.ts:125-141 | the memory screen is 13 lines, every size in GB, followed by the RAM config menu |
| LegacyNavigator.GpuControllersScreen | index.ts:142-194 | the screen opens with the header; it halts after 4 lines exactly when the record has no controllers, and otherwise ends in a divider and the config menu for the whole record |
| LegacyNavigator.GpuControllersInfo | index.ts:142-194 | the loop over the record's controllers prints exactly GpuControllersScreen and hands the whole record to the config menu |
| LegacyNavigator.GpuScreenNumbering | index.ts:154 | controllers are numbered 1 .. n, and the record's displays do not change what is printed |
| LegacyNavigator.GpuScreenDividers | index.ts:148-192 | the GPU screen has the title divider, the blocks' dividers, n - 1 separators and one closing divider |
| LegacyNavigator.BatteryInfo | index.ts:195-269 | without a battery only a clear and the warning, then a halt; with one, 23 lines ending in the bare acConnected flag, then the config menu |
| LegacyNavigator.Render | index.ts:45-55 | every screen starts with a clear, copies nothing, and ends halted or in the config menu for its own tag and data |
| LegacyNavigator.RenderEndsInConfigMenu | index.ts:123-268 | every screen ends in its config menu, except no controllers or no battery, which halt |
| LegacyNavigator.Settle | index.ts:45-55 | a step that opened a view ends at a prompt or at the end |
| LegacyNavigator.Step | index.ts:17-93 | one answer leads to a prompt or to the end, never to an undrawn view |
| LegacyNavigator.BackReturnsToMainMenu | index.ts:56-58 | any config-menu answer except copy returns to the main menu |
| LegacyNavigator.CopyRedrawsSameCategory | index.ts:38-55 | copy copies the data on show and redraws the same category |
| LegacyNavigator.GpuCopyCarriesDisplays | index.ts:86-87 | copying from the GPU screen copies the displays, which the screen never showed |
| LegacyNavigator.StepKeepsSnapshot | index.ts:10 | every view shows the snapshot's slice for its tag, and a copy copies that slice |
| LegacyNavigator.Run | index.ts:17-93 | a session copies at most once per answer and never stops in an undrawn view |
| LegacyNavigator.Launch | index.ts:10-275 | the program opens with main()'s header, copies at most once per answer, and never stops in an undrawn view |
| LegacyNavigator.RunKeepsSnapshot | index.ts:10 | a whole session shows and copies only the snapshot's slices |
| LegacyNavigator.HaltedIsFinal | index.ts:200-205 | once halted, no answer prints or copies anything |
| LegacyNavigator.NoBatteryEndsSession | index.ts:195-205 | on a machine without a battery, choosing Battery ends the session on the warning, whatever is answered next |

## Left out

- Terminal I/O is not modelled. Printing, clearing and waiting are `Line` values.
  - Colours and the spaces that align labels are dropped.
  - The 1500 ms and 1000 ms waits are `Pause` lines.
  - The ordering guarantees of `setTimeout` and the non-awaited async calls are not
    modelled.
- The prompt widget is not modelled. Its answers are a parameter: a list of option values.
- The clipboard receives the `JsData` value. The JSON text `JSON.stringify`
  makes from it is not modelled.
- The hardware provider and `src/components/getSystemInfo.ts` are not part of
  this model. The snapshot they fetch is a parameter.
  - A failure while fetching is not modelled.
- Field values are `JsValue`s, and a number that is not an integer is carried
  with its printed text. How JavaScript prints such a number is not modelled.
- NaN field values are not modelled: `Frac` stands for a finite number. In
  JavaScript NaN is falsy and prints "NaN", so it would reach the `||` fallbacks
  and print "NaN" where `??` is used.
- Show: an integer field prints all its digits. JavaScript switches to exponent
  notation from 1e21, which is not modelled.
- The unbounded mutual recursion of the prompts becomes a fold over a finite
  list of answers.
- `cpu.cache` being undefined (a thrown TypeError) is not modelled. The cache
  sizes are fields of the CPU record.
- ToMB: bytes are a natural number. Negative, fractional, infinite or NaN inputs
  are not modelled.
  - Counts above 2^53 are not modelled: not every such integer is a double, so
    the count the program divides may already differ from the true one.
  - Values of 1e21 or more, where `toFixed` switches to exponent notation, are
    not modelled.
- ToGB: the same limits as ToMB.
- MinutesToTime: minute counts are integers. Fractional and NaN counts are not
  modelled.
  - Hours and minutes print every digit. JavaScript switches `${h}` to exponent
    notation from 1e21, which is not modelled.
  - Counts above 2^53 are not modelled: not every such integer is a double, so
    the count the program divides may already differ from the true one.
- PercentColor: NaN is not modelled; it falls through to red.
- Battery percent is an integer, so the charge text `${percent}%` is exact.
- The session functions (`Settle`, `Step`, `Run`, `Launch` and their lemmas) are
  written once per entry point, because the two programs have different
  category tags and hand the GPU screen different data.
