# projectM SDL frontend: the preset rating store, in Dafny

This project models the one piece of the projectM SDL frontend that keeps
state of its own: the preset rating and play-count database that
`ProjectMWrapper` holds in `dbpm`, a `std::map` from preset name to
`DBPreset{rating, playcount}`. The model covers:

- the changes made to `dbpm` on a preset switch and by the rating keys;
- the lookups the HUD makes;
- the line-oriented `dbpresets` file, which `uninitialize` writes and
  `LoadDBPresets` reads back;
- the MPD volume counter and the cursor-direction setters of the same class;
- the parts of `ProjectMGUI` that do not draw:
  - the visibility flag;
  - the gate at the top of `Draw`;
  - the permanent HUD text cut out of a `"PRESET:"` toast;
  - the star row of the current rating;
  - the font-fallback loop.

Modules, one per file:

- `CText` (`ctext.dfy`): the C and C++ library behaviour the code relies on.
  - C `int` becomes the `Int32` subset type. A signed overflow is undefined in
    C++, so it becomes a precondition.
  - `std::string` built from a `char*` stops at the first NUL.
  - `find_first_of` and `find_last_of`.
  - `%d` formatting.
  - `stream >> int`.
- `WrapperTypes` (`wrapper_types.dfy`): `DBPreset`, `DBPM` and `CursorDir`
  from `ProjectMWrapper.h`.
- `PresetStore` (`preset_store.dfy`): the changes a switch and the rating
  keys make to `dbpm`, written as functions from the map before to the map
  after, with lemmas over sequences of switches and key presses. The change
  `LoadDBPresets` makes is `PresetFile.InsertAll`.
- `PresetFile` (`preset_file.dfy`): the file format.
  - `put`'s line format, `getline`'s splitting and the parsing of one line.
  - `insert` of the parsed records, and the text the save loop writes.
  - The save-then-load round trip.
- `Wrapper` (`project_m_wrapper.dfy`): class `ProjectMWrapper`. Its fields are
  the ones the source updates.
  - Each method mirrors the C++ statement by statement. The methods that
    change `dbpm` or the file are proved equal to a `PresetStore` or
    `PresetFile` function, the volume methods to `VolumeUp` and
    `VolumeDown`, and the others state the field they set or read.
  - `LoadDBPresets` and the save loop of `uninitialize` are `while` loops with
    invariants.
  - The file system is a map from path to content.
  - The engine's playlist and its rating of the current preset are
    parameters.
- `Gui` (`project_m_gui.dfy`): the `"PRESET:"` text derivation, written as
  functions, plus class `ProjectMGUI`.
  - The star row and font fallback are loops.
  - `Draw` returns the `Frame` it would render.
- `SeqFacts` (`seq_facts.dfy`): five generic lemmas about sequences.
  - `PrefixSnoc` extends a prefix by one element and `PrefixAll` states
    that the full-length prefix is the whole sequence; the loop proofs use
    them.
  - `ConsAppend`, `DropTwo` and `DropLast` regroup and cut concatenations;
    the proofs about the line format use them.

Points where the code's behaviour is easy to misread; the model follows the
code:

- `LoadDBPresets` inserts with `std::map::insert`, which never overwrites. A
  record already in memory is kept over every line of the file with its
  name, and among the lines for a name not in memory the first one wins.
- `LoadDBPresets` does not skip a line it cannot parse. The model requires
  every line to be readable (see "Left out").
- `GetPlayCount` reads through `operator[]`. On a name without a record it
  inserts `DBPreset{}` and returns 0, so the methods that model it modify
  `dbpm`.
- The save loop writes only the records of playlist items, in playlist
  order, and only those with a positive play count. A record whose name is
  not in the playlist is dropped as well.
- The HUD text keeps the `':'` of `"PRESET:"`, because the code drops
  `strlen("PRESET:") - 1` characters. Without a '/' in the rest of the text
  the `':'` stays in front (`PermTextOfBareName`, `PermTextKeepsColon`),
  except when the rest is exactly five characters long: `substr(0, size() -
  5)` then cuts the `':'` too, and `"PRESET:abcd"` gives an empty text
  (`PermTextOfFourChars`). After a '/' the text is what follows the last
  '/' (`PermTextOfPath`).

## Model

| member | source | states |
|---|---|---|
| `WrapperTypes.CursorDir.Ordinal` | src/ProjectMWrapper.h:33-43 | the enumerators have the values 0 to 8, and only `cursordir_none` is 0 |
| `WrapperTypes.OrdinalsDistinct` | src/ProjectMWrapper.h:33-43 | value and enumerator determine each other, for all nine enumerators |
| `CText.CStr` | src/ProjectMWrapper.cpp:465 | `std::string(char*)` is the longest NUL-free prefix of the buffer |
| `CText.FindFirst` | src/ProjectMWrapper.cpp:466 | `find_first_of`: a position holding the character with none before it, or none when the character is absent |
| `CText.FindLast` | src/gui/ProjectMGUI.cpp:172 | `find_last_of`: a position holding the character with none after it, or none when the character is absent |
| `CText.FirstAt` | src/ProjectMWrapper.cpp:466 | a position holding c with no c before it is what `find_first_of` returns |
| `CText.LastAt` | src/gui/ProjectMGUI.cpp:172 | a position holding c with no c after it is what `find_last_of` returns |
| `CText.NatToDec` | src/ProjectMWrapper.cpp:19-25 | `%d` of a non-negative number is at least one character; `NatToDecDigits` and `DecValueOfNatToDec` state its digits and their value |
| `CText.IntToDec` | src/ProjectMWrapper.cpp:19-25 | `%d` of an `int` is at least one character, and for a non-negative number it is `NatToDec` of it |
| `CText.NatToDecDigits` | src/ProjectMWrapper.cpp:21 | `%d` of a non-negative number prints only digits |
| `CText.IntToDecDigits` | src/ProjectMWrapper.cpp:21 | every character `%d` prints is a digit, except a '-' in front for a negative number |
| `CText.IntToDecNegative` | src/ProjectMWrapper.cpp:21 | `%d` of a negative number is '-' followed by digits that denote its magnitude |
| `CText.DecValueOfNatToDec` | src/ProjectMWrapper.cpp:21 | the digits `%d` prints denote the number printed |
| `CText.SkipSpace` | src/ProjectMWrapper.cpp:463 | `>>` skips exactly the white space in front of a number |
| `CText.DigitsEnd` | src/ProjectMWrapper.cpp:463 | `>>` reads the maximal run of digits |
| `CText.ScanInt` | src/ProjectMWrapper.cpp:463-464 | a successful extraction consumes at least one digit and stops before a non-digit |
| `CText.ScanDigits` | src/ProjectMWrapper.cpp:463-464 | after white space, a run of digits followed by no digit is read as the number it denotes, ending after the run |
| `CText.ScanUnsigned` | src/ProjectMWrapper.cpp:463-464 | with no sign in front, `>>` reads the value of the digits between the end of the white space and the first non-digit |
| `CText.ScanNatToDec` | src/ProjectMWrapper.cpp:463-464 | `>>` reads back a number `%d` printed, after white space, when no digit follows it |
| `PresetStore.Subscript` | src/ProjectMWrapper.h:23-26 | `dbpm[n]` inserts `DBPreset{}`, which is (0, 0), for a missing name and changes no existing record |
| `PresetStore.Record` | src/ProjectMWrapper.h:23-26 | the record `dbpm[n]` reads: the stored one, or `DBPreset{}` for a missing name |
| `PresetStore.RecordReadsSubscript` | src/ProjectMWrapper.h:23-26 | `Record` is the value at n of the map after `operator[]` has inserted n |
| `PresetStore.Switched` | src/ProjectMWrapper.cpp:276-286 | a new name gets the engine's rating and play count 1; a known name keeps its rating and its play count rises by 1; no other record changes |
| `PresetStore.RatingUp` | src/ProjectMWrapper.cpp:432-434 | one step up below 5, no change at 5 or above (not even an insertion when the name is known), play count and other records untouched |
| `PresetStore.RatingDown` | src/ProjectMWrapper.cpp:428-430 | one step down above 0, no change at 0 or below, play count and other records untouched |
| `PresetStore.SetRating` | src/ProjectMWrapper.cpp:436-439 | a rating outside 0..5 leaves the map exactly as it was; otherwise only the current name's rating becomes the argument |
| `PresetStore.SetPlaycount` | src/ProjectMWrapper.cpp:441-443 | only the current name's play count changes, to any value |
| `PresetStore.Plays` | src/ProjectMWrapper.cpp:268-288 | a sequence of switches, each with the rating the engine reports at that switch, loses no record and raises no play count by more than the number of switches |
| `PresetStore.PlaysKeys` | src/ProjectMWrapper.cpp:276-278 | after a sequence of switches, the names with a record are exactly the old ones plus those switched to |
| `PresetStore.PlaysCount` | src/ProjectMWrapper.cpp:276-286 | after a sequence of switches, each play count rose by exactly the number of switches to its name |
| `PresetStore.SwitchedCount` | src/ProjectMWrapper.cpp:276-286 | one more switch to n raises the play count of n by one and no other |
| `PresetStore.PlaysKeepRating` | src/ProjectMWrapper.cpp:276-286 | a switch never changes a rating already stored |
| `PresetStore.PlaysFirstRating` | src/ProjectMWrapper.cpp:276-278 | a name without a record gets the rating the engine reported at the first switch to it, whatever it reports at later switches |
| `PresetStore.Adjusted` | src/ProjectMWrapper.cpp:428-434 | a sequence of rating key presses, up or down, on the current name; after at least one press the name has a record and no other name gains one |
| `PresetStore.AdjustedStaysInRange` | src/ProjectMWrapper.cpp:428-434 | any sequence of up and down presses keeps a rating in 0..5, keeps the play count and leaves the other records unchanged |
| `PresetStore.DownPressesLower` | src/ProjectMWrapper.cpp:428-430 | each down press lowers a positive rating by exactly one |
| `PresetStore.DownPressesReachZero` | src/ProjectMWrapper.cpp:428-430 | at least as many down presses as the rating bring it to 0 |
| `PresetFile.FormatLine` | src/ProjectMWrapper.cpp:19-25 | `put`'s `"%d %d %s\n"` line ends in a newline |
| `PresetFile.FormatLineOneLine` | src/ProjectMWrapper.cpp:21 | a name without a newline gives exactly one line |
| `PresetFile.SplitLines` | src/ProjectMWrapper.cpp:460 | `getline` returns at most as many lines as the file has characters; `SplitLinesJoin` and `SplitLinesShape` state what they are |
| `PresetFile.SplitLinesJoin` | src/ProjectMWrapper.cpp:460 | the lines `getline` returns, put back together, are the file |
| `PresetFile.SplitLinesShape` | src/ProjectMWrapper.cpp:460 | every line `getline` returns is non-empty and holds a newline only at its end; all but the last end in one |
| `PresetFile.SplitLinesAppend` | src/ProjectMWrapper.cpp:460 | after a complete line, `getline` splits the rest of the file independently |
| `PresetFile.SplitOneLine` | src/ProjectMWrapper.cpp:460 | a single complete line is read as one line |
| `PresetFile.ParseAll` | src/ProjectMWrapper.cpp:460-468 | one record is parsed per line read |
| `PresetFile.LineName` | src/ProjectMWrapper.cpp:465-467 | the name cut out of a line is empty for a two-character line, and otherwise is the text just before the line's last character, shorter than the line less its first two characters |
| `PresetFile.ParseLine` | src/ProjectMWrapper.cpp:461-469 | the name read from a readable line is no longer than the line less two characters; the two numbers are the ones `>>` extracts, and `ParseFormatLine` states what they are for a line `put` wrote |
| `PresetFile.LineNameOfParts` | src/ProjectMWrapper.cpp:465-467 | after two characters, a run of digits and a space, the name is the rest of the line without its newline, spaces included |
| `PresetFile.ParseFormatLine` | src/ProjectMWrapper.cpp:461-467 | a line `put` wrote, with a one-digit rating, a play count that is not negative and a name without a newline or NUL, is read back as the same rating, play count and name |
| `PresetFile.NegativeRatingShiftsName` | src/ProjectMWrapper.cpp:465-466 | a record saved with rating -1 is read back under a different name: `substr(2)` expects a one-character rating |
| `PresetFile.InsertAll` | src/ProjectMWrapper.cpp:469 | the names after inserting are the old ones plus the parsed ones, and no existing record is overwritten |
| `PresetFile.InsertAllSnoc` | src/ProjectMWrapper.cpp:469 | one more `insert` adds its record only when the name is new, and otherwise leaves the map as it was |
| `PresetFile.FirstEntryWins` | src/ProjectMWrapper.cpp:460-469 | for a name with no record in memory, the record of the first line carrying it is the one kept, whatever later lines say |
| `PresetFile.Format` | src/ProjectMWrapper.cpp:19-25 | the lines written, concatenated, form a file that is empty or ends in a newline |
| `PresetFile.Saved` | src/ProjectMWrapper.cpp:156-170 | the save loop writes at most one record per playlist item; `SavedMembers` and `SavedAppend` state which ones and in what order |
| `PresetFile.SaveText` | src/ProjectMWrapper.cpp:156-170 | the text the save loop writes is empty or ends in a newline |
| `PresetFile.SaveTextStep` | src/ProjectMWrapper.cpp:158-165 | each step of the save loop appends the line of its playlist item, or nothing |
| `PresetFile.SavedMembers` | src/ProjectMWrapper.cpp:161-162 | a record is written exactly when its name is a playlist item and its play count is positive, and it is written as it is stored |
| `PresetFile.SavedAppend` | src/ProjectMWrapper.cpp:156-170 | the records written follow the playlist order |
| `PresetFile.ParseFormat` | src/ProjectMWrapper.cpp:460-469 | a file of lines `put` wrote, with one-digit ratings, play counts that are not negative and names without a newline or NUL, parses back to the same records in the same order |
| `PresetFile.Kept` | src/ProjectMWrapper.cpp:161 | the records that survive a save: those of playlist items with a positive play count |
| `PresetFile.InsertSaved` | src/ProjectMWrapper.cpp:161-162 | inserting the saved records into an empty map gives exactly the surviving records |
| `PresetFile.SaveLoadRoundTrip` | src/ProjectMWrapper.cpp:154-170 | when the saved ratings have one digit and the names no newline, loading what the save loop wrote into an empty map reproduces exactly the records of playlist items with a positive play count |
| `Wrapper.VolumeUp` | src/ProjectMWrapper.cpp:497-506 | one step up below 100, no change at 100, stays in 0..100 |
| `Wrapper.VolumeDown` | src/ProjectMWrapper.cpp:508-517 | one step down above 0, no change at 0, stays in 0..100 |
| `Wrapper.VolumePresses` | src/ProjectMWrapper.cpp:497-517 | a sequence of volume key presses, up or down; the volume moves by at most one per press |
| `Wrapper.VolumePressesInRange` | src/ProjectMWrapper.cpp:497-517 | any sequence of volume presses keeps a volume in 0..100 |
| `Wrapper.VolumeStepsUndo` | src/ProjectMWrapper.cpp:497-517 | below the top, a step up is undone by a step down, and above the bottom the reverse |
| `Wrapper.ProjectMWrapper.constructor` | src/ProjectMWrapper.h:209-243 | the map and the strings start empty, the MPD volume at 100, `MPDQGetSongPos` at 0 and the cursor at `cursordir_none` |
| `Wrapper.ProjectMWrapper.DbPath` | src/ProjectMWrapper.cpp:154 | the file opened is the configuration path followed by `dbpresets`, cut at a NUL |
| `Wrapper.ProjectMWrapper.SetConfigPath` | src/ProjectMWrapper.cpp:445-447 | the configuration path becomes the argument |
| `Wrapper.ProjectMWrapper.PresetExists` | src/ProjectMWrapper.cpp:263-266 | returns 0 or 1, and 1 exactly when the name has a record |
| `Wrapper.ProjectMWrapper.GetRating` | src/ProjectMWrapper.cpp:415-418 | the stored rating of the current preset, or the engine's when it has no record; a function, so the map is unchanged |
| `Wrapper.ProjectMWrapper.GetPlayCount` | src/ProjectMWrapper.cpp:420-422 | the stored play count of the current preset; a missing record is inserted as (0, 0) and 0 returned |
| `Wrapper.ProjectMWrapper.GetPlayCountOf` | src/ProjectMWrapper.cpp:424-426 | the same for a given name |
| `Wrapper.ProjectMWrapper.PresetSwitchedEvent` | src/ProjectMWrapper.cpp:268-296 | the map becomes `Switched` of the old one, and the current name, rating and play count mirror the stored record |
| `Wrapper.ProjectMWrapper.RatingDown` | src/ProjectMWrapper.cpp:428-430 | the map becomes `PresetStore.RatingDown` of the old one |
| `Wrapper.ProjectMWrapper.RatingUp` | src/ProjectMWrapper.cpp:432-434 | the map becomes `PresetStore.RatingUp` of the old one |
| `Wrapper.ProjectMWrapper.SetRating` | src/ProjectMWrapper.cpp:436-439 | the map becomes `PresetStore.SetRating` of the old one |
| `Wrapper.ProjectMWrapper.SetPlaycount` | src/ProjectMWrapper.cpp:441-443 | the map becomes `PresetStore.SetPlaycount` of the old one |
| `Wrapper.ProjectMWrapper.LoadDBPresets` | src/ProjectMWrapper.cpp:449-477 | a file that cannot be opened leaves the map unchanged; otherwise every line is inserted in order without overwriting |
| `Wrapper.ProjectMWrapper.Uninitialize` | src/ProjectMWrapper.cpp:143-170 | the file is replaced by exactly the lines of the playlist items with a positive play count, in playlist order |
| `Wrapper.ProjectMWrapper.MPDVolumeUp` | src/ProjectMWrapper.cpp:497-506 | the volume becomes `VolumeUp` of the old one |
| `Wrapper.ProjectMWrapper.MPDVolumeDown` | src/ProjectMWrapper.cpp:508-517 | the volume becomes `VolumeDown` of the old one |
| `Wrapper.ProjectMWrapper.SetCursorDirUp` | src/ProjectMWrapper.h:162 | only the cursor direction changes, to `cursordir_up` |
| `Wrapper.ProjectMWrapper.SetCursorDirDown` | src/ProjectMWrapper.h:163 | only the cursor direction changes, to `cursordir_down` |
| `Wrapper.ProjectMWrapper.SetCursorDirPageUp` | src/ProjectMWrapper.h:164 | only the cursor direction changes, to `cursordir_pageup` |
| `Wrapper.ProjectMWrapper.SetCursorDirPageDown` | src/ProjectMWrapper.h:165 | only the cursor direction changes, to `cursordir_pagedown` |
| `Wrapper.ProjectMWrapper.SetCursorDirNone` | src/ProjectMWrapper.h:166 | only the cursor direction changes, to `cursordir_none` |
| `Wrapper.ProjectMWrapper.SetCD` | src/ProjectMWrapper.h:167-168 | `GetCD` then returns the direction set |
| `Wrapper.ProjectMWrapper.GetCD` | src/ProjectMWrapper.h:167 | the cursor direction; the constructor and `SetCD` state their effect through it |
| `Wrapper.ProjectMWrapper.MPDQGetSongPos` | src/ProjectMWrapper.h:169 | the queue position; the constructor states that it starts at 0 |
| `Gui.AfterLastSlash` | src/gui/ProjectMGUI.cpp:172 | exactly what follows the last '/': a '/'-free suffix of the text preceded by a '/'; a text without '/' is kept whole |
| `Gui.DropExtension` | src/gui/ProjectMGUI.cpp:173 | the last five characters go; a shorter text is kept whole |
| `Gui.PermTextOf` | src/gui/ProjectMGUI.cpp:170-173 | the HUD text derived from a `"PRESET:"` toast holds no '/' |
| `Gui.PermTextOfPath` | src/gui/ProjectMGUI.cpp:170-173 | `"PRESET:" + dir + "/" + name + ".milk"` gives exactly `name` |
| `Gui.PermTextOfBareName` | src/gui/ProjectMGUI.cpp:170-173 | without a directory the ':' of the prefix stays in front of the name |
| `Gui.PermTextKeepsColon` | src/gui/ProjectMGUI.cpp:170-173 | without a '/', the ':' stays in front of the text unless what follows `"PRESET"` is exactly five characters |
| `Gui.PermTextOfFourChars` | src/gui/ProjectMGUI.cpp:170-173 | `"PRESET:"` and four characters without a '/' give an empty text, the ':' cut with them |
| `Gui.PermTextOfShortName` | src/gui/ProjectMGUI.cpp:173 | a file name shorter than five characters is kept whole |
| `Gui.StarRow` | src/gui/ProjectMGUI.cpp:328-340 | `rating` filled stars (none for a negative rating), then `5 - rating` empty ones |
| `Gui.StarRowOfStoredRating` | src/gui/ProjectMGUI.cpp:328-340 | for a rating in 0..5 the row has five stars, the first `rating` of them filled |
| `Gui.FontIndex` | src/gui/ProjectMGUI.cpp:293 | each of the five fonts has its own place in `FontList` |
| `Gui.FallbackChoiceUnique` | src/gui/ProjectMGUI.cpp:311-318 | the font the fallback settles on is determined by the text and the width |
| `Gui.FontFallback` | src/gui/ProjectMGUI.cpp:309-318 | the first of the first four fonts in which the text fits, else the fifth, never past `FontList[4]` |
| `Gui.AvailableWidth` | src/gui/ProjectMGUI.cpp:296-308 | the window width less 32 without icons, and never more than that when the icon widths are not negative |
| `Gui.ProjectMGUI.constructor` | src/gui/ProjectMGUI.h:160-173 | the menus start hidden, the permanent text visible and empty, and no toast is pending |
| `Gui.ProjectMGUI.Toggle` | src/gui/ProjectMGUI.cpp:129-132 | visibility is negated, so two toggles restore it |
| `Gui.ProjectMGUI.SetVisible` | src/gui/ProjectMGUI.cpp:134-142 | `Visible()` then returns the value set |
| `Gui.ProjectMGUI.Visible` | src/gui/ProjectMGUI.cpp:139-142 | the visibility flag; `SetVisible` is stated through it |
| `Gui.ProjectMGUI.DisplayToastNotificationHandler` | src/gui/ProjectMGUI.cpp:260-266 | the toast is kept for the next frame when toasts are enabled, else nothing changes |
| `Gui.ProjectMGUI.PermTextAfterToast` | src/gui/ProjectMGUI.cpp:168-175 | without a toast, or with one not starting with `"PRESET:"`, the permanent text stays; a `"PRESET:"` toast gives `PermTextOf` of it |
| `Gui.ProjectMGUI.Draw` | src/gui/ProjectMGUI.cpp:144-198 | with no toast and nothing visible, nothing changes; otherwise the toast is consumed, a `"PRESET:"` toast sets the text, the menus are drawn when visible, and the HUD is drawn exactly when the permanent text is visible, the menus are not and the text is non-empty |
| `Gui.ProjectMGUI.DrawPermText` | src/gui/ProjectMGUI.cpp:268-359 | the HUD shows the text cut at its first NUL, as `%s` prints it, in the fallback font measured on that same text, the star row of the current rating and the play count read through `operator[]` |

## Left out

- MPD: all network traffic (`mpd_run_set_volume`, status queries, queue and
  playlist calls) is external I/O. `MPDGetStatus` can also overwrite
  `_mpd_volume` (with -1 when MPD reports no volume) and `_songPos`. Only
  the counter arithmetic and the initial values are modelled.
- The projectM engine and its playlist (`projectm_get_preset_rating`,
  `projectm_playlist_item`) are foreign calls, so they become parameters.
  - The playlist is a sequence of NUL-free strings.
  - `PresetSwitchedEvent` requires its index to be inside the playlist,
    because `std::string` cannot be built from the NULL returned past the end.
- Notifications, logging, window-title updates and configuration reads are
  plumbing. The configuration values the code reads become parameters.
- `put`'s 1024-byte buffer: a name longer than about 1000 bytes overflows
  it in the source. The model formats into an unbounded string.
- `fopen(..., "w")` failure in `uninitialize`: the source then writes
  through a NULL `FILE*`. `Uninitialize` always stores the text.
- `LoadDBPresets` requires every line to be readable (`WellFormedFile`):
  at least two characters, and two successful `>>` extractions. Under
  C++11 a failed `is >> rating` stores 0 (or `INT_MAX`/`INT_MIN` on
  overflow) and sets the fail bit, so the following `is >> playcount` is
  skipped and `playcount`, declared outside the loop, keeps the previous
  line's value; `substr(2)` throws on a shorter line. Neither is modelled.
- `SaveLoadRoundTrip` holds only for one-digit ratings. The loader's
  `substr(2)` expects a one-character rating. The rating keys keep ratings
  in 0..5, but the engine's rating on a first switch and a hand-edited
  `dbpresets` file have no bound (`NegativeRatingShiftsName` shows one
  consequence).
- `StarRow` and `Draw`: a rating above 5 makes `while (i2)` count down from
  a negative number, which does not end without a signed overflow. The
  HUD therefore requires the rating to be at most 5.
- `ProjectMWrapper.constructor`: `_presetRating` and `_presetPlaycount`
  have no initialiser in the source, so nothing is promised about them.
- `ProjectMGUI.Draw`: the toast's own timing (`ToastMessage::Draw`) is not
  modelled. Like the source, the model drops the toast on the first frame.
- Drawing, textures, font building, the window focus and the floating-point
  helpers (`UpdateFontSize`, `GetScalingFactor`) are left out: they are
  ImGui, SDL and OpenGL calls or floating-point arithmetic. Text widths
  enter as the `measure` parameter, truncated to `int` as
  `int textWidth` does.
