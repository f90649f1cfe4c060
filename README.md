# AutoMarker: a verified model of its decision and data logic

AutoMarker finds the beats of a song and places them as markers in a
video editor (Adobe Premiere Pro, Adobe After Effects or DaVinci Resolve).
It comes as two scripts: `automarkerQt.py`, the Qt application for all
three hosts, and `automarker.py`, the older Tk application for Premiere.
Around the audio analysis, the widgets and the host scripting they share a
small core of sequence, string and integer logic. This project models that
core in Dafny and proves what it promises:

- which beats become markers: the `beats[offset::every]` selection
  (`Slicing`), and markers only before the end of the sequence (`Markers`);
- the waveform preview: the visible sample window for the zoom and scroll
  sliders, and the re-based beats inside it (`Preview`);
- whether a host runs: the decision over the process ids found, and the
  parsing of those ids out of Windows TASKLIST output (`Processes`);
- the search for an executable over three folder layouts (`ExeSearch`);
- the After Effects script wrapper: its command list, the normalised
  return-file path, and the reading of returned lines (`AfterEffects`);
- the Qt state: host priority, adapter selection, markers sent and the
  playback callback (`QtApp`);
- the Tk globals: placing markers, the preview's marker selection, the
  playback callback and the seek click (`TkApp`).

`Text` holds the Python string operations the program uses: ASCII
`lower()`, `startswith`, `rstrip()` with Python's whitespace set,
`split(" ")[-1]`, `str.replace` and Windows `os.path.join`. `Outcomes`
holds `Option` and `Result`. A Python exception becomes an `Err` value.

Inputs stand in for the outside world. Process-id lists or TASKLIST lines
replace the `subprocess` calls. A list of registry entries and the newest
version string replace the registry. A predicate `isFile` replaces the file
system. The lines of the return file replace the file itself. Beat times
are `real` and preview beat positions are whole sample indices.

## Model

| member | source | states |
|---|---|---|
| Slicing.Stride | automarkerQt.py:844 | `s[offset::step]` for a non-negative offset and a positive step; characterised by `StrideIndex` |
| Slicing.StrideIndex | automarkerQt.py:844 | element `k` of `s[offset::step]` exists exactly when `offset + k*step < len(s)`, and it is `s[offset + k*step]` |
| Slicing.StrideAt | automarkerQt.py:844 | every element of the selection is the input element at `offset + k*step` |
| Slicing.StrideIdentity | automarkerQt.py:844 | `s[0::1]` is `s` itself |
| Slicing.StrideOfStride | automarker.py:95 | selecting `[o2::e2]` from `s[o1::e1]` is the single selection `s[o1 + o2*e1 :: e1*e2]` |
| Slicing.StrideStepOne | automarker.py:211 | `s[offset::1]` is `s[offset:]`, so a step of one still drops the first `offset` beats |
| Slicing.StrideElementsFromInput | automarkerQt.py:844 | every selected beat is a beat of the input |
| Slicing.StrideKeepsIncreasing | automarkerQt.py:844 | a selection of increasing beat times is increasing, so the order is kept |
| Slicing.Slice | automarker.py:161 | `s[i:j]` clamps both bounds to the length, is empty for an inverted range, and element `k` is `s[i+k]` |
| Text.Lower | automarkerQt.py:162 | lower-casing keeps the length and maps each character on its own |
| Text.LowerKeeps | automarkerQt.py:357 | lower-casing keeps every non-letter, and text without capitals is unchanged |
| Text.RStrip | automarkerQt.py:380 | `rstrip()` returns a prefix that does not end in whitespace, and all it removes is whitespace |
| Text.LastToken | automarkerQt.py:214 | `split(" ")[-1]` is a suffix without spaces, preceded by a space unless it is the whole string |
| Text.Replace | automarkerQt.py:357-358 | `str.replace`: leftmost non-overlapping occurrences replaced; characterised by `ReplaceSkips`, `ReplaceOnce`, `ReplaceChars` and `ReplaceAbsent` |
| Text.ReplaceSkipsTo | automarkerQt.py:358 | a prefix in which no occurrence of the pattern starts is copied unchanged by `str.replace` |
| Text.ReplaceNoOccurrence | automarkerQt.py:358 | text in which the pattern never occurs is returned unchanged |
| Text.ReplaceAround | automarkerQt.py:358 | with no occurrence before it and none possible after it, exactly the one occurrence is replaced |
| Text.NoOccurrenceBefore | automarkerQt.py:358 | no occurrence starts in `a + r + m` of `a + r + m + rest` when `a` and `m` hold no first character of the pattern, `r` holds no occurrence, and `m` starts with a character found nowhere else in the pattern |
| Text.ReplaceSkips | automarkerQt.py:358 | text that cannot start the pattern is copied unchanged by `str.replace` |
| Text.ReplaceOnce | automarkerQt.py:358 | an occurrence after such text is replaced and the scan goes on after it |
| Text.ReplaceChars | automarkerQt.py:357 | every character of the result comes from the text or the replacement; a one-character pattern leaves none of its character behind |
| Text.ReplaceAbsent | automarkerQt.py:357 | text without the pattern's first character is returned unchanged |
| Text.Join | automarkerQt.py:217 | `os.path.join` on Windows for a relative second part: a backslash is inserted unless the directory is empty, ends in a separator or is a bare drive such as `C:`; characterised by `JoinSpec` |
| Text.JoinSpec | automarkerQt.py:217 | a joined path starts with the directory, ends with the name, and has at most one backslash between them |
| Processes.ExeIsRunning | automarkerQt.py:122-136 | the running decision of the Qt version over the pids found; its outcomes are stated by `ExeIsRunningOutcomes` |
| Processes.ExeIsRunningOutcomes | automarkerQt.py:122-136 | no pids gives `(False, None)`; one gives `(True, pid)`; several give `(True, first pid)` only for the After Effects and Premiere names and an error naming all pids otherwise |
| Processes.ExeIsRunningStrict | automarker.py:231-243 | the running decision of the Tk version, which rejects every duplicate; its outcomes are stated by `ExeIsRunningStrictOutcomes` |
| Processes.ExeIsRunningStrictOutcomes | automarker.py:231-243 | no pids gives `(False, None)`, one gives `(True, pid)`, several always give the error |
| Processes.VariantsDifferOnlyOnToleratedNames | automarkerQt.py:132-133 | the two variants disagree exactly when several processes carry a tolerated name |
| Processes.MatchingLines | automarkerQt.py:162 | the kept lines are lines of the output whose lower-cased text starts with the lower-cased name |
| Processes.MatchingLinesKeepsAll | automarkerQt.py:162 | every line naming the process is kept |
| Processes.MatchingLinesConcat | automarker.py:278 | filtering distributes over concatenation, so the kept lines keep the output order |
| Processes.DigitRun | automarkerQt.py:166 | the run of digits at a position is maximal: all digits, followed by a non-digit or the end |
| Processes.MatchLengthCorrect | automarkerQt.py:166 | the pattern `   ([0-9]{1,6}) [a-zA-Z]` matches at a position exactly with the digit count found there |
| Processes.FindMatchLeftmost | automarkerQt.py:166 | the search returns the leftmost match, and none only when no position matches |
| Processes.DigitsValue | automarkerQt.py:166 | `int()` of `n` decimal digits is below `10^n` |
| Processes.ParsePid | automarkerQt.py:166 | `int(re.findall(pattern, l)[0])` for one line, with no pid where `[0]` raises; characterised by `ParsePidSpec` |
| Processes.ParsePidSpec | automarkerQt.py:166 | a line gives no pid exactly when the pattern never matches; otherwise the pid is the leftmost group's value, below 1000000 |
| Processes.PidsOf | automarkerQt.py:166 | the list comprehension over the kept lines, failing on the first line without a match; characterised by `PidsOfSpec` |
| Processes.PidsOfSpec | automarker.py:279 | one pid per line in line order when every line matches; otherwise the error names a line without a match |
| Processes.PidsFromTasklist | automarkerQt.py:161-166 | filter the output lines by the process name, then parse one pid from each; characterised by `PidsFromTasklistSpec` |
| Processes.PidsFromTasklistSpec | automarkerQt.py:159-166 | the pids come one per kept line in output order; parsing succeeds exactly when every line naming the process holds a pid |
| ExeSearch.CandidatePaths | automarkerQt.py:217-218 | three candidate paths are tried |
| ExeSearch.CandidatePathsSpec | automarkerQt.py:217-218 | each candidate lies under the install location and names `<app>.exe` |
| ExeSearch.FirstWithVersion | automarkerQt.py:211 | the entry found lists the newest version and no earlier entry does, as `[...][0]` picks; none is found only when no entry lists it |
| ExeSearch.FirstWithVersionIsFirst | automarkerQt.py:211 | the first entry listing the newest version is the one picked |
| ExeSearch.FirstFile | automarkerQt.py:217-224 | the index found is a file and no earlier path is; `len(paths)` means none is |
| ExeSearch.FolderOutcome | automarkerQt.py:216-225 | the first candidate that is a file, or the `IOError` listing all of them; characterised by `FolderOutcomeSpec` |
| ExeSearch.FolderOutcomeSpec | automarkerQt.py:217-225 | the first existing path is returned; the error lists all paths exactly when none exists |
| ExeSearch.SearchOutcome | automarkerQt.py:206-225 | the whole search: no entry, no entry with the newest version, or the folder search of the first such entry; characterised by `SearchOutcomeSpec` and `SearchOutcomeFirstEntry` |
| ExeSearch.SearchOutcomeSpec | automarkerQt.py:206-211 | not installed exactly when there is no entry; version not listed exactly when no entry has it |
| ExeSearch.SearchOutcomeFirstEntry | automarkerQt.py:211-225 | with the first entry listing the newest version, the search returns a path or the error listing that entry's three candidates; a returned path is the first candidate that is a file, and the error comes exactly when none is |
| ExeSearch.FolderOutcomeFirst | automarkerQt.py:216-225 | a returned path is a file and the first one that is; the error lists every path exactly when none is a file |
| ExeSearch.LastExeWindows | automarkerQt.py:198-225 | the method's result is the specified search outcome |
| ExeSearch.SearchFolders | automarkerQt.py:217-225 | the loop with its `wrong_paths` list returns the first existing candidate, or the error listing all three |
| ExeSearch.LastPremiereExeWindows | automarker.py:291-317 | the Tk search is the same search with the Premiere names |
| AfterEffects.CleanReturnPath | automarkerQt.py:357 | the cleaned return path starts with `/` |
| AfterEffects.CleanReturnPathSpec | automarkerQt.py:357 | the cleaned path has no backslash and no colon; a path already lower-case with forward slashes only gains the `/` |
| AfterEffects.DataOutCommand | automarkerQt.py:343-358 | the JSX text that evaluates the request and writes it to the cleaned return path; characterised by `DataOutCommandEmbedsPath` |
| AfterEffects.DataOutCommandEmbedsPath | automarkerQt.py:345-358 | for any request in which `[DATAFILEPATH]` does not occur, the command is the template with the request and the cleaned path in place of the placeholder |
| AfterEffects.NoPlaceholderBefore | automarkerQt.py:345-358 | no placeholder starts before the template's own, neither in the fixed text, nor in the request, nor across the request's end |
| AfterEffects.JSWrapper.constructor | automarkerQt.py:296-301 | the return file is `ae_temp_ret.txt` in the given folder, or in `AutoMarker` under the temporary directory when none is given; no commands yet |
| AfterEffects.JSWrapper.NewCommandGroup | automarkerQt.py:324-326 | the command list becomes empty |
| AfterEffects.JSWrapper.WriteDataOut | automarkerQt.py:343-360 | exactly one command is appended and the earlier ones are unchanged |
| AfterEffects.JSWrapper.ReadReturn | automarkerQt.py:378-381 | one string per line, in file order, each with its trailing whitespace stripped |
| AfterEffects.ReadLinesAreStripped | automarkerQt.py:378-381 | the returned lines end in no whitespace, so stripping again changes nothing |
| Preview.VisibleLength | automarkerQt.py:686 | the visible length is at most the sample count, and below it when there are samples |
| Preview.WindowOf | automarkerQt.py:680-688 | the window of visible samples for the zoom and scroll values, or the division by zero without samples; characterised by `WindowOfSpec` |
| Preview.WindowOfSpec | automarkerQt.py:680-688 | the window exists exactly when there are samples; `end = start + visible`; for scroll in `[0, len]`, `0 <= start` and `end <= len` |
| Preview.VisibleBeats | automarkerQt.py:690-691 | every re-based beat lies in `[0, end - start)` |
| Preview.VisibleBeatsMembers | automarkerQt.py:691 | a position is shown exactly when it is `b - start` for a beat `b` with `start <= b < end` |
| Preview.VisibleBeatsIncreasing | automarkerQt.py:691 | increasing beat positions stay increasing after filtering and re-basing |
| Preview.UpdateChart | automarkerQt.py:680-694 | the shown samples and the selected re-based beats; characterised by `UpdateChartSpec` and `UpdateChartBeats` |
| Preview.UpdateChartSpec | automarkerQt.py:680-694 | the preview fails only without samples; otherwise it shows exactly the samples of a window of the visible length inside the audio |
| Preview.UpdateChartBeats | automarkerQt.py:690-694 | the preview's `k`-th beat is the `(offset + k*every)`-th visible beat, re-based into the window and taken from the input |
| Markers.BeforeEnd | automarker.py:101-103 | the beats kept all lie before the end |
| Markers.BeforeEndMembers | automarkerQt.py:460-461 | a beat gets a marker exactly when it is in the list and before the end of the sequence |
| Markers.BeforeEndConcat | automarker.py:101-103 | markers are created list part by list part, so in list order |
| Markers.BeforeEndKeepsAll | automarker.py:101-103 | when every beat is before the end, every beat gets a marker |
| Markers.BeforeEndKeepsIncreasing | automarkerQt.py:457-461 | markers for increasing beats are created in increasing order |
| QtApp.CheckStatus | automarkerQt.py:820-829 | one polling round: the first host found running in the order Premiere, After Effects, Resolve; characterised by `CheckStatusPriority` |
| QtApp.CheckStatusPriority | automarkerQt.py:820-829 | Premiere is reported whenever it runs, After Effects when it runs and Premiere does not, Resolve only when neither does; `"0"` only when none runs |
| QtApp.AdapterFor | automarkerQt.py:935-947 | the adapter selected for a status string; characterised by `AdapterForStatusCode` |
| QtApp.AdapterForStatusCode | automarkerQt.py:935-947 | the status the checker emits selects that host's adapter (`"0"`: none); any other string changes neither the adapter nor the label |
| QtApp.MainWindow.UpdateAppStatus | automarkerQt.py:935-947 | the new adapter and label are the ones chosen for the status string, and an unknown string keeps both |
| QtApp.MarkersSent | automarkerQt.py:842-845 | nothing without an adapter, otherwise `beats[offset::every]`; characterised by `MarkersSentSpec` |
| QtApp.MarkersSentSpec | automarkerQt.py:842-845 | nothing is sent without an adapter; otherwise the markers sent are exactly `beats[offset + k*every]` in order, empty when the offset is past the end, all beats for `every = 1, offset = 0` |
| QtApp.PremiereMarkers | automarkerQt.py:454-466 | Premiere creates a marker exactly for the sent beats before the end of the active sequence |
| QtApp.TrackPositionAsWritten | automarkerQt.py:1002-1011 | the callback's position computation fails exactly when no samples are left |
| QtApp.TrackPositionAsWrittenFailsAtEnd | automarkerQt.py:1006 | the call that hands out the last samples fails with a division by zero, where the corrected position is defined |
| QtApp.TrackPosition | automarkerQt.py:680-688 | the position measured from the preview's window is defined whenever there is audio |
| QtApp.TrackPositionOnDisplay | automarkerQt.py:1002-1011 | the corrected position lies on the displayed waveform exactly when the played sample is in the window `update_chart` shows |
| QtApp.Player.constructor | automarkerQt.py:972-974 | playback starts with the whole audio left to play |
| QtApp.Player.Played | automarkerQt.py:1002 | the played count never exceeds the audio's length |
| QtApp.Player.Callback | automarkerQt.py:997-1014 | the chunk is the first `min(frame_count, remaining)` samples; chunk followed by the new buffer is the old buffer; the played position never decreases; the position fails exactly when the buffer is drained |
| TkApp.PlaceMarksSelection | automarker.py:93-95 | with `every == 1` all beats are kept and the offset is ignored; with `every > 1` the beats are `beats[offset::every]` |
| TkApp.IntendedSelection | automarker.py:211 | with a step of one the selection still drops the first `offset` beats |
| TkApp.UpdateMarkers | automarker.py:211-213 | the beats `[offset::every]` drawn on the preview, those below ten seconds; characterised by `UpdateMarkersSpec` |
| TkApp.UpdateMarkersSpec | automarker.py:211-213 | the preview draws exactly the beats `beats[offset + k*every]` below ten seconds, which is the intended placement within ten seconds, and the written placement for `every > 1` |
| TkApp.OffsetIgnoredWhenEveryIsOne | automarker.py:93-95 | for beats `[1.0, 2.0]`, `every = 1`, `offset = 1`, placement keeps both beats while the preview shows only `2.0` |
| TkApp.RepeatedPlacement | automarker.py:95 | a second placement selects `beats[offset + offset*every :: every*every]` from the original beats |
| TkApp.RepeatedPlacementExample | automarker.py:95 | four beats, every second one: the first placement keeps two, the second keeps one |
| TkApp.Session.PlaceMarks | automarker.py:87-104 | the global list becomes the selection as written, and a marker is appended for each of its beats before the end, in order |
| TkApp.Session.PlaceMarksCorrected | automarker.py:93-103 | the markers are those of the preview's selection before the end, and the global list is unchanged |
| TkApp.Session.CreateMarkers | automarker.py:101-103 | the loop appends exactly the beats before the end, in order, and changes nothing else |
| TkApp.Session.Callback | automarker.py:159-165 | the chunk is `data[playpos:playpos+frame_count]`, the position moves on by `frame_count`, and completion is signalled exactly when it reaches ten seconds of samples |
| TkApp.Session.OnLeftClick | automarker.py:176-179 | a click with `100 <= y <= 300` sets the seek position to `x` and raises the flag; any other click changes nothing |
| TkApp.CallbacksAreConsecutive | automarker.py:161-162 | two successive callbacks hand out what one callback of the combined frame count would |

## Left out

- Audio loading and beat tracking (`librosa.load`, `librosa.beat.beat_track`) are a foreign library; beats and samples are inputs.
- PyAudio stream setup and teardown are audio device I/O; the callbacks are modelled on their own.
- The `subprocess` calls (TASKLIST, pgrep, osascript, the AfterFX launch, system_profiler, the installers) are external; their output lines or pid lists are inputs.
- The macOS branches (`pgrep` output parsing, `_get_last_exe_mac`, `_get_last_premiere_exe_mac`) depend on external commands; only the Windows logic is modelled.
- Windows registry access and the `StrictVersion` sort are foreign calls; the entries and the newest version string are inputs, and that string is compared as given.
- ExeSearch.FolderNames: `str.format` on the folder templates is written out as concatenation, so an application name holding `{}` is not modelled.
- Text.Join: models `ntpath.join` only for a relative second part, with no drive or absolute-path handling.
- Text.Lower: lower-cases ASCII letters only, not the full Unicode mapping of `str.lower`.
- The HTTP POST to the Premiere panel and the Resolve scripting calls (`int(beat * framerate)`, the `numFrames >= 1` check) reach external hosts; for Premiere only the marker filter of its script is modelled.
- The generated JSX text of `addMarkers` and `clearAllMarkers` is host-side code; only the data-out command of `jsWriteDataOut` is modelled.
- AfterEffects.JSWrapper.ReadReturn: the mtime busy-wait before reading and the file read itself are left out; the lines read are the input.
- AfterEffects.JSWrapper.constructor: only the Windows default folder is modelled; the folder creation, the empty return file, the AE executable lookup and the macOS default are not.
- Preview.VisibleLength: uses exact arithmetic; Python's float `1 - zoom` can round the visible length one sample lower.
- Preview.WindowOf: the window start is the exact floor of `hidden * scroll / len`, where `update_chart` and `callback` compute `int(hidden * (scroll / len))` in floating point, which can be one sample lower (22 samples, zoom 96, scroll 15: the float product is just below 15, so the program starts at 14 and the model at 15); the same holds for ScrolledStart, QtApp.TrackPositionAsWritten, QtApp.TrackPosition and QtApp.Player.Callback.
- Preview.UpdateChart: beat positions in samples are given integers, not the float products `beat * sample_rate`.
- The float-valued steps are left out: the global offset of ±0.01 seconds, the Tk track-line pixel mapping (`track_line`), and the pixel geometry of `draw_waveform` and `draw_markers`.
- QtApp.Player.Callback: the returned bytes and `paContinue` flag and the widget update are not modelled; only the chunk, the buffer and the position are.
- QtApp.MainWindow.UpdateAppStatus: the adapters are named by host; their construction (the Resolve connection, the AE wrapper) is not modelled. That construction can raise: on Windows, when the registry has no key for next year's After Effects version, `self.aeKey` is never set and automarkerQt.py:274 raises `AttributeError`, so `update_app_status("2")` then changes neither the adapter nor the label, whereas `AdapterFor` always selects After Effects.
- QtApp.CheckStatus: models one polling round; an error from a process query (several Resolve processes) escapes `StatusChecker.run` and ends the polling thread, so the status label stops changing afterwards, which the model does not follow.
- TkApp.Session: the `info` status text, `root.update()` and the canvas drawing are GUI; markers created in Premiere are kept as a list field.
- Threads, signals and the one-second polling loop of `StatusChecker` are concurrency; one polling round is modelled.
- All Qt and Tk widget construction, layout and painting, and the flag-file install check at import time, are GUI and I/O.
- `build_script.py` only runs packaging tools and writes an installer template.

## Findings

| source | as written | input that shows it | evidently intended | confidence | as-written member | corrected member |
|---|---|---|---|---|---|---|
| automarker.py:93-95 | the `[offset::every]` selection is applied only when `every > 1`, so the offset is ignored when `every == 1` | beats `[1.0, 2.0]`, every 1, offset 1: both beats get markers, while the preview of `update_markers` (automarker.py:211) shows only `2.0` | place the same `[offset::every]` selection the preview shows, for every slider value | not executed; likely, since the preview honours the offset | TkApp.OffsetIgnoredWhenEveryIsOne | TkApp.IntendedSelection |
| automarker.py:95 | the global `beatsamples` is overwritten by the selection, so each further placement selects from the previous selection | beats `[0.5, 1.0, 1.5, 2.0]`, every 2, offset 0, placed twice: first `[0.5, 1.5]`, then `[0.5]` | select from the analysed beats each time and leave the global list alone | not executed; likely | TkApp.RepeatedPlacement | TkApp.Session.PlaceMarksCorrected |
| automarkerQt.py:1006 | the scroll value is divided by `len(self.data)`, the samples still to play | ten samples, one callback of ten frames: `self.data` is empty and the division raises `ZeroDivisionError` in the audio callback | measure the window from the whole audio, as `update_chart` does (automarkerQt.py:682-687) | not executed; high | QtApp.TrackPositionAsWrittenFailsAtEnd | QtApp.TrackPosition |
