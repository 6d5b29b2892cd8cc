# CUE list plugin for Rhythmbox — a Dafny model

The plugin shows a track list for a single-file album image (one audio file
plus a `.cue` sheet beside it) and keeps a play mark on the track being heard.
This project models its logic as pure functions over a small state record and
proves properties about them:

- **Cue sheet lookup and parsing** (`Paths`, `CueSheet`). The sheet path is the
  audio path with its last extension replaced by `.cue`. The sheet must declare
  exactly one `FILE "<name>" WAVE`. That name without its extension must equal
  the audio base name. The *i*-th `TRACK`/`TITLE` match is then paired with the
  *i*-th `INDEX 01 MM:SS:FF` match, giving `(title + "\t\t", MM*60 + SS)`.
- **Duration formatting** (`Decimal`, `Hms`). `seconds_to_hms` prints `M:SS` or
  `H:MM:SS`. A reader proved to be its exact inverse is included.
- **Track table** (`TrackTable`). A closing `("NULL", duration)` entry is
  appended, one row is built per real track, and the mark is placed on row 0.
- **Cursor** (`Cursor`, `Plugin`). The elapsed-time callback moves the mark to
  the first track whose interval (both ends included) holds the sample. The
  row-activation callback moves it to the first track with the clicked title
  and returns the offset to seek to.

The regular-expression scans are abstracted. A cue file is given by its matches
in document order (`CueSheet.CueScan`). The filesystem is a map from existing
cue paths to those scans. The host's callbacks are `Plugin.Event`s and the
player commands become the returned seek offset.

## Behaviour the model keeps

- When nothing is playing, `cue_plugin.py` destroys the window but does not
  reset `self.window` (still truthy) or `self.track_data`
  (cue_plugin.py:29-33). Later elapsed samples therefore keep moving the
  cursor of the old table (cue_plugin.py:96).
- When no interval holds the sample, the loop falls through and `row` becomes
  `len(track_data) - 2`, the last interval, while the mark stays where it was (cue_plugin.py:99-106; see
  Findings).
- Titles are kept as captured, with two tab characters appended
  (cue_plugin.py:168).
- `\d+` captures only digits, so `int()` on the TRACK number and the INDEX
  fields cannot fail (cue_plugin.py:162-163, 167-170).
- The base-name search fails when the stem is empty or ends in `/`. Its
  result is used only once the cue file exists and has exactly one FILE match
  (cue_plugin.py:145-158); the function returns None before that point
  otherwise. In that one case `.group(1)` raises AttributeError, the handler
  aborts and the state stays as it was (`CueSheet.Outcome.NoBasename`).

## Model

| member | source | states |
|---|---|---|
| `Paths.DropScheme` | cue_plugin.py:140 | removing `file://` never lengthens the path |
| `Paths.UriToPath` | cue_plugin.py:140 | a `file://` URI whose path holds no other `file://` yields exactly that path |
| `Paths.DropExtension` | cue_plugin.py:143 | `rsplit('.', 1)[0]`: the whole string when it has no dot; otherwise the prefix ending just before a dot, with no dot after it |
| `Paths.DropExtensionOfJoin` | cue_plugin.py:143 | dropping the extension undoes appending `"." + ext` when `ext` has no dot |
| `Paths.BaseName` | cue_plugin.py:152 | `[^/]+$` finds no match exactly when the path is empty or ends in `/`; otherwise it is the longest non-empty slash-free suffix |
| `Paths.BaseNameOfJoin` | cue_plugin.py:152 | the base name of `dir + name` is `name` for a slash-terminated or empty `dir` |
| `Paths.CuePath` | cue_plugin.py:140-144 | the cue path is the unschemed path, cut before its last dot when it has one, followed by `.cue` |
| `Paths.CuePathOfJoin` | cue_plugin.py:140-144 | `file://dir/name.ext` looks for `dir/name.cue` and its stem is `dir/name` |
| `Decimal.FromNat` | cue_plugin.py:180 | `str(n)` is a non-empty digit string without a leading zero |
| `Decimal.Pad2` | cue_plugin.py:180 | `{:02d}` gives at least two digits; below 100 exactly two, reading back as the number |
| `Decimal.NatRoundTrip` | cue_plugin.py:169-170 | `int(str(n)) == n`, and `str(int(s)) == s` for every canonical digit string |
| `Decimal.IntRoundTrip` | cue_plugin.py:183-185 | the same round trip for signed integers, as printed for the hours field |
| `Decimal.Pad2RoundTrip` | cue_plugin.py:180 | every two-digit string is what `{:02d}` prints for its value |
| `CueSheet.Pair` | cue_plugin.py:164-172 | the zip has min(#TRACK, #INDEX) entries; entry i has the i-th title plus two tabs and the i-th INDEX start `MM*60+SS`, frames ignored |
| `CueSheet.CheckAndParse` | cue_plugin.py:138-173 | no cue file at the cue path gives no list; a count of FILE matches other than one gives no list; a FILE stem other than the audio base name gives no list; a missing base name raises; otherwise the zip of the matches |
| `CueSheet.IndexFor` | cue_plugin.py:169-171 | an `INDEX 01` written for an offset reads back as that offset |
| `CueSheet.AudioNameOfJoin` | cue_plugin.py:140-152 | for the audio file `dir/name.ext` (dots inside `name` allowed, only the last extension is dropped) the cue file is `dir/name.cue` and the base name is `name` |
| `CueSheet.SheetNamesAudio` | cue_plugin.py:152-159 | a sheet declaring `name.wav` is accepted for the audio file `dir/name.ext`, also when `name` itself contains dots (`Vol. 2.flac` with `Vol. 2.wav`) |
| `CueSheet.PairOfSheet` | cue_plugin.py:164-172 | pairing the matches of a written sheet returns the written titles and offsets in order |
| `CueSheet.SheetRoundTrip` | cue_plugin.py:138-173 | writing a sheet beside an audio file (any slash-free name, dotted or not) and parsing it recovers every title (with its tabs) and every start offset |
| `Hms.Fields` | cue_plugin.py:177-178 | the divmod fields satisfy `h*3600 + m*60 + s = n` with `m, s < 60` |
| `Hms.FieldsUnique` | cue_plugin.py:177-178 | those are the only fields with `m, s < 60` summing to `n` |
| `Hms.SecondsToHms` | cue_plugin.py:176-185 | `M:SS` when the hours field is 0, otherwise `H:MM:SS` with minutes padded to two digits (the unpadded branch for minutes >= 10 prints the same) |
| `Hms.HmsRoundTrip` | cue_plugin.py:176-185 | every printed duration reads back as that duration |
| `Hms.ParseHmsCanonical` | cue_plugin.py:176-185 | any text that reads as `n` is exactly the text printed for `n` |
| `Hms.HmsInverse` | cue_plugin.py:176-185 | reading and printing are inverse in both directions |
| `Hms.HmsInjective` | cue_plugin.py:176-185 | distinct durations are printed differently |
| `Hms.HmsExamples` | cue_plugin.py:176-185 | 125 gives `2:05`, 3605 gives `1:00:05`, 4200 gives `1:10:00` |
| `TrackTable.WithSentinel` | cue_plugin.py:47-48 | the parsed entries come first, then one `("NULL", duration)` entry |
| `TrackTable.BuildRows` | cue_plugin.py:52-63 | one row per real track with its title; each time cell reads back as `off(i+1) - off(i)`; the mark is on row 0 only |
| `TrackTable.SumDurationsTelescopes` | cue_plugin.py:52-55 | the first k durations add up to `off(k) - off(0)` |
| `TrackTable.ShownLengthsCoverAudio` | cue_plugin.py:46-63 | the lengths shown in the table add up to the audio duration minus the first start |
| `Cursor.FirstCovering` | cue_plugin.py:99-105 | the least index whose inclusive interval holds the sample, or none when no interval does |
| `Cursor.ScanElapsed` | cue_plugin.py:99-106 | the for/break loop stops at that least index; without a match its loop variable ends at `len - 2` |
| `Cursor.FirstTitled` | cue_plugin.py:114-117 | the least real-track index carrying the title, or none |
| `Cursor.MoveMark` | cue_plugin.py:103-104 | the new row gets the mark, the old row loses it, no other cell changes |
| `Plugin.OnSongChanged` | cue_plugin.py:25-92 | nothing playing only destroys the window; a sheet with tracks installs a fresh table at row 0 whose times read back as the track lengths; a raised parse error changes nothing; any other outcome drops the table and dismisses the window, leaving the old rows and `row` as they were; exactly one mark is kept |
| `Plugin.FreshTableForgetsOld` | cue_plugin.py:40-63 | after a successful track change nothing of the previous state survives |
| `Plugin.ElapsedAsWritten` | cue_plugin.py:95-106 | a sample inside the current interval changes nothing; otherwise the mark and row move to the first covering track; with no covering track `row` becomes `len - 2` and the marks stay |
| `Plugin.Elapsed` | cue_plugin.py:95-106 | the corrected handler: a sample inside the current interval changes nothing; otherwise row and mark move to the first covering track and only the mark column of the old and new rows changes; with no covering track nothing changes; exactly one mark stays on `row` |
| `Plugin.ElapsedIdempotent` | cue_plugin.py:97-98 | a repeated sample causes no second move |
| `Plugin.BoundaryGoesToLowerTrack` | cue_plugin.py:99-105 | a sample on the boundary shared by tracks i and i+1 never moves the cursor past i |
| `Plugin.NoTableIgnoresElapsed` | cue_plugin.py:96 | after a track change without a usable sheet, elapsed samples do nothing |
| `Plugin.SelectTitle` | cue_plugin.py:109-129 | a known title moves row and mark to its first occurrence and seeks to that track's start; an unknown title changes nothing and seeks nowhere |
| `Plugin.OnRowActivated` | cue_plugin.py:109-129 | clicking a row always seeks; row and mark move to the first row carrying the clicked title, never after the clicked one, and only the mark column of the old and new rows changes; one mark stays one mark |
| `Plugin.ActivateDistinctTitles` | cue_plugin.py:113-117 | with distinct titles, clicking a row selects that very row |
| `Plugin.Run` | cue_plugin.py:25-129 | any sequence of callbacks (corrected handler) keeps exactly one mark, on `row` |
| `Plugin.RunAsWritten` | cue_plugin.py:95-106 | the callbacks as written keep the table's shape and `row` in range |
| `Plugin.DoubleMarkAsWritten` | cue_plugin.py:99-106 | a reachable run of the as-written callbacks leaves two rows marked |
| `Plugin.DoubleMarkCorrected` | cue_plugin.py:99-106 | the same run with the corrected handler leaves exactly one mark |

## Left out

- Plugin lifecycle and signal wiring (`do_activate`, `do_deactivate`, cue_plugin.py:11-22): host plumbing. Only the initial state (`Plugin.Init`) is kept.
- GTK rendering: the list store, tree view, columns, window sizing and the window title (cue_plugin.py:49, 66-90). The list store is the `rows` sequence and the window is `Plugin.Window`.
- Filesystem access (`os.path.exists`, `open`, `read`, cue_plugin.py:145-149): a map from existing cue paths to their scans stands in for it. Read and decode errors are not modelled.
- `urllib.parse.unquote` (cue_plugin.py:140): a library call; the URI is taken as already decoded.
- Regular-expression semantics (cue_plugin.py:153, 162-163): a cue file is given by its match sequences. The greedy `.+`, `\s+` and the non-overlapping scan are not modelled. `\d` is taken to match ASCII digits only, while Python also matches other Unicode decimal digits.
- The track number `int(track_match.group(1))` (cue_plugin.py:167): it is computed but never used.
- Player commands `set_playing_time` and `play` (cue_plugin.py:125, 128): foreign calls. The seek offset is returned instead.
- The `selected_iter is not None` guard (cue_plugin.py:112): a click is modelled only for an existing row of the shown table.
- Elapsed times and durations are whole seconds (`int`), as the host delivers them; there is no floating point.
- Paths.DropScheme: its contract only bounds the length. The removal itself is stated by `Paths.UriToPath` for a URI with one leading `file://`; paths containing `file://` elsewhere are not characterised.

## Findings

| source | as written | input that shows it | evidently intended | confidence | as-written member | corrected member |
|---|---|---|---|---|---|---|
| cue_plugin.py:99-106 | `self.row = i` runs after the loop even when no interval matched, so `row` jumps to the last track while the mark stays put; the next match clears the unmarked row and leaves two marks | sheet with tracks at 0, 100 and 200 s, duration reported as 0, elapsed samples 150, 250, 50: tracks 1 and 2 end up both marked | assign `row` only when an interval matched, so the mark and `row` always agree | medium, not executed | `Plugin.ElapsedAsWritten` (shown by `Plugin.DoubleMarkAsWritten`) | `Plugin.Elapsed` (one mark kept by `Plugin.Run`) |
