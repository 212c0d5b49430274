# EEG trigger protocol and image preloader, modelled in Dafny

This project models the helper library of a PsychoPy experiment kit:

- `port_funcs.py` sends event-marker codes ("triggers") to EEG recording hardware.
  It supports three hardware modes: 1 = parallel (LPT) port, 2 = NI-DAQ digital lines, 3 = serial port.
- `preloader2.py` preloads image stimuli and matches them to rows of a trial table.

`triggers.dfy` (module `Triggers`) models the trigger code.
A port is a `Port` object whose `log` field records every value handed to its driver, oldest first.
A `Wire` is either a raw number (`setData(v)`, NI `write(v)`) or the one-character string `chr(v)` that the serial port's `write` receives.
The "no port" value `[]` is `null`. The clock is modelled only as present or absent.
`TrigSelect` is `trigselect`. It runs once per screen refresh, after the buffer flip:

1. it clears the port to 0;
2. then, only if the flag `send` is 1, it writes the code;
3. it returns 0 if the flag was 1, and the flag unchanged otherwise.

Its contract ties the new log to the specification function `FireWrites` and the returned flag to `FireFlag`.
The lemmas then state the protocol's guarantees over those functions.
`SessionWrites` models the calling pattern from the source's usage comment: each frame, `send = trigselect(code, send, ...)`, with `send` set to 1 at a stimulus onset.
`PortValueAfterFrame` proves, over whole sessions, that a code stays on the port for exactly one frame.

`pystr.dfy` (module `PyStr`) holds the Python operations the preloader relies on:

- substring `in`;
- `str.split(" ")`, with its empty pieces;
- `os.path.join`;
- the "append if not already in the list" idiom, as `Dedup`.

`preloader.dfy` (module `Preloader`) models the preloader's loops as methods.
Each method is proved against a specification function (`Tokens`/`Dedup`, `Kept`, `Selected`, `Globbed`, `ColumnValues`, `LastHitIndex`), and lemmas state what those functions mean.
What the model takes in place of the outside world:

- `glob.glob` is a parameter of type `string -> seq<string>`.
- The working directory, captured when the module is imported, is the parameter `path`.
- A loaded `visual.ImageStim` is the record `ImageStim(image)`.
- An image component is an `ImageComponent` object with one mutable `image` field.
- A trial-table row is a `map<string, string>`.

Where the code and the design description disagree, the model follows the code:

- In the fallback branch of `trigselect` (any other mode, or no port), a raised flag makes the code read the clock with no `None` check. So `TrigSelect` requires a clock there, instead of skipping the timestamp as the design describes.
- A flag that is neither 0 nor 1 is returned unchanged, not reset to false.
- `initTrig` in mode 3 opens a port only when `add != 0`. Its inner fallback to `serial_init()` and the "COM6" default can never run, so `InitTrig` returns `null` for mode 3 with address 0.
- `preloadXlsx1Col` and `preloadMinImg` read each row's columns literally named `imgFile` and `imgCol` (`Trial.imgFile`, `Trial.imgCol`). The name passed as an argument is never used, and the model reads those same fixed columns.
- `PreLoadFolder` keeps the source's top-level exclusion prefix `path+'/'+'/'`, under which no exclusion applies to files directly in the working directory (see Findings); `PreLoadFolderIntended` is the corrected version.
- `preLoadFolder` drops a file only when exactly ONE exclusion entry matches it. A file that two entries match is kept (`ExcludedIffSingleMatch`).

## Model

| member | source | states |
|---|---|---|
| `Triggers.NidaqInit` | port_funcs.py:29-38 | opens a fresh NI-DAQ port for the given library path, with nothing written yet |
| `Triggers.SerialInit` | port_funcs.py:49-55 | creates a fresh serial port object that records `add` as its device, with nothing written yet |
| `Triggers.TrigSelect` | port_funcs.py:157-187 | the port's log grows by exactly `FireWrites(code, send, mode)` and nothing else changes; the returned flag is 0 for a raised flag (1) and `send` otherwise, never 1; the time line is printed exactly when a raised flag fires with a clock, or in the fallback branch; the caller must pass a clock when a raised flag reaches the fallback branch |
| `Triggers.ClearThenSet` | port_funcs.py:158-178 | in modes 1-3 with a port, the first write of every call is 0; a call with `send == 1` makes exactly two writes, 0 then the code; any other call makes exactly one write, 0 |
| `Triggers.FallbackWritesNothing` | port_funcs.py:181-184 | in any other mode, or with no port, nothing is written and a raised flag still comes back as 0 |
| `Triggers.OneFrameVisibility` | port_funcs.py:157-187 | a code fired by one call is the last value of that call, and the next call, made with the returned flag, leaves 0 as the last value |
| `Triggers.SerialEncodesSameValues` | port_funcs.py:158-178 | the serial branch writes `chr(v)` for exactly the values `v` that the parallel and NI-DAQ branches write raw, clear and code alike, in the same order |
| `Triggers.PortValueAfterFrame` | port_funcs.py:139-187 | in a session where the caller reassigns its flag from every call, after frame k the port holds that frame's code if the flag was raised for frame k, and 0 otherwise; a session without onsets and with an initial flag other than 1 keeps the port at 0 |
| `Triggers.PortReset` | port_funcs.py:71-94 | the port's log grows by exactly `ResetWrites(mode)`, and by nothing in any other mode |
| `Triggers.ResetBaseline` | port_funcs.py:71-94 | in modes 1-3 with a port the reset writes exactly 255 then 0 (as characters in mode 3); otherwise it writes nothing |
| `Triggers.InitTrig` | port_funcs.py:111-133 | mode 1 opens a parallel port at `add`, or at 888 when `add` is 0; mode 2 opens an NI-DAQ port; mode 3 opens a serial port only when `add != 0`; every other case returns the empty sentinel; every port opened has been reset exactly once (log = 255, 0) and matches the mode |
| `PyStr.Split` | preloader2.py:51 | `split(" ")` returns at least one piece and no piece contains the separator |
| `PyStr.JoinSplit` | preloader2.py:51 | joining the pieces with the separator gives the original string back |
| `PyStr.PathJoin` | preloader2.py:63 | `os.path.join(a, b)` ends with `b`; for a relative `b` it starts with `a`, and it is `a + "/" + b` when `a` is non-empty and does not end in '/' |
| `PyStr.Dedup` | preloader2.py:53-54 | the append-if-absent list has no duplicates, and holds exactly the input's elements |
| `PyStr.DedupFirstOccurrenceOrder` | preloader2.py:48-55 | the append-if-absent list orders its elements by their first occurrence in the input |
| `Preloader.TokensOf` | preloader2.py:50-52 | a token occurs in the split of one of the input strings, and every piece of every split is a token |
| `Preloader.AppendNew` | preloader2.py:52-54 | the inner loop extends the deduplicated list of what was seen by the new folders, keeping first occurrences |
| `Preloader.FolderLister` | preloader2.py:48-55 | returns every space-separated token of the input strings exactly once, in order of first occurrence, and nothing else |
| `Preloader.FilterExcluded` | preloader2.py:80-89 | the candidate loop with its `IdMatch` counting loop returns exactly `Kept(prefix, excludList, candidates)` |
| `Preloader.MatchCountZero` | preloader2.py:65-70 | the counter stays 0 exactly when no exclusion entry, with the prefix in front, occurs in the file |
| `Preloader.ExcludedIffSingleMatch` | preloader2.py:65-74 | a file is dropped exactly when one exclusion entry matches it and no other does; a file that two entries match is kept |
| `Preloader.KeptMembership` | preloader2.py:63-74 | the filter adds no path, and keeps exactly the candidates it does not exclude |
| `Preloader.KeptAppend` | preloader2.py:78-89 | the filter keeps candidates in their order: filtering a concatenation is concatenating the filtered parts |
| `Preloader.FilterSearches` | preloader2.py:78-102 | the folder loop returns the survivors of every folder's glob, folder after folder |
| `Preloader.SelectedMembership` | preloader2.py:59-102 | a selected path was returned by one of the globs and not excluded under that glob's prefix; every such path is selected |
| `Preloader.LoadFolder` | preloader2.py:59-109 | for a given top-level exclusion prefix: builds one image per selected path, in order, each showing its path; returns the working directory; which globs it runs depends on "NaN" in the folder list and in `subFolder` |
| `Preloader.PreLoadFolder` | preloader2.py:59-109 | as written, including the prefix `path+'/'+'/'` for files directly in the working directory: one image per selected path, in order, each showing its path; returns the working directory |
| `Preloader.PreLoadFolderIntended` | preloader2.py:59-109 | the same with the top-level exclusion prefix corrected to `path+'/'`; the folder branches are unchanged |
| `Preloader.PreLoadFolderExclusionExample` | preloader2.py:59-74 | with the default folder list, `path` "/exp", exclusion "face1" and a glob that finds "/exp/face1.png", the source selects that file and the corrected version selects nothing |
| `Preloader.TopLevelExclusionInert` | preloader2.py:67 | with the prefix as written (`path+'/'+'/'`), no exclusion applies to a path without "//", so every file in the working directory is kept |
| `Preloader.TopLevelExclusionApplies` | preloader2.py:67 | with the corrected prefix `path+'/'`, a top-level file whose name starts with the one exclusion entry is dropped |
| `Preloader.TopLevelExclusionExample` | preloader2.py:63-72 | excluding "face1" in "/exp" keeps "/exp/face1.png" as written, and drops it with the correction |
| `Preloader.BuildImages` | preloader2.py:104-106 | one image object per path, in order, each with `image` set to its path |
| `Preloader.GlobAll` | preloader2.py:167-169 | the glob loop returns every pattern's results, pattern after pattern |
| `Preloader.GlobbedMembership` | preloader2.py:141-143 | a collected path is a result of one of the patterns, and every result of every pattern is collected |
| `Preloader.PreLoadPwd` | preloader2.py:114-123 | one image per file of the type in the working directory, in glob order |
| `Preloader.ColumnValues` | preloader2.py:161-163 | one cell per entry of the trial sequence, in that order, taken from the row that entry points to |
| `Preloader.CollectNames` | preloader2.py:160-163 | collects one name per entry of `sequenceIndices`, in that order, duplicates kept |
| `Preloader.CollectDistinctNames` | preloader2.py:131-136 | collects the same names without repeats, in order of first use; collects nothing when the column list is empty |
| `Preloader.PreloadXlsx1Col` | preloader2.py:156-173 | loads, in trial order and with repeats, every file that `os.path.join(path, name)` globs to |
| `Preloader.PreloadMinImg` | preloader2.py:127-151 | loads, once per name and in order of first use, every file that `os.path.join(path, folder+'/'+name)` globs to; loads nothing when the column list is empty |
| `Preloader.LastHitIndex` | preloader2.py:179-190 | the position picked is -1 exactly when no image matches; otherwise the image there matches and no later image does |
| `Preloader.ShownAfterSnoc` | preloader2.py:179-181 | scanning one more image: a match replaces what the component shows, anything else leaves it |
| `Preloader.ImgMatchFolder` | preloader2.py:176-181 | the component ends up showing the last loaded image whose path contains `imgFile`, or keeps its image when none does |
| `Preloader.ImgMatchPwd` | preloader2.py:186-190 | the component ends up showing the last loaded image whose path equals `os.path.join(path, imgFile)`, or keeps its image when none does |
| `Preloader.XlsxSingleMatcher` | preloader2.py:195-197 | the component shows the image at position `countVar`, counted from the end when negative; the position must exist |

## Left out

- stimMod.py (sinusoid sampling, opacity and contrast setters) is not part of this model: it is floating-point numerics.
- The one-second `core.wait` between the two reset writes is not modelled. Wall-clock time is outside the model; the writes follow each other directly.
- Driver construction is reduced to an opaque `Port.Open`: `sys.path.insert`, the `nidaqmx` task and channel setup, `serial.Serial()` with `open()`, and `parallel.ParallelPort`. Driver behaviour beyond recording the written value is not modelled.
- `print` diagnostics and clock readings are not modelled; `TrigSelect` only reports whether the timestamp line was printed.
- TrigSelect: requires the mode to match the kind of port object. A mismatched pair would call a method the driver object does not have, which the model does not represent.
- SerialInit: the source stores the address in the attribute `Port`, while pyserial reads the lowercase `port`. Whether the address reaches the driver, and so whether `open()` succeeds, is not modelled; the model only records `add` as the device.
- PortReset: requires the mode to match the kind of port object, for the same reason as TrigSelect.
- TrigSelect: requires `0 <= code < 256` for a serial firing, the range where Python 2's `chr` does not raise; the source would write the clear and then raise with the flag still 1.
- The source is read as Python 2 code, the only interpreter that accepts its indentation. This decides the range of `chr`.
- Python truthiness of `port` is reduced to `null` versus an object. Other falsy values are not modelled.
- `send` and `code` are integers; other Python types (`True` behaves as 1) are not modelled.
- `visual.ImageStim` decoding, the `window` argument, orientation and position are not modelled. An image is its path.
- `glob.glob` and `os.getcwd` are parameters. The order glob returns is taken as given.
- ImgMatchFolder: the `imgFile == None` branch is not modelled; `imgFile` is a string. With a non-empty image list, `None in str` raises before that branch is reached.
- ImgMatchPwd: the `imgFile == None` branch is not modelled. For a `None` cell (an empty spreadsheet cell), the loop compares each path with `os.path.join(path, 'None')`, and afterwards the component's image is set to `None`. The model takes `imgFile` as a string and does not cover that final reset.
- ImgMatchPwd: `str(imgFile)` of a non-string cell (a number from the spreadsheet) is not modelled; the model takes the string.
- ImgMatchFolder: only the component's final image is modelled. Images set and replaced during the loop are not observable after the call.
- XlsxSingleMatcher: requires `-|imgObjList| <= countVar < |imgObjList|`. An index outside that range raises IndexError in the source, which the model does not represent.
- Paths follow POSIX `os.path.join` (`posixpath`); Windows `ntpath` joining with '\\' and backslash glob results are not modelled. On Windows the '/'-built exclusion prefixes of `preLoadFolder` never occur in a glob result, and the `imgMatchPwd` target is a different string.
- The trial handler's `sequenceIndices` is a flat list of row indices. Each index must point into `trialList`, and each row read must have the column, since Python raises otherwise. The handler's array shape is not modelled.
- `initTrig` and `preloadMinImg` indent some lines with tabs and others with spaces, which Python 3 rejects. The model reads a tab as eight columns, as Python 2 does, which gives the nesting the comments describe.
- The mutable default arguments (`['NaN']`, `'NaN'`) are passed explicitly by the caller.

## Findings

| source | as written | input that shows it | evidently intended | confidence | as-written member | corrected member |
|---|---|---|---|---|---|---|
| preloader2.py:67 | with POSIX paths, the exclusion for files directly in the working directory looks for `path+'/'+'/'+excl` in each found path | `path` "/exp", `excludList` ["face1"], glob result "/exp/face1.png": the file is kept | `path+'/'+excl`, as lines 82 and 95 build theirs; the file is dropped (`PreLoadFolderIntended`) | high; not executed | `Preloader.TopLevelExclusionInert` | `Preloader.TopLevelExclusionApplies` |
