# Vicon DataStream wrapper, modelled in Dafny

The repository wraps the Vicon DataStream SDK for lab use in two languages.

- **C++** (`vdsi::VDS_Interface`, VDS_Interface.h): reads one frame from the SDK, turns each subject into a `Point` (a 3x3 rotation and a position, occluded when every rotation entry or every position entry is exactly 0), and filters the points. With the object filter on and the occluded filter off, it lays them out in allow-list order, adding occluded placeholders for objects that are not seen.
- **Python** (`Point`, `Frame`, `BackgroundThread`, `Interface`, VDSInterface.py): does the same decoding in a producer process and hands frames to the caller through Events and a queue. In the model, where each producer pass and each caller operation is one whole step, these flags make sure that no frame made before a settings change is handed out after it; the real queue can break this (see "## Left out").
- **CSV export** (CSV_Exporter.h): holds header rows and data rows whose lengths must all equal the first row's, and prints them as comma-terminated cells.
- **Command-line template** (vds_template_4.cpp): parses its arguments by scanning them from last to first, builds the CSV header from the allow list, and numbers the frames from 1.

The model's modules are:

- `Wrappers`: `Option` and `Result`.
- `VdsPoints`: the C++ `Point` and `Points`.
- `VdsInterface`: the C++ filters and `FrameToPoints`.
- `PyPoint` and `PyFrame`: the Python `Point` and `Frame`.
- `PyInterface`: the Python filters, decode and sort, plus the producer/consumer flag state as one sequential class.
- `CsvExporter`: `ExportCSV` and `Export_CSV_RowBuilder`.
- `CommandLine`: `IsFlag`, `ParseArgsOfFlag` and the argument loop.
- `ExportLayout`: the header row, the data row and the frame-number column.

Modelling choices:

- **Numbers.** C++ doubles are `real`, because the code only compares them with 0. Python numpy values are `NaN | Val(real)`, because occlusion is "all NaN".
- **The Python dict.** `Frame._all` always keys a point by its own name. It is therefore held as the insertion-ordered sequence of its values, with distinct names. Assigning to a key that is already present replaces that point in place.
- **The SDK.** Each call to the SDK becomes input data: a sequence of subject records, plus the frame number, timestamp and frame rate passed to the producer step.
- **Processes.** The two Python processes are modelled as one object. A producer pass is split into `StartIteration` and `FinishIteration`, and caller operations run between the two steps. Each wait on an Event, and the join in `Disconnect`, becomes a precondition. Frames cross the queue pickled, so the queue and the consumer's cache hold frame values (`FrameData`), and `GetFrame` returns a new `Frame` object restored from the cached value.
- **Repeated allow-list names.** Python's sort builds a dict, so a name listed twice yields one point, at its first place. C++ pushes one point per allow-list entry, so a name listed twice yields two copies. Both are modelled as written.
- **Ghost counters.** They record the settings version and the publish each held frame came from. This lets `GetFrame` state the freshness guarantee directly.

## Model

| member | source | states |
|---|---|---|
| VdsPoints.IsOccludedPose | Template_CPP/src/vicon_template/VDS_Interface.h:349-363 | occluded iff all nine rotation entries are 0 or all three position entries are 0 |
| VdsPoints.RAt | Template_CPP/src/vicon_template/VDS_Interface.h:94-100 | out of bounds (an error) iff col or row lies outside 1..3; otherwise the element in matrix row col, column row of the row-major storage (its helper `RowMajorIndexIsInjective`: distinct in-range pairs address distinct entries) |
| VdsPoints.FirstNamed | Template_CPP/src/vicon_template/VDS_Interface.h:156-169 | None iff no point has the name; otherwise a point with that name with none before it |
| VdsPoints.FirstNamedAt | Template_CPP/src/vicon_template/VDS_Interface.h:156-169 | the first index holding the name determines the result |
| VdsPoints.Points.constructor | Template_CPP/src/vicon_template/VDS_Interface.h:138 | starts empty |
| VdsPoints.Points.AddPoint | Template_CPP/src/vicon_template/VDS_Interface.h:145-149 | appends exactly the point at the end |
| VdsPoints.Points.Get | Template_CPP/src/vicon_template/VDS_Interface.h:156-169 | the search loop returns the first point with the name, or none |
| VdsInterface.FirstSubject | Template_CPP/src/vicon_template/VDS_Interface.h:376-393 | the first subject record with a name, or none |
| VdsInterface.AcceptedAppend | Template_CPP/src/vicon_template/VDS_Interface.h:314-372 | one more subject adds its decoded point exactly when it passes the filters |
| VdsInterface.AcceptedMembers | Template_CPP/src/vicon_template/VDS_Interface.h:314-372 | without reordering, the output holds exactly the decoded subjects that pass, never more points than subjects |
| VdsInterface.AcceptedAllPass | Template_CPP/src/vicon_template/VDS_Interface.h:314-372 | when every subject passes, the output is every subject decoded, in feed order |
| VdsInterface.FirstNamedAccepted | Template_CPP/src/vicon_template/VDS_Interface.h:376-393 | for an allow-listed name the lookup in the filtered points finds the first subject of that name, decoded |
| VdsInterface.AllowListLayout | Template_CPP/src/vicon_template/VDS_Interface.h:376-393 | object filter on and occluded filter off: one point per allow-list entry, in allow-list order, named by it, the first subject of that name or an all-zero occluded placeholder |
| VdsInterface.VdsInterface.constructor | Template_CPP/src/vicon_template/VDS_Interface.h:199-203 | both filters off, empty allow list |
| VdsInterface.VdsInterface.EnableObjectFilter | Template_CPP/src/vicon_template/VDS_Interface.h:271-275 | turns the object filter on and replaces the allow list; occluded filter kept |
| VdsInterface.VdsInterface.DisableObjectFilter | Template_CPP/src/vicon_template/VDS_Interface.h:278 | turns the object filter off and keeps the allow list |
| VdsInterface.VdsInterface.EnableOccludedFilter | Template_CPP/src/vicon_template/VDS_Interface.h:281 | turns the occluded filter on, nothing else changes |
| VdsInterface.VdsInterface.DisableOccludedFilter | Template_CPP/src/vicon_template/VDS_Interface.h:284 | turns the occluded filter off, nothing else changes |
| VdsInterface.VdsInterface.AllowedByFilters | Template_CPP/src/vicon_template/VDS_Interface.h:415-441 | true iff not (occluded filter on and point occluded) and (object filter off or the name is on the allow list) |
| VdsInterface.VdsInterface.DecodeSubjects | Template_CPP/src/vicon_template/VDS_Interface.h:310-373 | fails iff some subject has other than one segment; otherwise a new `Points` holding the decoded subjects that pass the filters, in feed order |
| VdsInterface.VdsInterface.SortByAllowList | Template_CPP/src/vicon_template/VDS_Interface.h:375-392 | a new `Points` with one point per allow-list entry, in order: the first point of that name, else an occluded zero placeholder |
| VdsInterface.VdsInterface.FrameToPoints | Template_CPP/src/vicon_template/VDS_Interface.h:307-396 | fails iff some subject has other than one segment; otherwise yields the points the specification functions describe: filtered in feed order, or laid out along the allow list |
| PyPoint.ToColumn | Template_Python/VDSInterface.py:36-42 | the (1,3) and (3,) forms become (3,1) with the same elements |
| PyPoint.NewPoint | Template_Python/VDSInterface.py:29-56 | succeeds iff P's shape is (3,1), (1,3) or (3,) and R's is (3,3); a bad P is reported before a bad R; stores name, R and P; occluded iff every entry of both is NaN (its helper `ShapeSizes`: the accepted shapes hold 3 or 9 elements) |
| PyPoint.Placeholder | Template_Python/VDSInterface.py:29-51 | `Point(name)`: that name, all NaN, occluded |
| PyFrame.IndexOfName | Template_Python/VDSInterface.py:133-142 | the first position holding the name, or none |
| PyFrame.PutIsDictAssignment | Template_Python/VDSInterface.py:133-134 | `_all[name] = point`: names stay distinct; the name now maps to the point; other names keep their points; an old key keeps its place; a new key goes at the end |
| PyFrame.Unoccluded | Template_Python/VDSInterface.py:150-155 | exactly the points that are not occluded, never more than were there |
| PyFrame.Frame.constructor | Template_Python/VDSInterface.py:121-124 | stores number and time, empty dict |
| PyFrame.Frame.Restore | Template_Python/VDSInterface.py:498 | a new frame object whose number, time and points are those of the given value |
| PyFrame.Frame.AddPoint | Template_Python/VDSInterface.py:133-134 | the dict after assignment under the point's name |
| PyFrame.NamedOrPlaceholder | Template_Python/VDSInterface.py:136-142 | `GetByName` over the dict's values, which the sort uses: that name, exactly the stored point when there is one, otherwise an occluded all-NaN one |
| PyFrame.Frame.GetByName | Template_Python/VDSInterface.py:136-142 | never absent: exactly the point stored under that name, or an occluded all-NaN point of that name |
| PyFrame.Frame.GetByNames | Template_Python/VDSInterface.py:144-148 | one result per name, in the order given, each `GetByName` of it |
| PyFrame.Frame.GetIfNotOccluded | Template_Python/VDSInterface.py:150-155 | the non-occluded points in `All()` order |
| PyInterface.DecodeSubject | Template_Python/VDSInterface.py:261-277 | keeps the name; occluded iff the feed flags translation or rotation, or every rotation and translation value is NaN; an occluded point is all NaN; an unflagged subject keeps the feed's numbers |
| PyInterface.DecodedPoints | Template_Python/VDSInterface.py:250-280 | the frame after the decode loop holds distinct names; its order and values are fixed by the two lemmas below |
| PyInterface.Kept | Template_Python/VDSInterface.py:250-280 | the reference filter: decoded subjects that pass, in feed order, each some subject decoded, never more than the subjects |
| PyInterface.DecodedNamesInFeedOrder | Template_Python/VDSInterface.py:250-280 | the decoded frame's keys are the passing subjects' names, each at its first place in the feed |
| PyInterface.DecodedInFeedOrder | Template_Python/VDSInterface.py:250-280 | with no name twice in the feed, the decoded frame is exactly the decoded passing subjects in feed order |
| PyInterface.LastPassing | Template_Python/VDSInterface.py:250-280 | none iff no subject of the name passes the filters; otherwise the index of the last subject of that name that passes |
| PyInterface.DecodedHoldsLastPassing | Template_Python/VDSInterface.py:250-280 | the decoded frame holds a name iff some subject of that name passes, and then holds the decoded point of the last such subject |
| PyInterface.SortedPoints | Template_Python/VDSInterface.py:321-331 | the sorted frame has distinct names, each from the allow list |
| PyInterface.FirstOccurrences | Template_Python/VDSInterface.py:325-330 | the allow list with repeats dropped: distinct, the same names, and the list itself when it has no repeat |
| PyInterface.SortedFollowsAllowList | Template_Python/VDSInterface.py:321-331 | for any allow list, repeats included, the sorted frame is exactly the points (found or placeholder) of the list's first occurrences that pass the filters, in allow-list order |
| PyInterface.SortedWithoutOccludedFilter | Template_Python/VDSInterface.py:321-331 | object filter on, occluded filter off, any allow list: one point per distinct allow-list name, in first-occurrence order, the stored one or a placeholder |
| PyInterface.SortedDropsOccluded | Template_Python/VDSInterface.py:307-331 | occluded filter on: no occluded point, so no placeholder, survives the sort |
| PyInterface.Interface.constructor | Template_Python/VDSInterface.py:335-366 | disconnected, every Event clear, frame rate -1, empty cache |
| PyInterface.Interface.Connect | Template_Python/VDSInterface.py:381-393 | no-op when connected; otherwise clears kill, ready and read, starts the producer with an empty allow list |
| PyInterface.Interface.Disconnect | Template_Python/VDSInterface.py:404-412 | no-op when disconnected; otherwise sets kill, the producer has stopped, disconnected |
| PyInterface.Interface.EnableObjectFilter | Template_Python/VDSInterface.py:426-437 | object filter on, queue holds the new list, ready cleared, setting-changed set |
| PyInterface.Interface.DisableObjectFilter | Template_Python/VDSInterface.py:439-443 | object filter off, ready cleared, setting-changed set |
| PyInterface.Interface.EnableOccludedFilter | Template_Python/VDSInterface.py:445-449 | occluded filter on, ready cleared, setting-changed set |
| PyInterface.Interface.DisableOccludedFilter | Template_Python/VDSInterface.py:451-455 | occluded filter off, ready cleared, setting-changed set |
| PyInterface.Interface.AllowedByFilters | Template_Python/VDSInterface.py:307-317 | true iff not (occluded filter on and point occluded) and (object filter off or name on the producer's list) |
| PyInterface.Interface.StartIteration | Template_Python/VDSInterface.py:219-237 | clears setting-changed; a non-empty queue replaces the producer's list and is emptied, an empty one leaves the old list |
| PyInterface.Interface.DecodeFrame | Template_Python/VDSInterface.py:247-280 | raises iff some subject has other than one segment; otherwise a new frame of the decoded subjects that pass |
| PyInterface.Interface.SortByObjectFilter | Template_Python/VDSInterface.py:321-331 | the same frame when the object filter is off; otherwise a new frame laid out by `SortedPoints` |
| PyInterface.Interface.FinishIteration | Template_Python/VDSInterface.py:241-298 | stores the frame rate; a decode error ends the producer; otherwise the one queued frame is the decoded, sorted frame |
| PyInterface.Interface.Publish | Template_Python/VDSInterface.py:287-298 | queue holds exactly the new frame; ready set and read cleared only if no setting changed since the pass began |
| PyInterface.Interface.BeginWaitForNew | Template_Python/VDSInterface.py:466-467 | always clears ready; nothing else changes |
| PyInterface.Interface.BeginGetUnread | Template_Python/VDSInterface.py:474-475 | clears ready only if the latest frame was already read; nothing else changes |
| PyInterface.Interface.GetFrame | Template_Python/VDSInterface.py:481-498 | disconnected: an empty frame, nothing changes; otherwise the queued frame (else the cache) becomes the cache, is marked read, and a copy is returned, made under the current settings by the publish that last set ready; frame rate, kill flag and settings unchanged |
| PyInterface.Interface.TakeLatest | Template_Python/VDSInterface.py:491-497 | the queued frame, if any, becomes the cache and the queue is emptied; the cache is marked read; the settings, frame rate and kill flag are unchanged |
| CsvExporter.OneCommaPerCell | Template_CPP/src/vicon_template/CSV_Exporter.h:104-107 | a row whose cells hold no comma prints with exactly one comma per cell |
| CsvExporter.OneLinePerRow | Template_CPP/src/vicon_template/CSV_Exporter.h:102-119 | cells without line breaks print as one line per row |
| CsvExporter.RenderRowsAppend | Template_CPP/src/vicon_template/CSV_Exporter.h:102-119 | printing rows a then b writes printing a, then printing b |
| CsvExporter.IncrementalPrinting | Template_CPP/src/vicon_template/CSV_Exporter.h:122-129 | two `PrintAll_clear` calls write the same text as one print of all the rows |
| CsvExporter.PrintHeaderRows | Template_CPP/src/vicon_template/CSV_Exporter.h:101-109 | writes exactly the rendering of the header rows, in order |
| CsvExporter.PrintDataRows | Template_CPP/src/vicon_template/CSV_Exporter.h:111-119 | writes exactly the rendering of the data rows, each value shown by the stream's formatting |
| CsvExporter.PrintLine | Template_CPP/src/vicon_template/CSV_Exporter.h:104-108 | each cell then ",", then a line break |
| CsvExporter.ExportCsv.constructor | Template_CPP/src/vicon_template/CSV_Exporter.h:70-74 | no rows, row length not set |
| CsvExporter.ExportCsv.ValidateRowLength | Template_CPP/src/vicon_template/CSV_Exporter.h:50-62 | the first call fixes the length; later calls match iff the length equals it |
| CsvExporter.ExportCsv.AddHeader | Template_CPP/src/vicon_template/CSV_Exporter.h:82-86 | appends exactly the row iff its length matches (or is the first); otherwise nothing stored; data rows untouched; every row keeps the fixed length |
| CsvExporter.ExportCsv.AddRow | Template_CPP/src/vicon_template/CSV_Exporter.h:89-93 | the same for data rows; header rows untouched |
| CsvExporter.ExportCsv.PrintAll | Template_CPP/src/vicon_template/CSV_Exporter.h:99-120 | the header rows, then the data rows, as rendered |
| CsvExporter.ExportCsv.PrintAllClear | Template_CPP/src/vicon_template/CSV_Exporter.h:124-129 | prints everything held, then holds no rows but keeps the fixed row length |
| CsvExporter.RowBuilder.constructor | Template_CPP/src/vicon_template/CSV_Exporter.h:150 | the row starts empty |
| CsvExporter.RowBuilder.AddData | Template_CPP/src/vicon_template/CSV_Exporter.h:156-159 | appends exactly the value |
| CsvExporter.RowBuilder.AddValues | Template_CPP/src/vicon_template/CSV_Exporter.h:161-164 | appends all the values, in order |
| CommandLine.IsFlagTestsPushedWord | Template_CPP/src/vicon_template/vds_template_4.cpp:87-90 | `IsFlag` on a stack tests only its top: after a push it holds iff the pushed word is the flag name |
| CommandLine.Reversed | Template_CPP/src/vicon_template/vds_template_4.cpp:108-109 | same length, element k is element n-1-k |
| CommandLine.ReversedTwice | Template_CPP/src/vicon_template/vds_template_4.cpp:140-141 | reversing twice gives back the list: reversing the argv copy and then each flag's words restores command-line order |
| CommandLine.ReverseInPlace | Template_CPP/src/vicon_template/vds_template_4.cpp:110 | the array afterwards holds its old contents in reverse order |
| CommandLine.ParseArgsOfFlag | Template_CPP/src/vicon_template/vds_template_4.cpp:93-112 | fails, naming the flag, iff the number of words under the flag breaks the flag's condition; otherwise the words under the flag, reversed |
| CommandLine.StopIsFinal | Template_CPP/src/vicon_template/vds_template_4.cpp:168-215 | after help or an error nothing more is read |
| CommandLine.StepOnWord | Template_CPP/src/vicon_template/vds_template_4.cpp:144-146 | a word that does not start with "--" is stacked |
| CommandLine.StepOnFlag | Template_CPP/src/vicon_template/vds_template_4.cpp:146-216 | a "--" word acts on the stacked words in command-line order, with arities 1,1,>0,0,>0 for FileName, HostName, Objects, SaveMarkerLocations, DurationSeconds; "--FileName name" opens "name.csv" and directs the output to it; stod failure and a duration <= 0 are errors; an unknown "--" word is an error |
| CommandLine.FlagTakesFollowingWords | Template_CPP/src/vicon_template/vds_template_4.cpp:140-216 | a flag's arguments are exactly the words between it and the next flag or the end |
| CommandLine.LeadingWordsIgnored | Template_CPP/src/vicon_template/vds_template_4.cpp:140-217 | words before the first flag are dropped without an error |
| CommandLine.HelpStopsTheParse | Template_CPP/src/vicon_template/vds_template_4.cpp:147-169 | reaching "--Help" in the backward scan ends the parse with the help text |
| CommandLine.FirstHostNameWins | Template_CPP/src/vicon_template/vds_template_4.cpp:178-184 | "--HostName" given more than once keeps the value from its first occurrence on the command line |
| CommandLine.HandleArg | Template_CPP/src/vicon_template/vds_template_4.cpp:147-184 | with the word pushed, one pass of the loop body: the outcome the scan step gives for the stack |
| CommandLine.HandleLaterFlags | Template_CPP/src/vicon_template/vds_template_4.cpp:185-216 | the same for a stack whose top is not "--Help", "--FileName" or "--HostName" |
| CommandLine.ParseCommandLine | Template_CPP/src/vicon_template/vds_template_4.cpp:119-217 | the loop yields the outcome of the backward scan from the default options, and the files it opened on the way |
| CommandLine.FilesKept | Template_CPP/src/vicon_template/vds_template_4.cpp:140-216 | no later step closes a file: the files opened after part of the scan lead the list of files the whole parse opens |
| CommandLine.FileNameCreatesFile | Template_CPP/src/vicon_template/vds_template_4.cpp:171-177 | "--FileName name" with a well-formed tail creates "name.csv" even when an earlier "--FileName" overrides it or a word further left stops the parse |
| ExportLayout.HeaderLayout | Template_CPP/src/vicon_template/vds_template_4.cpp:240-263 | without markers: "FrameNumber" then 12 columns per object, column 1+12k+c is object k + "_" + R11..R33,P1..P3 [c] |
| ExportLayout.MarkerColumns | Template_CPP/src/vicon_template/vds_template_4.cpp:254-261 | three columns per marker |
| ExportLayout.PrefixAll | Template_CPP/src/vicon_template/vds_template_4.cpp:249-258 | every name of the copy gets the prefix, in place |
| ExportLayout.AddObjectColumns | Template_CPP/src/vicon_template/vds_template_4.cpp:249-261 | appends the object's columns, then its markers' columns |
| ExportLayout.BuildHeader | Template_CPP/src/vicon_template/vds_template_4.cpp:239-263 | the header row is "FrameNumber" then each object's columns in allow-list order |
| ExportLayout.DataLayout | Template_CPP/src/vicon_template/vds_template_4.cpp:286-305 | without markers: the frame column then 12 values per point, value 1+12k+c being rotation c (c<9) or position c-9 of point k |
| ExportLayout.AddPointColumns | Template_CPP/src/vicon_template/vds_template_4.cpp:295-303 | appends the point's rotation, position, then its markers' positions |
| ExportLayout.BuildDataRow | Template_CPP/src/vicon_template/vds_template_4.cpp:286-305 | the data row is the frame column then each point's rotation, position and marker positions |
| ExportLayout.RowsMatchHeader | Template_CPP/src/vicon_template/vds_template_4.cpp:229-305 | with object filter on, occluded filter off and no markers, each row has the header's length, and the column named object k + element c holds that element of the point named object k |
| ExportLayout.FrameNumberColumn | Template_CPP/src/vicon_template/vds_template_4.cpp:290 | the first frame gives 1; without wrap-around the value is frame number - start + 1 |
| ExportLayout.EarlierFrameWraps | Template_CPP/src/vicon_template/vds_template_4.cpp:271-290 | any frame number below the start wraps round in unsigned arithmetic: one below gives 0, anything lower gives frame number - start + 1 + 2^32, more than the frame number |
| ExportLayout.FrameColumns | Template_CPP/src/vicon_template/vds_template_4.cpp:271-290 | the first frame read fixes the start, so row i holds the offset of frame i from frame 0 and row 0 holds 1 |

## Left out

- The SDK itself: connection, stream mode, `GetFrame`/`UpdateFrame`, and the retry loop in `Initialise` (VDS_Interface.h:218-252). The SDK's answers are inputs (subject records, frame number, time stamp, frame rate).
- The client subclasses `VDS_DirectClient_Interface` and its relatives (VDS_Interface.h:449-577): thin wrappers over those SDK calls.
- Concurrency in VDSInterface.py: the processes, the lock, Event waits and the queues are one sequential object. The only interleavings modelled are whole steps: settings and consumer calls between `StartIteration` and `FinishIteration`. Waits become preconditions.
- Races the whole-step model excludes. A `multiprocessing.Queue` hands items over through a feeder thread, so `get_nowait` can raise `queue.Empty` right after the producer sets `IsFrameReady` (VDSInterface.py:291 and 491-494), and `GetFrame` then returns the older cached frame. The producer also reads `_AllowedObjectsQueue` outside the caller's lock-held refill (VDSInterface.py:232-237 against 430), so it can take in part of a new allow list. The freshness guarantee of `GetFrame` holds only in the sequential model.
- PyInterface.Interface.Connect: the priming `GetFrame` at the end of `Connect` (VDSInterface.py:396) is the caller's next `GetFrame`, because it waits for a publish. Connection failure in the producer (VDSInterface.py:204) is not modelled.
- `GetFrameRate` only reads `viconFrameRate`, which `FinishIteration` stores.
- Floating point: C++ doubles are reals, and `std::stod` is a parameter `toDouble`, so a NaN duration is not represented. `durationSeconds * GetFrameRate()` is not modelled.
- Output formatting: `ostream` formatting of doubles is a parameter `show`. Writes to a stream become the returned text. `std::to_string`, `P_str` and `R_str_rowMajor` are not modelled.
- The matrix algebra and quaternions of the Python `Point` (VDSInterface.py:61-118), and `FrameAge_seconds`.
- The text of the help message (vds_template_4.cpp:150-166): the outcome is only `ShowHelp`. The real text prints the current host name and duration, which flags to the right of "--Help" have already changed, since they are scanned first.
- `Points::Print`, the SIGINT handler of vds_template_4.cpp, and the acquisition loop of `main` beyond its row building and frame numbering.
- The other templates and driver scripts, which hold no logic of their own.
- Markers: vds_template_4.cpp reads `markers` and `frameNumber` through an interface the shown VDS_Interface.h does not define. Marker names and positions are parameters (`markersOf`). The frame number is taken as a 32-bit unsigned value.
- ExportLayout.RowsMatchHeader: stated for markers off only. With markers on, the header uses the first frame's markers, and a later frame with a different marker count makes `AddRow` throw.
- CsvExporter.ExportCsv.ValidateRowLength: the thrown `runtime_error` is a false result, and the caller stores nothing. Row lengths are `nat`, not `uint64_t`.
