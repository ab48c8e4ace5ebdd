# Person and vehicle counting loop of `car+human.py`, in Dafny

`car+human.py` reads a video frame by frame and runs an object detector on each frame.
Each frame then goes through two passes over the detector's boxes:

- The first pass keeps persons and the four vehicle classes (car, truck, bus, motorcycle).
  It numbers the kept detections per category, starting at 1, in detection order.
  It labels and colours each kept detection and counts both categories for the on-screen overlay.
- After the frame is shown, 'q' ends the run.
  Otherwise a second pass collects the kept class names, and one timestamped line is appended to the log.
- A failed read ends the loop.

The model has five modules, one per file:

- `Wrappers` (`wrappers.dfy`): the `Option` type.
- `Classes` (`classes.dfy`): the fixed vocabulary.
  This covers which names are kept, the category and colour of a kept name, `str.capitalize`, the decimal rendering of a count and the label text.
- `Frame` (`frame.dfy`): one frame.
  - `Resolve` looks class ids up in the model's id-to-name table.
  - The first pass is the method `AnnotateFrame`, a `for` loop with mutable counters.
  - The second pass is the method `CollectLabels`, a loop that appends to a list.
  - Both are proved against specification functions: `Count`, `FrameMarks` and `KeptNames`.
  - Lemmas about these functions give the counting, numbering, filtering and agreement properties.
- `LogFormat` (`log_format.dfy`): the log line and `", ".join`.
  A parser for the label segment proves that the line determines the labels, including the empty list.
- `Capture` (`capture.dfy`): the outer `while True` loop.
  - Each iteration's outside inputs arrive as one `FrameEvent`: the detector's boxes, whether 'q' was pressed, and the clock's text.
  - A read fails once the events run out.
  - `Run` is a `while` loop with `break`s that calls `Step` per event. `Step` shows the frame, checks the quit key, then logs through `LogFrame`.
  - The log file is a `LogFile` object whose `writes` field grows by one string per append.
  - `Run` is proved against the function `Loop`. `Loop` gives what the window showed for each frame, the log lines and the stop reason.
  - Lemmas about `Loop` state which frames are shown and which are logged.

A class id missing from the table makes `model.names[cls_id]` raise `KeyError`, which ends the script.
The model looks up every box of a frame before that frame is used. A failed lookup ends the loop with the stop reason `UnknownClassId`: nothing of that frame is shown and nothing is logged.

## Model

| member | source | states |
|---|---|---|
| Classes.VehicleClassesListed | car+human.py:35 | a name is in the vehicle list exactly when it is car, truck, bus or motorcycle |
| Classes.IsKept | car+human.py:93 | the second pass keeps a name exactly when it is "person" or one of the four vehicle names; `CategoryOf` ties this test to the first pass |
| Classes.CategoryOf | car+human.py:47-60 | the first pass's branch is Person exactly for "person", Vehicle exactly for the four vehicle names, and Ignored exactly for the names the second pass drops |
| Classes.ColorOf | car+human.py:50 | persons get (0, 255, 0) and vehicles (0, 0, 255) in blue-green-red order |
| Classes.Capitalize | car+human.py:57 | `str.capitalize` on ASCII: first character raised, the rest lowered; its properties are the lemmas below |
| Classes.CapitalizeShape | car+human.py:57 | `capitalize` keeps the length, puts no lower-case letter first and leaves no upper-case letter after it |
| Classes.CapitalizeCharCase | car+human.py:57 | `capitalize` changes at most the case of each character |
| Classes.CapitalizeKeepsLetters | car+human.py:57 | lower-cased, the capitalised name and the name agree |
| Classes.CapitalizeIdempotent | car+human.py:57 | capitalising twice is capitalising once |
| Classes.LowerAllNoUpper | car+human.py:57 | lower-casing a string without upper-case letters leaves it unchanged |
| Classes.CapitalizedClassName | car+human.py:57 | a kept class name capitalised is its first letter raised followed by the rest unchanged, e.g. "Car" |
| Classes.DigitChar | car+human.py:51 | a digit is rendered as the character of that digit |
| Classes.Decimal | car+human.py:51 | a count renders as at least one digit, with no leading zero |
| Classes.DecimalRoundTrip | car+human.py:51 | the rendered digits read back as the count |
| Classes.DecimalInjective | car+human.py:51 | different counts render differently, so the number in a label identifies the detection's rank |
| Classes.LabelText | car+human.py:51-57 | the f-strings of both branches: "Person n (score)" for a person and the capitalised class name, number and score for a vehicle |
| Classes.LabelStartsWithClassName | car+human.py:51-57 | both branches' labels have one shape: capitalised class name, space, number, space, score in parentheses ("Person" for "person") |
| Frame.Resolve | car+human.py:40-42 | a successful lookup gives one detection per box |
| Frame.ResolveDefined | car+human.py:40-42 | the lookup succeeds exactly when every box's class id is in the table |
| Frame.ResolveIndex | car+human.py:40-42 | the k-th detection has the table's name for the k-th box's id and that box's score |
| Frame.Classify | car+human.py:47-60 | one category tag per detection |
| Frame.KeptIn | car+human.py:59-60 | the kept subsequence is no longer than the input and contains no ignored detection |
| Frame.MarksIn | car+human.py:47-60 | one mark per kept detection |
| Frame.AnnotateFrame | car+human.py:31-60 | the loop's two counters end as the number of persons and of vehicles, and its marks are those of the specification `FrameMarks` |
| Frame.CollectLabels | car+human.py:86-94 | the appended list ends as the specification `KeptNames` |
| Frame.CountInSnoc | car+human.py:49 | one more detection raises its category's count by one and no other |
| Frame.KeptInSnoc | car+human.py:59-60 | one more detection is kept at the end exactly when it is not ignored |
| Frame.CountKeptIn | car+human.py:59-60 | dropping ignored detections changes neither count |
| Frame.KeptInFrom | car+human.py:59-60 | every kept detection comes from the input |
| Frame.RankPrefix | car+human.py:49-55 | a later detection does not change the rank of an earlier one |
| Frame.MarksInSnoc | car+human.py:47-65 | one more kept detection adds one mark numbered one past its category's count, and an ignored one adds none |
| Frame.MarksByRank | car+human.py:49-57 | the k-th mark belongs to the k-th kept detection and carries its rank within its category |
| Frame.NumbersSnoc | car+human.py:49-57 | one more mark adds its number to its own category's numbers only |
| Frame.NumberingIn | car+human.py:49-57 | the numbers given to one category are 1, 2, ..., that category's count |
| Frame.NumberingStep | car+human.py:49-57 | one more detection keeps the numbering of each category equal to 1 .. count |
| Frame.NumbersExtend | car+human.py:49-57 | a mark numbered one past its category's count extends that category's numbering |
| Frame.OneToSnoc | car+human.py:49 | 1 .. n+1 is 1 .. n followed by n+1 |
| Frame.ClassifySnoc | car+human.py:38-47 | one more detection adds its own category tag at the end |
| Frame.FrameStep | car+human.py:38-65 | one loop iteration: the counter of the detection's category rises by one, and an ignored detection adds no mark while a kept one adds exactly one mark with the new count, its colour and its label |
| Frame.CountStep | car+human.py:49-55 | one more detection raises the counter of its own category by one and leaves the other |
| Frame.MarksStep | car+human.py:47-65 | one more detection draws no mark if ignored, and otherwise one mark numbered one past its category's count |
| Frame.SequentialNumbering | car+human.py:48-57 | the i-th kept person is numbered i and the j-th kept vehicle j, whatever the other category holds |
| Frame.MarkLabels | car+human.py:48-65 | every mark belongs to the kept detection at its place: same class name and score, its category's colour, and the label capitalised name, number, score |
| Frame.PassesAgree | car+human.py:48-94 | the second pass collects exactly the class names of the marks the first pass drew, position by position, so the list is as long as the two counts together |
| Frame.IgnoredChangesNothing | car+human.py:59-60 | a detection of any other class changes neither counter, adds no mark and adds no log label |
| Frame.CountsAreMultiplicities | car+human.py:31-55 | the person count is how often "person" appears among the names; the vehicle count is the sum of how often each vehicle name appears |
| Frame.KeptNamesAppend | car+human.py:86-94 | collecting labels distributes over concatenation, so it keeps detection order |
| Frame.KeptNamesAreFiltered | car+human.py:86-94 | every collected label is a kept name, and each kept name is collected as often as it occurs (and any other name never), so order aside it is the filter of the names |
| LogFormat.LogLineShape | car+human.py:98-100 | the line starts with the timestamp, then ": ", and ends in a newline; no labels give exactly timestamp + ": \n" |
| LogFormat.Join | car+human.py:99 | `", ".join`: the items with the separator between neighbours, empty for no items; `SplitJoin` is its inverse on comma-free labels |
| LogFormat.LogLine | car+human.py:98-100 | the line written for a frame: timestamp, ": ", the joined labels, newline; `LogLineShape` and `ParseLogLine` pin it down |
| LogFormat.Split | car+human.py:99 | splitting always yields at least one piece |
| LogFormat.SplitPlain | car+human.py:99 | a piece without a comma splits to itself |
| LogFormat.SplitAfterLabel | car+human.py:99 | a comma-free label followed by ", " splits off as one piece |
| LogFormat.SplitJoin | car+human.py:99 | splitting `", ".join` of comma-free labels gives the labels back |
| LogFormat.JoinNonEmpty | car+human.py:99 | joining a non-empty first label gives a non-empty segment |
| LogFormat.ParseLogLine | car+human.py:98-100 | the label segment of a log line parses back to the labels it was built from, including the empty list |
| LogFormat.LogLineInjective | car+human.py:98-100 | with one timestamp, different label lists give different lines |
| Capture.LoopLogsCompletedFrames | car+human.py:14-100 | the loop logs one line per frame, in order, up to the first frame that is not completed (quit or unknown id), and nothing after |
| Capture.LoopLogsFrame | car+human.py:83-100 | the i-th log line belongs to the i-th frame, which completed, and is that frame's line |
| Capture.Loop | car+human.py:14-100 | the whole loop as a function of the events: what was shown, the log lines and why it stopped; the `Loop` lemmas state its properties and `Run` is proved equal to it |
| Capture.LoopStopReason | car+human.py:17-19 | the loop stops at the end of the events, on 'q', or on an unknown class id, decided by the first frame that is not logged |
| Capture.LoopShowsFrames | car+human.py:80-84 | every frame up to the stopping point is shown with its own marks and counts, and a 'q' frame is shown but not logged |
| Capture.LoopShowsFrame | car+human.py:38-80 | the i-th display belongs to the i-th frame, whose ids are all known, and shows that frame's marks and counts |
| Capture.LoopDisplayCount | car+human.py:80-84 | one display per logged line, and one more when the loop stops on 'q' |
| Capture.Overlay | car+human.py:72-75 | the two count lines drawn on a shown frame |
| Capture.OverlayShowsCounts | car+human.py:72-75 | after "People Count: " the overlay shows digits that read back as how often "person" occurs among the class names, and after "Vehicle Count: " how often the four vehicle names occur |
| Capture.AllFramesLogged | car+human.py:17-19 | when every frame completes, each frame is logged and the loop ends on the failed read |
| Capture.LoopCons | car+human.py:83-100 | a completed frame logs its line and the loop carries on with the rest |
| Capture.LoggedLabelsRecoverable | car+human.py:86-100 | the labels a frame logs can be read back from its line |
| Capture.KeptNamesArePlain | car+human.py:35 | no kept class name is empty or holds a comma |
| Capture.LogFile.constructor | car+human.py:97 | a log file opened in append mode starts with its previous contents |
| Capture.LogFile.Append | car+human.py:100 | `f.write` adds one write at the end, and the file's text grows by exactly that text |
| Capture.ConcatSnoc | car+human.py:100 | the file's text after one more write is the old text followed by that write |
| Capture.ConcatAppend | car+human.py:97-100 | the file's text after many writes is the old text followed by their concatenation |
| Capture.ProgressStep | car+human.py:14-100 | after a completed frame, the frames shown and the lines logged so far still prefix the loop's whole result |
| Capture.StopsAtEnd | car+human.py:17-19 | a failed read after all events ends the loop with what was shown and logged so far |
| Capture.StopsAt | car+human.py:40-84 | a frame that does not complete ends the loop: an unknown id with nothing more, 'q' after showing the frame |
| Capture.ShowFrame | car+human.py:31-80 | what the window shows for a frame: the marks and the two counts of the first pass |
| Capture.LogFrame | car+human.py:86-100 | the second pass's labels go into exactly one log line, appended to the file |
| Capture.Step | car+human.py:17-100 | one iteration: an unknown id stops with nothing shown or logged; 'q' stops after showing; otherwise the frame is shown and exactly its line is logged |
| Capture.Run | car+human.py:14-100 | the loop shows exactly the frames `Loop` shows, stops for `Loop`'s reason, and the log gains exactly `Loop`'s lines |

## Left out

- Model loading, the move to CUDA and the detector itself (lines 6, 9, 25, 28) are outside the model: each frame's boxes are an input.
- The video capture, `resize`, `release` and `destroyAllWindows` (lines 12, 17, 22, 102-103) are outside the model. A read succeeds while events remain and fails once they run out.
- Drawing, `imshow` and `waitKey` are left out (lines 63-65, 72-80, 83).
  - A shown frame is a `Display` value: the marks and the two counts.
  - The overlay's two count lines are the function `Overlay`, and a mark's label text is the function `Label`. Neither is stored.
  - The key press is the event's `quitPressed` flag.
- Box corners and their `int` conversion (line 45) are left out: they serve only for drawing.
- The FPS line (lines 68-69, 76-77) is left out: it needs the clock and floating point.
  - Line 69 divides by the elapsed time. If the clock has not advanced within one iteration this raises `ZeroDivisionError`, a fourth way for the loop to end, which `Stop` and `LoopStopReason` do not include.
- A score is carried as its already rendered text: `{score:.2f}` is floating-point formatting.
- The timestamp and opening the file in append mode (lines 97-98) are outside the model: `time.strftime` reads the clock, so the timestamp is part of each event.
  - The file is modelled as its sequence of writes, and its text as their concatenation.
  - File encoding and write errors are not modelled.
  - The file is opened in text mode, so on Windows each "\n" is written as "\r\n". `LogFile.Append` models the text as passed to `f.write`, without newline translation.
- Classes.Capitalize maps ASCII letters only; Python's `str.capitalize` also maps non-ASCII letters and special cases such as title-case digraphs. The five kept names are ASCII, so the labels are not affected.
- Capture.Step: looks up every box of a frame before drawing, whereas the script looks each box up as it reaches it. The script's only effect before a failing lookup is drawing, which is not modelled, so the `KeyError` becomes a stop reason with nothing shown or logged.
  - The second pass's lookup (lines 89-90) repeats the first pass's. It cannot fail once the first succeeded, so it reuses the first pass's detections.
- The model presents the `KeyError` as a normal stop reason, `UnknownClassId`. In the script it is an uncaught exception: the stream is not released and the windows are not closed.
