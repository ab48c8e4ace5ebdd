/**
 The script's outer `while True` loop (lines 14-100): read a frame, detect,
 run the first pass and show the frame, stop on 'q', run the second pass and
 append one line to the log file. Reading, detection, the key poll and the
 clock are outside the model: each iteration's results arrive as one
 FrameEvent, and a read fails once the events are used up.
 */
module Capture {
  import opened Wrappers
  import opened Classes
  import opened Frame
  import opened LogFormat

  /** What one successful read brings: the detector's boxes, whether 'q' was pressed after display, and the clock's text. */
  datatype FrameEvent = FrameEvent(boxes: seq<Box>, quitPressed: bool, timestamp: string)

  /** Why the loop ended: the video ran out, the user pressed 'q', or a class id was missing from `model.names`. */
  datatype Stop = EndOfStream | QuitKey | UnknownClassId

  /** What `cv2.imshow` shows for a frame: the marks and the two count lines (the FPS line is not modelled). */
  datatype Display = Display(marks: seq<Mark>, personCount: nat, vehicleCount: nat)

  /** Everything the loop produces: what the window showed for each frame, in order, the log lines, and why it stopped. */
  datatype Trace = Trace(displays: seq<Display>, lines: seq<string>, stop: Stop)

  /** Lines 72-75: `People Count: n` and `Vehicle Count: n`. */
  function Overlay(d: Display): seq<string>
  {
    ["People Count: " + Decimal(d.personCount), "Vehicle Count: " + Decimal(d.vehicleCount)]
  }

  /** What the window shows for a frame with these detections: the marks of the kept ones and how many of each category were kept. */
  function Shown(dets: seq<Detection>): Display
  {
    Display(FrameMarks(dets), Count(dets, Person), Count(dets, Vehicle))
  }

  /**
   The overlay of a shown frame prints its two counts: after the fixed
   caption, digits that read back as how often "person" occurs among the
   class names, and as how often the four vehicle names occur.
   */
  lemma {:induction false} OverlayShowsCounts(dets: seq<Detection>)
    ensures var o, ns := Overlay(Shown(dets)), multiset(Names(dets));
            && |o| == 2 && |o[0]| > 14 && |o[1]| > 15
            && o[0][..14] == "People Count: " && AllDigits(o[0][14..])
            && DecimalValue(o[0][14..]) == ns["person"]
            && o[1][..15] == "Vehicle Count: " && AllDigits(o[1][15..])
            && DecimalValue(o[1][15..]) == ns["car"] + ns["truck"] + ns["bus"] + ns["motorcycle"]
  {
    var pc, vc := Count(dets, Person), Count(dets, Vehicle);
    CountsAreMultiplicities(dets);
    DecimalRoundTrip(pc);
    DecimalRoundTrip(vc);
    var o := Overlay(Shown(dets));
    var p, v := "People Count: ", "Vehicle Count: ";
    assert o[0] == p + Decimal(pc) && o[1] == v + Decimal(vc);
    assert o[0][..14] == p && o[0][14..] == Decimal(pc);
    assert o[1][..15] == v && o[1][15..] == Decimal(vc);
  }

  /** The loop, one step per event. */
  function Loop(names: map<int, string>, frames: seq<FrameEvent>): Trace
    decreases |frames|
  {
    if frames == [] then Trace([], [], EndOfStream)
    else
      match Resolve(names, frames[0].boxes)
      case None => Trace([], [], UnknownClassId)
      case Some(dets) =>
        if frames[0].quitPressed then Trace([Shown(dets)], [], QuitKey)
        else
          var rest := Loop(names, frames[1..]);
          Trace([Shown(dets)] + rest.displays,
                [LineOf(names, frames[0])] + rest.lines,
                rest.stop)
  }

  /** A frame that gets through to the log: every class id is known and 'q' was not pressed. */
  predicate Completes(names: map<int, string>, e: FrameEvent) {
    Resolve(names, e.boxes).Some? && !e.quitPressed
  }

  /** The line a completed frame logs. */
  function LineOf(names: map<int, string>, e: FrameEvent): string
    requires Resolve(names, e.boxes).Some?
  {
    LogLine(e.timestamp, KeptNames(Resolve(names, e.boxes).value))
  }

  /**
   The loop logs exactly one line per frame up to the first frame that does
   not complete, in order, and nothing after: that frame is shown but not
   logged if 'q' was pressed, neither shown nor logged if a class id was
   unknown, and if every frame completes the loop ends when reading fails.
   */
  lemma {:induction false} LoopLogsCompletedFrames(names: map<int, string>, frames: seq<FrameEvent>)
    ensures var t := Loop(names, frames); var n := |t.lines|;
            && n <= |frames|
            && (forall i :: 0 <= i < n ==> Completes(names, frames[i]) && t.lines[i] == LineOf(names, frames[i]))
            && (n < |frames| ==> !Completes(names, frames[n]))
  {
    LoopStopReason(names, frames);
    var t := Loop(names, frames);
    forall i | 0 <= i < |t.lines|
      ensures Completes(names, frames[i]) && t.lines[i] == LineOf(names, frames[i])
    {
      LoopLogsFrame(names, frames, i);
    }
  }

  /** The i-th log line is the i-th frame's: that frame completed and logged its own line. */
  lemma {:induction false} LoopLogsFrame(names: map<int, string>, frames: seq<FrameEvent>, i: nat)
    requires i < |Loop(names, frames).lines|
    ensures i < |frames| && Completes(names, frames[i])
    ensures Loop(names, frames).lines[i] == LineOf(names, frames[i])
    decreases i
  {
    assert frames != [] && Completes(names, frames[0]);
    if i > 0 {
      var rest := Loop(names, frames[1..]);
      assert Loop(names, frames).lines == [LineOf(names, frames[0])] + rest.lines;
      LoopLogsFrame(names, frames[1..], i - 1);
      assert frames[1..][i - 1] == frames[i];
    }
  }

  /** The reason the loop stops is decided by the first frame that is not logged, or by the end of the events. */
  lemma {:induction false} LoopStopReason(names: map<int, string>, frames: seq<FrameEvent>)
    ensures var t := Loop(names, frames); var n := |t.lines|;
            && n <= |frames|
            && t.stop == (if n == |frames| then EndOfStream
                          else if Resolve(names, frames[n].boxes).None? then UnknownClassId
                          else QuitKey)
            && (n < |frames| ==> !Completes(names, frames[n]))
    decreases |frames|
  {
    if frames != [] && Completes(names, frames[0]) {
      LoopStopReason(names, frames[1..]);
      var t, rest := Loop(names, frames), Loop(names, frames[1..]);
      assert |t.lines| == |rest.lines| + 1 && t.stop == rest.stop;
      if |t.lines| < |frames| {
        assert frames[1..][|rest.lines|] == frames[|t.lines|];
      }
    }
  }

  /** One frame is shown for each line logged, and one more when the loop stops on 'q'. */
  lemma {:induction false} LoopDisplayCount(names: map<int, string>, frames: seq<FrameEvent>)
    ensures var t := Loop(names, frames);
            && |t.displays| == (if t.stop == QuitKey then |t.lines| + 1 else |t.lines|)
            && |t.displays| <= |frames|
    decreases |frames|
  {
    if frames != [] && Completes(names, frames[0]) {
      LoopDisplayCount(names, frames[1..]);
      var t, rest := Loop(names, frames), Loop(names, frames[1..]);
      assert |t.displays| == |rest.displays| + 1 && |t.lines| == |rest.lines| + 1 && t.stop == rest.stop;
    }
  }

  /** The i-th display is the i-th frame's: its detections are known and it shows their marks and counts. */
  lemma {:induction false} LoopShowsFrame(names: map<int, string>, frames: seq<FrameEvent>, i: nat)
    requires i < |Loop(names, frames).displays|
    ensures i < |frames| && Resolve(names, frames[i].boxes).Some?
    ensures Loop(names, frames).displays[i] == Shown(Resolve(names, frames[i].boxes).value)
    decreases i
  {
    assert frames != [];
    if i > 0 {
      var rest := Loop(names, frames[1..]);
      assert Completes(names, frames[0]);
      assert Loop(names, frames).displays == [Shown(Resolve(names, frames[0].boxes).value)] + rest.displays;
      LoopShowsFrame(names, frames[1..], i - 1);
      assert frames[1..][i - 1] == frames[i];
    }
  }

  /** Every frame before the stopping point is shown, and so is the 'q' frame; each shows the marks and counts of its own detections. */
  lemma {:induction false} LoopShowsFrames(names: map<int, string>, frames: seq<FrameEvent>)
    ensures var t := Loop(names, frames);
            && |t.displays| == (if t.stop == QuitKey then |t.lines| + 1 else |t.lines|)
            && |t.displays| <= |frames|
            && forall i :: 0 <= i < |t.displays| ==>
                 Resolve(names, frames[i].boxes).Some?
                 && t.displays[i] == Shown(Resolve(names, frames[i].boxes).value)
  {
    LoopDisplayCount(names, frames);
    var t := Loop(names, frames);
    forall i | 0 <= i < |t.displays|
      ensures Resolve(names, frames[i].boxes).Some?
              && t.displays[i] == Shown(Resolve(names, frames[i].boxes).value)
    {
      LoopShowsFrame(names, frames, i);
    }
  }

  /** When every frame completes, every frame is logged and the loop ends on the failed read. */
  lemma {:induction false} AllFramesLogged(names: map<int, string>, frames: seq<FrameEvent>)
    requires forall i :: 0 <= i < |frames| ==> Completes(names, frames[i])
    ensures |Loop(names, frames).lines| == |frames| && Loop(names, frames).stop == EndOfStream
  {
    LoopLogsCompletedFrames(names, frames);
    LoopStopReason(names, frames);
  }

  /** The five kept class names hold no comma, so a logged line gives back the labels of its frame. */
  lemma {:induction false} LoggedLabelsRecoverable(timestamp: string, dets: seq<Detection>)
    ensures ParseLabels(LogLine(timestamp, KeptNames(dets)), |timestamp|) == Some(KeptNames(dets))
  {
    var labels := KeptNames(dets);
    KeptNamesAreFiltered(dets);
    forall i | 0 <= i < |labels| ensures PlainLabel(labels[i]) {
      assert labels[i] in labels;
      KeptNamesArePlain(labels[i]);
    }
    ParseLogLine(timestamp, labels);
  }

  lemma {:induction false} KeptNamesArePlain(name: string)
    requires IsKept(name)
    ensures PlainLabel(name)
  {
    if name == "person" {
      assert ',' !in "person";
    } else if name == "car" {
      assert ',' !in "car";
    } else if name == "truck" {
      assert ',' !in "truck";
    } else if name == "bus" {
      assert ',' !in "bus";
    } else {
      assert ',' !in "motorcycle";
    }
  }

  /**
   The log file, opened in append mode on every frame: the writes made to it so
   far, earlier runs' included; its text is their concatenation. What was there
   stays, and each write adds at the end.
   */
  class LogFile {
    var writes: seq<string>

    constructor (previous: seq<string>)
      ensures writes == previous
    {
      writes := previous;
    }

    function Text(): string
      reads this
    {
      Concat(writes)
    }

    method Append(text: string)
      modifies this
      ensures writes == old(writes) + [text]
      ensures Text() == old(Text()) + text
    {
      ConcatSnoc(writes, text);
      writes := writes + [text];
    }
  }

  /** All lines, written one after another. */
  function Concat(lines: seq<string>): string
  {
    if lines == [] then "" else Concat(lines[..|lines| - 1]) + lines[|lines| - 1]
  }

  /**
   The loop's progress after `i` events: the displays shown and the lines written
   so far, followed by what the remaining events produce, make up the whole trace.
   */
  ghost predicate Progress(names: map<int, string>, frames: seq<FrameEvent>, i: nat,
                           displays: seq<Display>, written: seq<string>)
  {
    i <= |frames| &&
    var whole, rest := Loop(names, frames), Loop(names, frames[i..]);
    whole.displays == displays + rest.displays && whole.lines == written + rest.lines && whole.stop == rest.stop
  }

  /** A completed event adds its frame and its line and leaves the rest to the later events. */
  lemma {:induction false} ProgressStep(names: map<int, string>, frames: seq<FrameEvent>, i: nat,
                                        displays: seq<Display>, written: seq<string>)
    requires Progress(names, frames, i, displays, written)
    requires i < |frames| && Completes(names, frames[i])
    ensures Progress(names, frames, i + 1, displays + [Shown(Resolve(names, frames[i].boxes).value)],
                     written + [LineOf(names, frames[i])])
  {
    var d, l := Shown(Resolve(names, frames[i].boxes).value), LineOf(names, frames[i]);
    var t, rest := Loop(names, frames[i..]), Loop(names, frames[i + 1..]);
    assert frames[i..][0] == frames[i];
    assert frames[i..][1..] == frames[i + 1..];
    assert t == Trace([d] + rest.displays, [l] + rest.lines, rest.stop);
    assert displays + t.displays == (displays + [d]) + rest.displays;
    assert written + t.lines == (written + [l]) + rest.lines;
  }

  /** A failed read ends the loop with what was shown and written so far. */
  lemma {:induction false} StopsAtEnd(names: map<int, string>, frames: seq<FrameEvent>,
                                      displays: seq<Display>, written: seq<string>)
    requires Progress(names, frames, |frames|, displays, written)
    ensures Loop(names, frames) == Trace(displays, written, EndOfStream)
  {
    assert frames[|frames|..] == [];
  }

  /**
   A frame that does not complete ends the loop: with an unknown class id it is
   not shown, with 'q' it is shown; in neither case is its line written.
   */
  lemma {:induction false} StopsAt(names: map<int, string>, frames: seq<FrameEvent>, i: nat,
                                   displays: seq<Display>, written: seq<string>)
    requires Progress(names, frames, i, displays, written)
    requires i < |frames| && !Completes(names, frames[i])
    ensures Loop(names, frames)
         == match Resolve(names, frames[i].boxes)
            case None => Trace(displays, written, UnknownClassId)
            case Some(dets) => Trace(displays + [Shown(dets)], written, QuitKey)
  {
    assert frames[i..][0] == frames[i];
  }

  lemma {:induction false} ConcatSnoc(lines: seq<string>, line: string)
    ensures Concat(lines + [line]) == Concat(lines) + line
  {
    assert (lines + [line])[..|lines|] == lines;
  }

  /** The text of two runs of writes is the text of the first followed by that of the second. */
  lemma {:induction false} ConcatAppend(a: seq<string>, b: seq<string>)
    ensures Concat(a + b) == Concat(a) + Concat(b)
    decreases |b|
  {
    if b == [] {
      assert a + b == a;
    } else {
      var init, last := b[..|b| - 1], b[|b| - 1];
      assert init + [last] == b;
      assert a + b == (a + init) + [last];
      ConcatAppend(a, init);
      ConcatSnoc(a + init, last);
      ConcatSnoc(init, last);
      assert Concat(a + b) == (Concat(a) + Concat(init)) + last;
      assert (Concat(a) + Concat(init)) + last == Concat(a) + (Concat(init) + last);
    }
  }

  /** Lines 31-84: the first pass, then the frame with its two count lines goes to the window. */
  method ShowFrame(dets: seq<Detection>) returns (shown: Display)
    ensures shown == Shown(dets)
  {
    var personCount, vehicleCount, marks := AnnotateFrame(dets);
    shown := Display(marks, personCount, vehicleCount);
  }

  /** Lines 86-100: the second pass, then one line appended to the log. */
  method LogFrame(timestamp: string, dets: seq<Detection>, log: LogFile) returns (line: string)
    modifies log
    ensures line == LogLine(timestamp, KeptNames(dets))
    ensures log.writes == old(log.writes) + [line]
  {
    var labels := CollectLabels(dets);
    line := LogLine(timestamp, labels);
    log.Append(line);
  }

  /**
   Lines 17-100 for an event that was read: look up the class names, run the
   first pass and show the frame, stop on 'q', else run the second pass and
   append the frame's line to the log. The display is absent only when a class
   id is unknown; the reason to stop is absent only when the frame completes.
   */
  method Step(names: map<int, string>, event: FrameEvent, log: LogFile) returns (display: Option<Display>, stop: Option<Stop>)
    modifies log
    ensures display == match Resolve(names, event.boxes)
                       case None => None
                       case Some(dets) => Some(Shown(dets))
    ensures stop == if Resolve(names, event.boxes).None? then Some(UnknownClassId)
                    else if event.quitPressed then Some(QuitKey)
                    else None
    ensures log.writes == old(log.writes) + if Completes(names, event) then [LineOf(names, event)] else []
  {
    var resolved := Resolve(names, event.boxes);
    if resolved.None? {
      return None, Some(UnknownClassId);
    }
    var dets := resolved.value;
    var shown := ShowFrame(dets);
    display := Some(shown);
    if event.quitPressed {
      return display, Some(QuitKey);
    }
    var line := LogFrame(event.timestamp, dets, log);
    stop := None;
  }

  /**
   Lines 14-100: events are read one after another until a read fails, and
   each is handled by `Step` until one of them stops the loop.
   */
  method Run(names: map<int, string>, frames: seq<FrameEvent>, log: LogFile) returns (displays: seq<Display>, stop: Stop)
    modifies log
    ensures displays == Loop(names, frames).displays
    ensures stop == Loop(names, frames).stop
    ensures log.writes == old(log.writes) + Loop(names, frames).lines
  {
    displays := [];
    ghost var written: seq<string> := [];
    ghost var start := log.writes;
    var i := 0;
    assert frames[0..] == frames;
    while true
      invariant Progress(names, frames, i, displays, written)
      invariant log.writes == start + written
      decreases |frames| - i
    {
      if i == |frames| {
        StopsAtEnd(names, frames, displays, written);
        stop := EndOfStream;
        break;
      }
      var display, halt := Step(names, frames[i], log);
      if halt.Some? {
        StopsAt(names, frames, i, displays, written);
        displays := displays + if display.Some? then [display.value] else [];
        stop := halt.value;
        break;
      }
      ProgressStep(names, frames, i, displays, written);
      displays := displays + [display.value];
      written := written + [LineOf(names, frames[i])];
      i := i + 1;
    }
  }

  /** A completed event in front logs its line ahead of the rest. */
  lemma {:induction false} LoopCons(names: map<int, string>, e: FrameEvent, rest: seq<FrameEvent>)
    requires Completes(names, e)
    ensures Loop(names, [e] + rest).lines == [LineOf(names, e)] + Loop(names, rest).lines
    ensures Loop(names, [e] + rest).stop == Loop(names, rest).stop
  {
    assert ([e] + rest)[1..] == rest;
  }
}
