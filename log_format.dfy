/**
 The line appended to the log for each processed frame: the timestamp, a
 colon and a space, the kept class names joined with ", ", and a newline.
 The label segment is parsed back here to show that the line determines it.
 */
module LogFormat {
  import opened Wrappers

  /** Python's `sep.join(xs)`: the items with `sep` between neighbours; empty for no items. */
  function Join(sep: string, xs: seq<string>): string
  {
    if |xs| == 0 then ""
    else if |xs| == 1 then xs[0]
    else xs[0] + sep + Join(sep, xs[1..])
  }

  /** Line 100: `f"{timestamp}: {label_line}\n"` with `label_line = ", ".join(detected_labels)`. */
  function LogLine(timestamp: string, labels: seq<string>): string
  {
    timestamp + ": " + Join(", ", labels) + "\n"
  }

  /** The line opens with the timestamp and ": ", ends with a newline, and is just those for a frame with nothing kept. */
  lemma {:induction false} LogLineShape(timestamp: string, labels: seq<string>)
    ensures var line := LogLine(timestamp, labels);
            && |line| >= |timestamp| + 3 && line[..|timestamp|] == timestamp
            && line[|timestamp|..|timestamp| + 2] == ": " && line[|line| - 1] == '\n'
            && (labels == [] ==> line == timestamp + ": \n")
  {
  }

  /** Python's `s.split(", ")`: the pieces between separators, always at least one. */
  function Split(s: string): (r: seq<string>)
    ensures |r| >= 1
  {
    if |s| == 0 then [""]
    else if |s| >= 2 && s[0] == ',' && s[1] == ' ' then [""] + Split(s[2..])
    else
      var rest := Split(s[1..]);
      [[s[0]] + rest[0]] + rest[1..]
  }

  /** A label that can stand in a log line without being confused with the separator. */
  predicate PlainLabel(l: string) {
    l != [] && ',' !in l
  }

  /**
   Reads the labels back out of a log line, given the timestamp's length
   (`%Y-%m-%d %H:%M:%S` always renders in 19 characters).
   */
  function ParseLabels(line: string, timestampLength: nat): Option<seq<string>>
  {
    if |line| < timestampLength + 3 || line[timestampLength..timestampLength + 2] != ": "
       || line[|line| - 1] != '\n'
    then None
    else
      var segment := line[timestampLength + 2..|line| - 1];
      Some(if segment == "" then [] else Split(segment))
  }

  lemma {:induction false} SplitPlain(x: string)
    requires ',' !in x
    ensures Split(x) == [x]
    decreases |x|
  {
    if x != [] {
      assert ',' !in x[1..] by {
        forall i | 0 <= i < |x[1..]| ensures x[1..][i] != ',' {
          assert x[1..][i] == x[i + 1];
        }
      }
      SplitPlain(x[1..]);
      assert [x[0]] + x[1..] == x;
    }
  }

  lemma {:induction false} SplitAfterLabel(x: string, t: string)
    requires ',' !in x
    ensures Split(x + ", " + t) == [x] + Split(t)
    decreases |x|
  {
    var s := x + ", " + t;
    if x == [] {
      assert s == ", " + t;
      assert s[2..] == t;
    } else {
      assert ',' !in x[1..] by {
        forall i | 0 <= i < |x[1..]| ensures x[1..][i] != ',' {
          assert x[1..][i] == x[i + 1];
        }
      }
      SplitAfterLabel(x[1..], t);
      assert s[0] == x[0] && s[0] != ',';
      assert s[1..] == x[1..] + ", " + t;
      assert [x[0]] + x[1..] == x;
    }
  }

  /** Splitting the joined labels gives the labels back, when none contains a comma. */
  lemma {:induction false} SplitJoin(xs: seq<string>)
    requires |xs| >= 1
    requires forall i :: 0 <= i < |xs| ==> ',' !in xs[i]
    ensures Split(Join(", ", xs)) == xs
    decreases |xs|
  {
    if |xs| == 1 {
      SplitPlain(xs[0]);
    } else {
      SplitJoin(xs[1..]);
      SplitAfterLabel(xs[0], Join(", ", xs[1..]));
      assert [xs[0]] + xs[1..] == xs;
    }
  }

  lemma {:induction false} JoinNonEmpty(xs: seq<string>)
    requires |xs| >= 1 && xs[0] != []
    ensures Join(", ", xs) != []
  {
    if |xs| > 1 {
      assert |Join(", ", xs)| >= |xs[0]|;
    }
  }

  /**
   A log line round-trips: its label segment parses back to exactly the labels
   it was built from, including the empty list of a frame with nothing kept.
   */
  lemma {:induction false} ParseLogLine(timestamp: string, labels: seq<string>)
    requires forall i :: 0 <= i < |labels| ==> PlainLabel(labels[i])
    ensures ParseLabels(LogLine(timestamp, labels), |timestamp|) == Some(labels)
  {
    var line := LogLine(timestamp, labels);
    var joined := Join(", ", labels);
    assert line[|timestamp| + 2..|line| - 1] == joined;
    if labels != [] {
      JoinNonEmpty(labels);
      SplitJoin(labels);
    }
  }

  /** Two frames with the same timestamp log the same line only if they kept the same labels. */
  lemma {:induction false} LogLineInjective(timestamp: string, a: seq<string>, b: seq<string>)
    requires forall i :: 0 <= i < |a| ==> PlainLabel(a[i])
    requires forall i :: 0 <= i < |b| ==> PlainLabel(b[i])
    requires LogLine(timestamp, a) == LogLine(timestamp, b)
    ensures a == b
  {
    ParseLogLine(timestamp, a);
    ParseLogLine(timestamp, b);
  }
}
