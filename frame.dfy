/**
 One frame's detections and the two passes the script makes over them: the
 first numbers and labels every kept person and vehicle while counting them,
 the second collects the kept class names for the log.
 */
module Frame {
  import opened Wrappers
  import opened Classes

  /** What the detector reports for one object: a class id and the two-decimal text of its score. Box corners serve only for drawing. */
  datatype Box = Box(clsId: int, scoreText: string)

  /** A box whose class id has been looked up in the model's id-to-name table. */
  datatype Detection = Detection(className: string, scoreText: string)

  /**
   `model.names[cls_id]` for every box, in order. A class id missing from the
   table raises `KeyError` in the script; here the lookup gives `None`.
   */
  function Resolve(names: map<int, string>, boxes: seq<Box>): (r: Option<seq<Detection>>)
    ensures r.Some? ==> |r.value| == |boxes|
    decreases |boxes|
  {
    if boxes == [] then Some([])
    else
      var b := boxes[|boxes| - 1];
      match Resolve(names, boxes[..|boxes| - 1])
      case None => None
      case Some(init) =>
        if b.clsId in names then Some(init + [Detection(names[b.clsId], b.scoreText)]) else None
  }

  /** The lookup succeeds exactly when every box's class id is in the table. */
  lemma {:induction false} ResolveDefined(names: map<int, string>, boxes: seq<Box>)
    ensures Resolve(names, boxes).Some? <==> forall k :: 0 <= k < |boxes| ==> boxes[k].clsId in names
    decreases |boxes|
  {
    if boxes != [] {
      var init := boxes[..|boxes| - 1];
      ResolveDefined(names, init);
      assert forall k :: 0 <= k < |init| ==> init[k] == boxes[k];
    }
  }

  /** The k-th box's id is in the table, and the k-th detection has the name looked up for the k-th box's id and that box's score. */
  lemma {:induction false} ResolveIndex(names: map<int, string>, boxes: seq<Box>, k: nat)
    requires Resolve(names, boxes).Some? && k < |boxes|
    ensures boxes[k].clsId in names
            && Resolve(names, boxes).value[k] == Detection(names[boxes[k].clsId], boxes[k].scoreText)
    decreases |boxes|
  {
    var init := boxes[..|boxes| - 1];
    if k < |boxes| - 1 {
      ResolveIndex(names, init, k);
    }
  }

  /** The detections' class names, in detection order. */
  function Names(dets: seq<Detection>): seq<string>
  {
    seq(|dets|, k requires 0 <= k < |dets| => dets[k].className)
  }

  // The first pass, stated without counters

  /** A detection together with the branch of the first pass it takes. */
  datatype Classified = Classified(det: Detection, category: Category)

  /** The branch each detection takes, in detection order. */
  function Classify(dets: seq<Detection>): (r: seq<Classified>)
    ensures |r| == |dets|
  {
    seq(|dets|, k requires 0 <= k < |dets| => Classified(dets[k], CategoryOf(dets[k].className)))
  }

  /** How many entries fall into category `c`. */
  function CountIn(cs: seq<Classified>, c: Category): nat
  {
    if cs == [] then 0
    else CountIn(cs[..|cs| - 1], c) + (if cs[|cs| - 1].category == c then 1 else 0)
  }

  /** The entries that are drawn, in order. */
  function KeptIn(cs: seq<Classified>): (r: seq<Classified>)
    ensures |r| <= |cs|
    ensures forall k :: 0 <= k < |r| ==> r[k].category != Ignored
  {
    if cs == [] then []
    else
      var t := cs[|cs| - 1];
      KeptIn(cs[..|cs| - 1]) + (if t.category != Ignored then [t] else [])
  }

  /** The position of the `k`-th entry among those of its own category, counting from 1. */
  function Rank(ks: seq<Classified>, k: nat): nat
    requires k < |ks|
  {
    CountIn(ks[..k + 1], ks[k].category)
  }

  /**
   What is drawn for one kept detection: a box in `color`, and above it the
   text `Label` gives for its category, class name, number and score.
   */
  datatype Mark = Mark(category: Category, className: string, number: nat, scoreText: string, color: Color)

  /** The text `cv2.putText` draws for a mark. */
  function Label(m: Mark): string
    requires m.category != Ignored
  {
    LabelText(m.category, m.className, m.number, m.scoreText)
  }

  function MarkFor(t: Classified, n: nat): Mark
    requires t.category != Ignored
  {
    Mark(t.category, t.det.className, n, t.det.scoreText, ColorOf(t.category))
  }

  /**
   The marks the first pass draws for these entries: an ignored entry draws
   nothing, a kept one a mark numbered one past the count of its category so far.
   There is one mark per kept entry.
   */
  function MarksIn(cs: seq<Classified>): (r: seq<Mark>)
    ensures |r| == |KeptIn(cs)|
  {
    if cs == [] then []
    else
      var t := cs[|cs| - 1];
      MarksIn(cs[..|cs| - 1]) + (if t.category == Ignored then [] else [MarkFor(t, CountIn(cs[..|cs| - 1], t.category) + 1)])
  }

  /** The number of detections of category `c` in a frame. */
  function Count(dets: seq<Detection>, c: Category): nat
  {
    CountIn(Classify(dets), c)
  }

  /** The kept detections of a frame, persons and vehicles, in detection order. */
  function Kept(dets: seq<Detection>): seq<Classified>
  {
    KeptIn(Classify(dets))
  }

  /** The marks of a frame: the k-th kept detection is marked with its rank among those of its category. */
  function FrameMarks(dets: seq<Detection>): seq<Mark>
  {
    MarksIn(Classify(dets))
  }

  /** The names the second pass collects: the class names of kept detections, in order, duplicates included. */
  function KeptNames(dets: seq<Detection>): seq<string>
  {
    if dets == [] then []
    else
      var name := dets[|dets| - 1].className;
      KeptNames(dets[..|dets| - 1]) + (if IsKept(name) then [name] else [])
  }

  /** The numbers drawn for category `c`, in drawing order. */
  function Numbers(marks: seq<Mark>, c: Category): seq<nat>
  {
    if marks == [] then []
    else
      var m := marks[|marks| - 1];
      Numbers(marks[..|marks| - 1], c) + (if m.category == c then [m.number] else [])
  }

  /** The numbers 1, 2, ..., n. */
  function OneTo(n: nat): seq<nat>
  {
    seq(n, i requires 0 <= i < n => i + 1)
  }

  // The first pass

  /**
   Lines 31-60: `person_count` and `vehicle_count` start at 0 and count up as
   persons and vehicles are met; every kept detection gets a mark numbered with
   the updated counter of its category; any other class is skipped.
   */
  method AnnotateFrame(dets: seq<Detection>) returns (personCount: nat, vehicleCount: nat, marks: seq<Mark>)
    ensures personCount == Count(dets, Person)
    ensures vehicleCount == Count(dets, Vehicle)
    ensures marks == FrameMarks(dets)
  {
    personCount, vehicleCount, marks := 0, 0, [];
    for i := 0 to |dets|
      invariant personCount == Count(dets[..i], Person)
      invariant vehicleCount == Count(dets[..i], Vehicle)
      invariant marks == FrameMarks(dets[..i])
    {
      var d := dets[i];
      assert dets[..i + 1] == dets[..i] + [d];
      FrameStep(dets[..i], d);
      VehicleClassesListed(d.className);
      var mark: Mark;
      if d.className == "person" {
        personCount := personCount + 1;
        mark := Mark(Person, d.className, personCount, d.scoreText, Green);
      } else if d.className in VehicleClasses {
        vehicleCount := vehicleCount + 1;
        mark := Mark(Vehicle, d.className, vehicleCount, d.scoreText, Red);
      } else {
        continue;
      }
      marks := marks + [mark];
    }
    assert dets[..|dets|] == dets;
  }

  // The second pass

  /** Lines 86-94: `detected_labels` collects the class name of every kept detection. */
  method CollectLabels(dets: seq<Detection>) returns (labels: seq<string>)
    ensures labels == KeptNames(dets)
  {
    labels := [];
    for i := 0 to |dets|
      invariant labels == KeptNames(dets[..i])
    {
      var name := dets[i].className;
      assert dets[..i + 1][..i] == dets[..i];
      VehicleClassesListed(name);
      if name == "person" || name in VehicleClasses {
        labels := labels + [name];
      }
    }
    assert dets[..|dets|] == dets;
  }

  // Lemmas on classified entries (no class names involved)

  lemma {:induction false} CountInSnoc(cs: seq<Classified>, t: Classified, c: Category)
    ensures CountIn(cs + [t], c) == CountIn(cs, c) + (if t.category == c then 1 else 0)
  {
    assert (cs + [t])[..|cs|] == cs;
  }

  lemma {:induction false} KeptInSnoc(cs: seq<Classified>, t: Classified)
    ensures KeptIn(cs + [t]) == KeptIn(cs) + (if t.category != Ignored then [t] else [])
  {
    assert (cs + [t])[..|cs|] == cs;
  }

  lemma {:induction false} CountKeptIn(cs: seq<Classified>, c: Category)
    requires c != Ignored
    ensures CountIn(KeptIn(cs), c) == CountIn(cs, c)
    decreases |cs|
  {
    if cs != [] {
      var init, t := cs[..|cs| - 1], cs[|cs| - 1];
      assert cs == init + [t];
      CountKeptIn(init, c);
      CountInSnoc(init, t, c);
      KeptInSnoc(init, t);
      if t.category != Ignored {
        CountInSnoc(KeptIn(init), t, c);
      } else {
        assert KeptIn(init) + [] == KeptIn(init);
      }
    }
  }

  /** Every kept entry comes from the input. */
  lemma {:induction false} KeptInFrom(cs: seq<Classified>)
    ensures forall k :: 0 <= k < |KeptIn(cs)| ==> KeptIn(cs)[k] in cs
    decreases |cs|
  {
    if cs != [] {
      var init, t := cs[..|cs| - 1], cs[|cs| - 1];
      assert cs == init + [t];
      KeptInFrom(init);
      KeptInSnoc(init, t);
    }
  }

  /** Appending an entry leaves the rank of every earlier one unchanged. */
  lemma {:induction false} RankPrefix(ks: seq<Classified>, t: Classified, k: nat)
    requires k < |ks|
    ensures Rank(ks + [t], k) == Rank(ks, k)
  {
    assert (ks + [t])[..k + 1] == ks[..k + 1];
  }

  lemma {:induction false} MarksInSnoc(cs: seq<Classified>, t: Classified)
    ensures MarksIn(cs + [t])
         == MarksIn(cs) + (if t.category == Ignored then [] else [MarkFor(t, CountIn(cs, t.category) + 1)])
  {
    assert (cs + [t])[..|cs|] == cs;
  }

  /** The k-th mark is that of the k-th kept entry, numbered with its rank in its category. */
  lemma {:induction false} MarksByRank(cs: seq<Classified>, k: nat)
    requires k < |KeptIn(cs)|
    ensures MarksIn(cs)[k] == MarkFor(KeptIn(cs)[k], Rank(KeptIn(cs), k))
    decreases |cs|
  {
    var init, t := cs[..|cs| - 1], cs[|cs| - 1];
    assert cs == init + [t];
    MarksInSnoc(init, t);
    KeptInSnoc(init, t);
    var ks := KeptIn(init);
    if k < |ks| {
      MarksByRank(init, k);
      if t.category == Ignored {
        assert KeptIn(cs) == ks && MarksIn(cs) == MarksIn(init) + [];
      } else {
        RankPrefix(ks, t, k);
        assert (ks + [t])[k] == ks[k];
      }
    } else {
      var ks' := ks + [t];
      assert ks'[..k + 1] == ks';
      CountInSnoc(ks, t, t.category);
      CountKeptIn(init, t.category);
    }
  }

  lemma {:induction false} NumbersSnoc(marks: seq<Mark>, m: Mark, c: Category)
    ensures Numbers(marks + [m], c) == Numbers(marks, c) + (if m.category == c then [m.number] else [])
  {
    assert (marks + [m])[..|marks|] == marks;
  }

  lemma {:induction false} NumberingIn(cs: seq<Classified>, c: Category)
    requires c != Ignored
    ensures Numbers(MarksIn(cs), c) == OneTo(CountIn(cs, c))
    decreases |cs|
  {
    if cs != [] {
      var s, t := cs[..|cs| - 1], cs[|cs| - 1];
      assert cs == s + [t];
      NumberingIn(s, c);
      NumberingStep(s, t, c);
    }
  }

  /** One step of NumberingIn: the numbering of `cs + [t]` extends that of `cs`. */
  lemma {:induction false} NumberingStep(cs: seq<Classified>, t: Classified, c: Category)
    requires c != Ignored
    requires Numbers(MarksIn(cs), c) == OneTo(CountIn(cs, c))
    ensures Numbers(MarksIn(cs + [t]), c) == OneTo(CountIn(cs + [t], c))
  {
    var ms, n := MarksIn(cs), CountIn(cs, c);
    MarksInSnoc(cs, t);
    CountInSnoc(cs, t, c);
    if t.category == Ignored {
      assert MarksIn(cs + [t]) == ms + [] == ms;
      assert CountIn(cs + [t], c) == n;
    } else {
      var k := CountIn(cs, t.category) + 1;
      assert MarksIn(cs + [t]) == ms + [MarkFor(t, k)];
      NumbersExtend(ms, t, k, n, c);
      assert CountIn(cs + [t], c) == if t.category == c then n + 1 else n;
    }
  }

  /** Appending the mark of a kept entry extends a numbering 1..n of category `c` exactly when it is of category `c`. */
  lemma {:induction false} NumbersExtend(marks: seq<Mark>, t: Classified, k: nat, n: nat, c: Category)
    requires t.category != Ignored
    requires Numbers(marks, c) == OneTo(n)
    requires t.category == c ==> k == n + 1
    ensures Numbers(marks + [MarkFor(t, k)], c) == OneTo(if t.category == c then n + 1 else n)
  {
    var m := MarkFor(t, k);
    assert m.category == t.category && m.number == k;
    NumbersSnoc(marks, m, c);
    if t.category == c {
      OneToSnoc(n);
    }
  }

  lemma {:induction false} OneToSnoc(n: nat)
    ensures OneTo(n + 1) == OneTo(n) + [n + 1]
  {
    var a, b := OneTo(n + 1), OneTo(n) + [n + 1];
    forall i | 0 <= i < n + 1 ensures a[i] == b[i] {
    }
  }

  // Lemmas on frames

  lemma {:induction false} ClassifySnoc(s: seq<Detection>, d: Detection)
    ensures Classify(s + [d]) == Classify(s) + [Classified(d, CategoryOf(d.className))]
  {
  }

  /** One more detection raises the counter of its own category by one and leaves the others. */
  lemma {:induction false} CountStep(s: seq<Detection>, d: Detection)
    ensures forall c :: Count(s + [d], c) == Count(s, c) + (if CategoryOf(d.className) == c then 1 else 0)
  {
    var t := Classified(d, CategoryOf(d.className));
    ClassifySnoc(s, d);
    forall c ensures Count(s + [d], c) == Count(s, c) + (if t.category == c then 1 else 0) {
      CountInSnoc(Classify(s), t, c);
    }
  }

  /** One more detection draws no mark if ignored, and otherwise one mark numbered one past its category's count. */
  lemma {:induction false} MarksStep(s: seq<Detection>, d: Detection)
    ensures CategoryOf(d.className) == Ignored ==> FrameMarks(s + [d]) == FrameMarks(s)
    ensures CategoryOf(d.className) != Ignored ==>
              FrameMarks(s + [d]) == FrameMarks(s) + [MarkFor(Classified(d, CategoryOf(d.className)), Count(s, CategoryOf(d.className)) + 1)]
  {
    var t := Classified(d, CategoryOf(d.className));
    ClassifySnoc(s, d);
    MarksInSnoc(Classify(s), t);
    if t.category == Ignored {
      assert FrameMarks(s) + [] == FrameMarks(s);
    }
  }

  /** One more detection, as the first pass's loop body sees it. */
  lemma {:induction false} FrameStep(s: seq<Detection>, d: Detection)
    ensures forall c :: Count(s + [d], c) == Count(s, c) + (if CategoryOf(d.className) == c then 1 else 0)
    ensures CategoryOf(d.className) == Ignored ==> FrameMarks(s + [d]) == FrameMarks(s)
    ensures CategoryOf(d.className) != Ignored ==>
              FrameMarks(s + [d]) == FrameMarks(s) + [MarkFor(Classified(d, CategoryOf(d.className)), Count(s, CategoryOf(d.className)) + 1)]
  {
    CountStep(s, d);
    MarksStep(s, d);
  }

  /**
   The i-th person of a frame is numbered i and the j-th vehicle j, whatever
   the other category holds: the numbers drawn for a category, read in order,
   are exactly 1, 2, ..., up to that category's count.
   */
  lemma {:induction false} SequentialNumbering(dets: seq<Detection>, c: Category)
    requires c != Ignored
    ensures Numbers(FrameMarks(dets), c) == OneTo(Count(dets, c))
  {
    NumberingIn(Classify(dets), c);
  }

  /**
   The k-th mark belongs to the k-th kept detection: same class name, the
   colour of its category, and a label that opens with the class name
   capitalised, then its number, then the score's text in parentheses.
   */
  lemma {:induction false} MarkLabels(dets: seq<Detection>, k: nat)
    requires k < |FrameMarks(dets)|
    ensures k < |Kept(dets)|
    ensures var m, d := FrameMarks(dets)[k], Kept(dets)[k].det;
            && m.className == d.className && IsKept(d.className)
            && m.category == CategoryOf(d.className) && m.color == ColorOf(m.category)
            && m.scoreText == d.scoreText
            && Label(m) == Capitalize(d.className) + " " + Decimal(m.number) + " (" + d.scoreText + ")"
  {
    var t := Kept(dets)[k];
    MarksByRank(Classify(dets), k);
    KeptInFrom(Classify(dets));
    assert t in Classify(dets);
    var j :| 0 <= j < |dets| && Classify(dets)[j] == t;
    assert t.category == CategoryOf(t.det.className);
    LabelStartsWithClassName(t.det.className, FrameMarks(dets)[k].number, t.det.scoreText);
  }

  /**
   The two passes agree: the second collects exactly the class names of the
   marks the first one drew, so its length is the sum of the two counters.
   */
  lemma {:induction false} PassesAgree(dets: seq<Detection>)
    ensures |KeptNames(dets)| == |FrameMarks(dets)|
    ensures forall k :: 0 <= k < |FrameMarks(dets)| ==> KeptNames(dets)[k] == FrameMarks(dets)[k].className
    ensures |KeptNames(dets)| == Count(dets, Person) + Count(dets, Vehicle)
    decreases |dets|
  {
    if dets != [] {
      var s, d := dets[..|dets| - 1], dets[|dets| - 1];
      assert dets == s + [d];
      PassesAgree(s);
      FrameStep(s, d);
      var ks, ms := KeptNames(dets), FrameMarks(dets);
      assert ks == KeptNames(s) + (if IsKept(d.className) then [d.className] else []);
      forall k | 0 <= k < |ms| ensures ks[k] == ms[k].className {
        if k < |FrameMarks(s)| {
          assert ks[k] == KeptNames(s)[k] && ms[k] == FrameMarks(s)[k];
        }
      }
    }
  }

  /** A detection of any other class changes neither counter, draws no mark and logs no name. */
  lemma {:induction false} IgnoredChangesNothing(s: seq<Detection>, d: Detection)
    requires !IsKept(d.className)
    ensures Count(s + [d], Person) == Count(s, Person)
    ensures Count(s + [d], Vehicle) == Count(s, Vehicle)
    ensures FrameMarks(s + [d]) == FrameMarks(s)
    ensures KeptNames(s + [d]) == KeptNames(s)
  {
    FrameStep(s, d);
    assert (s + [d])[..|s|] == s;
  }

  /** The counters count class names: persons are the "person" entries, vehicles the entries of the four vehicle names. */
  lemma {:induction false} CountsAreMultiplicities(dets: seq<Detection>)
    ensures Count(dets, Person) == multiset(Names(dets))["person"]
    ensures Count(dets, Vehicle) == multiset(Names(dets))["car"] + multiset(Names(dets))["truck"]
                                    + multiset(Names(dets))["bus"] + multiset(Names(dets))["motorcycle"]
    decreases |dets|
  {
    if dets != [] {
      var s, d := dets[..|dets| - 1], dets[|dets| - 1];
      assert dets == s + [d];
      CountsAreMultiplicities(s);
      FrameStep(s, d);
      assert Names(dets) == Names(s) + [d.className];
      assert multiset(Names(dets)) == multiset(Names(s)) + multiset{d.className};
    }
  }

  /** Collecting names distributes over concatenation, so the detection order is kept. */
  lemma {:induction false} KeptNamesAppend(a: seq<Detection>, b: seq<Detection>)
    ensures KeptNames(a + b) == KeptNames(a) + KeptNames(b)
    decreases |b|
  {
    if b == [] {
      assert a + b == a;
    } else {
      var b', d := b[..|b| - 1], b[|b| - 1];
      KeptNamesAppend(a, b');
      assert a + b == (a + b') + [d];
      assert (a + b)[..|a + b| - 1] == a + b';
    }
  }

  /**
   The collected names are the input's class names filtered to the five kept
   ones: each kept name occurs as often as in the input, any other not at all.
   */
  lemma {:induction false} KeptNamesAreFiltered(dets: seq<Detection>)
    ensures forall name :: name in KeptNames(dets) ==> IsKept(name)
    ensures forall name :: multiset(KeptNames(dets))[name]
                           == if IsKept(name) then multiset(Names(dets))[name] else 0
    decreases |dets|
  {
    if dets != [] {
      var s, d := dets[..|dets| - 1], dets[|dets| - 1];
      assert dets == s + [d];
      KeptNamesAreFiltered(s);
      assert Names(dets) == Names(s) + [d.className];
    }
  }
}
