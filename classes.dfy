/**
 The fixed vocabulary of the detection loop: which class names are kept, how
 a kept detection is categorised, coloured and labelled, and the two pieces of
 Python string formatting the labels use (`str.capitalize` and the decimal
 rendering of an `int` inside an f-string).
 */
module Classes {

  /** The class names counted as vehicles, in the order the script lists them. */
  const VehicleClasses: seq<string> := ["car", "truck", "bus", "motorcycle"]

  /** The first pass sorts every detection into one of these by its class name. */
  datatype Category = Person | Vehicle | Ignored

  /** Membership in VehicleClasses, spelled out. */
  predicate IsVehicleName(name: string) {
    name == "car" || name == "truck" || name == "bus" || name == "motorcycle"
  }

  lemma {:induction false} VehicleClassesListed(name: string)
    ensures name in VehicleClasses <==> IsVehicleName(name)
  {
  }

  /** The test of the second pass: `label_name == 'person' or label_name in vehicle_classes`. */
  predicate IsKept(name: string) {
    name == "person" || IsVehicleName(name)
  }

  /** The `if / elif / else` of the first pass. Its last clause says both passes keep the same names. */
  function CategoryOf(name: string): (c: Category)
    ensures c == Person <==> name == "person"
    ensures c == Vehicle <==> IsVehicleName(name)
    ensures c == Ignored <==> !IsKept(name)
  {
    if name == "person" then Person
    else if IsVehicleName(name) then Vehicle
    else Ignored
  }

  /** An OpenCV colour, in blue-green-red order. */
  datatype Color = Color(b: int, g: int, r: int)

  const Green: Color := Color(0, 255, 0)
  const Red: Color := Color(0, 0, 255)

  /** Persons are drawn in green, vehicles in red; ignored detections get no colour. */
  function ColorOf(c: Category): (color: Color)
    requires c != Ignored
    ensures c == Person ==> color == Color(0, 255, 0)
    ensures c == Vehicle ==> color == Color(0, 0, 255)
  {
    match c
    case Person => Green
    case Vehicle => Red
  }

  // ASCII case mapping (Python's `str.capitalize` also maps non-ASCII letters)

  predicate IsLowerLetter(ch: char) { 'a' <= ch <= 'z' }
  predicate IsUpperLetter(ch: char) { 'A' <= ch <= 'Z' }

  function Upper(ch: char): char {
    if IsLowerLetter(ch) then (ch as int - 32) as char else ch
  }

  function Lower(ch: char): char {
    if IsUpperLetter(ch) then (ch as int + 32) as char else ch
  }

  function LowerAll(s: string): string {
    seq(|s|, i requires 0 <= i < |s| => Lower(s[i]))
  }

  /**
   `str.capitalize`: the first character upper case, the rest lower case. The
   result has the same length, differs from the input only in letter case, and
   has no lower-case letter first and no upper-case letter after it.
   */
  function Capitalize(s: string): string
  {
    if s == [] then [] else [Upper(s[0])] + LowerAll(s[1..])
  }

  lemma {:induction false} CapitalizeShape(s: string)
    ensures var r := Capitalize(s);
            && |r| == |s|
            && (|r| > 0 ==> !IsLowerLetter(r[0]))
            && forall i :: 1 <= i < |r| ==> !IsUpperLetter(r[i])
  {
    if s != [] {
      var r, tail := Capitalize(s), LowerAll(s[1..]);
      assert r == [Upper(s[0])] + tail;
      forall i | 1 <= i < |r| ensures !IsUpperLetter(r[i]) {
        assert r[i] == tail[i - 1] == Lower(s[i]);
      }
    }
  }

  /** Lower-casing forgets any earlier change of case. */
  lemma {:induction false} LowerForgetsCase(ch: char)
    ensures Lower(Upper(ch)) == Lower(ch) && Lower(Lower(ch)) == Lower(ch)
  {
  }

  /** Capitalising changes the case of one character at most: lower-cased, it is the input's character. */
  lemma {:induction false} CapitalizeCharCase(s: string, i: nat)
    requires i < |s|
    ensures |Capitalize(s)| == |s| && Lower(Capitalize(s)[i]) == Lower(s[i])
  {
    var r, tail := Capitalize(s), LowerAll(s[1..]);
    assert r == [Upper(s[0])] + tail;
    LowerForgetsCase(s[i]);
    if i > 0 {
      assert r[i] == tail[i - 1] == Lower(s[i]);
    }
  }

  /** Capitalising changes letter case only: lower-cased, the result and the input agree. */
  lemma {:induction false} CapitalizeKeepsLetters(s: string)
    ensures LowerAll(Capitalize(s)) == LowerAll(s)
  {
    var r := Capitalize(s);
    var a, b := LowerAll(r), LowerAll(s);
    if s != [] {
      CapitalizeCharCase(s, 0);
    }
    assert |a| == |b|;
    forall i | 0 <= i < |s| ensures a[i] == b[i] {
      CapitalizeCharCase(s, i);
    }
  }

  lemma {:induction false} CapitalizeIdempotent(s: string)
    ensures Capitalize(Capitalize(s)) == Capitalize(s)
  {
    var c := Capitalize(s);
    CapitalizeShape(s);
    if s != [] {
      var cc := Capitalize(c);
      forall i | 0 <= i < |c| ensures cc[i] == c[i] {
        if i > 0 {
          assert !IsUpperLetter(c[i]);
        }
      }
    }
  }

  /** Lower-casing a string without upper-case letters leaves it alone. */
  lemma {:induction false} LowerAllNoUpper(s: string)
    requires forall i :: 0 <= i < |s| ==> !IsUpperLetter(s[i])
    ensures LowerAll(s) == s
  {
  }

  /** Every kept class name is lower case, so capitalising it only raises its first letter. */
  lemma {:induction false} CapitalizedClassName(name: string)
    requires IsKept(name)
    ensures Capitalize(name) == [Upper(name[0])] + name[1..]
  {
    assert forall i :: 0 <= i < |name| ==> IsLowerLetter(name[i]);
    LowerAllNoUpper(name[1..]);
  }

  // Decimal rendering of a natural number, as `f"{n}"` prints an int

  predicate IsDigit(ch: char) { '0' <= ch <= '9' }

  predicate AllDigits(s: string) {
    forall i :: 0 <= i < |s| ==> IsDigit(s[i])
  }

  function DigitChar(d: nat): (ch: char)
    requires d < 10
    ensures IsDigit(ch) && ch as int - '0' as int == d
  {
    ('0' as int + d) as char
  }

  /** Digits only, at least one, and no leading zero except for zero itself. */
  function Decimal(n: nat): (s: string)
    ensures |s| >= 1 && AllDigits(s)
    ensures s[0] == '0' ==> n == 0
    decreases n
  {
    if n < 10 then [DigitChar(n)] else Decimal(n / 10) + [DigitChar(n % 10)]
  }

  /** Reads a string of digits back as a number. */
  function DecimalValue(s: string): nat
    requires AllDigits(s)
  {
    if s == [] then 0
    else DecimalValue(s[..|s| - 1]) * 10 + (s[|s| - 1] as int - '0' as int)
  }

  /** The number in a label can be read back from its digits. */
  lemma {:induction false} DecimalRoundTrip(n: nat)
    ensures DecimalValue(Decimal(n)) == n
    decreases n
  {
    var s := Decimal(n);
    if n >= 10 {
      DecimalRoundTrip(n / 10);
      assert s[..|s| - 1] == Decimal(n / 10);
    }
  }

  /** Two different numbers never render the same. */
  lemma {:induction false} DecimalInjective(m: nat, n: nat)
    requires Decimal(m) == Decimal(n)
    ensures m == n
  {
    DecimalRoundTrip(m);
    DecimalRoundTrip(n);
  }

  /**
   The label drawn above a kept detection: `"Person {n} ({score})"` for a
   person and `"{Name} {n} ({score})"` for a vehicle, where the score's
   two-decimal rendering is carried as text.
   */
  function LabelText(c: Category, name: string, n: nat, scoreText: string): string
    requires c != Ignored
  {
    if c == Person then "Person " + Decimal(n) + " (" + scoreText + ")"
    else Capitalize(name) + " " + Decimal(n) + " (" + scoreText + ")"
  }

  /** Both branches give the same shape: the class name capitalised, the number, the score. */
  lemma {:induction false} LabelStartsWithClassName(name: string, n: nat, scoreText: string)
    requires IsKept(name)
    ensures LabelText(CategoryOf(name), name, n, scoreText)
         == Capitalize(name) + " " + Decimal(n) + " (" + scoreText + ")"
  {
    assert Capitalize("person") == "Person";
  }
}
