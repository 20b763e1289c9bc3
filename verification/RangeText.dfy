/** The accreditation range of an encodings file written out, for any list of ranges; what the passes of labelcomp.c
    make of it. */
module RangeText {
  import opened Scanner
  import opened Sizing
  import opened LineText

  datatype Kind = AllExcept | All | Only

  /** The range of one classification: which labels are valid, and the labels listed. */
  datatype Range = Range(kind: Kind, labels: seq<string>)

  /** A label as a line of the file. */
  predicate IsLabelLine(line: string) {
    Shown(line) && Apart("MINIMUM CLEARANCE=", line) && Apart("CLASSIFICATION=", line)
  }

  predicate AreRanges(rs: seq<Range>) {
    rs != [] && forall i, k | 0 <= i < |rs| && 0 <= k < |rs[i].labels| :: IsLabelLine(rs[i].labels[k])
  }

  function KindLine(kind: Kind): string {
    match kind
    case AllExcept => "ALL COMPARTMENT COMBINATIONS VALID EXCEPT:"
    case All => "ALL COMPARTMENT COMBINATIONS VALID"
    case Only => "ONLY VALID COMPARTMENT COMBINATIONS:"
  }

  function LabelLines(labels: seq<string>, rest: string): string {
    if labels == [] then rest else Ln(labels[0], LabelLines(labels[1..], rest))
  }

  /** The ranges from `i` on, behind the first line of that one, up to the minimum clearance. */
  function RangeLines(rs: seq<Range>, i: nat, rest: string): string
    requires i < |rs|
    decreases |rs| - i
  {
    Ln(KindLine(rs[i].kind),
       LabelLines(rs[i].labels,
                  if i + 1 == |rs| then Ln("MINIMUM CLEARANCE=U", rest)
                  else Ln("CLASSIFICATION=U", RangeLines(rs, i + 1, rest))))
  }

  /** How many labels are listed from range `i` on. */
  function LabelsFrom(rs: seq<Range>, i: nat): nat
    requires i <= |rs|
    decreases |rs| - i
  {
    if i == |rs| then 0 else |rs[i].labels| + LabelsFrom(rs, i + 1)
  }

  /** The bytes that their compartments take. */
  function LabelSpace(rs: seq<Range>): int {
    LabelsFrom(rs, 0) * COMPARTMENTS_SIZE
  }

  // ---------------------------------------------------------------- the lines are read

  lemma {:induction false} ExceptTidy()
    ensures Tidy("ALL COMPARTMENT COMBINATIONS VALID EXCEPT:")
  {
  }

  lemma {:induction false} AllTidy()
    ensures Tidy("ALL COMPARTMENT COMBINATIONS VALID")
  {
  }

  lemma {:induction false} OnlyTidy()
    ensures Tidy("ONLY VALID COMPARTMENT COMBINATIONS:")
  {
  }

  lemma {:induction false} ExceptTaken(rest: string)
    ensures Next(Scan("", Ln(KindLine(AllExcept), rest)), AR_TYPES) == Token(0, "", Scan("", rest))
  {
    hide Next, Ln, Tidy;
    ExceptTidy();
    assert KindLine(AllExcept) == AR_TYPES[0] + "";
    Taken(KindLine(AllExcept), rest, AR_TYPES, 0, "");
  }

  lemma {:induction false} AllTaken(rest: string)
    ensures Next(Scan("", Ln(KindLine(All), rest)), AR_TYPES) == Token(1, "", Scan("", rest))
  {
    hide Next, Ln, Tidy;
    AllTidy();
    assert KindLine(All) == AR_TYPES[1] + "";
    Taken(KindLine(All), rest, AR_TYPES, 1, "");
  }

  lemma {:induction false} OnlyTaken(rest: string)
    ensures Next(Scan("", Ln(KindLine(Only), rest)), AR_TYPES) == Token(2, "", Scan("", rest))
  {
    hide Next, Ln, Tidy;
    OnlyTidy();
    assert KindLine(Only) == AR_TYPES[2] + "";
    Taken(KindLine(Only), rest, AR_TYPES, 2, "");
  }

  lemma {:induction false} KindTaken(kind: Kind, rest: string)
    ensures var r := Next(Scan("", Ln(KindLine(kind), rest)), AR_TYPES); r.code >= 0 && r.next == Scan("", rest)
  {
    hide Next, Ln, KindLine;
    match kind
    case AllExcept => ExceptTaken(rest);
    case All => AllTaken(rest);
    case Only => OnlyTaken(rest);
  }

  lemma {:induction false} ClearanceTaken(rest: string)
    ensures Next(Scan("", Ln("MINIMUM CLEARANCE=U", rest)), MIN_CLEARANCE) == Token(0, "U", Scan("", rest))
  {
    hide Next, Ln;
    Taken("MINIMUM CLEARANCE=U", rest, MIN_CLEARANCE, 0, "U");
  }

  lemma {:induction false} ClassificationTaken(rest: string)
    ensures Next(Scan("", Ln("CLASSIFICATION=U", rest)), MIN_CLEARANCE) == Token(1, "U", Scan("", rest))
    ensures Next(Scan("", Ln("CLASSIFICATION=U", rest)), CLASSIFICATION) == Token(0, "U", Scan("", rest))
  {
    hide Next, Ln;
    Taken("CLASSIFICATION=U", rest, MIN_CLEARANCE, 1, "U");
    Taken("CLASSIFICATION=U", rest, CLASSIFICATION, 0, "U");
  }

  /** A label takes its compartments. */
  lemma {:induction false} OneLabelRead(line: string, more: string, z: int)
    requires IsLabelLine(line)
    ensures LabelList(Scan("", Ln(line, more)), z) == LabelList(Scan("", more), z + COMPARTMENTS_SIZE)
  {
    hide Next, Ln, Shown, Apart;
    assert forall i | 0 <= i < |MIN_CLEARANCE| :: Apart(MIN_CLEARANCE[i], line);
    Refused(line, more, MIN_CLEARANCE);
  }

  /** The labels listed are read to the line behind them. */
  lemma {:induction false} LabelsRead(labels: seq<string>, rest: string, z: int)
    requires forall k | 0 <= k < |labels| :: IsLabelLine(labels[k])
    ensures LabelList(Scan("", LabelLines(labels, rest)), z)
            == LabelList(Scan("", rest), z + |labels| * COMPARTMENTS_SIZE)
    decreases |labels|
  {
    hide LabelList, Ln, IsLabelLine;
    if labels != [] {
      OneLabelRead(labels[0], LabelLines(labels[1..], rest), z);
      LabelsRead(labels[1..], rest, z + COMPARTMENTS_SIZE);
      Distributed(1, |labels| - 1, COMPARTMENTS_SIZE);
    }
  }

  lemma {:induction false} RangesReadFrom(rs: seq<Range>, i: nat, rest: string, z: int)
    requires AreRanges(rs) && i < |rs|
    ensures RangeList(Scan("", RangeLines(rs, i, rest)), z)
            == Ranges(true, Scan("", rest), z + LabelsFrom(rs, i) * COMPARTMENTS_SIZE)
    decreases |rs| - i
  {
    hide Next, Ln, IsLabelLine, KindLine, LabelLines;
    var r := rs[i];
    var next := if i + 1 == |rs| then Ln("MINIMUM CLEARANCE=U", rest)
      else Ln("CLASSIFICATION=U", RangeLines(rs, i + 1, rest));
    var y := z + |r.labels| * COMPARTMENTS_SIZE;
    KindTaken(r.kind, LabelLines(r.labels, next));
    LabelsRead(r.labels, next, z);
    if i + 1 == |rs| {
      ClearanceTaken(rest);
      assert LabelsFrom(rs, i) == |r.labels| + 0;
    } else {
      ClassificationTaken(RangeLines(rs, i + 1, rest));
      RangesReadFrom(rs, i + 1, rest, y);
      Distributed(|r.labels|, LabelsFrom(rs, i + 1), COMPARTMENTS_SIZE);
    }
  }

  lemma {:induction false} Distributed(a: nat, b: nat, c: nat)
    ensures (a + b) * c == a * c + b * c
  {
  }

  /** Any accreditation range is read to the minimum clearance, and every label listed takes its compartments. */
  lemma {:induction false} RangesReadBack(rs: seq<Range>, rest: string, z: int)
    requires AreRanges(rs)
    ensures RangeList(Scan("", RangeLines(rs, 0, rest)), z)
            == Ranges(true, Scan("", rest), z + LabelSpace(rs))
  {
    hide RangeList, RangeLines, AreRanges;
    assert rs != [] by { RangesThere(rs); }
    RangesReadFrom(rs, 0, rest, z);
  }

  lemma {:induction false} RangesThere(rs: seq<Range>)
    requires AreRanges(rs)
    ensures rs != []
  {
  }
}
