/** `l_dbstore` of labelcomp.c: every pointer in the compiled encodings is made an offset, the block is
    written, and every pointer is made a pointer again. */
module DbStore {
  import opened CTypes
  import opened Sizing
  import opened CountingPass

  /** A pointer, or null; in the image, an offset. */
  const NULL := 0

  datatype WordEntry = WordEntry(outputName: int, longName: int, shortName: int, cmMask: int, cmValue: int, mkMask: int,
                                 mkValue: int)

  /** One classification: its names, its initial bits, and its accreditation range. */
  datatype ClassEntry = ClassEntry(long: int, short: int, compartments: int, markings: int, start: int, end: int)

  /** A constraint, or the mark behind the last. */
  datatype Constraint =
    | Constraint(kind: int, first: int, second: int, end: int)
    | EndMark(first: int, second: int, end: int)

  /** A kind of label: pointers to its three tables, its words, and its constraints, with whatever lies behind
      their end mark. */
  datatype LabelTable = LabelTable(wordsPtr: int, combosPtr: int, constraintsPtr: int, words: seq<WordEntry>,
                                   constraints: seq<Constraint>)

  /** What of the block holds pointers. */
  datatype Memory = Memory(loClearance: int, loLabel: int, classes: seq<ClassEntry>, tables: seq<LabelTable>)

  // ---------------------------------------------------------------- relocation

  /** Adjust: 64-bit addition. */
  function Shift(p: int, incr: int): int {
    WrapLong(p + incr)
  }

  /** Adjust behind a guard: null stays null. */
  function ShiftGuarded(p: int, incr: int): int {
    if p != NULL then Shift(p, incr) else p
  }

  function ShiftWord(w: WordEntry, incr: int): WordEntry {
    WordEntry(Shift(w.outputName, incr), Shift(w.longName, incr), ShiftGuarded(w.shortName, incr),
              Shift(w.cmMask, incr),
              Shift(w.cmValue, incr), Shift(w.mkMask, incr), Shift(w.mkValue, incr))
  }

  function ShiftNames(c: ClassEntry, incr: int): ClassEntry {
    if c.long == NULL then c
    else c.(long := Shift(c.long, incr), short := Shift(c.short, incr), compartments := Shift(c.compartments, incr),
            markings := Shift(c.markings, incr))
  }

  function ShiftRange(c: ClassEntry, incr: int): ClassEntry {
    if c.start == NULL then c else c.(start := Shift(c.start, incr), end := Shift(c.end, incr))
  }

  function ShiftClass(c: ClassEntry, incr: int): ClassEntry {
    ShiftRange(ShiftNames(c, incr), incr)
  }

  function ShiftConstraint(c: Constraint, incr: int): Constraint {
    c.(first := Shift(c.first, incr), second := Shift(c.second, incr), end := Shift(c.end, incr))
  }

  /** Up to the first end mark. */
  function ShiftConstraints(cs: seq<Constraint>, incr: int): (r: seq<Constraint>)
    ensures |r| == |cs|
  {
    if cs == [] || cs[0].EndMark? then cs else [ShiftConstraint(cs[0], incr)] + ShiftConstraints(cs[1..], incr)
  }

  function ShiftWords(ws: seq<WordEntry>, incr: int): (r: seq<WordEntry>)
    ensures |r| == |ws| && forall i | 0 <= i < |ws| :: r[i] == ShiftWord(ws[i], incr)
  {
    seq(|ws|, i requires 0 <= i < |ws| => ShiftWord(ws[i], incr))
  }

  /** The three kinds of label that have combinations; the words of the other two have none. */
  const WITH_COMBINATIONS := 3
  const ALL_TABLES := 5

  function ShiftTable(t: LabelTable, combinations: bool, incr: int): LabelTable {
    var u := t.(wordsPtr := Shift(t.wordsPtr, incr), words := ShiftWords(t.words, incr));
    if combinations then
      u.(combosPtr := Shift(t.combosPtr, incr), constraintsPtr := Shift(t.constraintsPtr, incr),
         constraints := ShiftConstraints(t.constraints, incr))
    else u
  }

  function ShiftClasses(cs: seq<ClassEntry>, incr: int): (r: seq<ClassEntry>)
    ensures |r| == |cs| && forall i | 0 <= i < |cs| :: r[i] == ShiftClass(cs[i], incr)
  {
    seq(|cs|, i requires 0 <= i < |cs| => ShiftClass(cs[i], incr))
  }

  function ShiftTables(ts: seq<LabelTable>, incr: int): (r: seq<LabelTable>)
    ensures |r| == |ts| && forall i | 0 <= i < |ts| :: r[i] == ShiftTable(ts[i], i < WITH_COMBINATIONS, incr)
  {
    seq(|ts|, i requires 0 <= i < |ts| => ShiftTable(ts[i], i < WITH_COMBINATIONS, incr))
  }

  /** Every pointer of the block shifted. */
  function Shifted(m: Memory, incr: int): Memory {
    Memory(Shift(m.loClearance, incr), Shift(m.loLabel, incr), ShiftClasses(m.classes, incr),
           ShiftTables(m.tables, incr))
  }

  // ---------------------------------------------------------------- shifting and shifting back

  lemma {:induction false} ShiftBack(p: int, base: int)
    requires IsLong(p)
    ensures Shift(Shift(p, WrapLong(-base)), base) == p
  {
  }

  /** A guarded pointer comes back exactly if the guard is still open after the first shift: if it does not
      point to the base itself. */
  lemma {:induction false} GuardedBackIff(p: int, base: int)
    requires IsLong(p) && IsLong(base) && base != 0
    ensures ShiftGuarded(ShiftGuarded(p, WrapLong(-base)), base) == p <==> p != base
  {
    ShiftBack(p, base);
  }

  predicate LongWord(w: WordEntry) {
    IsLong(w.outputName) && IsLong(w.longName) && IsLong(w.shortName) && IsLong(w.cmMask) && IsLong(w.cmValue)
      && IsLong(w.mkMask) && IsLong(w.mkValue)
  }

  predicate LongClass(c: ClassEntry) {
    IsLong(c.long) && IsLong(c.short) && IsLong(c.compartments) && IsLong(c.markings) && IsLong(c.start)
      && IsLong(c.end)
  }

  predicate LongConstraint(c: Constraint) {
    IsLong(c.first) && IsLong(c.second) && IsLong(c.end)
  }

  predicate LongTable(t: LabelTable) {
    && IsLong(t.wordsPtr) && IsLong(t.combosPtr) && IsLong(t.constraintsPtr)
    && (forall i | 0 <= i < |t.words| :: LongWord(t.words[i]))
    && (forall i | 0 <= i < |t.constraints| :: LongConstraint(t.constraints[i]))
  }

  /** Every pointer is a 64-bit value. */
  predicate AllLong(m: Memory) {
    && IsLong(m.loClearance) && IsLong(m.loLabel)
    && (forall i | 0 <= i < |m.classes| :: LongClass(m.classes[i]))
    && (forall i | 0 <= i < |m.tables| :: LongTable(m.tables[i]))
  }

  function ThereAndBack(m: Memory, base: int): Memory {
    Shifted(Shifted(m, WrapLong(-base)), base)
  }

  lemma {:induction false} WordBackIff(w: WordEntry, base: int)
    requires LongWord(w) && IsLong(base) && base != 0
    ensures ShiftWord(ShiftWord(w, WrapLong(-base)), base) == w <==> w.shortName != base
  {
    hide Shift, ShiftGuarded;
    ShiftBack(w.outputName, base);
    ShiftBack(w.longName, base);
    ShiftBack(w.cmMask, base);
    ShiftBack(w.cmValue, base);
    ShiftBack(w.mkMask, base);
    ShiftBack(w.mkValue, base);
    GuardedBackIff(w.shortName, base);
  }

  lemma {:induction false} ClassBackIff(c: ClassEntry, base: int)
    requires LongClass(c) && IsLong(base) && base != 0
    ensures ShiftClass(ShiftClass(c, WrapLong(-base)), base) == c <==> c.long != base && c.start != base
  {
    hide Shift;
    ShiftBack(c.long, base);
    ShiftBack(c.short, base);
    ShiftBack(c.compartments, base);
    ShiftBack(c.markings, base);
    ShiftBack(c.start, base);
    ShiftBack(c.end, base);
    ShiftNullIff(c.long, base);
    ShiftNullIff(c.start, base);
  }

  lemma {:induction false} ShiftNullIff(p: int, base: int)
    requires IsLong(p) && IsLong(base)
    ensures Shift(p, WrapLong(-base)) == NULL <==> p == base
  {
    ShiftBack(p, base);
  }

  lemma {:induction false} ConstraintBack(c: Constraint, base: int)
    requires LongConstraint(c)
    ensures ShiftConstraint(ShiftConstraint(c, WrapLong(-base)), base) == c
    ensures ShiftConstraint(c, WrapLong(-base)).EndMark? == c.EndMark?
  {
    hide Shift;
    ShiftBack(c.first, base);
    ShiftBack(c.second, base);
    ShiftBack(c.end, base);
  }

  lemma {:induction false} ConstraintsBack(cs: seq<Constraint>, base: int)
    requires forall i | 0 <= i < |cs| :: LongConstraint(cs[i])
    ensures ShiftConstraints(ShiftConstraints(cs, WrapLong(-base)), base) == cs
    decreases |cs|
  {
    hide ShiftConstraint;
    if cs != [] && !cs[0].EndMark? {
      ConstraintBack(cs[0], base);
      ConstraintsBack(cs[1..], base);
      assert [cs[0]] + cs[1..] == cs;
      var there := ShiftConstraints(cs, WrapLong(-base));
      assert there[1..] == ShiftConstraints(cs[1..], WrapLong(-base));
    }
  }

  lemma {:induction false} TableBackIff(t: LabelTable, combinations: bool, base: int)
    requires LongTable(t) && IsLong(base) && base != 0
    ensures ShiftTable(ShiftTable(t, combinations, WrapLong(-base)), combinations, base) == t
            <==> forall i | 0 <= i < |t.words| :: t.words[i].shortName != base
  {
    hide Shift, ShiftWord, ShiftConstraints;
    ShiftBack(t.wordsPtr, base);
    ShiftBack(t.combosPtr, base);
    ShiftBack(t.constraintsPtr, base);
    ConstraintsBack(t.constraints, base);
    var back := ShiftWords(ShiftWords(t.words, WrapLong(-base)), base);
    forall i | 0 <= i < |t.words| ensures back[i] == t.words[i] <==> t.words[i].shortName != base {
      WordBackIff(t.words[i], base);
    }
    assert back == t.words <==> forall i | 0 <= i < |t.words| :: back[i] == t.words[i];
  }

  /** No pointer that stands behind a guard, or is one, points to the first byte of the block. */
  predicate NoneAtBase(m: Memory, base: int) {
    && (forall i | 0 <= i < |m.classes| :: m.classes[i].long != base && m.classes[i].start != base)
    && (forall i, j | 0 <= i < |m.tables| && 0 <= j < |m.tables[i].words| :: m.tables[i].words[j].shortName != base)
  }

  /** Memory comes back exactly as it was if, and only if, none of the pointers that the guards test points to
      the base: the guards then visit the same fields in both phases. */
  lemma {:induction false} RestoredIff(m: Memory, base: int)
    requires AllLong(m) && IsLong(base) && base != 0
    ensures ThereAndBack(m, base) == m <==> NoneAtBase(m, base)
  {
    hide Shift, ShiftTable, ShiftClass;
    ShiftBack(m.loClearance, base);
    ShiftBack(m.loLabel, base);
    var back := ThereAndBack(m, base);
    forall i | 0 <= i < |m.classes|
      ensures back.classes[i] == m.classes[i] <==> m.classes[i].long != base && m.classes[i].start != base
    {
      ClassBackIff(m.classes[i], base);
    }
    forall i | 0 <= i < |m.tables|
      ensures back.tables[i] == m.tables[i]
              <==> forall j | 0 <= j < |m.tables[i].words| :: m.tables[i].words[j].shortName != base
    {
      TableBackIff(m.tables[i], i < WITH_COMBINATIONS, base);
    }
    assert back.classes == m.classes <==> forall i | 0 <= i < |m.classes| :: back.classes[i] == m.classes[i];
    assert back.tables == m.tables <==> forall i | 0 <= i < |m.tables| :: back.tables[i] == m.tables[i];
  }

  /** A null pointer, or one into the strings of a block in which `size` bytes of tables come first. */
  predicate InStrings(p: int, base: int, size: int) {
    p == NULL || base + size <= p
  }

  /** So are the pointers that the guards test. */
  predicate GuardedInStrings(m: Memory, base: int, size: int) {
    && (forall i | 0 <= i < |m.classes| ::
        InStrings(m.classes[i].long, base, size) && InStrings(m.classes[i].start, base, size))
    && (forall i, j | 0 <= i < |m.tables| && 0 <= j < |m.tables[i].words| ::
          InStrings(m.tables[i].words[j].shortName, base, size))
  }

  /** In a block laid out for an encodings file, where the strings stand behind the tables that were counted, memory
      is always restored. */
  lemma {:induction false} BlockRestored(file: string, m: Memory, base: int)
    requires AllLong(m) && IsLong(base) && base != 0
    requires GuardedInStrings(m, base, TableBytes(Pass(file, COUNTING)))
    ensures ThereAndBack(m, base) == m
  {
    hide ThereAndBack, AllLong, Pass, TableBytes;
    TablesFirst(file);
    RestoredIff(m, base);
  }

  // ---------------------------------------------------------------- the image, field by field

  /** A 64-bit value that is the distance of a pointer from the base, up to multiples of two to the 64th. */
  predicate IsOffset(q: int, p: int, base: int) {
    IsLong(q) && (q - (p - base)) % 0x1_0000_0000_0000_0000 == 0
  }

  predicate WordImage(w: WordEntry, v: WordEntry, base: int) {
    && IsOffset(v.outputName, w.outputName, base) && IsOffset(v.longName, w.longName, base)
    && (if w.shortName == 0 then v.shortName == 0 else IsOffset(v.shortName, w.shortName, base))
    && IsOffset(v.cmMask, w.cmMask, base) && IsOffset(v.cmValue, w.cmValue, base)
    && IsOffset(v.mkMask, w.mkMask, base) && IsOffset(v.mkValue, w.mkValue, base)
  }

  /** A classification without a long name has no names and no bits, and one without a range no end of it. */
  predicate ClassImage(c: ClassEntry, d: ClassEntry, base: int) {
    && (if c.long == 0
        then d.long == 0 && d.short == c.short && d.compartments == c.compartments && d.markings == c.markings
        else && IsOffset(d.long, c.long, base) && IsOffset(d.short, c.short, base)
             && IsOffset(d.compartments, c.compartments, base) && IsOffset(d.markings, c.markings, base))
    && (if c.start == 0 then d.start == 0 && d.end == c.end
        else IsOffset(d.start, c.start, base) && IsOffset(d.end, c.end, base))
  }

  /** Up to this entry there is no end mark. */
  predicate AheadOfMark(cs: seq<Constraint>, i: nat) {
    i < |cs| && forall k | 0 <= k <= i :: !cs[k].EndMark?
  }

  predicate ConstraintImage(c: Constraint, d: Constraint, base: int) {
    && c.Constraint? && d.Constraint? && d.kind == c.kind
    && IsOffset(d.first, c.first, base) && IsOffset(d.second, c.second, base) && IsOffset(d.end, c.end, base)
  }

  /** The end mark and whatever lies behind it stay. */
  predicate ConstraintsImage(cs: seq<Constraint>, ds: seq<Constraint>, base: int) {
    && |ds| == |cs|
    && forall i | 0 <= i < |cs| ::
         if AheadOfMark(cs, i) then ConstraintImage(cs[i], ds[i], base) else ds[i] == cs[i]
  }

  /** The pointers to combinations and constraints are those of a kind that has them. */
  predicate TableImage(t: LabelTable, u: LabelTable, combinations: bool, base: int) {
    && IsOffset(u.wordsPtr, t.wordsPtr, base)
    && |u.words| == |t.words| && (forall i | 0 <= i < |t.words| :: WordImage(t.words[i], u.words[i], base))
    && if combinations
       then && IsOffset(u.combosPtr, t.combosPtr, base) && IsOffset(u.constraintsPtr, t.constraintsPtr, base)
            && ConstraintsImage(t.constraints, u.constraints, base)
       else u.combosPtr == t.combosPtr && u.constraintsPtr == t.constraintsPtr && u.constraints == t.constraints
  }

  /** The image of a block at `base`: every pointer an offset, null where a guard found null, and nothing else
      changed.  Information labels, sensitivity labels and clearances have combinations. */
  predicate ImageOf(m: Memory, base: int, image: Memory) {
    && IsOffset(image.loClearance, m.loClearance, base) && IsOffset(image.loLabel, m.loLabel, base)
    && |image.classes| == |m.classes|
    && (forall i | 0 <= i < |m.classes| :: ClassImage(m.classes[i], image.classes[i], base))
    && |image.tables| == |m.tables|
    && (forall i | 0 <= i < |m.tables| :: TableImage(m.tables[i], image.tables[i], i < 3, base))
  }

  lemma {:induction false} ShiftedOffset(p: int, base: int)
    ensures IsOffset(Shift(p, WrapLong(-base)), p, base)
  {
    var wrap := 0x1_0000_0000_0000_0000;
    var k := (-base + wrap / 2) / wrap;
    assert WrapLong(-base) == -base - k * wrap;
    var j := (p + WrapLong(-base) + wrap / 2) / wrap;
    assert Shift(p, WrapLong(-base)) - (p - base) == (-k - j) * wrap;
  }

  lemma {:induction false} WordShifted(w: WordEntry, base: int)
    ensures WordImage(w, ShiftWord(w, WrapLong(-base)), base)
  {
    hide IsOffset, Shift;
    ShiftedOffset(w.outputName, base);
    ShiftedOffset(w.longName, base);
    ShiftedOffset(w.shortName, base);
    ShiftedOffset(w.cmMask, base);
    ShiftedOffset(w.cmValue, base);
    ShiftedOffset(w.mkMask, base);
    ShiftedOffset(w.mkValue, base);
  }

  lemma {:induction false} ClassShifted(c: ClassEntry, base: int)
    ensures ClassImage(c, ShiftClass(c, WrapLong(-base)), base)
  {
    hide IsOffset, Shift;
    ShiftedOffset(c.long, base);
    ShiftedOffset(c.short, base);
    ShiftedOffset(c.compartments, base);
    ShiftedOffset(c.markings, base);
    ShiftedOffset(c.start, base);
    ShiftedOffset(c.end, base);
  }

  lemma {:induction false} ConstraintShifted(c: Constraint, base: int)
    requires !c.EndMark?
    ensures ConstraintImage(c, ShiftConstraint(c, WrapLong(-base)), base)
  {
    hide IsOffset, Shift;
    ShiftedOffset(c.first, base);
    ShiftedOffset(c.second, base);
    ShiftedOffset(c.end, base);
  }

  lemma {:induction false} AheadInRest(cs: seq<Constraint>, i: nat)
    requires cs != [] && !cs[0].EndMark? && 0 < i < |cs|
    ensures AheadOfMark(cs, i) <==> AheadOfMark(cs[1..], i - 1)
  {
    var rest := cs[1..];
    assert forall k | 1 <= k < |cs| :: cs[k] == rest[k - 1];
  }

  lemma {:induction false} ConstraintsShifted(cs: seq<Constraint>, base: int)
    ensures ConstraintsImage(cs, ShiftConstraints(cs, WrapLong(-base)), base)
    decreases |cs|
  {
    hide ConstraintImage, ShiftConstraint, AheadOfMark;
    var incr := WrapLong(-base);
    if cs == [] || cs[0].EndMark? {
      forall i: nat | i < |cs| ensures !AheadOfMark(cs, i) {
        NotAhead(cs, i);
      }
    } else {
      var ds, rest := ShiftConstraints(cs, incr), cs[1..];
      ConstraintShifted(cs[0], base);
      ConstraintsShifted(rest, base);
      assert ds == [ShiftConstraint(cs[0], incr)] + ShiftConstraints(rest, incr);
      forall i: nat | i < |cs|
        ensures if AheadOfMark(cs, i) then ConstraintImage(cs[i], ds[i], base) else ds[i] == cs[i]
      {
        if i == 0 {
          FirstAhead(cs);
        } else {
          AheadInRest(cs, i);
          assert ds[i] == ShiftConstraints(rest, incr)[i - 1] && cs[i] == rest[i - 1];
        }
      }
    }
  }

  lemma {:induction false} NotAhead(cs: seq<Constraint>, i: nat)
    requires cs != [] && cs[0].EndMark?
    ensures !AheadOfMark(cs, i)
  {
  }

  lemma {:induction false} FirstAhead(cs: seq<Constraint>)
    requires cs != [] && !cs[0].EndMark?
    ensures AheadOfMark(cs, 0)
  {
  }

  lemma {:induction false} TableShifted(t: LabelTable, combinations: bool, base: int)
    ensures TableImage(t, ShiftTable(t, combinations, WrapLong(-base)), combinations, base)
  {
    hide IsOffset, Shift, ShiftWord, WordImage, ShiftConstraints, ConstraintsImage;
    ShiftedOffset(t.wordsPtr, base);
    ShiftedOffset(t.combosPtr, base);
    ShiftedOffset(t.constraintsPtr, base);
    ConstraintsShifted(t.constraints, base);
    forall i | 0 <= i < |t.words| ensures WordImage(t.words[i], ShiftWord(t.words[i], WrapLong(-base)), base) {
      WordShifted(t.words[i], base);
    }
  }

  /** What is written is that image. */
  lemma {:induction false} ShiftedIsImage(m: Memory, base: int)
    ensures ImageOf(m, base, Shifted(m, WrapLong(-base)))
  {
    hide IsOffset, Shift, ShiftClass, ClassImage, ShiftTable, TableImage;
    ShiftedOffset(m.loClearance, base);
    ShiftedOffset(m.loLabel, base);
    forall i | 0 <= i < |m.classes| ensures ClassImage(m.classes[i], ShiftClass(m.classes[i], WrapLong(-base)), base) {
      ClassShifted(m.classes[i], base);
    }
    forall i | 0 <= i < |m.tables|
      ensures TableImage(m.tables[i], ShiftTable(m.tables[i], i < 3, WrapLong(-base)), i < 3, base)
    {
      TableShifted(m.tables[i], i < 3, base);
    }
  }

  /** An offset of a pointer into the block is its distance from the base. */
  lemma {:induction false} OffsetIsDistance(q: int, p: int, base: int)
    requires IsOffset(q, p, base) && IsLong(p - base)
    ensures q == p - base
  {
  }

  // ---------------------------------------------------------------- the routine

  class Block {
    var loClearance: int
    var loLabel: int
    var classes: seq<ClassEntry>
    var tables: seq<LabelTable>
    /** Where the tables of words and of constraints really lie. */
    const wordsAt: seq<int>
    const constraintsAt: seq<int>

    function Contents(): Memory
      reads this
    {
      Memory(loClearance, loLabel, classes, tables)
    }

    /** A kind of label whose tables are where their pointers say; the constraints have an end mark. */
    ghost predicate InPlace(t: nat, table: LabelTable) {
      && t < |wordsAt| && t < |constraintsAt|
      && table.wordsPtr == wordsAt[t]
      && (t < WITH_COMBINATIONS ==> table.constraintsPtr == constraintsAt[t] && Ends(table.constraints))
    }

    constructor (m: Memory, wordsAt: seq<int>, constraintsAt: seq<int>)
      ensures Contents() == m && this.wordsAt == wordsAt && this.constraintsAt == constraintsAt
    {
      loClearance, loLabel, classes, tables := m.loClearance, m.loLabel, m.classes, m.tables;
      this.wordsAt, this.constraintsAt := wordsAt, constraintsAt;
    }

    /** AdjustWords: the words are found through the pointer to their table. */
    method AdjustWords(t: nat, incr: int)
      requires t < |tables| && t < |wordsAt| && tables[t].wordsPtr == wordsAt[t]
      modifies this`tables
      ensures tables == old(tables)[t := old(tables[t]).(words := ShiftWords(old(tables[t].words), incr))]
    {
      var words := AdjustWordList(tables[t].words, incr);
      tables := tables[t := tables[t].(words := words)];
    }

    /** AdjustConstraints, likewise, up to the end mark. */
    method AdjustConstraints(t: nat, incr: int)
      requires t < |tables| && t < |constraintsAt| && tables[t].constraintsPtr == constraintsAt[t]
      requires Ends(tables[t].constraints)
      modifies this`tables
      ensures tables ==
              old(tables)[t := old(tables[t]).(constraints := ShiftConstraints(old(tables[t].constraints), incr))]
    {
      var cs := AdjustConstraintList(tables[t].constraints, incr);
      tables := tables[t := tables[t].(constraints := cs)];
    }

    /** The pointers outside the tables of words and combinations: the same in both phases. */
    method AdjustFixed(incr: int)
      modifies this`loClearance, this`loLabel, this`classes
      ensures loClearance == Shift(old(loClearance), incr) && loLabel == Shift(old(loLabel), incr)
      ensures classes == ShiftClasses(old(classes), incr)
    {
      loClearance := WrapLong(loClearance + incr);
      loLabel := WrapLong(loLabel + incr);
      classes := AdjustClassList(classes, incr);
    }

    /** The pointers of one kind of label made offsets: a table's own pointer is the last to change. */
    method MakeOffsets(t: nat, incr: int)
      requires t < |tables| && InPlace(t, tables[t])
      modifies this`tables
      ensures tables == old(tables)[t := ShiftTable(old(tables[t]), t < WITH_COMBINATIONS, incr)]
    {
      hide ShiftWords, ShiftConstraints;
      AdjustWords(t, incr);
      tables := tables[t := tables[t].(wordsPtr := WrapLong(tables[t].wordsPtr + incr))];
      if t < WITH_COMBINATIONS {
        tables := tables[t := tables[t].(combosPtr := WrapLong(tables[t].combosPtr + incr))];
        AdjustConstraints(t, incr);
        tables := tables[t := tables[t].(constraintsPtr := WrapLong(tables[t].constraintsPtr + incr))];
      }
    }

    /** And made pointers again: a table's own pointer is the first. */
    method MakePointers(t: nat, incr: int, ghost before: LabelTable)
      requires t < |tables| && InPlace(t, before) && LongTable(before) && IsLong(incr)
      requires tables[t] == ShiftTable(before, t < WITH_COMBINATIONS, WrapLong(-incr))
      modifies this`tables
      ensures tables == old(tables)[t := ShiftTable(old(tables[t]), t < WITH_COMBINATIONS, incr)]
    {
      hide ShiftWords, ShiftConstraints, Shift;
      ShiftBack(before.wordsPtr, incr);
      ShiftBack(before.constraintsPtr, incr);
      EndsStays(before.constraints, WrapLong(-incr));
      tables := tables[t := tables[t].(wordsPtr := Shift(tables[t].wordsPtr, incr))];
      AdjustWords(t, incr);
      if t < WITH_COMBINATIONS {
        tables := tables[t := tables[t].(combosPtr := Shift(tables[t].combosPtr, incr))];
        tables := tables[t := tables[t].(constraintsPtr := Shift(tables[t].constraintsPtr, incr))];
        AdjustConstraints(t, incr);
      }
    }

    /** `l_dbstore`.  The image, which may or may not be written, holds every pointer less the base, and all else as
        it was; afterwards the base has been added again to all that the guards let through, and memory is as
        before, unless a pointer that a guard tests points to the base. */
    method Store(base: int) returns (status: int, image: Memory)
      requires |tables| == ALL_TABLES && AllLong(Contents()) && IsLong(base) && base != 0
      requires forall t | 0 <= t < ALL_TABLES :: InPlace(t, tables[t])
      modifies this
      ensures status == 0 || status == -1
      ensures ImageOf(old(Contents()), base, image)
      ensures Contents() == Shifted(image, base)
      ensures Contents() == old(Contents()) <==> NoneAtBase(old(Contents()), base)
    {
      hide Shift, ShiftClasses, ShiftTables, LongTable, NoneAtBase, InPlace, ImageOf;
      ghost var before := Contents();
      RestoredIff(before, base);
      ShiftedIsImage(before, base);
      var incr := WrapLong(-base);
      AllOffsets(incr);
      image := Contents();
      status := 0;
      if * {
        status := -1;
      }
      BackToBase(base);
      incr := WrapLong(-incr);
      AllPointers(incr, before);
    }

    /** Everything made offsets. */
    method AllOffsets(incr: int)
      requires |tables| == ALL_TABLES && forall t | 0 <= t < ALL_TABLES :: InPlace(t, tables[t])
      modifies this
      ensures Contents() == Shifted(old(Contents()), incr)
    {
      hide Shift, ShiftTable, ShiftClasses;
      AdjustFixed(incr);
      MakeOffsets(0, incr);
      MakeOffsets(1, incr);
      MakeOffsets(2, incr);
      MakeOffsets(3, incr);
      MakeOffsets(4, incr);
      assert tables == ShiftTables(old(tables), incr);
    }

    /** Everything made pointers again. */
    method AllPointers(incr: int, ghost before: Memory)
      requires |before.tables| == ALL_TABLES && AllLong(before) && IsLong(incr)
      requires forall t | 0 <= t < ALL_TABLES :: InPlace(t, before.tables[t])
      requires tables == ShiftTables(before.tables, WrapLong(-incr))
      modifies this
      ensures Contents() == Shifted(old(Contents()), incr)
    {
      hide Shift, ShiftTable, ShiftClasses, LongTable;
      AdjustFixed(incr);
      MakePointers(0, incr, before.tables[0]);
      MakePointers(1, incr, before.tables[1]);
      MakePointers(2, incr, before.tables[2]);
      MakePointers(3, incr, before.tables[3]);
      MakePointers(4, incr, before.tables[4]);
      assert tables == ShiftTables(old(tables), incr);
    }
  }

  /** Two's complement has the base again as the negative of its negative. */
  lemma {:induction false} BackToBase(base: int)
    requires IsLong(base)
    ensures WrapLong(-WrapLong(-base)) == base
  {
  }

  lemma {:induction false} EndsStays(cs: seq<Constraint>, incr: int)
    ensures Ends(ShiftConstraints(cs, incr)) == Ends(cs)
    decreases |cs|
  {
    if cs != [] && !cs[0].EndMark? {
      EndsStays(cs[1..], incr);
      assert ShiftConstraints(cs, incr)[1..] == ShiftConstraints(cs[1..], incr);
    }
  }

  method AdjustWord(w: WordEntry, incr: int) returns (r: WordEntry)
    ensures r == ShiftWord(w, incr)
  {
    r := w.(outputName := WrapLong(w.outputName + incr));
    r := r.(longName := WrapLong(r.longName + incr));
    if r.shortName != NULL {
      r := r.(shortName := WrapLong(r.shortName + incr));
    }
    r := r.(cmMask := WrapLong(r.cmMask + incr));
    r := r.(cmValue := WrapLong(r.cmValue + incr));
    r := r.(mkMask := WrapLong(r.mkMask + incr));
    r := r.(mkValue := WrapLong(r.mkValue + incr));
  }

  method AdjustClass(c: ClassEntry, incr: int) returns (r: ClassEntry)
    ensures r == ShiftClass(c, incr)
  {
    r := c;
    if r.long != NULL {
      r := r.(long := WrapLong(r.long + incr));
      r := r.(short := WrapLong(r.short + incr));
      r := r.(compartments := WrapLong(r.compartments + incr));
      r := r.(markings := WrapLong(r.markings + incr));
    }
    if r.start != NULL {
      r := r.(start := WrapLong(r.start + incr));
      r := r.(end := WrapLong(r.end + incr));
    }
  }

  /** A list of constraints that has its end mark. */
  predicate Ends(cs: seq<Constraint>) {
    cs != [] && (cs[0].EndMark? || Ends(cs[1..]))
  }

  /** The loop of AdjustWords, from the last word down. */
  method AdjustWordList(ws: seq<WordEntry>, incr: int) returns (words: seq<WordEntry>)
    ensures words == ShiftWords(ws, incr)
  {
    hide ShiftWord;
    words := ws;
    var i := |words|;
    while i > 0
      invariant 0 <= i <= |words| == |ws|
      invariant forall k | 0 <= k < i :: words[k] == ws[k]
      invariant forall k | i <= k < |words| :: words[k] == ShiftWord(ws[k], incr)
    {
      i := i - 1;
      var w := AdjustWord(words[i], incr);
      words := words[i := w];
    }
  }

  lemma {:induction false} ReplaceNext(done: seq<Constraint>, all: seq<Constraint>, cp: nat, c: Constraint)
    requires |done| == cp < |all|
    ensures (done + all[cp..])[cp := c] == (done + [c]) + all[cp + 1..]
  {
  }

  lemma {:induction false} ShiftNext(all: seq<Constraint>, cp: nat, incr: int)
    requires cp < |all| && Ends(all[cp..])
    ensures !all[cp].EndMark? ==>
              ShiftConstraints(all[cp..], incr)
                == [ShiftConstraint(all[cp], incr)] + ShiftConstraints(all[cp + 1..], incr)
              && Ends(all[cp + 1..]) && cp + 1 < |all|
    ensures all[cp].EndMark? ==> ShiftConstraints(all[cp..], incr) == all[cp..]
  {
    assert all[cp..][0] == all[cp] && all[cp..][1..] == all[cp + 1..];
  }

  /** The loop of AdjustConstraints. */
  method AdjustConstraintList(all: seq<Constraint>, incr: int) returns (cs: seq<Constraint>)
    requires Ends(all)
    ensures cs == ShiftConstraints(all, incr)
  {
    hide ShiftConstraint, ShiftConstraints, Ends;
    cs := all;
    var cp := 0;
    ghost var done := [];
    assert all[0..] == all && [] + all == all && all != [] by { EndsSomewhere(all); }
    assert [] + ShiftConstraints(all, incr) == ShiftConstraints(all, incr);
    while !cs[cp].EndMark?
      invariant 0 <= cp == |done| < |all| && cs == done + all[cp..] && Ends(all[cp..])
      invariant ShiftConstraints(all, incr) == done + ShiftConstraints(all[cp..], incr)
      decreases |all| - cp
    {
      ShiftNext(all, cp, incr);
      ghost var c := ShiftConstraint(all[cp], incr);
      ReplaceNext(done, all, cp, c);
      cs := cs[cp := ShiftConstraint(cs[cp], incr)];
      assert done + ([c] + ShiftConstraints(all[cp + 1..], incr))
             == (done + [c]) + ShiftConstraints(all[cp + 1..], incr);
      done := done + [c];
      cp := cp + 1;
    }
    ShiftNext(all, cp, incr);
  }

  lemma {:induction false} EndsSomewhere(cs: seq<Constraint>)
    requires Ends(cs)
    ensures cs != []
  {
  }

  /** The loop over the classifications. */
  method AdjustClassList(cs: seq<ClassEntry>, incr: int) returns (classes: seq<ClassEntry>)
    ensures classes == ShiftClasses(cs, incr)
  {
    hide ShiftClass;
    classes := cs;
    var i := 0;
    while i < |classes|
      invariant 0 <= i <= |classes| == |cs|
      invariant forall k | 0 <= k < i :: classes[k] == ShiftClass(cs[k], incr)
      invariant forall k | i <= k < |classes| :: classes[k] == cs[k]
    {
      var c := AdjustClass(classes[i], incr);
      classes := classes[i := c];
      i := i + 1;
    }
  }
}
