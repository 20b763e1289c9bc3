/** The classifications of an encodings file written out, for any list of them; what the counting pass of
    labelcomp.c makes of them. */
module ClassText {
  import opened CTypes
  import opened Options
  import opened Words
  import opened Scanner
  import opened Sizing
  import opened LineText
  import opened TableText
  import ParseBits

  datatype Class = Class(name: string, short: string, value: nat)

  /** A classification as a file can hold it. */
  predicate CanBeListed(c: Class) {
    FitsLine(c.name) && FitsLine(c.short) && c.value <= MAX_CLASS && IsLong(c.value)
  }

  /** There must be one that has a name. */
  predicate AllCanBeListed(cs: seq<Class>) {
    cs != [] && cs[0].name != "" && forall i | 0 <= i < |cs| :: CanBeListed(cs[i])
  }

  /** The classifications from `i` on, the line `end` behind them, and the rest of the file. */
  function ClassLines(cs: seq<Class>, i: nat, end: string, rest: string): string
    requires i <= |cs|
    decreases |cs| - i
  {
    if i == |cs| then Ln(end, rest)
    else
      Ln("NAME=" + cs[i].name,
         Ln("SNAME=" + cs[i].short,
            Ln("VALUE=" + ParseBits.Digits(cs[i].value), ClassLines(cs, i + 1, end, rest))))
  }

  /** The greatest value of the classifications. */
  ghost predicate GreatestValue(top: nat, cs: seq<Class>) {
    && (exists i :: 0 <= i < |cs| && cs[i].value == top)
    && forall i | 0 <= i < |cs| :: cs[i].value <= top
  }

  /** The length of their longest name. */
  ghost predicate LongestName(longest: nat, cs: seq<Class>) {
    && (exists i :: 0 <= i < |cs| && (|cs[i].name| == longest || |cs[i].short| == longest))
    && forall i | 0 <= i < |cs| :: |cs[i].name| <= longest && |cs[i].short| <= longest
  }

  /** Where the strings of the classifications from `i` on end if they begin at `z`: of each a byte if the number is
      odd, its compartments and its markings, and both names with a NUL. */
  function ClassSpace(cs: seq<Class>, i: nat, z: int): int
    requires i <= |cs|
    decreases |cs| - i
  {
    if i == |cs| then z
    else
      ClassSpace(cs, i + 1, z + z % 2 + COMPARTMENTS_SIZE + MARKINGS_SIZE + |cs[i].name| + 1 + |cs[i].short| + 1)
  }

  // ---------------------------------------------------------------- numbers

  function Ten(k: nat): (p: nat)
    ensures p > 0
  {
    if k == 0 then 1 else 10 * Ten(k - 1)
  }

  lemma {:induction false} DigitsShort(n: nat, k: nat)
    requires n < Ten(k) && k > 0
    ensures |ParseBits.Digits(n)| <= k && forall i | 0 <= i < |ParseBits.Digits(n)| :: IsDigit(ParseBits.Digits(n)[i])
    decreases n
  {
    if n >= 10 {
      assert Ten(k) == 10 * Ten(k - 1) && n / 10 < Ten(k - 1);
      assert Ten(1) == 10;
      DigitsShort(n / 10, k - 1);
    }
  }

  lemma {:induction false} DigitsFitLine(n: nat)
    requires IsLong(n)
    ensures FitsLine(ParseBits.Digits(n))
  {
    assert Ten(5) == 100_000;
    assert Ten(10) == 10_000_000_000;
    assert Ten(15) == 1_000_000_000_000_000;
    assert Ten(19) == 10_000_000_000_000_000_000;
    DigitsShort(n, 19);
  }

  lemma {:induction false} DigitsRead(n: nat, t: string)
    requires IsLong(n)
    ensures ToDecimal(ParseBits.Digits(n) + t, 0) == ToDecimal(t, n)
    decreases n
  {
    var d := [ParseBits.Digit(n % 10)];
    assert (d + t)[0] == d[0] && (d + t)[1..] == t;
    if n >= 10 {
      assert ParseBits.Digits(n) + t == ParseBits.Digits(n / 10) + (d + t);
      DigitsRead(n / 10, d + t);
    }
  }

  lemma {:induction false} ValueRead(n: nat)
    requires IsLong(n)
    ensures ToDecimal(ParseBits.Digits(n), 0) == Decimal(n, "")
  {
    DigitsRead(n, "");
    assert ParseBits.Digits(n) + "" == ParseBits.Digits(n);
  }

  // ---------------------------------------------------------------- the list

  /** The keywords of a classification. */
  lemma {:induction false} ClassTaken(c: Class, rest: string)
    requires CanBeListed(c)
    ensures Next(Scan("", Ln("NAME=" + c.name, rest)), CLASS_KEYWORDS) == Token(1, c.name, Scan("", rest))
    ensures Next(Scan("", Ln("SNAME=" + c.short, rest)), CLASS_KEYWORDS) == Token(2, c.short, Scan("", rest))
    ensures var v := ParseBits.Digits(c.value);
            Next(Scan("", Ln("VALUE=" + v, rest)), CLASS_KEYWORDS) == Token(0, v, Scan("", rest))
  {
    hide Next, FitsLine, ParseBits.Digits;
    DigitsFitLine(c.value);
    NameTaken(CLASS_KEYWORDS, 1, c.name, rest);
    NameTaken(CLASS_KEYWORDS, 2, c.short, rest);
    NameTaken(CLASS_KEYWORDS, 0, ParseBits.Digits(c.value), rest);
  }

  /** One classification more has been read. */
  ghost predicate OneMore(c: Class, d: Classes, d': Classes, rest: string) {
    && d'.ok && d'.s == Scan("", rest) && ClassList(d) == ClassList(d')
    && d'.top == Max(d.top, c.value) && d'.longest == Max(Max(d.longest, |c.name|), |c.short|)
    && d'.strings == d.strings + d.strings % 2 + COMPARTMENTS_SIZE + MARKINGS_SIZE + |c.name| + 1 + |c.short| + 1
  }

  lemma {:induction false} ClassRead(c: Class, rest: string, d: Classes) returns (d': Classes)
    requires CanBeListed(c) && d.ok
    requires d.s == Scan("", Ln("NAME=" + c.name, Ln("SNAME=" + c.short,
                                                    Ln("VALUE=" + ParseBits.Digits(c.value), rest))))
    ensures OneMore(c, d, d', rest)
  {
    hide Next, Ln, FitsLine, ParseBits.Digits, ToDecimal;
    var v := ParseBits.Digits(c.value);
    var r2 := Ln("VALUE=" + v, rest);
    ClassTaken(c, rest);
    ClassTaken(c, r2);
    ClassTaken(c, Ln("SNAME=" + c.short, r2));
    ValueRead(c.value);
    var d1 := ClassStep(d, Token(1, c.name, Scan("", Ln("SNAME=" + c.short, r2))));
    var d2 := ClassStep(d1, Token(2, c.short, Scan("", r2)));
    d' := ClassStep(d2, Token(0, v, Scan("", rest)));
    assert ClassList(d2) == ClassList(d');
    assert ClassList(d1) == ClassList(d2);
  }

  /** Neither is the line behind them a keyword of a classification. */
  predicate EndsClasses(line: string) {
    Shown(line) && forall i | 0 <= i < |CLASS_KEYWORDS| :: Apart(CLASS_KEYWORDS[i], line)
  }

  /** The greatest and the longest of what was found in front and of what is to come. */
  ghost predicate Completes(d: Classes, e: Classes, cs: seq<Class>, i: nat) {
    && d.top <= e.top && d.longest <= e.longest
    && (forall k | i <= k < |cs| ::
          cs[k].value <= e.top && |cs[k].name| <= e.longest && |cs[k].short| <= e.longest)
    && (e.top == d.top || exists k :: i <= k < |cs| && cs[k].value == e.top)
    && (e.longest == d.longest
        || exists k :: i <= k < |cs| && (|cs[k].name| == e.longest || |cs[k].short| == e.longest))
  }

  lemma {:induction false} ClassesReadFrom(cs: seq<Class>, i: nat, end: string, rest: string, d: Classes)
    requires i <= |cs| && EndsClasses(end) && forall k | i <= k < |cs| :: CanBeListed(cs[k])
    requires d.ok && d.s == Scan("", ClassLines(cs, i, end, rest))
    ensures var e := ClassList(d);
            e.ok && e.s == Scan(end, rest) && Completes(d, e, cs, i) && e.strings == ClassSpace(cs, i, d.strings)
    decreases |cs| - i
  {
    hide Next, Ln, CanBeListed, ClassStep, Shown, Apart, ParseBits.Digits;
    if i == |cs| {
      Refused(end, rest, CLASS_KEYWORDS);
    } else {
      var d' := ClassRead(cs[i], ClassLines(cs, i + 1, end, rest), d);
      ClassesReadFrom(cs, i + 1, end, rest, d');
    }
  }

  /** Of any list of classifications the greatest value and the length of the longest name are found; their strings take
      that many bytes. */
  lemma {:induction false} ClassesReadBack(cs: seq<Class>, end: string, rest: string, z: int)
    requires AllCanBeListed(cs) && EndsClasses(end)
    ensures var e := ClassList(Classes(true, Scan("", ClassLines(cs, 0, end, rest)), z, 0, 0));
            && e.ok && e.s == Scan(end, rest) && GreatestValue(e.top, cs) && LongestName(e.longest, cs)
            && e.longest > 0 && e.strings == ClassSpace(cs, 0, z)
  {
    hide ClassList, ClassLines, CanBeListed, Shown, Apart;
    var d := Classes(true, Scan("", ClassLines(cs, 0, end, rest)), z, 0, 0);
    ClassesReadFrom(cs, 0, end, rest, d);
    assert cs[0].value <= ClassList(d).top && |cs[0].name| <= ClassList(d).longest;
  }
}
