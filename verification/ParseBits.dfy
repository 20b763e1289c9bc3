/** `parse_bits` of labelcomp.c: bit numbers and ranges, each switched on or, after a tilde, off. */
module ParseBits {
  import opened CTypes
  import opened Options

  const UINT := 0x1_0000_0000

  /** One item of a specification. */
  datatype Range = Range(on: bool, first: nat, last: nat)

  /** A number and the text behind it. */
  datatype Scanned = Scanned(n: nat, rest: string)

  /** CONVERT_TO_DECIMAL into an unsigned 32-bit variable that holds `d`. */
  function Convert(s: string, d: nat): (r: Scanned)
    ensures |r.rest| <= |s| && (s != [] && IsDigit(s[0]) ==> |r.rest| < |s|)
    decreases |s|
  {
    if s != [] && IsDigit(s[0]) then Convert(s[1..], (10 * d + (s[0] as int - '0' as int)) % UINT) else Scanned(d, s)
  }

  /** The ranges processed, and whether all of the text was. */
  datatype Parsed = Parsed(ranges: seq<Range>, ok: bool)

  /** One item at the head of the text; nothing if it is malformed or exceeds `maxBit`. */
  datatype Item = Item(range: Range, rest: string) | Malformed

  function FirstItem(s: string, maxBit: nat): (i: Item)
    requires s != []
    ensures i.Item? ==> |i.rest| < |s| && i.range.first <= i.range.last <= maxBit
  {
    if s[0] == '~' then Bounds(s[1..], maxBit, false) else Bounds(s, maxBit, true)
  }

  /** The number or the two numbers of an item. */
  function Bounds(t: string, maxBit: nat, on: bool): (i: Item)
    ensures i.Item? ==> |i.rest| < |t| && i.range.first <= i.range.last <= maxBit
  {
    if t == [] || !IsDigit(t[0]) then Malformed
    else
      var Scanned(first, u) := Convert(t, 0);
      if first > maxBit then Malformed
      else if u != [] && u[0] == '-' then
        if u[1..] == [] || !IsDigit(u[1]) then Malformed
        else
          var Scanned(last, v) := Convert(u[1..], 0);
          if last > maxBit || last <= first then Malformed else Item(Range(on, first, last), SkipBlank(v))
      else Item(Range(on, first, first), SkipBlank(u))
  }

  function Parse(s: string, maxBit: nat): (p: Parsed)
    ensures forall r | r in p.ranges :: r.first <= r.last <= maxBit
    decreases |s|
  {
    if s == [] then Parsed([], true)
    else
      match FirstItem(s, maxBit)
      case Malformed => Parsed([], false)
      case Item(r, rest) => var p := Parse(rest, maxBit); Parsed([r] + p.ranges, p.ok)
  }

  /** The bits that some ranges name. */
  ghost predicate Named(b: int, ranges: seq<Range>) {
    exists i :: 0 <= i < |ranges| && ranges[i].first <= b <= ranges[i].last
  }

  /** The bits that some ranges switch on. */
  ghost predicate SwitchedOn(b: int, ranges: seq<Range>) {
    exists i :: 0 <= i < |ranges| && ranges[i].on && ranges[i].first <= b <= ranges[i].last
  }

  lemma {:induction false} NamedAppend(ranges: seq<Range>, r: Range, b: int)
    ensures Named(b, ranges + [r]) <==> Named(b, ranges) || r.first <= b <= r.last
    ensures SwitchedOn(b, ranges + [r]) <==> SwitchedOn(b, ranges) || (r.on && r.first <= b <= r.last)
  {
    var rs := ranges + [r];
    assert rs[|ranges|] == r;
    assert forall i | 0 <= i < |ranges| :: rs[i] == ranges[i];
  }

  /** Which routine sets the bits: that of compartments and markings, or that of flags, which has no mask. */
  datatype Routine = SetLabelBits | SetFlags

  /** A mask and a value, as the sets of the bits that are on. */
  class BitPair {
    var mask: set<int>
    var value: set<int>

    /** `set_compartment`, `set_marking` and `set_flags`. */
    method SetBit(routine: Routine, bit: int, on: bool)
      modifies this
      ensures mask == (if routine == SetLabelBits then old(mask) + {bit} else old(mask))
      ensures value == (if on then old(value) + {bit} else old(value))
    {
      if routine == SetLabelBits {
        mask := mask + {bit};
      }
      if on {
        value := value + {bit};
      }
    }

    /** The effect of processing some ranges on given contents. */
    ghost predicate Grown(mask0: set<int>, value0: set<int>, routine: Routine, ranges: seq<Range>)
      reads this
    {
      && (forall b :: b in mask <==> b in mask0 || (routine == SetLabelBits && Named(b, ranges)))
      && (forall b :: b in value <==> b in value0 || SwitchedOn(b, ranges))
    }

    method SetRange(routine: Routine, r: Range, ghost mask0: set<int>, ghost value0: set<int>, ghost before: seq<Range>)
      requires Grown(mask0, value0, routine, before) && r.first <= r.last
      modifies this
      ensures Grown(mask0, value0, routine, before + [r])
    {
      ghost var m, v := mask, value;
      var bit := r.first;
      while bit <= r.last
        invariant r.first <= bit <= r.last + 1
        invariant forall b :: b in mask <==> b in m || (routine == SetLabelBits && r.first <= b < bit)
        invariant forall b :: b in value <==> b in v || (r.on && r.first <= b < bit)
      {
        SetBit(routine, bit, r.on);
        bit := bit + 1;
      }
      forall b
        ensures Named(b, before + [r]) <==> Named(b, before) || r.first <= b <= r.last
        ensures SwitchedOn(b, before + [r]) <==> SwitchedOn(b, before) || (r.on && r.first <= b <= r.last)
      {
        NamedAppend(before, r, b);
      }
    }

    /** `parse_bits`. */
    method ParseBits(text: string, maxBit: nat, routine: Routine) returns (ok: bool)
      modifies this
      ensures ok == Parse(SkipBlank(text), maxBit).ok
      ensures Grown(old(mask), old(value), routine, Parse(SkipBlank(text), maxBit).ranges)
    {
      var s := SkipBlank(text);
      ghost var all, done: seq<Range> := Parse(s, maxBit), [];
      while s != []
        invariant Grown(old(mask), old(value), routine, done)
        invariant all.ranges == done + Parse(s, maxBit).ranges && all.ok == Parse(s, maxBit).ok
        decreases |s|
      {
        var good, r, rest := NextItem(s, maxBit);
        if !good {
          assert done + [] == done;
          return false;
        }
        SetRange(routine, r, old(mask), old(value), done);
        s := rest;
        assert done + ([r] + Parse(s, maxBit).ranges) == done + [r] + Parse(s, maxBit).ranges;
        done := done + [r];
      }
      assert done + [] == done;
      return true;
    }
  }

  /** The part of `parse_bits` that reads one item and the blank behind it. */
  method NextItem(s: string, maxBit: nat) returns (good: bool, r: Range, rest: string)
    requires s != []
    ensures good <==> FirstItem(s, maxBit).Item?
    ensures good ==> FirstItem(s, maxBit) == Item(r, rest)
  {
    var on := true;
    r, rest, good := Range(true, 0, 0), s, false;
    if rest[0] == '~' {
      on := false;
      rest := rest[1..];
    }
    if rest == [] || !IsDigit(rest[0]) {
      return;
    }
    var first := Convert(rest, 0);
    rest := first.rest;
    if first.n > maxBit {
      return;
    }
    var last := first.n;
    if rest != [] && rest[0] == '-' {
      rest := rest[1..];
      if rest == [] || !IsDigit(rest[0]) {
        return;
      }
      var second := Convert(rest, 0);
      rest := second.rest;
      last := second.n;
      if last > maxBit || last <= first.n {
        return;
      }
    }
    return true, Range(on, first.n, last), SkipBlank(rest);
  }

  /** On success, starting from nothing: the mask is the union of the ranges listed, the value the union of
      those without a tilde, so it lies within the mask, and no bit exceeds the maximum. */
  lemma {:induction false} ParsedSets(text: string, maxBit: nat, bits: BitPair)
    requires bits.Grown({}, {}, SetLabelBits, Parse(SkipBlank(text), maxBit).ranges)
    ensures bits.value <= bits.mask && forall b | b in bits.mask :: 0 <= b <= maxBit
  {
    var ranges := Parse(SkipBlank(text), maxBit).ranges;
    forall b | b in bits.value ensures b in bits.mask {
      var i :| 0 <= i < |ranges| && ranges[i].on && ranges[i].first <= b <= ranges[i].last;
      assert Named(b, ranges);
    }
    forall b | b in bits.mask ensures 0 <= b <= maxBit {
      var i :| 0 <= i < |ranges| && ranges[i].first <= b <= ranges[i].last;
      assert ranges[i] in ranges;
    }
  }

  // ---------------------------------------------------------------- the text that names given ranges

  function Digit(k: nat): (c: char)
    requires k < 10
    ensures IsDigit(c) && c as int - '0' as int == k
  {
    ('0' as int + k) as char
  }

  function Digits(n: nat): (s: string)
    ensures s != [] && IsDigit(s[0])
  {
    if n < 10 then [Digit(n)] else Digits(n / 10) + [Digit(n % 10)]
  }

  lemma {:induction false} WrapStep(d: nat, k: nat)
    ensures (10 * (d % UINT) + k) % UINT == (10 * d + k) % UINT
  {
    var q := d / UINT;
    assert 10 * d + k == 10 * (d % UINT) + k + 10 * q * UINT;
  }

  lemma {:induction false} ConvertDigits(n: nat, t: string)
    ensures Convert(Digits(n) + t, 0) == Convert(t, n % UINT)
    decreases n
  {
    var d := [Digit(n % 10)];
    assert (d + t)[0] == d[0] && (d + t)[1..] == t;
    if n >= 10 {
      assert Digits(n) + t == Digits(n / 10) + (d + t);
      ConvertDigits(n / 10, d + t);
      WrapStep(n / 10, n % 10);
    }
  }

  /** A number is read modulo two to the 32nd: as itself exactly if it is smaller than that. */
  lemma {:induction false} ReadAsItselfIff(n: nat)
    ensures Convert(Digits(n), 0).n == n % UINT
    ensures Convert(Digits(n), 0).n == n <==> n < UINT
  {
    ConvertDigits(n, []);
    assert Digits(n) + [] == Digits(n);
  }

  /** So a number beyond every limit can be taken for bit 0. */
  lemma {:induction false} HugeNumberAccepted(maxBit: nat)
    ensures Parse(Digits(UINT), maxBit) == Parsed([Range(true, 0, 0)], true)
  {
    ConvertDigits(UINT, []);
    assert Digits(UINT) + [] == Digits(UINT);
  }

  /** The numbers of a range as they are written. */
  function Numbers(r: Range): (s: string)
    ensures s != [] && IsDigit(s[0])
  {
    if r.first < r.last then Digits(r.first) + ("-" + Digits(r.last)) else Digits(r.first)
  }

  function Text(r: Range): (s: string)
    ensures s != []
  {
    if r.on then Numbers(r) else "~" + Numbers(r)
  }

  /** Ranges as they are written, a blank between each two. */
  function TextAll(ranges: seq<Range>): (s: string)
    ensures ranges != [] ==> s != []
  {
    if ranges == [] then ""
    else if |ranges| == 1 then Text(ranges[0])
    else Text(ranges[0]) + (" " + TextAll(ranges[1..]))
  }

  lemma {:induction false} DigitsThen(n: nat, t: string)
    requires n < UINT && (t == [] || !IsDigit(t[0]))
    ensures Convert(Digits(n) + t, 0) == Scanned(n, t)
    ensures Digits(n) + t != [] && IsDigit((Digits(n) + t)[0])
  {
    ConvertDigits(n, t);
    assert (Digits(n) + t)[0] == Digits(n)[0];
  }

  lemma {:induction false} BoundsOfNumbers(r: Range, rest: string, maxBit: nat)
    requires r.first <= r.last <= maxBit < UINT && (rest == [] || rest[0] == ' ')
    ensures Bounds(Numbers(r) + rest, maxBit, r.on) == Item(r, SkipBlank(rest))
  {
    if r.first < r.last {
      var more := "-" + (Digits(r.last) + rest);
      assert Numbers(r) + rest == Digits(r.first) + more;
      DigitsThen(r.first, more);
      DigitsThen(r.last, rest);
      assert more[1..] == Digits(r.last) + rest && more[1] == (Digits(r.last) + rest)[0];
    } else {
      DigitsThen(r.first, rest);
    }
  }

  lemma {:induction false} ItemOfText(r: Range, rest: string, maxBit: nat)
    requires r.first <= r.last <= maxBit < UINT && (rest == [] || rest[0] == ' ')
    ensures Text(r) + rest != [] && FirstItem(Text(r) + rest, maxBit) == Item(r, SkipBlank(rest))
  {
    BoundsOfNumbers(r, rest, maxBit);
    var t := Text(r) + rest;
    if r.on {
      assert t[0] == Numbers(r)[0] != '~';
    } else {
      assert t[0] == '~' && t[1..] == Numbers(r) + rest;
    }
  }

  /** Every list of ranges within the maximum can be written, and what is written is what is parsed. */
  lemma {:induction false} TextParsesBack(ranges: seq<Range>, maxBit: nat)
    requires maxBit < UINT && forall r | r in ranges :: r.first <= r.last <= maxBit
    ensures Parse(TextAll(ranges), maxBit) == Parsed(ranges, true)
  {
    if |ranges| == 1 {
      ItemOfText(ranges[0], [], maxBit);
      assert TextAll(ranges) == Text(ranges[0]) + [];
    } else if |ranges| > 1 {
      var rest := " " + TextAll(ranges[1..]);
      assert ranges[0] in ranges;
      ItemOfText(ranges[0], rest, maxBit);
      assert SkipBlank(rest) == TextAll(ranges[1..]);
      TextParsesBack(ranges[1..], maxBit);
      assert [ranges[0]] + ranges[1..] == ranges;
    }
  }

  // ---------------------------------------------------------------- the texts that are accepted

  /** An item as it is written: perhaps a tilde, a number, perhaps a hyphen and another, and perhaps a blank. */
  datatype Piece = Piece(tilde: bool, first: string, last: Option<string>, blank: bool)

  function Tail(p: Piece): string {
    (if p.last.Some? then "-" + p.last.value else "") + (if p.blank then " " else "")
  }

  function PiecesText(ps: seq<Piece>): string {
    if ps == [] then ""
    else (if ps[0].tilde then "~" else "") + (ps[0].first + (Tail(ps[0]) + PiecesText(ps[1..])))
  }

  predicate IsNumber(s: string) {
    s != "" && forall i | 0 <= i < |s| :: '0' <= s[i] <= '9'
  }

  /** The number that some digits behind others stand for. */
  function ValueBehind(s: string, d: nat): nat {
    if s == "" then d else ValueBehind(s[1..], 10 * d + if '0' <= s[0] <= '9' then s[0] as int - '0' as int else 0)
  }

  /** What of it 32 bits keep. */
  function Low(s: string): nat {
    ValueBehind(s, 0) % UINT
  }

  /** Numbers that name bits up to the maximum, the second a later one. */
  predicate IsPiece(p: Piece, maxBit: nat) {
    && IsNumber(p.first) && Low(p.first) <= maxBit
    && (p.last.Some? ==> IsNumber(p.last.value) && Low(p.first) < Low(p.last.value) <= maxBit)
  }

  /** Where there is no blank between two items, the second has a tilde. */
  predicate ArePieces(ps: seq<Piece>, maxBit: nat) {
    && (forall i | 0 <= i < |ps| :: IsPiece(ps[i], maxBit))
    && (forall i | 0 < i < |ps| :: ps[i - 1].blank || ps[i].tilde)
  }

  /** The bits that an item names, on or off. */
  function RangeOf(p: Piece): Range {
    Range(!p.tilde, Low(p.first), if p.last.Some? then Low(p.last.value) else Low(p.first))
  }

  function RangesOf(ps: seq<Piece>): (rs: seq<Range>)
    ensures |rs| == |ps| && forall i | 0 <= i < |ps| :: rs[i] == RangeOf(ps[i])
  {
    if ps == [] then [] else [RangeOf(ps[0])] + RangesOf(ps[1..])
  }

  lemma {:induction false} ConvertNumber(s: string, t: string, d: nat)
    requires (forall i | 0 <= i < |s| :: '0' <= s[i] <= '9') && (t == "" || !IsDigit(t[0]))
    ensures Convert(s + t, d % UINT) == Scanned(ValueBehind(s, d) % UINT, t)
    decreases |s|
  {
    if s == "" {
      assert s + t == t;
    } else {
      var k := s[0] as int - '0' as int;
      assert (s + t)[0] == s[0] && (s + t)[1..] == s[1..] + t;
      WrapStep(d, k);
      ConvertNumber(s[1..], t, 10 * d + k);
    }
  }

  lemma {:induction false} NumberTaken(n: string, t: string)
    requires IsNumber(n) && (t == "" || !IsDigit(t[0]))
    ensures Convert(n + t, 0) == Scanned(Low(n), t) && n + t != "" && IsDigit((n + t)[0])
  {
    hide Convert, ValueBehind;
    ConvertNumber(n, t, 0);
    assert (n + t)[0] == n[0];
  }

  lemma {:induction false} BoundsAlone(t: string, maxBit: nat, on: bool, n: nat, u: string)
    requires t != "" && IsDigit(t[0]) && Convert(t, 0) == Scanned(n, u) && n <= maxBit && (u == "" || u[0] != '-')
    ensures Bounds(t, maxBit, on) == Item(Range(on, n, n), SkipBlank(u))
  {
    hide Convert;
  }

  lemma {:induction false} BoundsBoth(t: string, maxBit: nat, on: bool, n: nat, w: string, m: nat, v: string)
    requires t != "" && IsDigit(t[0]) && Convert(t, 0) == Scanned(n, "-" + w)
    requires w != "" && IsDigit(w[0]) && Convert(w, 0) == Scanned(m, v) && n < m <= maxBit
    ensures Bounds(t, maxBit, on) == Item(Range(on, n, m), SkipBlank(v))
  {
    hide Convert;
    assert ("-" + w)[0] == '-' && ("-" + w)[1] == w[0] && ("-" + w)[1..] == w;
  }

  lemma {:induction false} BlankSkipped(blank: bool, rest: string)
    requires blank || rest == "" || rest[0] == '~'
    ensures var end := (if blank then " " else "") + rest;
            SkipBlank(end) == rest && (end == "" || end[0] == ' ' || end[0] == '~')
  {
    var end := (if blank then " " else "") + rest;
    if blank {
      assert end[0] == ' ' && end[1..] == rest;
    } else {
      assert end == rest;
    }
  }

  lemma {:induction false} BoundsOfPiece(p: Piece, rest: string, maxBit: nat)
    requires IsPiece(p, maxBit) && (p.blank || rest == "" || rest[0] == '~')
    ensures Bounds(p.first + (Tail(p) + rest), maxBit, !p.tilde) == Item(RangeOf(p), rest)
  {
    hide Convert, IsNumber, Low, SkipBlank, Bounds;
    var end := (if p.blank then " " else "") + rest;
    BlankSkipped(p.blank, rest);
    var t := Tail(p) + rest;
    if p.last.Some? {
      var w := p.last.value + end;
      assert t == "-" + w;
      NumberTaken(p.first, t);
      NumberTaken(p.last.value, end);
      BoundsBoth(p.first + t, maxBit, !p.tilde, Low(p.first), w, Low(p.last.value), end);
    } else {
      assert t == end;
      NumberTaken(p.first, end);
      BoundsAlone(p.first + end, maxBit, !p.tilde, Low(p.first), end);
    }
  }

  lemma {:induction false} ItemOfPiece(p: Piece, rest: string, maxBit: nat)
    requires IsPiece(p, maxBit) && (p.blank || rest == "" || rest[0] == '~')
    ensures var s := (if p.tilde then "~" else "") + (p.first + (Tail(p) + rest));
            s != "" && FirstItem(s, maxBit) == Item(RangeOf(p), rest)
  {
    hide Bounds;
    BoundsOfPiece(p, rest, maxBit);
    var t := p.first + (Tail(p) + rest);
    if p.tilde {
      assert ("~" + t)[0] == '~' && ("~" + t)[1..] == t;
    } else {
      assert "" + t == t && t[0] == p.first[0];
    }
  }

  /** Every text of this form is accepted, for the ranges that its items name. */
  lemma {:induction false} PiecesParse(ps: seq<Piece>, maxBit: nat)
    requires ArePieces(ps, maxBit)
    ensures Parse(PiecesText(ps), maxBit) == Parsed(RangesOf(ps), true)
    decreases |ps|
  {
    hide FirstItem, IsPiece;
    if ps != [] {
      var rest := PiecesText(ps[1..]);
      if |ps| > 1 && ps[1].tilde {
        TildeFirst(ps[1..]);
      }
      ItemOfPiece(ps[0], rest, maxBit);
      PiecesParse(ps[1..], maxBit);
    }
  }

  lemma {:induction false} TildeFirst(ps: seq<Piece>)
    requires ps != [] && ps[0].tilde
    ensures PiecesText(ps) != "" && PiecesText(ps)[0] == '~'
  {
  }

  /** What 32 bits keep of a number... */
  function Kept(d: nat): nat {
    d % UINT
  }

  /** ...and a number with one more digit. */
  function Onward(d: nat, c: char): nat
    requires IsDigit(c)
  {
    10 * d + (c as int - '0' as int)
  }

  lemma {:induction false} ConvertOne(s: string, d: nat)
    requires s != "" && IsDigit(s[0])
    ensures Convert(s, Kept(d)) == Convert(s[1..], Kept(Onward(d, s[0])))
  {
    WrapStep(d, s[0] as int - '0' as int);
  }

  lemma {:induction false} ValueOne(c: char, n: string, d: nat)
    requires IsDigit(c)
    ensures ValueBehind([c] + n, d) == ValueBehind(n, Onward(d, c))
  {
    assert ([c] + n)[0] == c && ([c] + n)[1..] == n;
  }

  predicate AllFigures(n: string) {
    forall i | 0 <= i < |n| :: '0' <= n[i] <= '9'
  }

  lemma {:induction false} OneFigure(c: char, n: string)
    requires IsDigit(c) && AllFigures(n)
    ensures AllFigures([c] + n)
  {
  }

  /** `n` are the digits at the head of a text, and are read as such behind the number `d`. */
  ghost predicate Heads(n: string, s: string, d: nat) {
    var c := Convert(s, Kept(d));
    && s == n + c.rest && c.n == Kept(ValueBehind(n, d)) && (c.rest == "" || !IsDigit(c.rest[0])) && AllFigures(n)
  }

  lemma {:induction false} NoneHeads(s: string, d: nat)
    requires s == "" || !IsDigit(s[0])
    ensures Heads("", s, d)
  {
    assert "" + s == s;
  }

  lemma {:induction false} OneHeads(n: string, s: string, d: nat)
    requires s != "" && IsDigit(s[0]) && Heads(n, s[1..], Onward(d, s[0]))
    ensures Heads([s[0]] + n, s, d)
  {
    hide Convert, ValueBehind, AllFigures, Kept, Onward;
    OneFigure(s[0], n);
    ConvertOne(s, d);
    ValueOne(s[0], n, d);
    var rest := Convert(s, Kept(d)).rest;
    assert s == [s[0]] + s[1..] && [s[0]] + (n + rest) == [s[0]] + n + rest;
  }

  lemma {:induction false} NumberAt(s: string, d: nat) returns (n: string)
    ensures Heads(n, s, d) && (s != "" && IsDigit(s[0]) ==> n != "")
    decreases |s|
  {
    hide Heads;
    n := "";
    if s != [] && IsDigit(s[0]) {
      var more := NumberAt(s[1..], Onward(d, s[0]));
      OneHeads(more, s, d);
      n := [s[0]] + more;
    } else {
      NoneHeads(s, d);
    }
  }

  lemma {:induction false} FirstNumber(s: string) returns (n: string)
    requires s != "" && IsDigit(s[0])
    ensures var c := Convert(s, 0);
            s == n + c.rest && IsNumber(n) && c.n == Low(n) && (c.rest == "" || !IsDigit(c.rest[0]))
  {
    hide Convert, ValueBehind;
    n := NumberAt(s, 0);
  }

  lemma {:induction false} BoundsMeans(t: string, maxBit: nat, on: bool)
    requires Bounds(t, maxBit, on).Item?
    ensures t != "" && IsDigit(t[0])
    ensures var c, i := Convert(t, 0), Bounds(t, maxBit, on);
            if c.rest != "" && c.rest[0] == '-' then
              var w := c.rest[1..];
              var d := Convert(w, 0);
              && c.rest == "-" + w && w != "" && IsDigit(w[0]) && c.n < d.n <= maxBit
              && i == Item(Range(on, c.n, d.n), SkipBlank(d.rest))
            else c.n <= maxBit && i == Item(Range(on, c.n, c.n), SkipBlank(c.rest))
  {
    hide Convert;
    var u := Convert(t, 0).rest;
    if u != "" && u[0] == '-' {
      assert u == "-" + u[1..] && (|u| > 1 ==> u[1..][0] == u[1]);
    }
  }

  lemma {:induction false} BlankTaken(v: string) returns (blank: bool)
    ensures v == (if blank then " " else "") + SkipBlank(v)
    ensures blank || v == SkipBlank(v)
  {
    blank := v != "" && v[0] == ' ';
  }

  lemma {:induction false} TailThen(p: Piece, rest: string)
    ensures var end := (if p.blank then " " else "") + rest;
            Tail(p) + rest == if p.last.Some? then "-" + (p.last.value + end) else end
  {
    var blank := if p.blank then " " else "";
    if p.last.Some? {
      assert "-" + p.last.value + blank + rest == "-" + (p.last.value + (blank + rest));
    } else {
      assert "" + blank + rest == blank + rest;
    }
  }

  /** The piece at the head of a text that begins with an item, and what stands behind its numbers. */
  lemma {:induction false} PieceAt(t: string, maxBit: nat, on: bool) returns (p: Piece)
    requires Bounds(t, maxBit, on).Item?
    ensures var rest := Bounds(t, maxBit, on).rest;
            && IsPiece(p, maxBit) && p.tilde == !on && RangeOf(p) == Bounds(t, maxBit, on).range
            && t == p.first + (Tail(p) + rest) && (p.blank || rest == "" || !IsDigit(rest[0]))
  {
    BoundsMeans(t, maxBit, on);
    hide Convert, IsNumber, Low, SkipBlank, Bounds, Tail;
    var first := FirstNumber(t);
    var u := Convert(t, 0).rest;
    var rest := Bounds(t, maxBit, on).rest;
    if u != "" && u[0] == '-' {
      var w := u[1..];
      var last := FirstNumber(w);
      var v := Convert(w, 0).rest;
      var blank := BlankTaken(v);
      p := Piece(!on, first, Some(last), blank);
    } else {
      var blank := BlankTaken(u);
      p := Piece(!on, first, None, blank);
    }
    TailThen(p, rest);
  }

  /** The piece at the head of a text that begins with an item, the tilde included. */
  lemma {:induction false} FirstPiece(s: string, maxBit: nat) returns (p: Piece)
    requires s != "" && FirstItem(s, maxBit).Item?
    ensures var rest := FirstItem(s, maxBit).rest;
            && IsPiece(p, maxBit) && s == (if p.tilde then "~" else "") + (p.first + (Tail(p) + rest))
            && (p.blank || rest == "" || !IsDigit(rest[0]))
  {
    hide Bounds, IsPiece, Tail, RangeOf;
    var on := s[0] != '~';
    var t := if on then s else s[1..];
    p := PieceAt(t, maxBit, on);
    assert s == (if on then "" else "~") + t;
  }

  /** And every text that is accepted is of this form. */
  lemma {:induction false} ParsedPieces(s: string, maxBit: nat) returns (ps: seq<Piece>)
    requires Parse(s, maxBit).ok
    ensures ArePieces(ps, maxBit) && s == PiecesText(ps)
    decreases |s|
  {
    hide FirstItem, IsPiece, Tail;
    ps := [];
    if s != "" {
      var p := FirstPiece(s, maxBit);
      var more := ParsedPieces(FirstItem(s, maxBit).rest, maxBit);
      ps := [p] + more;
      if more != [] && !p.blank {
        HeadOfPieces(more, maxBit);
      }
    }
  }

  lemma {:induction false} HeadOfPieces(ps: seq<Piece>, maxBit: nat)
    requires ps != [] && IsPiece(ps[0], maxBit)
    ensures PiecesText(ps) != "" && (!ps[0].tilde ==> IsDigit(PiecesText(ps)[0]))
  {
    assert ps[0].first[0] == (ps[0].first + (Tail(ps[0]) + PiecesText(ps[1..])))[0];
  }

  /** Exactly the texts of this form are accepted; all others are in error. */
  lemma {:induction false} AcceptedIff(s: string, maxBit: nat)
    ensures Parse(s, maxBit).ok <==> exists ps :: ArePieces(ps, maxBit) && s == PiecesText(ps)
  {
    hide ArePieces, PiecesText;
    if Parse(s, maxBit).ok {
      var ps := ParsedPieces(s, maxBit);
    }
    forall ps | ArePieces(ps, maxBit) && s == PiecesText(ps) ensures Parse(s, maxBit).ok {
      PiecesParse(ps, maxBit);
    }
  }
}
