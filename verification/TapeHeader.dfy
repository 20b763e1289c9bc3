/** The security header that sec_export.c puts in front of a file on a multilevel tape: NUL-terminated strings
    for the attributes in the tape's format, packed on export and found again on import. */
module TapeHeader {
  import opened CTypes
  import opened Options
  import opened TapeFormat

  /** The strings of a header in their order. */
  const FIELDS := 10
  const OPT := 0
  const KID := 1
  const LAB := 2
  const ACL_TEXT := 3
  const PACL_TEXT := 4
  const PDACL_TEXT := 5
  const NCV := 6
  const ILB := 7
  const PPR := 8
  const GPR := 9

  /** The bit of the format under which a string is on the tape. */
  function BitOf(k: nat): nat
    requires k < FIELDS
  {
    [TYPE_FLAGS, TYPE_FLAGS, SENS_LABEL, ACL, PACL, PDACL, NCAV, INFO_LABEL, PRIVS, PRIVS][k]
  }

  predicate Present(f: Format, k: nat)
    requires k < FIELDS
  {
    BitOf(k) in f
  }

  /** The header from string `k` on. */
  function Packed(f: Format, texts: seq<string>, k: nat): string
    requires |texts| == FIELDS
    decreases FIELDS - k
  {
    if k >= FIELDS then ""
    else if Present(f, k) then texts[k] + [NUL] + Packed(f, texts, k + 1)
    else Packed(f, texts, k + 1)
  }

  /** The attributes of a file as strings: its options, the level of the child, its label, its three lists of access
      rights, its caveat, its information label, and its potential and granted privileges. */
  datatype Attributes = Attributes(opt: string, kid: string, level: string, acl: string, pacl: string, pdacl: string,
                                   caveat: string, infoLabel: string, potential: string, granted: string)

  predicate AllText(a: Attributes) {
    && IsText(a.opt) && IsText(a.kid) && IsText(a.level) && IsText(a.acl) && IsText(a.pacl) && IsText(a.pdacl)
    && IsText(a.caveat) && IsText(a.infoLabel) && IsText(a.potential) && IsText(a.granted)
  }

  /** A string and its NUL, if it is to be on the tape. */
  function Item(present: bool, text: string): string {
    if present then text + [NUL] else ""
  }

  /** The header, attribute by attribute, each under its own bit of the format. */
  function Header(f: Format, a: Attributes): string {
    Item(TYPE_FLAGS in f, a.opt) + Item(TYPE_FLAGS in f, a.kid) + Item(SENS_LABEL in f, a.level)
    + Item(ACL in f, a.acl) + Item(PACL in f, a.pacl) + Item(PDACL in f, a.pdacl)
    + Item(NCAV in f, a.caveat) + Item(INFO_LABEL in f, a.infoLabel)
    + Item(PRIVS in f, a.potential) + Item(PRIVS in f, a.granted)
  }

  /** The attributes in the order of the header. */
  function InOrder(a: Attributes): (texts: seq<string>)
    ensures |texts| == FIELDS
  {
    [a.opt, a.kid, a.level, a.acl, a.pacl, a.pdacl, a.caveat, a.infoLabel, a.potential, a.granted]
  }

  lemma {:induction false} PackedItem(f: Format, texts: seq<string>, k: nat)
    requires |texts| == FIELDS && k < FIELDS
    ensures Packed(f, texts, k) == Item(Present(f, k), texts[k]) + Packed(f, texts, k + 1)
  {
    PackedStep(f, texts, k);
  }

  lemma {:induction false} HeaderFrom(f: Format, a: Attributes)
    ensures var t := InOrder(a);
            && Packed(f, t, 0) == Item(TYPE_FLAGS in f, a.opt)
                                  + (Item(TYPE_FLAGS in f, a.kid) + (Item(SENS_LABEL in f, a.level) + Packed(f, t, 3)))
            && Packed(f, t, 3) == Item(ACL in f, a.acl)
                                  + (Item(PACL in f, a.pacl) + (Item(PDACL in f, a.pdacl) + Packed(f, t, 6)))
            && Packed(f, t, 6) == Item(NCAV in f, a.caveat) + (Item(INFO_LABEL in f, a.infoLabel) + Packed(f, t, 8))
            && Packed(f, t, 8) == Item(PRIVS in f, a.potential) + Item(PRIVS in f, a.granted)
  {
    hide Packed, Item;
    var t := InOrder(a);
    PackedItem(f, t, 0);
    PackedItem(f, t, 1);
    PackedItem(f, t, 2);
    PackedItem(f, t, 3);
    PackedItem(f, t, 4);
    PackedItem(f, t, 5);
    PackedItem(f, t, 6);
    PackedItem(f, t, 7);
    PackedItem(f, t, 8);
    PackedItem(f, t, 9);
    NothingPacked(f, t);
    assert Item(PRIVS in f, a.granted) + "" == Item(PRIVS in f, a.granted);
  }

  lemma {:induction false} NothingPacked(f: Format, texts: seq<string>)
    requires |texts| == FIELDS
    ensures Packed(f, texts, FIELDS) == ""
  {
  }

  /** What is packed is the header. */
  lemma {:induction false} PackedIsHeader(f: Format, a: Attributes)
    ensures Packed(f, InOrder(a), 0) == Header(f, a)
  {
    hide Packed, Item, InOrder;
    HeaderFrom(f, a);
    var t := InOrder(a);
    var x0 := Item(TYPE_FLAGS in f, a.opt) + Item(TYPE_FLAGS in f, a.kid) + Item(SENS_LABEL in f, a.level);
    var x3 := Item(ACL in f, a.acl) + Item(PACL in f, a.pacl) + Item(PDACL in f, a.pdacl);
    var x6 := Item(NCAV in f, a.caveat) + Item(INFO_LABEL in f, a.infoLabel);
    var x8 := Item(PRIVS in f, a.potential) + Item(PRIVS in f, a.granted);
    assert Packed(f, t, 0) == x0 + Packed(f, t, 3);
    assert Packed(f, t, 3) == x3 + Packed(f, t, 6);
    assert Packed(f, t, 6) == x6 + x8;
    assert x0 + (x3 + (x6 + x8)) == Header(f, a) by {
      var h := x0 + Item(ACL in f, a.acl) + Item(PACL in f, a.pacl) + Item(PDACL in f, a.pdacl);
      assert h == x0 + x3;
      var g := h + Item(NCAV in f, a.caveat) + Item(INFO_LABEL in f, a.infoLabel);
      assert g == x0 + x3 + x6;
      assert Header(f, a) == g + Item(PRIVS in f, a.potential) + Item(PRIVS in f, a.granted);
      assert Header(f, a) == g + x8;
    }
  }

  /** The space for strings `k` and after, as if all were present. */
  function Room(texts: seq<string>, k: nat): nat
    requires |texts| == FIELDS
    decreases FIELDS - k
  {
    if k >= FIELDS then 0 else |texts[k]| + 1 + Room(texts, k + 1)
  }

  lemma {:induction false} PackedStep(f: Format, texts: seq<string>, k: nat)
    requires |texts| == FIELDS && k < FIELDS
    ensures Packed(f, texts, k) == (if Present(f, k) then texts[k] + [NUL] else "") + Packed(f, texts, k + 1)
    ensures Room(texts, k) == |texts[k]| + 1 + Room(texts, k + 1)
  {
    hide Present;
    assert "" + Packed(f, texts, k + 1) == Packed(f, texts, k + 1);
  }

  lemma {:induction false} PackedFits(f: Format, texts: seq<string>, k: nat)
    requires |texts| == FIELDS
    ensures |Packed(f, texts, k)| <= Room(texts, k)
    decreases FIELDS - k
  {
    if k < FIELDS {
      PackedFits(f, texts, k + 1);
    }
  }

  // ---------------------------------------------------------------- unpacking

  /** A static string pointer: null, the empty string, or into the buffer. */
  datatype Pointer = Null | Empty | At(offset: nat)

  /** Every string from `k` on ends within the buffer. */
  predicate Readable(f: Format, buffer: string, pos: nat, k: nat)
    decreases FIELDS - k
  {
    k >= FIELDS
    || if Present(f, k)
       then pos <= |buffer| && pos + |CString(buffer, pos)| < |buffer|
         && Readable(f, buffer, pos + |CString(buffer, pos)| + 1, k + 1)
       else Readable(f, buffer, pos, k + 1)
  }

  /** The pointers from string `k` on. */
  function Pointers(f: Format, buffer: string, pos: nat, k: nat): (ps: seq<Pointer>)
    requires Readable(f, buffer, pos, k)
    decreases FIELDS - k
  {
    if k >= FIELDS then []
    else if Present(f, k) then [At(pos)] + Pointers(f, buffer, pos + |CString(buffer, pos)| + 1, k + 1)
    else [if k == KID then Empty else Null] + Pointers(f, buffer, pos, k + 1)
  }

  /** A pointer leads to the text that was packed, if any was. */
  predicate Recovers(f: Format, buffer: string, p: Pointer, k: nat, text: string)
    requires k < FIELDS
  {
    if Present(f, k) then p.At? && p.offset <= |buffer| && CString(buffer, p.offset) == text
    else p == if k == KID then Empty else Null
  }

  /** A pointer to an attribute: to its text if it is on the tape, otherwise null. */
  predicate Found(p: Pointer, present: bool, buffer: string, text: string) {
    if present then p.At? && p.offset <= |buffer| && CString(buffer, p.offset) == text else p == Null
  }

  /** The ten pointers lead to the attributes, each under its own bit of the format.  Without a level of the child
      there is an empty one. */
  predicate AllFound(f: Format, buffer: string, a: Attributes, opt: Pointer, kid: Pointer, lab: Pointer, acl: Pointer,
                     pacl: Pointer, pdacl: Pointer, ncv: Pointer, ilb: Pointer, ppr: Pointer, gpr: Pointer) {
    && Found(opt, TYPE_FLAGS in f, buffer, a.opt)
    && (if TYPE_FLAGS in f then Found(kid, true, buffer, a.kid) else kid == Empty)
    && Found(lab, SENS_LABEL in f, buffer, a.level)
    && Found(acl, ACL in f, buffer, a.acl) && Found(pacl, PACL in f, buffer, a.pacl)
    && Found(pdacl, PDACL in f, buffer, a.pdacl)
    && Found(ncv, NCAV in f, buffer, a.caveat) && Found(ilb, INFO_LABEL in f, buffer, a.infoLabel)
    && Found(ppr, PRIVS in f, buffer, a.potential) && Found(gpr, PRIVS in f, buffer, a.granted)
  }

  lemma {:induction false} RecoveredIsFound(f: Format, a: Attributes, buffer: string)
    requires Recovered(f, InOrder(a), buffer, 0, 0)
    ensures Readable(f, buffer, 0, 0) && |Pointers(f, buffer, 0, 0)| == FIELDS
    ensures var ps := Pointers(f, buffer, 0, 0);
            AllFound(f, buffer, a, ps[0], ps[1], ps[2], ps[3], ps[4], ps[5], ps[6], ps[7], ps[8], ps[9])
  {
    hide CString, Readable, Pointers;
    var ps := Pointers(f, buffer, 0, 0);
    var t := InOrder(a);
    assert Recovers(f, buffer, ps[0 - 0], 0, t[0]) && Recovers(f, buffer, ps[1 - 0], 1, t[1]);
    assert Recovers(f, buffer, ps[2 - 0], 2, t[2]) && Recovers(f, buffer, ps[3 - 0], 3, t[3]);
    assert Recovers(f, buffer, ps[4 - 0], 4, t[4]) && Recovers(f, buffer, ps[5 - 0], 5, t[5]);
    assert Recovers(f, buffer, ps[6 - 0], 6, t[6]) && Recovers(f, buffer, ps[7 - 0], 7, t[7]);
    assert Recovers(f, buffer, ps[8 - 0], 8, t[8]) && Recovers(f, buffer, ps[9 - 0], 9, t[9]);
  }

  lemma {:induction false} TextAt(before: string, text: string, rest: string)
    requires NUL !in text
    ensures CString(before + (text + [NUL]) + rest, |before|) == text
  {
    var buffer := before + (text + [NUL]) + rest;
    assert buffer[|before|..|before| + |text|] == text && buffer[|before| + |text|] == NUL;
    CStringIs(buffer, |before|, text);
  }

  /** The pointers from string `k` on, found at `pos`, lead to the texts. */
  ghost predicate Recovered(f: Format, texts: seq<string>, buffer: string, pos: nat, k: nat)
    requires |texts| == FIELDS && k <= FIELDS
  {
    && Readable(f, buffer, pos, k)
    && var ps := Pointers(f, buffer, pos, k);
       |ps| == FIELDS - k && forall i | k <= i < FIELDS :: Recovers(f, buffer, ps[i - k], i, texts[i])
  }

  lemma {:induction false} RecoveredStep(f: Format, texts: seq<string>, buffer: string, pos: nat, k: nat)
    requires |texts| == FIELDS && k < FIELDS
    requires Present(f, k) ==> pos + |texts[k]| < |buffer| && CString(buffer, pos) == texts[k]
    requires Recovered(f, texts, buffer, if Present(f, k) then pos + |texts[k]| + 1 else pos, k + 1)
    ensures Recovered(f, texts, buffer, pos, k)
  {
    hide Present, CString;
    var ps := Pointers(f, buffer, pos, k);
    var next := if Present(f, k) then pos + |texts[k]| + 1 else pos;
    assert ps[1..] == Pointers(f, buffer, next, k + 1);
    forall i | k <= i < FIELDS ensures Recovers(f, buffer, ps[i - k], i, texts[i]) {
      if i > k {
        assert ps[i - k] == ps[1..][i - (k + 1)];
      }
    }
  }

  /** The round trip: from the bytes of a header, whatever stands in front and behind, every string that was
      packed is recovered, and those not in the format are null (or, for the child's level, empty). */
  lemma {:induction false} UnpackPacked(f: Format, texts: seq<string>, before: string, behind: string, k: nat)
    requires |texts| == FIELDS && k <= FIELDS && forall i | 0 <= i < FIELDS :: NUL !in texts[i]
    ensures Recovered(f, texts, before + Packed(f, texts, k) + behind, |before|, k)
    decreases FIELDS - k
  {
    hide Present, CString, Recovered;
    var buffer := before + Packed(f, texts, k) + behind;
    if k == FIELDS {
      NothingLeft(f, texts, buffer, |before|);
    } else if Present(f, k) {
      var text, rest := texts[k] + [NUL], Packed(f, texts, k + 1);
      assert buffer == (before + text) + rest + behind == before + text + (rest + behind);
      TextAt(before, texts[k], rest + behind);
      UnpackPacked(f, texts, before + text, behind, k + 1);
      RecoveredStep(f, texts, buffer, |before|, k);
    } else {
      UnpackPacked(f, texts, before, behind, k + 1);
      RecoveredStep(f, texts, buffer, |before|, k);
    }
  }

  lemma {:induction false} NothingLeft(f: Format, texts: seq<string>, buffer: string, pos: nat)
    requires |texts| == FIELDS
    ensures Recovered(f, texts, buffer, pos, FIELDS)
  {
  }

  // ---------------------------------------------------------------- packing privileges

  datatype Privilege = Privilege(name: string, value: int)

  /** The names of the privileges in a set, each with a blank behind it. */
  function PrivText(all: seq<Privilege>, on: set<int>): string {
    if all == [] then "" else (if all[0].value in on then all[0].name + [' '] else "") + PrivText(all[1..], on)
  }

  /** So the text of one privilege is its name and a blank, if it is in the set... */
  lemma {:induction false} PrivTextOne(p: Privilege, on: set<int>)
    ensures PrivText([p], on) == if p.value in on then p.name + " " else ""
  {
    assert PrivText([p][1..], on) == "";
  }

  /** ...and that of a list is that of its parts. */
  lemma {:induction false} PrivTextParts(a: seq<Privilege>, b: seq<Privilege>, on: set<int>)
    ensures PrivText(a + b, on) == PrivText(a, on) + PrivText(b, on)
    decreases |a|
  {
    if a == [] {
      assert a + b == b;
    } else {
      assert (a + b)[0] == a[0] && (a + b)[1..] == a[1..] + b;
      PrivTextParts(a[1..], b, on);
      var first := if a[0].value in on then a[0].name + [' '] else "";
      hide PrivText;
      assert first + (PrivText(a[1..], on) + PrivText(b, on)) == first + PrivText(a[1..], on) + PrivText(b, on);
    }
  }

  /** `done` has been written for the first `i` privileges. */
  ghost predicate PrivsSoFar(all: seq<Privilege>, on: set<int>, i: nat, done: string) {
    i <= |all| && done + PrivText(all[i..], on) == PrivText(all, on)
  }

  lemma {:induction false} PrivsStart(all: seq<Privilege>, on: set<int>)
    ensures PrivsSoFar(all, on, 0, "")
  {
    assert all[0..] == all && "" + PrivText(all, on) == PrivText(all, on);
  }

  lemma {:induction false} PrivsStep(all: seq<Privilege>, on: set<int>, i: nat, done: string)
    requires i < |all| && PrivsSoFar(all, on, i, done)
    ensures var done' := if all[i].value in on then done + (all[i].name + [' ']) else done;
            PrivsSoFar(all, on, i + 1, done') && |done'| <= |PrivText(all, on)|
  {
    assert all[i..][0] == all[i] && all[i..][1..] == all[i + 1..];
    var name, rest := all[i].name + [' '], PrivText(all[i + 1..], on);
    assert done + (name + rest) == done + name + rest;
    assert "" + rest == rest;
  }

  lemma {:induction false} PrivsEnd(all: seq<Privilege>, on: set<int>, done: string)
    requires PrivsSoFar(all, on, |all|, done)
    ensures done == PrivText(all, on)
  {
    assert done + "" == done;
  }

  /** The loop that finds the size of two privilege sets. */
  method PrivSizes(all: seq<Privilege>, potential: set<int>, granted: set<int>) returns (p: nat, g: nat)
    ensures p == |PrivText(all, potential)| + 1 && g == |PrivText(all, granted)| + 1
  {
    p, g := 1, 1;
    var i := 0;
    while i < |all|
      invariant 0 <= i <= |all|
      invariant p + |PrivText(all[i..], potential)| == |PrivText(all, potential)| + 1
      invariant g + |PrivText(all[i..], granted)| == |PrivText(all, granted)| + 1
    {
      assert all[i..][0] == all[i] && all[i..][1..] == all[i + 1..];
      if all[i].value in potential {
        p := p + |all[i].name| + 1;
      }
      if all[i].value in granted {
        g := g + |all[i].name| + 1;
      }
      i := i + 1;
    }
  }

  // ---------------------------------------------------------------- the statics of the file

  class Codec {
    var tapeFormat: Format
    var buffer: array<char>
    var bufsiz: nat
    var bufptr: nat
    var size: nat
    var opt: Pointer
    var kid: Pointer
    var lab: Pointer
    var acl: Pointer
    var pacl: Pointer
    var pdacl: Pointer
    var ncv: Pointer
    var ilb: Pointer
    var ppr: Pointer
    var gpr: Pointer
    /** What has been written in front of the buffer pointer. */
    ghost var written: string

    predicate Valid()
      reads this
    {
      bufsiz <= buffer.Length
    }

    ghost predicate Holds()
      reads this, buffer
    {
      bufptr <= buffer.Length && buffer[..bufptr] == written && size == bufptr
    }

    /** `allocbuff`: the old buffer is kept if it is large enough. */
    method AllocBuff(n: nat)
      requires Valid()
      modifies this`buffer, this`bufsiz, this`bufptr
      ensures Valid() && n <= buffer.Length && (buffer == old(buffer) || fresh(buffer))
      ensures n <= old(bufsiz) ==> buffer == old(buffer)
    {
      if n > bufsiz {
        buffer := new char[n];
        bufsiz := n;
        bufptr := 0;
      }
    }

    /** What has been written, continued by the strings from `k` on, is the header; and there is room. */
    ghost predicate Filling(texts: seq<string>, k: nat)
      requires |texts| == FIELDS
      reads this, buffer
    {
      && Holds() && bufptr + Room(texts, k) <= buffer.Length
      && written + Packed(tapeFormat, texts, k) == Packed(tapeFormat, texts, 0)
    }

    /** `memcpy` to the buffer pointer, and on. */
    method Copy(s: string)
      requires Holds() && bufptr + |s| <= buffer.Length
      modifies this`bufptr, this`size, this`written, buffer
      ensures Holds() && bufptr == old(bufptr) + |s| && written == old(written) + s
    {
      forall i | 0 <= i < |s| {
        buffer[bufptr + i] := s[i];
      }
      bufptr := bufptr + |s|;
      size := size + |s|;
      written := written + s;
    }

    /** One string, if it is in the format. */
    method CopyText(text: string, k: nat, ghost texts: seq<string>)
      requires |texts| == FIELDS && k < FIELDS && texts[k] == text && Filling(texts, k)
      modifies this`bufptr, this`size, this`written, buffer
      ensures Filling(texts, k + 1)
    {
      hide Present, Holds, Packed, Room;
      ghost var done, rest := written, Packed(tapeFormat, texts, k + 1);
      PackedStep(tapeFormat, texts, k);
      if Present(tapeFormat, k) {
        ghost var item := text + [NUL];
        assert done + (item + rest) == done + item + rest;
        Copy(text + [NUL]);
      } else {
        assert "" + rest == rest;
      }
    }

    /** The loop that writes a set of privileges, and the NUL behind it. */
    method CopyPrivs(all: seq<Privilege>, on: set<int>)
      requires Holds() && bufptr + |PrivText(all, on)| < buffer.Length
      modifies this`bufptr, this`size, this`written, buffer
      ensures Holds() && bufptr == old(bufptr) + |PrivText(all, on)| + 1
      ensures written == old(written) + (PrivText(all, on) + [NUL])
    {
      hide Holds, PrivText;
      var i := 0;
      ghost var done := "";
      PrivsStart(all, on);
      assert old(written) + "" == old(written);
      while i < |all|
        invariant 0 <= i <= |all| && PrivsSoFar(all, on, i, done) && |done| <= |PrivText(all, on)|
        invariant Holds() && bufptr == old(bufptr) + |done| && written == old(written) + done
      {
        PrivsStep(all, on, i, done);
        if all[i].value in on {
          ghost var name := all[i].name + [' '];
          assert old(written) + done + name == old(written) + (done + name);
          Copy(all[i].name + [' ']);
          done := done + name;
        }
        i := i + 1;
      }
      PrivsEnd(all, on, done);
      assert old(written) + done + [NUL] == old(written) + (done + [NUL]);
      Copy([NUL]);
    }

    /** Both sets of privileges, if they are in the format. */
    method CopyBothPrivs(all: seq<Privilege>, potential: set<int>, granted: set<int>, ghost texts: seq<string>)
      requires |texts| == FIELDS && texts[PPR] == PrivText(all, potential) && texts[GPR] == PrivText(all, granted)
      requires Filling(texts, PPR)
      modifies this`bufptr, this`size, this`written, buffer
      ensures Holds() && written == Packed(tapeFormat, texts, 0)
    {
      hide Holds, PrivText;
      ghost var done := written;
      if PRIVS in tapeFormat {
        ghost var p, g := PrivText(all, potential) + [NUL], PrivText(all, granted) + [NUL];
        assert Packed(tapeFormat, texts, GPR) == g + "" == g;
        assert Packed(tapeFormat, texts, PPR) == p + g;
        assert Room(texts, PPR) == |p| + |g|;
        CopyPrivs(all, potential);
        CopyPrivs(all, granted);
        assert done + p + g == done + (p + g);
      } else {
        assert Packed(tapeFormat, texts, PPR) == "";
        assert done + "" == done;
      }
    }

    /** The half of `ie_ml_export` that builds the header.  An attribute that is to be on the tape and could
        not be had is an error, and nothing is written; otherwise the buffer begins with the header, and its
        size is returned. */
    method Build(kidLabel: string, level: Option<string>, aclText: Option<string>, paclText: Option<string>,
                 pdaclText: Option<string>, caveat: Option<string>, infoLabel: Option<string>, all: seq<Privilege>,
                 potential: set<int>, granted: set<int>)
      returns (n: nat)
      requires Valid()
      requires ACL in tapeFormat ==> aclText.Some?
      requires PDACL in tapeFormat ==> pdaclText.Some?
      modifies this, buffer
      ensures var f := old(tapeFormat);
              var header := Header(f, Attributes("", kidLabel, Text(level), Text(aclText), Text(paclText),
                                                 Text(pdaclText), Text(caveat), Text(infoLabel),
                                                 PrivText(all, potential), PrivText(all, granted)));
              if (SENS_LABEL in f && level.None?) || (INFO_LABEL in f && infoLabel.None?)
                 || (NCAV in f && caveat.None?) || (PACL in f && paclText.None?) then n == 0
              else n == |header| && n <= buffer.Length && buffer[..n] == header
      ensures Valid() && tapeFormat == old(tapeFormat)
    {
      hide Present, Holds, Packed, PrivText, Room, Header;
      ghost var texts := Texts(kidLabel, level, aclText, paclText, pdaclText, caveat, infoLabel, all, potential,
                               granted);
      ghost var a := Attributes("", kidLabel, Text(level), Text(aclText), Text(paclText), Text(pdaclText),
                                Text(caveat), Text(infoLabel), PrivText(all, potential), PrivText(all, granted));
      assert texts == InOrder(a);
      PackedIsHeader(tapeFormat, a);
      var missing := FindMissing(level, paclText, caveat, infoLabel);
      if missing {
        return 0;
      }
      var total := TotalSize(kidLabel, level, aclText, paclText, pdaclText, caveat, infoLabel, all, potential, granted);
      StartBuffer(total);
      assert "" + Packed(tapeFormat, texts, 0) == Packed(tapeFormat, texts, 0);
      Fill(texts, kidLabel, level, aclText, paclText, pdaclText, caveat, infoLabel, all, potential, granted);
      n := Size();
    }

    /** The attributes that the header cannot do without. */
    method FindMissing(level: Option<string>, paclText: Option<string>, caveat: Option<string>,
                       infoLabel: Option<string>)
      returns (missing: bool)
      ensures missing <==> (SENS_LABEL in tapeFormat && level.None?) || (INFO_LABEL in tapeFormat && infoLabel.None?)
                           || (NCAV in tapeFormat && caveat.None?) || (PACL in tapeFormat && paclText.None?)
    {
      if SENS_LABEL in tapeFormat && level.None? {
        return true;
      }
      if INFO_LABEL in tapeFormat && infoLabel.None? {
        return true;
      }
      if NCAV in tapeFormat && caveat.None? {
        return true;
      }
      if PACL in tapeFormat && paclText.None? {
        return true;
      }
      return false;
    }

    method Size() returns (n: nat)
      requires Holds()
      ensures n == |written| && n <= buffer.Length && buffer[..n] == written
    {
      n := size;
    }

    /** The buffer allocated and the pointer at its start. */
    method StartBuffer(n: nat)
      requires Valid()
      modifies this`buffer, this`bufsiz, this`bufptr, this`size, this`written
      ensures Valid() && Holds() && written == "" && bufptr == 0 && n <= buffer.Length
              && (buffer == old(buffer) || fresh(buffer))
    {
      AllocBuff(n);
      size, bufptr, written := 0, 0, "";
    }

    /** Every string in the format, in order. */
    method Fill(ghost texts: seq<string>, kidLabel: string, level: Option<string>, aclText: Option<string>,
                paclText: Option<string>, pdaclText: Option<string>, caveat: Option<string>, infoLabel: Option<string>,
                all: seq<Privilege>, potential: set<int>, granted: set<int>)
      requires texts == Texts(kidLabel, level, aclText, paclText, pdaclText, caveat, infoLabel, all, potential, granted)
      requires Filling(texts, 0)
      modifies this`bufptr, this`size, this`written, buffer
      ensures Holds() && written == Packed(tapeFormat, texts, 0)
    {
      hide Filling, Packed, PrivText, Texts;
      TextsAre(texts, kidLabel, level, aclText, paclText, pdaclText, caveat, infoLabel, all, potential, granted);
      CopyText("", OPT, texts);
      CopyText(kidLabel, KID, texts);
      CopyText(Text(level), LAB, texts);
      CopyText(Text(aclText), ACL_TEXT, texts);
      CopyText(Text(paclText), PACL_TEXT, texts);
      CopyText(Text(pdaclText), PDACL_TEXT, texts);
      CopyText(Text(caveat), NCV, texts);
      CopyText(Text(infoLabel), ILB, texts);
      CopyBothPrivs(all, potential, granted, texts);
    }

    /** The pointers in the order of the header. */
    function Fields(): seq<Pointer>
      reads this
    {
      [opt, kid, lab, acl, pacl, pdacl, ncv, ilb, ppr, gpr]
    }

    /** `ie_unpack`. */
    method Unpack()
      requires Readable(tapeFormat, buffer[..], 0, 0)
      modifies this`opt, this`kid, this`lab, this`acl, this`pacl, this`pdacl, this`ncv, this`ilb, this`ppr, this`gpr
      ensures Fields() == Pointers(tapeFormat, buffer[..], 0, 0)
      ensures forall a: Attributes, behind: string | AllText(a) && buffer[..] == Header(tapeFormat, a) + behind ::
                AllFound(tapeFormat, buffer[..], a, opt, kid, lab, acl, pacl, pdacl, ncv, ilb, ppr, gpr)
      ensures (opt.At? <==> TYPE_FLAGS in tapeFormat) && (kid.At? <==> TYPE_FLAGS in tapeFormat)
              && (lab.At? <==> SENS_LABEL in tapeFormat) && (acl.At? <==> ACL in tapeFormat)
              && (pacl.At? <==> PACL in tapeFormat) && (pdacl.At? <==> PDACL in tapeFormat)
              && (ncv.At? <==> NCAV in tapeFormat) && (ilb.At? <==> INFO_LABEL in tapeFormat)
              && (ppr.At? <==> PRIVS in tapeFormat) && (gpr.At? <==> PRIVS in tapeFormat)
    {
      hide UnpackedTo, Pointers, AllText, AllFound, Header, Readable;
      ghost var text := buffer[..];
      PointersAt(tapeFormat, text);
      forall a: Attributes, behind: string | AllText(a) && text == Header(tapeFormat, a) + behind
        ensures |Pointers(tapeFormat, text, 0, 0)| == FIELDS
        ensures var ps := Pointers(tapeFormat, text, 0, 0);
                AllFound(tapeFormat, text, a, ps[0], ps[1], ps[2], ps[3], ps[4], ps[5], ps[6], ps[7], ps[8], ps[9])
      {
        HeaderUnpacked(tapeFormat, a, behind);
      }
      NothingUnpacked(tapeFormat, text);
      var buffPtr := UnpackFirst(text);
      ghost var done;
      buffPtr, done := UnpackRest(text, buffPtr);
      AllUnpacked(tapeFormat, text, buffPtr, done);
    }

    /** Its first half. */
    method UnpackFirst(ghost text: string) returns (buffPtr: nat)
      requires text == buffer[..] && UnpackedTo(tapeFormat, text, 0, 0, [])
      modifies this`opt, this`kid, this`lab, this`acl, this`pacl
      ensures UnpackedTo(tapeFormat, text, PDACL_TEXT, buffPtr, [opt, kid, lab, acl, pacl])
    {
      hide UnpackedTo, Present, CString;
      ghost var done: seq<Pointer>;
      var all := buffer[..];
      opt, buffPtr, done := NextField(tapeFormat, all, OPT, 0, []);
      kid, buffPtr, done := NextField(tapeFormat, all, KID, buffPtr, done);
      lab, buffPtr, done := NextField(tapeFormat, all, LAB, buffPtr, done);
      acl, buffPtr, done := NextField(tapeFormat, all, ACL_TEXT, buffPtr, done);
      pacl, buffPtr, done := NextField(tapeFormat, all, PACL_TEXT, buffPtr, done);
      assert done == [opt, kid, lab, acl, pacl];
    }

    /** Its second half. */
    method UnpackRest(ghost text: string, first: nat) returns (buffPtr: nat, ghost done: seq<Pointer>)
      requires text == buffer[..] && UnpackedTo(tapeFormat, text, PDACL_TEXT, first, [opt, kid, lab, acl, pacl])
      modifies this`pdacl, this`ncv, this`ilb, this`ppr, this`gpr
      ensures UnpackedTo(tapeFormat, text, FIELDS, buffPtr, done) && done == Fields()
    {
      hide UnpackedTo, Present, CString;
      var all := buffer[..];
      done := [opt, kid, lab, acl, pacl];
      pdacl, buffPtr, done := NextField(tapeFormat, all, PDACL_TEXT, first, done);
      ncv, buffPtr, done := NextField(tapeFormat, all, NCV, buffPtr, done);
      ilb, buffPtr, done := NextField(tapeFormat, all, ILB, buffPtr, done);
      ppr, buffPtr, done := NextField(tapeFormat, all, PPR, buffPtr, done);
      gpr, buffPtr, done := NextField(tapeFormat, all, GPR, buffPtr, done);
      assert done == Fields();
    }
  }

  /** The pointers found in front of string `k`, continued by the rest, are all of them. */
  ghost predicate UnpackedTo(f: Format, text: string, k: nat, pos: nat, done: seq<Pointer>) {
    Readable(f, text, 0, 0) && Readable(f, text, pos, k) && done + Pointers(f, text, pos, k) == Pointers(f, text, 0, 0)
  }

  lemma {:induction false} NothingUnpacked(f: Format, text: string)
    requires Readable(f, text, 0, 0)
    ensures UnpackedTo(f, text, 0, 0, [])
  {
    assert [] + Pointers(f, text, 0, 0) == Pointers(f, text, 0, 0);
  }

  lemma {:induction false} AllUnpacked(f: Format, text: string, pos: nat, done: seq<Pointer>)
    requires UnpackedTo(f, text, FIELDS, pos, done)
    ensures Readable(f, text, 0, 0) && done == Pointers(f, text, 0, 0)
  {
    assert done + [] == done;
  }

  /** One string of `ie_unpack`, if it is in the format. */
  method NextField(f: Format, text: string, k: nat, buffPtr: nat, ghost done: seq<Pointer>)
    returns (p: Pointer, next: nat, ghost done': seq<Pointer>)
    requires k < FIELDS && UnpackedTo(f, text, k, buffPtr, done)
    ensures Present(f, k) ==> p == At(buffPtr) && buffPtr < next
    ensures !Present(f, k) ==> p == (if k == KID then Empty else Null) && next == buffPtr
    ensures UnpackedTo(f, text, k + 1, next, done') && done' == done + [p]
  {
    hide Pointers, CString;
    UnpackedStep(f, text, k, buffPtr, done);
    if Present(f, k) {
      p := At(buffPtr);
      next := buffPtr + |CString(text, buffPtr)| + 1;
    } else {
      p := if k == KID then Empty else Null;
      next := buffPtr;
    }
    done' := done + [p];
  }

  lemma {:induction false} PointersStep(f: Format, text: string, k: nat, pos: nat)
    requires k < FIELDS && Readable(f, text, pos, k)
    ensures Present(f, k) ==>
              pos <= |text| && var next := pos + |CString(text, pos)| + 1;
              Readable(f, text, next, k + 1) && Pointers(f, text, pos, k) == [At(pos)] + Pointers(f, text, next, k + 1)
    ensures !Present(f, k) ==>
              Readable(f, text, pos, k + 1)
              && Pointers(f, text, pos, k) == [if k == KID then Empty else Null] + Pointers(f, text, pos, k + 1)
  {
    hide Present, CString;
  }

  lemma {:induction false} UnpackedStep(f: Format, text: string, k: nat, pos: nat, done: seq<Pointer>)
    requires k < FIELDS && UnpackedTo(f, text, k, pos, done)
    ensures Present(f, k)
            ==> pos <= |text| && UnpackedTo(f, text, k + 1, pos + |CString(text, pos)| + 1, done + [At(pos)])
    ensures !Present(f, k) ==> UnpackedTo(f, text, k + 1, pos, done + [if k == KID then Empty else Null])
  {
    hide Present, CString, Readable, Pointers;
    PointersStep(f, text, k, pos);
    var p := if Present(f, k) then At(pos) else if k == KID then Empty else Null;
    var next := if Present(f, k) then pos + |CString(text, pos)| + 1 else pos;
    var rest := Pointers(f, text, next, k + 1);
    assert done + ([p] + rest) == done + [p] + rest;
  }

  lemma {:induction false} PointersFrom(f: Format, text: string, pos: nat, k: nat)
    requires k <= FIELDS && Readable(f, text, pos, k)
    ensures var ps := Pointers(f, text, pos, k);
            |ps| == FIELDS - k && forall i | k <= i < FIELDS :: ps[i - k].At? <==> Present(f, i)
    decreases FIELDS - k
  {
    hide Present, CString, Readable, Pointers;
    if k < FIELDS {
      PointersStep(f, text, k, pos);
      var next := if Present(f, k) then pos + |CString(text, pos)| + 1 else pos;
      PointersFrom(f, text, next, k + 1);
      var ps, rest := Pointers(f, text, pos, k), Pointers(f, text, next, k + 1);
      forall i | k <= i < FIELDS ensures ps[i - k].At? <==> Present(f, i) {
        if i > k {
          assert ps[i - k] == rest[i - (k + 1)];
        }
      }
    } else {
      NoPointers(f, text, pos);
    }
  }

  lemma {:induction false} NoPointers(f: Format, text: string, pos: nat)
    ensures Readable(f, text, pos, FIELDS) && Pointers(f, text, pos, FIELDS) == []
  {
  }

  /** Which of the ten pointers there are. */
  lemma {:induction false} PointersAt(f: Format, text: string)
    requires Readable(f, text, 0, 0)
    ensures var ps := Pointers(f, text, 0, 0);
            && |ps| == FIELDS
            && (ps[0].At? <==> TYPE_FLAGS in f) && (ps[1].At? <==> TYPE_FLAGS in f) && (ps[2].At? <==> SENS_LABEL in f)
            && (ps[3].At? <==> ACL in f) && (ps[4].At? <==> PACL in f) && (ps[5].At? <==> PDACL in f)
            && (ps[6].At? <==> NCAV in f) && (ps[7].At? <==> INFO_LABEL in f)
            && (ps[8].At? <==> PRIVS in f) && (ps[9].At? <==> PRIVS in f)
  {
    hide Readable, Pointers;
    PointersFrom(f, text, 0, 0);
    var ps := Pointers(f, text, 0, 0);
    assert ps[0 - 0].At? <==> Present(f, 0);
    assert ps[1 - 0].At? <==> Present(f, 1);
    assert ps[2 - 0].At? <==> Present(f, 2);
    assert ps[3 - 0].At? <==> Present(f, 3);
    assert ps[4 - 0].At? <==> Present(f, 4);
    assert ps[5 - 0].At? <==> Present(f, 5);
    assert ps[6 - 0].At? <==> Present(f, 6);
    assert ps[7 - 0].At? <==> Present(f, 7);
    assert ps[8 - 0].At? <==> Present(f, 8);
    assert ps[9 - 0].At? <==> Present(f, 9);
  }

  /** From a header, whatever stands behind it, every attribute is found under its own bit. */
  lemma {:induction false} HeaderUnpacked(f: Format, a: Attributes, behind: string)
    requires AllText(a)
    ensures var buffer := Header(f, a) + behind;
            && Readable(f, buffer, 0, 0) && |Pointers(f, buffer, 0, 0)| == FIELDS
            && var ps := Pointers(f, buffer, 0, 0);
               AllFound(f, buffer, a, ps[0], ps[1], ps[2], ps[3], ps[4], ps[5], ps[6], ps[7], ps[8], ps[9])
  {
    hide Packed, Recovered, CString, Readable, Pointers, AllFound, Header;
    PackedIsHeader(f, a);
    UnpackPacked(f, InOrder(a), "", behind, 0);
    assert "" + Packed(f, InOrder(a), 0) + behind == Header(f, a) + behind;
    RecoveredIsFound(f, a, Header(f, a) + behind);
  }

  /** From writer to reader: of a header written under the mask on the tape, and read into a buffer, every attribute
      is found under the mask negotiated with it. */
  lemma {:induction false} TapeRoundTrip(written: Format, negotiated: Format, a: Attributes, behind: string)
    requires AllText(a) && forall b: nat | b <= MAX_HEADER_BIT :: b in negotiated <==> b in written
    ensures var buffer := Header(written, a) + behind;
            && Readable(negotiated, buffer, 0, 0) && |Pointers(negotiated, buffer, 0, 0)| == FIELDS
            && var ps := Pointers(negotiated, buffer, 0, 0);
               AllFound(written, buffer, a, ps[0], ps[1], ps[2], ps[3], ps[4], ps[5], ps[6], ps[7], ps[8], ps[9])
  {
    hide Readable, Pointers, Found, Item;
    assert Header(written, a) == Header(negotiated, a);
    HeaderUnpacked(negotiated, a, behind);
  }

  /** The size of a string that may be missing, with its NUL. */
  function TextSize(t: Option<string>): nat {
    if t.Some? then |t.value| + 1 else 1
  }

  /** The size of the buffer, as if every string were in the format. */
  method TotalSize(kid: string, level: Option<string>, acl: Option<string>, pacl: Option<string>, pdacl: Option<string>,
                   caveat: Option<string>, infoLabel: Option<string>, all: seq<Privilege>, potential: set<int>,
                   granted: set<int>)
    returns (n: nat)
    ensures n == Room(Texts(kid, level, acl, pacl, pdacl, caveat, infoLabel, all, potential, granted), 0)
  {
    hide PrivText, Room;
    var lppriv, lgpriv := PrivSizes(all, potential, granted);
    var lopt := |""| + 1;
    AllRoom(Texts(kid, level, acl, pacl, pdacl, caveat, infoLabel, all, potential, granted));
    n := lopt + TextSize(level) + TextSize(acl) + TextSize(pacl) + TextSize(pdacl) + TextSize(caveat)
      + TextSize(infoLabel)
         + |kid| + 1 + lppriv + lgpriv;
  }

  function Text(t: Option<string>): string {
    if t.Some? then t.value else ""
  }

  /** The strings of a header. */
  function Texts(kid: string, level: Option<string>, acl: Option<string>, pacl: Option<string>, pdacl: Option<string>,
                 caveat: Option<string>, infoLabel: Option<string>, all: seq<Privilege>, potential: set<int>,
                 granted: set<int>): (t: seq<string>)
    ensures |t| == FIELDS
  {
    ["", kid, Text(level), Text(acl), Text(pacl), Text(pdacl), Text(caveat), Text(infoLabel), PrivText(all, potential),
     PrivText(all, granted)]
  }

  lemma {:induction false} TextsAre(texts: seq<string>, kid: string, level: Option<string>, acl: Option<string>,
                                    pacl: Option<string>, pdacl: Option<string>, caveat: Option<string>,
                                    infoLabel: Option<string>, all: seq<Privilege>, potential: set<int>,
                                    granted: set<int>)
    requires texts == Texts(kid, level, acl, pacl, pdacl, caveat, infoLabel, all, potential, granted)
    ensures texts[OPT] == "" && texts[KID] == kid && texts[LAB] == Text(level) && texts[ACL_TEXT] == Text(acl)
    ensures texts[PACL_TEXT] == Text(pacl) && texts[PDACL_TEXT] == Text(pdacl) && texts[NCV] == Text(caveat)
    ensures texts[ILB] == Text(infoLabel) && texts[PPR] == PrivText(all, potential)
            && texts[GPR] == PrivText(all, granted)
  {
    hide PrivText;
  }

  lemma {:induction false} AllRoom(t: seq<string>)
    requires |t| == FIELDS
    ensures Room(t, 0) == |t[0]| + |t[1]| + |t[2]| + |t[3]| + |t[4]| + |t[5]| + |t[6]| + |t[7]| + |t[8]| + |t[9]| + 10
  {
    assert Room(t, 8) == |t[8]| + |t[9]| + 2;
    assert Room(t, 6) == |t[6]| + |t[7]| + 2 + Room(t, 8);
    assert Room(t, 4) == |t[4]| + |t[5]| + 2 + Room(t, 6);
    assert Room(t, 2) == |t[2]| + |t[3]| + 2 + Room(t, 4);
  }
}
