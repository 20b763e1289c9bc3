/** The binary zone file: the writer of zic.c and the reader of zdump.c.  The layout is that of the
    version 1 header and data block of sections 3.1 and 3.2 of RFC 8536, without leap-second and
    indicator records. */
module ZoneFile {
  import opened CTypes
  import ZoneTables

  const RESERVED := 32

  /** One local time type as it is written. */
  datatype TypeInfo = TypeInfo(gmtOff: int, isDst: bool, abbrind: int)

  datatype ZoneData = ZoneData(ats: seq<int>, kinds: seq<int>, infos: seq<TypeInfo>, chars: string)

  predicate WellFormed(z: ZoneData) {
    && |z.ats| == |z.kinds| <= INT_MAX && |z.infos| <= INT_MAX && |z.chars| <= INT_MAX
    && (forall i | 0 <= i < |z.ats| :: IsInt(z.ats[i]))
    && (forall i | 0 <= i < |z.infos| :: IsInt(z.infos[i].gmtOff))
    && (forall i | 0 <= i < |z.chars| :: z.chars[i] as int < 256)
  }

  // ---------------------------------------------------------------- four-byte codes

  /** The low 32 bits of `val`, most significant byte first. */
  function Code(val: int): (c: seq<int>)
    ensures |c| == 4
  {
    [val / 0x100_0000 % 256, val / 0x1_0000 % 256, val / 0x100 % 256, val % 256]
  }

  /** The unsigned number that four bytes spell. */
  function Number(a: int, b: int, c: int, d: int): int {
    0x100_0000 * a + 0x1_0000 * b + 0x100 * c + d
  }

  /** The 32-bit value at byte `k` of a file: the number there, assigned to a 32-bit variable. */
  function ValueAt(file: seq<int>, k: nat): int
    requires k + 4 <= |file|
  {
    WrapInt(Number(file[k], file[k + 1], file[k + 2], file[k + 3]))
  }

  /** The four bytes of a code at byte `k`, written one by one. */
  ghost predicate HasCode(file: seq<int>, k: nat, val: int) {
    k + 4 <= |file| && file[k] == Code(val)[0] && file[k + 1] == Code(val)[1] && file[k + 2] == Code(val)[2]
      && file[k + 3] == Code(val)[3]
  }

  /** A number written is the number read, negative ones included. */
  lemma {:induction false} CodeRoundTrip(file: seq<int>, k: nat, val: int)
    requires HasCode(file, k, val) && IsInt(val)
    ensures ValueAt(file, k) == val
    ensures val >= 0 ==> Number(file[k], file[k + 1], file[k + 2], file[k + 3]) == val
  {
    var low := Number(file[k], file[k + 1], file[k + 2], file[k + 3]);
    Digits(val);
    var q := val / 0x1_0000_0000;
    assert val == low + q * 0x1_0000_0000;
    assert 0 <= low < 0x1_0000_0000;
    assert q == if val >= 0 then 0 else -1;
    WrapIntShift(low, q);
  }

  lemma {:induction false} Digits(val: int)
    ensures val == val / 0x1_0000_0000 * 0x1_0000_0000
                   + Number(val / 0x100_0000 % 256, val / 0x1_0000 % 256, val / 0x100 % 256, val % 256)
  {
    var x := val / 0x100;
    var y := x / 0x100;
    var w := y / 0x100;
    assert y == val / 0x1_0000 && w == val / 0x100_0000 && w / 0x100 == val / 0x1_0000_0000;
  }

  /** `puttzcode`: the four bytes, each from an arithmetic shift. */
  method PutTzCode(val: int, fp: seq<int>) returns (fp': seq<int>)
    ensures fp' == fp + Code(val)
  {
    fp' := fp;
    var shift := 24;
    while shift >= 0
      invariant shift in {24, 16, 8, 0, -8}
      invariant fp' == fp + Code(val)[..3 - shift / 8]
    {
      var c := val / (if shift == 24 then 0x100_0000 else if shift == 16 then 0x1_0000 else if shift == 8 then 0x100
                      else 1);
      fp' := fp' + [c % 256];
      shift := shift - 8;
    }
  }

  /** `tzdecode`. */
  method TzDecode(code: seq<int>) returns (result: int)
    requires |code| == 4
    ensures result == Number(code[0], code[1], code[2], code[3])
  {
    result := 0;
    var i := 0;
    while i < 4
      invariant 0 <= i <= 4
      invariant result == if i == 0 then 0 else if i == 1 then code[0] else if i == 2 then 0x100 * code[0] + code[1]
                          else if i == 3 then 0x1_0000 * code[0] + 0x100 * code[1] + code[2]
                          else Number(code[0], code[1], code[2], code[3])
    {
      result := result * 256 + code[i];
      i := i + 1;
    }
  }

  // ---------------------------------------------------------------- the file as a whole

  function Codes(xs: seq<int>): (r: seq<int>)
    ensures |r| == 4 * |xs|
  {
    if xs == [] then [] else Codes(xs[..|xs| - 1]) + Code(xs[|xs| - 1])
  }

  function InfoCode(info: TypeInfo): (r: seq<int>)
    ensures |r| == 6
  {
    Code(info.gmtOff) + [if info.isDst then 1 else 0, info.abbrind]
  }

  function InfoBytes(infos: seq<TypeInfo>): (r: seq<int>)
    ensures |r| == 6 * |infos|
  {
    if infos == [] then [] else InfoBytes(infos[..|infos| - 1]) + InfoCode(infos[|infos| - 1])
  }

  function CharBytes(s: string): (r: seq<int>)
    ensures |r| == |s|
  {
    seq(|s|, i requires 0 <= i < |s| => s[i] as int % 256)
  }

  function Header(z: ZoneData): (r: seq<int>)
    ensures |r| == 44
  {
    seq(RESERVED, _ => 0) + Code(|z.ats|) + Code(|z.infos|) + Code(|z.chars|)
  }

  function Encode(z: ZoneData): seq<int> {
    Header(z) + (Codes(z.ats) + (z.kinds + (InfoBytes(z.infos) + CharBytes(z.chars))))
  }

  lemma {:induction false} CodesAt(xs: seq<int>, i: nat)
    requires i < |xs|
    ensures HasCode(Codes(xs), 4 * i, xs[i])
  {
    if i < |xs| - 1 {
      CodesAt(xs[..|xs| - 1], i);
    }
  }

  lemma {:induction false} InfosAt(infos: seq<TypeInfo>, i: nat)
    requires i < |infos|
    ensures HasInfo(InfoBytes(infos), 6 * i, infos[i])
  {
    if i < |infos| - 1 {
      InfosAt(infos[..|infos| - 1], i);
    }
  }

  ghost predicate HasInfo(file: seq<int>, k: nat, info: TypeInfo) {
    k + 6 <= |file| && HasCode(file, k, info.gmtOff) && file[k + 4] == (if info.isDst then 1 else 0)
      && file[k + 5] == info.abbrind
  }

  /** Five parts in a row can each be cut out again. */
  lemma {:induction false} Parts(h: seq<int>, c: seq<int>, k: seq<int>, n: seq<int>, s: seq<int>, file: seq<int>)
    requires file == h + (c + (k + (n + s)))
    ensures var p1 := |h|;
            var p2 := p1 + |c|;
            var p3 := p2 + |k|;
            var p4 := p3 + |n|;
            && |file| == p4 + |s|
            && file[..p1] == h && file[p1..p2] == c && file[p2..p3] == k && file[p3..p4] == n && file[p4..] == s
  {
    var r1, r2, r3 := c + (k + (n + s)), k + (n + s), n + s;
    assert file[|h|..] == r1;
    assert file[|h| + |c|..] == r1[|c|..] == r2;
    assert file[|h| + |c| + |k|..] == r2[|k|..] == r3;
  }

  /** Where the format puts the numbers of the header... */
  ghost predicate HeaderLaidOut(file: seq<int>, z: ZoneData) {
    && |file| == 44 + 5 * |z.ats| + 6 * |z.infos| + |z.chars|
    && ValueAt(file, 32) == |z.ats| && ValueAt(file, 36) == |z.infos| && ValueAt(file, 40) == |z.chars|
  }

  /** ...the transition times... */
  ghost predicate TimesLaidOut(file: seq<int>, z: ZoneData)
    requires |file| >= 44 + 4 * |z.ats|
  {
    forall i {:trigger z.ats[i]} | 0 <= i < |z.ats| :: ValueAt(file, 44 + 4 * i) == z.ats[i]
  }

  /** ...the type of each, the types themselves, and their abbreviations. */
  ghost predicate TypesLaidOut(file: seq<int>, z: ZoneData)
    requires HeaderLaidOut(file, z) && |z.ats| == |z.kinds|
  {
    var n := |z.ats|;
    && (forall i | 0 <= i < n :: file[44 + 4 * n + i] == z.kinds[i])
    && (forall i | 0 <= i < |z.infos| :: InfoLaidOut(file, 44 + 5 * n + 6 * i, z.infos[i]))
    && (forall i | 0 <= i < |z.chars| :: file[44 + 5 * n + 6 * |z.infos| + i] == z.chars[i] as int)
  }

  ghost predicate InfoLaidOut(file: seq<int>, k: nat, info: TypeInfo) {
    && k + 6 <= |file| && ValueAt(file, k) == info.gmtOff
    && file[k + 4] == (if info.isDst then 1 else 0) && file[k + 5] == info.abbrind
  }

  lemma {:induction false} HeaderCodes(zeros: seq<int>, a: seq<int>, b: seq<int>, c: seq<int>, rest: seq<int>)
    requires |zeros| == 32 && |a| == |b| == |c| == 4
    ensures var file := zeros + a + b + c + rest;
            forall i | 0 <= i < 4 :: file[32 + i] == a[i] && file[36 + i] == b[i] && file[40 + i] == c[i]
  {
  }

  lemma {:induction false} EncodeHeader(z: ZoneData)
    requires WellFormed(z)
    ensures HeaderLaidOut(Encode(z), z)
    ensures Number(Encode(z)[32], Encode(z)[33], Encode(z)[34], Encode(z)[35]) == |z.ats|
  {
    var file := Encode(z);
    HeaderCodes(seq(RESERVED, _ => 0), Code(|z.ats|), Code(|z.infos|), Code(|z.chars|),
                Codes(z.ats) + (z.kinds + (InfoBytes(z.infos) + CharBytes(z.chars))));
    assert HasCode(file, 32, |z.ats|) && HasCode(file, 36, |z.infos|) && HasCode(file, 40, |z.chars|);
    CodeRoundTrip(file, 32, |z.ats|);
    CodeRoundTrip(file, 36, |z.infos|);
    CodeRoundTrip(file, 40, |z.chars|);
  }

  lemma {:induction false} CodeMoves(part: seq<int>, i: nat, file: seq<int>, k: nat, val: int)
    requires HasCode(part, i, val) && k + |part| <= |file| && file[k..k + |part|] == part
    ensures HasCode(file, k + i, val)
  {
    PartAt(file, k, k + |part|, i);
    PartAt(file, k, k + |part|, i + 1);
    PartAt(file, k, k + |part|, i + 2);
    PartAt(file, k, k + |part|, i + 3);
  }

  lemma {:induction false} TimeAt(file: seq<int>, k: nat, ats: seq<int>, i: nat)
    requires i < |ats| && k + 4 * |ats| <= |file| && file[k..k + 4 * |ats|] == Codes(ats) && IsInt(ats[i])
    ensures ValueAt(file, k + 4 * i) == ats[i]
  {
    CodesAt(ats, i);
    CodeMoves(Codes(ats), 4 * i, file, k, ats[i]);
    CodeRoundTrip(file, k + 4 * i, ats[i]);
  }

  lemma {:induction false} InfoAt(file: seq<int>, k: nat, infos: seq<TypeInfo>, i: nat)
    requires i < |infos| && k + 6 * |infos| <= |file| && file[k..k + 6 * |infos|] == InfoBytes(infos)
             && IsInt(infos[i].gmtOff)
    ensures InfoLaidOut(file, k + 6 * i, infos[i])
  {
    InfosAt(infos, i);
    CodeMoves(InfoBytes(infos), 6 * i, file, k, infos[i].gmtOff);
    CodeRoundTrip(file, k + 6 * i, infos[i].gmtOff);
    assert file[k + 6 * i + 4] == InfoBytes(infos)[6 * i + 4] && file[k + 6 * i + 5] == InfoBytes(infos)[6 * i + 5];
  }

  lemma {:induction false} PartAt(file: seq<int>, a: nat, b: nat, i: nat)
    requires i < b - a && b <= |file|
    ensures file[a + i] == file[a..b][i]
  {
  }

  lemma {:induction false} CharAt(file: seq<int>, k: nat, chars: string, i: nat)
    requires i < |chars| && k <= |file| && file[k..] == CharBytes(chars) && chars[i] as int < 256
    ensures k + i < |file| && file[k + i] == chars[i] as int
  {
    PartAt(file, k, |file|, i);
  }

  lemma {:induction false} TypesAt(file: seq<int>, z: ZoneData)
    requires WellFormed(z) && HeaderLaidOut(file, z)
    requires var p := 44 + 4 * |z.ats|;
             var q := p + |z.ats|;
             var r := q + 6 * |z.infos|;
             r <= |file| && file[p..q] == z.kinds && file[q..r] == InfoBytes(z.infos) && file[r..] == CharBytes(z.chars)
    ensures TypesLaidOut(file, z)
  {
    var p := 44 + 4 * |z.ats|;
    var q := p + |z.ats|;
    var r := q + 6 * |z.infos|;
    forall i | 0 <= i < |z.ats| ensures file[p + i] == z.kinds[i] { PartAt(file, p, q, i); }
    forall i | 0 <= i < |z.infos| ensures InfoLaidOut(file, q + 6 * i, z.infos[i]) { InfoAt(file, q, z.infos, i); }
    forall i | 0 <= i < |z.chars| ensures file[r + i] == z.chars[i] as int { CharAt(file, r, z.chars, i); }
  }

  /** Every datum of the tables stands at its place in the file. */
  lemma {:induction false} EncodeLaidOut(z: ZoneData)
    requires WellFormed(z)
    ensures HeaderLaidOut(Encode(z), z) && TimesLaidOut(Encode(z), z) && TypesLaidOut(Encode(z), z)
  {
    hide Encode, HeaderLaidOut, TypesLaidOut, ValueAt;
    var file, n := Encode(z), |z.ats|;
    EncodeHeader(z);
    EncodeParts(z);
    forall i | 0 <= i < n ensures ValueAt(file, 44 + 4 * i) == z.ats[i] { TimeAt(file, 44, z.ats, i); }
    TypesAt(file, z);
  }

  /** The parts behind the header. */
  lemma {:induction false} EncodeParts(z: ZoneData)
    requires WellFormed(z)
    ensures var file := Encode(z);
            var p := 44 + 4 * |z.ats|;
            var q := p + |z.ats|;
            var r := q + 6 * |z.infos|;
            && r <= |file| && file[44..p] == Codes(z.ats) && file[p..q] == z.kinds && file[q..r] == InfoBytes(z.infos)
            && file[r..] == CharBytes(z.chars)
  {
    Parts(Header(z), Codes(z.ats), z.kinds, InfoBytes(z.infos), CharBytes(z.chars), Encode(z));
  }

  /** The tables as the writer sees them. */
  ghost function Data(tr: ZoneTables.TransitionTable, ty: ZoneTables.TypeTable): ZoneData
    reads tr, tr.ats, tr.types, ty, ty.gmtoffs, ty.isdsts, ty.abbrinds, ty.chars
    requires tr.Valid() && ty.Shape()
  {
    ZoneData(tr.ats[..tr.timecnt], tr.types[..tr.timecnt],
             Infos(ty.gmtoffs[..ty.typecnt], ty.isdsts[..ty.typecnt], ty.abbrinds[..ty.typecnt]),
               ty.chars[..ty.charcnt])
  }

  function Infos(gmtoffs: seq<int>, isdsts: seq<bool>, abbrinds: seq<int>): (r: seq<TypeInfo>)
    requires |gmtoffs| == |isdsts| == |abbrinds|
    ensures |r| == |gmtoffs|
    ensures forall i | 0 <= i < |r| :: r[i] == TypeInfo(gmtoffs[i], isdsts[i], ZoneTables.Unsigned(abbrinds[i]))
  {
    seq(|gmtoffs|, i requires 0 <= i < |gmtoffs| => TypeInfo(gmtoffs[i], isdsts[i], ZoneTables.Unsigned(abbrinds[i])))
  }

  /** `writezone`: seek past the reserved bytes of an empty file and write. */
  method WriteZone(tr: ZoneTables.TransitionTable, ty: ZoneTables.TypeTable) returns (file: seq<int>)
    requires tr.Valid() && ty.Shape()
    ensures file == Encode(Data(tr, ty))
  {
    file := seq(RESERVED, _ => 0);
    file := PutTzCode(tr.timecnt, file);
    file := PutTzCode(ty.typecnt, file);
    file := PutTzCode(ty.charcnt, file);
    ghost var z := Data(tr, ty);
    ghost var head := file;
    file := WriteTimes(tr, file);
    if tr.timecnt > 0 {
      file := file + tr.types[..tr.timecnt];
    }
    ghost var front := file;
    assert front == head + Codes(z.ats) + z.kinds;
    file := WriteInfos(ty, file);
    ghost var most := file;
    if ty.charcnt != 0 {
      file := file + CharBytes(ty.chars[..ty.charcnt]);
    }
    assert file == most + CharBytes(z.chars);
    Regroup(head, Codes(z.ats), z.kinds, InfoBytes(z.infos), CharBytes(z.chars));
  }

  lemma {:induction false} Regroup(a: seq<int>, b: seq<int>, c: seq<int>, d: seq<int>, e: seq<int>)
    ensures a + b + c + d + e == a + (b + (c + (d + e)))
  {
  }

  method WriteTimes(tr: ZoneTables.TransitionTable, head: seq<int>) returns (file: seq<int>)
    requires tr.Valid()
    ensures file == head + Codes(tr.ats[..tr.timecnt])
  {
    file := head;
    var i := 0;
    while i < tr.timecnt
      invariant 0 <= i <= tr.timecnt && file == head + Codes(tr.ats[..i])
    {
      file := PutTzCode(tr.ats[i], file);
      assert tr.ats[..i + 1][..i] == tr.ats[..i];
      i := i + 1;
    }
  }

  method WriteInfos(ty: ZoneTables.TypeTable, head: seq<int>) returns (file: seq<int>)
    requires ty.Shape()
    ensures file == head
            + InfoBytes(Infos(ty.gmtoffs[..ty.typecnt], ty.isdsts[..ty.typecnt], ty.abbrinds[..ty.typecnt]))
  {
    file := head;
    var i := 0;
    ghost var infos := Infos(ty.gmtoffs[..ty.typecnt], ty.isdsts[..ty.typecnt], ty.abbrinds[..ty.typecnt]);
    while i < ty.typecnt
      invariant 0 <= i <= ty.typecnt && file == head + InfoBytes(infos[..i])
    {
      file := PutInfo(ty.gmtoffs[i], ty.isdsts[i], ty.abbrinds[i], file);
      InfoBytesStep(infos, i);
      i := i + 1;
    }
    assert infos[..i] == infos;
  }

  lemma {:induction false} InfoBytesStep(infos: seq<TypeInfo>, i: nat)
    requires i < |infos|
    ensures InfoBytes(infos[..i + 1]) == InfoBytes(infos[..i]) + InfoCode(infos[i])
  {
    assert infos[..i + 1][..i] == infos[..i];
  }

  method PutInfo(gmtoff: int, isdst: bool, abbrind: int, fp: seq<int>) returns (fp': seq<int>)
    ensures fp' == fp + InfoCode(TypeInfo(gmtoff, isdst, ZoneTables.Unsigned(abbrind)))
  {
    fp' := PutTzCode(gmtoff, fp);
    fp' := fp' + [if isdst then 1 else 0];
    fp' := fp' + [ZoneTables.Unsigned(abbrind)];
  }

  datatype Shown = Shown(timecnt: int, times: seq<int>) | ReadError

  /** The part of zdump's `main` that reads transitions: the times whose surroundings it shows, none
      after the first that is later than the cutoff, if there is one. */
  method ReadTransitions(file: seq<int>, hasCutoff: bool, cutTime: int) returns (r: Shown)
    ensures |file| < 36 ==> r == ReadError
    ensures |file| >= 36 ==> r == Transitions(file, hasCutoff, cutTime)
  {
    var pos := RESERVED;
    if |file| < pos + 4 {
      return ReadError;
    }
    var n := TzDecode(file[pos..pos + 4]);
    pos := pos + 4 + 8;
    var cnt := n;
    var times := [];
    while n > 0
      invariant pos >= 44 && n <= cnt && (cnt >= 0 ==> n >= 0)
      invariant Transitions(file, hasCutoff, cutTime) == More(file, pos, n, hasCutoff, cutTime, times, cnt)
      decreases n
    {
      if |file| < pos + 4 {
        return ReadError;
      }
      var code := TzDecode(file[pos..pos + 4]);
      pos := pos + 4;
      var t := WrapInt(code);
      if hasCutoff && t > cutTime {
        break;
      }
      times := times + [t];
      n := n - 1;
    }
    r := Shown(cnt, times);
  }

  /** The reader as a function. */
  function Transitions(file: seq<int>, hasCutoff: bool, cutTime: int): Shown
    requires |file| >= 36
  {
    var n := Number(file[32], file[33], file[34], file[35]);
    More(file, 44, n, hasCutoff, cutTime, [], n)
  }

  function More(file: seq<int>, pos: nat, n: int, hasCutoff: bool, cutTime: int, times: seq<int>, cnt: int): Shown
    decreases n
  {
    if n <= 0 then Shown(cnt, times)
    else if |file| < pos + 4 then ReadError
    else if hasCutoff && ValueAt(file, pos) > cutTime then Shown(cnt, times)
    else More(file, pos + 4, n - 1, hasCutoff, cutTime, times + [ValueAt(file, pos)], cnt)
  }

  /** The times up to the first that lies beyond the cutoff. */
  function UpTo(ats: seq<int>, hasCutoff: bool, cutTime: int): seq<int> {
    if ats == [] || (hasCutoff && ats[0] > cutTime) then [] else [ats[0]] + UpTo(ats[1..], hasCutoff, cutTime)
  }

  lemma {:induction false} MoreReadsTimes(file: seq<int>, z: ZoneData, i: nat, hasCutoff: bool, cutTime: int,
                                          times: seq<int>)
    requires i <= |z.ats| && |file| >= 44 + 4 * |z.ats| && TimesLaidOut(file, z)
    ensures More(file, 44 + 4 * i, |z.ats| - i, hasCutoff, cutTime, times, |z.ats|)
            == Shown(|z.ats|, times + UpTo(z.ats[i..], hasCutoff, cutTime))
    decreases |z.ats| - i
  {
    if i < |z.ats| {
      assert ValueAt(file, 44 + 4 * i) == z.ats[i];
      if !(hasCutoff && z.ats[i] > cutTime) {
        MoreReadsTimes(file, z, i + 1, hasCutoff, cutTime, times + [z.ats[i]]);
        assert z.ats[i..][1..] == z.ats[i + 1..];
        assert times + [z.ats[i]] + UpTo(z.ats[i + 1..], hasCutoff, cutTime)
            == times + ([z.ats[i]] + UpTo(z.ats[i + 1..], hasCutoff, cutTime));
      }
    }
  }

  lemma {:induction false} UpToAll(ats: seq<int>, cutTime: int)
    ensures UpTo(ats, false, cutTime) == ats
  {
    if ats != [] { UpToAll(ats[1..], cutTime); }
  }

  lemma {:induction false} ReadEncoded(z: ZoneData, hasCutoff: bool, cutTime: int)
    requires WellFormed(z)
    ensures |Encode(z)| >= 44
    ensures Transitions(Encode(z), hasCutoff, cutTime) == Shown(|z.ats|, UpTo(z.ats, hasCutoff, cutTime))
  {
    EncodeHeader(z);
    EncodeLaidOut(z);
    MoreReadsTimes(Encode(z), z, 0, hasCutoff, cutTime, []);
    var shown := UpTo(z.ats, hasCutoff, cutTime);
    assert z.ats[0..] == z.ats && [] + shown == shown;
  }

  /** Reading back what was written yields the count and then exactly the transition times, in order;
      with a cutoff, those before the first that is later. */
  lemma {:induction false} WriteReadRoundTrip(z: ZoneData, hasCutoff: bool, cutTime: int)
    requires WellFormed(z)
    ensures |Encode(z)| >= 44
    ensures Transitions(Encode(z), false, cutTime) == Shown(|z.ats|, z.ats)
    ensures Transitions(Encode(z), hasCutoff, cutTime) == Shown(|z.ats|, UpTo(z.ats, hasCutoff, cutTime))
  {
    ReadEncoded(z, hasCutoff, cutTime);
    ReadEncoded(z, false, cutTime);
    UpToAll(z.ats, cutTime);
  }
}
