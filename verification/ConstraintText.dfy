/** Combination constraints as they are written: the text of two lists of words is converted to those lists. */
module ConstraintText {
  import opened CTypes
  import opened Options
  import opened Words
  import opened WordIndex
  import opened Scanner
  import opened Constraints

  /** How a word is written: behind the prefix or in front of the suffix that it requires. */
  function Phrase(words: seq<Word>, i: nat): string
    requires i < |words|
  {
    match words[i].prefix
    case Needs(p) => if p < |words| then words[p].outputName + " " + words[i].outputName else words[i].outputName
    case _ =>
      match words[i].suffix
      case Needs(s) => if s < |words| then words[i].outputName + " " + words[s].outputName else words[i].outputName
      case _ => words[i].outputName
  }

  /** A word that is found where it is written, whatever follows. */
  ghost predicate Findable(words: seq<Word>, i: nat) {
    && i < |words| && Phrase(words, i) != "" && Phrase(words, i)[0] != ' '
    && Index(words, Phrase(words, i)) == Found(i, "")
    && forall rest :: Index(words, Phrase(words, i) + " " + rest) == Found(i, rest)
  }

  // ---------------------------------------------------------------- which tables have such words

  /** Names that are not empty and do not begin with a blank. */
  predicate NamesProper(words: seq<Word>) {
    forall i | 0 <= i < |words| :: words[i].outputName != "" && words[i].outputName[0] != ' '
  }

  /** A main word whose prefix is a prefix, or whose suffix requires no prefix. */
  predicate Written(words: seq<Word>, i: nat)
    requires i < |words|
  {
    match words[i].prefix
    case IsAffix => false
    case Needs(p) => !words[i].suffix.IsAffix? && p < |words| && words[p].prefix == IsAffix && !words[p].suffix.IsAffix?
    case NoAffix =>
      match words[i].suffix
      case IsAffix => false
      case Needs(s) => s < |words| && words[s].prefix == NoAffix
      case NoAffix => true
  }

  /** No entry that the search passes on its way to the word, or to its prefix or suffix, has a name that begins
      what is written or is begun by it. */
  predicate Recognised(words: seq<Word>, i: nat) {
    && i < |words| && Written(words, i)
    && var w := words[i];
       if w.prefix.Needs? then
         Clear(words, w.prefix.entry, Phrase(words, i), None, None)
           && Clear(words, i, w.outputName, Some(w.prefix.entry), None)
       else
         && Clear(words, i, Phrase(words, i), None, None)
         && (w.suffix.Needs?
             ==> Clear(words, w.suffix.entry, words[w.suffix.entry].outputName, None, Some(w.suffix.entry)))
  }

  lemma {:induction false} PlainFindableIff(words: seq<Word>, i: nat)
    requires NamesProper(words) && i < |words| && words[i].prefix == NoAffix && words[i].suffix == NoAffix
    ensures Findable(words, i) <==> Clear(words, i, words[i].outputName, None, None)
  {
    hide Index, NothingEarlier, Clear;
    var t := words[i].outputName;
    FindsPlainWordIff(words, i, "", t);
    forall rest
      ensures Index(words, t + " " + rest) == Found(i, rest) <==> NothingEarlier(words, i, t + " " + rest, None, None)
    {
      FindsPlainWordIff(words, i, rest, t + " " + rest);
    }
    NeverEarlierIff(words, i, t, None, None);
  }

  lemma {:induction false} PrefixedFindableIff(words: seq<Word>, i: nat, p: nat)
    requires NamesProper(words) && i < |words| && words[i].prefix == Needs(p) && Written(words, i)
    ensures Findable(words, i)
            <==> Clear(words, p, Phrase(words, i), None, None) && Clear(words, i, words[i].outputName, Some(p), None)
  {
    hide Index, NothingEarlier, Clear, NeverEarlier;
    var n, m := words[p].outputName, words[i].outputName;
    var t := n + " " + m;
    FindsPrefixedWordIff(words, i, p, "", m, t);
    forall rest
      ensures Index(words, t + " " + rest) == Found(i, rest)
              <==> NothingEarlier(words, p, t + " " + rest, None, None) &&
                   NothingEarlier(words, i, m + " " + rest, Some(p), None)
    {
      assert n + " " + (m + " " + rest) == t + " " + rest;
      FindsPrefixedWordIff(words, i, p, rest, m + " " + rest, t + " " + rest);
    }
    NeverEarlierIff(words, p, t, None, None);
    NeverEarlierIff(words, i, m, Some(p), None);
    NeverBoth(words, i, p, t, i, m, None, Some(p), None);
  }

  lemma {:induction false} SuffixedFindableIff(words: seq<Word>, i: nat, s: nat)
    requires NamesProper(words) && i < |words| && words[i].prefix == NoAffix && words[i].suffix == Needs(s)
             && Written(words, i)
    ensures Findable(words, i)
            <==> Clear(words, i, Phrase(words, i), None, None) && Clear(words, s, words[s].outputName, None, Some(s))
  {
    hide Index, NothingEarlier, Clear, NeverEarlier;
    var m, n := words[i].outputName, words[s].outputName;
    var t := m + " " + n;
    FindsSuffixedWordIff(words, i, s, "", n, t);
    forall rest
      ensures Index(words, t + " " + rest) == Found(i, rest)
              <==> NothingEarlier(words, i, t + " " + rest, None, None) &&
                   NothingEarlier(words, s, n + " " + rest, None, Some(s))
    {
      assert m + " " + (n + " " + rest) == t + " " + rest;
      FindsSuffixedWordIff(words, i, s, rest, n + " " + rest, t + " " + rest);
    }
    NeverEarlierIff(words, i, t, None, None);
    NeverEarlierIff(words, s, n, None, Some(s));
    NeverBoth(words, i, i, t, s, n, None, None, Some(s));
  }

  /** If each text is found exactly where nothing is earlier at two positions, all are found exactly where nothing
      ever is. */
  lemma {:induction false} NeverBoth(words: seq<Word>, i: nat, j: nat, t: string, k: nat, u: string, none: Option<nat>,
                                     prefix: Option<nat>, suffix: Option<nat>)
    requires Index(words, t) == Found(i, "")
             <==> NothingEarlier(words, j, t, none, none) && NothingEarlier(words, k, u, prefix, suffix)
    requires forall rest ::
               Index(words, t + " " + rest) == Found(i, rest)
               <==> NothingEarlier(words, j, t + " " + rest, none, none) &&
                    NothingEarlier(words, k, u + " " + rest, prefix, suffix)
    ensures (Index(words, t) == Found(i, "") && forall rest :: Index(words, t + " " + rest) == Found(i, rest))
            <==> NeverEarlier(words, j, t, none, none) && NeverEarlier(words, k, u, prefix, suffix)
  {
    hide Index, NothingEarlier;
  }

  lemma {:induction false} FoundIsWritten(words: seq<Word>, text: string)
    ensures var r := Index(words, text); r.Found? ==> Written(words, r.entry)
  {
  }

  /** So the table decides which words are found where they are written. */
  lemma {:induction false} FindableIff(words: seq<Word>, i: nat)
    requires NamesProper(words) && i < |words|
    ensures Findable(words, i) <==> Recognised(words, i)
  {
    hide Index, Clear;
    FoundIsWritten(words, Phrase(words, i));
    if Written(words, i) {
      if words[i].prefix.Needs? {
        PrefixedFindableIff(words, i, words[i].prefix.entry);
      } else if words[i].suffix.Needs? {
        SuffixedFindableIff(words, i, words[i].suffix.entry);
      } else {
        PlainFindableIff(words, i);
      }
    }
  }

  ghost predicate AllFindable(words: seq<Word>, list: seq<nat>) {
    forall k | 0 <= k < |list| :: Findable(words, list[k])
  }

  /** The names of a list of words, bars between them. */
  function Names(words: seq<Word>, list: seq<nat>): string
    requires list != [] && forall k | 0 <= k < |list| :: list[k] < |words|
  {
    if |list| == 1 then Phrase(words, list[0]) else Phrase(words, list[0]) + " " + ("| " + Names(words, list[1..]))
  }

  function Sign(kind: Kind): string {
    if kind == NotWith then "! " else "& "
  }

  /** A constraint: two lists with a sign between them, or one and an ampersand. */
  function Text(words: seq<Word>, first: seq<nat>, kind: Kind, second: seq<nat>): string
    requires first != [] && (second == [] ==> kind == OnlyWith)
    requires forall k | 0 <= k < |first| :: first[k] < |words|
    requires forall k | 0 <= k < |second| :: second[k] < |words|
  {
    Names(words, first) + " " + (if second == [] then "&" else Sign(kind) + Names(words, second))
  }

  /** A cursor in the last line of a constraint. */
  function On(text: string, file: string): Cursor {
    Cursor(text, false, file)
  }

  lemma {:induction false} StaysOn(text: string, file: string, section: KeywordList)
    requires text == "" || text[0] != ' '
    ensures CheckContinuation(On(text, file), section) == On(text, file)
    ensures CheckContinuation(On(" " + text, file), section) == On(text, file)
  {
    assert (" " + text)[1..] == text;
  }

  /** The head of a text that starts with a name. */
  lemma {:induction false} NameFirst(words: seq<Word>, i: nat, more: string)
    requires Findable(words, i)
    ensures SkipBlank(Phrase(words, i) + more) == Phrase(words, i) + more
    ensures Phrase(words, i) + more != "" && (Phrase(words, i) + more)[0] != ' '
  {
    assert (Phrase(words, i) + more)[0] == Phrase(words, i)[0];
  }

  lemma {:induction false} NamesFirst(words: seq<Word>, list: seq<nat>, more: string)
    requires list != [] && AllFindable(words, list)
    ensures var t := Names(words, list) + more; t != "" && t[0] != ' '
  {
    assert Findable(words, list[0]);
    var name := Phrase(words, list[0]);
    assert (Names(words, list) + more)[0] == name[0];
  }

  /** The last word of the second list. */
  lemma {:induction false} LastWord(words: seq<Word>, i: nat, file: string, section: KeywordList)
    requires Findable(words, i)
    ensures Convert(words, On(Phrase(words, i), file), section, false)
            == Stored([i], 0, NotWith, true, false, Scan("", file))
  {
    hide Index;
    NameFirst(words, i, "");
    assert Phrase(words, i) + "" == Phrase(words, i);
    StaysOn("", file, section);
  }

  /** A word and a bar. */
  lemma {:induction false} WordAndBar(words: seq<Word>, i: nat, more: string, file: string, section: KeywordList,
                                      firstHalf: bool)
    requires Findable(words, i) && (more == "" || more[0] != ' ')
    ensures Convert(words, On(Phrase(words, i) + " " + ("| " + more), file), section, firstHalf)
            == InFront(i, Convert(words, On(more, file), section, firstHalf))
  {
    hide Index;
    var name, rest := Phrase(words, i), "| " + more;
    NameFirst(words, i, " " + rest);
    assert name + (" " + rest) == name + " " + rest;
    StaysOn(rest, file, section);
    assert rest[1..] == " " + more;
    StaysOn(more, file, section);
  }

  /** A word and the sign between the halves. */
  lemma {:induction false} WordAndSign(words: seq<Word>, i: nat, kind: Kind, more: string, file: string,
                                       section: KeywordList)
    requires Findable(words, i) && more != "" && more[0] != ' '
    ensures Convert(words, On(Phrase(words, i) + " " + (Sign(kind) + more), file), section, true)
            == EndsFirst(i, kind, Convert(words, On(more, file), section, false))
  {
    hide Index;
    var name, rest := Phrase(words, i), Sign(kind) + more;
    NameFirst(words, i, " " + rest);
    assert name + (" " + rest) == name + " " + rest;
    StaysOn(rest, file, section);
    assert rest[1..] == " " + more && (" " + more)[1..] == more;
    StaysOn(more, file, section);
  }

  /** A word and a last ampersand. */
  lemma {:induction false} WordAndEnd(words: seq<Word>, i: nat, file: string, section: KeywordList)
    requires Findable(words, i)
    ensures Convert(words, On(Phrase(words, i) + " " + "&", file), section, true)
            == Stored([i], 1, OnlyWith, true, false, Scan("", file))
  {
    hide Index;
    var name := Phrase(words, i);
    NameFirst(words, i, " " + "&");
    assert name + (" " + "&") == name + " " + "&";
    StaysOn("&", file, section);
  }

  /** The second list. */
  lemma {:induction false} SecondList(words: seq<Word>, list: seq<nat>, file: string, section: KeywordList)
    requires list != [] && AllFindable(words, list)
    ensures var v := Convert(words, On(Names(words, list), file), section, false);
            v.list == list && v.ok && !v.cutOff && v.next == Scan("", file)
    decreases |list|
  {
    hide Convert, Index;
    assert Findable(words, list[0]);
    if |list| == 1 {
      LastWord(words, list[0], file, section);
      assert list == [list[0]];
    } else {
      var more := Names(words, list[1..]);
      NamesFirst(words, list[1..], "");
      assert more + "" == more;
      WordAndBar(words, list[0], more, file, section, false);
      SecondList(words, list[1..], file, section);
      assert [list[0]] + list[1..] == list;
    }
  }

  /** A first list of one word. */
  lemma {:induction false} OneFirst(words: seq<Word>, i: nat, kind: Kind, second: seq<nat>, file: string,
                                    section: KeywordList)
    requires Findable(words, i) && AllFindable(words, second) && (second == [] ==> kind == OnlyWith)
    ensures Convert(words, On(Text(words, [i], kind, second), file), section, true)
            == Stored([i] + second, 1, kind, true, false, Scan("", file))
  {
    hide Convert, Index;
    if second == [] {
      WordAndEnd(words, i, file, section);
      assert [i] + second == [i];
    } else {
      NamesFirst(words, second, "");
      assert Names(words, second) + "" == Names(words, second);
      WordAndSign(words, i, kind, Names(words, second), file, section);
      SecondList(words, second, file, section);
    }
  }

  lemma {:induction false} BarAssociates(name: string, more: string, tail: string)
    ensures (name + " " + ("| " + more)) + " " + tail == name + " " + ("| " + (more + " " + tail))
    ensures more + (" " + tail) == more + " " + tail
  {
  }

  /** A first list of more words starts with a word and a bar. */
  lemma {:induction false} TextStep(words: seq<Word>, first: seq<nat>, kind: Kind, second: seq<nat>)
    requires |first| > 1 && AllFindable(words, first) && AllFindable(words, second)
             && (second == [] ==> kind == OnlyWith)
    ensures var rest := Text(words, first[1..], kind, second);
            && Text(words, first, kind, second) == Phrase(words, first[0]) + " " + ("| " + rest)
            && rest != "" && rest[0] != ' '
  {
    hide Index;
    var tail := if second == [] then "&" else Sign(kind) + Names(words, second);
    var name, more := Phrase(words, first[0]), Names(words, first[1..]);
    NamesFirst(words, first[1..], " " + tail);
    BarAssociates(name, more, tail);
  }

  lemma {:induction false} TextConverts(words: seq<Word>, first: seq<nat>, kind: Kind, second: seq<nat>, file: string,
                                        section: KeywordList)
    requires first != [] && AllFindable(words, first) && AllFindable(words, second)
             && (second == [] ==> kind == OnlyWith)
    ensures Convert(words, On(Text(words, first, kind, second), file), section, true)
            == Stored(first + second, |first|, kind, true, false, Scan("", file))
    decreases |first|
  {
    hide Convert, Index, Text, Phrase, Names;
    assert Findable(words, first[0]);
    if |first| == 1 {
      assert first == [first[0]];
      OneFirst(words, first[0], kind, second, file, section);
    } else {
      TextStep(words, first, kind, second);
      WordAndBar(words, first[0], Text(words, first[1..], kind, second), file, section, true);
      TextConverts(words, first[1..], kind, second, file, section);
      assert [first[0]] + (first[1..] + second) == first + second;
    }
  }

  predicate AllRecognised(words: seq<Word>, list: seq<nat>) {
    forall k | 0 <= k < |list| :: Recognised(words, list[k])
  }

  /** A constraint written out from words that the table lets be recognised is converted to its two lists, the
      place between them and its kind. */
  lemma {:induction false} ConstraintReadsBack(words: seq<Word>, first: seq<nat>, kind: Kind, second: seq<nat>,
                                               file: string, section: KeywordList)
    requires NamesProper(words) && AllRecognised(words, first) && AllRecognised(words, second)
    requires first != [] && (second == [] ==> kind == OnlyWith)
    ensures Convert(words, On(Text(words, first, kind, second), file), section, true)
            == Stored(first + second, |first|, kind, true, false, Scan("", file))
  {
    hide Convert, Text, Recognised, Findable;
    forall k | 0 <= k < |first| ensures Findable(words, first[k]) { RecognisedFindable(words, first[k]); }
    forall k | 0 <= k < |second| ensures Findable(words, second[k]) { RecognisedFindable(words, second[k]); }
    TextConverts(words, first, kind, second, file, section);
  }

  lemma {:induction false} RecognisedFindable(words: seq<Word>, i: nat)
    requires NamesProper(words) && Recognised(words, i)
    ensures Findable(words, i)
  {
    hide Clear, Findable, Written;
    FindableIff(words, i);
  }

  // ---------------------------------------------------------------- constraints in error

  /** A word and a sign behind it: the first list goes on, or ends, at a bar, an exclamation mark or an ampersand, the
      second at a bar only; any other sign, and in the first list none at all, is an error. */
  lemma {:induction false} SignRefusedIff(words: seq<Word>, i: nat, sign: char, more: string, file: string,
                                          section: KeywordList, firstHalf: bool)
    requires NamesProper(words) && Recognised(words, i) && sign != ' ' && (more == "" || more[0] != ' ')
    ensures Convert(words, On(Phrase(words, i), file), section, true) == Failed([i], file)
    ensures var v := Convert(words, On(Phrase(words, i) + " " + ([sign] + (" " + more)), file), section, firstHalf);
            var rest := Convert(words, On(more, file), section, firstHalf && sign == '|');
            if sign == '|' || (firstHalf && (sign == '!' || (sign == '&' && more != ""))) then
              v.list == [i] + rest.list && v.ok == rest.ok
            else if firstHalf && sign == '&' then v == Stored([i], 1, OnlyWith, true, false, Scan("", file))
            else v == Failed([i], file)
  {
    hide Index, Clear;
    RecognisedFindable(words, i);
    hide Recognised, Findable;
    NothingBehind(words, i, file, section);
    SignTaken(words, i, sign, more, file, section, firstHalf);
    SignDecides(words, i, sign, more, file, section, firstHalf);
  }

  lemma {:induction false} NothingBehind(words: seq<Word>, i: nat, file: string, section: KeywordList)
    requires Findable(words, i)
    ensures Convert(words, On(Phrase(words, i), file), section, true) == Failed([i], file)
  {
    hide Index;
    NameFirst(words, i, "");
    assert Phrase(words, i) + "" == Phrase(words, i);
    StaysOn("", file, section);
  }

  lemma {:induction false} SignTaken(words: seq<Word>, i: nat, sign: char, more: string, file: string,
                                     section: KeywordList, firstHalf: bool)
    requires Findable(words, i) && sign != ' '
    ensures Convert(words, On(Phrase(words, i) + " " + ([sign] + (" " + more)), file), section, firstHalf)
            == AfterWord(words, i, On([sign] + (" " + more), file), section, firstHalf)
  {
    hide Index, AfterWord;
    var name, rest := Phrase(words, i), [sign] + (" " + more);
    NameFirst(words, i, " " + rest);
    assert name + (" " + rest) == name + " " + rest;
    assert rest[0] == sign;
    StaysOn(rest, file, section);
  }

  lemma {:induction false} SignDecides(words: seq<Word>, i: nat, sign: char, more: string, file: string,
                                       section: KeywordList, firstHalf: bool)
    requires sign != ' ' && (more == "" || more[0] != ' ')
    ensures var v := AfterWord(words, i, On([sign] + (" " + more), file), section, firstHalf);
            var rest := Convert(words, On(more, file), section, firstHalf && sign == '|');
            if sign == '|' || (firstHalf && (sign == '!' || (sign == '&' && more != ""))) then
              v.list == [i] + rest.list && v.ok == rest.ok
            else if firstHalf && sign == '&' then v == Stored([i], 1, OnlyWith, true, false, Scan("", file))
            else v == Failed([i], file)
  {
    hide Index, Convert;
    var t := [sign] + (" " + more);
    assert t[0] == sign && t[1..] == " " + more && (" " + more)[0] == ' ' && (" " + more)[1..] == more;
    StaysOn(more, file, section);
  }

  // ---------------------------------------------------------------- continued lines

  /** The next line of the file, as a constraint that continues takes it up. */
  function NextCursor(file: string, section: KeywordList): Cursor {
    var r := Next(Scan("", file), section);
    Loaded(r.next.cur, r.next.file)
  }

  /** A line broken behind a word is converted as if the next line stood there, unless that is a backslash
      alone. */
  lemma {:induction false} BreakBehindWord(words: seq<Word>, i: nat, file: string, section: KeywordList,
                                           firstHalf: bool)
    requires NamesProper(words) && Recognised(words, i)
    requires var d := NextCursor(file, section); d.text != "" && d.text[0] != ' '
    ensures var d := NextCursor(file, section);
            Convert(words, Cursor(Phrase(words, i) + " ", true, file), section, firstHalf)
            == Convert(words, d.(text := Phrase(words, i) + " " + d.text), section, firstHalf)
  {
    hide Index, Next, Clear;
    RecognisedFindable(words, i);
    var d, name := NextCursor(file, section), Phrase(words, i);
    NameFirst(words, i, " ");
    NameFirst(words, i, " " + d.text);
    assert name + " " + "" == name + " " && name + (" " + d.text) == name + " " + d.text;
    assert Index(words, name + " " + "") == Found(i, "");
    assert CheckContinuation(Cursor("", true, file), section) == d;
    assert CheckContinuation(d, section) == d;
  }

  /** Likewise behind a delimiter. */
  lemma {:induction false} BreakBehindDelimiter(delim: char, file: string, section: KeywordList)
    requires IsDelim(delim)
    requires var d := NextCursor(file, section); d.text != "" && d.text[0] != ' '
    ensures var d := NextCursor(file, section);
            CheckContinuation(Opened(Cursor([delim] + " ", true, file)), section)
            == CheckContinuation(Opened(d.(text := [delim] + " " + d.text)), section)
  {
    hide Next;
    var d := NextCursor(file, section);
    assert ([delim] + " ")[1..] == " " && SkipBlank(" ") == "";
    assert ([delim] + " " + d.text)[1..] == " " + d.text && (" " + d.text)[1..] == d.text;
  }
}
