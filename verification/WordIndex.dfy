/** `word_index` of labelcomp.c: recognise a word, with the prefix or suffix it requires, at the head of
    normalised text. */
module WordIndex {
  import opened CTypes
  import opened Options
  import opened Words

  /** The entry found, if any, and the text left at the scan pointer. */
  datatype Lookup = Found(entry: nat, rest: string) | NotFound(rest: string)

  // ---------------------------------------------------------------- one position

  /** A name stands at the head of the text, and a blank or the end of the text behind it. */
  predicate Heads(name: string, text: string) {
    && |name| <= |text| && text[..|name|] == name
    && (|name| == |text| || text[|name|] == ' ')
  }

  /** Which of a word's names heads the text; the output name is tried first. */
  function HeadingName(w: Word, text: string): Option<string> {
    if Heads(w.outputName, text) then Some(w.outputName)
    else if w.shortName.Some? && Heads(w.shortName.value, text) then w.shortName
    else None
  }

  /** The entries considered after prefix entry `prefix`, or after a word that requires suffix `suffix`. */
  predicate Eligible(words: seq<Word>, i: nat, prefix: Option<nat>, suffix: Option<nat>)
    requires i < |words|
  {
    var w := words[i];
    && (prefix == None ==> !w.prefix.Needs?)
    && (prefix.Some? ==> w.prefix == Needs(prefix.value))
    && (suffix == None ==> !w.suffix.IsAffix?)
    && (suffix.Some? ==> w.suffix == Needs(suffix.value) || suffix.value == i)
  }

  /** The first entry from `i` on that is considered and heads the text. */
  function FirstHeading(words: seq<Word>, i: nat, text: string, prefix: Option<nat>,
                        suffix: Option<nat>): (r: Option<nat>)
    ensures r.Some? ==> i <= r.value < |words| && Eligible(words, r.value, prefix, suffix)
    ensures r.Some? ==> HeadingName(words[r.value], text).Some?
    decreases |words| - i
  {
    if i >= |words| then None
    else if Eligible(words, i, prefix, suffix) && HeadingName(words[i], text).Some? then Some(i)
    else FirstHeading(words, i + 1, text, prefix, suffix)
  }

  /** The text behind a name and the blank that may follow it. */
  function Behind(name: string, text: string): (r: string)
    requires Heads(name, text)
    ensures |r| <= |text|
  {
    SkipBlank(text[|name|..])
  }

  /** One match: the entry, and the text behind it. */
  function Match(words: seq<Word>, text: string, prefix: Option<nat>, suffix: Option<nat>): (r: Lookup)
    ensures r.Found? ==> r.entry < |words| && Eligible(words, r.entry, prefix, suffix)
    ensures |r.rest| <= |text|
  {
    if text == [] then NotFound(text)
    else
      match FirstHeading(words, 0, text, prefix, suffix)
      case None => NotFound(text)
      case Some(i) => Found(i, Behind(HeadingName(words[i], text).value, text))
  }

  // ---------------------------------------------------------------- the lookup

  /** The result of `word_index`. */
  function Index(words: seq<Word>, text: string): (r: Lookup)
    ensures r.Found? ==> r.entry < |words|
    ensures |r.rest| <= |text|
  {
    match Match(words, text, None, None)
    case NotFound(rest) => NotFound(rest)
    case Found(i, rest) =>
      if words[i].prefix.IsAffix? then Match(words, rest, Some(i), None)
      else if words[i].suffix.Needs? then
        match Match(words, rest, None, Some(words[i].suffix.entry))
        case NotFound(rest') => NotFound(rest')
        case Found(j, rest') =>
          if words[j].prefix.IsAffix? || j != words[i].suffix.entry then NotFound(rest') else Found(i, rest')
      else Found(i, rest)
  }

  /** The loop over the table. */
  method FindHeading(words: seq<Word>, text: string, prefix: Option<nat>, suffix: Option<nat>)
    returns (i: nat, name: string)
    ensures FirstHeading(words, 0, text, prefix, suffix) == (if i < |words| then Some(i) else None)
    ensures i < |words| ==> HeadingName(words[i], text) == Some(name)
  {
    i, name := 0, "";
    while i < |words|
      invariant 0 <= i <= |words|
      invariant FirstHeading(words, 0, text, prefix, suffix) == FirstHeading(words, i, text, prefix, suffix)
    {
      var w := words[i];
      if prefix == None && w.prefix.Needs? {
        i := i + 1;
        continue;
      }
      if prefix.Some? && w.prefix != Needs(prefix.value) {
        i := i + 1;
        continue;
      }
      if suffix == None && w.suffix == IsAffix {
        i := i + 1;
        continue;
      }
      if suffix.Some? && w.suffix != Needs(suffix.value) && suffix.value != i {
        i := i + 1;
        continue;
      }
      name := w.outputName;
      if Heads(name, text) {
        return;
      }
      if w.shortName.Some? {
        name := w.shortName.value;
        if Heads(name, text) {
          return;
        }
      }
      i := i + 1;
    }
  }

  /** `word_index`. */
  method LookUp(words: seq<Word>, text: string) returns (r: Lookup)
    ensures r == Index(words, text)
  {
    var s, result: nat := text, 0;
    var prefix: Option<nat>, suffix: Option<nat> := None, None;
    while s != []
      invariant prefix == None || suffix == None
      invariant prefix == None && suffix == None ==> s == text
      invariant prefix.Some?
                ==> Match(words, text, None, None) == Found(prefix.value, s) && words[prefix.value].prefix.IsAffix?
      invariant suffix.Some? ==> Match(words, text, None, None) == Found(result, s) && !words[result].prefix.IsAffix?
                                 && words[result].suffix == Needs(suffix.value)
      decreases if prefix == None && suffix == None then 1 else 0
    {
      var i, name := FindHeading(words, s, prefix, suffix);
      if i >= |words| {
        return NotFound(s);
      }
      s := Behind(name, s);
      if prefix.Some? {
        return Found(i, s);
      }
      if words[i].prefix == IsAffix {
        if suffix.Some? {
          return NotFound(s);
        }
        prefix := Some(i);
        continue;
      }
      if words[i].prefix.Needs? {
        return NotFound(s);
      }
      if suffix.Some? {
        if i != suffix.value {
          return NotFound(s);
        }
      } else if words[i].suffix == IsAffix {
        return NotFound(s);
      } else if words[i].suffix.Needs? {
        suffix := Some(words[i].suffix.entry);
        result := i;
        continue;
      } else {
        result := i;
      }
      return Found(result, s);
    }
    return NotFound(s);
  }

  // ---------------------------------------------------------------- soundness

  /** A name by which an entry can be called. */
  predicate IsName(words: seq<Word>, i: nat, name: string) {
    i < |words| && (name == words[i].outputName || words[i].shortName == Some(name))
  }

  /** The ways in which entry `i` can be spelled out. */
  ghost predicate Spells(words: seq<Word>, i: nat, phrase: string)
    requires i < |words|
  {
    match words[i].prefix
    case IsAffix => false
    case Needs(p) =>
      !words[i].suffix.IsAffix? && exists n, m :: IsName(words, p, n) && IsName(words, i, m) && phrase == n + " " + m
    case NoAffix =>
      match words[i].suffix
      case IsAffix => false
      case Needs(s) => exists n, m :: IsName(words, i, n) && IsName(words, s, m) && phrase == n + " " + m
      case NoAffix => IsName(words, i, phrase)
  }

  /** The text consists of a phrase, a blank if more follows, and the rest. */
  predicate Consumed(phrase: string, rest: string, text: string) {
    text == phrase + " " + rest || (rest == [] && text == phrase)
  }

  lemma {:induction false} BehindConsumes(name: string, text: string)
    requires Heads(name, text)
    ensures Consumed(name, Behind(name, text), text)
  {
    assert text == text[..|name|] + text[|name|..];
    if |name| < |text| {
      assert text[|name|..] == [' '] + text[|name| + 1..];
      assert name + " " + text[|name| + 1..] == text;
    }
  }

  lemma {:induction false} MatchIsNamed(words: seq<Word>, text: string, prefix: Option<nat>, suffix: Option<nat>)
    returns (name: string)
    requires Match(words, text, prefix, suffix).Found?
    ensures var r := Match(words, text, prefix, suffix);
            IsName(words, r.entry, name) && Consumed(name, r.rest, text)
  {
    var i := Match(words, text, prefix, suffix).entry;
    name := HeadingName(words[i], text).value;
    BehindConsumes(name, text);
  }

  /** The lookup is sound: it never yields a prefix or a suffix, and what it consumed spells the entry it
      yields out, together with the prefix or the suffix that entry requires. */
  lemma {:induction false} LookupSound(words: seq<Word>, text: string) returns (phrase: string)
    requires Index(words, text).Found?
    ensures var r := Index(words, text);
            IsMain(words[r.entry]) && Spells(words, r.entry, phrase) && Consumed(phrase, r.rest, text)
  {
    var first := Match(words, text, None, None);
    var n := MatchIsNamed(words, text, None, None);
    var w := words[first.entry];
    phrase := n;
    if w.prefix.IsAffix? {
      var m := MatchIsNamed(words, first.rest, Some(first.entry), None);
      phrase := n + " " + m;
      TwoConsumed(n, m, Index(words, text).rest, first.rest, text);
    } else if w.suffix.Needs? {
      var m := MatchIsNamed(words, first.rest, None, Some(w.suffix.entry));
      phrase := n + " " + m;
      TwoConsumed(n, m, Index(words, text).rest, first.rest, text);
    }
  }

  lemma {:induction false} TwoConsumed(n: string, m: string, rest: string, middle: string, text: string)
    requires Consumed(n, middle, text) && middle != [] && Consumed(m, rest, middle)
    ensures Consumed(n + " " + m, rest, text)
  {
    if middle == m + " " + rest {
      assert n + " " + (m + " " + rest) == n + " " + m + " " + rest;
    }
  }

  // ---------------------------------------------------------------- completeness

  /** No entry in front of `i` is considered and heads the text. */
  ghost predicate NothingEarlier(words: seq<Word>, i: nat, text: string, prefix: Option<nat>, suffix: Option<nat>) {
    forall k | 0 <= k < i && k < |words| && Eligible(words, k, prefix, suffix) :: HeadingName(words[k], text) == None
  }

  lemma {:induction false} FirstIsFound(words: seq<Word>, from: nat, i: nat, text: string, prefix: Option<nat>,
                                        suffix: Option<nat>)
    requires from <= i < |words| && Eligible(words, i, prefix, suffix) && HeadingName(words[i], text).Some?
    requires NothingEarlier(words, i, text, prefix, suffix)
    ensures FirstHeading(words, from, text, prefix, suffix) == Some(i)
    decreases i - from
  {
    if from < i {
      FirstIsFound(words, from + 1, i, text, prefix, suffix);
    }
  }

  lemma {:induction false} ConsumedHeads(name: string, rest: string, text: string)
    requires Consumed(name, rest, text)
    ensures Heads(name, text) && Behind(name, text) == rest
  {
    if text == name + " " + rest {
      assert text[|name|..] == " " + rest;
    } else {
      assert text[|name|..] == [];
    }
  }

  lemma {:induction false} FoundIsFirst(words: seq<Word>, from: nat, i: nat, text: string, prefix: Option<nat>,
                                        suffix: Option<nat>)
    requires from <= i && FirstHeading(words, from, text, prefix, suffix) == Some(i)
    ensures forall k | from <= k < i && Eligible(words, k, prefix, suffix) :: HeadingName(words[k], text) == None
    decreases |words| - from
  {
    if from < i {
      FoundIsFirst(words, from + 1, i, text, prefix, suffix);
    }
  }

  /** At one position: the entry whose name stands there is found exactly if none in front of it is. */
  lemma {:induction false} MatchFindsIff(words: seq<Word>, i: nat, rest: string, text: string, prefix: Option<nat>,
                                         suffix: Option<nat>)
    requires i < |words| && text != [] && Consumed(words[i].outputName, rest, text)
             && Eligible(words, i, prefix, suffix)
    ensures NothingEarlier(words, i, text, prefix, suffix) ==> Match(words, text, prefix, suffix) == Found(i, rest)
    ensures var r := Match(words, text, prefix, suffix);
            r.Found? && r.entry == i ==> NothingEarlier(words, i, text, prefix, suffix)
  {
    ConsumedHeads(words[i].outputName, rest, text);
    if NothingEarlier(words, i, text, prefix, suffix) {
      FirstIsFound(words, 0, i, text, prefix, suffix);
    } else if FirstHeading(words, 0, text, prefix, suffix) == Some(i) {
      FoundIsFirst(words, 0, i, text, prefix, suffix);
    }
  }

  /** Printing is undone: a main word that requires neither prefix nor suffix is found again exactly where
      nothing in front of it in the table matches. */
  lemma {:induction false} FindsPlainWordIff(words: seq<Word>, i: nat, rest: string, text: string)
    requires i < |words| && words[i].prefix == NoAffix && words[i].suffix == NoAffix
    requires text != [] && Consumed(words[i].outputName, rest, text)
    ensures Index(words, text) == Found(i, rest) <==> NothingEarlier(words, i, text, None, None)
  {
    hide NothingEarlier;
    MatchFindsIff(words, i, rest, text, None, None);
  }

  /** Likewise behind the prefix it requires... */
  lemma {:induction false} FindsPrefixedWordIff(words: seq<Word>, i: nat, p: nat, rest: string, middle: string,
                                                text: string)
    requires i < |words| && p < |words| && words[i].prefix == Needs(p) && !words[i].suffix.IsAffix?
    requires words[p].prefix == IsAffix && !words[p].suffix.IsAffix?
    requires text == words[p].outputName + " " + middle && middle != [] && Consumed(words[i].outputName, rest, middle)
    ensures Index(words, text) == Found(i, rest)
            <==> NothingEarlier(words, p, text, None, None) && NothingEarlier(words, i, middle, Some(p), None)
  {
    hide NothingEarlier;
    MatchFindsIff(words, p, middle, text, None, None);
    MatchFindsIff(words, i, rest, middle, Some(p), None);
    ConsumedHeads(words[p].outputName, middle, text);
  }

  /** ...and in front of the suffix it requires. */
  lemma {:induction false} FindsSuffixedWordIff(words: seq<Word>, i: nat, s: nat, rest: string, middle: string,
                                                text: string)
    requires i < |words| && s < |words| && words[i].prefix == NoAffix && words[i].suffix == Needs(s)
    requires words[s].prefix == NoAffix
    requires text == words[i].outputName + " " + middle && middle != [] && Consumed(words[s].outputName, rest, middle)
    ensures Index(words, text) == Found(i, rest)
            <==> NothingEarlier(words, i, text, None, None) && NothingEarlier(words, s, middle, None, Some(s))
  {
    hide NothingEarlier;
    MatchFindsIff(words, i, middle, text, None, None);
    MatchFindsIff(words, s, rest, middle, None, Some(s));
    ConsumedHeads(words[i].outputName, middle, text);
  }

  // ---------------------------------------------------------------- tables in which words are found

  /** Some text stands for both names: one is the other, or begins with it and a blank. */
  predicate Clash(n: string, t: string) {
    Heads(n, t) || Heads(t, n)
  }

  predicate NameClash(w: Word, t: string) {
    Clash(w.outputName, t) || (w.shortName.Some? && Clash(w.shortName.value, t))
  }

  /** Entry `k` is compared with the text: at its start any that neither requires a prefix nor is a suffix; behind a
      prefix those that require it, and are no suffix; behind a word that requires a suffix that suffix, and any other
      that does not require a prefix and requires the same. */
  predicate Compared(words: seq<Word>, k: nat, prefix: Option<nat>, suffix: Option<nat>) {
    && k < |words|
    && match (prefix, suffix)
       case (None, None) => !words[k].prefix.Needs? && words[k].suffix != IsAffix
       case (Some(p), None) => words[k].prefix == Needs(p) && words[k].suffix != IsAffix
       case (None, Some(s)) => !words[k].prefix.Needs? && (k == s || words[k].suffix == Needs(s))
       case (Some(p), Some(s)) => words[k].prefix == Needs(p) && (k == s || words[k].suffix == Needs(s))
  }

  lemma {:induction false} ComparedIsEligible(words: seq<Word>, k: nat, prefix: Option<nat>, suffix: Option<nat>)
    ensures Compared(words, k, prefix, suffix) <==> k < |words| && Eligible(words, k, prefix, suffix)
  {
  }

  /** No entry in front of `i` that is compared has a name that clashes with `t`. */
  predicate Clear(words: seq<Word>, i: nat, t: string, prefix: Option<nat>, suffix: Option<nat>) {
    forall k | 0 <= k < i && Compared(words, k, prefix, suffix) :: !NameClash(words[k], t)
  }

  lemma {:induction false} HeadsClash(n: string, t: string, rest: string)
    ensures Heads(n, t) || Heads(n, t + " " + rest) ==> Clash(n, t)
  {
    var u := t + " " + rest;
    if Heads(n, u) {
      if |n| <= |t| {
        assert u[..|n|] == t[..|n|] && (|n| < |t| ==> u[|n|] == t[|n|]);
      } else {
        assert n[..|t|] == u[..|n|][..|t|] == t && n[|t|] == u[..|n|][|t|] == ' ';
      }
    }
  }

  lemma {:induction false} ClashHeads(n: string, t: string) returns (rest: string)
    requires Clash(n, t)
    ensures Heads(n, t) || Heads(n, t + " " + rest)
  {
    rest := "";
    if !Heads(n, t) {
      rest := n[|t| + 1..];
      assert n == t + " " + rest;
    }
  }

  /** Nothing in front of `i` is found in `t`, whatever follows. */
  ghost predicate NeverEarlier(words: seq<Word>, i: nat, t: string, prefix: Option<nat>, suffix: Option<nat>) {
    && NothingEarlier(words, i, t, prefix, suffix)
    && forall rest :: NothingEarlier(words, i, t + " " + rest, prefix, suffix)
  }

  lemma {:induction false} ClearIsNothing(words: seq<Word>, i: nat, t: string, prefix: Option<nat>, suffix: Option<nat>,
                                          rest: string)
    requires Clear(words, i, t, prefix, suffix)
    ensures NothingEarlier(words, i, t, prefix, suffix) && NothingEarlier(words, i, t + " " + rest, prefix, suffix)
  {
    hide HeadingName, NameClash;
    forall k | 0 <= k < i && k < |words| && Eligible(words, k, prefix, suffix)
      ensures HeadingName(words[k], t) == None && HeadingName(words[k], t + " " + rest) == None
    {
      ComparedIsEligible(words, k, prefix, suffix);
      NoClashNoName(words[k], t, rest);
    }
  }

  /** The table says whether that is so. */
  lemma {:induction false} NeverEarlierIff(words: seq<Word>, i: nat, t: string, prefix: Option<nat>,
                                           suffix: Option<nat>)
    ensures NeverEarlier(words, i, t, prefix, suffix) <==> Clear(words, i, t, prefix, suffix)
  {
    hide Heads, Clash;
    if Clear(words, i, t, prefix, suffix) {
      forall rest
        ensures NothingEarlier(words, i, t, prefix, suffix) && NothingEarlier(words, i, t + " " + rest, prefix, suffix)
      {
        ClearIsNothing(words, i, t, prefix, suffix, rest);
      }
      assert NothingEarlier(words, i, t + " " + "", prefix, suffix);
    } else {
      var k :| 0 <= k < i && Compared(words, k, prefix, suffix) && NameClash(words[k], t);
      ComparedIsEligible(words, k, prefix, suffix);
      var rest := ClashedName(words[k], t);
      assert !NothingEarlier(words, i, t, prefix, suffix) || !NothingEarlier(words, i, t + " " + rest, prefix, suffix);
    }
  }

  lemma {:induction false} NoClashNoName(w: Word, t: string, rest: string)
    requires !NameClash(w, t)
    ensures HeadingName(w, t) == None && HeadingName(w, t + " " + rest) == None
  {
    hide Heads, Clash;
    HeadsClash(w.outputName, t, rest);
    if w.shortName.Some? {
      HeadsClash(w.shortName.value, t, rest);
    }
  }

  lemma {:induction false} ClashedName(w: Word, t: string) returns (rest: string)
    requires NameClash(w, t)
    ensures HeadingName(w, t) != None || HeadingName(w, t + " " + rest) != None
  {
    hide Heads, Clash;
    rest := ClashHeads(if Clash(w.outputName, t) then w.outputName else w.shortName.value, t);
  }

  /** The condition is needed: a shorter word in front hides a longer one that begins with it. */
  lemma {:induction false} ShorterWordHides()
    ensures var words := [Word("A", None, NoAffix, NoAffix), Word("A B", None, NoAffix, NoAffix)];
            Index(words, "A B") == Found(0, "B")
  {
    var words := [Word("A", None, NoAffix, NoAffix), Word("A B", None, NoAffix, NoAffix)];
    assert "A B" == "A" + " " + "B";
    FindsPlainWordIff(words, 0, "B", "A B");
  }
}
