/** Keyword recognition in zic.c: exact and abbreviated matches against a table of words.  A string is
    read up to its length, where C finds the NUL. */
module Lookup {
  import opened CTypes

  /** `lowerit`. */
  function Lower(c: char): char {
    if 'A' <= c <= 'Z' then (c as int + 32) as char else c
  }

  /** What a C pointer into a string yields: the character there, or the NUL behind the last one. */
  function CharAt(s: string, i: nat): char
    requires i <= |s|
  {
    if i < |s| then s[i] else NUL
  }

  function LowerAll(s: string): (r: string)
    ensures |r| == |s|
    ensures forall i | 0 <= i < |s| :: r[i] == Lower(s[i])
  {
    seq(|s|, i requires 0 <= i < |s| => Lower(s[i]))
  }

  /** `part` can be obtained from `whole` by leaving out characters. */
  predicate Subsequence(part: string, whole: string)
    decreases |whole|
  {
    if part == [] then true
    else if whole == [] then false
    else (part[0] == whole[0] && Subsequence(part[1..], whole[1..])) || Subsequence(part, whole[1..])
  }

  /** `abbr` abbreviates `word`: the first letters agree, and the rest is a subsequence of the rest. */
  predicate Abbreviates(abbr: string, word: string) {
    && abbr != [] && word != [] && Lower(abbr[0]) == Lower(word[0])
    && Subsequence(LowerAll(abbr)[1..], LowerAll(word)[1..])
  }

  /** Shortening the part keeps it a subsequence. */
  lemma {:induction false} SubsequenceShrinks(part: string, whole: string)
    requires part != [] && Subsequence(part, whole)
    ensures whole != [] && Subsequence(part[1..], whole[1..])
    decreases |whole|
  {
    if !(part[0] == whole[0] && Subsequence(part[1..], whole[1..])) {
      SubsequenceShrinks(part, whole[1..]);
      SubsequenceGrows(part[1..], whole[1..]);
    }
  }

  lemma {:induction false} SubsequenceGrows(part: string, whole: string)
    requires whole != [] && Subsequence(part, whole[1..])
    ensures Subsequence(part, whole)
  {
  }

  /** Taking the first occurrence of the next character never loses a match. */
  lemma {:induction false} TakeFirst(part: string, whole: string)
    requires part != [] && whole != [] && part[0] == whole[0]
    ensures Subsequence(part, whole) <==> Subsequence(part[1..], whole[1..])
  {
    if Subsequence(part, whole) {
      SubsequenceShrinks(part, whole);
    }
  }

  /** Two characters differ only in case if they are the same letter, or the same character. */
  lemma {:induction false} SameLetterIff(c: char, d: char)
    ensures Lower(c) == Lower(d)
            <==> || c == d || ('A' <= c <= 'Z' && d as int == c as int - 'A' as int + 'a' as int)
                 || ('A' <= d <= 'Z' && c as int == d as int - 'A' as int + 'a' as int)
  {
  }

  /** Places in a text, each behind the one before it, at which the characters of a part stand. */
  predicate Picks(part: string, whole: string, at: seq<nat>) {
    && |at| == |part|
    && (forall i | 0 <= i < |at| :: at[i] < |whole| && whole[at[i]] == part[i])
    && forall i, j | 0 <= i < j < |at| :: at[i] < at[j]
  }

  function Later(at: seq<nat>): (r: seq<nat>)
    ensures |r| == |at| && forall i | 0 <= i < |at| :: r[i] == at[i] + 1
  {
    seq(|at|, i requires 0 <= i < |at| => at[i] + 1)
  }

  lemma {:induction false} PlacesOf(part: string, whole: string) returns (at: seq<nat>)
    requires Subsequence(part, whole)
    ensures Picks(part, whole, at)
    decreases |whole|
  {
    at := [];
    if part != [] {
      if part[0] == whole[0] && Subsequence(part[1..], whole[1..]) {
        var more := PlacesOf(part[1..], whole[1..]);
        at := [0] + Later(more);
      } else {
        var more := PlacesOf(part, whole[1..]);
        at := Later(more);
      }
    }
  }

  function Earlier(at: seq<nat>): (r: seq<nat>)
    requires forall i | 0 <= i < |at| :: at[i] > 0
    ensures |r| == |at| && forall i | 0 <= i < |at| :: r[i] == at[i] - 1
  {
    seq(|at|, i requires 0 <= i < |at| => (at[i] - 1) as nat)
  }

  lemma {:induction false} PicksSubsequence(part: string, whole: string, at: seq<nat>)
    requires Picks(part, whole, at)
    ensures Subsequence(part, whole)
    decreases |whole|
  {
    if part != [] {
      var first := at[0] == 0;
      var rest, left := if first then at[1..] else at, if first then part[1..] else part;
      assert forall i | 0 <= i < |rest| :: rest[i] > 0;
      var e := Earlier(rest);
      forall i | 0 <= i < |e| ensures e[i] < |whole[1..]| && whole[1..][e[i]] == left[i] {
        assert whole[rest[i]] == left[i];
      }
      PicksSubsequence(left, whole[1..], e);
    }
  }

  /** So a part can be obtained by leaving out characters exactly if there are such places. */
  lemma {:induction false} SubsequenceIff(part: string, whole: string)
    ensures Subsequence(part, whole) <==> exists at :: Picks(part, whole, at)
  {
    hide Subsequence, Picks;
    if Subsequence(part, whole) {
      var at := PlacesOf(part, whole);
    }
    forall at | Picks(part, whole, at) ensures Subsequence(part, whole) {
      PicksSubsequence(part, whole, at);
    }
  }

  /** `isabbr`: match each character of `abbr` at its first occurrence in what is left of `word`. */
  method IsAbbr(abbr: string, word: string) returns (r: bool)
    requires IsText(abbr) && IsText(word) && (abbr != [] || word != [])
    ensures r <==> Abbreviates(abbr, word)
  {
    if Lower(CharAt(abbr, 0)) != Lower(CharAt(word, 0)) {
      return false;
    }
    hide Subsequence;
    ghost var a, w := LowerAll(abbr), LowerAll(word);
    assert abbr != [] && word != [];
    var i, j := 1, 1;
    while i < |abbr|
      invariant 1 <= i <= |abbr| && 1 <= j <= |word|
      invariant Subsequence(a[1..], w[1..]) <==> Subsequence(a[i..], w[j..])
    {
      var found := false;
      while !found
        invariant 1 <= j <= |word|
        invariant !found ==> (Subsequence(a[1..], w[1..]) <==> Subsequence(a[i..], w[j..]))
        invariant found ==> (Subsequence(a[1..], w[1..]) <==> Subsequence(a[i + 1..], w[j..]))
        decreases !found, |word| - j
      {
        if j == |word| {
          NothingToTake(a, w, i);
          return false;
        }
        found := Lower(word[j]) == Lower(abbr[i]);
        TakeOne(a, w, i, j);
        j := j + 1;
      }
      i := i + 1;
    }
    AllTaken(a, w, j);
    return true;
  }

  /** One character of the word is passed over or taken. */
  lemma {:induction false} TakeOne(a: string, w: string, i: nat, j: nat)
    requires i < |a| && j < |w|
    ensures Subsequence(a[i..], w[j..]) <==> Subsequence(if a[i] == w[j] then a[i + 1..] else a[i..], w[j + 1..])
  {
    assert w[j..][0] == w[j] && w[j..][1..] == w[j + 1..] && a[i..][0] == a[i] && a[i..][1..] == a[i + 1..];
    if a[i] == w[j] {
      TakeFirst(a[i..], w[j..]);
    }
  }

  lemma {:induction false} NothingToTake(a: string, w: string, i: nat)
    requires i < |a|
    ensures !Subsequence(a[i..], w[|w|..])
  {
  }

  lemma {:induction false} AllTaken(a: string, w: string, j: nat)
    requires j <= |w|
    ensures Subsequence(a[|a|..], w[j..])
  {
  }

  /** `ciequal`: equality that ignores case. */
  method CiEqual(a: string, b: string) returns (r: bool)
    requires IsText(a) && IsText(b)
    ensures r <==> LowerAll(a) == LowerAll(b)
  {
    var i := 0;
    while i <= |b| && Lower(CharAt(a, i)) == Lower(CharAt(b, i))
      invariant 0 <= i <= |a|
      invariant i <= |b| && LowerAll(a)[..i] == LowerAll(b)[..i]
      decreases |a| - i
    {
      if i == |a| {
        assert LowerAll(a)[..i] == LowerAll(a);
        return true;
      }
      assert i < |b| by {
        assert a[i] in a;
      }
      i := i + 1;
    }
    if i < |a| && i < |b| {
      assert LowerAll(a)[i] != LowerAll(b)[i];
    }
    return false;
  }

  datatype Entry = Entry(word: string, value: int)
  datatype Found = Missing | At(index: nat)

  ghost predicate Exact(word: string, e: Entry) {
    LowerAll(word) == LowerAll(e.word)
  }

  /** `byword`: the first exact match; failing that, the only entry abbreviated; otherwise nothing. */
  method ByWord(word: string, table: seq<Entry>) returns (r: Found)
    requires IsText(word) && forall e | e in table :: IsText(e.word) && e.word != []
    ensures r.At? ==> r.index < |table|
    ensures (exists e | e in table :: Exact(word, e)) ==>
              r.At? && Exact(word, table[r.index]) && forall k | 0 <= k < r.index :: !Exact(word, table[k])
    ensures (forall e | e in table :: !Exact(word, e)) ==>
              forall i | 0 <= i < |table| ::
                r == At(i) <==> Abbreviates(word, table[i].word) && forall k | 0 <= k < |table| && k != i ::
                  !Abbreviates(word, table[k].word)
  {
    var i := 0;
    while i < |table|
      invariant 0 <= i <= |table|
      invariant forall k | 0 <= k < i :: !Exact(word, table[k])
    {
      var same := CiEqual(word, table[i].word);
      if same {
        assert table[i] in table && Exact(word, table[i]);
        return At(i);
      }
      i := i + 1;
    }
    r := Missing;
    i := 0;
    while i < |table|
      invariant 0 <= i <= |table|
      invariant r == Missing ==> forall k | 0 <= k < i :: !Abbreviates(word, table[k].word)
      invariant r.At? ==> r.index < i && Abbreviates(word, table[r.index].word)
                          && forall k | 0 <= k < i && k != r.index :: !Abbreviates(word, table[k].word)
    {
      var abbreviated := IsAbbr(word, table[i].word);
      if abbreviated {
        if r == Missing {
          r := At(i);
        } else {
          return Missing;
        }
      }
      i := i + 1;
    }
  }
}
