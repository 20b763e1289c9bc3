/** Encodings files with any number of words: from 32768 on the tables allocated are too short for them, and the
    length of the longest label leaves its 16 bits before that. */
module ManyWords {
  import opened Options
  import opened Words
  import opened Scanner
  import opened Sizing
  import opened ConversionPass
  import opened LineText
  import opened TableText
  import opened FileText

  const LETTER := Word("A", None, NoAffix, NoAffix)

  function Table(n: nat): (t: seq<Word>)
    ensures |t| == n && forall i | 0 <= i < n :: t[i] == LETTER
  {
    seq(n, _ => LETTER)
  }

  /** A file with `n` words among its clearances. */
  function FileOf(n: nat): string {
    File(NOTHING_ELSE, Clearances(NOTHING_ELSE, List(Table(n), [])))
  }

  /** Both passes read the whole file, however many words it has; more than 32767 are too many for the tables. */
  lemma {:induction false} ManyWordsFile(n: nat)
    ensures var file := FileOf(n);
            var k, c := Pass(file, COUNTING), Pass(file, Converted(file));
            && k.ok && c.ok && Converted(file).cl == Some(Table(n)) && k.words == [0, 0, n, 0, 0]
            && (AllShort(k.words) <==> n <= 0x7fff)
  {
    hide Pass, Compiled, File, Clearances;
    FileReadsBack(NOTHING_ELSE, List(Table(n), []));
    var words := Pass(FileOf(n), COUNTING).words;
    assert words == [0, 0, n, 0, 0] && words[2] == n;
  }

  lemma {:induction false} RestLength(n: nat, i: nat)
    requires i <= n
    ensures GroupedLength(Table(n), Mains(Table(n)), i, NoAffix, NoAffix) == 2 * (n - i)
    decreases n - i
  {
    if i < n {
      RestLength(n, i + 1);
    }
  }

  /** The longest label of those words: its length is stored as it is exactly if it fits in 16 bits. */
  lemma {:induction false} ManyWordsLength(n: nat, maxClass: nat)
    ensures Grounded(Table(n)) && FullLength(Table(n), maxClass) == maxClass + 1 + 2 * n
    ensures WrapShort(FullLength(Table(n), maxClass)) < FullLength(Table(n), maxClass)
            <==> maxClass + 1 + 2 * n > 0x7fff
  {
    RestLength(n, 0);
  }
}
