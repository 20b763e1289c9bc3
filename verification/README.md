# Label compiler, time zone compiler, tape header, page printers and imake filters

This is a Dafny model of five parts of the system, and a proof of what they promise.

- **The label encodings compiler** (`labelcomp.c`). It reads an encodings file twice: the first pass counts
  bytes, the second converts into a block of exactly that size; then every pointer is made a file offset, the
  block is written, and the pointers are made pointers again. Modules `Scanner`, `ParseBits`, `WordIndex`,
  `Words`, `LabelRuns`, `Constraints`, `ConstraintText`, `Sizing`, `ExactSizing`, `CountingPass`, `ConversionPass`,
  `DbStore`; files written out and read back in `LineText`, `TableText`, `ClassText`, `RangeText`, `FileText`, and
  those in which something goes wrong in `LoneBackslash`, `LongConstraint`, `ManyWords`.
- **The time zone compiler** (`zic.c`) and the reader of its files (`zdump.c`). Modules `Calendar`, `Greedy`,
  `OutZone`, `ZoneTables`, `ZoneFile`, `Lookup`, `Fields`.
- **The header of multilevel tapes** (`sec_export.c`). Modules `TapeFormat`, `TapeHeader`.
- **The labelled page printers** (`lprcat.c`, `lplf.c`). Module `PagePrinter`.
- **The filters of imake** (`imake.c`). Modules `CppOutput`, `CppInput`.

Code that changes things step by step is a method over fields, arrays or loop variables; beside it stands a
function that says what it computes, and lemmas about that function. A routine of C that ends the program or
returns an error has a result that says so. `int` and `time_t` have 32 bits, `long` and pointers 64, `short`
16, plain `char` is signed; where a sum or product can leave its width the wrap is written out (`CTypes`).

## What the code does that its comments do not say

The members named show each of these, and the condition under which the promise does hold.

- `zic.c` 1513-1514: a backward weekday search that passes Sunday lands one day early
  (`Calendar.OnOrBeforeIsGreatestIff`, `Calendar.LastSaturdayMissed`); a clamp goes by the years of the rule and not
  by the side on which the time lies (`Calendar.ClampedRightIff`, `Calendar.ClampForgetsTheSide`); the overflow test
  of `tadd` is exact for the increments it is used with, not for all (`Calendar.TAddExactIff`).
- `zic.c` 1269: offsets into the abbreviation pool are kept in a signed `char`; from 128 on the comparison reads
  in front of the pool (`ZoneTables.TypeTable.AddType`, `ZoneTables.LongPoolIsUnsafe`).
- `labelcomp.c` 1786-1807: a constraint that is complete and continued by a line that is a backslash alone is one
  constraint for the count and two for the conversion, which then stores a word that was not counted
  (`Sizing.LoneConverted`; `LoneBackslash.FileOverflows` is a file). The number of words of a constraint is kept in
  16 bits, and from 32768 on too little is reserved (`ExactSizing.ReservedExactIff`; `LongConstraint.LongFileOverflowsIff`
  is a file for every length). Where no name holds a delimiter, a conversion that ends well stays within the space
  exactly if the file has neither (`ExactSizing.ConversionFitsIff`); `Sizing.ConversionFits` bounds the excess for all
  files and tables.
- `labelcomp.c` 602-626: a last line without a newline of which exactly 256 characters are kept has its NUL put behind the
  buffer (`Scanner.OutsideIff`, `Scanner.FullBuffer`).
- `labelcomp.c` 342-346: the number of words of a table is kept in 16 bits, too; the tables allocated for them reach
  as far as was counted exactly if none has more than 32767 words (`ConversionPass.TablesAllocatedIff`;
  `ManyWords.ManyWordsFile` is a file for every number).
- `labelcomp.c` 1758-1847: the pointer to the table of constraints does not move from one constraint to the next,
  so that all are written to one place and last of all the end mark
  (`ConversionPass.Converter.ConvertConstraints`: where the table begins is where it ends).
- `labelcomp.c` 1888: the length of the longest label is kept in 16 bits (`Words.MaxLengthBoundsIff`,
  `ManyWords.ManyWordsLength`); it counts full names even where short ones are printed
  (`Words.LongShortNameOverflows`), and leaves out prefixes and suffixes, which `std_labels.c` 176-208 marks and
  `l_convert` writes like other words if they stand behind the first main word and have bits of their own
  (`Words.MarkedPrefixOverflows`). Without these cases every label fits (`Words.EveryLabelFits`).
- `std_labels.c` 1183-1187: a word that shares the prefix written goes on with the run even if the word before it
  asks for a suffix, which is then never written (`LabelRuns.SuffixLost`; `LabelRuns.LabelByRuns` says what is).
- `labelcomp.c` 711-714: bit numbers are read modulo two to the 32nd (`ParseBits.ReadAsItselfIff`).
- `lprcat.c`, `lplf.c`: a form feed behind an escape passes the filter unless a map has it
  (`PagePrinter.FramedIff`).

## Model

| member | source | states |
|---|---|---|
| Scanner.NextKeyword | usr/opt/OSC200/src/seccmd/labelcomp.c:570-660 | delivers the keyword found, the data behind it up to a semicolon, and the place where scanning goes on; -1 with the scan pointer at the text, -2 at the end of the file |
| Scanner.FillBuffer | usr/opt/OSC200/src/seccmd/labelcomp.c:597-630 | the buffer is filled with the next line that is neither empty nor a comment |
| Scanner.NextLineNormal | usr/opt/OSC200/src/seccmd/labelcomp.c:585-592 | every line delivered is normal: no tab, no small letter, no blank in front, no two blanks together |
| Scanner.NormalLineReadsBack | usr/opt/OSC200/src/seccmd/labelcomp.c:597-630 | a normal line shorter than the buffer, neither empty nor a comment, is delivered as it stands, so normalising twice is normalising once |
| Scanner.LineDelivered | usr/opt/OSC200/src/seccmd/labelcomp.c:585-630 | a line of any words, written with any blanks and tabs between them, is delivered in capital letters with one blank between each two; a line without words, and one whose first word begins with an asterisk, is passed over |
| Scanner.LongLineEnds | usr/opt/OSC200/src/seccmd/labelcomp.c:597-626 | a line of which more than 256 characters are kept is too long, and reading goes on behind the next one |
| LineText.TakenToSemicolon | usr/opt/OSC200/src/seccmd/labelcomp.c:632-660 | of a keyword with data and a semicolon behind them the data are delivered, and scanning goes on behind the semicolon; a blank in front of the keyword and one in front of the data are passed over |
| LineText.DataRefused | usr/opt/OSC200/src/seccmd/labelcomp.c:642-648 | a keyword that takes no data, with some behind it, is none |
| Scanner.OnlyLastLineFills | usr/opt/OSC200/src/seccmd/labelcomp.c:602-629 | only a last line without a newline is delivered with 256 characters |
| Scanner.OutsideIff | usr/opt/OSC200/src/seccmd/labelcomp.c:602-626 | the NUL behind a line falls outside the buffer exactly if the line is the last one, ends without a newline, and its last character is the 256th that is kept |
| Scanner.FullBuffer | usr/opt/OSC200/src/seccmd/labelcomp.c:602-626 | a file of 256 capital letters is such a line |
| Scanner.ReadIntoBuffer | usr/opt/OSC200/src/seccmd/labelcomp.c:597-630 | the inner reading loop delivers the line as specified, and the place of its NUL |
| ParseBits.BitPair.ParseBits | usr/opt/OSC200/src/seccmd/labelcomp.c:685-734 | the mask grows by all ranges read and the value by those without a tilde, nothing else changes; success exactly if the whole text is well formed |
| ParseBits.NextItem | usr/opt/OSC200/src/seccmd/labelcomp.c:701-731 | one item of a specification is read as the specification of a single item says, malformed ones included |
| ParseBits.ParsedSets | usr/opt/OSC200/src/seccmd/labelcomp.c:685-790 | starting from nothing, the value lies within the mask and no bit exceeds the maximum |
| ParseBits.TextParsesBack | usr/opt/OSC200/src/seccmd/labelcomp.c:685-734 | any list of ranges within the maximum, written out, is parsed to that list |
| ParseBits.AcceptedIff | usr/opt/OSC200/src/seccmd/labelcomp.c:685-734 | exactly these texts are accepted: items, each perhaps a tilde, a number, perhaps a hyphen and a greater one, and perhaps a blank, which only a tilde behind it makes unnecessary, where no number, of which 32 bits are kept, exceeds the maximum |
| ParseBits.PiecesParse | usr/opt/OSC200/src/seccmd/labelcomp.c:685-734 | and such a text is parsed to the ranges that its items name |
| ParseBits.ReadAsItselfIff | usr/opt/OSC200/src/seccmd/labelcomp.c:141-143 | a number is read as itself exactly if it is below two to the 32nd |
| ParseBits.HugeNumberAccepted | usr/opt/OSC200/src/seccmd/labelcomp.c:711-714 | a number beyond every limit passes the limit test as bit 0 |
| WordIndex.LookUp | usr/opt/OSC200/src/seccmd/labelcomp.c:1358-1530 | the loop over positions and table entries yields the entry and the remaining text that the position-by-position specification gives |
| WordIndex.LookupSound | usr/opt/OSC200/src/seccmd/labelcomp.c:1358-1530 | an entry found is neither a prefix nor a suffix, and the text consumed is its name, or its prefix and its name, or its name and its suffix |
| WordIndex.FindsPlainWordIff | usr/opt/OSC200/src/seccmd/labelcomp.c:1428-1450 | a written main word is found again, with the text behind it left, exactly if no considered entry in front of it matches |
| WordIndex.FindsPrefixedWordIff | usr/opt/OSC200/src/seccmd/labelcomp.c:1446-1472 | likewise for the phrase of a word behind the prefix it requires, at both positions |
| WordIndex.FindsSuffixedWordIff | usr/opt/OSC200/src/seccmd/labelcomp.c:1487-1510 | likewise for the phrase of a word in front of the suffix it requires |
| WordIndex.NeverEarlierIff | usr/opt/OSC200/src/seccmd/labelcomp.c:1402-1444 | no entry in front matches a name, whatever text follows it, exactly if none that is compared there has a name that begins it or is begun by it; which are compared is said entry by entry |
| WordIndex.ShorterWordHides | usr/opt/OSC200/src/seccmd/labelcomp.c:1428-1431 | an instance: an earlier word that begins a later one hides it |
| Words.ComputeMaxLength | usr/opt/OSC200/src/seccmd/labelcomp.c:1875-1956 | stores the length of the label of all main words, as a 16-bit variable keeps it; beginning at the first main entry loses nothing |
| Words.FewerIsShorter | usr/opt/OSC200/src/seccmd/labelcomp.c:1890-1955 | a label of fewer main words, grouped by the same rule, is not longer |
| Words.LeavingOutOne | usr/opt/OSC200/src/seccmd/labelcomp.c:1907-1947 | leaving out one word never makes its neighbours cost more |
| Words.MaxLengthBoundsIff | usr/opt/OSC200/src/seccmd/labelcomp.c:1875-1956 | the stored maximum bounds every choice of main words exactly if the full length fits in 16 bits |
| Words.ConvertLabel | usr/opt/OSC200/src/usr/ccs/lib/libsecurity/std_labels.c:1174-1262 | writes the marked words with slashes inside a group that shares a prefix or suffix |
| LabelRuns.LabelByRuns | usr/opt/OSC200/src/usr/ccs/lib/libsecurity/std_labels.c:1174-1262 | whichever words are marked, the label is their runs, each a blank, the prefix of the first word and a blank, the names with slashes between them, and a blank and the suffix of the last; a run goes on while a word asks for the suffix of the one before it or for the prefix written |
| LabelRuns.RunsOf | usr/opt/OSC200/src/usr/ccs/lib/libsecurity/std_labels.c:1176-1190 | any words come in such runs |
| LabelRuns.SuffixLost | usr/opt/OSC200/src/usr/ccs/lib/libsecurity/std_labels.c:1183-1187 | an instance: of words that share a prefix and not their suffixes the suffix of the first is not written |
| LabelRuns.FullLengthByRuns | usr/opt/OSC200/src/seccmd/labelcomp.c:1875-1956 | where the main words come in runs that ask for the same, the length computed is exactly that of the longest classification, of the label of all of them, and of a NUL |
| Words.LabelsFit | usr/opt/OSC200/src/usr/ccs/lib/libsecurity/std_labels.c:1131-1269 | a label written from any parse table that marks, from the first main entry on, main words only fits with its NUL in the stored maximum, if that fits in 16 bits and no short name asked for is longer than the full one |
| Words.EveryLabelFits | usr/opt/OSC200/src/usr/ccs/lib/libsecurity/std_labels.c:176-208 | so every parse table makes a label that fits, if all prefixes and suffixes stand in front of the first main entry and under the same two conditions |
| ManyWords.ManyWordsLength | usr/opt/OSC200/src/seccmd/labelcomp.c:1888-1955 | for any number of words of one letter, the longest label has two characters for each, one and those of the classification, and its length leaves 16 bits exactly where these are more than 32767 |
| Words.MarkedPrefixOverflows | usr/opt/OSC200/src/usr/ccs/lib/libsecurity/std_labels.c:176-208 | a prefix behind a main word can be marked for bits of its own; it is written but was not counted, and the label outgrows the maximum |
| Words.TextWithinCount | usr/opt/OSC200/src/usr/ccs/lib/libsecurity/std_labels.c:1174-1262 | what is written never exceeds what was counted, although the writer follows prefixes in another way than the counter |
| Words.LongShortNameOverflows | usr/opt/OSC200/src/usr/ccs/lib/libsecurity/std_labels.c:1241-1245 | a short name longer than its word can make a label in short names longer than the maximum |
| Constraints.CountLine | usr/opt/OSC200/src/seccmd/labelcomp.c:1690-1707 | the scan of one line counts its delimiters and skips the character behind an ampersand |
| Constraints.CountConstraint | usr/opt/OSC200/src/seccmd/labelcomp.c:1690-1724 | a constraint is counted over its line and the lines that continue it; a heading among them is an error |
| Constraints.ContinueLine | usr/opt/OSC200/src/seccmd/labelcomp.c:1540-1558 | at the end of a line that continues the next one is loaded and its own backslash taken off |
| Constraints.ConvertConstraint | usr/opt/OSC200/src/seccmd/labelcomp.c:1758-1847 | the conversion of one constraint stores the word indices, the place between the lists and the kind; in an error what it had stored |
| Constraints.StoredWasCounted | usr/opt/OSC200/src/seccmd/labelcomp.c:1689-1847 | from any word on, no more words are stored than delimiters lie ahead in this line and in those that continue it, and one; and both passes go on at the same line |
| Constraints.LineCovered | usr/opt/OSC200/src/seccmd/labelcomp.c:1689-1847 | a constraint stores no more words than were reserved for its lines; if it ends early, the lines not read are still covered |
| Constraints.LoadedNothingIff | usr/opt/OSC200/src/seccmd/labelcomp.c:1549-1557 | the exact case in which a continued constraint finds nothing to read: the next line is a backslash alone |
| Sizing.LoneConverted | usr/opt/OSC200/src/seccmd/labelcomp.c:1786-1807 | a constraint in order has come upon a line that is a backslash alone exactly if it ended early, on that line |
| Constraints.ConvertedInOrder | usr/opt/OSC200/src/seccmd/labelcomp.c:1668-1680 | a constraint in order has a first list; its second is empty only behind an ampersand; every index is an entry of the table |
| ConstraintText.ConstraintReadsBack | usr/opt/OSC200/src/seccmd/labelcomp.c:1728-1756 | a constraint written out from two lists of words, each with the prefix or suffix it requires, is converted to these lists, the place between them and the kind, if the table lets each word be recognised |
| ConstraintText.SignRefusedIff | usr/opt/OSC200/src/seccmd/labelcomp.c:1758-1847 | behind a word the first list goes on at a bar and ends at an exclamation mark or an ampersand, the second goes on at a bar only; exactly at any other sign, and at the end of a first list without one, the constraint is in error |
| ConstraintText.FindableIff | usr/opt/OSC200/src/seccmd/labelcomp.c:1358-1530 | a word is found where it is written, whatever follows, exactly if it is a main word with a proper prefix or suffix and no entry the search passes has a name that begins what is written or is begun by it |
| ConstraintText.BreakBehindWord | usr/opt/OSC200/src/seccmd/labelcomp.c:1682-1686 | a line broken behind a word is converted as if the next line stood there, unless that is a backslash alone |
| ConstraintText.BreakBehindDelimiter | usr/opt/OSC200/src/seccmd/labelcomp.c:1789-1793 | likewise behind a delimiter |
| Sizing.ConversionFits | usr/opt/OSC200/src/seccmd/labelcomp.c:2005-2875 | for every file that was counted and every table of words, up to the end of the conversion or an error: no more bytes of combinations than were counted, and no more of strings but for two for each constraint that ended early and for each word lost in a 16-bit count; no more ended early than lines of constraints are a backslash alone, and exactly as many if the conversion ends well |
| ExactSizing.ConversionFitsIff | usr/opt/OSC200/src/seccmd/labelcomp.c:2005-2875 | where no name holds a delimiter, a conversion that ends well takes exactly two bytes more for each line of a constraint that is a backslash alone and for each word lost in counting, and so stays within the strings counted exactly if the file has no such line and no constraint of more than 32767 words |
| ExactSizing.ConvertedExactly | usr/opt/OSC200/src/seccmd/labelcomp.c:2005-2875 | and it then takes exactly what was counted, two bytes for each early end and two for each word lost |
| ExactSizing.StoredExactly | usr/opt/OSC200/src/seccmd/labelcomp.c:1689-1847 | from any word on, a constraint in order stores exactly the delimiters ahead and one, less what an early end leaves to come |
| ExactSizing.ReservedExactIff | usr/opt/OSC200/src/seccmd/labelcomp.c:1690-1847 | a constraint in order that is read to its end fits in what was reserved for its lines exactly if it has no more than 32767 words |
| LongConstraint.NegativeReserve | usr/opt/OSC200/src/seccmd/labelcomp.c:1690-1722 | a constraint of 32768 words over as many lines less one is in order, and what is reserved for it is negative |
| LongConstraint.LongFileOverflowsIff | usr/opt/OSC200/src/seccmd/labelcomp.c:2038-2875 | a whole file with a constraint of any number of words: both passes read it to its end, and the conversion takes more than was counted exactly from 32768 words on |
| ExactSizing.StoreExactFromStart | usr/opt/OSC200/src/seccmd/labelcomp.c:1657-1857 | over a whole section, what is stored is what was reserved, two bytes for each early end and two for each word lost |
| ExactSizing.StoreExactFromMiddle | usr/opt/OSC200/src/seccmd/labelcomp.c:1795-1807 | the same where conversion begins a constraint in lines that were counted as the continuation of another |
| Sizing.StoreFromStart | usr/opt/OSC200/src/seccmd/labelcomp.c:1657-1857 | over a whole section, what is stored stays within what was reserved but for two bytes for each early end and for each word lost in counting |
| Sizing.StoreFromMiddle | usr/opt/OSC200/src/seccmd/labelcomp.c:1795-1807 | the same where conversion begins a constraint in lines that were counted as the continuation of another |
| Sizing.LoneStored | usr/opt/OSC200/src/seccmd/labelcomp.c:1657-1857 | over a whole section no more constraints end early than lines are a backslash alone, and exactly as many if all are in order |
| Sizing.CleanFile | usr/opt/OSC200/src/seccmd/labelcomp.c:1786-1807 | a file without such a line has none among its constraints |
| Sizing.WordsParallel | usr/opt/OSC200/src/seccmd/labelcomp.c:861-984 | the passes read the same words and attributes, and their distance in bytes does not grow, alignment included |
| Sizing.RangesParallel | usr/opt/OSC200/src/seccmd/labelcomp.c:2494-2647 | likewise for the accreditation range |
| Sizing.PairsParallel | usr/opt/OSC200/src/seccmd/labelcomp.c:1600-1639 | the required combinations converted are those that were counted |
| Sizing.WellThroughout | usr/opt/OSC200/src/seccmd/labelcomp.c:2005-2875 | a pass that went well went well in every section |
| LoneBackslash.FileOverflows | usr/opt/OSC200/src/seccmd/labelcomp.c:2038-2875 | a whole file with one such line, and the tables of words it is compiled to: it is counted, it is converted to its end, and the conversion takes two bytes more than were counted |
| LoneBackslash.FourStored | usr/opt/OSC200/src/seccmd/labelcomp.c:1786-1807 | in its clearances the lines of one constraint for the count are two constraints, of four words, for the conversion |
| LoneBackslash.ThreeReserved | usr/opt/OSC200/src/seccmd/labelcomp.c:1690-1722 | for which three words were reserved |
| CountingPass.Counter.CountFile | usr/opt/OSC200/src/seccmd/labelcomp.c:2038-2875 | the counting pass computes the sizes of strings and tables, the counts of words and the number of classifications that the specification of a pass gives, or fails where it fails |
| CountingPass.Counter.CountWords | usr/opt/OSC200/src/seccmd/labelcomp.c:848-986 | a section of words: its number, the bytes of its entries and of its strings |
| CountingPass.Counter.CountConstraints | usr/opt/OSC200/src/seccmd/labelcomp.c:1657-1857 | the constraints of a section reserve an aligned run of indices and a table entry each, and an entry for the end mark |
| CountingPass.Counter.CountClasses | usr/opt/OSC200/src/seccmd/labelcomp.c:2155-2319 | the classifications: their strings, their number and the longest name; a value that is no number or out of range is an error |
| ConversionPass.Converter.ConvertFile | usr/opt/OSC200/src/seccmd/labelcomp.c:2038-2875 | the conversion, up to its end or to an error, stays within what the counting pass computed, and on success has read the whole file into the five tables it describes, whose lengths are those counted; which tables those are for a file is said by FileText.FileReadsBack |
| ConversionPass.Converter.ConvertWords | usr/opt/OSC200/src/seccmd/labelcomp.c:853-1346 | the table is the one that the section describes, every reference in it to an entry in front; the first main entry is the first that is neither a prefix nor a suffix; which table that is for a section is said by TableText.TableReadsBack |
| ConversionPass.Converter.ConvertAttribute | usr/opt/OSC200/src/seccmd/labelcomp.c:999-1290 | a short name, prefix or suffix given twice is an error, and a required one that is no entry in front; exactly then, but for what is left open of bits and classes, the keyword is refused |
| TableText.TableReadsBack | usr/opt/OSC200/src/seccmd/labelcomp.c:848-1320 | any table whose names fit in a line, written out word by word with NAME, SNAME, PREFIX or SUFFIX with or without the name of an entry in front, and COMPARTMENTS, is read back as exactly that table, by both passes to its end, and its strings take the bytes said, name by name |
| ClassText.ClassesReadBack | usr/opt/OSC200/src/seccmd/labelcomp.c:2155-2319 | of any list of classifications written out the greatest value and the longest name are found, and their strings take the bytes said |
| RangeText.RangesReadBack | usr/opt/OSC200/src/seccmd/labelcomp.c:2494-2660 | any accreditation range written out is read to the minimum clearance, and every label listed takes its compartments |
| FileText.PairSectionRead | usr/opt/OSC200/src/seccmd/labelcomp.c:1597-1652 | as many required combinations are counted, and converted, as there are lines, and they and their end mark take four bytes each |
| FileText.FileReadsBack | usr/opt/OSC200/src/seccmd/labelcomp.c:2005-2875 | a file of any classifications, any five tables and any accreditation range that can be written: both passes read it to its end without an error, it is compiled to exactly those five tables in their places, and both passes take exactly the bytes said |
| ConversionPass.TableGrounded | usr/opt/OSC200/src/seccmd/labelcomp.c:1148-1210 | every prefix or suffix required is an entry in front, and there are as many entries as were counted |
| ConversionPass.Converter.TakeFirst | usr/opt/OSC200/src/seccmd/labelcomp.c:1325-1346 | the index saved is that of the first entry that is neither a prefix nor a suffix; exactly in a table of words without one there is an error |
| ConversionPass.Converter.ConvertConstraints | usr/opt/OSC200/src/seccmd/labelcomp.c:1654-1857 | the strings advance by the lists stored, the tables only by the end mark: it is written where the table of constraints begins |
| ConversionPass.Converter.ConvertPairs | usr/opt/OSC200/src/seccmd/labelcomp.c:1597-1652 | every line must be two words; the tables advance by one entry for each and one for the end mark |
| ConversionPass.MaxLengths | usr/opt/OSC200/src/seccmd/labelcomp.c:2447-2452 | every table gets the length of its longest label |
| ConversionPass.ParseEncodings | usr/opt/OSC200/src/seccmd/labelcomp.c:1965-2882 | both passes, for every file: whether the conversion ends well or in an error, it has used no more than the space for tables, and of that for strings no more than two bytes beyond for each line of a constraint that is a backslash alone and for each word lost in counting; on success, and if no name holds a delimiter, exactly that; there are then the five tables the file describes, with the lengths of their longest labels |
| ConversionPass.TablesAllocatedIff | usr/opt/OSC200/src/seccmd/labelcomp.c:2043-2086 | the fixed tables end where they were counted to end exactly if every number of words fits in 16 bits, and never behind that place |
| ManyWords.ManyWordsFile | usr/opt/OSC200/src/seccmd/labelcomp.c:2038-2875 | a whole file with any number of words: both passes read it to its end, and from 32768 words on the number does not fit |
| DbStore.Block.Store | usr/opt/OSC200/src/seccmd/labelcomp.c:2889-3036 | the image, which may or may not be written, holds every pointer of every field less the base, null where a guard found null, and all else as it was; memory is afterwards as before exactly if no pointer that a guard tests points to the base; every table is found through its own pointer |
| DbStore.RestoredIff | usr/opt/OSC200/src/seccmd/labelcomp.c:2924-3028 | relocating there and back is the identity exactly if no guarded pointer equals the base, so that the guards visit the same fields in both phases |
| DbStore.BlockRestored | usr/opt/OSC200/src/seccmd/labelcomp.c:2045-2056 | in the block of a file, whose strings stand behind the tables that were counted, memory is always restored |
| DbStore.TableBackIff | usr/opt/OSC200/src/seccmd/labelcomp.c:2900-2918 | the same for one kind of label: its words, its constraints up to the end mark and its table pointers |
| DbStore.ConstraintsBack | usr/opt/OSC200/src/seccmd/labelcomp.c:2911-2917 | the constraints up to the end mark come back, and the walk ends at the same mark |
| DbStore.ShiftedIsImage | usr/opt/OSC200/src/seccmd/labelcomp.c:2899-2970 | field by field: the names, masks and values of every word, the names and bits of a classification that has a name, the range of one that has a range, the lists of every constraint in front of the end mark, the tables of words, and those of combinations and constraints of the first three kinds of label, are offsets from the base; kinds, null pointers, the end mark and everything behind it are unchanged |
| DbStore.OffsetIsDistance | usr/opt/OSC200/src/seccmd/labelcomp.c:2919-2927 | an offset of a pointer into the block is its distance from the base |
| DbStore.Block.MakeOffsets | usr/opt/OSC200/src/seccmd/labelcomp.c:2942-2964 | a table is adjusted before the pointer through which it is found |
| DbStore.Block.MakePointers | usr/opt/OSC200/src/seccmd/labelcomp.c:3006-3028 | on the way back the pointer is adjusted first |
| Calendar.RpyTime | usr/opt/OSC200/src/etc/zoneinfo/zic.c:1452-1541 | yields the closed-form result: the exact second, an extreme in a boundary year, or the end of the program |
| Calendar.WalkToMonth | usr/opt/OSC200/src/etc/zoneinfo/zic.c:1461-1489 | the walk by years in either direction from 1970 and then by months reaches the closed-form Gregorian day number |
| Calendar.YearStep | usr/opt/OSC200/src/etc/zoneinfo/zic.c:1463-1473 | the closed form advances by the length of each year, in both directions |
| Calendar.MonthsFillYear | usr/opt/OSC200/src/etc/zoneinfo/zic.c:1474-1478 | the twelve months make up the year |
| Calendar.WeekdayOf | usr/opt/OSC200/src/etc/zoneinfo/zic.c:1494-1504 | the weekday, also of days before 1970 |
| Calendar.SearchWeekday | usr/opt/OSC200/src/etc/zoneinfo/zic.c:1490-1516 | the weekday search moves by the offset the specification gives, Saturday counted as one step too many once it passes Sunday backward |
| Calendar.OnOrAfterIsLeast | usr/opt/OSC200/src/etc/zoneinfo/zic.c:1505-1510 | the forward search lands on the first day on or after its start with the weekday wanted |
| Calendar.OnOrBeforeIsGreatestIff | usr/opt/OSC200/src/etc/zoneinfo/zic.c:1511-1516 | the backward search lands on the last day on or before its start with the weekday wanted exactly if that weekday is not later in the week than the start; otherwise on the day before it |
| Calendar.SelectedDayIs | usr/opt/OSC200/src/etc/zoneinfo/zic.c:1479-1516 | the day a rule selects, for each way of naming it: the search starts on the day named or, backward, on the last of the month if that is earlier; other rules end the program exactly if the month has no such day |
| Calendar.DayNumberIsCivil | usr/opt/OSC200/src/etc/zoneinfo/zic.c:1461-1489 | the day number agrees on every date with a reckoning in periods of 400 years and years that begin in March, day 0 being 1 January 1970 |
| Calendar.ExitIff | usr/opt/OSC200/src/etc/zoneinfo/zic.c:1479-1540 | the program ends exactly if the day does not exist, if the weekday sought is not in the month, or if the time does not fit and no bound of the rule excuses it |
| Calendar.LastSaturdayMissed | usr/opt/OSC200/src/etc/zoneinfo/zic.c:1511-1516 | the last Saturday of a month that ends on a Sunday comes out as a Friday |
| Calendar.CheapOverflowCheck | usr/opt/OSC200/src/etc/zoneinfo/zic.c:1528-1532 | the division test notices exactly the products that do not fit in 32 bits |
| Calendar.OAddExact | usr/opt/OSC200/src/etc/zoneinfo/zic.c:1413-1426 | the overflow test of 64-bit addition fires exactly when the sum does not fit |
| Calendar.TAddExactIff | usr/opt/OSC200/src/etc/zoneinfo/zic.c:1428-1445 | that of the 32-bit addition is exact at every time if and only if the increment is within two to the 32nd or a multiple of it |
| Calendar.NeverWrapped | usr/opt/OSC200/src/etc/zoneinfo/zic.c:1528-1540 | no result is a wrapped value: it is exact, or an extreme in a boundary year whose time does not fit |
| Calendar.RuleTimeInYear | usr/opt/OSC200/src/etc/zoneinfo/zic.c:1452-1541 | a time that is not clamped lies in the year asked for |
| Calendar.ClampedRightIff | usr/opt/OSC200/src/etc/zoneinfo/zic.c:1532-1539 | a clamped time is the extreme beyond which the true time lies exactly if late times are those of the last year of the rule and early ones are not |
| Calendar.ClampForgetsTheSide | usr/opt/OSC200/src/etc/zoneinfo/zic.c:1532-1539 | an instance: a rule for one year too early for 32 bits is reported as the latest time |
| Greedy.ChoiceSorts | usr/opt/OSC200/src/etc/zoneinfo/zic.c:1154-1229 | when rules lie further apart than the daylight offsets reach, the rules chosen one by one come in the order of their local times, and their GMT times strictly increase |
| Greedy.EachFiresOnce | usr/opt/OSC200/src/etc/zoneinfo/zic.c:1143-1199 | in a finished year exactly the rules marked and not clamped have fired, each once |
| Greedy.TooCloseIsOutOfOrder | usr/opt/OSC200/src/etc/zoneinfo/zic.c:1177-1195 | rules closer than that can take effect out of order |
| OutZone.Compiler.OutZone | usr/opt/OSC200/src/etc/zoneinfo/zic.c:1095-1239 | a zone of one line: the tables hold what the rules chosen asked for, all years are finished, and the file written is their encoding; it stops exactly where a rule marked has no time, a GMT time does not fit, or the tables to which the firings so far lead have no place for the next one, and leaves the pool exactly in the search for the type of that one; without rules there is one type, of offset zone plus standard saving and with the format as abbreviation, and no entry, or exactly no room in the pool |
| OutZone.MarkRules | usr/opt/OSC200/src/etc/zoneinfo/zic.c:1143-1153 | the rules of a year are marked and their times computed, exactly if each of those has a time |
| OutZone.Compiler.Enter | usr/opt/OSC200/src/etc/zoneinfo/zic.c:1196-1229 | a firing is entered, or refused exactly where its type or its entry finds no place; the search for the type leaves the pool exactly where the scan of types does |
| OutZone.Compiler.OutYear | usr/opt/OSC200/src/etc/zoneinfo/zic.c:1136-1230 | one year: every choice is the rule to take effect first of those left, under the offset then in force, and none is left at the end; where it ends before that, for one of those reasons, and no firing before had one |
| OutZone.Earliest | usr/opt/OSC200/src/etc/zoneinfo/zic.c:1176-1195 | the rule found is the first to take effect of those to do; none exactly if none is left; it overflows exactly if the GMT time of one of those does not fit |
| OutZone.SchedulesAreByYear | usr/opt/OSC200/src/etc/zoneinfo/zic.c:1143-1153 | rules of a later year fall due later, whatever the rules |
| OutZone.FiringIs | usr/opt/OSC200/src/etc/zoneinfo/zic.c:1143-1199 | every firing is of a rule whose years and kind of year include its own and whose day exists; its local time is that day and time of day, its GMT time that less the offset of the zone and, unless it is given in standard time, less what the firing before it saved; it is the earliest of those left, and the first in order of several at that time |
| OutZone.FiredIff | usr/opt/OSC200/src/etc/zoneinfo/zic.c:1143-1199 | in a finished year exactly the rules that have a part in it have fired, and which have one is said from the rule and the calendar |
| OutZone.CallsAreFirings | usr/opt/OSC200/src/etc/zoneinfo/zic.c:1219-1229 | the entries asked for are the rules that fired from the first that saves daylight on, each with its time and a type of offset zone plus saving, daylight exactly if something is saved, and the abbreviation that the format spells with the variable part of the rule |
| OutZone.CompiledTable | usr/opt/OSC200/src/etc/zoneinfo/zic.c:1136-1254 | where rules lie further apart than the daylight offsets reach, the table has strictly increasing times, repeats no type, has no type in force before the first rule that saves daylight, and from the time of every firing to that of the next gives the offset zone plus saving of its rule, daylight exactly if something is saved, and the abbreviation that the format spells |
| ZoneTables.TransitionTable.AddTt | usr/opt/OSC200/src/etc/zoneinfo/zic.c:1241-1254 | the table is the old one with the entry recorded, or the program ends because it is full |
| ZoneTables.SuppressionPreservesKind | usr/opt/OSC200/src/etc/zoneinfo/zic.c:1241-1254 | for calls in time order every instant has the same type in the table as in the list of calls, and no type repeats |
| ZoneTables.SuppressionNeedsOrder | usr/opt/OSC200/src/etc/zoneinfo/zic.c:1245-1246 | out of order it does not |
| ZoneTables.TypeTable.AddType | usr/opt/OSC200/src/etc/zoneinfo/zic.c:1256-1291 | a type asked for is found or added, every earlier index keeps its type; and exactly when the tables are full, or a stored offset of 128 or more makes the comparison read in front of the pool; pool and offsets are those to which the types lead |
| ZoneTables.IndexesKeepTheirMeaning | usr/opt/OSC200/src/etc/zoneinfo/zic.c:1256-1291 | over any run of requests every index ever returned keeps its meaning, no two types are equal, and nothing else is stored |
| ZoneTables.ColumnsAppend | usr/opt/OSC200/src/etc/zoneinfo/zic.c:1280-1290 | a new type whose abbreviation ends one in the pool or is put behind it decodes to what was asked for, and the others still do |
| ZoneTables.DecodeExtend | usr/opt/OSC200/src/etc/zoneinfo/zic.c:1543-1556 | growing the pool behind its last NUL changes no type |
| ZoneTables.ShortPoolIsSafe | usr/opt/OSC200/src/etc/zoneinfo/zic.c:1267-1271 | while the pool has no more than 128 characters no comparison leaves it |
| ZoneTables.LongPoolIsUnsafe | usr/opt/OSC200/src/etc/zoneinfo/zic.c:1267-1271 | in a longer one, which the limits allow, one can |
| ZoneFile.WriteZone | usr/opt/OSC200/src/etc/zoneinfo/zic.c:1048-1093 | the bytes written are the encoding of the tables |
| ZoneFile.PutTzCode | usr/opt/OSC200/src/etc/zoneinfo/zic.c:1034-1046 | a number is written as four bytes, the highest first |
| ZoneFile.CodeRoundTrip | usr/opt/OSC200/src/etc/zoneinfo/zic.c:1034-1046 | four bytes read back give every 32-bit number, negative ones included |
| ZoneFile.EncodeLaidOut | usr/opt/OSC200/src/etc/zoneinfo/zic.c:1071-1087 | counts at 32, 36 and 40, times from 44, then types, then six bytes for each local time type, then the pool: the data block of version 1 of RFC 8536, sections 3.1 and 3.2 |
| ZoneFile.TzDecode | usr/opt/OSC200/src/etc/zoneinfo/zdump.c:68-79 | the shifts of the reader yield the number of the four bytes |
| ZoneFile.ReadTransitions | usr/opt/OSC200/src/etc/zoneinfo/zdump.c:159-184 | the seeks and reads of the reader yield the transitions at their places in the file, or an error where it is too short |
| ZoneFile.WriteReadRoundTrip | usr/opt/OSC200/src/etc/zoneinfo/zdump.c:159-184 | reading what was written yields the number of transitions and then exactly the times written, in order; with a cutoff those up to the first beyond it |
| Lookup.IsAbbr | usr/opt/OSC200/src/etc/zoneinfo/zic.c:1335-1348 | the greedy scan is complete: it succeeds exactly if the first letters agree and the rest is a subsequence of the rest, case ignored |
| Lookup.TakeFirst | usr/opt/OSC200/src/etc/zoneinfo/zic.c:1343-1346 | taking the first occurrence of the next letter never loses a match |
| Lookup.CiEqual | usr/opt/OSC200/src/etc/zoneinfo/zic.c:1324-1333 | equality but for case |
| Lookup.SameLetterIff | usr/opt/OSC200/src/etc/zoneinfo/zic.c:1318-1322 | two characters are the same but for case exactly if they are the same, or the same letter of A to Z |
| Lookup.SubsequenceIff | usr/opt/OSC200/src/etc/zoneinfo/zic.c:1343-1346 | a text is a subsequence exactly if there are places for its characters, each behind the one before |
| Lookup.ByWord | usr/opt/OSC200/src/etc/zoneinfo/zic.c:1350-1376 | the first exact match; otherwise the only entry abbreviated; otherwise nothing |
| Fields.GetFields | usr/opt/OSC200/src/etc/zoneinfo/zic.c:1378-1411 | the fields left in the buffer are those of a split that honours quotation marks and comments, each ended by a NUL of its own, and there are no more than characters, so the array has room for them and its end mark |
| Fields.CopyField | usr/opt/OSC200/src/etc/zoneinfo/zic.c:1396-1404 | the write pointer never overtakes the read pointer, and what is copied is the field without its quotation marks |
| Fields.StoreField | usr/opt/OSC200/src/etc/zoneinfo/zic.c:1405-1407 | the terminator falls on a character already read, or on the comment sign or NUL at which the split ends |
| Fields.SplitUndoesQuoting | usr/opt/OSC200/src/etc/zoneinfo/zic.c:1378-1411 | any fields, with spaces, comment signs or nothing in them, survive being quoted and split |
| Fields.FieldsReadBack | usr/opt/OSC200/src/etc/zoneinfo/zic.c:1378-1411 | any line of fields, each of characters and quoted text in any order, with spaces between them and a comment behind, is split into exactly what the fields stand for |
| Fields.OddQuotesNoticed | usr/opt/OSC200/src/etc/zoneinfo/zic.c:1398-1403 | a quotation in the last field that is not closed makes the line an error |
| TapeFormat.Negotiate | usr/opt/OSC200/src/seccmd/sec_export.c:1360-1455 | succeeds exactly if tape and device agree on sensitivity label, information label and caveat; the header bits of the result are then the tape's, and type flags, privileges and access lists are marked as not to be set exactly if they were so before or are on the tape only, the three kinds of list sharing one mark |
| TapeFormat.SettleBit | usr/opt/OSC200/src/seccmd/sec_export.c:1364-1454 | one bit of the comparison |
| TapeHeader.Codec.Build | usr/opt/OSC200/src/seccmd/sec_export.c:2351-2621 | the buffer begins with the header, attribute by attribute the string and its NUL if its own bit is in the format, and its size is returned; or nothing exactly if a label, caveat or list to be on the tape could not be had |
| TapeHeader.TotalSize | usr/opt/OSC200/src/seccmd/sec_export.c:2351-2496 | the size allocated has room for every string, in the format or not |
| TapeHeader.PackedFits | usr/opt/OSC200/src/seccmd/sec_export.c:2496-2621 | what is written never exceeds it |
| TapeHeader.Codec.AllocBuff | usr/opt/OSC200/src/seccmd/sec_export.c:411-422 | an old buffer that is large enough is used again; the buffer has the size asked for |
| TapeHeader.Codec.CopyPrivs | usr/opt/OSC200/src/seccmd/sec_export.c:2576-2619 | a set of privileges is written as its names, a blank behind each, and a NUL |
| TapeHeader.Codec.Unpack | usr/opt/OSC200/src/seccmd/sec_export.c:2089-2172 | of a header with anything behind it every one of the ten attributes is found under its own name exactly if its own bit is in the format, the others are null and the child's level empty; every string is found where the one before it ends |
| TapeHeader.UnpackPacked | usr/opt/OSC200/src/seccmd/sec_export.c:2089-2172 | from the bytes of a header, whatever stands around them, every string packed is recovered |
| TapeHeader.PackedIsHeader | usr/opt/OSC200/src/seccmd/sec_export.c:2496-2621 | the strings packed one by one are the header written out attribute by attribute |
| TapeHeader.HeaderUnpacked | usr/opt/OSC200/src/seccmd/sec_export.c:2089-2172 | from a header, whatever stands behind it, each of the ten pointers leads to its own attribute |
| TapeHeader.PrivTextParts | usr/opt/OSC200/src/seccmd/sec_export.c:2576-2619 | the text of a list of privileges is that of its parts |
| TapeHeader.PrivTextOne | usr/opt/OSC200/src/seccmd/sec_export.c:2576-2619 | and of one privilege its name and a blank if it is in the set, nothing otherwise |
| TapeHeader.TapeRoundTrip | usr/opt/OSC200/src/seccmd/sec_export.c:1360-1455 | of a header written under the writer's mask and unpacked under the mask negotiated with it every attribute is found, each by its own pointer and under its own bit |
| PagePrinter.Printer.Print | usr/opt/OSC200/src/seccmd/lprcat.c:242-294 | what is sent is the pages, each between its labels, and their number is counted |
| PagePrinter.Printer.Pass | usr/opt/OSC200/src/seccmd/lplf.c:218-266 | one pass of the main loop: the labels due, one row, and blank lines to the foot after a form feed |
| PagePrinter.FramedIff | usr/opt/OSC200/src/seccmd/lprcat.c:242-294 | for every input every page has label and newline, exactly as many more newlines as fit, then label, carriage return and form feed: exactly if the maps block a form feed behind an escape, or one character of a line is all that is looked at |
| PagePrinter.PagesFramed | usr/opt/OSC200/src/seccmd/lplf.c:218-282 | every page body has exactly two newlines less than the page has lines and no form feed |
| PagePrinter.PagesKeepRows | usr/opt/OSC200/src/seccmd/lplf.c:218-282 | between the labels stands what was printed on the lines, in order, and nothing else that can be seen |
| PagePrinter.PrintLine | usr/opt/OSC200/src/seccmd/lplf.c:321-428 | a line is filtered and cut as specified, and what does not fit stays in the buffer |
| PagePrinter.AllRowsFiltered | usr/opt/OSC200/src/seccmd/lprcat.c:355-416 | whatever the input, in what is printed a character of the map is a blank, a carriage return or a backspace, or stands behind an escape that was let through; none of the other map stands there |
| PagePrinter.EmitFilters | usr/opt/OSC200/src/seccmd/lprcat.c:355-416 | the same for one line from any column on |
| PagePrinter.PrintableLineKept | usr/opt/OSC200/src/seccmd/lplf.c:321-428 | a line of printable text is split into rows, each behind the indent and no longer than the width, as many as it needs, that put together are the line with exactly the characters of the map replaced by blanks |
| PagePrinter.PrintableLineCut | usr/opt/OSC200/src/seccmd/lplf.c:240-248 | where lines are cut off, one row shows as much of it as fits |
| PagePrinter.PrintableEmitted | usr/opt/OSC200/src/seccmd/lplf.c:355-416 | printable text on a line that has room for it is printed so, and the rest of the line behind it |
| PagePrinter.ControlPrinted | usr/opt/OSC200/src/seccmd/lplf.c:384-402 | behind such text a carriage return goes back to the first column, a backspace by one column and none in the first, a tab to the next multiple of 8, and a form feed ends the line |
| PagePrinter.EscapePrinted | usr/opt/OSC200/src/seccmd/lplf.c:361-383 | an escape of the map becomes a blank; behind another one a character of the other map becomes a blank, and any other goes through with the escape, in no column |
| PagePrinter.LineIsFilled | usr/opt/OSC200/src/seccmd/lprcat.c:355-430 | where there is no indent, nothing but the blanks of a tab is printed behind the width and nothing taken back in the first column, and text is left for another row only at a newline, behind a form feed, or when the print head has come to the width |
| PagePrinter.PageHolds | usr/opt/OSC200/src/seccmd/lplf.c:218-282 | a page holds the rows up to the one that fills it, that a form feed has ended, or that is the last, in order and filled up with newlines; those behind it begin another |
| PagePrinter.PageSent | usr/opt/OSC200/src/seccmd/lplf.c:225-236 | a page is sent behind the label and a newline, and its foot is the label, a carriage return and a form feed |
| PagePrinter.EmitStaysOnLine | usr/opt/OSC200/src/seccmd/lprcat.c:362-416 | what is printed of a line has no newline and no form feed |
| PagePrinter.OutputConsumes | usr/opt/OSC200/src/seccmd/lprcat.c:242-279 | every pass consumes some of the line, so the loop ends |
| PagePrinter.EscapedFormFeed | usr/opt/OSC200/src/seccmd/lprcat.c:362-377 | a form feed behind an escape that neither map blocks ends up in the body of a page |
| CppOutput.CleanCppOutput | usr/opt/OSCX200/src/config/imake.c:648-676 | what is written behind the header is the cleaned lines |
| CppOutput.Reader.ReadLine | usr/opt/OSCX200/src/config/imake.c:719-790 | the lines end at a newline or at two at-signs |
| CppOutput.TrimLine | usr/opt/OSCX200/src/config/imake.c:678-717 | blanks at the end are dropped; a marker of the preprocessor counts as empty |
| CppOutput.CleanIsClean | usr/opt/OSCX200/src/config/imake.c:648-717 | what is written has no two at-signs, no blank at the end of a line, no marker and no two empty lines together |
| CppOutput.CleaningIsIdempotent | usr/opt/OSCX200/src/config/imake.c:648-790 | cleaning what has been cleaned changes nothing |
| CppOutput.LinesReadBack | usr/opt/OSCX200/src/config/imake.c:719-790 | a text of any lines, each ended by a newline or by two at-signs, is read as exactly those lines: nothing behind an end is lost |
| CppOutput.LinesKept | usr/opt/OSCX200/src/config/imake.c:648-676 | every line that is not empty is written without the blanks at its end, in order; of empty lines and markers in a row one empty line is left |
| CppOutput.TrimIs | usr/opt/OSCX200/src/config/imake.c:705-715 | the blanks and tabs at the end of a line go, and no more |
| CppOutput.MarkerIff | usr/opt/OSCX200/src/config/imake.c:682-703 | a marker is exactly a number sign, perhaps a blank, perhaps the word line and a blank, a number, a blank and a quote |
| CppInput.CleanCppInput | usr/opt/OSCX200/src/config/imake.c:576-646 | a new file is written exactly if there is a comment of make, and it is the text with a pad in front of every one |
| CppInput.PaddedHasNoComment | usr/opt/OSCX200/src/config/imake.c:602-640 | behind the padding no line-start number sign is left that is not a directive |
| CppInput.PaddedSameIff | usr/opt/OSCX200/src/config/imake.c:602-640 | exactly the texts without such a comment are left as they are |
| CppInput.PaddingIsIdempotent | usr/opt/OSCX200/src/config/imake.c:576-646 | preparing what has been prepared changes nothing |
| CppInput.DirectiveIff | usr/opt/OSCX200/src/config/imake.c:606-627 | there is a directive behind a number sign exactly if blanks, one of the eight words, and a blank, a newline or the end stand there |
| CppInput.PaddedByLine | usr/opt/OSCX200/src/config/imake.c:602-640 | line by line: a pad in front of every line that begins with a number sign and no directive, and nothing else changed |

## Left out

- Opening, seeking and closing files, option parsing, message catalogues, messages and exit codes: input is a
  sequence of characters or lines, output a sequence, an error a result.
- `l_parse`, the comparison of a parsed label with its printed form, look-ups of classifications by name, bit
  specifications of words and the rules on which keywords apply where: in the conversion pass each of these may
  end it in an error at any time, which the model admits; their effects on the tables are not modelled.
- What the space for strings contains: the model follows where strings and lists are put, and keeps the names
  and references of words and the lists of constraints as values.
- After the end of the file the scanner of labelcomp.c searches what an earlier line left in the buffer; the
  model takes that for empty.
- The table of classifications (its slots are filled by value, the last one without a check that it has one) and
  the accreditation range, but for the space they take.
- The five label tables of `DbStore` are values in a field that the methods reassign; that they lie in one block and
  do not overlap is not modelled.
- ConversionPass.ParseEncodings: promises nothing of the conversion of a file with more than 32767 words in one
  table: the words are then written outside the table, over whatever lies there.
- ExactSizing.ConversionFitsIff: requires names without delimiters; where a name holds one, the count takes it for the
  end of a word, so that more is counted than is stored, and only the bound of Sizing.ConversionFits is proved.
- Words.EveryLabelFits: one direction only. A label that is shorter than the count allows can make up for a prefix,
  suffix or short name that was not counted, and what is written does not grow with every word marked, because a word
  that shares a prefix drops the suffix before it; so no condition on the table alone is both needed and enough here.
- DbStore.Block.Store: does not say which bytes of the file an interrupted `write` leaves.
- Zones of several lines: the hand-over indexes the types with the number of transitions less one, and none may
  have been stored. The branch for an unsigned `time_t`, the years found by `setboundaries`, and the shell command
  that decides the type of a year, which is an arbitrary predicate.
- Fields.GetFields: requires balanced quotation marks, because `error` returns and the scan then runs past the
  end of the line.
- Lookup.IsAbbr: requires that not both strings are empty, because the scan then starts behind a NUL. A null word
  or table for `byword`.
- The reader's display of each instant (`show`) and its handling of other files; leap seconds, of which these
  files have none.
- TapeHeader.Codec.Build: requires an ACL and a default ACL where the format has them, because the code copies
  from a null pointer otherwise (it reports a missing ACL and goes on). How attributes are obtained and labels
  compared is not modelled; attributes are strings without NUL.
- The text of the tape's own header, the magic number, and everything the import does with the strings it has
  recovered.
- Printing without labels or without filters, the centring and emphasis of the label, the printer's first and
  last sequences, and accounting other than the number of pages.
- The size of the printers' line buffer: what is read is any sequence of strings, and the place behind the last
  column, where a newline is put when lines are cut off, is taken to lie in the buffer.
- PagePrinter.FramedIff: counts newlines and form feeds; other characters that a printer may take for vertical
  motion are as harmless as the maps make them.
- The header lines that imake writes first, white space repaired under FIXUP_CPP_WHITESPACE, and temporary files.
