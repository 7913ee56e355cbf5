# Motif Mark, modelled in Dafny

Motif Mark (`winans_motif_mark.py`) draws where degenerate nucleotide motifs
occur in annotated gene sequences. It reads a FASTA file in which each header
carries a `start-end` coordinate range and each sequence marks its exon in
upper case, reads a file of IUPAC motifs (one per line), finds every motif in
every sequence with Python's `re.finditer`, and draws one row per sequence
(5' intron, exon, 3' intron, motif bars) plus a legend, with cairo.

This project models that pipeline, up to the drawing calls:

| file | module | what it models |
|---|---|---|
| `outcome.dfy` | `Outcome` | `Option`, `Result`, and one `Error` per exception the script raises on its own data |
| `pystr.dfy` | `PyStr` | the string built-ins used: `rstrip`, `lstrip`, `strip`, `upper` (ASCII), `''.join`, `str(n)`, `split(' ')[0]` |
| `pydict.dfy` | `PyDict` | an insertion-ordered `dict` (key order plus a map), `d[k] = v`, `len` |
| `iupac.dfy` | `Iupac` | `degenerate_bases` as character sets, `convert_motifs` |
| `fasta.dfy` | `Fasta` | `parse_fasta`, the two `re.search` calls of `get_positions`, `get_positions` |
| `scanner.dfy` | `Scanner` | `re.finditer` over a compiled motif, `motif_spans` |
| `layout.dfy` | `Layout` | `palette`, and the geometry `main` computes: canvas, rows, bars, legend |
| `motifmark.dfy` | `MotifMark` | `main` from the two files' lines to the diagram, and the palette findings |

The imperative parts of the source are methods with loops, each proved equal to
a specification function: `ConvertMotifs`, `ParseFasta` (the two-state
generator), `GetPositions` (six lists appended in a loop), `MotifSpans` and
`ScanSequence` (nested dictionaries filled in a loop), `DrawRows` (the row loop
with `line_y += 150`), `DrawRow` and `DrawSpans` (one row and one motif's
spans), and `DrawLegend` (the legend loop). `DrawDiagram` and `Run` (`main`)
call those methods in the source's order and have no loop of their own: `Run`
gets the positions and runs `MotifSpans` (which converts the motif file), and
`DrawDiagram` draws the rows and the exon key, then converts the motif file a
second time (`DrawMotifLegend`, line 267) and draws the legend of that list.
Everything about the results is then proved of the specification functions.

Every failure is an uncaught exception that ends the run, so each operation
returns `Result`: `KeyError` on a character outside the IUPAC table,
`AttributeError` when a header has no `digits-digits` range or a sequence no
upper-case letter, `ValueError` from `max()` of no sequences, `UnboundLocalError`
from `palette(n)` outside 1..6, and `TypeError`/`IndexError` from `pal[j]`.

The motif scan is `re.finditer` (winans_motif_mark.py:128), which reports the
leftmost non-overlapping matches of a motif, not every overlapping occurrence:
"AA" in "AAAA" is found at 0 and 2 only, although it also matches at 1.
`Scanner.FindIter` models that scan, and `Scanner.NonOverlappingExample` shows
that example. `palette`'s docstring (winans_motif_mark.py:137) takes the number
of motifs, but `main` passes it the number of sequences (line 193; see
Findings).

## Model

| member | source | states |
|---|---|---|
| Iupac.BaseClass | winans_motif_mark.py:30-53 | `degenerate_bases()`: the character class of each of the seventeen codes as a set of accepted characters, none for any other character; its properties are the three lemmas below |
| Iupac.TableCodes | winans_motif_mark.py:34-52 | the table has exactly the seventeen codes ACGTUWSMKRYBDHVNZ |
| Iupac.TableClasses | winans_motif_mark.py:34-52 | each class holds nucleotide letters only, is empty exactly for Z, holds both cases of each letter, and holds T exactly when it holds U |
| Iupac.ClassMeansCode | winans_motif_mark.py:34-52 | a class accepts exactly the letters that, ignoring case and reading U as T, stand for a base the IUPAC code means |
| Iupac.Compile | winans_motif_mark.py:63-66 | a motif compiles exactly when every character is in the table; the compiled motif has one class per character, in order; otherwise the error is the KeyError of the first unknown character |
| Iupac.CompiledMeansCode | winans_motif_mark.py:65-66 | position i of a compiled motif accepts exactly the letters that stand for a base the code at i means |
| Iupac.MotifKey | winans_motif_mark.py:64 | `motif.upper().strip()`, the key of a motif line; MotifKeySpec states what it yields |
| Iupac.MotifKeySpec | winans_motif_mark.py:64 | a key is no longer than its line, holds no ASCII lower-case letter and has no whitespace at either end |
| Iupac.CompileFirstError | winans_motif_mark.py:65-66 | the first character outside the table decides the KeyError |
| Iupac.CompileAll | winans_motif_mark.py:59-68 | the conversion succeeds exactly when every line compiles; a failure is the error of the first line that fails |
| Iupac.CompileAllFirstError | winans_motif_mark.py:62-67 | the first line that fails decides the error of the whole conversion |
| Iupac.CompiledTable | winans_motif_mark.py:60-68 | the table holds each distinct key `line.upper().strip()` once, in first-seen order (repeated lines collapse), each with its compiled form |
| Iupac.ConvertMotifs | winans_motif_mark.py:56-68 | the loop computes the conversion of the motif lines |
| Fasta.Body | winans_motif_mark.py:76-82 | the right-stripped lines after a header, joined, up to the next header or the end |
| Fasta.Records | winans_motif_mark.py:71-84 | what parse_fasta yields, header by header; RecordCount, RecordOfHeader and LeadingLinesIgnored state its properties |
| Fasta.ParseFasta | winans_motif_mark.py:71-84 | the two-state loop yields the records of the file: one per header, with the right-stripped header and its body |
| Fasta.RecordCount | winans_motif_mark.py:74-84 | one record per header line |
| Fasta.RecordOfHeader | winans_motif_mark.py:77-84 | the record of the header on line h comes after those of the headers above it and holds that header and the stripped lines below it, joined, up to the next header |
| Fasta.LeadingLinesIgnored | winans_motif_mark.py:74-82 | lines before the first header belong to no record |
| Fasta.OneLineRecord | winans_motif_mark.py:75-84 | a header followed by one sequence line, then a header or the end, makes one record of the two stripped lines |
| Fasta.DigitsEnd | winans_motif_mark.py:100 | the greedy `\d+` from p ends at the first non-digit |
| Fasta.FindRange | winans_motif_mark.py:100 | `re.search('\d+-\d+')`: the leftmost offset where a range matches, or none at all |
| Fasta.StartDigits | winans_motif_mark.py:100-101 | `pos.split('-')[0]` is a non-empty run of digits |
| Fasta.UpperEnd | winans_motif_mark.py:104-106 | the greedy `[A-Z]+` from p ends at the first non-capital |
| Fasta.FirstUpper | winans_motif_mark.py:104-105 | `re.search('[A-Z]+')` starts at the first capital letter, or finds nothing |
| Fasta.LocateAll | winans_motif_mark.py:87-108 | get_positions on the parsed records: the six lists, or the exception of the first record without a range or an exon; LocateAllOk and LocateAllErr state its properties |
| Fasta.LocateAllOk | winans_motif_mark.py:96-108 | get_positions succeeds exactly when every record has a range and an exon; then the six lists have one entry per record, entry i taken from record i, `seq_length[i] == len(seqs[i])` and `0 <= exon_start < exon_end <= seq_length` |
| Fasta.LocatedSnoc | winans_motif_mark.py:96-108 | one more locatable record appends its own header, sequence, start, length and exon to located lists |
| Fasta.LocateAllErr | winans_motif_mark.py:96-106 | a failure names the first record without a range (AttributeError on the header) or, failing that, without an exon |
| Fasta.LocateAllPrefixError | winans_motif_mark.py:96-106 | a failure among the first k records is the failure of the whole file |
| Fasta.GetPositions | winans_motif_mark.py:87-108 | the loop appending to six lists computes the positional lists of the parsed records, or the first record's error |
| Scanner.Search | winans_motif_mark.py:128 | the leftmost offset at or after `from` where the motif matches, and no match before it |
| Scanner.FindIter | winans_motif_mark.py:128-129 | every span is a match as long as the motif, starting at or after `from`; spans are strictly increasing and do not overlap |
| Scanner.EveryMatchCovered | winans_motif_mark.py:128-129 | every offset where a non-empty motif matches lies inside a reported span |
| Scanner.FindIterIsGreedy | winans_motif_mark.py:128-129 | finditer's spans are the leftmost non-overlapping matches: matches, disjoint, covering every match |
| Scanner.GreedyUnique | winans_motif_mark.py:128-129 | any list of spans that is greedy in that sense is finditer's list |
| Scanner.TailGreedy | winans_motif_mark.py:128-129 | dropping the first greedy span leaves the greedy spans after it |
| Scanner.TooLongNeverFound | winans_motif_mark.py:128-129 | a motif longer than the sequence yields no span |
| Scanner.EmptyClassNeverFound | winans_motif_mark.py:51 | a motif containing Z is never found |
| Scanner.MatchMeansIupac | winans_motif_mark.py:128 | a compiled motif matches at k exactly when it fits and each sequence letter stands for a base the code at that position means |
| Scanner.NonOverlappingExample | winans_motif_mark.py:128-129 | "AA" in "AAAA" gives (0,2) and (2,4) only, although it also matches at 1 |
| Scanner.SeqKeys | winans_motif_mark.py:131 | there are n outer keys for n sequences |
| Scanner.SeqKeysAt | winans_motif_mark.py:131 | the i-th outer key is `"seq{i}"` |
| Scanner.SeqKeyInjective | winans_motif_mark.py:131 | different sequences get different keys |
| Scanner.SeqKeyDistinct | winans_motif_mark.py:131 | the key of sequence i differs from that of any later sequence |
| Scanner.SeqKeyFresh | winans_motif_mark.py:131 | a new sequence's key is not yet in the dictionary, so no entry is overwritten |
| Scanner.ScanRow | winans_motif_mark.py:126-129 | the inner dictionary lists the table's motifs in table order, each with its finditer spans (empty when nothing matches) |
| Scanner.Keyed | winans_motif_mark.py:124-131 | inserting the rows in order gives a dictionary keyed `seq0`..`seq{n-1}` in that order |
| Scanner.KeyedAt | winans_motif_mark.py:131 | key `"seq{i}"` holds row i |
| Scanner.AllSpans | winans_motif_mark.py:124-133 | all_motif_spans is a dictionary keyed `seq0`..`seq{n-1}` |
| Scanner.AllSpansAt | winans_motif_mark.py:124-131 | entry `"seq{i}"` holds every motif's spans in sequence i |
| Scanner.OneEntryPerSequence | winans_motif_mark.py:124-133 | `len(all_motif_spans)` is the number of sequences |
| Scanner.RowsSnoc | winans_motif_mark.py:125-131 | scanning one more sequence appends its row |
| Scanner.KeyedSnoc | winans_motif_mark.py:131 | the next key `"seq{n}"` is not yet in the dictionary, so one more row is appended at the end of the key order and every earlier entry keeps its value |
| Scanner.ScanSequence | winans_motif_mark.py:126-129 | the inner loop computes the row of one sequence |
| Scanner.MotifSpans | winans_motif_mark.py:111-133 | motif_spans fails exactly when the conversion fails, with its error, and otherwise returns all_motif_spans of the compiled table |
| Layout.PaletteFor | winans_motif_mark.py:136-166 | palette(n) has n distinct motif colours in a fixed order for n in 2..6, one bare colour for n == 1, and fails with UnboundLocalError otherwise |
| Layout.PaintsAll | winans_motif_mark.py:136-166 | palette(n) has a colour for each of m motifs exactly when m is 0, or n >= 2 and m <= n |
| Layout.ColourAt | winans_motif_mark.py:246 | `pal[j]` as `set_source_rgba` uses it: the j-th colour of a list, a TypeError or IndexError on a bare colour, an IndexError past the end |
| Layout.MaxLength | winans_motif_mark.py:184 | `max(seq_length)` is one of the lengths and no length exceeds it |
| Layout.RowOf | winans_motif_mark.py:202-251 | a row exists exactly when every motif of its dictionary has a colour; otherwise it fails with the first missing colour's error |
| Layout.RowGeometry | winans_motif_mark.py:211-230 | a drawn row's 5' intron, exon and 3' intron run contiguously from x = 50 to 50 + the sequence length, the exon at 50 + its span, on one baseline, the exon thicker than the introns, and its bars are the motif bars |
| Layout.MotifBarsSpec | winans_motif_mark.py:244-251 | the bars of a row exist exactly when every motif has a colour; motif j in dictionary order is drawn in colour pal[j], one bar per span |
| Layout.MotifBarsPrefixError | winans_motif_mark.py:244-246 | the first motif without a colour stops the row |
| Layout.RowsSpec | winans_motif_mark.py:202-253 | the rows exist exactly when every row does; row i is drawn on baseline 150 + 150 * i |
| Layout.RowsPrefixError | winans_motif_mark.py:203-253 | the first failed row stops the drawing |
| Layout.SwatchesSpec | winans_motif_mark.py:267-273 | the legend exists exactly when every motif has a colour; entry t names motif t, in pal[t], at y = 150 + 35 * t, from x = max(seq_length) + 50 to x = max(seq_length) + 80 |
| Layout.SwatchesPrefixError | winans_motif_mark.py:268-270 | the first legend entry without a colour stops the legend |
| Layout.DrawSpans | winans_motif_mark.py:247-251 | the loop over one motif's spans draws each span shifted 50 right, 35 wide |
| Layout.DrawRow | winans_motif_mark.py:203-251 | one pass of the row loop draws the row of sequence i |
| Layout.DrawRows | winans_motif_mark.py:202-253 | the row loop, with `line_y` starting at 150 and growing by 150, computes the rows of every sequence or the first row's error |
| Layout.DrawLegend | winans_motif_mark.py:267-273 | the legend loop computes one entry per motif, in order, or the first missing colour's error |
| Layout.DiagramWith | winans_motif_mark.py:183-273 | main's drawing with a given palette: `max()` first, then the palette, the rows and the legend, stopping at the first exception; DiagramSucceeds, DiagramShape, RowDrawn and CanvasHolds state its properties |
| Layout.DiagramOf | winans_motif_mark.py:193 | the drawing with `palette(len(all_motif_spans))`, as main does it |
| Layout.DrawDiagram | winans_motif_mark.py:183-273 | main's drawing computes the diagram: `max()` first, then `palette(len(all_motif_spans))`, rows with `line_y += 150`, the exon key, then the motif file converted again and the legend of its keys; when that conversion fails the drawing fails |
| Layout.DrawMotifLegend | winans_motif_mark.py:267-273 | `list(convert_motifs(motif_file).keys())` then the legend loop: the conversion's error, or the legend entries of the converted motifs |
| Layout.FirstRowStops | winans_motif_mark.py:244-246 | when the first row holds motifs 0..j, pal[0..j-1] are colours and pal[j] is not, the drawing fails with pal[j]'s error, before any legend |
| Layout.DiagramSucceeds | winans_motif_mark.py:184-273 | main draws exactly when there are one to six sequences and palette(number of sequences) colours the motifs of every row and of the legend; no sequence gives ValueError, more than six UnboundLocalError |
| Layout.DiagramShape | winans_motif_mark.py:184-273 | canvas `max(seq_length) + 250` wide and `records * 150 + 100` high; one row per sequence on baseline 150 + 150 * i; motif j of every row in the colour of legend entry j; rows end at or left of the legend; the exon key above every legend entry |
| Layout.RowDrawn | winans_motif_mark.py:214-251 | row i's backbone runs from 50 to 50 + its length on baseline 150 + 150 * i, and motif j's bars are its spans in the colour of legend entry j |
| Layout.FoundBars | winans_motif_mark.py:128-129 | the bars of a motif's spans are as long as the motif, lie within [50, 50 + the sequence length], and run left to right without overlapping |
| Layout.CanvasHolds | winans_motif_mark.py:184-273 | every backbone, every baseline, the exon key and every legend entry lie inside the canvas |
| Layout.IntendedPalette | winans_motif_mark.py:136-166 | the corrected palette: m distinct colours for every m in 1..6, a list even for one motif, and still UnboundLocalError for no motifs or more than six |
| Layout.IntendedDiagramOf | winans_motif_mark.py:193 | the drawing with one colour per motif of the legend's list; IntendedSucceeds states when it draws |
| Layout.IntendedSucceeds | winans_motif_mark.py:193 | with one colour per motif, main draws exactly when there is a sequence, one to six motifs and no row holds more motifs than the list; the number of sequences no longer matters |
| MotifMark.ScanOf | winans_motif_mark.py:176-181 | get_positions then motif_spans: the scan succeeds exactly when both do, and otherwise fails with get_positions' exception or, when that succeeds, with convert_motifs' exception; the lists describe the records, the table holds the distinct motifs in first-seen order, and entry i holds every motif with its spans in sequence i |
| MotifMark.ScanFacts | winans_motif_mark.py:123-133 | all_motif_spans over consistent positions has one entry per sequence holding every motif of the table |
| MotifMark.AllSpansDrawable | winans_motif_mark.py:124-133 | all_motif_spans is what main may draw: one valid entry per sequence, in order |
| MotifMark.RowsHoldAllMotifs | winans_motif_mark.py:127-129 | every row holds every motif of the table |
| MotifMark.Pipeline | winans_motif_mark.py:169-278 | main minus argparse, files and cairo: get_positions and motif_spans of the two files, then the drawing; PipelineSucceeds states when it draws |
| MotifMark.Run | winans_motif_mark.py:169-278 | main, minus argparse, files and cairo, computes the diagram of the two files' lines |
| MotifMark.PipelineSucceeds | winans_motif_mark.py:176-273 | a run draws exactly when every record is locatable, every motif is IUPAC, there are one to six sequences, and the distinct motifs number 0, or at most the number of sequences when there are two or more |
| MotifMark.BarsPlaced | winans_motif_mark.py:244-251 | the bars of motif j on row i are its finditer spans in sequence i, in legend colour j, each as long as the motif, inside the row's backbone, on its baseline, left to right without overlap |
| MotifMark.IntendedPipeline | winans_motif_mark.py:193 | the run with palette asked for one colour per motif; IntendedPipelineSucceeds states when it draws |
| MotifMark.IntendedPipelineSucceeds | winans_motif_mark.py:193 | with one colour per motif, a run draws exactly when every record is locatable, every motif is IUPAC, there is a sequence and there are one to six distinct motifs |
| MotifMark.PaletteBySequences | winans_motif_mark.py:193 | where the corrected run draws, the run as written draws exactly when there are at most six sequences and palette(number of sequences) colours the motifs |
| MotifMark.OneGeneRecords | winans_motif_mark.py:71-84 | the one-record file parses to its one record |
| MotifMark.OneGeneLocated | winans_motif_mark.py:96-108 | the one-record file has its range and exon |
| MotifMark.OneMotifCompiled | winans_motif_mark.py:56-68 | the one-line motif file converts to one motif |
| MotifMark.GeneALocatable | winans_motif_mark.py:96-108 | `>geneA 100-200` holds a range and `aaaATCGaaa` an exon |
| MotifMark.OneSequenceOneMotif | winans_motif_mark.py:139-140 | one record and one motif: the run as written fails with `pal[0]` a bare number (`BareColour(0)`), the corrected run draws |
| MotifMark.RunStopsAtColour | winans_motif_mark.py:193-246 | a run whose scan succeeds with one to six sequences stops at the first motif index j without a colour in palette(number of sequences), with that `pal[j]` error |
| MotifMark.GeneBRecords | winans_motif_mark.py:71-84 | the second record parses on its own |
| MotifMark.TwoGenesRecords | winans_motif_mark.py:71-84 | the two-record file parses to its two records, in order |
| MotifMark.TwoGenesLocated | winans_motif_mark.py:96-108 | both records have a range and an exon |
| MotifMark.GeneBLocatable | winans_motif_mark.py:96-108 | `>geneB 5-9` holds a range and `ccGGcc` an exon |
| MotifMark.CapitalKey | winans_motif_mark.py:64 | a motif line of capitals only is its own key |
| MotifMark.ThreeMotifsEachCompile | winans_motif_mark.py:63-66 | each of `ATCG`, `GG` and `YGCY` compiles |
| MotifMark.ThreeMotifsCompiled | winans_motif_mark.py:56-68 | the three-line motif file converts to three distinct motifs |
| MotifMark.TwoColours | winans_motif_mark.py:139-141 | palette(2) colours indices 0 and 1 and has no index 2 |
| MotifMark.TwoSequencesStopAtThirdMotif | winans_motif_mark.py:193 | any run of two sequences and more than two motifs whose scan succeeds fails with `pal[2]` past the end of palette(2) (`PaletteIndex(2)`) |
| MotifMark.TwoSequencesThreeMotifs | winans_motif_mark.py:193 | two records and three motifs: the run as written fails with `PaletteIndex(2)`, the corrected run draws |
| PyStr.JoinAppend | winans_motif_mark.py:81-84 | `''.join` of two lists of parts in a row is the two joins concatenated, nothing between or around the parts |
| PyStr.RstripSpec | winans_motif_mark.py:76 | `rstrip()` keeps the longest prefix followed only by whitespace |
| PyStr.LstripSpec | winans_motif_mark.py:64 | `lstrip()` keeps the longest suffix preceded only by whitespace |
| PyStr.StripSpec | winans_motif_mark.py:64 | `strip()` keeps characters of its argument only, is no longer than it, and leaves no whitespace at either end |
| PyStr.UpperSpec | winans_motif_mark.py:64 | `upper()` keeps the length and leaves no ASCII lower-case letter |
| PyStr.Decimal | winans_motif_mark.py:131 | `str(n)` is a non-empty run of digits, a single digit exactly for n < 10 |
| PyStr.DecimalValue | winans_motif_mark.py:131 | the digits of `str(n)` spell n, without a leading zero unless n is 0 |
| PyStr.DecimalInjective | winans_motif_mark.py:131 | different numbers print differently, since each print spells its number |
| PyStr.FirstField | winans_motif_mark.py:209 | `split(' ')[0]` is the prefix before the first space |
| PyDict.Insert | winans_motif_mark.py:67 | `d[k] = v` sets k's value; a new key goes to the end of the order, an existing key keeps its place |
| PyDict.FirstOccurrences | winans_motif_mark.py:67 | the keys of a dictionary filled from a list: each element once, nothing else |
| PyDict.FirstOccurrencesDistinct | winans_motif_mark.py:67 | a list without repeats keeps its order as dictionary keys |
| PyDict.Size | winans_motif_mark.py:193 | `len(d)` is the number of keys in its order |

## Left out

- Argument parsing (`get_args`) and `extract_fasta_name`: the file name is a parameter of `Pipeline` and `Run`.
- Opening and reading files: the FASTA and motif files are given as their lists of lines.
- The cairo calls themselves (surface, context, `fill`, `stroke`, `show_text`, the SVG and PNG output): the model returns the geometry main would stroke, as a `Diagram`.
- The white background rectangle and the RGBA numbers of the colours: colours are names (black, grey, and the six motif colours).
- The position of the motif names in the legend, `30*(i+1.25)`, which is fractional; the legend bars and the motif each names are modelled.
- Python's regular-expression engine: a compiled motif is a sequence of character sets and `re.finditer` an explicit scan. Z is read as the empty class the table means, not as the literal `[]`, which Python's `re` does not read as an empty class.
- Iupac.MotifKey: `upper()` is modelled on ASCII letters only. Characters that Python upper-cases into IUPAC codes, such as 'ſ' to 'S', 'ß' to 'SS' or 'ﬆ' to 'ST', compile in the script but give `UnknownSymbol` in the model, and `Iupac.MotifKeySpec`'s length bound holds for the model only; `Iupac.CompileAll` and `MotifMark.PipelineSucceeds` inherit this.
- Fasta.DigitsEnd: `\d` is read as the ASCII digits 0-9 only; Python's `\d` on a `str` also matches every other Unicode decimal digit (category Nd), so a range written in such digits is found by the script but not by the model.
- Fasta.FindRange: for the same reason, a header whose first `digits-digits` range uses non-ASCII decimal digits yields `MissingPosition` in the model, or, when a later all-ASCII range exists, that later range and its start (`>g 12-٣ 4-5` gives seq_start "12" in the script and "4" in the model), where the script takes the first range; `Fasta.LocateAllOk` and `MotifMark.PipelineSucceeds` inherit this.
- `motif-mark.py`: an abandoned draft with a constant table and no functions; it is not part of this model.
- The legend's height: with the corrected palette, one sequence and four or more motifs, the legend runs past the bottom of the canvas; `Layout.CanvasHolds` is proved for the code as written only.

## Findings

| source | as written | input that shows it | evidently intended | confidence | as-written member | corrected member |
|---|---|---|---|---|---|---|
| winans_motif_mark.py:193 | `pal = palette(len(all_motif_spans))` asks for one colour per sequence, but `pal[j]` and `pal[i]` are indexed per motif (lines 246, 270) | two records (`>geneA 100-200` / `aaaATCGaaa`, `>geneB 5-9` / `ccGGcc`) and three motifs (`ATCG`, `GG`, `YGCY`): `pal[2]` is past the end of palette(2), an IndexError | `palette(len(motifs))`, one colour per motif | high; not executed | MotifMark.TwoSequencesThreeMotifs | MotifMark.IntendedPipelineSucceeds |
| winans_motif_mark.py:139-140 | `palette(1)` returns one bare RGBA list instead of a list of one colour, so `set_source_rgba(*pal[0])` unpacks a number, a TypeError | one record (`>geneA 100-200` / `aaaATCGaaa`) and one motif (`ATCG`): palette(1) is chosen and its first entry is not a colour | `[[.13, .53, .2, .8]]`, a list of one colour | high; not executed | MotifMark.OneSequenceOneMotif | Layout.IntendedPalette |

The run as written is `MotifMark.Pipeline` (with `Layout.DiagramOf`); the
corrected run is `MotifMark.IntendedPipeline` (with `Layout.IntendedDiagramOf`),
which asks the corrected palette for one colour per distinct motif.
`MotifMark.PaletteBySequences` states exactly where the two differ.
