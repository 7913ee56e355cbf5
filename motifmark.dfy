/** main(): the whole run of motif mark on the lines of a sequence file and the
    lines of a motif file, from parsing to the drawn diagram. */
module MotifMark {
  import opened Outcome
  import opened PyStr
  import opened PyDict
  import opened Iupac
  import opened Fasta
  import opened Scanner
  import opened Layout

  /** What the run has found before it draws: the positional lists, the
      compiled motifs and all_motif_spans. */
  datatype Scan = Scan(pos: Positions, table: Dict<string, Pattern>, all: Dict<string, SpanTable>)

  /** get_positions on the sequence file, then motif_spans with the motif file:
      the first exception of either stops the run. On success the positional
      lists describe the records, the table holds every distinct motif, and
      entry i of all_motif_spans holds every motif of the table, in table order,
      with its spans in sequence i. */
  function ScanOf(fastaLines: seq<string>, motifLines: seq<string>): (r: Result<Scan>)
    ensures r.Ok? <==> LocateAll(Records(fastaLines)).Ok? && CompileAll(MotifKeys(motifLines)).Ok?
    ensures LocateAll(Records(fastaLines)).Err? ==> r == Err(LocateAll(Records(fastaLines)).error)
    ensures LocateAll(Records(fastaLines)).Ok? && CompileAll(MotifKeys(motifLines)).Err? ==>
              r == Err(CompileAll(MotifKeys(motifLines)).error)
    ensures r.Ok? ==>
              Located(Records(fastaLines), r.value.pos) &&
              r.value.table.keys == FirstOccurrences(MotifKeys(motifLines)) &&
              Scanned(r.value) &&
              r.value.all == AllSpans(r.value.table, r.value.pos.seqs)
  {
    var recs := Records(fastaLines);
    var keys := MotifKeys(motifLines);
    if LocateAll(recs).Err? then Err(LocateAll(recs).error)
    else if CompileAll(keys).Err? then Err(CompileAll(keys).error)
    else
      var pos, table := LocateAll(recs).value, CompileAll(keys).value;
      LocateAllOk(recs);
      CompiledTable(keys);
      ScanFacts(pos, table);
      Ok(Scan(pos, table, AllSpans(table, pos.seqs)))
  }

  /** What the scan guarantees the drawing: the table holds each motif with its
      compiled form, and entry i of all_motif_spans holds every motif of the
      table, in table order, with its spans in sequence i. */
  ghost predicate Scanned(sc: Scan)
  {
    sc.table.Valid() && Drawable(sc.pos, sc.all) &&
    (forall k | k in sc.table.values :: Compile(k) == Ok(sc.table.values[k])) &&
    forall i | 0 <= i < sc.pos.Count() ::
      sc.all.values[sc.all.keys[i]] == ScanRow(sc.table, sc.pos.seqs[i], |sc.table.keys|)
  }

  /** A scan of consistent positions with a compiled table keeps what
      Scanned promises. */
  lemma ScanFacts(pos: Positions, table: Dict<string, Pattern>)
    requires pos.Consistent() && table.Valid()
    requires forall k | k in table.values :: Compile(k) == Ok(table.values[k])
    ensures Scanned(Scan(pos, table, AllSpans(table, pos.seqs)))
  {
    AllSpansDrawable(pos, table);
  }

  /** all_motif_spans is what main may draw: one entry per sequence, in order,
      and entry i is the table of sequence i. */
  lemma AllSpansDrawable(pos: Positions, table: Dict<string, Pattern>)
    requires pos.Consistent() && table.Valid()
    ensures var all := AllSpans(table, pos.seqs);
            Drawable(pos, all) &&
            forall i | 0 <= i < pos.Count() ::
              all.keys[i] in all.values &&
              all.values[all.keys[i]] == ScanRow(table, pos.seqs[i], |table.keys|)
  {
    var all := AllSpans(table, pos.seqs);
    var n := |pos.seqs|;
    forall i | 0 <= i < n
      ensures all.keys[i] in all.values && all.values[all.keys[i]] == ScanRow(table, pos.seqs[i], |table.keys|)
    {
      SeqKeysAt(n, i);
      AllSpansAt(table, pos.seqs, i);
    }
    forall k | k in all.values ensures all.values[k].Valid() {
      var i :| 0 <= i < n && all.keys[i] == k;
    }
  }

  /** What main draws from the lines of the sequence file, the lines of the
      motif file and the name of the sequence file, or the exception that stops
      it. The legend lists the keys of convert_motifs, the table's keys. */
  function Pipeline(fastaLines: seq<string>, motifLines: seq<string>, name: string): Result<Diagram>
  {
    match ScanOf(fastaLines, motifLines)
    case Err(e) => Err(e)
    case Ok(sc) => DiagramOf(sc.pos, sc.all, sc.table.keys, name)
  }

  /** main, minus argument parsing, file handling and the cairo calls: get the
      positions, scan for the motifs, and draw (converting the motif file once
      more for the legend, between the rows and the legend). */
  method Run(fastaLines: seq<string>, motifLines: seq<string>, name: string) returns (r: Result<Diagram>)
    ensures r == Pipeline(fastaLines, motifLines, name)
  {
    var positions := GetPositions(fastaLines);
    if positions.Err? {
      return Err(positions.error);
    }
    var pos := positions.value;
    var found := MotifSpans(motifLines, pos.seqs);
    if found.Err? {
      return Err(found.error);
    }
    var all := found.value;
    LocateAllOk(Records(fastaLines));
    AllSpansDrawable(pos, CompileAll(MotifKeys(motifLines)).value);
    r := DrawDiagram(pos, all, motifLines, name);
  }

  /** Every row of all_motif_spans holds every motif of the table. */
  lemma RowsHoldAllMotifs(sc: Scan, i: nat)
    requires sc.table.Valid() && Drawable(sc.pos, sc.all) && i < sc.pos.Count()
    requires sc.all.values[sc.all.keys[i]] == ScanRow(sc.table, sc.pos.seqs[i], |sc.table.keys|)
    ensures MotifCount(sc.all, i) == |sc.table.keys|
  {
    assert sc.all.values[sc.all.keys[i]].keys == sc.table.keys[..|sc.table.keys|];
  }

  /** A run draws its diagram exactly when every record has a coordinate range
      and an exon, every motif line is made of IUPAC codes, there are one to six
      sequences, and palette(number of sequences) colours the distinct motifs:
      none at all, or at least two sequences and no more motifs than sequences. */
  lemma PipelineSucceeds(fastaLines: seq<string>, motifLines: seq<string>, name: string)
    ensures Pipeline(fastaLines, motifLines, name).Ok? <==>
              LocateAll(Records(fastaLines)).Ok? && CompileAll(MotifKeys(motifLines)).Ok? &&
              0 < |Records(fastaLines)| <= 6 &&
              Paints(|Records(fastaLines)|, |FirstOccurrences(MotifKeys(motifLines))|)
  {
    var sc := ScanOf(fastaLines, motifLines);
    if sc.Ok? {
      var s := sc.value;
      DiagramSucceeds(s.pos, s.all, s.table.keys, name);
      forall i | 0 <= i < s.pos.Count() ensures MotifCount(s.all, i) == |s.table.keys| {
        RowsHoldAllMotifs(s, i);
      }
    }
  }

  /** The bars of motif j on row i are the spans finditer reports for that motif
      in sequence i, drawn on the row's baseline in the colour of legend entry j:
      each as long as the motif, inside the row's backbone, and left to right
      without overlapping one another. This holds whatever the palette. */
  lemma BarsPlaced(sc: Scan, name: string, chosen: Result<Palette>, i: nat, j: nat)
    requires Scanned(sc) && DiagramWith(sc.pos, sc.all, sc.table.keys, name, chosen).Ok?
    requires i < sc.pos.Count() && j < |sc.table.keys|
    ensures var d := DiagramWith(sc.pos, sc.all, sc.table.keys, name, chosen).value;
            var motif := sc.table.keys[j];
            |d.rows| == sc.pos.Count() && |d.rows[i].bars| == |sc.table.keys| && |d.swatches| == |sc.table.keys| &&
            var row, bars := d.rows[i], d.rows[i].bars[j];
            bars == Bars(FindIter(sc.table.values[motif], sc.pos.seqs[i], 0), Baseline(i), d.swatches[j].bar.colour) &&
            (forall t | 0 <= t < |bars| ::
               bars[t].x1 - bars[t].x0 == |motif| &&
               row.intron5.x0 <= bars[t].x0 && bars[t].x1 <= row.intron3.x1 &&
               bars[t].y == row.exon.y && bars[t].colour == d.swatches[j].bar.colour) &&
            (forall t, u | 0 <= t < u < |bars| :: bars[t].x1 <= bars[u].x0)
  {
    var motif := sc.table.keys[j];
    var spans := sc.all.values[sc.all.keys[i]];
    RowsHoldAllMotifs(sc, i);
    RowDrawn(sc.pos, sc.all, sc.table.keys, name, chosen, i, j);
    assert spans.keys == sc.table.keys[..|sc.table.keys|];
    assert spans.keys[j] == motif;
    assert Compile(motif) == Ok(sc.table.values[motif]);
    var d := DiagramWith(sc.pos, sc.all, sc.table.keys, name, chosen).value;
    FoundBars(sc.table.values[motif], sc.pos.seqs[i], Baseline(i), d.swatches[j].bar.colour);
  }

  // ---- The palette main evidently means ----

  /** What main draws when palette is asked for one colour per motif. */
  function IntendedPipeline(fastaLines: seq<string>, motifLines: seq<string>, name: string): Result<Diagram>
  {
    match ScanOf(fastaLines, motifLines)
    case Err(e) => Err(e)
    case Ok(sc) => IntendedDiagramOf(sc.pos, sc.all, sc.table.keys, name)
  }

  /** With one colour per motif, a run draws its diagram exactly when every
      record is locatable, every motif is made of IUPAC codes, there is a
      sequence, and there are one to six distinct motifs. */
  lemma IntendedPipelineSucceeds(fastaLines: seq<string>, motifLines: seq<string>, name: string)
    ensures IntendedPipeline(fastaLines, motifLines, name).Ok? <==>
              LocateAll(Records(fastaLines)).Ok? && CompileAll(MotifKeys(motifLines)).Ok? &&
              0 < |Records(fastaLines)| && 0 < |FirstOccurrences(MotifKeys(motifLines))| <= 6
  {
    var sc := ScanOf(fastaLines, motifLines);
    if sc.Ok? {
      var s := sc.value;
      IntendedSucceeds(s.pos, s.all, s.table.keys, name);
      forall i | 0 <= i < s.pos.Count() ensures MotifCount(s.all, i) == |s.table.keys| {
        RowsHoldAllMotifs(s, i);
      }
    }
  }

  /** A sequence file with one record: gene A at coordinates 100-200, its exon
      ATCG between introns of three bases. */
  const OneGene: seq<string> := [">geneA 100-200", "aaaATCGaaa"]

  /** Both lines of a record, already stripped: a header, then a sequence line. */
  predicate RecordLines(lines: seq<string>)
  {
    |lines| == 2 && Rstrip(lines[0]) == lines[0] && Rstrip(lines[1]) == lines[1] &&
    IsHeader(lines[0]) && !IsHeader(lines[1])
  }

  lemma GeneALines()
    ensures RecordLines(OneGene)
  {
    assert Rstrip(OneGene[0]) == OneGene[0];
    assert Rstrip(OneGene[1]) == OneGene[1];
  }

  lemma OneGeneRecords()
    ensures Records(OneGene) == [Record(">geneA 100-200", "aaaATCGaaa")]
  {
    var fasta := OneGene;
    GeneALines();
    OneLineRecord(fasta[0], fasta[1], []);
    assert [fasta[0], fasta[1]] + [] == fasta;
  }

  lemma OneGeneLocated()
    ensures LocateAll(Records(OneGene)).Ok? && |Records(OneGene)| == 1
  {
    OneGeneRecords();
    GeneALocatable();
    LocateAllOk(Records(OneGene));
  }

  /** Gene A's header holds the range 100-200 and its sequence an upper-case
      letter at index 3. */
  lemma GeneALocatable()
    ensures Locatable(Record(">geneA 100-200", "aaaATCGaaa"))
  {
    var rec := Record(">geneA 100-200", "aaaATCGaaa");
    assert DigitsEnd(rec.header, 7) == 10;
    assert FindRange(rec.header, 0).Some? by {
      assert RangeAt(rec.header, 7);
    }
    assert FirstUpper(rec.sequence, 0).Some? by {
      assert IsUpperLetter(rec.sequence[3]);
    }
  }

  /** A motif file of one line. */
  const OneMotif: seq<string> := ["ATCG"]

  lemma OneMotifCompiled()
    ensures CompileAll(MotifKeys(OneMotif)).Ok? && |FirstOccurrences(MotifKeys(OneMotif))| == 1
  {
    var keys := MotifKeys(OneMotif);
    CapitalKey(OneMotif[0]);
    assert keys == ["ATCG"];
    assert Compile(keys[0]).Ok?;
    FirstOccurrencesDistinct(keys);
  }

  /** One record with its exon and one motif: main as written stops, because
      palette(1) is a bare colour and indexing it fails, while one colour per
      motif draws the diagram. */
  lemma OneSequenceOneMotif()
    ensures Pipeline(OneGene, OneMotif, "genes.fa") == Err(BareColour(0))
    ensures IntendedPipeline(OneGene, OneMotif, "genes.fa").Ok?
  {
    OneGeneLocated();
    OneMotifCompiled();
    RunStopsAtColour(OneGene, OneMotif, "genes.fa", 0);
    IntendedPipelineSucceeds(OneGene, OneMotif, "genes.fa");
  }

  /** A run whose scan succeeds, with one to six sequences, and whose palette
      has colours for the first j motifs but none for motif j, stops with the
      error of pal[j]: every row holds every motif, so the first row fails. */
  lemma RunStopsAtColour(fastaLines: seq<string>, motifLines: seq<string>, name: string, j: nat)
    requires ScanOf(fastaLines, motifLines).Ok? && 0 < |Records(fastaLines)| <= 6
    requires j < |FirstOccurrences(MotifKeys(motifLines))|
    requires ColourAt(PaletteFor(|Records(fastaLines)|).value, j).Err?
    requires forall k | 0 <= k < j :: ColourAt(PaletteFor(|Records(fastaLines)|).value, k).Ok?
    ensures Pipeline(fastaLines, motifLines, name) == Err(ColourAt(PaletteFor(|Records(fastaLines)|).value, j).error)
  {
    var s := ScanOf(fastaLines, motifLines).value;
    RowsHoldAllMotifs(s, 0);
    FirstRowStops(s.pos, s.all, s.table.keys, name, PaletteFor(|s.all.keys|), j);
  }

  /** Where the run as written and the run with one colour per motif differ:
      when the latter draws, the former draws too exactly when there are at most
      six sequences and palette(number of sequences) colours the motifs. */
  lemma PaletteBySequences(fastaLines: seq<string>, motifLines: seq<string>, name: string)
    requires IntendedPipeline(fastaLines, motifLines, name).Ok?
    ensures Pipeline(fastaLines, motifLines, name).Ok? <==>
              |Records(fastaLines)| <= 6 &&
              Paints(|Records(fastaLines)|, |FirstOccurrences(MotifKeys(motifLines))|)
  {
    IntendedPipelineSucceeds(fastaLines, motifLines, name);
    PipelineSucceeds(fastaLines, motifLines, name);
  }

  /** A second record: gene B at coordinates 5-9, its exon GG. */
  const GeneB: seq<string> := [">geneB 5-9", "ccGGcc"]

  /** A sequence file with two records: gene A, then gene B. */
  const TwoGenes: seq<string> := OneGene + GeneB

  lemma GeneBLines()
    ensures RecordLines(GeneB)
  {
    assert Rstrip(GeneB[0]) == GeneB[0];
    assert Rstrip(GeneB[1]) == GeneB[1];
  }

  lemma GeneBRecords()
    ensures Records(GeneB) == [Record(">geneB 5-9", "ccGGcc")]
  {
    var lines := GeneB;
    GeneBLines();
    OneLineRecord(lines[0], lines[1], []);
    assert [lines[0], lines[1]] + [] == lines;
  }

  lemma TwoGenesRecords()
    ensures Records(TwoGenes) == [Record(">geneA 100-200", "aaaATCGaaa"), Record(">geneB 5-9", "ccGGcc")]
  {
    var fasta := OneGene;
    GeneALines();
    GeneBLines();
    GeneBRecords();
    OneLineRecord(fasta[0], fasta[1], GeneB);
    assert [fasta[0], fasta[1]] + GeneB == TwoGenes;
  }

  lemma TwoGenesLocated()
    ensures LocateAll(Records(TwoGenes)).Ok? && |Records(TwoGenes)| == 2
  {
    TwoGenesRecords();
    GeneALocatable();
    GeneBLocatable();
    LocateAllOk(Records(TwoGenes));
  }

  /** Gene B's header holds the range 5-9 and its sequence an upper-case letter
      at index 2. */
  lemma GeneBLocatable()
    ensures Locatable(Record(">geneB 5-9", "ccGGcc"))
  {
    var rec := Record(">geneB 5-9", "ccGGcc");
    assert DigitsEnd(rec.header, 7) == 8;
    assert FindRange(rec.header, 0).Some? by {
      assert RangeAt(rec.header, 7);
    }
    assert FirstUpper(rec.sequence, 0).Some? by {
      assert IsUpperLetter(rec.sequence[2]);
    }
  }

  /** A motif file of three distinct motifs. */
  const ThreeMotifs: seq<string> := ["ATCG", "GG", "YGCY"]

  /** A motif line of upper-case letters only is its own key. */
  lemma CapitalKey(line: string)
    requires forall i | 0 <= i < |line| :: 'A' <= line[i] <= 'Z'
    ensures MotifKey(line) == line
  {
    assert Upper(line) == line;
    assert Rstrip(line) == line by {
      if line != [] {
        assert line[|line| - 1] !in Whitespace;
      }
    }
    assert Lstrip(line) == line by {
      if line != [] {
        assert line[0] !in Whitespace;
      }
    }
  }

  lemma ThreeMotifsEachCompile()
    ensures forall i | 0 <= i < |ThreeMotifs| :: Compile(ThreeMotifs[i]).Ok?
  {
    var m := ThreeMotifs;
    assert Compile(m[0]).Ok?;
    assert Compile(m[1]).Ok?;
    assert Compile(m[2]).Ok? by {
      forall i | 0 <= i < |m[2]| ensures BaseClass(m[2][i]).Some? {
        TableCodes(m[2][i]);
      }
    }
  }

  lemma ThreeMotifsCompiled()
    ensures CompileAll(MotifKeys(ThreeMotifs)).Ok? && |FirstOccurrences(MotifKeys(ThreeMotifs))| == 3
  {
    var m := ThreeMotifs;
    CapitalKey(m[0]);
    CapitalKey(m[1]);
    CapitalKey(m[2]);
    assert MotifKeys(m) == m;
    ThreeMotifsEachCompile();
    FirstOccurrencesDistinct(m);
  }

  /** Two records and more than two motifs: palette(2) has a colour for the
      first two motifs of the first row and none for the third. */
  lemma TwoSequencesStopAtThirdMotif(fastaLines: seq<string>, motifLines: seq<string>, name: string)
    requires ScanOf(fastaLines, motifLines).Ok? && |Records(fastaLines)| == 2
    requires 2 < |FirstOccurrences(MotifKeys(motifLines))|
    ensures Pipeline(fastaLines, motifLines, name) == Err(PaletteIndex(2))
  {
    TwoColours();
    RunStopsAtColour(fastaLines, motifLines, name, 2);
  }

  /** palette(2) colours motifs 0 and 1 and has no colour for motif 2. */
  lemma TwoColours()
    ensures forall k | 0 <= k < 2 :: ColourAt(PaletteFor(2).value, k).Ok?
    ensures ColourAt(PaletteFor(2).value, 2) == Err(PaletteIndex(2))
  {
    assert PaletteFor(2).value == Colours([Green, Purple]);
  }

  /** Two records and three motifs: main as written stops, because
      palette(2) has two colours and the third motif has none, while one colour
      per motif draws the diagram. */
  lemma TwoSequencesThreeMotifs()
    ensures Pipeline(TwoGenes, ThreeMotifs, "genes.fa") == Err(PaletteIndex(2))
    ensures IntendedPipeline(TwoGenes, ThreeMotifs, "genes.fa").Ok?
  {
    TwoGenesLocated();
    ThreeMotifsCompiled();
    TwoSequencesStopAtThirdMotif(TwoGenes, ThreeMotifs, "genes.fa");
    IntendedPipelineSucceeds(TwoGenes, ThreeMotifs, "genes.fa");
  }
}
