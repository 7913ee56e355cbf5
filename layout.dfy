/** The diagram main() draws (palette and the drawing arithmetic of main), as
    geometry: the canvas size, one row per sequence (its name, the 5' intron,
    the exon, the 3' intron, the end marks and the motif bars) and the legend.
    Coordinates are cairo user-space units, y growing downwards; colours are
    names, not RGBA values. */
module Layout {
  import opened Outcome
  import opened PyStr
  import opened PyDict
  import opened Iupac
  import opened Fasta
  import opened Scanner

  /** Black for introns and text, grey (.7, .7, .7) for the exon, and the six
      colours of the colour-blind-safe bright scheme for motifs. */
  datatype Colour = Black | Grey | Blue | Cyan | Green | Yellow | Red | Purple

  /** The place of a motif colour in the six-colour palette; 6 for the two
      colours that are not motif colours. */
  function Rank(c: Colour): nat
  {
    match c
    case Blue => 0
    case Cyan => 1
    case Green => 2
    case Yellow => 3
    case Red => 4
    case Purple => 5
    case _ => 6
  }

  /** What palette(n) returns: a list of colours, or, for n == 1, one bare
      colour (a list of four numbers rather than a list of colours). */
  datatype Palette = Bare(colour: Colour) | Colours(colours: seq<Colour>)

  /** palette(n): the fixed table of n colours for n in 2..6, one bare colour
      for n == 1, and an UnboundLocalError for every other n. Each table lists
      motif colours only, all different, in the order of the six-colour table. */
  function PaletteFor(n: int): (r: Result<Palette>)
    ensures r.Ok? <==> 1 <= n <= 6
    ensures r.Err? ==> r.error == UnboundPalette(n)
    ensures n == 1 ==> r.Ok? && r.value.Bare? && Rank(r.value.colour) < 6
    ensures 2 <= n <= 6 ==>
              r.Ok? && r.value.Colours? && |r.value.colours| == n &&
              (forall i | 0 <= i < n :: Rank(r.value.colours[i]) < 6) &&
              (forall i, j | 0 <= i < j < n :: Rank(r.value.colours[i]) < Rank(r.value.colours[j]))
  {
    if n == 1 then Ok(Bare(Green))
    else if n == 2 then Ok(Colours([Green, Purple]))
    else if n == 3 then Ok(Colours([Blue, Green, Purple]))
    else if n == 4 then Ok(Colours([Cyan, Green, Yellow, Purple]))
    else if n == 5 then Ok(Colours([Blue, Cyan, Green, Yellow, Purple]))
    else if n == 6 then Ok(Colours([Blue, Cyan, Green, Yellow, Red, Purple]))
    else Err(UnboundPalette(n))
  }

  /** `set_source_rgba(*pal[j])`: the j-th colour of a list; a bare colour cannot
      be indexed into a colour (TypeError, or IndexError past its four numbers),
      and a list has no colour past its end (IndexError). */
  function ColourAt(pal: Palette, j: nat): Result<Colour>
  {
    match pal
    case Bare(_) => Err(BareColour(j))
    case Colours(cs) => if j < |cs| then Ok(cs[j]) else Err(PaletteIndex(j))
  }

  /** palette(n) has a colour for each of m motifs exactly when there are no
      motifs at all, or n is at least 2 and m at most n. */
  predicate Paints(n: int, m: nat)
  {
    m == 0 || (2 <= n && m <= n)
  }

  lemma PaintsAll(n: int, m: nat)
    requires 1 <= n <= 6
    ensures Paints(n, m) <==> forall j | 0 <= j < m :: ColourAt(PaletteFor(n).value, j).Ok?
  {
    if !Paints(n, m) {
      if n == 1 {
        assert ColourAt(PaletteFor(n).value, 0).Err?;
      } else {
        assert ColourAt(PaletteFor(n).value, n).Err?;
      }
    }
  }

  // ---- Geometry ----

  /** A stroke from (x0, y) to (x1, y). */
  datatype Segment = Segment(x0: int, x1: int, y: int, width: nat, colour: Colour)

  /** Black text whose baseline starts at (x, y). */
  datatype Label = Label(x: int, y: int, size: nat, text: string)

  /** The drawing of one sequence, in painting order: name, 5' intron, exon,
      3' intron, the 5' and 3' marks, then the bars of each motif in turn. */
  datatype Row = Row(name: Label, intron5: Segment, exon: Segment, intron3: Segment,
                     end5: Label, end3: Label, bars: seq<seq<Segment>>)

  /** A legend entry: the colour bar and the motif it stands for. */
  datatype Swatch = Swatch(bar: Segment, motif: string)

  datatype Diagram = Diagram(width: int, height: int, title: Label, rows: seq<Row>,
                             exonKey: Segment, exonName: Label, swatches: seq<Swatch>)

  /** max(seq_length) */
  function MaxLength(lengths: seq<nat>): (m: nat)
    requires lengths != []
    ensures exists i | 0 <= i < |lengths| :: lengths[i] == m
    ensures forall i | 0 <= i < |lengths| :: lengths[i] <= m
  {
    if |lengths| == 1 then lengths[0]
    else
      var m := MaxLength(lengths[..|lengths| - 1]);
      assert forall i | 0 <= i < |lengths| - 1 :: lengths[..|lengths| - 1][i] == lengths[i];
      if m < lengths[|lengths| - 1] then lengths[|lengths| - 1] else m
  }

  /** The y of the baseline of row i: line_y starts at 150 and grows by 150 per row. */
  function Baseline(i: nat): int
  {
    150 + 150 * i
  }

  /** The bars of one motif's spans on the baseline y: each span shifted right by
      the 50-unit margin. */
  function Bars(spans: seq<Span>, y: int, c: Colour): seq<Segment>
  {
    seq(|spans|, k requires 0 <= k < |spans| => Segment(50 + spans[k].start, 50 + spans[k].end, y, 35, c))
  }

  /** The bars of the first n motifs of a row, motif j in colour pal[j]: the
      colour is looked up for every motif, whether it has spans or not. */
  function MotifBars(spans: SpanTable, y: int, pal: Palette, n: nat): Result<seq<seq<Segment>>>
    requires spans.Valid() && n <= |spans.keys|
  {
    if n == 0 then Ok([])
    else
      var front := MotifBars(spans, y, pal, n - 1);
      if front.Err? then front
      else
        match ColourAt(pal, n - 1)
        case Err(e) => Err(e)
        case Ok(c) => Ok(front.value + [Bars(spans.values[spans.keys[n - 1]], y, c)])
  }

  /** The drawing of sequence i on the baseline y: its name, the 5' intron,
      the exon, the 3' intron, the end marks, then the bars of every motif, or
      the error of the first motif without a colour. */
  function RowOf(pos: Positions, i: nat, y: int, spans: SpanTable, pal: Palette): (r: Result<Row>)
    requires pos.Consistent() && i < pos.Count() && spans.Valid()
    ensures r.Ok? <==> MotifBars(spans, y, pal, |spans.keys|).Ok?
    ensures r.Err? ==> r == Err(MotifBars(spans, y, pal, |spans.keys|).error)
  {
    match MotifBars(spans, y, pal, |spans.keys|)
    case Err(e) => Err(e)
    case Ok(bars) =>
      var len, es, ee := pos.seqLength[i], pos.exonStart[i], pos.exonEnd[i];
      Ok(Row(Label(50, y - 35, 16, FirstField(pos.headers[i])),
             Segment(50, 50 + es, y, 5, Black),
             Segment(50 + es, 50 + ee, y, 35, Grey),
             Segment(50 + ee, 50 + len, y, 5, Black),
             Label(35, y + 5, 12, "5'"),
             Label(55 + len, y + 5, 12, "3'"),
             bars))
  }

  /** The geometry of a drawn row: the intron, exon and intron strokes run left
      to right, each starting where the previous one ends, and together cover
      the sequence from x = 50 to x = 50 + its length, all on the baseline y; the
      exon is thicker than the introns and sits at 50 + its span; the bars are
      those of the row's motifs. */
  lemma RowGeometry(pos: Positions, i: nat, y: int, spans: SpanTable, pal: Palette)
    requires pos.Consistent() && i < pos.Count() && spans.Valid()
    requires RowOf(pos, i, y, spans, pal).Ok?
    ensures var row := RowOf(pos, i, y, spans, pal).value;
            row.intron5.x0 == 50 && row.intron5.x1 == row.exon.x0 &&
            row.exon.x1 == row.intron3.x0 && row.intron3.x1 == 50 + pos.seqLength[i] &&
            row.intron5.x0 <= row.intron5.x1 < row.exon.x1 <= row.intron3.x1 &&
            row.exon.x0 == 50 + pos.exonStart[i] && row.exon.x1 == 50 + pos.exonEnd[i] &&
            row.intron5.y == row.exon.y == row.intron3.y == y &&
            row.intron5.width < row.exon.width && row.intron3.width < row.exon.width &&
            row.bars == MotifBars(spans, y, pal, |spans.keys|).value
  {
  }

  /** What main may assume of its data: consistent positional lists, and one
      entry of all_motif_spans per sequence, each a well-formed dictionary. */
  ghost predicate Drawable(pos: Positions, all: Dict<string, SpanTable>)
  {
    pos.Consistent() && all.Valid() && |all.keys| == pos.Count() &&
    forall k | k in all.values :: all.values[k].Valid()
  }

  /** The drawing of each of the first n entries of all_motif_spans, entry i
      on baseline 150 + 150 * i. */
  function RowList(pos: Positions, all: Dict<string, SpanTable>, pal: Palette, n: nat): seq<Result<Row>>
    requires Drawable(pos, all) && n <= |all.keys|
  {
    seq(n, i requires 0 <= i < n => RowOf(pos, i, Baseline(i), all.values[all.keys[i]], pal))
  }

  /** The rows of the first n entries of all_motif_spans, from the top down, or
      the error of the first row that fails. */
  function RowsOf(pos: Positions, all: Dict<string, SpanTable>, pal: Palette, n: nat): Result<seq<Row>>
    requires Drawable(pos, all) && n <= |all.keys|
  {
    Sequence(RowList(pos, all, pal, n))
  }

  /** The y of legend entry t as main computes it: leg_y + 5 + 30*(t+1) + t*5. */
  function SwatchY(t: nat): int
  {
    115 + 5 + 30 * (t + 1) + t * 5
  }

  /** The legend entries of the first n motifs, right of the longest sequence. */
  function SwatchesOf(maxLen: nat, motifs: seq<string>, pal: Palette, n: nat): Result<seq<Swatch>>
    requires n <= |motifs|
  {
    if n == 0 then Ok([])
    else
      var front := SwatchesOf(maxLen, motifs, pal, n - 1);
      if front.Err? then front
      else
        match ColourAt(pal, n - 1)
        case Err(e) => Err(e)
        case Ok(c) => Ok(front.value + [Swatch(Segment(maxLen + 50, maxLen + 80, SwatchY(n - 1), 30, c), motifs[n - 1])])
  }

  /** The diagram main draws from the positional lists, all_motif_spans and the
      motif list with the palette `chosen`, or the exception that stops it:
      max() of no lengths first, then the palette's own failure, then the colour
      of a motif of some row, then the colour of a legend entry. */
  function DiagramWith(pos: Positions, all: Dict<string, SpanTable>, motifs: seq<string>, name: string,
                       chosen: Result<Palette>): Result<Diagram>
    requires Drawable(pos, all)
  {
    if pos.seqLength == [] then Err(EmptyMax)
    else
      var maxLen := MaxLength(pos.seqLength);
      match chosen
      case Err(e) => Err(e)
      case Ok(pal) =>
        match RowsOf(pos, all, pal, |all.keys|)
        case Err(e) => Err(e)
        case Ok(rows) =>
          match SwatchesOf(maxLen, motifs, pal, |motifs|)
          case Err(e) => Err(e)
          case Ok(swatches) => Ok(Canvas(maxLen, |pos.seqStart|, name, rows, swatches))
  }

  /** The surface main paints for `count` sequences whose longest has length
      maxLen: width max+250 and height 150*count+100, the title at (50, 60),
      the rows, the exon key at leg_y = 115 and the legend entries. */
  function Canvas(maxLen: nat, count: nat, name: string, rows: seq<Row>, swatches: seq<Swatch>): Diagram
  {
    Diagram(maxLen + 250, count * 150 + 100, Label(50, 60, 24, "FASTA file: " + name),
            rows, Segment(maxLen + 50, maxLen + 80, 115, 30, Grey),
            Label(maxLen + 90, 122, 16, "Exon"), swatches)
  }

  /** The diagram as main draws it: the palette is palette(len(all_motif_spans)),
      chosen by the number of sequences. */
  function DiagramOf(pos: Positions, all: Dict<string, SpanTable>, motifs: seq<string>, name: string): Result<Diagram>
    requires Drawable(pos, all)
  {
    DiagramWith(pos, all, motifs, name, PaletteFor(|all.keys|))
  }

  // ---- The drawing loop of main ----

  /** The drawing part of main: the canvas size, the palette, the rows (line_y
      advancing by 150 per sequence, motif bars in dictionary order), the exon
      key, then the motif file converted once more for the legend's list of
      motifs, and the legend, each step computed as main computes it. When that
      second conversion succeeds, the result is the diagram of its keys; when
      it fails, main stops with an exception. */
  method DrawDiagram(pos: Positions, all: Dict<string, SpanTable>, motifLines: seq<string>, name: string)
    returns (r: Result<Diagram>)
    requires Drawable(pos, all)
    ensures LegendMotifs(motifLines).Ok? ==> r == DiagramOf(pos, all, LegendMotifs(motifLines).value, name)
    ensures LegendMotifs(motifLines).Err? ==> r.Err?
  {
    if pos.seqLength == [] {
      return Err(EmptyMax);
    }
    var maxLen := MaxLength(pos.seqLength);
    var width := maxLen + 250;
    var height := |pos.seqStart| * 150 + 100;
    var chosen := PaletteFor(|all.keys|);
    if chosen.Err? {
      return Err(chosen.error);
    }
    var pal := chosen.value;
    var title := Label(50, 60, 24, "FASTA file: " + name);

    var rows := DrawRows(pos, all, pal);
    if rows.Err? {
      return Err(rows.error);
    }

    var legY := 115;
    var exonKey := Segment(maxLen + 50, maxLen + 80, legY, 30, Grey);
    var exonName := Label(maxLen + 90, legY + 7, 16, "Exon");
    var swatches := DrawMotifLegend(maxLen, motifLines, pal);
    if swatches.Err? {
      return Err(swatches.error);
    }
    r := Ok(Diagram(width, height, title, rows.value, exonKey, exonName, swatches.value));
    assert r.value == Canvas(maxLen, |pos.seqStart|, name, rows.value, swatches.value);
  }




  /** `list(convert_motifs(motif_file).keys())`: the motifs the legend lists,
      or the conversion's error. */
  function LegendMotifs(motifLines: seq<string>): Result<seq<string>>
  {
    match CompileAll(MotifKeys(motifLines))
    case Err(e) => Err(e)
    case Ok(table) => Ok(table.keys)
  }

  /** The legend part of main: `list(convert_motifs(motif_file).keys())`, then
      one legend entry per motif of that list; a failed conversion stops main
      with its error. */
  method DrawMotifLegend(maxLen: nat, motifLines: seq<string>, pal: Palette) returns (r: Result<seq<Swatch>>)
    ensures LegendMotifs(motifLines).Err? ==> r == Err(LegendMotifs(motifLines).error)
    ensures LegendMotifs(motifLines).Ok? ==>
              r == SwatchesOf(maxLen, LegendMotifs(motifLines).value, pal, |LegendMotifs(motifLines).value|)
  {
    var again := ConvertMotifs(motifLines);
    if again.Err? {
      return Err(again.error);
    }
    r := DrawLegend(maxLen, again.value.keys, pal);
  }


  /** main's loop over the sequences: line_y starts at 150 and advances by 150
      per row; the first row without colours for its motifs stops it. */
  method DrawRows(pos: Positions, all: Dict<string, SpanTable>, pal: Palette) returns (r: Result<seq<Row>>)
    requires Drawable(pos, all)
    ensures r == RowsOf(pos, all, pal, |all.keys|)
  {
    var rows: seq<Row> := [];
    var lineY := 150;
    for i := 0 to |all.keys|
      invariant lineY == Baseline(i)
      invariant RowsOf(pos, all, pal, i) == Ok(rows)
    {
      var row := DrawRow(pos, i, lineY, all.values[all.keys[i]], pal);
      assert RowList(pos, all, pal, i + 1)[..i] == RowList(pos, all, pal, i);
      if row.Err? {
        RowsPrefixError(pos, all, pal, i + 1);
        return Err(row.error);
      }
      rows := rows + [row.value];
      lineY := lineY + 150;
    }
    r := Ok(rows);
  }

  /** main's loop over the motif list: one legend entry per motif, at
      leg_y + 5 + 30*(t+1) + t*5, in colour pal[t]. */
  method DrawLegend(maxLen: nat, motifs: seq<string>, pal: Palette) returns (r: Result<seq<Swatch>>)
    ensures r == SwatchesOf(maxLen, motifs, pal, |motifs|)
  {
    var legY := 115;
    var swatches: seq<Swatch> := [];
    for t := 0 to |motifs|
      invariant SwatchesOf(maxLen, motifs, pal, t) == Ok(swatches)
    {
      var colour := ColourAt(pal, t);
      if colour.Err? {
        SwatchesPrefixError(maxLen, motifs, pal, t + 1);
        return Err(colour.error);
      }
      var y := legY + 5 + 30 * (t + 1) + t * 5;
      swatches := swatches + [Swatch(Segment(maxLen + 50, maxLen + 80, y, 30, colour.value), motifs[t])];
    }
    r := Ok(swatches);
  }

  /** One pass of main's loop over the sequences: the name, the backbone and the
      end marks of sequence i on the baseline y, then the bars of every motif. */
  method DrawRow(pos: Positions, i: nat, y: int, spans: SpanTable, pal: Palette) returns (r: Result<Row>)
    requires pos.Consistent() && i < pos.Count() && spans.Valid()
    ensures r == RowOf(pos, i, y, spans, pal)
  {
    var bars: seq<seq<Segment>> := [];
    for j := 0 to |spans.keys|
      invariant MotifBars(spans, y, pal, j) == Ok(bars)
    {
      var colour := ColourAt(pal, j);
      if colour.Err? {
        MotifBarsPrefixError(spans, y, pal, j + 1);
        return Err(colour.error);
      }
      var strokes := DrawSpans(spans.values[spans.keys[j]], y, colour.value);
      bars := bars + [strokes];
    }
    var len, es, ee := pos.seqLength[i], pos.exonStart[i], pos.exonEnd[i];
    r := Ok(Row(Label(50, y - 35, 16, FirstField(pos.headers[i])),
                Segment(50, 50 + es, y, 5, Black),
                Segment(50 + es, 50 + ee, y, 35, Grey),
                Segment(50 + ee, 50 + len, y, 5, Black),
                Label(35, y + 5, 12, "5'"),
                Label(55 + len, y + 5, 12, "3'"),
                bars));
  }

  /** The loop over the spans of one motif: one 35-wide bar per span. */
  method DrawSpans(motifSpans: seq<Span>, y: int, c: Colour) returns (strokes: seq<Segment>)
    ensures strokes == Bars(motifSpans, y, c)
  {
    strokes := [];
    for k := 0 to |motifSpans|
      invariant strokes == Bars(motifSpans[..k], y, c)
    {
      strokes := strokes + [Segment(50 + motifSpans[k].start, 50 + motifSpans[k].end, y, 35, c)];
    }
    assert motifSpans[..|motifSpans|] == motifSpans;
  }

  /** A motif without a colour among the first n stops the whole row. */
  lemma {:induction false} MotifBarsPrefixError(spans: SpanTable, y: int, pal: Palette, n: nat)
    requires spans.Valid() && n <= |spans.keys| && MotifBars(spans, y, pal, n).Err?
    ensures MotifBars(spans, y, pal, |spans.keys|) == MotifBars(spans, y, pal, n)
    decreases |spans.keys| - n
  {
    if n < |spans.keys| {
      MotifBarsPrefixError(spans, y, pal, n + 1);
    }
  }

  /** A legend entry without a colour among the first n stops the legend. */
  lemma {:induction false} SwatchesPrefixError(maxLen: nat, motifs: seq<string>, pal: Palette, n: nat)
    requires n <= |motifs| && SwatchesOf(maxLen, motifs, pal, n).Err?
    ensures SwatchesOf(maxLen, motifs, pal, |motifs|) == SwatchesOf(maxLen, motifs, pal, n)
    decreases |motifs| - n
  {
    if n < |motifs| {
      SwatchesPrefixError(maxLen, motifs, pal, n + 1);
    }
  }

  /** A failed row stops the drawing with its error. */
  lemma RowsPrefixError(pos: Positions, all: Dict<string, SpanTable>, pal: Palette, n: nat)
    requires Drawable(pos, all) && n <= |all.keys| && RowsOf(pos, all, pal, n).Err?
    ensures RowsOf(pos, all, pal, |all.keys|) == RowsOf(pos, all, pal, n)
  {
    var rs := RowList(pos, all, pal, |all.keys|);
    assert rs[..n] == RowList(pos, all, pal, n);
    SequencePrefixError(rs, n);
  }

  // ---- What the drawing is ----

  /** The bars of a row exist exactly when every motif has a colour, and then
      motif j (in dictionary order) has one bar per span, in colour pal[j]. */
  lemma {:induction false} MotifBarsSpec(spans: SpanTable, y: int, pal: Palette, n: nat)
    requires spans.Valid() && n <= |spans.keys|
    ensures MotifBars(spans, y, pal, n).Ok? <==> forall j | 0 <= j < n :: ColourAt(pal, j).Ok?
    ensures MotifBars(spans, y, pal, n).Ok? ==>
              var bars := MotifBars(spans, y, pal, n).value;
              |bars| == n &&
              forall j | 0 <= j < n :: bars[j] == Bars(spans.values[spans.keys[j]], y, ColourAt(pal, j).value)
  {
    if n > 0 {
      MotifBarsSpec(spans, y, pal, n - 1);
    }
  }

  /** The rows exist exactly when every row has its bars, and then row i is the
      drawing of sequence i on baseline 150 + 150 * i. */
  lemma RowsSpec(pos: Positions, all: Dict<string, SpanTable>, pal: Palette, n: nat)
    requires Drawable(pos, all) && n <= |all.keys|
    ensures RowsOf(pos, all, pal, n).Ok? <==>
              forall i | 0 <= i < n :: RowOf(pos, i, Baseline(i), all.values[all.keys[i]], pal).Ok?
    ensures RowsOf(pos, all, pal, n).Ok? ==>
              var rows := RowsOf(pos, all, pal, n).value;
              |rows| == n &&
              forall i | 0 <= i < n :: rows[i] == RowOf(pos, i, Baseline(i), all.values[all.keys[i]], pal).value
  {
    var rs := RowList(pos, all, pal, n);
    SequenceSpec(rs);
    assert forall i | 0 <= i < n :: rs[i] == RowOf(pos, i, Baseline(i), all.values[all.keys[i]], pal);
  }

  /** The legend exists exactly when every motif has a colour, and then entry t
      names motif t, in colour pal[t], at y = 150 + 35 * t, with a bar 30 units
      long that starts where the longest backbone ends (x = 50 + its length). */
  lemma {:induction false} SwatchesSpec(maxLen: nat, motifs: seq<string>, pal: Palette, n: nat)
    requires n <= |motifs|
    ensures SwatchesOf(maxLen, motifs, pal, n).Ok? <==> forall t | 0 <= t < n :: ColourAt(pal, t).Ok?
    ensures SwatchesOf(maxLen, motifs, pal, n).Ok? ==>
              var sw := SwatchesOf(maxLen, motifs, pal, n).value;
              |sw| == n &&
              forall t | 0 <= t < n ::
                sw[t] == Swatch(Segment(maxLen + 50, maxLen + 80, 150 + 35 * t, 30, ColourAt(pal, t).value), motifs[t])
  {
    if n > 0 {
      SwatchesSpec(maxLen, motifs, pal, n - 1);
    }
  }

  /** The number of motifs in row i of all_motif_spans. */
  function MotifCount(all: Dict<string, SpanTable>, i: nat): nat
    requires all.Valid() && i < |all.keys|
  {
    |all.values[all.keys[i]].keys|
  }

  /** main draws its diagram exactly when there is a sequence, at most six of
      them, and palette(number of sequences) has a colour for the motifs of every
      row and of the legend. Otherwise it stops with max() of no lengths, or
      with palette's unbound result for more than six sequences. */
  lemma DiagramSucceeds(pos: Positions, all: Dict<string, SpanTable>, motifs: seq<string>, name: string)
    requires Drawable(pos, all)
    ensures DiagramOf(pos, all, motifs, name).Ok? <==>
              0 < pos.Count() <= 6 &&
              (forall i | 0 <= i < pos.Count() :: Paints(pos.Count(), MotifCount(all, i))) &&
              Paints(pos.Count(), |motifs|)
    ensures pos.Count() == 0 ==> DiagramOf(pos, all, motifs, name) == Err(EmptyMax)
    ensures pos.Count() > 6 ==> DiagramOf(pos, all, motifs, name) == Err(UnboundPalette(pos.Count()))
  {
    var n := pos.Count();
    if 1 <= n <= 6 {
      var pal := PaletteFor(n).value;
      RowsSpec(pos, all, pal, n);
      SwatchesSpec(MaxLength(pos.seqLength), motifs, pal, |motifs|);
      PaintsAll(n, |motifs|);
      forall i | 0 <= i < n
        ensures RowOf(pos, i, Baseline(i), all.values[all.keys[i]], pal).Ok? <==> Paints(n, MotifCount(all, i))
      {
        var spans := all.values[all.keys[i]];
        MotifBarsSpec(spans, Baseline(i), pal, |spans.keys|);
        PaintsAll(n, |spans.keys|);
      }
    }
  }

  /** The drawn diagram: a canvas 250 units wider than the longest sequence and
      150 units per sequence plus 100 high; one row per sequence, row i on
      baseline 150 + 150 * i; motif j of every row in the same colour as legend
      entry j; the legend starting at or right of where every row ends, the exon
      key above the first entry. */
  lemma DiagramShape(pos: Positions, all: Dict<string, SpanTable>, motifs: seq<string>, name: string,
                      chosen: Result<Palette>)
    requires Drawable(pos, all) && DiagramWith(pos, all, motifs, name, chosen).Ok?
    ensures chosen.Ok?
    ensures var d := DiagramWith(pos, all, motifs, name, chosen).value;
            var pal := chosen.value;
            d.height == 150 * pos.Count() + 100 &&
            (forall i | 0 <= i < pos.Count() :: pos.seqLength[i] + 250 <= d.width) &&
            (exists i | 0 <= i < pos.Count() :: pos.seqLength[i] + 250 == d.width) &&
            |d.rows| == pos.Count() && |d.swatches| == |motifs| &&
            (forall i | 0 <= i < pos.Count() ::
               RowOf(pos, i, Baseline(i), all.values[all.keys[i]], pal) == Ok(d.rows[i]) &&
               d.rows[i].exon.y == 150 + 150 * i &&
               d.rows[i].intron3.x1 <= d.exonKey.x0 &&
               |d.rows[i].bars| == MotifCount(all, i) &&
               forall j | 0 <= j < MotifCount(all, i) ::
                 j < |motifs| ==> forall b | b in d.rows[i].bars[j] :: b.colour == d.swatches[j].bar.colour) &&
            (forall t | 0 <= t < |motifs| ::
               d.swatches[t].motif == motifs[t] && d.swatches[t].bar.y == 150 + 35 * t &&
               d.exonKey.y < d.swatches[t].bar.y)
  {
    var n := pos.Count();
    var pal := chosen.value;
    var maxLen := MaxLength(pos.seqLength);
    var d := DiagramWith(pos, all, motifs, name, chosen).value;
    RowsSpec(pos, all, pal, n);
    SwatchesSpec(maxLen, motifs, pal, |motifs|);
    forall i | 0 <= i < n
      ensures |d.rows[i].bars| == MotifCount(all, i)
      ensures forall j | 0 <= j < MotifCount(all, i) ::
                j < |motifs| ==> forall b | b in d.rows[i].bars[j] :: b.colour == d.swatches[j].bar.colour
    {
      var spans := all.values[all.keys[i]];
      MotifBarsSpec(spans, Baseline(i), pal, |spans.keys|);
    }
  }

  /** A palette with colours for the first j motifs of the first row but none
      for motif j stops main in the first row, with the error of pal[j]. */
  lemma FirstRowStops(pos: Positions, all: Dict<string, SpanTable>, motifs: seq<string>, name: string,
                      chosen: Result<Palette>, j: nat)
    requires Drawable(pos, all) && 0 < pos.Count() && chosen.Ok?
    requires j < MotifCount(all, 0) && ColourAt(chosen.value, j).Err?
    requires forall k | 0 <= k < j :: ColourAt(chosen.value, k).Ok?
    ensures DiagramWith(pos, all, motifs, name, chosen) == Err(ColourAt(chosen.value, j).error)
  {
    var pal := chosen.value;
    var spans := all.values[all.keys[0]];
    var e := ColourAt(pal, j).error;
    MotifBarsSpec(spans, Baseline(0), pal, j);
    assert MotifBars(spans, Baseline(0), pal, j + 1) == Err(e);
    MotifBarsPrefixError(spans, Baseline(0), pal, j + 1);
    assert RowOf(pos, 0, Baseline(0), spans, pal) == Err(e);
    var rs := RowList(pos, all, pal, 1);
    assert rs == [RowOf(pos, 0, Baseline(0), spans, pal)] && rs[..0] == [];
    assert Sequence(rs) == Err(e);
    RowsPrefixError(pos, all, pal, 1);
  }

  // ---- The palette main evidently means ----

  /** palette(len(motifs)) with palette(1) a list of one colour: m colours for
      every m in 1..6, taken from the same tables; no motifs still leaves the
      palette unbound. */
  function IntendedPalette(m: int): (r: Result<Palette>)
    ensures r.Ok? <==> 1 <= m <= 6
    ensures r.Err? ==> r.error == UnboundPalette(m)
    ensures r.Ok? ==>
              r.value.Colours? && |r.value.colours| == m &&
              (forall i | 0 <= i < m :: Rank(r.value.colours[i]) < 6) &&
              (forall i, j | 0 <= i < j < m :: Rank(r.value.colours[i]) < Rank(r.value.colours[j]))
  {
    if m == 1 then Ok(Colours([Green]))
    else PaletteFor(m)
  }

  /** The diagram drawn with one colour per motif of the motif list. */
  function IntendedDiagramOf(pos: Positions, all: Dict<string, SpanTable>, motifs: seq<string>, name: string): Result<Diagram>
    requires Drawable(pos, all)
  {
    DiagramWith(pos, all, motifs, name, IntendedPalette(|motifs|))
  }

  /** With one colour per motif, the diagram is drawn exactly when there is a
      sequence, one to six motifs, and no row holds more motifs than the list;
      the number of sequences no longer matters. */
  lemma IntendedSucceeds(pos: Positions, all: Dict<string, SpanTable>, motifs: seq<string>, name: string)
    requires Drawable(pos, all)
    ensures IntendedDiagramOf(pos, all, motifs, name).Ok? <==>
              0 < pos.Count() && 0 < |motifs| <= 6 &&
              forall i | 0 <= i < pos.Count() :: MotifCount(all, i) <= |motifs|
  {
    var n, m := pos.Count(), |motifs|;
    if 0 < n && 0 < m <= 6 {
      var pal := IntendedPalette(m).value;
      RowsSpec(pos, all, pal, n);
      SwatchesSpec(MaxLength(pos.seqLength), motifs, pal, m);
      forall i | 0 <= i < n
        ensures RowOf(pos, i, Baseline(i), all.values[all.keys[i]], pal).Ok? <==> MotifCount(all, i) <= m
      {
        var spans := all.values[all.keys[i]];
        MotifBarsSpec(spans, Baseline(i), pal, |spans.keys|);
        if m < MotifCount(all, i) {
          assert ColourAt(pal, m).Err?;
        }
      }
    }
  }

  /** Row i of a drawn diagram: its backbone runs from x = 50 to x = 50 + the
      sequence's length on baseline 150 + 150 * i, and the bars of the row's
      motif j are its spans in the colour of legend entry j. */
  lemma RowDrawn(pos: Positions, all: Dict<string, SpanTable>, motifs: seq<string>, name: string,
                 chosen: Result<Palette>, i: nat, j: nat)
    requires Drawable(pos, all) && DiagramWith(pos, all, motifs, name, chosen).Ok?
    requires i < pos.Count() && j < MotifCount(all, i) && j < |motifs|
    ensures var d := DiagramWith(pos, all, motifs, name, chosen).value;
            var spans := all.values[all.keys[i]];
            |d.rows| == pos.Count() && |d.rows[i].bars| == MotifCount(all, i) && |d.swatches| == |motifs| &&
            d.rows[i].intron5.x0 == 50 && d.rows[i].intron3.x1 == 50 + pos.seqLength[i] &&
            d.rows[i].exon.y == Baseline(i) &&
            d.rows[i].bars[j] == Bars(spans.values[spans.keys[j]], Baseline(i), d.swatches[j].bar.colour)
  {
    var pal := chosen.value;
    var spans := all.values[all.keys[i]];
    RowsSpec(pos, all, pal, pos.Count());
    SwatchesSpec(MaxLength(pos.seqLength), motifs, pal, |motifs|);
    MotifBarsSpec(spans, Baseline(i), pal, |spans.keys|);
  }

  /** The bars of the spans finditer reports for a motif in a sequence: each as
      long as the motif, inside the drawn sequence [50, 50 + its length], left
      to right without overlapping. */
  lemma FoundBars(p: Pattern, s: string, y: int, c: Colour)
    ensures var bars := Bars(FindIter(p, s, 0), y, c);
            (forall t | 0 <= t < |bars| ::
               bars[t].x1 - bars[t].x0 == |p| && 50 <= bars[t].x0 && bars[t].x1 <= 50 + |s| &&
               bars[t].y == y && bars[t].colour == c) &&
            (forall t, u | 0 <= t < u < |bars| :: bars[t].x1 <= bars[u].x0)
  {
  }

  /** Everything main strokes lies on its canvas: each backbone starts right of
      the left edge and ends left of the right edge, each baseline is above the
      bottom edge, and so is each legend entry, since palette(n) colours at most
      n motifs. */
  lemma CanvasHolds(pos: Positions, all: Dict<string, SpanTable>, motifs: seq<string>, name: string)
    requires Drawable(pos, all) && DiagramOf(pos, all, motifs, name).Ok?
    ensures var d := DiagramOf(pos, all, motifs, name).value;
            (forall i | 0 <= i < |d.rows| ::
               0 < d.rows[i].intron5.x0 && d.rows[i].intron3.x1 < d.width &&
               0 < d.rows[i].exon.y < d.height) &&
            (forall t | 0 <= t < |d.swatches| ::
               0 < d.swatches[t].bar.x0 && d.swatches[t].bar.x1 < d.width &&
               0 < d.swatches[t].bar.y < d.height) &&
            d.exonKey.x1 < d.width && 0 < d.exonKey.y < d.height
  {
    var n := pos.Count();
    DiagramSucceeds(pos, all, motifs, name);
    var pal := PaletteFor(n).value;
    var maxLen := MaxLength(pos.seqLength);
    RowsSpec(pos, all, pal, n);
    SwatchesSpec(maxLen, motifs, pal, |motifs|);
    PaintsAll(n, |motifs|);
  }
}
