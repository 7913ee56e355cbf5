/** The motif scanner (motif_spans): every compiled motif is searched in every
    sequence with re.finditer, which reports leftmost matches and resumes each
    search where the previous match ended, so the spans it finds never overlap. */
module Scanner {
  import opened Outcome
  import opened PyStr
  import opened PyDict
  import opened Iupac

  /** A half-open span [start, end) as re.Match.span() reports it. */
  datatype Span = Span(start: nat, end: nat)

  /** The motif's classes accept, one by one, the characters of s from offset k on. */
  predicate MatchesAt(p: Pattern, s: string, k: nat)
  {
    k + |p| <= |s| && forall i | 0 <= i < |p| :: s[k + i] in p[i]
  }

  /** re.search from position `from`: the leftmost offset at which the motif matches. */
  function Search(p: Pattern, s: string, from: nat): (r: Option<nat>)
    ensures r.Some? ==> from <= r.value && MatchesAt(p, s, r.value)
    ensures r.Some? ==> forall j | from <= j < r.value :: !MatchesAt(p, s, j)
    ensures r.None? ==> forall j | from <= j :: !MatchesAt(p, s, j)
    decreases |s| - from
  {
    if |s| < from + |p| then None
    else if MatchesAt(p, s, from) then Some(from)
    else Search(p, s, from + 1)
  }

  /** [m.span() for m in re.finditer(p, s)], scanning from `from`: each search
      resumes at the end of the previous match (one further after an empty match,
      as Python does, so an empty motif matches at every offset). Spans start
      strictly left to right, never overlap, and each is a match of the motif. */
  function FindIter(p: Pattern, s: string, from: nat): (r: seq<Span>)
    ensures forall j | 0 <= j < |r| ::
              from <= r[j].start && r[j].end == r[j].start + |p| && MatchesAt(p, s, r[j].start)
    ensures forall i, j | 0 <= i < j < |r| :: r[i].start < r[j].start && r[i].end <= r[j].start
    decreases |s| + 1 - from
  {
    if |s| < from then []
    else
      match Search(p, s, from)
      case None => []
      case Some(k) =>
        var rest := FindIter(p, s, if |p| == 0 then k + 1 else k + |p|);
        [Span(k, k + |p|)] + rest
  }

  /** Each span is a match of the motif at or after `from`, as long as the motif. */
  ghost predicate AllMatches(p: Pattern, s: string, from: nat, spans: seq<Span>)
  {
    forall j | 0 <= j < |spans| ::
      from <= spans[j].start && spans[j].end == spans[j].start + |p| && MatchesAt(p, s, spans[j].start)
  }

  /** The spans run left to right without overlapping. */
  ghost predicate Disjoint(spans: seq<Span>)
  {
    forall i, j | 0 <= i < j < |spans| :: spans[i].end <= spans[j].start
  }

  /** Offset k lies inside one of the spans. */
  ghost predicate Inside(spans: seq<Span>, k: nat)
  {
    exists j | 0 <= j < |spans| :: spans[j].start <= k < spans[j].end
  }

  /** Every offset at or after `from` where the motif matches lies inside a span. */
  ghost predicate Covers(p: Pattern, s: string, from: nat, spans: seq<Span>)
  {
    forall k {:trigger Inside(spans, k)} | from <= k && MatchesAt(p, s, k) :: Inside(spans, k)
  }

  /** The leftmost non-overlapping matches of a non-empty motif, stated without
      reference to the search that finds them. */
  ghost predicate Greedy(p: Pattern, s: string, from: nat, spans: seq<Span>)
  {
    AllMatches(p, s, from, spans) && Disjoint(spans) && Covers(p, s, from, spans)
  }

  /** Leftmost non-overlapping: every offset at which a non-empty motif matches
      lies inside one of the spans found, so a match is only skipped when it
      overlaps a span to its left. */
  lemma {:induction false} EveryMatchCovered(p: Pattern, s: string, from: nat, k: nat)
    requires |p| > 0 && from <= k && MatchesAt(p, s, k)
    ensures Inside(FindIter(p, s, from), k)
    decreases |s| + 1 - from
  {
    var m := Search(p, s, from).value;
    var rest := FindIter(p, s, m + |p|);
    var r := FindIter(p, s, from);
    assert r == [Span(m, m + |p|)] + rest;
    if m + |p| <= k {
      EveryMatchCovered(p, s, m + |p|, k);
      var j :| 0 <= j < |rest| && rest[j].start <= k < rest[j].end;
      assert r[j + 1] == rest[j];
    } else {
      assert r[0].start <= k < r[0].end;
    }
  }

  /** finditer's spans are the leftmost non-overlapping matches. */
  lemma FindIterIsGreedy(p: Pattern, s: string, from: nat)
    requires |p| > 0
    ensures Greedy(p, s, from, FindIter(p, s, from))
  {
    forall k | from <= k && MatchesAt(p, s, k)
      ensures Inside(FindIter(p, s, from), k)
    {
      EveryMatchCovered(p, s, from, k);
    }
  }

  /** ... and no other list of spans is: the greedy spans are unique. */
  lemma {:induction false} GreedyUnique(p: Pattern, s: string, from: nat, spans: seq<Span>)
    requires |p| > 0 && Greedy(p, s, from, spans)
    ensures spans == FindIter(p, s, from)
    decreases |s| + 1 - from
  {
    match Search(p, s, from)
    case None =>
    case Some(m) =>
      assert Inside(spans, m);
      var j :| 0 <= j < |spans| && spans[j].start <= m < spans[j].end;
      assert spans[0] == Span(m, m + |p|);
      var tail := spans[1..];
      TailGreedy(p, s, from, spans);
      GreedyUnique(p, s, m + |p|, tail);
      assert spans == [spans[0]] + tail;
  }

  /** Dropping the first greedy span leaves the greedy spans from its end on. */
  lemma TailGreedy(p: Pattern, s: string, from: nat, spans: seq<Span>)
    requires |p| > 0 && Greedy(p, s, from, spans) && spans != []
    ensures Greedy(p, s, spans[0].end, spans[1..])
  {
    var tail := spans[1..];
    assert forall j | 0 <= j < |tail| :: tail[j] == spans[j + 1];
    assert AllMatches(p, s, spans[0].end, tail) by {
      forall j | 0 <= j < |tail| ensures spans[0].end <= tail[j].start {
        assert spans[0].end <= spans[j + 1].start;
      }
    }
    forall k | spans[0].end <= k && MatchesAt(p, s, k)
      ensures Inside(tail, k)
    {
      assert Inside(spans, k);
      var i :| 0 <= i < |spans| && spans[i].start <= k < spans[i].end;
      assert tail[i - 1] == spans[i];
    }
  }

  /** A motif longer than the sequence is never found. */
  lemma TooLongNeverFound(p: Pattern, s: string)
    requires |s| < |p|
    ensures FindIter(p, s, 0) == []
  {
  }

  /** A motif containing the no-match code Z is never found. */
  lemma {:induction false} EmptyClassNeverFound(p: Pattern, s: string, from: nat, z: nat)
    requires z < |p| && p[z] == {}
    ensures FindIter(p, s, from) == []
  {
    forall k | from <= k ensures !MatchesAt(p, s, k) {
      if k + |p| <= |s| {
        assert s[k + z] !in p[z];
      }
    }
  }

  /** A compiled motif matches ignoring case and reading U and T as the same base:
      position i accepts exactly the letters that stand for a base its code means. */
  lemma MatchMeansIupac(motif: string, s: string, k: nat)
    requires Compile(motif).Ok?
    ensures MatchesAt(Compile(motif).value, s, k) <==>
            k + |motif| <= |s| && forall i | 0 <= i < |motif| :: Denotes(motif[i], s[k + i])
  {
    forall i | 0 <= i < |motif| && k + i < |s|
      ensures s[k + i] in Compile(motif).value[i] <==> Denotes(motif[i], s[k + i])
    {
      CompiledMeansCode(motif, i, s[k + i]);
    }
  }

  // ---- motif_spans ----

  /** The spans of every motif in one sequence, keyed by motif in dictionary order. */
  type SpanTable = Dict<string, seq<Span>>

  /** The outer key of sequence i: "seq{0}".format(i). */
  function SeqKey(i: nat): string
  {
    "seq" + Decimal(i)
  }

  /** The outer keys of n sequences, in order. */
  function SeqKeys(n: nat): (keys: seq<string>)
    ensures |keys| == n
  {
    if n == 0 then [] else SeqKeys(n - 1) + [SeqKey(n - 1)]
  }

  /** The i-th outer key is "seq{i}". */
  lemma {:induction false} SeqKeysAt(n: nat, i: nat)
    requires i < n
    ensures SeqKeys(n)[i] == SeqKey(i)
  {
    if i < n - 1 {
      SeqKeysAt(n - 1, i);
    }
  }

  lemma SeqKeyInjective(i: nat, j: nat)
    requires SeqKey(i) == SeqKey(j)
    ensures i == j
  {
    assert SeqKey(i)[3..] == Decimal(i) && SeqKey(j)[3..] == Decimal(j);
    DecimalInjective(i, j);
  }

  /** The inner dictionary motif_spans builds for sequence s from the first n
      motifs of the table: each motif, in the table's order, with the spans
      finditer reports for it. */
  function ScanRow(table: Dict<string, Pattern>, s: string, n: nat): (row: SpanTable)
    requires table.Valid() && n <= |table.keys|
    ensures row.Valid() && row.keys == table.keys[..n]
    ensures forall m | m in row.values :: m in table.values && row.values[m] == FindIter(table.values[m], s, 0)
  {
    if n == 0 then Empty()
    else
      var motif := table.keys[n - 1];
      assert table.keys[..n] == table.keys[..n - 1] + [motif];
      Insert(ScanRow(table, s, n - 1), motif, FindIter(table.values[motif], s, 0))
  }

  /** The dictionary {"seq0": rows[0], "seq1": rows[1], ...} built by inserting
      the rows in order: one key per row, in row order. */
  function Keyed<V>(rows: seq<V>): (d: Dict<string, V>)
    ensures d.Valid() && d.keys == SeqKeys(|rows|)
  {
    if rows == [] then Empty()
    else
      var n := |rows| - 1;
      SeqKeyFresh(n);
      Insert(Keyed(rows[..n]), SeqKey(n), rows[n])
  }

  /** Key "seq{i}" holds the i-th row. */
  lemma {:induction false} KeyedAt<V>(rows: seq<V>, i: nat)
    requires i < |rows|
    ensures SeqKey(i) in Keyed(rows).values && Keyed(rows).values[SeqKey(i)] == rows[i]
  {
    var n := |rows| - 1;
    if i < n {
      KeyedAt(rows[..n], i);
      SeqKeyDistinct(i, n);
    }
  }

  lemma SeqKeyDistinct(i: nat, n: nat)
    requires i < n
    ensures SeqKey(i) != SeqKey(n)
  {
    if SeqKey(i) == SeqKey(n) {
      SeqKeyInjective(i, n);
    }
  }

  /** The inner dictionary of each sequence, in order. */
  function Rows(table: Dict<string, Pattern>, seqs: seq<string>): seq<SpanTable>
    requires table.Valid()
  {
    seq(|seqs|, i requires 0 <= i < |seqs| => ScanRow(table, seqs[i], |table.keys|))
  }

  /** all_motif_spans after the sequences seqs: entry "seq{i}" holds the spans of
      every motif of the table in the i-th sequence, and there is no other entry. */
  function AllSpans(table: Dict<string, Pattern>, seqs: seq<string>): (all: Dict<string, SpanTable>)
    requires table.Valid()
    ensures all.Valid() && all.keys == SeqKeys(|seqs|)
  {
    Keyed(Rows(table, seqs))
  }

  /** Entry "seq{i}" holds the spans of every motif of the table in the i-th sequence. */
  lemma AllSpansAt(table: Dict<string, Pattern>, seqs: seq<string>, i: nat)
    requires table.Valid() && i < |seqs|
    ensures SeqKey(i) in AllSpans(table, seqs).values
    ensures AllSpans(table, seqs).values[SeqKey(i)] == ScanRow(table, seqs[i], |table.keys|)
  {
    KeyedAt(Rows(table, seqs), i);
  }

  /** motif_spans: converts the motif lines, then fills, for each sequence i in
      order, the entry "seq{i}" with the spans of every motif. A motif line with
      an unknown character aborts the call with that line's error. */
  method MotifSpans(motifLines: seq<string>, seqs: seq<string>) returns (r: Result<Dict<string, SpanTable>>)
    ensures r.Err? <==> CompileAll(MotifKeys(motifLines)).Err?
    ensures r.Err? ==> r.error == CompileAll(MotifKeys(motifLines)).error
    ensures r.Ok? ==> CompileAll(MotifKeys(motifLines)).value.Valid() &&
                      r.value == AllSpans(CompileAll(MotifKeys(motifLines)).value, seqs)
  {
    var compiled := ConvertMotifs(motifLines);
    if compiled.Err? {
      return Err(compiled.error);
    }
    var table := compiled.value;
    CompiledTable(MotifKeys(motifLines));
    var all: Dict<string, SpanTable> := Empty();
    ghost var rows: seq<SpanTable> := [];
    for i := 0 to |seqs|
      invariant rows == Rows(table, seqs[..i])
      invariant all == Keyed(rows)
    {
      var row := ScanSequence(table, seqs[i]);
      RowsSnoc(table, seqs, i);
      KeyedSnoc(rows, row);
      all := Insert(all, SeqKey(i), row);
      assert all.keys == Keyed(rows + [row]).keys && all.values == Keyed(rows + [row]).values;
      rows := rows + [row];
    }
    assert seqs[..|seqs|] == seqs;
    r := Ok(all);
  }

  /** One more sequence scanned adds its row at the end. */
  lemma RowsSnoc(table: Dict<string, Pattern>, seqs: seq<string>, i: nat)
    requires table.Valid() && i < |seqs|
    ensures Rows(table, seqs[..i + 1]) == Rows(table, seqs[..i]) + [ScanRow(table, seqs[i], |table.keys|)]
  {
    var long, short := Rows(table, seqs[..i + 1]), Rows(table, seqs[..i]);
    var next := short + [ScanRow(table, seqs[i], |table.keys|)];
    assert |long| == |next|;
    forall k | 0 <= k <= i ensures long[k] == next[k] {
      assert seqs[..i + 1][k] == seqs[k];
      if k < i {
        assert seqs[..i][k] == seqs[k];
      }
    }
  }

  /** One more row goes under the next key "seq{n}", which is new, so it is
      appended at the end of the key order and no earlier entry changes. */
  lemma KeyedSnoc<V>(rows: seq<V>, row: V)
    ensures SeqKey(|rows|) !in Keyed(rows).values
    ensures Keyed(rows + [row]).keys == Keyed(rows).keys + [SeqKey(|rows|)]
    ensures Keyed(rows + [row]).values == Keyed(rows).values[SeqKey(|rows|) := row]
  {
    assert (rows + [row])[..|rows|] == rows;
    SeqKeyFresh(|rows|);
  }

  /** The inner loop of motif_spans over the motifs of the table, for one sequence. */
  method ScanSequence(table: Dict<string, Pattern>, s: string) returns (row: SpanTable)
    requires table.Valid()
    ensures row == ScanRow(table, s, |table.keys|)
  {
    row := Empty();
    for j := 0 to |table.keys|
      invariant row == ScanRow(table, s, j)
    {
      var motif := table.keys[j];
      row := Insert(row, motif, FindIter(table.values[motif], s, 0));
    }
  }

  /** The key of a new sequence is not yet in the dictionary. */
  lemma SeqKeyFresh(n: nat)
    ensures SeqKey(n) !in SeqKeys(n)
  {
    forall k | 0 <= k < n ensures SeqKeys(n)[k] != SeqKey(n) {
      SeqKeysAt(n, k);
      if SeqKey(k) == SeqKey(n) {
        SeqKeyInjective(k, n);
      }
    }
  }

  /** len(all_motif_spans): one entry per sequence. */
  lemma OneEntryPerSequence(all: Dict<string, SpanTable>, n: nat)
    requires all.Valid() && all.keys == SeqKeys(n)
    ensures |all.values| == n
  {
    Size(all);
  }

  /** finditer does not report overlapping matches: "AA" is found in "AAAA" at
      [0, 2) and [2, 4) only, the match at [1, 3) being skipped. */
  lemma NonOverlappingExample()
    ensures Compile("AA").Ok?
    ensures FindIter(Compile("AA").value, "AAAA", 0) == [Span(0, 2), Span(2, 4)]
    ensures MatchesAt(Compile("AA").value, "AAAA", 1)
  {
    var p := Compile("AA").value;
    assert p == [{'A', 'a'}, {'A', 'a'}];
    var s := "AAAA";
    assert MatchesAt(p, s, 0) && MatchesAt(p, s, 2);
    assert Search(p, s, 4) == None;
    assert FindIter(p, s, 4) == [];
    assert FindIter(p, s, 2) == [Span(2, 4)];
  }
}
