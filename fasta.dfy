/** Reading the sequence file: parse_fasta groups lines into records, and
    get_positions pulls the declared start coordinate and the exon span out of
    each record. The file is given as its list of lines. */
module Fasta {
  import opened Outcome
  import opened PyStr

  /** One (header, sequence) pair that parse_fasta yields. */
  datatype Record = Record(header: string, sequence: string)

  /** line.rstrip().startswith(">") */
  predicate IsHeader(line: string)
  {
    var l := Rstrip(line);
    |l| > 0 && l[0] == '>'
  }

  /** The sequence text that follows a header: the right-stripped lines up to the
      next header line (or the end of the file), concatenated. */
  function Body(lines: seq<string>): string
  {
    if lines == [] || IsHeader(lines[0]) then [] else Rstrip(lines[0]) + Body(lines[1..])
  }

  /** The records of a file: one per header line, in file order, each holding the
      right-stripped header line and the body that follows it. Lines before the
      first header belong to no record. */
  function Records(lines: seq<string>): seq<Record>
  {
    if lines == [] then []
    else if IsHeader(lines[0]) then [Record(Rstrip(lines[0]), Body(lines[1..]))] + Records(lines[1..])
    else Records(lines[1..])
  }

  /** The number of header lines. */
  function CountHeaders(lines: seq<string>): nat
  {
    if lines == [] then 0 else (if IsHeader(lines[0]) then 1 else 0) + CountHeaders(lines[1..])
  }

  /** parse_fasta: a two-state machine over the lines. It holds the current header
      (None before the first one) and the lines read since; a header line closes
      the pending record, and the end of input closes the last one. */
  method ParseFasta(lines: seq<string>) returns (records: seq<Record>)
    ensures records == Records(lines)
  {
    var header: Option<string> := None;
    var pending: seq<string> := [];
    records := [];
    for i := 0 to |lines|
      invariant header.None? ==> records == [] && Records(lines) == Records(lines[i..])
      invariant header.Some? ==>
        Records(lines) == records + [Record(header.value, Join(pending) + Body(lines[i..]))] + Records(lines[i..])
    {
      assert lines[i..][0] == lines[i] && lines[i..][1..] == lines[i + 1..];
      var line := Rstrip(lines[i]);
      if |line| > 0 && line[0] == '>' {
        assert Body(lines[i..]) == [];
        assert Records(lines[i..]) == [Record(line, Body(lines[i + 1..]))] + Records(lines[i + 1..]);
        if header.Some? {
          assert Join(pending) + Body(lines[i..]) == Join(pending);
          records := records + [Record(header.value, Join(pending))];
        }
        header, pending := Some(line), [];
        assert Join(pending) + Body(lines[i + 1..]) == Body(lines[i + 1..]);
      } else {
        assert Body(lines[i..]) == line + Body(lines[i + 1..]);
        assert Records(lines[i..]) == Records(lines[i + 1..]);
        assert Join(pending + [line]) == Join(pending) + line by {
          assert (pending + [line])[..|pending|] == pending;
        }
        assert Join(pending + [line]) + Body(lines[i + 1..]) == Join(pending) + Body(lines[i..]);
        pending := pending + [line];
      }
    }
    assert lines[|lines|..] == [];
    if header.Some? {
      assert Join(pending) + Body([]) == Join(pending);
      records := records + [Record(header.value, Join(pending))];
    }
  }

  /** parse_fasta yields exactly one record per header line. */
  lemma {:induction false} RecordCount(lines: seq<string>)
    ensures |Records(lines)| == CountHeaders(lines)
  {
    if lines != [] {
      RecordCount(lines[1..]);
    }
  }

  /** The record of the header at line h comes right after those of the headers
      above it, and holds that header and the body below it. */
  lemma {:induction false} RecordOfHeader(lines: seq<string>, h: nat)
    requires h < |lines| && IsHeader(lines[h])
    ensures CountHeaders(lines[..h]) < |Records(lines)|
    ensures Records(lines)[CountHeaders(lines[..h])] == Record(Rstrip(lines[h]), Body(lines[h + 1..]))
  {
    if h == 0 {
      assert lines[..0] == [];
    } else {
      var rest := lines[1..];
      assert rest[h - 1] == lines[h] && rest[h..] == lines[h + 1..];
      RecordOfHeader(rest, h - 1);
      assert lines[..h][1..] == rest[..h - 1];
    }
  }

  /** Lines before the first header are dropped. */
  lemma {:induction false} LeadingLinesIgnored(pre: seq<string>, lines: seq<string>)
    requires forall k | 0 <= k < |pre| :: !IsHeader(pre[k])
    ensures Records(pre + lines) == Records(lines)
  {
    if pre != [] {
      assert (pre + lines)[0] == pre[0] && (pre + lines)[1..] == pre[1..] + lines;
      LeadingLinesIgnored(pre[1..], lines);
    } else {
      assert pre + lines == lines;
    }
  }

  // ---- The two regex searches of get_positions, as explicit scans ----

  /** A header line followed by one sequence line, then a header or the end of
      the file, makes one record of the two stripped lines. */
  lemma OneLineRecord(header: string, line: string, rest: seq<string>)
    requires IsHeader(header) && !IsHeader(line) && (rest == [] || IsHeader(rest[0]))
    ensures Records([header, line] + rest) == [Record(Rstrip(header), Rstrip(line))] + Records(rest)
  {
    var lines := [header, line] + rest;
    var tail := lines[1..];
    assert tail == [line] + rest && tail[1..] == rest && tail[0] == line;
    assert Body(rest) == [];
    assert Body(tail) == Rstrip(line) + Body(rest) == Rstrip(line);
    assert Records(tail) == Records(rest);
    assert lines[0] == header && lines[1..] == tail;
    assert Records(lines) == [Record(Rstrip(header), Body(tail))] + Records(tail);
  }

  predicate IsUpperLetter(c: char)
  {
    'A' <= c <= 'Z'
  }

  /** The end of the run of digits that starts at p: the greedy `\d+`. */
  function DigitsEnd(s: string, p: nat): (e: nat)
    requires p <= |s|
    ensures p <= e <= |s|
    ensures forall k | p <= k < e :: IsDigit(s[k])
    ensures e == |s| || !IsDigit(s[e])
    decreases |s| - p
  {
    if p < |s| && IsDigit(s[p]) then DigitsEnd(s, p + 1) else p
  }

  /** `\d+-\d+` matches at p. After the greedy first `\d+` the next character must
      be '-', and giving back digits cannot help since a digit is not '-'. */
  predicate RangeAt(s: string, p: nat)
  {
    p < |s| && IsDigit(s[p]) &&
    var q := DigitsEnd(s, p);
    q + 1 < |s| && s[q] == '-' && IsDigit(s[q + 1])
  }

  /** re.search('\d+-\d+', s) from position `from`: the leftmost match. */
  function FindRange(s: string, from: nat): (r: Option<nat>)
    ensures r.Some? ==> from <= r.value && RangeAt(s, r.value)
    ensures r.Some? ==> forall q | from <= q < r.value :: !RangeAt(s, q)
    ensures r.None? ==> forall q | from <= q :: !RangeAt(s, q)
    decreases |s| - from
  {
    if |s| <= from then None
    else if RangeAt(s, from) then Some(from)
    else FindRange(s, from + 1)
  }

  /** pos.split('-')[0] for the match at p: the first number, as text. */
  function StartDigits(s: string, p: nat): (t: string)
    requires RangeAt(s, p)
    ensures 0 < |t| && forall k | 0 <= k < |t| :: IsDigit(t[k])
  {
    s[p..DigitsEnd(s, p)]
  }

  /** The end of the run of upper-case letters that starts at p: the greedy `[A-Z]+`. */
  function UpperEnd(s: string, p: nat): (e: nat)
    requires p <= |s|
    ensures p <= e <= |s|
    ensures forall k | p <= k < e :: IsUpperLetter(s[k])
    ensures e == |s| || !IsUpperLetter(s[e])
    decreases |s| - p
  {
    if p < |s| && IsUpperLetter(s[p]) then UpperEnd(s, p + 1) else p
  }

  /** The start of re.search('[A-Z]+', s) from position `from`: the first upper-case letter. */
  function FirstUpper(s: string, from: nat): (r: Option<nat>)
    ensures r.Some? ==> from <= r.value < |s| && IsUpperLetter(s[r.value])
    ensures r.Some? ==> forall k | from <= k < r.value :: !IsUpperLetter(s[k])
    ensures r.None? ==> forall k | from <= k < |s| :: !IsUpperLetter(s[k])
    decreases |s| - from
  {
    if |s| <= from then None
    else if IsUpperLetter(s[from]) then Some(from)
    else FirstUpper(s, from + 1)
  }

  // ---- get_positions ----

  /** The six parallel lists get_positions returns. */
  datatype Positions = Positions(
    headers: seq<string>,
    seqs: seq<string>,
    seqStart: seq<string>,
    seqLength: seq<nat>,
    exonStart: seq<nat>,
    exonEnd: seq<nat>)
  {
    function Count(): nat { |headers| }

    /** Six lists of one length, and each exon a non-empty span of its sequence. */
    ghost predicate Consistent()
    {
      |seqs| == |seqStart| == |seqLength| == |exonStart| == |exonEnd| == |headers| &&
      forall i | 0 <= i < |headers| ::
        seqLength[i] == |seqs[i]| && exonStart[i] < exonEnd[i] <= seqLength[i]
    }
  }

  /** A record get_positions accepts: its header has a `digits-digits` range and
      its sequence an upper-case letter. */
  ghost predicate Locatable(rec: Record)
  {
    FindRange(rec.header, 0).Some? && FirstUpper(rec.sequence, 0).Some?
  }

  /** The exception get_positions raises on record i: the header is searched first. */
  function LocateError(rec: Record, i: nat): Error
  {
    if FindRange(rec.header, 0).None? then MissingPosition(i) else MissingExon(i)
  }

  /** The positional lists of the records, one record after the other: the first
      record without a range or without an exon aborts with its error. */
  function LocateAll(recs: seq<Record>): (r: Result<Positions>)
    decreases |recs|
  {
    if recs == [] then Ok(Positions([], [], [], [], [], []))
    else
      var n := |recs| - 1;
      var front := LocateAll(recs[..n]);
      var rec := recs[n];
      if front.Err? then front
      else if FindRange(rec.header, 0).None? then Err(MissingPosition(n))
      else if FirstUpper(rec.sequence, 0).None? then Err(MissingExon(n))
      else
        var p := front.value;
        var start := FirstUpper(rec.sequence, 0).value;
        Ok(Positions(p.headers + [rec.header], p.seqs + [rec.sequence],
                     p.seqStart + [StartDigits(rec.header, FindRange(rec.header, 0).value)],
                     p.seqLength + [|rec.sequence|], p.exonStart + [start],
                     p.exonEnd + [UpperEnd(rec.sequence, start)]))
  }

  /** get_positions succeeds exactly when every record is locatable, and then
      lists, for each record in order, its header, sequence, start coordinate,
      length and exon, the exon being a non-empty run inside the sequence. */
  lemma {:induction false} LocateAllOk(recs: seq<Record>)
    ensures LocateAll(recs).Ok? <==> forall i | 0 <= i < |recs| :: Locatable(recs[i])
    ensures LocateAll(recs).Ok? ==> Located(recs, LocateAll(recs).value)
    decreases |recs|
  {
    if recs != [] {
      var n := |recs| - 1;
      var front := recs[..n];
      LocateAllOk(front);
      assert forall i | 0 <= i < n :: front[i] == recs[i];
      if LocateAll(recs).Ok? {
        LocatedSnoc(recs);
      }
    }
  }

  /** One more located record extends the lists by its own entries. */
  lemma LocatedSnoc(recs: seq<Record>)
    requires recs != [] && LocateAll(recs).Ok?
    requires Located(recs[..|recs| - 1], LocateAll(recs[..|recs| - 1]).value)
    ensures Located(recs, LocateAll(recs).value)
  {
    var n := |recs| - 1;
    var front := recs[..n];
    var p, q := LocateAll(front).value, LocateAll(recs).value;
    var rec := recs[n];
    var start := FirstUpper(rec.sequence, 0).value;
    assert q.headers == p.headers + [rec.header] && q.seqs == p.seqs + [rec.sequence];
    assert q.seqStart == p.seqStart + [StartDigits(rec.header, FindRange(rec.header, 0).value)];
    assert q.seqLength == p.seqLength + [|rec.sequence|];
    assert q.exonStart == p.exonStart + [start] && q.exonEnd == p.exonEnd + [UpperEnd(rec.sequence, start)];
    assert Locatable(rec);
    ConsistentAppend(p, q, rec.sequence, start);
    LocatedAppend(recs, p, q);
  }

  /** Appending the entries of a sequence whose exon starts at an upper-case
      letter keeps the lists consistent. */
  lemma ConsistentAppend(p: Positions, q: Positions, s: string, start: nat)
    requires p.Consistent() && start < |s| && IsUpperLetter(s[start])
    requires |q.headers| == |p.headers| + 1 && |q.seqStart| == |p.seqStart| + 1
    requires q.seqs == p.seqs + [s] && q.seqLength == p.seqLength + [|s|]
    requires q.exonStart == p.exonStart + [start] && q.exonEnd == p.exonEnd + [UpperEnd(s, start)]
    ensures q.Consistent()
  {
    var n := |p.headers|;
    forall i | 0 <= i < |q.headers|
      ensures q.seqLength[i] == |q.seqs[i]| && q.exonStart[i] < q.exonEnd[i] <= q.seqLength[i]
    {
      if i < n {
        assert q.seqs[i] == p.seqs[i] && q.seqLength[i] == p.seqLength[i];
        assert q.exonStart[i] == p.exonStart[i] && q.exonEnd[i] == p.exonEnd[i];
      }
    }
  }

  /** Lists that extend located lists by the entries of one more locatable
      record are located. */
  lemma LocatedAppend(recs: seq<Record>, p: Positions, q: Positions)
    requires recs != [] && Located(recs[..|recs| - 1], p)
    requires Locatable(recs[|recs| - 1]) && q.Consistent()
    requires q.headers == p.headers + [recs[|recs| - 1].header]
    requires q.seqs == p.seqs + [recs[|recs| - 1].sequence]
    requires q.seqStart == p.seqStart + [StartDigits(recs[|recs| - 1].header, FindRange(recs[|recs| - 1].header, 0).value)]
    requires q.exonStart == p.exonStart + [FirstUpper(recs[|recs| - 1].sequence, 0).value]
    requires q.exonEnd == p.exonEnd + [UpperEnd(recs[|recs| - 1].sequence, FirstUpper(recs[|recs| - 1].sequence, 0).value)]
    ensures Located(recs, q)
  {
    var n := |recs| - 1;
    var front := recs[..n];
    forall i | 0 <= i < |recs|
      ensures LocatedAt(recs, q, i)
    {
      if i < n {
        assert front[i] == recs[i] && LocatedAt(front, p, i);
      }
    }
  }

  /** The lists get_positions returns for records recs: six lists of one length,
      entry i taken from record i, each exon a non-empty span of its sequence. */
  ghost predicate Located(recs: seq<Record>, p: Positions)
  {
    p.Consistent() && p.Count() == |recs| &&
    forall i | 0 <= i < |recs| :: LocatedAt(recs, p, i)
  }

  /** Entry i of the lists is taken from record i, which is locatable. */
  ghost predicate LocatedAt(recs: seq<Record>, p: Positions, i: int)
    requires 0 <= i < |recs| && p.Consistent() && p.Count() == |recs|
  {
    Locatable(recs[i]) &&
    p.headers[i] == recs[i].header && p.seqs[i] == recs[i].sequence &&
    p.seqStart[i] == StartDigits(recs[i].header, FindRange(recs[i].header, 0).value) &&
    p.exonStart[i] == FirstUpper(recs[i].sequence, 0).value &&
    p.exonEnd[i] == UpperEnd(recs[i].sequence, p.exonStart[i])
  }

  /** A failed get_positions reports the first record that is not locatable:
      MissingPosition if its header has no range, MissingExon otherwise. */
  lemma {:induction false} LocateAllErr(recs: seq<Record>)
    requires LocateAll(recs).Err?
    ensures exists i | 0 <= i < |recs| ::
              !Locatable(recs[i]) && LocateAll(recs).error == LocateError(recs[i], i) &&
              forall j | 0 <= j < i :: Locatable(recs[j])
    decreases |recs|
  {
    var n := |recs| - 1;
    var front := recs[..n];
    assert forall i | 0 <= i < n :: front[i] == recs[i];
    if LocateAll(front).Err? {
      LocateAllErr(front);
      var i :| 0 <= i < n && !Locatable(front[i]) && LocateAll(front).error == LocateError(front[i], i) &&
               forall j | 0 <= j < i :: Locatable(front[j]);
      assert !Locatable(recs[i]) && forall j | 0 <= j < i :: Locatable(recs[j]);
    } else {
      LocateAllOk(front);
      assert !Locatable(recs[n]);
    }
  }

  /** A failure among the first k records is the failure of the whole file. */
  lemma {:induction false} LocateAllPrefixError(recs: seq<Record>, k: nat)
    requires k <= |recs| && LocateAll(recs[..k]).Err?
    ensures LocateAll(recs) == LocateAll(recs[..k])
    decreases |recs| - k
  {
    if k < |recs| {
      assert recs[..k + 1][..k] == recs[..k];
      LocateAllPrefixError(recs, k + 1);
    } else {
      assert recs[..k] == recs;
    }
  }

  /** get_positions: parses the file and appends, for each record in turn, its
      header, sequence, start coordinate text, length and exon span; the first
      record without a range or without an exon aborts the whole call. */
  method GetPositions(lines: seq<string>) returns (r: Result<Positions>)
    ensures r == LocateAll(Records(lines))
  {
    var recs := ParseFasta(lines);
    var headers: seq<string>, seqs: seq<string>, seqStart: seq<string> := [], [], [];
    var seqLength: seq<nat>, exonStart: seq<nat>, exonEnd: seq<nat> := [], [], [];
    for i := 0 to |recs|
      invariant LocateAll(recs[..i]) == Ok(Positions(headers, seqs, seqStart, seqLength, exonStart, exonEnd))
    {
      assert recs[..i + 1][..i] == recs[..i];
      var header, sequence := recs[i].header, recs[i].sequence;
      seqs := seqs + [sequence];
      headers := headers + [header];
      var pos := FindRange(header, 0);
      if pos.None? {
        LocateAllPrefixError(recs, i + 1);
        return Err(MissingPosition(i));
      }
      seqStart := seqStart + [StartDigits(header, pos.value)];
      seqLength := seqLength + [|sequence|];
      var exon := FirstUpper(sequence, 0);
      if exon.None? {
        LocateAllPrefixError(recs, i + 1);
        return Err(MissingExon(i));
      }
      exonStart := exonStart + [exon.value];
      exonEnd := exonEnd + [UpperEnd(sequence, exon.value)];
    }
    assert recs[..|recs|] == recs;
    r := Ok(Positions(headers, seqs, seqStart, seqLength, exonStart, exonEnd));
  }
}
