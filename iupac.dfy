/** The IUPAC ambiguity table and the motif compiler (degenerate_bases and
    convert_motifs). A motif compiles to one character class per position: the
    set of sequence characters the source's regex class at that position accepts. */
module Iupac {
  import opened Outcome
  import opened PyStr
  import opened PyDict

  /** A compiled motif: position i accepts exactly the characters in the i-th set. */
  type Pattern = seq<set<char>>

  /** The letters a DNA or RNA sequence is written in, in both cases. */
  const NucleotideChars: set<char> := {'A', 'C', 'G', 'T', 'U', 'a', 'c', 'g', 't', 'u'}

  /** degenerate_bases(): the characters the regex class of an IUPAC code
      accepts, or None for a character that is not a key of the table. 'Z' is
      the no-match code, whose class is empty. */
  function BaseClass(code: char): Option<set<char>>
  {
    match code
    case 'A' => Some({'A', 'a'})
    case 'C' => Some({'C', 'c'})
    case 'G' => Some({'G', 'g'})
    case 'T' => Some({'T', 't', 'U', 'u'})
    case 'U' => Some({'U', 'u', 'T', 't'})
    case 'W' => Some({'A', 'a', 'T', 't', 'U', 'u'})
    case 'S' => Some({'C', 'c', 'G', 'g'})
    case 'M' => Some({'A', 'a', 'C', 'c'})
    case 'K' => Some({'G', 'g', 'T', 't', 'U', 'u'})
    case 'R' => Some({'A', 'a', 'G', 'g'})
    case 'Y' => Some({'C', 'c', 'T', 't', 'U', 'u'})
    case 'B' => Some({'C', 'c', 'G', 'g', 'T', 't', 'U', 'u'})
    case 'D' => Some({'A', 'a', 'G', 'g', 'T', 't', 'U', 'u'})
    case 'H' => Some({'A', 'a', 'C', 'c', 'T', 't', 'U', 'u'})
    case 'V' => Some({'A', 'a', 'C', 'c', 'G', 'g'})
    case 'N' => Some({'A', 'a', 'C', 'c', 'G', 'g', 'T', 't', 'U', 'u'})
    case 'Z' => Some({})
    case _ => None
  }

  /** The table has exactly seventeen codes. */
  lemma TableCodes(code: char)
    ensures BaseClass(code).Some? <==> code in "ACGTUWSMKRYBDHVNZ"
  {
  }

  /** Every class but Z's is non-empty, made of sequence letters only, holds
      both cases of each letter it holds, and holds T exactly when it holds U. */
  lemma TableClasses(code: char)
    requires BaseClass(code).Some?
    ensures BaseClass(code).value <= NucleotideChars
    ensures BaseClass(code).value == {} <==> code == 'Z'
    ensures CaseClosed(BaseClass(code).value)
    ensures 'T' in BaseClass(code).value <==> 'U' in BaseClass(code).value
  {
  }

  /** A class that holds a letter holds it in both cases. */
  ghost predicate CaseClosed(cls: set<char>)
  {
    ('A' in cls <==> 'a' in cls) && ('C' in cls <==> 'c' in cls) && ('G' in cls <==> 'g' in cls) &&
    ('T' in cls <==> 't' in cls) && ('U' in cls <==> 'u' in cls)
  }

  /** The IUPAC meaning of a code, as a set of the four DNA bases: W is A or T,
      S is C or G, and so on; U denotes the same base as T. */
  function Nucleotides(code: char): set<char>
  {
    match code
    case 'A' => {'A'}
    case 'C' => {'C'}
    case 'G' => {'G'}
    case 'T' => {'T'}
    case 'U' => {'T'}
    case 'W' => {'A', 'T'}
    case 'S' => {'C', 'G'}
    case 'M' => {'A', 'C'}
    case 'K' => {'G', 'T'}
    case 'R' => {'A', 'G'}
    case 'Y' => {'C', 'T'}
    case 'B' => {'C', 'G', 'T'}
    case 'D' => {'A', 'G', 'T'}
    case 'H' => {'A', 'C', 'T'}
    case 'V' => {'A', 'C', 'G'}
    case 'N' => {'A', 'C', 'G', 'T'}
    case _ => {}
  }

  /** The DNA base a sequence letter stands for, ignoring case and reading U as T. */
  function Canon(c: char): char
  {
    match c
    case 'a' => 'A'
    case 'c' => 'C'
    case 'g' => 'G'
    case 't' => 'T'
    case 'U' => 'T'
    case 'u' => 'T'
    case _ => c
  }

  /** Sequence letter c stands, ignoring case and reading U as T, for one of the
      bases the code means. */
  predicate Denotes(code: char, c: char)
  {
    c in NucleotideChars && Canon(c) in Nucleotides(code)
  }

  /** A code accepts exactly the sequence letters, in either case and with U for
      T, that stand for one of the bases the code means. */
  lemma ClassMeansCode(code: char, c: char)
    requires BaseClass(code).Some?
    ensures c in BaseClass(code).value <==> Denotes(code, c)
  {
  }

  /** Position i of a compiled motif accepts exactly the sequence letters that
      stand, ignoring case and with U for T, for a base the code at i means. */
  lemma CompiledMeansCode(motif: string, i: nat, c: char)
    requires Compile(motif).Ok? && i < |motif|
    ensures c in Compile(motif).value[i] <==> Denotes(motif[i], c)
  {
    ClassMeansCode(motif[i], c);
  }

  /** The dictionary key of a motif line: line.upper().strip(). */
  function MotifKey(line: string): string
  {
    Strip(Upper(line))
  }

  /** A motif key has no lower-case ASCII letter, no whitespace at either end,
      and is no longer than its line. */
  lemma MotifKeySpec(line: string)
    ensures |MotifKey(line)| <= |line|
    ensures forall i | 0 <= i < |MotifKey(line)| :: !('a' <= MotifKey(line)[i] <= 'z')
    ensures MotifKey(line) == [] || (MotifKey(line)[0] !in Whitespace && MotifKey(line)[|MotifKey(line)| - 1] !in Whitespace)
  {
    var u := Upper(line);
    var k := Strip(u);
    UpperSpec(line);
    StripSpec(u);
    forall i | 0 <= i < |k| ensures !('a' <= k[i] <= 'z') {
      assert k[i] in k;
    }
  }

  /** The keys of the motif lines, line by line. */
  function MotifKeys(lines: seq<string>): seq<string>
  {
    seq(|lines|, i requires 0 <= i < |lines| => MotifKey(lines[i]))
  }

  /** The compiled form of one motif key: the class of each character in turn,
      or a KeyError for the first character that is not in the table. */
  function Compile(motif: string): (r: Result<Pattern>)
    ensures r.Ok? <==> forall i | 0 <= i < |motif| :: BaseClass(motif[i]).Some?
    ensures r.Ok? ==> |r.value| == |motif|
    ensures r.Ok? ==> forall i | 0 <= i < |motif| :: r.value[i] == BaseClass(motif[i]).value
    ensures r.Err? ==> exists i | 0 <= i < |motif| ::
              BaseClass(motif[i]).None? && r.error == UnknownSymbol(motif[i]) &&
              forall k | 0 <= k < i :: BaseClass(motif[k]).Some?
    decreases |motif|
  {
    if motif == [] then Ok([])
    else
      var front := Compile(motif[..|motif| - 1]);
      var last := motif[|motif| - 1];
      if front.Err? then
        assert forall i | 0 <= i < |motif| - 1 :: motif[..|motif| - 1][i] == motif[i];
        front
      else if BaseClass(last).None? then
        Err(UnknownSymbol(last))
      else
        Ok(front.value + [BaseClass(last).value])
  }

  /** convert_motifs on the keys of the motif lines, one key after the other:
      `d[key] = compiled`. A key with an unknown character aborts the whole
      conversion with its error, so the result is the error of the first key
      that fails, or the table of every key. */
  function CompileAll(keys: seq<string>): (r: Result<Dict<string, Pattern>>)
    ensures r.Ok? <==> forall i | 0 <= i < |keys| :: Compile(keys[i]).Ok?
    ensures r.Err? ==> exists i | 0 <= i < |keys| ::
              Compile(keys[i]) == Err(r.error) &&
              forall j | 0 <= j < i :: Compile(keys[j]).Ok?
    decreases |keys|
  {
    if keys == [] then Ok(Empty())
    else
      var front := keys[..|keys| - 1];
      var done := CompileAll(front);
      var key := keys[|keys| - 1];
      if done.Err? then
        assert forall i | 0 <= i < |front| :: front[i] == keys[i];
        done
      else if Compile(key).Err? then
        Err(Compile(key).error)
      else
        Ok(Insert(done.value, key, Compile(key).value))
  }

  /** A successful conversion holds every distinct key once, in the order keys
      first appear (a repeated motif line adds nothing new), each with its
      compiled form. */
  lemma {:induction false} CompiledTable(keys: seq<string>)
    requires CompileAll(keys).Ok?
    ensures CompileAll(keys).value.Valid()
    ensures CompileAll(keys).value.keys == FirstOccurrences(keys)
    ensures forall k | k in CompileAll(keys).value.values ::
              Compile(k) == Ok(CompileAll(keys).value.values[k])
    decreases |keys|
  {
    if keys != [] {
      var front := keys[..|keys| - 1];
      assert forall i | 0 <= i < |front| :: front[i] == keys[i];
      CompiledTable(front);
    }
  }

  /** convert_motifs: the loop over the motif lines, building each compiled motif
      by appending one class per character and storing it under the line's key. */
  method ConvertMotifs(lines: seq<string>) returns (r: Result<Dict<string, Pattern>>)
    ensures r == CompileAll(MotifKeys(lines))
  {
    ghost var keys := MotifKeys(lines);
    var table: Dict<string, Pattern> := Empty();
    for i := 0 to |lines|
      invariant CompileAll(keys[..i]) == Ok(table)
    {
      var motif := MotifKey(lines[i]);
      assert motif == keys[i];
      var pattern: Pattern := [];
      for j := 0 to |motif|
        invariant Compile(motif[..j]) == Ok(pattern)
      {
        var cls := BaseClass(motif[j]);
        assert motif[..j + 1][..j] == motif[..j];
        if cls.None? {
          r := Err(UnknownSymbol(motif[j]));
          CompileFirstError(motif, j);
          CompileAllFirstError(keys, i);
          return;
        }
        pattern := pattern + [cls.value];
      }
      assert motif[..|motif|] == motif;
      assert keys[..i + 1][..i] == keys[..i];
      table := Insert(table, motif, pattern);
    }
    assert keys[..|lines|] == keys;
    r := Ok(table);
  }

  /** The first unknown character decides the error of a motif. */
  lemma CompileFirstError(motif: string, j: nat)
    requires j < |motif| && Compile(motif[..j]).Ok? && BaseClass(motif[j]).None?
    ensures Compile(motif) == Err(UnknownSymbol(motif[j]))
  {
    assert forall k | 0 <= k < j :: BaseClass(motif[k]).Some? by {
      forall k | 0 <= k < j ensures BaseClass(motif[k]).Some? {
        assert motif[..j][k] == motif[k];
      }
    }
    var r := Compile(motif);
    var i :| 0 <= i < |motif| && BaseClass(motif[i]).None? && r.error == UnknownSymbol(motif[i]) &&
             forall k | 0 <= k < i :: BaseClass(motif[k]).Some?;
    assert !(i < j) && !(j < i);
  }

  /** The first key that fails to compile decides the error of the conversion. */
  lemma CompileAllFirstError(keys: seq<string>, i: nat)
    requires i < |keys| && CompileAll(keys[..i]).Ok? && Compile(keys[i]).Err?
    ensures CompileAll(keys) == Err(Compile(keys[i]).error)
  {
    assert forall j | 0 <= j < i :: Compile(keys[j]).Ok? by {
      forall j | 0 <= j < i ensures Compile(keys[j]).Ok? {
        assert keys[..i][j] == keys[j];
      }
    }
    var r := CompileAll(keys);
    var k :| 0 <= k < |keys| && Compile(keys[k]) == Err(r.error) &&
             forall j | 0 <= j < k :: Compile(keys[j]).Ok?;
    assert !(k < i) && !(i < k);
  }
}
