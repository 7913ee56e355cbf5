/** Partial results and the failures that stop a run of motif mark.
    Every failure of the script is an uncaught Python exception that aborts the
    whole run, so a single error value per run is all the model needs. */
module Outcome {

  datatype Option<T> = None | Some(value: T)

  /** One constructor per exception the script can raise on its own data. */
  datatype Error =
    | UnknownSymbol(symbol: char)    // KeyError: a motif character outside the IUPAC table
    | MissingPosition(record: nat)   // AttributeError: a header without `digits-digits`
    | MissingExon(record: nat)       // AttributeError: a sequence without an upper-case letter
    | EmptyMax                       // ValueError: max() of the empty list of lengths
    | UnboundPalette(count: int)     // UnboundLocalError: palette(n) for n outside 1..6
    | BareColour(index: nat)         // TypeError/IndexError: pal[j] when pal is one bare colour
    | PaletteIndex(index: nat)       // IndexError: pal[j] past the end of the palette

  datatype Result<T> = Ok(value: T) | Err(error: Error)

  /** A Python loop of partial steps, left to right: the first step that fails
      aborts with its error, otherwise the outputs of all the steps, in order. */
  function Sequence<T>(rs: seq<Result<T>>): Result<seq<T>>
  {
    if rs == [] then Ok([])
    else
      var front := Sequence(rs[..|rs| - 1]);
      if front.Err? then front
      else
        match rs[|rs| - 1]
        case Err(e) => Err(e)
        case Ok(v) => Ok(front.value + [v])
  }

  /** The loop finishes exactly when every step succeeds, and then output i is
      that of step i. */
  lemma {:induction false} SequenceSpec<T>(rs: seq<Result<T>>)
    ensures Sequence(rs).Ok? <==> forall i | 0 <= i < |rs| :: rs[i].Ok?
    ensures Sequence(rs).Ok? ==>
              |Sequence(rs).value| == |rs| && forall i | 0 <= i < |rs| :: Sequence(rs).value[i] == rs[i].value
  {
    if rs != [] {
      var front := rs[..|rs| - 1];
      SequenceSpec(front);
      assert forall i | 0 <= i < |front| :: front[i] == rs[i];
    }
  }

  /** A loop that failed within its first k steps fails with the same error
      whatever steps follow. */
  lemma {:induction false} SequencePrefixError<T>(rs: seq<Result<T>>, k: nat)
    requires k <= |rs| && Sequence(rs[..k]).Err?
    ensures Sequence(rs) == Sequence(rs[..k])
    decreases |rs| - k
  {
    if k < |rs| {
      assert rs[..k + 1][..k] == rs[..k];
      SequencePrefixError(rs, k + 1);
    } else {
      assert rs[..k] == rs;
    }
  }
}
