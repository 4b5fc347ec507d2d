/**
 * Error values and the error history list (`is_valid_error_value`,
 * `ErrorHistoryList.last`, `previous` and `normalized`).
 */
module ErrorHistory {
  import opened Wrappers

  /** One floating-point number: a number or NaN. */
  datatype Cell = Num(x: real) | NaN

  /**
   * What a network's error function returns: Python's `None`, a plain
   * Python float (NumPy's float64 is one), or any other NumPy value,
   * flattened into its cells.
   */
  datatype ErrorValue = NoValue | PyFloat(cell: Cell) | NdArray(cells: seq<Cell>)

  /** The placeholder recorded as validation error when there is no test data (`np.nan`). */
  const Placeholder: ErrorValue := PyFloat(NaN)

  /** `is_valid_error_value`: not `None` and not NaN in every cell. */
  predicate IsValidErrorValue(e: ErrorValue) {
    match e
    case NoValue => false
    case PyFloat(c) => c.Num?
    case NdArray(cells) => exists k :: 0 <= k < |cells| && cells[k].Num?
  }

  /** The cells `np.isnan` looks at in a value that is not `None`. */
  function CellsOf(e: ErrorValue): (r: seq<Cell>)
    requires !e.NoValue?
    ensures e.PyFloat? ==> r == [e.cell]
    ensures e.NdArray? ==> r == e.cells
  {
    match e
    case PyFloat(c) => [c]
    case NdArray(cells) => cells
  }

  /** `np.all(np.isnan(value))`, which holds of an empty array. */
  predicate AllNaN(e: ErrorValue)
    requires !e.NoValue?
  {
    forall k :: 0 <= k < |CellsOf(e)| ==> CellsOf(e)[k].NaN?
  }

  /**
   * A value is valid exactly as the source decides it: it is not `None`
   * and not every cell is NaN. An empty array is therefore invalid.
   */
  lemma ValidIsNotAllNaN(e: ErrorValue)
    ensures IsValidErrorValue(e) <==> !e.NoValue? && !AllNaN(e)
    ensures e == NdArray([]) ==> !IsValidErrorValue(e)
  {
    if e.PyFloat? {
      assert CellsOf(e)[0] == e.cell;
    } else if e.NdArray? && IsValidErrorValue(e) {
      var k :| 0 <= k < |e.cells| && e.cells[k].Num?;
      assert !CellsOf(e)[k].NaN?;
    }
  }

  /** A normalisation function, standing for `normalize_error`. */
  type Normalizer = ErrorValue -> ErrorValue

  /** `ErrorHistoryList.last`. */
  function Last(h: seq<ErrorValue>, normalize: Normalizer): (r: Option<ErrorValue>)
    ensures r.Some? <==> |h| >= 1 && IsValidErrorValue(h[|h| - 1])
    ensures r.Some? ==> r.value == normalize(h[|h| - 1])
  {
    if |h| >= 1 && IsValidErrorValue(h[|h| - 1]) then Some(normalize(h[|h| - 1])) else None
  }

  /** `ErrorHistoryList.previous`: it looks at the second-to-last entry only. */
  function Previous(h: seq<ErrorValue>, normalize: Normalizer): (r: Option<ErrorValue>)
    ensures r.Some? <==> |h| >= 2 && IsValidErrorValue(h[|h| - 2])
    ensures r.Some? ==> r.value == normalize(h[|h| - 2])
  {
    if |h| >= 2 && IsValidErrorValue(h[|h| - 2]) then Some(normalize(h[|h| - 2])) else None
  }

  /**
   * `ErrorHistoryList.normalized`: the list itself when it is empty or starts
   * with a float, otherwise every entry normalised.
   */
  function Normalized(h: seq<ErrorValue>, normalize: Normalizer): (r: seq<ErrorValue>)
    ensures |r| == |h|
    ensures h == [] || h[0].PyFloat? ==> r == h
    ensures h != [] && !h[0].PyFloat? ==> forall k :: 0 <= k < |h| ==> r[k] == normalize(h[k])
  {
    if h == [] || h[0].PyFloat? then h else seq(|h|, k requires 0 <= k < |h| => normalize(h[k]))
  }

  /** After an append, `last` depends on the appended value alone. */
  lemma LastAfterAppend(h: seq<ErrorValue>, e: ErrorValue, normalize: Normalizer)
    ensures Last(h + [e], normalize) == if IsValidErrorValue(e) then Some(normalize(e)) else None
  {
  }

  /** After an append, `previous` is what `last` was before it. */
  lemma PreviousAfterAppend(h: seq<ErrorValue>, e: ErrorValue, normalize: Normalizer)
    ensures Previous(h + [e], normalize) == Last(h, normalize)
  {
    assert |h| >= 1 ==> (h + [e])[|h| - 1] == h[|h| - 1];
  }

  /**
   * `previous` does not search back for a valid entry: an invalid
   * second-to-last entry hides every valid one before it.
   */
  lemma PreviousDoesNotSearchBack(h: seq<ErrorValue>, x: real, y: real, normalize: Normalizer)
    ensures Previous(h + [PyFloat(Num(x)), Placeholder, PyFloat(Num(y))], normalize) == None
  {
    var g := h + [PyFloat(Num(x)), Placeholder, PyFloat(Num(y))];
    assert g[|g| - 2] == Placeholder;
  }

  /** A placeholder is never valid, so neither accessor reports it. */
  lemma PlaceholderIsNoValue(h: seq<ErrorValue>, normalize: Normalizer)
    requires |h| >= 1 && h[|h| - 1] == Placeholder
    ensures Last(h, normalize) == None
  {
  }

  /** Normalising twice is normalising once when the normaliser produces floats. */
  lemma NormalizedIdempotent(h: seq<ErrorValue>, normalize: Normalizer)
    requires h != [] ==> normalize(h[0]).PyFloat?
    ensures Normalized(Normalized(h, normalize), normalize) == Normalized(h, normalize)
  {
  }
}
