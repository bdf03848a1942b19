/**
 The thermal counting handler. The network, the image decoding and the
 preprocessing are not modelled: what they produce is a parameter, either the
 network's raw output (a float) or the exception they raised. What is
 modelled is the handler's own logic around them: the existence check first,
 the rewrapping of decoding errors, and round(abs(raw)).
 */
module Thermal {
  import opened Errors

  /** A Python float: a finite value, an infinity or NaN. */
  datatype Float = Finite(value: real) | Infinity(negative: bool) | NaN

  /** Python's abs() on a float. */
  function Abs(x: Float): (r: Float)
    ensures r.Finite? <==> x.Finite?
    ensures r.Finite? ==> r.value >= 0.0 && (r.value == x.value || r.value == -x.value)
    ensures r.Infinity? ==> !r.negative
    ensures r.NaN? <==> x.NaN?
  {
    match x
    case Finite(v) => Finite(if v < 0.0 then -v else v)
    case Infinity(_) => Infinity(false)
    case NaN => NaN
  }

  /** Python's round() of a finite float to an int: the nearest integer, and
      on a tie the even one. */
  function RoundHalfEven(x: real): (r: int)
    ensures -0.5 <= r as real - x <= 0.5
    ensures (r as real - x == 0.5 || x - r as real == 0.5) ==> r % 2 == 0
  {
    var f := x.Floor;
    var d := x - f as real;
    if d < 0.5 then f
    else if d > 0.5 then f + 1
    else if f % 2 == 0 then f
    else f + 1
  }

  /** The two properties of RoundHalfEven's contract pin the result down: no
      other integer has them. */
  lemma RoundHalfEvenUnique(x: real, n: int)
    requires -0.5 <= n as real - x <= 0.5
    requires (n as real - x == 0.5 || x - n as real == 0.5) ==> n % 2 == 0
    ensures n == RoundHalfEven(x)
  {
    var r := RoundHalfEven(x);
    assert -1 <= n - r <= 1;
    assert n - r == 1 ==> n as real - x == 0.5 && x - r as real == 0.5;
    assert n - r == -1 ==> r as real - x == 0.5 && x - n as real == 0.5;
  }

  /** Python's round() of any float: NaN raises ValueError and an infinity
      raises OverflowError, neither of which is an IOError. */
  function PyRound(x: Float): (r: Outcome<int>)
    ensures r.Ok? <==> x.Finite?
    ensures r.Ok? ==> -0.5 <= r.value as real - x.value <= 0.5
    ensures r.Ok? ==> r.value == RoundHalfEven(x.value)
    ensures r.Raised? ==> !IsIOError(r.error)
  {
    match x
    case Finite(v) => Ok(RoundHalfEven(v))
    case Infinity(_) => Raised(OtherError("cannot convert float infinity to integer"))
    case NaN => Raised(OtherError("cannot convert float NaN to integer"))
  }

  /** What the code inside the handler's try block up to the network call
      yields: the raw output, or the exception opening, preprocessing or
      evaluation raised. */
  datatype Inference = Output(raw: Float) | Failed(error: PyError)

  const PROCESSING_PREFIX := "Failed to process image file: "

  /** The thermal counting handler. `existing` is the set of paths that
      exist on the filesystem. */
  function ThermalUsvDetection(existing: set<string>, imagePath: string, inference: Inference): (o: Outcome<int>)
    // A missing path is reported before anything else is attempted, and it
    // is the only way to obtain FileNotFoundError from the handler.
    ensures imagePath !in existing ==> o == Raised(FileNotFoundError(NOT_FOUND_MESSAGE))
    ensures o.Raised? && o.error.FileNotFoundError? <==> imagePath !in existing
    // A count is returned exactly when the path exists and the network
    // produced a finite value; the count is that value's magnitude, rounded.
    ensures o.Ok? <==> imagePath in existing && inference.Output? && inference.raw.Finite?
    ensures o.Ok? ==> o.value >= 0
    ensures o.Ok? ==> -0.5 <= o.value as real - Abs(inference.raw).value <= 0.5
    ensures o.Ok? ==> o.value == RoundHalfEven(Abs(inference.raw).value)
    // A NaN or infinite output makes round() raise ValueError or
    // OverflowError, which the handler's except clause does not catch.
    ensures imagePath in existing && inference.Output? && !inference.raw.Finite? ==>
              o.Raised? && !IsIOError(o.error)
    // Every IOError of decoding, FileNotFoundError included, comes out as a
    // plain IOError carrying the original message.
    ensures imagePath in existing && inference.Failed? && IsIOError(inference.error) ==>
              o == Raised(OSError(PROCESSING_PREFIX + inference.error.message))
    // Anything else raised in the try block passes through unchanged.
    ensures imagePath in existing && inference.Failed? && !IsIOError(inference.error) ==>
              o == Raised(inference.error)
  {
    if imagePath !in existing then
      Raised(FileNotFoundError(NOT_FOUND_MESSAGE))
    else
      match inference
      case Failed(e) =>
        if IsIOError(e) then Raised(OSError(PROCESSING_PREFIX + e.message)) else Raised(e)
      case Output(raw) =>
        PyRound(Abs(raw))
  }
}
