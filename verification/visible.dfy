/**
 The visible-light identification handler. It is a placeholder generator: once
 the path is known to exist, it draws a number of detections between 0 and 2
 and, for each, a box position, a box size and a confidence. The draws are
 parameters here, each constrained to the range the generator draws it from.
 */
module Visible {
  import opened Wire
  import opened Errors
  import Decimal

  /** The random values drawn for one detection: the top-left corner, the box
      width and height, and the confidence in hundredths. */
  datatype Draw = Draw(x1: int, y1: int, width: int, height: int, confidence: int)

  /** The ranges the generator draws from (randint bounds are inclusive). */
  predicate ValidDraw(d: Draw) {
    && 100 <= d.x1 <= 500
    && 100 <= d.y1 <= 500
    && 100 <= d.width <= 200
    && 100 <= d.height <= 150
    && 85 <= d.confidence <= 99
  }

  /** One generator run: at most two detections, every one drawn in range. */
  predicate ValidDraws(draws: seq<Draw>) {
    |draws| <= 2 && forall i :: 0 <= i < |draws| ==> ValidDraw(draws[i])
  }

  /** The identity of the n-th detection (counting from 1): "USV_<n>". */
  function Identity(n: nat): string {
    "USV_" + Decimal.FromNat(n)
  }

  /** The shape every generated detection has: a four-element box whose
      corner and size lie in the drawn ranges, and a confidence of 0.85 to
      0.99. */
  predicate WellFormedDetection(det: Detection) {
    && |det.boxXyxy| == 4
    && 100 <= det.boxXyxy[0] <= 500
    && 100 <= det.boxXyxy[1] <= 500
    && 100 <= det.boxXyxy[2] - det.boxXyxy[0] <= 200
    && 100 <= det.boxXyxy[3] - det.boxXyxy[1] <= 150
    && 85 <= det.confidence <= 99
  }

  /** What a successful run returns: at most two well-formed detections,
      numbered USV_1, USV_2 in order. */
  predicate DetectionList(dets: seq<Detection>) {
    && |dets| <= 2
    && forall i :: 0 <= i < |dets| ==>
         WellFormedDetection(dets[i]) && dets[i].identity == Identity(i + 1)
  }

  /** Recovers the draws from a detection's box and confidence. */
  function DrawOf(det: Detection): Draw
    requires |det.boxXyxy| == 4
  {
    var b := det.boxXyxy;
    Draw(b[0], b[1], b[2] - b[0], b[3] - b[1], det.confidence)
  }

  /** The detection built on loop iteration i from that iteration's draws. */
  function MakeDetection(i: nat, d: Draw): (det: Detection)
    requires ValidDraw(d)
    ensures WellFormedDetection(det)
    ensures det.identity == Identity(i + 1)
    ensures DrawOf(det) == d
  {
    Detection(Identity(i + 1), [d.x1, d.y1, d.x1 + d.width, d.y1 + d.height], d.confidence)
  }

  /** The results list after the loop has run once per draw, each iteration
      appending one detection. */
  function Generate(draws: seq<Draw>): (dets: seq<Detection>)
    requires forall i :: 0 <= i < |draws| ==> ValidDraw(draws[i])
    ensures |dets| == |draws|
    ensures forall i :: 0 <= i < |dets| ==>
              WellFormedDetection(dets[i]) && dets[i].identity == Identity(i + 1) && DrawOf(dets[i]) == draws[i]
    decreases |draws|
  {
    if |draws| == 0 then []
    else
      var n := |draws| - 1;
      Generate(draws[..n]) + [MakeDetection(n, draws[n])]
  }

  /** The identification handler. `existing` is the set of paths that exist
      on the filesystem. */
  function VisibleUsvIdentification(existing: set<string>, imagePath: string, draws: seq<Draw>): (o: Outcome<seq<Detection>>)
    requires ValidDraws(draws)
    // The only exception is the missing path, checked before any draw.
    ensures o.Raised? <==> imagePath !in existing
    ensures o.Raised? ==> o.error == FileNotFoundError(NOT_FOUND_MESSAGE)
    // Otherwise one detection per draw, with the shape invariants, and the
    // draws can be read back from the result.
    ensures o.Ok? ==> DetectionList(o.value) && |o.value| == |draws|
    ensures o.Ok? ==> forall i :: 0 <= i < |draws| ==> DrawOf(o.value[i]) == draws[i]
  {
    if imagePath !in existing then Raised(FileNotFoundError(NOT_FOUND_MESSAGE))
    else Ok(Generate(draws))
  }

  /** No two detections of one run share an identity. */
  lemma IdentitiesDistinct(dets: seq<Detection>, i: nat, j: nat)
    requires DetectionList(dets)
    requires i < |dets| && j < |dets| && i != j
    ensures dets[i].identity != dets[j].identity
  {
    assert dets[i].identity[4..] == Decimal.FromNat(i + 1);
    assert dets[j].identity[4..] == Decimal.FromNat(j + 1);
    Decimal.FromNatInjective(i + 1, j + 1);
  }
}
