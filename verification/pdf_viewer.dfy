/**
 * The zoom control of FrontEnd/invoice-extractor-system/src/components/PDFViewer.jsx:
 * a percentage that starts at 100 and moves by 10 per click, clamped to
 * the range 50..150.
 */
module PdfViewer {
  const InitialZoom := 100
  const MinZoom := 50
  const MaxZoom := 150
  const Step := 10

  /** The states the control can reach: a multiple of ten between the two bounds. */
  predicate Reachable(z: int) {
    MinZoom <= z <= MaxZoom && z % Step == 0
  }

  /** The "−" updater: `Math.max(50, z - 10)`. */
  function ZoomedOut(z: int): (r: int)
    ensures r >= MinZoom
    ensures z - Step >= MinZoom ==> r == z - Step
    ensures z - Step < MinZoom ==> r == MinZoom
    ensures Reachable(z) ==> Reachable(r)
  {
    if z - Step < MinZoom then MinZoom else z - Step
  }

  /** The "+" updater: `Math.min(150, z + 10)`. */
  function ZoomedIn(z: int): (r: int)
    ensures r <= MaxZoom
    ensures z + Step <= MaxZoom ==> r == z + Step
    ensures z + Step > MaxZoom ==> r == MaxZoom
    ensures Reachable(z) ==> Reachable(r)
  {
    if z + Step > MaxZoom then MaxZoom else z + Step
  }

  datatype Click = In | Out

  /** The zoom after a sequence of clicks, starting from `z`. */
  function Run(z: int, clicks: seq<Click>): int
    decreases |clicks|
  {
    if clicks == [] then z
    else Run(if clicks[0] == In then ZoomedIn(z) else ZoomedOut(z), clicks[1..])
  }

  /** Whatever the clicks, a reachable zoom stays reachable; in particular from the initial 100. */
  lemma {:induction false} RunStaysReachable(z: int, clicks: seq<Click>)
    requires Reachable(z)
    ensures Reachable(Run(z, clicks))
    decreases |clicks|
  {
    if clicks != [] {
      RunStaysReachable(if clicks[0] == In then ZoomedIn(z) else ZoomedOut(z), clicks[1..]);
    }
  }

  lemma AnyClicksFromStart(clicks: seq<Click>)
    ensures Reachable(Run(InitialZoom, clicks))
  {
    RunStaysReachable(InitialZoom, clicks);
  }

  /** At a bound the click towards it changes nothing. */
  lemma ClampedAtBounds()
    ensures ZoomedOut(MinZoom) == MinZoom
    ensures ZoomedIn(MaxZoom) == MaxZoom
  {
  }

  /** Away from the bounds one click is undone by the opposite click. */
  lemma OppositeClicksCancel(z: int)
    requires Reachable(z)
    ensures z < MaxZoom ==> ZoomedOut(ZoomedIn(z)) == z
    ensures z > MinZoom ==> ZoomedIn(ZoomedOut(z)) == z
  {
  }

  /** The component's `zoom` state. */
  class ZoomState {
    var zoom: int

    predicate Valid()
      reads this
    {
      Reachable(zoom)
    }

    /** `useState(100)`. */
    constructor ()
      ensures zoom == InitialZoom && Valid()
    {
      zoom := InitialZoom;
    }

    method ClickOut()
      requires Valid()
      modifies this
      ensures zoom == ZoomedOut(old(zoom)) && Valid()
    {
      zoom := if zoom - Step < MinZoom then MinZoom else zoom - Step;
    }

    method ClickIn()
      requires Valid()
      modifies this
      ensures zoom == ZoomedIn(old(zoom)) && Valid()
    {
      zoom := if zoom + Step > MaxZoom then MaxZoom else zoom + Step;
    }
  }
}
