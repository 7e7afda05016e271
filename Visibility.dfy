/**
 * `filterView`: whether an element is near enough to the visible window to
 * be unveiled. Only the vertical direction is tested.
 */
module Visibility {
  import opened Dom
  import opened Seqs

  /** The window: its scroll offset (`scrollTop`) and its visible height. */
  datatype Viewport = Viewport(top: int, height: int)

  /** An element's geometry: its top offset in the document, its height, and whether it is hidden. */
  datatype Box = Box(top: int, height: int, hidden: bool)

  /** The geometry of every element, as measured at one instant. */
  type Geometry = Elem -> Box

  /**
   * A hidden element is never in view. Any other element is in view when its
   * bottom edge is at or below the window's top edge raised by `threshold`
   * and its top edge is at or above the window's bottom edge lowered by
   * `threshold`. So, with a non-negative threshold, a shown element is in
   * view when its top edge or its bottom edge is on screen, and when it
   * spans the whole window.
   */
  predicate InView(b: Box, w: Viewport, threshold: int)
    ensures !b.hidden && 0 <= threshold && 0 <= b.height && w.top <= b.top <= w.top + w.height ==>
      InView(b, w, threshold)
    ensures !b.hidden && 0 <= threshold && 0 <= b.height && w.top <= b.top + b.height <= w.top + w.height ==>
      InView(b, w, threshold)
    ensures !b.hidden && 0 <= threshold && 0 <= w.height && b.top <= w.top && w.top + w.height <= b.top + b.height ==>
      InView(b, w, threshold)
  {
    if b.hidden then false
    else
      var wb := w.top + w.height;
      var eb := b.top + b.height;
      eb >= w.top - threshold && b.top <= wb + threshold
  }

  /** Row `y` of the document lies within the element's vertical extent. */
  predicate Covers(b: Box, y: int) {
    b.top <= y <= b.top + b.height
  }

  /** Row `y` of the document lies within the window widened by `threshold` on both sides. */
  predicate Widened(w: Viewport, threshold: int, y: int) {
    w.top - threshold <= y <= w.top + w.height + threshold
  }

  /** The same test as an overlap: some row of the element lies in the widened window. */
  ghost predicate Overlaps(b: Box, w: Viewport, threshold: int) {
    exists y {:trigger Covers(b, y)} :: Covers(b, y) && Widened(w, threshold, y)
  }

  /**
   * For an element of non-negative height and a widened window that is not
   * empty, `InView` holds exactly when the element is shown and its extent
   * overlaps the window widened by `threshold` on both sides.
   */
  lemma InViewIffOverlaps(b: Box, w: Viewport, threshold: int)
    requires b.height >= 0 && w.height + 2 * threshold >= 0
    ensures InView(b, w, threshold) <==> !b.hidden && Overlaps(b, w, threshold)
  {
    if InView(b, w, threshold) {
      var lo := w.top - threshold;
      var y := if b.top >= lo then b.top else lo;
      assert Covers(b, y) && Widened(w, threshold, y);
    }
  }

  /** A hidden element is never in view, wherever it is. */
  lemma HiddenNeverInView(b: Box, w: Viewport, threshold: int)
    requires b.hidden
    ensures !InView(b, w, threshold)
  {
  }

  /** Widening the threshold never takes an element out of view. */
  lemma InViewMonotone(b: Box, w: Viewport, t1: int, t2: int)
    requires t1 <= t2 && InView(b, w, t1)
    ensures InView(b, w, t2)
  {
  }

  /** Both bounds are inclusive: with the window at [0, 500] and threshold 100, top 600 is in view and top 601 is not. */
  lemma ThresholdBoundary()
    ensures InView(Box(600, 60, false), Viewport(0, 500), 100)
    ensures !InView(Box(601, 60, false), Viewport(0, 500), 100)
    ensures InView(Box(-160, 60, false), Viewport(0, 500), 100)
    ensures !InView(Box(-161, 60, false), Viewport(0, 500), 100)
  {
  }

  /** `filterView` as a test on elements, for one measurement of the page. */
  function Near(w: Viewport, geom: Geometry, threshold: int): Elem -> bool {
    (e: Elem) => InView(geom(e), w, threshold)
  }

  /** `pending.filter(filterView)`: the pending elements in view, in their order. */
  function InViewOf(pending: seq<Elem>, w: Viewport, geom: Geometry, threshold: int): (r: seq<Elem>)
    ensures forall e :: e in r <==> e in pending && InView(geom(e), w, threshold)
    ensures |r| <= |pending|
  {
    Filter(pending, Near(w, geom, threshold))
  }

  /** The opposite test: the element is not in view. */
  function Far(w: Viewport, geom: Geometry, threshold: int): Elem -> bool {
    (e: Elem) => !InView(geom(e), w, threshold)
  }

  /** The pending elements not in view, in their order. */
  function OutOfViewOf(pending: seq<Elem>, w: Viewport, geom: Geometry, threshold: int): (r: seq<Elem>)
    ensures forall e :: e in r <==> e in pending && !InView(geom(e), w, threshold)
    ensures |r| <= |pending|
  {
    Filter(pending, Far(w, geom, threshold))
  }

  /** `pending.not(pending.filter(filterView))` keeps exactly the pending elements out of view, in order. */
  lemma RemovingInView(pending: seq<Elem>, w: Viewport, geom: Geometry, threshold: int)
    ensures Without(pending, InViewOf(pending, w, geom, threshold)) == OutOfViewOf(pending, w, geom, threshold)
  {
    WithoutFiltered(pending, Near(w, geom, threshold), Far(w, geom, threshold));
  }
}
