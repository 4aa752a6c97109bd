/**
  The view-state rules of the canvas widget (gui/tileddrawwidget.py):
  the scale clamp and re-anchoring applied after every rotate/zoom/mirror
  mutator (rotozoom_with_center), and the integer recentring done when the
  widget is resized (size_allocate_cb).
 */
module ViewRules {
  import opened Types

  /** helpers.clamp: the nearest value of [lo, hi]. */
  function Clamp(x: real, lo: real, hi: real): (r: real)
    requires lo <= hi
    ensures lo <= r <= hi
    ensures lo <= x <= hi ==> r == x
    ensures r != x ==> (r == lo && x < lo) || (r == hi && hi < x)
  {
    if x < lo then lo else if x > hi then hi else x
  }

  /** The closures passed to rotozoom_with_center by zoom, set_zoom, rotate, set_rotation, mirror, set_mirrored. */
  datatype Mutation =
    | ZoomBy(factor: real)
    | ZoomTo(zoom: real)
    | RotateBy(angle: real)
    | RotateTo(angle: real)
    | ToggleMirror
    | MirrorTo(mirrored: bool)

  /** The mutator's effect on the view, before clamping and re-anchoring. */
  function Mutate(v: Viewport, m: Mutation): (r: Viewport)
    ensures r.translationX == v.translationX && r.translationY == v.translationY
  {
    match m
    case ZoomBy(factor) => v.(scale := v.scale * factor)
    case ZoomTo(zoom) => v.(scale := zoom)
    case RotateBy(angle) => v.(rotation := v.rotation + angle)
    case RotateTo(angle) => v.(rotation := angle)
    case ToggleMirror => v.(mirrored := !v.mirrored)
    case MirrorTo(mirrored) => v.(mirrored := mirrored)
  }

  /**
    The anchor of a rotozoom: the last event position when anchoring at the
    pointer, the pointer is inside the widget and an event has been seen;
    otherwise the centre of the window.
   */
  function RotozoomCenter(atPointer: bool, hasPointer: bool, lastEvent: Option<Point>, windowWidth: int, windowHeight: int): (c: Point)
    ensures atPointer && hasPointer && lastEvent.Some? ==> c == lastEvent.value
    ensures !(atPointer && hasPointer && lastEvent.Some?) ==>
      2.0 * c.x == windowWidth as real && 2.0 * c.y == windowHeight as real
  {
    if atPointer && hasPointer && lastEvent.Some? then lastEvent.value
    else Point(windowWidth as real / 2.0, windowHeight as real / 2.0)
  }

  function Shifted(v: Viewport, dx: real, dy: real): Viewport {
    v.(translationX := v.translationX + dx, translationY := v.translationY + dy)
  }

  /**
    rotozoom_with_center: remember the model point under the anchor, apply
    the mutator, clamp the scale to [zoomMin, zoomMax], then shift the
    translation by however far the remembered point moved on screen.
   */
  function Rotozoom(v: Viewport, m: Mutation, zoomMin: real, zoomMax: real, center: Point,
                    toModel: Mapping, toDevice: Mapping): (r: Viewport)
    requires 0.0 < zoomMin <= zoomMax
    ensures zoomMin <= r.scale <= zoomMax
    ensures r.scale == Clamp(Mutate(v, m).scale, zoomMin, zoomMax)
    ensures r.rotation == Mutate(v, m).rotation && r.mirrored == Mutate(v, m).mirrored
    ensures zoomMin <= Mutate(v, m).scale <= zoomMax ==> r.scale == Mutate(v, m).scale
  {
    var anchor := toModel(v, center);
    var mutated := Mutate(v, m);
    var clamped := mutated.(scale := Clamp(mutated.scale, zoomMin, zoomMax));
    var moved := toDevice(clamped, anchor);
    Shifted(clamped, center.x - moved.x, center.y - moved.y)
  }

  /** device_to_user undoes user_to_device for every view with a positive scale. */
  ghost predicate Inverse(toModel: Mapping, toDevice: Mapping) {
    forall w: Viewport, p :: w.scale > 0.0 ==> toModel(w, toDevice(w, p)) == p
  }

  /** Changing the translation moves every model point's image by the same amount. */
  ghost predicate MovesWithTranslation(toDevice: Mapping) {
    forall w, p, dx, dy :: toDevice(Shifted(w, dx, dy), p) == Point(toDevice(w, p).x + dx, toDevice(w, p).y + dy)
  }

  /**
    A rotozoom never makes the canvas jump under its anchor: the model point
    under the anchor before the mutator is under it afterwards, for any
    transform whose inverse is exact and whose image follows the translation.
   */
  lemma RotozoomKeepsAnchor(v: Viewport, m: Mutation, zoomMin: real, zoomMax: real, center: Point,
                            toModel: Mapping, toDevice: Mapping)
    requires 0.0 < zoomMin <= zoomMax
    requires Inverse(toModel, toDevice) && MovesWithTranslation(toDevice)
    ensures toModel(Rotozoom(v, m, zoomMin, zoomMax, center, toModel, toDevice), center) == toModel(v, center)
  {
    var anchor := toModel(v, center);
    var mutated := Mutate(v, m);
    var clamped := mutated.(scale := Clamp(mutated.scale, zoomMin, zoomMax));
    var moved := toDevice(clamped, anchor);
    var r := Shifted(clamped, center.x - moved.x, center.y - moved.y);
    assert toDevice(r, anchor) == center;
    assert toModel(r, toDevice(r, anchor)) == anchor;
  }

  /**
    Scrolling, and so the recentring on resize, never moves the view on or
    off the translation-only rendering path.
   */
  lemma ScrollKeepsPath(v: Viewport, dx: real, dy: real)
    ensures Shifted(v, dx, dy).IsTranslationOnly() <==> v.IsTranslationOnly()
    ensures Shifted(v, dx, dy).scale == v.scale && Shifted(v, dx, dy).rotation == v.rotation &&
            Shifted(v, dx, dy).mirrored == v.mirrored
  {
  }

  /** The mirror mutator applied twice restores the view and leaves the rest alone. */
  lemma MirrorTwice(v: Viewport)
    ensures Mutate(Mutate(v, ToggleMirror), ToggleMirror) == v
    ensures Mutate(v, ToggleMirror).IsTranslationOnly() ==> !v.IsTranslationOnly()
  {
  }

  /**
    size_allocate_cb's recentring: when the widget changes from size `previous`
    to size `next` along one axis, the view scrolls by half the difference,
    with Python 2's flooring integer division.
   */
  function RecentreShift(previous: int, next: int): (d: int)
    ensures previous - next - 1 <= 2 * d <= previous - next
    ensures (previous - next) % 2 == 0 ==> 2 * d == previous - next
  {
    (previous - next) / 2
  }

  /**
    Growing and then shrinking back (or the reverse) returns the view to
    where it was when the difference is even, and leaves it one pixel off
    when the difference is odd.
   */
  lemma RecentreRoundTrip(a: int, b: int)
    ensures RecentreShift(a, b) + RecentreShift(b, a) == if (a - b) % 2 == 0 then 0 else -1
  {
    var d, e := RecentreShift(a, b), RecentreShift(b, a);
    if (a - b) % 2 != 0 {
      assert (b - a) % 2 != 0;
      assert 2 * d == a - b - 1 && 2 * e == b - a - 1;
    } else {
      assert (b - a) % 2 == 0;
    }
  }
}
