/**
  The pure rules the canvas widget's repaint and canvas_modified_cb apply
  (gui/tileddrawwidget.py): the mipmap level for the current scale, the
  outward rounding of the model-space redraw box, the list of layers to
  composite, and the choice between the full-redraw, translation-only and
  rotated invalidation paths.
 */
module Render {
  import opened Types

  // ---------------------------------------------------------------------
  // Mipmap level

  /** scale * 2^k: the canvas scale as seen from mipmap level k. */
  function Doubled(scale: real, k: nat): real {
    if k == 0 then scale else 2.0 * Doubled(scale, k - 1)
  }

  /** At level `k` the mipmap is still drawn shrunk (scale * 2^k < 1). */
  predicate Shrinks(scale: real, k: nat) {
    Doubled(scale, k) < 1.0
  }

  /** The first level from `level` on at which the mipmap is no longer shrunk, or the cap. */
  function LevelFrom(scale: real, maxLevel: nat, level: nat): (r: nat)
    requires level <= maxLevel
    ensures level <= r <= maxLevel
    decreases maxLevel - level
  {
    if level == maxLevel || !Shrinks(scale, level) then level
    else LevelFrom(scale, maxLevel, level + 1)
  }

  /**
    The mipmap level repaint asks for: max(0, ceil(log2(1/scale))) capped at
    maxLevel, i.e. the least L >= 0 with scale * 2^L >= 1, or the cap.
   */
  function MipmapLevel(scale: real, maxLevel: nat): (level: nat)
    requires scale > 0.0
    ensures level <= maxLevel
    ensures scale >= 1.0 ==> level == 0
  {
    LevelFrom(scale, maxLevel, 0)
  }

  lemma {:induction false} LevelFromIsLeast(scale: real, maxLevel: nat, level: nat)
    requires level <= maxLevel
    requires forall k :: 0 <= k < level ==> Shrinks(scale, k)
    ensures forall k :: 0 <= k < LevelFrom(scale, maxLevel, level) ==> Shrinks(scale, k)
    ensures LevelFrom(scale, maxLevel, level) < maxLevel ==> !Shrinks(scale, LevelFrom(scale, maxLevel, level))
    decreases maxLevel - level
  {
    if level < maxLevel && Shrinks(scale, level) {
      assert forall k :: 0 <= k < level + 1 ==> Shrinks(scale, k) by {
        forall k | 0 <= k < level + 1 ensures Shrinks(scale, k) {
          if k < level {}
        }
      }
      LevelFromIsLeast(scale, maxLevel, level + 1);
    }
  }

  /**
    Below the cap the level is the least L with scale * 2^L >= 1; at the cap
    every smaller level still shrinks the mipmap.
   */
  lemma MipmapLevelIsLeast(scale: real, maxLevel: nat)
    requires scale > 0.0
    ensures var level := MipmapLevel(scale, maxLevel);
      (forall k :: 0 <= k < level ==> Shrinks(scale, k)) &&
      (level < maxLevel ==> !Shrinks(scale, level))
  {
    LevelFromIsLeast(scale, maxLevel, 0);
  }

  lemma {:induction false} DoubledMonotone(s1: real, s2: real, k: nat)
    requires s1 <= s2
    ensures Doubled(s1, k) <= Doubled(s2, k)
  {
    if k > 0 {
      DoubledMonotone(s1, s2, k - 1);
    }
  }

  /** Zooming in never raises the mipmap level. */
  lemma MipmapMonotone(s1: real, s2: real, maxLevel: nat)
    requires 0.0 < s1 <= s2
    ensures MipmapLevel(s2, maxLevel) <= MipmapLevel(s1, maxLevel)
  {
    var l1, l2 := MipmapLevel(s1, maxLevel), MipmapLevel(s2, maxLevel);
    MipmapLevelIsLeast(s1, maxLevel);
    MipmapLevelIsLeast(s2, maxLevel);
    if l1 < l2 {
      assert Shrinks(s2, l1);
      DoubledMonotone(s1, s2, l1);
    }
  }

  /** scale 0.2 needs three halvings (0.2 * 8 >= 1 > 0.2 * 4). */
  lemma MipmapFifth()
    ensures MipmapLevel(0.2, 4) == 3
  {
    assert Doubled(0.2, 2) == 0.8 && Doubled(0.2, 3) == 1.6;
  }

  // ---------------------------------------------------------------------
  // Model bounding box

  /** cairo's clip extents: the redraw region in (mipmap-scaled) model space. */
  datatype Extents = Extents(x1: real, y1: real, x2: real, y2: real)

  /** An integer rectangle: origin and size. */
  datatype Rect = Rect(x: int, y: int, w: int, h: int)

  function Ceil(r: real): (c: int)
    ensures r <= c as real < r + 1.0
  {
    -((-r).Floor)
  }

  /** The interpolation margin: one pixel except on the translation-only path. */
  function Margin(translationOnly: bool): real {
    if translationOnly then 0.0 else 1.0
  }

  /**
    The pixel box repaint allocates: the clip extents, widened by the
    margin, rounded outward to whole pixels, with size x2 - x1 + 1.
   */
  function ModelBBox(clip: Extents, translationOnly: bool): (r: Rect)
    ensures var m := Margin(translationOnly);
      r.x as real <= clip.x1 - m < r.x as real + 1.0 &&
      r.y as real <= clip.y1 - m < r.y as real + 1.0
    ensures var m := Margin(translationOnly);
      clip.x2 + m <= (r.x + r.w - 1) as real < clip.x2 + m + 1.0 &&
      clip.y2 + m <= (r.y + r.h - 1) as real < clip.y2 + m + 1.0
    ensures clip.x1 <= clip.x2 ==> r.w >= 1
    ensures clip.y1 <= clip.y2 ==> r.h >= 1
  {
    var m := Margin(translationOnly);
    var x1, y1 := (clip.x1 - m).Floor, (clip.y1 - m).Floor;
    var x2, y2 := Ceil(clip.x2 + m), Ceil(clip.y2 + m);
    Rect(x1, y1, x2 - x1 + 1, y2 - y1 + 1)
  }

  // ---------------------------------------------------------------------
  // Layers

  /** The visible layers of a stack, bottom to top. */
  function Visible(layers: seq<Layer>): (r: seq<Layer>)
    ensures |r| <= |layers|
    ensures forall l :: l in r <==> l in layers && l.visible
  {
    if layers == [] then []
    else
      var top := layers[|layers| - 1];
      Visible(layers[..|layers| - 1]) + (if top.visible then [top] else [])
  }

  lemma {:induction false} VisibleAppend(a: seq<Layer>, b: seq<Layer>)
    ensures Visible(a + b) == Visible(a) + Visible(b)
    decreases |b|
  {
    if b == [] {
      assert a + b == a;
    } else {
      var front := b[..|b| - 1];
      assert (a + b)[..|a + b| - 1] == a + front;
      VisibleAppend(a, front);
    }
  }

  /** get_visible_layers: the stack cut after the current layer unless layers above are shown. */
  function VisibleLayers(layers: seq<Layer>, layerIdx: int, showAbove: bool): (r: seq<Layer>)
    requires 0 <= layerIdx < |layers|
    ensures forall l :: l in r ==> l in layers && l.visible
    ensures forall l :: l in layers[..layerIdx + 1] && l.visible ==> l in r
    ensures showAbove ==> forall l :: l in layers && l.visible ==> l in r
    ensures !showAbove ==> forall l :: l in r ==> l in layers[..layerIdx + 1]
  {
    Visible(if showAbove then layers else layers[..layerIdx + 1])
  }

  /**
    Showing the layers above adds exactly the visible layers above the
    current one, on top of what is shown without them.
   */
  lemma ShowAboveExtends(layers: seq<Layer>, layerIdx: int)
    requires 0 <= layerIdx < |layers|
    ensures VisibleLayers(layers, layerIdx, true) ==
            VisibleLayers(layers, layerIdx, false) + Visible(layers[layerIdx + 1..])
    ensures forall l :: l in VisibleLayers(layers, layerIdx, false) <==>
            l in layers[..layerIdx + 1] && l.visible
  {
    assert layers == layers[..layerIdx + 1] + layers[layerIdx + 1..];
    VisibleAppend(layers[..layerIdx + 1], layers[layerIdx + 1..]);
  }

  /** list.index: the first position of a layer. */
  function IndexOf(layers: seq<Layer>, x: Layer): (r: Option<nat>)
    ensures r.None? <==> x !in layers
    ensures r.Some? ==> r.value < |layers| && layers[r.value] == x && x !in layers[..r.value]
  {
    if layers == [] then None
    else if layers[0] == x then Some(0)
    else match IndexOf(layers[1..], x)
      case None => None
      case Some(i) => Some(i + 1)
  }

  /** The layers to composite and whether the neutral background is used (solo mode). */
  datatype Composite = Composite(layers: seq<Layer>, neutralBackground: bool)

  /**
    The layer list of repaint: the visible layers, replaced by the current
    layer alone in solo mode, with the overlay inserted right after the
    current layer. None stands for the ValueError of list.index when the
    current layer is not in the list.
   */
  function CompositeLayers(layers: seq<Layer>, layerIdx: int, showAbove: bool, solo: bool, overlay: Option<Layer>): (r: Option<Composite>)
    requires 0 <= layerIdx < |layers|
    ensures overlay.None? || solo || layers[layerIdx].visible ==> r.Some?
    ensures r.Some? ==> r.value.neutralBackground == solo
    ensures r.Some? && overlay.Some? ==> overlay.value in r.value.layers
    ensures r.Some? ==> forall l :: l in r.value.layers ==> l in layers || (overlay.Some? && l == overlay.value)
  {
    var current := layers[layerIdx];
    assert current in layers[..layerIdx + 1];
    var base := if solo then [current] else VisibleLayers(layers, layerIdx, showAbove);
    if overlay.None? then Some(Composite(base, solo))
    else match IndexOf(base, current)
      case None => None
      case Some(i) => Some(Composite(base[..i + 1] + [overlay.value] + base[i + 1..], solo))
  }

  /**
    The layer list fails exactly when an overlay is set, solo mode is off and
    the current layer is hidden; when it does not fail, the neutral
    background is used exactly in solo mode, and without an overlay the list
    is the visible layers.
   */
  lemma CompositeLayersFails(layers: seq<Layer>, layerIdx: int, showAbove: bool, solo: bool, overlay: Option<Layer>)
    requires 0 <= layerIdx < |layers|
    ensures var r := CompositeLayers(layers, layerIdx, showAbove, solo, overlay);
      r.None? <==> overlay.Some? && !solo && !layers[layerIdx].visible
    ensures var r := CompositeLayers(layers, layerIdx, showAbove, solo, overlay);
      r.Some? ==> r.value.neutralBackground == solo
    ensures var r := CompositeLayers(layers, layerIdx, showAbove, solo, overlay);
      !solo && overlay.None? ==> r == Some(Composite(VisibleLayers(layers, layerIdx, showAbove), false))
  {
    var current := layers[layerIdx];
    ShowAboveExtends(layers, layerIdx);
    assert current in layers[..layerIdx + 1];
    if !solo && showAbove {
      assert current in layers;
    }
  }

  /** In solo mode the list is the current layer, then the overlay if any, over the neutral background. */
  lemma CompositeLayersSolo(layers: seq<Layer>, layerIdx: int, showAbove: bool, overlay: Option<Layer>)
    requires 0 <= layerIdx < |layers|
    ensures CompositeLayers(layers, layerIdx, showAbove, true, overlay) ==
      Some(Composite([layers[layerIdx]] + (if overlay.Some? then [overlay.value] else []), true))
  {
    var current := layers[layerIdx];
    var base := [current];
    assert IndexOf(base, current) == Some(0);
    assert base[..1] == [current] && base[1..] == [];
    if overlay.Some? {
      assert [current] + [overlay.value] + [] == [current] + [overlay.value];
    } else {
      assert [current] + [] == [current];
    }
  }

  /**
    With an overlay, the overlay sits right after the first occurrence of the
    current layer in the list it would otherwise be, and taking it out gives
    that list back.
   */
  lemma CompositeLayersOverlay(layers: seq<Layer>, layerIdx: int, showAbove: bool, solo: bool, overlay: Option<Layer>)
    requires 0 <= layerIdx < |layers|
    ensures var r := CompositeLayers(layers, layerIdx, showAbove, solo, overlay);
      var base := if solo then [layers[layerIdx]] else VisibleLayers(layers, layerIdx, showAbove);
      r.Some? && overlay.Some? ==>
        IndexOf(base, layers[layerIdx]).Some? &&
        var i := IndexOf(base, layers[layerIdx]).value;
        |r.value.layers| == |base| + 1 && r.value.layers[i + 1] == overlay.value &&
        r.value.layers[..i + 1] + r.value.layers[i + 2..] == base
  {
    var current := layers[layerIdx];
    var base := if solo then [current] else VisibleLayers(layers, layerIdx, showAbove);
    var at := IndexOf(base, current);
    if overlay.Some? && at.Some? {
      var i := at.value;
      InsertAfter(base, i, overlay.value);
      assert CompositeLayers(layers, layerIdx, showAbove, solo, overlay) ==
        Some(Composite(base[..i + 1] + [overlay.value] + base[i + 1..], solo));
    }
  }

  lemma InsertAfter(base: seq<Layer>, i: nat, x: Layer)
    requires i < |base|
    ensures var out := base[..i + 1] + [x] + base[i + 1..];
      |out| == |base| + 1 && out[i + 1] == x && out[..i + 1] + out[i + 2..] == base
  {
    var out := base[..i + 1] + [x] + base[i + 1..];
    assert out[..i + 1] == base[..i + 1] && out[i + 2..] == base[i + 1..];
    assert base[..i + 1] + base[i + 1..] == base;
  }

  // ---------------------------------------------------------------------
  // The repaint plan

  /** Above this scale the rotated path samples with the nearest-neighbour filter. */
  const NearestFilterScale: real := 3.0

  /**
    What repaint decides before blitting: mipmap level, path, model box,
    layer list, background, filter.
   */
  datatype Plan = Plan(level: nat, translationOnly: bool, bbox: Rect, layers: seq<Layer>,
                       neutralBackground: bool, nearestFilter: bool)

  function RepaintPlan(v: Viewport, maxLevel: nat, clip: Extents, layers: seq<Layer>, layerIdx: int,
                       showAbove: bool, solo: bool, overlay: Option<Layer>): (r: Option<Plan>)
    requires v.scale > 0.0 && 0 <= layerIdx < |layers|
    ensures r.None? <==> CompositeLayers(layers, layerIdx, showAbove, solo, overlay).None?
    ensures r.Some? ==> r.value.level <= maxLevel && r.value.translationOnly == v.IsTranslationOnly()
  {
    var only := v.IsTranslationOnly();
    match CompositeLayers(layers, layerIdx, showAbove, solo, overlay)
    case None => None
    case Some(c) =>
      Some(Plan(MipmapLevel(v.scale, maxLevel), only, ModelBBox(clip, only), c.layers, c.neutralBackground,
                !only && v.scale > NearestFilterScale))
  }

  /**
    The translation-only path renders at full resolution with no margin and
    draws the pixels directly; any other view renders with the one-pixel
    margin through the transform, pixelated only when zoomed in past 3x.
   */
  lemma RepaintPlanPaths(v: Viewport, maxLevel: nat, clip: Extents, layers: seq<Layer>, layerIdx: int,
                         showAbove: bool, solo: bool, overlay: Option<Layer>)
    requires v.scale > 0.0 && 0 <= layerIdx < |layers|
    ensures var r := RepaintPlan(v, maxLevel, clip, layers, layerIdx, showAbove, solo, overlay);
      r.Some? && v.IsTranslationOnly() ==>
        r.value.level == 0 && !r.value.nearestFilter && r.value.bbox.x == clip.x1.Floor && r.value.bbox.y == clip.y1.Floor
    ensures var r := RepaintPlan(v, maxLevel, clip, layers, layerIdx, showAbove, solo, overlay);
      r.Some? && !v.IsTranslationOnly() ==>
        (r.value.bbox.x as real <= clip.x1 - 1.0 && clip.x2 + 1.0 <= (r.value.bbox.x + r.value.bbox.w - 1) as real) &&
        (r.value.nearestFilter <==> v.scale > NearestFilterScale)
    ensures RepaintPlan(v, maxLevel, clip, layers, layerIdx, showAbove, solo, overlay).None? <==>
      CompositeLayers(layers, layerIdx, showAbove, solo, overlay).None?
  {
  }

  // ---------------------------------------------------------------------
  // canvas_modified_cb

  /** Python's int() on a float: truncation toward zero. */
  function Trunc(r: real): (n: int)
    ensures r >= 0.0 ==> 0 <= n && n as real <= r < n as real + 1.0
    ensures r < 0.0 ==> n <= 0 && n as real - 1.0 < r <= n as real
  {
    if r >= 0.0 then r.Floor else -((-r).Floor)
  }

  /** What canvas_modified_cb asks the toolkit to redraw. */
  datatype Redraw =
    | NotRealized                       // no window yet: nothing
    | FullRedraw                        // queue_draw()
    | Area(x: int, y: int, w: int, h: int)  // queue_draw_area on the translation-only path
    | CornersBBox(corners: seq<Point>)  // the bbox of these device points (rotated path)

  /**
    A modified model rectangle (x1, y1, w, h); w == h == 0 means the whole
    canvas. `toDevice` is cairo's user_to_device for the view.
   */
  function CanvasModified(hasWindow: bool, v: Viewport, toDevice: Mapping, x1: int, y1: int, w: int, h: int): (r: Redraw)
    ensures r.NotRealized? <==> !hasWindow
    ensures r.FullRedraw? <==> hasWindow && w == 0 && h == 0
    ensures r.Area? <==> hasWindow && !(w == 0 && h == 0) && v.IsTranslationOnly()
    ensures r.Area? ==> (r.w == w && r.h == h &&
      var p := toDevice(v, Point(x1 as real, y1 as real));
      r.x == Trunc(p.x) && r.y == Trunc(p.y) &&
      -1.0 < p.x - r.x as real < 1.0 && -1.0 < p.y - r.y as real < 1.0)
    ensures r.CornersBBox? ==> (|r.corners| == 4 &&
      r.corners[0] == toDevice(v, Point(x1 as real, y1 as real)) &&
      r.corners[1] == toDevice(v, Point((x1 + w - 1) as real, y1 as real)) &&
      r.corners[2] == toDevice(v, Point(x1 as real, (y1 + h - 1) as real)) &&
      r.corners[3] == toDevice(v, Point((x1 + w - 1) as real, (y1 + h - 1) as real)))
  {
    if !hasWindow then NotRealized
    else if w == 0 && h == 0 then FullRedraw
    else if v.IsTranslationOnly() then
      var p := toDevice(v, Point(x1 as real, y1 as real));
      Area(Trunc(p.x), Trunc(p.y), w, h)
    else
      var corners := [Point(x1 as real, y1 as real), Point((x1 + w - 1) as real, y1 as real),
                      Point(x1 as real, (y1 + h - 1) as real), Point((x1 + w - 1) as real, (y1 + h - 1) as real)];
      CornersBBox(seq(4, i requires 0 <= i < 4 => toDevice(v, corners[i])))
  }

  /**
    Under a translation by whole pixels (which is what the pixel-aligned
    transform is when the view is translation-only) the invalidated area is
    exactly the modified rectangle, moved by that translation.
   */
  lemma CanvasModifiedExact(v: Viewport, toDevice: Mapping, tx: int, ty: int, x1: int, y1: int, w: int, h: int)
    requires v.IsTranslationOnly() && !(w == 0 && h == 0)
    requires forall p :: toDevice(v, p) == Point(p.x + tx as real, p.y + ty as real)
    ensures CanvasModified(true, v, toDevice, x1, y1, w, h) == Area(x1 + tx, y1 + ty, w, h)
  {
    var p := toDevice(v, Point(x1 as real, y1 as real));
    assert p.x == (x1 + tx) as real && p.y == (y1 + ty) as real;
    TruncOfInt(x1 + tx);
    TruncOfInt(y1 + ty);
  }

  lemma TruncOfInt(n: int)
    ensures Trunc(n as real) == n
  {
  }
}
