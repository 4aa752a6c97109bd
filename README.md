# MyPaint canvas widget: input coalescer and view rules

This project models the core of MyPaint's canvas widget, `TiledDrawWidget` in
`gui/tileddrawwidget.py`, and proves properties of that model.

The widget turns raw pointer events into `stroke_to(dtime, x, y, pressure, xtilt, ytilt)` calls
on the document. To do so it:

- remembers the last event's time, position and device;
- tells device observers when the device changes;
- validates the pressure and tilt axes, flagging each misreporting device once;
- applies the Ctrl/Alt, pressure-mapping and Shift overrides, in that order;
- holds back samples that arrive with no elapsed time and replays them, evenly spaced in time,
  when the next sample with elapsed time arrives.

The widget also keeps the view state: translation, scale, rotation and mirroring. It supports:

- scrolling, recentring on resize, and the rotate/zoom/mirror mutators, which clamp the scale and
  re-anchor the view;
- the small decisions repaint takes: mipmap level, model bounding box and the list of layers to
  composite;
- the choice canvas_modified_cb makes between its three invalidation paths.

The project has five modules:

- `Types`: shared values (events, devices, the view parameters, layers).
- `Coalesce`: the motion, press and release handlers as pure functions over the tracked input
  fields, with the properties of the buffering and replay rule (time conservation, FIFO order,
  positive durations, warn-once).
- `ViewRules`: the scale clamp, the mutators, the rotozoom re-anchoring and the resize
  recentring.
- `Render`: mipmap level, bounding-box rounding, visible and composited layers, the repaint plan
  and canvas_modified_cb.
- `Widget`: the class `TiledDrawWidget`. Its fields are the widget's own fields, and each method
  updates them in place and is proved to end in exactly the state, and with exactly the outside
  calls, that the pure rule prescribes. The calls on the outside world are recorded in the ghost
  field `outputs`, one sequence per kind, each in the order the calls are made:
  - device observers;
  - `stroke_to`;
  - `straight_line`;
  - the drag callback.

Times are integer milliseconds, and `dtime` is `(t - last) / 1000` seconds as a real. The cairo
device/model mappings are function parameters, and the cursor position and window size are
method parameters.

## Model

| member | source | states |
|---|---|---|
| Coalesce.WarnOnce | gui/tileddrawwidget.py:153-156 | a device name is in bad_devices afterwards iff it was before or it is this device and its pressure is outside [0, 1]; the old list is a prefix of the new one, which grows by at most one; a list without duplicates stays without duplicates |
| Coalesce.ReadPressure | gui/tileddrawwidget.py:151-171 | the pressure-info flag is set iff the axis is present and within ±1000; a kept reading is passed on unclamped, even outside [0, 1]; an absent or wild reading becomes 0.5 with button 1 held and 0.0 otherwise; the result lies within ±1000 |
| Coalesce.ReadTilt | gui/tileddrawwidget.py:173-182 | either both tilts are the axis values or both are 0.0; both are passed through when both axes are present and within ±1000; the result lies within ±1000 |
| Coalesce.ApplyModifiers | gui/tileddrawwidget.py:184-212 | Shift always gives 0; otherwise Ctrl/Alt zero the pressure before the pressure mapping is applied, so the result is mapping(0) with Ctrl/Alt and mapping(pressure) without, or the pressure or 0 when there is no mapping |
| Coalesce.EventSample | gui/tileddrawwidget.py:151-212 | the sample is at the event's model position; both tilts lie within ±1000; Shift gives pressure 0; without mapping and modifiers the pressure is the validated reading |
| Coalesce.Replay | gui/tileddrawwidget.py:228-241 | one stroke per buffered sample, in arrival order, then the new sample last |
| Coalesce.Coalesce | gui/tileddrawwidget.py:222-241 | with no elapsed time the sample joins the buffer and nothing is emitted; with elapsed time the buffer is emptied and n+1 strokes are emitted |
| Coalesce.ReplayStep | gui/tileddrawwidget.py:231-236 | the step is positive; n+1 steps fit within both the elapsed time and the 0.1 s cap; when the elapsed time is within the cap, n+1 steps are exactly the elapsed time |
| Coalesce.Spread | gui/tileddrawwidget.py:237-238 | one stroke per buffered sample, in arrival order, each with the same step |
| Coalesce.ReplayOrder | gui/tileddrawwidget.py:229-241 | a flush emits n+1 strokes: the n buffered samples in arrival order, then the new sample |
| Coalesce.ReplayConservesTime | gui/tileddrawwidget.py:228-241 | the durations a flush emits add up to the elapsed time |
| Coalesce.ReplayDurations | gui/tileddrawwidget.py:229-241 | every emitted duration is positive and at most dtime; when dtime <= 0.1 all n+1 durations equal dtime/(n+1); when dtime > 0.1 (strictly) the buffered samples get 0.1/(n+1) each and the new sample more than dtime - 0.1 |
| Coalesce.CoalesceFifo | gui/tileddrawwidget.py:222-241 | what is emitted followed by what stays buffered is the old buffer followed by the new sample; nothing is emitted iff dtime <= 0 (backwards time counts as 0); after a flush the buffer is empty and the durations add up to dtime; every emitted duration is positive |
| Coalesce.ZeroZeroTen | gui/tileddrawwidget.py:217-241 | two samples with no elapsed time are buffered, and a third 10 ms later flushes all three in arrival order with 10/3 ms each |
| Coalesce.DeviceStep | gui/tileddrawwidget.py:119-125 | observers are called iff the device differs from the last one, then once with (previous, new); the last device becomes the new one and nothing else changes |
| Coalesce.Touch | gui/tileddrawwidget.py:119-140 | the last device, x, y and time become the event's and no other field changes; the observer calls are exactly DeviceStep's for the event's device; the invariant holds afterwards iff no device is flagged twice |
| Coalesce.MotionStep | gui/tileddrawwidget.py:127-241 | one motion event preserves the input invariant: a time is recorded only with a position, both coordinates are recorded together, and no device is flagged twice |
| Coalesce.MotionQuiet | gui/tileddrawwidget.py:128-146 | an insensitive widget changes nothing; on the first event and in drag mode no stroke is emitted and the buffer and bad_devices are unchanged, while the last position and time are updated; in drag mode the drag function receives (dx, dy) |
| Coalesce.PaintStep | gui/tileddrawwidget.py:148-241 | the painting path leaves the last event's time, position and device alone and keeps the input invariant |
| Coalesce.PaintStrokes | gui/tileddrawwidget.py:214-241 | the event's sample goes through the buffer with nothing lost or reordered; nothing is emitted when dtime <= 0; a flush empties the buffer, emits exactly the replay and accounts for dtime |
| Coalesce.MotionStrokes | gui/tileddrawwidget.py:131-241 | for a painting event after an earlier one: every duration is positive; emitted plus buffered is the old buffer plus this sample; a flush empties the buffer and accounts for (t - last)/1000 seconds |
| Coalesce.MotionTime | gui/tileddrawwidget.py:131-132 | an event at or after the previous one emits strokes whose durations add up to (t - last)/1000 seconds, and no drag call |
| Coalesce.Run | gui/tileddrawwidget.py:127-241 | feeding a stream of motion events one by one keeps the input invariant |
| Coalesce.RunConservesTime | gui/tileddrawwidget.py:131-241 | over a stream of events with non-decreasing timestamps after a previous event, the strokes emitted add up to exactly the time from the previous event to the last one, and no drag call is made |
| Coalesce.RunFifo | gui/tileddrawwidget.py:222-241 | over a stream of events with nonzero timestamps, whatever their order, the emitted samples followed by the buffered ones are the old buffer followed by every event's sample in arrival order |
| Coalesce.FifoStep | gui/tileddrawwidget.py:222-241 | one more event keeps "emitted followed by buffered equals everything that arrived" |
| Coalesce.PressStep | gui/tileddrawwidget.py:243-259 | a button press preserves the input invariant |
| Coalesce.PressWithoutPressureInfo | gui/tileddrawwidget.py:243-259 | on a sensitive widget, with no drag in progress and no pressure mapping, for every tracked state whose last event had no pressure info and every later single press of button 1 without modifiers and without a usable pressure axis: no straight line and no drag call; the buffer is flushed with one more stroke, at the press position with pressure 0.5, and the strokes add up to the time since the last event; the flag stays clear, the buffer ends empty and the painting position becomes the press position |
| Coalesce.ReleaseStep | gui/tileddrawwidget.py:261-264 | a button release preserves the input invariant; its pen-up stroke is stated by Coalesce.ReleaseWithoutPressureInfo |
| Coalesce.ReleaseWithoutPressureInfo | gui/tileddrawwidget.py:261-264 | on a sensitive widget, with no drag in progress and no pressure mapping, for every tracked state whose last event had no pressure info and every later release of button 1 without modifiers and without a usable pressure axis: no straight line and no drag call; the buffer is flushed with one more stroke, at the release position with pressure 0, and the strokes add up to the time since the last event; the flag stays clear, the buffer ends empty and the painting position is unchanged |
| Coalesce.WildPressureThenPress | gui/tileddrawwidget.py:151-259 | a device reporting pressure 1e6 is flagged once and paints with pressure 0; a press of button 1 8 ms later paints one 8 ms stroke with pressure 0.5, and the device is not flagged again |
| Coalesce.WildMotion | gui/tileddrawwidget.py:151-171 | the wild event flags its device, clears the pressure-info flag, flushes the buffer and paints with pressure 0 |
| Coalesce.WildPress | gui/tileddrawwidget.py:243-259 | the press after it re-enters the motion handler with the button down: one stroke of 8 ms with pressure 0.5, bad_devices unchanged |
| ViewRules.Clamp | gui/tileddrawwidget.py:497 | the result lies in [lo, hi]; a value inside is kept; a changed value was beyond the bound it became |
| ViewRules.Mutate | gui/tileddrawwidget.py:505-527 | the zoom, rotate and mirror mutators leave the translation alone |
| ViewRules.RotozoomCenter | gui/tileddrawwidget.py:489-493 | the anchor is the last event position when anchoring at the pointer, the pointer is inside and an event was seen; otherwise the window centre |
| ViewRules.Rotozoom | gui/tileddrawwidget.py:488-503 | the scale is the mutator's scale clamped to [zoom_min, zoom_max], so an out-of-range scale becomes the nearest limit; rotation and mirroring are the mutator's |
| ViewRules.RotozoomKeepsAnchor | gui/tileddrawwidget.py:494-501 | the model point under the anchor before the mutator is under it afterwards |
| ViewRules.MirrorTwice | gui/tileddrawwidget.py:522 | the mirror mutator applied twice restores the view (the clamp and re-anchoring of a full mirror() call are not part of this statement), and a mirror toggle that ends on the translation-only path started off it |
| ViewRules.ScrollKeepsPath | gui/tileddrawwidget.py:472-486 | scrolling (and so the recentring on resize) keeps scale, rotation and mirroring, and never moves the view on or off the translation-only path |
| ViewRules.RecentreShift | gui/tileddrawwidget.py:113-117 | the recentring scroll is half the size difference, rounded down, and exact when the difference is even |
| ViewRules.RecentreRoundTrip | gui/tileddrawwidget.py:109-117 | resizing and resizing back returns the view when the difference is even and leaves it one pixel off when it is odd |
| Render.MipmapLevel | gui/tileddrawwidget.py:369-372 | the level lies in [0, max level] and is 0 when scale >= 1 |
| Render.MipmapLevelIsLeast | gui/tileddrawwidget.py:369-372 | every smaller level still shows the mipmap shrunk (scale * 2^k < 1), and below the cap the chosen level does not |
| Render.MipmapMonotone | gui/tileddrawwidget.py:369-372 | zooming in never raises the mipmap level |
| Render.MipmapFifth | gui/tileddrawwidget.py:369-372 | at the default minimum zoom 0.2 the level is 3 |
| Render.Ceil | gui/tileddrawwidget.py:387 | the least integer at or above the value |
| Render.ModelBBox | gui/tileddrawwidget.py:375-393 | the box starts at the floor and ends at the ceiling of the clip extents, widened by one pixel off the translation-only path; its size is x2 - x1 + 1 and positive for a non-empty clip |
| Render.VisibleLayers | gui/tileddrawwidget.py:334-340 | every layer returned is a visible layer of the stack; every visible layer up to the current one is returned, and with layers above shown every visible layer; without them nothing above the current one |
| Render.Visible | gui/tileddrawwidget.py:339 | the layers kept are exactly the visible ones |
| Render.VisibleAppend | gui/tileddrawwidget.py:339 | filtering a concatenation is concatenating the filtered parts, so stack order is kept |
| Render.ShowAboveExtends | gui/tileddrawwidget.py:334-340 | showing the layers above adds exactly the visible layers above the current one on top; without them, the visible layers up to the current one |
| Render.IndexOf | gui/tileddrawwidget.py:419 | None iff the layer is absent; otherwise the first position holding it |
| Render.CompositeLayers | gui/tileddrawwidget.py:405-420 | a list exists when there is no overlay, in solo mode or when the current layer is visible; the neutral background is used exactly in solo mode; an overlay is in the list; every listed layer is a stack layer or the overlay |
| Render.CompositeLayersFails | gui/tileddrawwidget.py:405-420 | the layer list fails iff an overlay is set, solo is off and the current layer is hidden; the neutral background is used exactly in solo mode; without solo or overlay the list is the visible layers |
| Render.CompositeLayersSolo | gui/tileddrawwidget.py:412-420 | in solo mode the list is the current layer, followed by the overlay if there is one |
| Render.CompositeLayersOverlay | gui/tileddrawwidget.py:418-420 | the overlay sits right after the first occurrence of the current layer, and removing it gives the list back |
| Render.InsertAfter | gui/tileddrawwidget.py:420 | inserting after position i puts the new element at i + 1 and keeps everything else in order |
| Types.Viewport.IsTranslationOnly | gui/tileddrawwidget.py:326-327 | the view is translation-only iff it has unit scale, no rotation and no mirroring |
| Render.RepaintPlan | gui/tileddrawwidget.py:342-465 | there is a plan iff there is a layer list; the plan's level is at most the maximum and its path is the translation-only one iff the view is |
| Render.RepaintPlanPaths | gui/tileddrawwidget.py:368-465 | the translation-only path uses level 0, no margin and no nearest filter; any other view gets the one-pixel margin and the nearest filter iff scale > 3; the plan fails iff the layer list does |
| Render.Trunc | gui/tileddrawwidget.py:280 | Python's int() on a float rounds toward zero |
| Render.CanvasModified | gui/tileddrawwidget.py:266-287 | nothing without a window; full redraw iff w == h == 0; the area path iff the view is translation-only, with the device corner truncated toward zero as int() does and w, h kept; otherwise all four corners (x, y), (x+w-1, y), (x, y+h-1), (x+w-1, y+h-1) mapped to the device |
| Render.CanvasModifiedExact | gui/tileddrawwidget.py:278-280 | under a whole-pixel translation the invalidated area is the modified rectangle, moved by the translation |
| Widget.TiledDrawWidget.constructor | gui/tileddrawwidget.py:60-95 | no event seen, identity view, zoom limits 1/5 to 5, sensitive, layers above shown, no solo, no overlay, nothing emitted |
| Widget.TiledDrawWidget.SetSensitive | gui/tileddrawwidget.py:100-102 | the sensitivity is the one given |
| Widget.TiledDrawWidget.EnterNotify | gui/tileddrawwidget.py:104-105 | the pointer is inside |
| Widget.TiledDrawWidget.LeaveNotify | gui/tileddrawwidget.py:106-107 | the pointer is outside |
| Widget.TiledDrawWidget.DeviceUsed | gui/tileddrawwidget.py:119-125 | the last device and the observer calls are those DeviceStep prescribes |
| Widget.TiledDrawWidget.RecordEvent | gui/tileddrawwidget.py:137-140 | the tracked fields and observer calls are those Touch prescribes |
| Widget.TiledDrawWidget.ReadSample | gui/tileddrawwidget.py:151-212 | the sample is the event's validated and overridden sample; bad_devices and the pressure-info flag are updated as WarnOnce and ReadPressure say |
| Widget.TiledDrawWidget.ReplayBuffered | gui/tileddrawwidget.py:237-239 | the loop emits the buffered samples in order with the same step, and the time left is dtime - n * step |
| Widget.TiledDrawWidget.Flush | gui/tileddrawwidget.py:228-241 | the buffer ends empty and the strokes emitted are the replay of the old buffer and the new sample |
| Widget.TiledDrawWidget.Feed | gui/tileddrawwidget.py:222-241 | buffer and emitted strokes are those of the buffering rule, including the clamp of backwards time |
| Widget.TiledDrawWidget.Paint | gui/tileddrawwidget.py:148-241 | the tracked fields and strokes are those PaintStep prescribes |
| Widget.TiledDrawWidget.RequestStraightLine | gui/tileddrawwidget.py:250-252 | a straight line from the last painting position to the cursor is requested iff Shift is held and a position is known |
| Widget.TiledDrawWidget.MotionNotify | gui/tileddrawwidget.py:127-241 | the new tracked state and the calls made are exactly those of MotionStep, and the input invariant is kept |
| Widget.TiledDrawWidget.ButtonPress | gui/tileddrawwidget.py:243-259 | the new tracked state and the calls made are exactly those of PressStep, and the input invariant is kept |
| Widget.TiledDrawWidget.ButtonRelease | gui/tileddrawwidget.py:261-264 | the new tracked state and the calls made are exactly those of ReleaseStep, and the input invariant is kept; the pen-up stroke this emits is stated by Coalesce.ReleaseWithoutPressureInfo |
| Widget.TiledDrawWidget.StartDrag | gui/tileddrawwidget.py:529-530 | the drag function is the one given |
| Widget.TiledDrawWidget.StopDrag | gui/tileddrawwidget.py:531-533 | the drag ends only when the given function is the installed one; otherwise it is unchanged |
| Widget.TiledDrawWidget.Scroll | gui/tileddrawwidget.py:472-486 | the translation moves by (-dx, -dy) and nothing else changes |
| Widget.TiledDrawWidget.SizeAllocate | gui/tileddrawwidget.py:109-117 | the size is remembered, and the view scrolls by the recentring shift from the previous size (none on the first allocation) |
| Widget.TiledDrawWidget.ApplyMutation | gui/tileddrawwidget.py:505-527 | the view is the mutator's result |
| Widget.TiledDrawWidget.RotozoomWithCenter | gui/tileddrawwidget.py:488-503 | the new view is the Rotozoom of the old one at the RotozoomCenter anchor, and the zoom limits keep bounding a positive scale |
| Widget.TiledDrawWidget.Zoom | gui/tileddrawwidget.py:505-507 | a rotozoom multiplying the scale, anchored at the pointer |
| Widget.TiledDrawWidget.SetZoom | gui/tileddrawwidget.py:509-511 | a rotozoom setting the scale, anchored at the pointer |
| Widget.TiledDrawWidget.Rotate | gui/tileddrawwidget.py:513-515 | a rotozoom adding to the rotation, anchored at the window centre |
| Widget.TiledDrawWidget.SetRotation | gui/tileddrawwidget.py:517-519 | a rotozoom setting the rotation, anchored at the window centre |
| Widget.TiledDrawWidget.Mirror | gui/tileddrawwidget.py:521-523 | a rotozoom toggling mirroring, anchored at the window centre |
| Widget.TiledDrawWidget.SetMirrored | gui/tileddrawwidget.py:525-527 | a rotozoom setting mirroring, anchored at the window centre |
| Widget.TiledDrawWidget.ToggleShowLayersAbove | gui/tileddrawwidget.py:559-561 | show_layers_above is negated |
| Widget.TiledDrawWidget.Repaint | gui/tileddrawwidget.py:342-465 | the mipmap level, path, model box, layer list, background and filter are those of RepaintPlan for the current view and layer settings |

## Left out

- Cairo matrix composition is not modelled: `get_model_coordinates_cairo_context`, the power-of-two snapping of the scale, the pixel alignment of the translation, and the mirroring matrix. The device-to-model and model-to-device mappings are parameters.
- ViewRules.RotozoomKeepsAnchor assumes the mappings are exact inverses that follow the translation. The pixel alignment of the real transform (the translation rounded to whole pixels) breaks that by less than one device pixel per axis.
- Floating point is not modelled: all coordinates, pressures and times are exact reals, so rounding in the replay's time split is not captured.
- Timestamp wrap-around of the 32-bit event time is not modelled; times are unbounded integers.
- GDK clip regions, `point_in`/`rect_in`, tile iteration, `blit_tile_into`, `draw_pixbuf` and cairo filter objects are not modelled. Repaint stops at the plan it would draw with.
- GTK signal wiring, `queue_draw`/`queue_draw_area` (beyond the choice made by canvas_modified_cb), `expose_cb`, `update_cursor`, `brush_modified_cb` and `recenter_document` are not modelled.
- The warning `print` statements and `visualize_rendering` are not modelled, apart from the bad_devices bookkeeping that accompanies the warning.
- `helpers.clamp` and `helpers.rotated_rectangle_bbox` are not part of this model. The clamp is written out for lo <= hi, and the rotated path stops at the four device corners.
- lib/tiledsurface.py is not part of this model, so `MAX_MIPMAP_LEVEL` is a parameter.
- gui/layerswindow.py and lib/gettext.py are not part of this model.
- Widget.TiledDrawWidget.RotozoomWithCenter anchors at the pointer only when both last-event coordinates are known, where the source tests only the x coordinate. The two are equivalent because the motion handler sets both together.
- Render.CompositeLayersFails: the ValueError that `list.index` raises when the current layer is hidden is modelled as a None result.
- Coalesce.ZeroZeroTen is stated on the buffering rule rather than on three full motion events.
- The drag callback, device observers and document are not called. Their calls are recorded in the ghost field `outputs`, in order within each kind.
- The interleaving between kinds of call is not recorded: for instance that a press asks for `straight_line` (line 252) before the re-entered motion handler calls `stroke_to` (line 259), or that device observers run before any stroke of the same event.
- An event whose timestamp is 0 is read as "no previous event" by the truthiness test at line 131, so the event after it only records its time, position and device; its sample is neither emitted nor buffered. Coalesce.RunFifo therefore requires nonzero timestamps, and Coalesce.RunConservesTime a previous event.
- Layers and devices stand for object identities through an integer `id`, and `list.index` finds the first structurally equal layer.
