/**
  The canvas widget itself (TiledDrawWidget in gui/tileddrawwidget.py) as a
  class whose methods update its fields in place. Each handler is proved
  against the pure rule that specifies it (Coalesce.MotionStep and
  friends, ViewRules.Rotozoom, Render.RepaintPlan); the properties of those
  rules are proved beside them.

  The calls the widget makes on the outside world (device observers, the
  document's stroke_to and straight_line, the drag callback) are appended
  to the ghost record `outputs`, one sequence per kind, each in call order;
  the interleaving between kinds is not recorded.
 */
module Widget {
  import opened Types
  import opened Coalesce
  import opened ViewRules
  import opened Render

  class TiledDrawWidget {
    var isSensitive: bool

    // Input tracking
    var lastEventTime: Option<int>
    var lastEventX: Option<real>
    var lastEventY: Option<real>
    var lastEventDevice: Option<Device>
    var lastEventHadPressureInfo: bool
    var lastPaintingPos: Option<Point>
    var badDevices: seq<string>
    var motions: seq<Sample>
    var dragfunc: Option<DragHandle>
    var pressureMapping: Option<real -> real>

    // View
    var translationX: real
    var translationY: real
    var scale: real
    var rotation: real
    var mirrored: bool
    var zoomMin: real
    var zoomMax: real
    var hasPointer: bool
    var currentSize: Option<(int, int)>

    // Layer display
    var currentLayerSolo: bool
    var showLayersAbove: bool
    var overlayLayer: Option<Layer>

    // Calls made on the outside world, oldest first
    ghost var outputs: Effects

    function TrackingState(): Tracking
      reads this
    {
      Tracking(lastEventTime, lastEventX, lastEventY, lastEventDevice, lastEventHadPressureInfo,
               lastPaintingPos, badDevices, motions)
    }

    function ViewState(): Viewport
      reads this
    {
      Viewport(translationX, translationY, scale, rotation, mirrored)
    }

    /** The last event position, once one has been seen. */
    function LastEventPos(): Option<Point>
      reads this
    {
      if lastEventX.Some? && lastEventY.Some? then Some(Point(lastEventX.value, lastEventY.value)) else None
    }

    /** The input handlers' invariant: the tracked event fields are consistent. */
    predicate InputValid()
      reads this
    {
      TrackingState().Valid()
    }

    /** The view's invariant: the zoom limits bound a positive scale. */
    predicate ViewValid()
      reads this`zoomMin, this`zoomMax, this`scale
    {
      0.0 < zoomMin <= zoomMax && scale > 0.0
    }

    predicate Valid()
      reads this
    {
      InputValid() && ViewValid()
    }

    /** __init__: no event seen yet, identity view, zoom limits 1/5 to 5, layers above shown. */
    constructor ()
      ensures Valid()
      ensures isSensitive && dragfunc.None? && pressureMapping.None? && !hasPointer && currentSize.None?
      ensures TrackingState() == Tracking(None, None, None, None, false, None, [], [])
      ensures ViewState() == Viewport(0.0, 0.0, 1.0, 0.0, false) && ViewState().IsTranslationOnly()
      ensures zoomMin == 0.2 && zoomMax == 5.0
      ensures !currentLayerSolo && showLayersAbove && overlayLayer.None?
      ensures outputs == NoEffects
    {
      isSensitive := true;
      lastEventTime, lastEventX, lastEventY := None, None, None;
      lastEventDevice := None;
      lastEventHadPressureInfo := false;
      lastPaintingPos := None;
      badDevices, motions := [], [];
      dragfunc, pressureMapping := None, None;
      translationX, translationY, scale, rotation, mirrored := 0.0, 0.0, 1.0, 0.0, false;
      zoomMin, zoomMax := 1.0 / 5.0, 5.0;
      hasPointer := false;
      currentSize := None;
      currentLayerSolo, showLayersAbove, overlayLayer := false, true, None;
      outputs := NoEffects;
    }

    method SetSensitive(sensitive: bool)
      modifies this`isSensitive
      ensures isSensitive == sensitive
    {
      isSensitive := sensitive;
    }

    method EnterNotify()
      modifies this`hasPointer
      ensures hasPointer
    {
      hasPointer := true;
    }

    method LeaveNotify()
      modifies this`hasPointer
      ensures !hasPointer
    {
      hasPointer := false;
    }

    // -------------------------------------------------------------------
    // Input handlers

    /** device_used: notify the observers of a change of device, then remember it. */
    method DeviceUsed(device: Device)
      modifies this`lastEventDevice, this`outputs
      ensures var r := DeviceStep(old(TrackingState()), device);
        lastEventDevice == r.0.lastEventDevice && outputs == old(outputs).(deviceChanges := old(outputs).deviceChanges + r.1)
    {
      if lastEventDevice == Some(device) {
        return;
      }
      outputs := outputs.(deviceChanges := outputs.deviceChanges + [DeviceChange(lastEventDevice, device)]);
      lastEventDevice := Some(device);
    }

    /** The bookkeeping motion_notify_cb does for every event: device_used, then the last position and time. */
    method RecordEvent(ev: MotionEvent)
      modifies this`lastEventDevice, this`outputs, this`lastEventX, this`lastEventY, this`lastEventTime
      ensures var r := old(Touch(TrackingState(), ev));
        TrackingState() == r.0 && outputs == old(outputs).(deviceChanges := old(outputs).deviceChanges + r.1)
    {
      DeviceUsed(ev.device);
      lastEventX, lastEventY, lastEventTime := Some(ev.x), Some(ev.y), Some(ev.time);
    }

    /**
      The validation part of motion_notify_cb: pressure (with the bad-device
      bookkeeping), tilt and the modifier overrides, giving the sample that
      will be painted at `pos`.
     */
    method ReadSample(ev: MotionEvent, button1Pressed: Option<bool>, pos: Point) returns (data: Sample)
      modifies this`badDevices, this`lastEventHadPressureInfo
      ensures data == EventSample(ev, button1Pressed, pressureMapping, pos)
      ensures badDevices == WarnOnce(old(badDevices), ev.device.name, ev.pressure)
      ensures lastEventHadPressureInfo == ReadPressure(ev.pressure, Button1(ev, button1Pressed)).hadInfo
    {
      var pressure := ev.pressure;
      if pressure.Some? && (pressure.value > 1.0 || pressure.value < 0.0) {
        if ev.device.name !in badDevices {
          badDevices := badDevices + [ev.device.name];
        }
        if pressure.value > AxisLimit || pressure.value < -AxisLimit {
          pressure := None;
        }
      }
      var p: real;
      if pressure.None? {
        lastEventHadPressureInfo := false;
        var button1 := if button1Pressed.Some? then button1Pressed.value else ev.state.button1;
        p := if button1 then ButtonPressure else 0.0;
      } else {
        lastEventHadPressureInfo := true;
        p := pressure.value;
      }
      var xtilt, ytilt := 0.0, 0.0;
      if !(ev.xtilt.None? || ev.ytilt.None? || Wild(ev.xtilt.value) || Wild(ev.ytilt.value)) {
        xtilt, ytilt := ev.xtilt.value, ev.ytilt.value;
      }
      if ev.state.control || ev.state.alt {
        p := 0.0;
      }
      if pressureMapping.Some? {
        p := pressureMapping.value(p);
      }
      if ev.state.shift {
        p := 0.0;
      }
      data := Sample(pos.x, pos.y, p, xtilt, ytilt);
    }

    /**
      The replay loop of motion_notify_cb: every buffered sample goes to the
      document with the same time step, and that step is taken off the time
      left for the new sample.
     */
    method ReplayBuffered(step: real, dtime: real) returns (left: real)
      modifies this`outputs
      ensures outputs == old(outputs).(strokes := old(outputs).strokes + Spread(motions, step))
      ensures left == dtime - |motions| as real * step
    {
      left := dtime;
      var i := 0;
      while i < |motions|
        invariant 0 <= i <= |motions|
        invariant outputs == old(outputs).(strokes := old(outputs).strokes + Spread(motions[..i], step))
        invariant left == dtime - i as real * step
      {
        assert motions[..i + 1][..i] == motions[..i];
        outputs := outputs.(strokes := outputs.strokes + [Stroke(step, motions[i])]);
        left := left - step;
        i := i + 1;
      }
      assert motions[..i] == motions;
    }

    /**
      A sample with positive elapsed time `dtime`: replay the buffer with an
      even step (capped), then emit the new sample with the time left over.
     */
    method Flush(data: Sample, dtime: real)
      requires dtime > 0.0
      modifies this`motions, this`outputs
      ensures motions == [] && outputs == old(outputs).(strokes := old(outputs).strokes + Replay(old(motions), dtime, data))
    {
      if motions != [] {
        var step := if dtime > ReplayCap then ReplayCap else dtime;
        step := step / (|motions| + 1) as real;
        ghost var pending := motions;
        ReplayWithStep(pending, dtime, data, step);
        ghost var replayed := Spread(pending, step);
        var left := ReplayBuffered(step, dtime);
        assert left == dtime - |pending| as real * step;
        assert Replay(pending, dtime, data) == replayed + [Stroke(left, data)];
        motions := [];
        outputs := outputs.(strokes := outputs.strokes + [Stroke(left, data)]);
        assert outputs.strokes == old(outputs).strokes + (replayed + [Stroke(left, data)]);
      } else {
        assert Replay(old(motions), dtime, data) == [Stroke(dtime, data)];
        outputs := outputs.(strokes := outputs.strokes + [Stroke(dtime, data)]);
      }
    }

    /**
      The buffering part of motion_notify_cb: backwards time is clamped to
      zero, a zero-time sample joins the buffer, any other flushes it.
     */
    method Feed(data: Sample, dtime: real)
      modifies this`motions, this`outputs
      ensures var r := Coalesce.Coalesce(old(motions), dtime, data);
        motions == r.0 && outputs == old(outputs).(strokes := old(outputs).strokes + r.1)
    {
      var dt := dtime;
      if dt < 0.0 {
        dt := 0.0;
      }
      if dt == 0.0 {
        motions := motions + [data];
        assert outputs.strokes == old(outputs).strokes + [];
      } else {
        Flush(data, dt);
      }
    }

    /** The painting tail of motion_notify_cb: validate the event and feed its sample to the buffer. */
    method Paint(ev: MotionEvent, button1Pressed: Option<bool>, pos: Point, dtime: real)
      modifies this`badDevices, this`lastEventHadPressureInfo, this`lastPaintingPos, this`motions, this`outputs
      ensures var r := old(PaintStep(TrackingState(), pressureMapping, ev, button1Pressed, pos, dtime));
        TrackingState() == r.0 && outputs == old(outputs).(strokes := old(outputs).strokes + r.1)
    {
      var data := ReadSample(ev, button1Pressed, pos);
      if data.pressure != 0.0 {
        lastPaintingPos := Some(pos);
      }
      Feed(data, dtime);
    }

    method RequestStraightLine(shift: bool, cursor: Point)
      modifies this`outputs
      ensures outputs == old(outputs).Then(NoEffects.(straightLines := StraightLines(shift, lastPaintingPos, cursor)))
    {
      ghost var lines: seq<StraightLine> := [];
      if shift && lastPaintingPos.Some? {
        lines := [StraightLine(lastPaintingPos.value, cursor)];
      }
      ThenLines(outputs, lines);
      outputs := outputs.(straightLines := outputs.straightLines + lines);
    }

    /**
      motion_notify_cb. `toModel` is the device-to-model mapping of the
      current view; `button1Pressed` is the button state forced by the button
      handlers (None for a genuine motion event).
     */
    method MotionNotify(ev: MotionEvent, button1Pressed: Option<bool>, toModel: Mapping)
      requires InputValid()
      modifies this`lastEventTime, this`lastEventX, this`lastEventY, this`lastEventDevice,
               this`lastEventHadPressureInfo, this`lastPaintingPos, this`badDevices, this`motions,
               this`outputs
      ensures var r := old(MotionStep(TrackingState(), isSensitive, dragfunc, pressureMapping, ev, button1Pressed,
                                      toModel(ViewState(), Point(ev.x, ev.y))));
        TrackingState() == r.0 && outputs == old(outputs).Then(r.1)
      ensures InputValid()
    {
      ghost var t0 := TrackingState();
      var pos := toModel(ViewState(), Point(ev.x, ev.y));
      MotionCases(t0, isSensitive, dragfunc, pressureMapping, ev, button1Pressed, pos);
      if isSensitive {
        var hasPrevious := lastEventTime.Some? && lastEventTime.value != 0;
        var dtime, dx, dy := 0.0, 0.0, 0.0;
        if hasPrevious {
          dtime := (ev.time - lastEventTime.value) as real / 1000.0;
          dx := ev.x - lastEventX.value;
          dy := ev.y - lastEventY.value;
        }
        RecordEvent(ev);
        if hasPrevious {
          if dragfunc.Some? {
            outputs := outputs.(drags := outputs.drags + [DragCall(dragfunc.value, dx, dy)]);
          } else {
            Paint(ev, button1Pressed, pos, dtime);
          }
        }
      }
    }

    /**
      button_press_cb: double and triple clicks are ignored; a press of
      button 1 may ask for a straight line from the last painting position
      to the cursor (`cursor`, in model coordinates) and, without pressure
      telemetry, re-enters the motion handler with the button down.
     */
    method ButtonPress(ev: ButtonEvent, toModel: Mapping, cursor: Point)
      requires InputValid()
      modifies this`lastEventTime, this`lastEventX, this`lastEventY, this`lastEventDevice,
               this`lastEventHadPressureInfo, this`lastPaintingPos, this`badDevices, this`motions,
               this`outputs
      ensures var r := old(PressStep(TrackingState(), isSensitive, dragfunc, pressureMapping, ev,
                                     toModel(ViewState(), Point(ev.motion.x, ev.motion.y)), cursor));
        TrackingState() == r.0 && outputs == old(outputs).Then(r.1)
      ensures InputValid()
    {
      ghost var t0, o0 := TrackingState(), outputs;
      var pos := toModel(ViewState(), Point(ev.motion.x, ev.motion.y));
      PressCases(t0, isSensitive, dragfunc, pressureMapping, ev, pos, cursor);
      if ev.kind == SinglePress && ev.button == 1 {
        ghost var drawn := NoEffects.(straightLines := StraightLines(ev.motion.state.shift, lastPaintingPos, cursor));
        RequestStraightLine(ev.motion.state.shift, cursor);
        if !lastEventHadPressureInfo {
          ghost var o1 := outputs;
          MotionNotify(ev.motion, Some(true), toModel);
          AppendedThen(o0, drawn, o1, MotionStep(t0, isSensitive, dragfunc, pressureMapping, ev.motion, Some(true), pos).1);
        }
      } else {
        ThenOnly(o0, [], [], []);
      }
    }

    /** button_release_cb: without pressure telemetry, re-enter the motion handler with the button up. */
    method ButtonRelease(ev: ButtonEvent, toModel: Mapping)
      requires InputValid()
      modifies this`lastEventTime, this`lastEventX, this`lastEventY, this`lastEventDevice,
               this`lastEventHadPressureInfo, this`lastPaintingPos, this`badDevices, this`motions,
               this`outputs
      ensures var r := old(ReleaseStep(TrackingState(), isSensitive, dragfunc, pressureMapping, ev,
                                       toModel(ViewState(), Point(ev.motion.x, ev.motion.y))));
        TrackingState() == r.0 && outputs == old(outputs).Then(r.1)
      ensures InputValid()
    {
      if ev.button == 1 && !lastEventHadPressureInfo {
        MotionNotify(ev.motion, Some(false), toModel);
      }
    }

    /** start_drag: motion events go to `handle` instead of painting. */
    method StartDrag(handle: DragHandle)
      modifies this`dragfunc
      ensures dragfunc == Some(handle)
    {
      dragfunc := Some(handle);
    }

    /** stop_drag: ends the drag only when `handle` is the one installed. */
    method StopDrag(handle: DragHandle)
      modifies this`dragfunc
      ensures old(dragfunc) == Some(handle) ==> dragfunc.None?
      ensures old(dragfunc) != Some(handle) ==> dragfunc == old(dragfunc)
    {
      if dragfunc == Some(handle) {
        dragfunc := None;
      }
    }

    // -------------------------------------------------------------------
    // View state

    /** scroll: the canvas moves against the scroll direction. */
    method Scroll(dx: real, dy: real)
      requires ViewValid()
      modifies this`translationX, this`translationY
      ensures ViewValid()
      ensures ViewState() == Shifted(old(ViewState()), -dx, -dy)
    {
      translationX := translationX - dx;
      translationY := translationY - dy;
    }

    /**
      size_allocate_cb: on a change of size the view scrolls by half the
      difference, so the canvas stays centred. The first allocation counts as
      no change.
     */
    method SizeAllocate(width: int, height: int)
      requires ViewValid()
      modifies this`currentSize, this`translationX, this`translationY
      ensures ViewValid()
      ensures currentSize == Some((width, height))
      ensures var previous := if old(currentSize).Some? then old(currentSize).value else (width, height);
        ViewState() == Shifted(old(ViewState()), -RecentreShift(previous.0, width) as real,
                                                 -RecentreShift(previous.1, height) as real)
    {
      var previous := if currentSize.Some? then currentSize.value else (width, height);
      currentSize := Some((width, height));
      if (width, height) != previous {
        Scroll(((previous.0 - width) / 2) as real, ((previous.1 - height) / 2) as real);
      }
    }

    /** The mutator closures of zoom, set_zoom, rotate, set_rotation, mirror and set_mirrored. */
    method ApplyMutation(m: Mutation)
      modifies this`scale, this`rotation, this`mirrored
      ensures ViewState() == Mutate(old(ViewState()), m)
    {
      match m {
        case ZoomBy(factor) => scale := scale * factor;
        case ZoomTo(zoom) => scale := zoom;
        case RotateBy(angle) => rotation := rotation + angle;
        case RotateTo(angle) => rotation := angle;
        case ToggleMirror => mirrored := !mirrored;
        case MirrorTo(value) => mirrored := value;
      }
    }

    /**
      rotozoom_with_center: apply the mutator `m`, clamp the scale and
      re-anchor the view. `windowWidth`/`windowHeight` is the window size;
      `toModel`/`toDevice` are the mappings of whatever view they are given.
     */
    method RotozoomWithCenter(m: Mutation, atPointer: bool, windowWidth: int, windowHeight: int,
                              toModel: Mapping, toDevice: Mapping)
      requires ViewValid()
      modifies this`translationX, this`translationY, this`scale, this`rotation, this`mirrored
      ensures ViewValid()
      ensures ViewState() == Rotozoom(old(ViewState()), m, zoomMin, zoomMax,
                                      RotozoomCenter(atPointer, hasPointer, LastEventPos(), windowWidth, windowHeight),
                                      toModel, toDevice)
    {
      var center := RotozoomCenter(atPointer, hasPointer, LastEventPos(), windowWidth, windowHeight);
      var anchor := toModel(ViewState(), center);
      ApplyMutation(m);
      scale := Clamp(scale, zoomMin, zoomMax);
      var moved := toDevice(ViewState(), anchor);
      translationX := translationX + (center.x - moved.x);
      translationY := translationY + (center.y - moved.y);
    }

    method Zoom(zoomStep: real, windowWidth: int, windowHeight: int, toModel: Mapping, toDevice: Mapping)
      requires ViewValid()
      modifies this`translationX, this`translationY, this`scale, this`rotation, this`mirrored
      ensures ViewValid()
      ensures ViewState() == Rotozoom(old(ViewState()), ZoomBy(zoomStep), zoomMin, zoomMax,
                                      RotozoomCenter(true, hasPointer, LastEventPos(), windowWidth, windowHeight),
                                      toModel, toDevice)
    {
      RotozoomWithCenter(ZoomBy(zoomStep), true, windowWidth, windowHeight, toModel, toDevice);
    }

    method SetZoom(zoom: real, windowWidth: int, windowHeight: int, toModel: Mapping, toDevice: Mapping)
      requires ViewValid()
      modifies this`translationX, this`translationY, this`scale, this`rotation, this`mirrored
      ensures ViewValid()
      ensures ViewState() == Rotozoom(old(ViewState()), ZoomTo(zoom), zoomMin, zoomMax,
                                      RotozoomCenter(true, hasPointer, LastEventPos(), windowWidth, windowHeight),
                                      toModel, toDevice)
    {
      RotozoomWithCenter(ZoomTo(zoom), true, windowWidth, windowHeight, toModel, toDevice);
    }

    method Rotate(angleStep: real, windowWidth: int, windowHeight: int, toModel: Mapping, toDevice: Mapping)
      requires ViewValid()
      modifies this`translationX, this`translationY, this`scale, this`rotation, this`mirrored
      ensures ViewValid()
      ensures ViewState() == Rotozoom(old(ViewState()), RotateBy(angleStep), zoomMin, zoomMax,
                                      RotozoomCenter(false, hasPointer, LastEventPos(), windowWidth, windowHeight),
                                      toModel, toDevice)
    {
      RotozoomWithCenter(RotateBy(angleStep), false, windowWidth, windowHeight, toModel, toDevice);
    }

    method SetRotation(angle: real, windowWidth: int, windowHeight: int, toModel: Mapping, toDevice: Mapping)
      requires ViewValid()
      modifies this`translationX, this`translationY, this`scale, this`rotation, this`mirrored
      ensures ViewValid()
      ensures ViewState() == Rotozoom(old(ViewState()), RotateTo(angle), zoomMin, zoomMax,
                                      RotozoomCenter(false, hasPointer, LastEventPos(), windowWidth, windowHeight),
                                      toModel, toDevice)
    {
      RotozoomWithCenter(RotateTo(angle), false, windowWidth, windowHeight, toModel, toDevice);
    }

    method Mirror(windowWidth: int, windowHeight: int, toModel: Mapping, toDevice: Mapping)
      requires ViewValid()
      modifies this`translationX, this`translationY, this`scale, this`rotation, this`mirrored
      ensures ViewValid()
      ensures ViewState() == Rotozoom(old(ViewState()), ToggleMirror, zoomMin, zoomMax,
                                      RotozoomCenter(false, hasPointer, LastEventPos(), windowWidth, windowHeight),
                                      toModel, toDevice)
    {
      RotozoomWithCenter(ToggleMirror, false, windowWidth, windowHeight, toModel, toDevice);
    }

    method SetMirrored(value: bool, windowWidth: int, windowHeight: int, toModel: Mapping, toDevice: Mapping)
      requires ViewValid()
      modifies this`translationX, this`translationY, this`scale, this`rotation, this`mirrored
      ensures ViewValid()
      ensures ViewState() == Rotozoom(old(ViewState()), MirrorTo(value), zoomMin, zoomMax,
                                      RotozoomCenter(false, hasPointer, LastEventPos(), windowWidth, windowHeight),
                                      toModel, toDevice)
    {
      RotozoomWithCenter(MirrorTo(value), false, windowWidth, windowHeight, toModel, toDevice);
    }

    method ToggleShowLayersAbove()
      modifies this`showLayersAbove
      ensures showLayersAbove == !old(showLayersAbove)
    {
      showLayersAbove := !showLayersAbove;
    }

    // -------------------------------------------------------------------
    // Rendering

    /**
      The decisions repaint takes before blitting tiles, for the document's
      layer stack `docLayers` with current layer `layerIdx`, the clip extents
      `clip` and the mipmap cap `maxLevel`. None when list.index fails.
     */
    method Repaint(maxLevel: nat, clip: Extents, docLayers: seq<Layer>, layerIdx: int) returns (plan: Option<Plan>)
      requires ViewValid() && 0 <= layerIdx < |docLayers|
      ensures plan == RepaintPlan(ViewState(), maxLevel, clip, docLayers, layerIdx,
                                  showLayersAbove, currentLayerSolo, overlayLayer)
    {
      var level := MipmapLevel(scale, maxLevel);
      var translationOnly := ViewState().IsTranslationOnly();
      var bbox := ModelBBox(clip, translationOnly);
      var layers := VisibleLayers(docLayers, layerIdx, showLayersAbove);
      var neutralBackground := false;
      if currentLayerSolo {
        neutralBackground := true;
        layers := [docLayers[layerIdx]];
      }
      if overlayLayer.Some? {
        var idx := IndexOf(layers, docLayers[layerIdx]);
        if idx.None? {
          return None;
        }
        layers := layers[..idx.value + 1] + [overlayLayer.value] + layers[idx.value + 1..];
      }
      plan := Some(Plan(level, translationOnly, bbox, layers, neutralBackground,
                        !translationOnly && scale > NearestFilterScale));
    }
  }

  /** Replay written out for a step computed as ReplayStep computes it. */
  lemma ReplayWithStep(pending: seq<Sample>, dtime: real, s: Sample, step: real)
    requires dtime > 0.0 && step == ReplayStep(dtime, |pending|)
    ensures Replay(pending, dtime, s) == Spread(pending, step) + [Stroke(dtime - |pending| as real * step, s)]
  {
    var last := Stroke(dtime - |pending| as real * ReplayStep(dtime, |pending|), s);
    assert Replay(pending, dtime, s) == Spread(pending, ReplayStep(dtime, |pending|)) + [last];
    assert Spread(pending, ReplayStep(dtime, |pending|)) == Spread(pending, step);
    assert last == Stroke(dtime - |pending| as real * step, s);
  }

  /** Logs that grew by `a` and then by `b` grew by `a.Then(b)`. */
  lemma AppendedThen(o0: Effects, a: Effects, o1: Effects, b: Effects)
    requires o1 == o0.Then(a)
    ensures o1.Then(b) == o0.Then(a.Then(b))
  {
    ThenAssociative(o0, a, b);
  }

  lemma ThenOnly(o: Effects, changes: seq<DeviceChange>, drags: seq<DragCall>, strokes: seq<Stroke>)
    ensures o.Then(NoEffects.(deviceChanges := changes, drags := drags, strokes := strokes)) ==
      Effects(o.deviceChanges + changes, o.drags + drags, o.strokes + strokes, o.straightLines)
  {
    var e := NoEffects.(deviceChanges := changes, drags := drags, strokes := strokes);
    assert e.straightLines == [];
    assert o.Then(e) == Effects(o.deviceChanges + changes, o.drags + drags, o.strokes + strokes, o.straightLines + []);
    assert o.straightLines + [] == o.straightLines;
  }

  lemma ThenLines(o: Effects, lines: seq<StraightLine>)
    ensures o.Then(NoEffects.(straightLines := lines)) == o.(straightLines := o.straightLines + lines)
  {
    var e := NoEffects.(straightLines := lines);
    assert o.deviceChanges + [] == o.deviceChanges && o.drags + [] == o.drags && o.strokes + [] == o.strokes;
  }

  lemma ThenAssociative(a: Effects, b: Effects, c: Effects)
    ensures a.Then(b).Then(c) == a.Then(b.Then(c))
  {
    var ab, bc := a.Then(b), b.Then(c);
    assert ab.Then(c) == Effects(ab.deviceChanges + c.deviceChanges, ab.drags + c.drags,
                                 ab.strokes + c.strokes, ab.straightLines + c.straightLines);
    assert a.Then(bc) == Effects(a.deviceChanges + bc.deviceChanges, a.drags + bc.drags,
                                 a.strokes + bc.strokes, a.straightLines + bc.straightLines);
    assert ab.deviceChanges + c.deviceChanges == a.deviceChanges + bc.deviceChanges;
    assert ab.drags + c.drags == a.drags + bc.drags;
    assert ab.strokes + c.strokes == a.strokes + bc.strokes;
    assert ab.straightLines + c.straightLines == a.straightLines + bc.straightLines;
  }
}
