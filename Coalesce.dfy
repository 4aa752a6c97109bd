/**
  The pointer-event coalescer of the canvas widget, as pure functions over
  the widget's input-tracking fields. TiledDrawWidget.motion_notify_cb in
  gui/tileddrawwidget.py turns raw pointer samples into stroke_to calls:
  it validates pressure and tilt, applies the modifier overrides, and
  buffers samples that carry no elapsed time until a sample with elapsed
  time arrives, then replays them with evenly split time steps.
  Widget.dfy runs the same logic imperatively and is proved against
  MotionStep; the lemmas here state what the coalescer promises.
 */
module Coalesce {
  import opened Types

  /** The sample handed to the painting engine: model position, pressure, tilt. */
  datatype Sample = Sample(x: real, y: real, pressure: real, xtilt: real, ytilt: real)

  /** One stroke_to call: the elapsed time in seconds and the sample. */
  datatype Stroke = Stroke(dtime: real, sample: Sample)

  /** One call of a device observer: previous device (None at first) and new device. */
  datatype DeviceChange = DeviceChange(previous: Option<Device>, current: Device)

  /** One call of the drag callback with the pointer's device-space delta. */
  datatype DragCall = DragCall(handler: DragHandle, dx: real, dy: real)

  /** One doc.straight_line call (Shift+click), in model coordinates. */
  datatype StraightLine = StraightLine(from: Point, to: Point)

  /** Axis values beyond this magnitude are taken as GTK's "infinity" for a missing axis. */
  const AxisLimit: real := 1000.0
  /** The pressure a held mouse button stands for when the device reports none. */
  const ButtonPressure: real := 0.5
  /** The longest span, in seconds, over which buffered samples are replayed. */
  const ReplayCap: real := 0.1

  predicate Wild(v: real) {
    v > AxisLimit || v < -AxisLimit
  }

  /** A pressure reading outside [0, 1]: the device gets a warning (once). */
  predicate OutOfRange(pressure: Option<real>) {
    pressure.Some? && (pressure.value > 1.0 || pressure.value < 0.0)
  }

  predicate NoDuplicates(names: seq<string>) {
    forall i, j :: 0 <= i < j < |names| ==> names[i] != names[j]
  }

  /** bad_devices after an event: the device name is added the first time it misreports. */
  function WarnOnce(bad: seq<string>, name: string, pressure: Option<real>): (r: seq<string>)
    ensures forall n :: n in r <==> n in bad || (n == name && OutOfRange(pressure))
    ensures |bad| <= |r| <= |bad| + 1 && r[..|bad|] == bad
    ensures NoDuplicates(bad) ==> NoDuplicates(r)
  {
    if OutOfRange(pressure) && name !in bad then bad + [name] else bad
  }

  /** The pressure used for a sample, and whether the device supplied it. */
  datatype Reading = Reading(pressure: real, hadInfo: bool)

  /**
    Pressure validation: a reading beyond the axis limit is discarded like a
    missing one and replaced by the button state; any other reading is kept
    as it is, even when it lies outside [0, 1].
   */
  function ReadPressure(axis: Option<real>, button1: bool): (r: Reading)
    ensures r.hadInfo <==> axis.Some? && !Wild(axis.value)
    ensures r.hadInfo ==> r.pressure == axis.value
    ensures !r.hadInfo ==> r.pressure == if button1 then ButtonPressure else 0.0
    ensures -AxisLimit <= r.pressure <= AxisLimit
  {
    var kept := if OutOfRange(axis) && Wild(axis.value) then None else axis;
    if kept.None? then Reading(if button1 then ButtonPressure else 0.0, false)
    else Reading(kept.value, true)
  }

  /** Tilt validation: both axes are kept, or both become zero. */
  function ReadTilt(xtilt: Option<real>, ytilt: Option<real>): (r: (real, real))
    ensures r == (0.0, 0.0) || (xtilt == Some(r.0) && ytilt == Some(r.1))
    ensures xtilt.Some? && ytilt.Some? && !Wild(xtilt.value) && !Wild(ytilt.value) ==> r == (xtilt.value, ytilt.value)
    ensures -AxisLimit <= r.0 <= AxisLimit && -AxisLimit <= r.1 <= AxisLimit
  {
    if xtilt.None? || ytilt.None? || Wild(xtilt.value) || Wild(ytilt.value) then (0.0, 0.0)
    else (xtilt.value, ytilt.value)
  }

  /**
    The overrides, in the order the handler applies them: Ctrl or Alt
    (colour picking) zeroes the pressure, then the optional pressure mapping
    is applied, then Shift zeroes it again.
   */
  function ApplyModifiers(pressure: real, state: Modifiers, mapping: Option<real -> real>): (r: real)
    ensures state.shift ==> r == 0.0
    ensures !state.shift && mapping.None? ==> r == if state.control || state.alt then 0.0 else pressure
    ensures !state.shift && mapping.Some? && (state.control || state.alt) ==> r == mapping.value(0.0)
    ensures !state.shift && mapping.Some? && !(state.control || state.alt) ==> r == mapping.value(pressure)
  {
    var picked := if state.control || state.alt then 0.0 else pressure;
    var mapped := if mapping.Some? then mapping.value(picked) else picked;
    if state.shift then 0.0 else mapped
  }

  /** The button state consulted when the pressure axis is unusable. */
  function Button1(ev: MotionEvent, button1: Option<bool>): bool {
    if button1.Some? then button1.value else ev.state.button1
  }

  /** The sample an event contributes, given its position in model coordinates. */
  function EventSample(ev: MotionEvent, button1: Option<bool>, mapping: Option<real -> real>, pos: Point): (r: Sample)
    ensures r.x == pos.x && r.y == pos.y
    ensures -AxisLimit <= r.xtilt <= AxisLimit && -AxisLimit <= r.ytilt <= AxisLimit
    ensures ev.state.shift ==> r.pressure == 0.0
    ensures mapping.None? && !ev.state.shift && !ev.state.control && !ev.state.alt ==>
      r.pressure == ReadPressure(ev.pressure, Button1(ev, button1)).pressure
  {
    var reading := ReadPressure(ev.pressure, Button1(ev, button1));
    var tilt := ReadTilt(ev.xtilt, ev.ytilt);
    Sample(pos.x, pos.y, ApplyModifiers(reading.pressure, ev.state, mapping), tilt.0, tilt.1)
  }

  // ---------------------------------------------------------------------
  // Replay of buffered zero-time samples

  /** The time step of each buffered sample when n samples are waiting. */
  function ReplayStep(dtime: real, n: nat): (step: real)
    requires dtime > 0.0
    ensures 0.0 < step && step * (n + 1) as real <= dtime && step * (n + 1) as real <= ReplayCap
    ensures dtime <= ReplayCap ==> step * (n + 1) as real == dtime
  {
    (if dtime > ReplayCap then ReplayCap else dtime) / (n + 1) as real
  }

  /** The buffered samples, each with the same time step, in arrival order. */
  function Spread(pending: seq<Sample>, step: real): (r: seq<Stroke>)
    ensures |r| == |pending|
    ensures forall i :: 0 <= i < |r| ==> r[i] == Stroke(step, pending[i])
  {
    if pending == [] then []
    else Spread(pending[..|pending| - 1], step) + [Stroke(step, pending[|pending| - 1])]
  }

  /** What a sample with positive elapsed time emits: the buffer, then itself with the rest. */
  function Replay(pending: seq<Sample>, dtime: real, s: Sample): (r: seq<Stroke>)
    requires dtime > 0.0
    ensures |r| == |pending| + 1 && r[|pending|].sample == s
    ensures forall i :: 0 <= i < |pending| ==> r[i].sample == pending[i]
  {
    var step := ReplayStep(dtime, |pending|);
    Spread(pending, step) + [Stroke(dtime - |pending| as real * step, s)]
  }

  /** The elapsed time a run of strokes accounts for. */
  function TotalTime(strokes: seq<Stroke>): real {
    if strokes == [] then 0.0
    else TotalTime(strokes[..|strokes| - 1]) + strokes[|strokes| - 1].dtime
  }

  function Samples(strokes: seq<Stroke>): seq<Sample> {
    seq(|strokes|, i requires 0 <= i < |strokes| => strokes[i].sample)
  }

  /**
    The buffering rule: backwards time is clamped to zero; a sample with no
    elapsed time joins the buffer; any other sample flushes the buffer.
    Returns the new buffer and the strokes emitted.
   */
  function Coalesce(pending: seq<Sample>, dtime: real, s: Sample): (r: (seq<Sample>, seq<Stroke>))
    ensures |r.1| == if dtime > 0.0 then |pending| + 1 else 0
    ensures dtime <= 0.0 ==> r.0 == pending + [s]
    ensures dtime > 0.0 ==> r.0 == []
  {
    var clamped := if dtime < 0.0 then 0.0 else dtime;
    if clamped == 0.0 then (pending + [s], []) else ([], Replay(pending, clamped, s))
  }

  lemma {:induction false} TotalTimeAppend(a: seq<Stroke>, b: seq<Stroke>)
    ensures TotalTime(a + b) == TotalTime(a) + TotalTime(b)
    decreases |b|
  {
    if b == [] {
      assert a + b == a;
    } else {
      var b' := b[..|b| - 1];
      assert (a + b)[..|a + b| - 1] == a + b';
      TotalTimeAppend(a, b');
    }
  }

  lemma {:induction false} SpreadTime(pending: seq<Sample>, step: real)
    ensures TotalTime(Spread(pending, step)) == |pending| as real * step
    decreases |pending|
  {
    if pending != [] {
      var n := |pending|;
      var front := pending[..n - 1];
      var last := Stroke(step, pending[n - 1]);
      assert Spread(pending, step) == Spread(front, step) + [last];
      TotalTimeAppend(Spread(front, step), [last]);
      TotalTimeSingle(last);
      SpreadTime(front, step);
      OneMoreStep(n, step);
    }
  }

  lemma TotalTimeSingle(x: Stroke)
    ensures TotalTime([x]) == x.dtime
  {
    assert [x][..0] == [];
  }

  lemma OneMoreStep(n: int, step: real)
    ensures (n - 1) as real * step + step == n as real * step
  {
    assert (n - 1) as real == n as real - 1.0;
  }

  lemma SamplesAppend(a: seq<Stroke>, b: seq<Stroke>)
    ensures Samples(a + b) == Samples(a) + Samples(b)
  {
  }

  /** Replay emits every buffered sample, in arrival order, and then the new one. */
  lemma ReplayOrder(pending: seq<Sample>, dtime: real, s: Sample)
    requires dtime > 0.0
    ensures |Replay(pending, dtime, s)| == |pending| + 1
    ensures Samples(Replay(pending, dtime, s)) == pending + [s]
  {
    var r := Replay(pending, dtime, s);
    assert forall i :: 0 <= i < |pending| ==> r[i].sample == pending[i];
  }

  /** Replay conserves time: the emitted durations add up to the elapsed time. */
  lemma ReplayConservesTime(pending: seq<Sample>, dtime: real, s: Sample)
    requires dtime > 0.0
    ensures TotalTime(Replay(pending, dtime, s)) == dtime
  {
    var step := ReplayStep(dtime, |pending|);
    var spread := Spread(pending, step);
    var last := Stroke(dtime - |pending| as real * step, s);
    TotalTimeAppend(spread, [last]);
    SpreadTime(pending, step);
    TotalTimeSingle(last);
  }

  /**
    The durations Replay hands out: all positive and at most the elapsed
    time; equal when the elapsed time is within the cap; and past the cap
    (strictly) the buffered samples share the cap while the new sample
    takes the rest.
   */
  lemma ReplayDurations(pending: seq<Sample>, dtime: real, s: Sample)
    requires dtime > 0.0
    ensures var r := Replay(pending, dtime, s);
      forall i :: 0 <= i < |r| ==> 0.0 < r[i].dtime <= dtime
    ensures var r := Replay(pending, dtime, s);
      dtime <= ReplayCap ==> forall i :: 0 <= i < |r| ==> r[i].dtime == dtime / (|pending| + 1) as real
    ensures var r := Replay(pending, dtime, s);
      dtime > ReplayCap ==>
        (forall i :: 0 <= i < |pending| ==> r[i].dtime == ReplayCap / (|pending| + 1) as real) &&
        r[|pending|].dtime > dtime - ReplayCap
  {
    var n := |pending|;
    var k := (n + 1) as real;
    var step := ReplayStep(dtime, n);
    var r := Replay(pending, dtime, s);
    var last := dtime - n as real * step;
    assert r[n].dtime == last;
    assert step * k == n as real * step + step;
    assert step <= dtime;
    if dtime <= ReplayCap {
      assert step * k == dtime;
      assert last == step;
      assert step == dtime / k;
    } else {
      assert step == ReplayCap / k;
      assert n as real * step < ReplayCap;
    }
  }

  /**
    The buffering rule as a whole: no sample is lost or reordered (what is
    emitted, followed by what stays buffered, is the old buffer followed by
    the new sample), nothing is emitted unless time advanced, every emitted
    duration is positive, and a flush accounts for exactly the elapsed time.
   */
  lemma CoalesceFifo(pending: seq<Sample>, dtime: real, s: Sample)
    ensures Samples(Coalesce(pending, dtime, s).1) + Coalesce(pending, dtime, s).0 == pending + [s]
    ensures Coalesce(pending, dtime, s).1 == [] <==> dtime <= 0.0
    ensures dtime > 0.0 ==> Coalesce(pending, dtime, s).0 == [] && TotalTime(Coalesce(pending, dtime, s).1) == dtime
    ensures forall st :: st in Coalesce(pending, dtime, s).1 ==> st.dtime > 0.0
  {
    if dtime > 0.0 {
      ReplayOrder(pending, dtime, s);
      ReplayConservesTime(pending, dtime, s);
      ReplayDurations(pending, dtime, s);
    }
  }

  // ---------------------------------------------------------------------
  // The whole motion handler

  /** The widget fields the input handlers read and write. */
  datatype Tracking = Tracking(
    lastEventTime: Option<int>, lastEventX: Option<real>, lastEventY: Option<real>,
    lastEventDevice: Option<Device>, lastEventHadPressureInfo: bool,
    lastPaintingPos: Option<Point>, badDevices: seq<string>, motions: seq<Sample>)
  {
    /**
      The last position is recorded with the last time, both coordinates
      together, and no device is flagged twice.
     */
    predicate Valid() {
      (lastEventTime.Some? ==> lastEventX.Some?) &&
      lastEventX.Some? == lastEventY.Some? &&
      NoDuplicates(badDevices)
    }
  }

  /** What the handlers emit to the outside world, one sequence per kind of call. */
  datatype Effects = Effects(
    deviceChanges: seq<DeviceChange>, drags: seq<DragCall>,
    strokes: seq<Stroke>, straightLines: seq<StraightLine>)
  {
    function Then(next: Effects): Effects {
      Effects(deviceChanges + next.deviceChanges, drags + next.drags,
              strokes + next.strokes, straightLines + next.straightLines)
    }
  }

  const NoEffects := Effects([], [], [], [])

  /** The "previous event" test is a truthiness test: a timestamp of 0 counts as none. */
  predicate HasPrevious(lastEventTime: Option<int>) {
    lastEventTime.Some? && lastEventTime.value != 0
  }

  /** device_used: observers hear of a device only when it differs from the last one. */
  function DeviceStep(t: Tracking, device: Device): (r: (Tracking, seq<DeviceChange>))
    ensures r.0 == t.(lastEventDevice := Some(device))
    ensures r.1 == [] <==> t.lastEventDevice == Some(device)
    ensures r.1 != [] ==> r.1 == [DeviceChange(t.lastEventDevice, device)]
  {
    if t.lastEventDevice == Some(device) then (t, [])
    else (t.(lastEventDevice := Some(device)), [DeviceChange(t.lastEventDevice, device)])
  }

  /** What every event does to a sensitive widget: device_used, then the last position and time. */
  function Touch(t: Tracking, ev: MotionEvent): (r: (Tracking, seq<DeviceChange>))
    ensures r.0 == t.(lastEventDevice := Some(ev.device), lastEventX := Some(ev.x), lastEventY := Some(ev.y),
                      lastEventTime := Some(ev.time))
    ensures r.1 == DeviceStep(t, ev.device).1
    ensures r.0.Valid() <==> NoDuplicates(t.badDevices)
  {
    var (t1, changes) := DeviceStep(t, ev.device);
    (t1.(lastEventX := Some(ev.x), lastEventY := Some(ev.y), lastEventTime := Some(ev.time)), changes)
  }

  /**
    motion_notify_cb for one event. `pos` is the event's position mapped to
    model coordinates; `button1` is the forced button state of the button
    handlers (None for a genuine motion event).
   */
  function MotionStep(t: Tracking, sensitive: bool, drag: Option<DragHandle>, mapping: Option<real -> real>,
                      ev: MotionEvent, button1: Option<bool>, pos: Point): (r: (Tracking, Effects))
    requires t.Valid()
    ensures r.0.Valid()
  {
    if !sensitive then (t, NoEffects)
    else
      var (t2, changes) := Touch(t, ev);
      if !HasPrevious(t.lastEventTime) then
        (t2, NoEffects.(deviceChanges := changes))
      else if drag.Some? then
        (t2, NoEffects.(deviceChanges := changes,
                        drags := [DragCall(drag.value, ev.x - t.lastEventX.value, ev.y - t.lastEventY.value)]))
      else
        var (t3, strokes) := PaintStep(t2, mapping, ev, button1, pos, (ev.time - t.lastEventTime.value) as real / 1000.0);
        (t3, NoEffects.(deviceChanges := changes, strokes := strokes))
  }

  /**
    The painting path of motion_notify_cb for an event `dtime` seconds after
    the previous one: validate the event, remember where paint was laid, and
    feed the sample to the buffer. The event's position, time and device
    have already been recorded.
   */
  function PaintStep(t: Tracking, mapping: Option<real -> real>, ev: MotionEvent, button1: Option<bool>,
                     pos: Point, dtime: real): (r: (Tracking, seq<Stroke>))
    ensures r.0.lastEventTime == t.lastEventTime && r.0.lastEventDevice == t.lastEventDevice &&
            r.0.lastEventX == t.lastEventX && r.0.lastEventY == t.lastEventY
    ensures t.Valid() ==> r.0.Valid()
  {
    var reading := ReadPressure(ev.pressure, Button1(ev, button1));
    var sample := EventSample(ev, button1, mapping, pos);
    var (motions, strokes) := Coalesce(t.motions, dtime, sample);
    (t.(badDevices := WarnOnce(t.badDevices, ev.device.name, ev.pressure),
        lastEventHadPressureInfo := reading.hadInfo,
        lastPaintingPos := if sample.pressure != 0.0 then Some(pos) else t.lastPaintingPos,
        motions := motions),
     strokes)
  }

  /** Proof helper: MotionStep path by path, in terms of the bookkeeping and the painting path. */
  lemma MotionCases(t: Tracking, sensitive: bool, drag: Option<DragHandle>, mapping: Option<real -> real>,
                    ev: MotionEvent, button1: Option<bool>, pos: Point)
    requires t.Valid()
    ensures var r := MotionStep(t, sensitive, drag, mapping, ev, button1, pos);
      var touched := Touch(t, ev);
      (!sensitive ==> r == (t, NoEffects)) &&
      (sensitive && !HasPrevious(t.lastEventTime) ==> r == (touched.0, NoEffects.(deviceChanges := touched.1))) &&
      (sensitive && HasPrevious(t.lastEventTime) && drag.Some? ==>
         r == (touched.0, NoEffects.(deviceChanges := touched.1,
                                     drags := [DragCall(drag.value, ev.x - t.lastEventX.value, ev.y - t.lastEventY.value)]))) &&
      (sensitive && HasPrevious(t.lastEventTime) && drag.None? ==>
         var p := PaintStep(touched.0, mapping, ev, button1, pos, (ev.time - t.lastEventTime.value) as real / 1000.0);
         r == (p.0, NoEffects.(deviceChanges := touched.1, strokes := p.1)))
  {
  }

  /** The straight line a Shift+press asks for, from the last painting position to the cursor. */
  function StraightLines(shift: bool, lastPaintingPos: Option<Point>, cursor: Point): (r: seq<StraightLine>)
    ensures |r| <= 1
    ensures r != [] <==> shift && lastPaintingPos.Some?
    ensures r != [] ==> r[0].from == lastPaintingPos.value && r[0].to == cursor
  {
    if shift && lastPaintingPos.Some? then [StraightLine(lastPaintingPos.value, cursor)] else []
  }

  /**
    button_press_cb: only a single press of button 1 acts. With Shift held
    and a known last painting position it asks for a straight line to the
    cursor; without pressure telemetry it re-enters the motion handler with
    the button forced down.
   */
  function PressStep(t: Tracking, sensitive: bool, drag: Option<DragHandle>, mapping: Option<real -> real>,
                     ev: ButtonEvent, pos: Point, cursor: Point): (r: (Tracking, Effects))
    requires t.Valid()
    ensures r.0.Valid()
  {
    if ev.kind != SinglePress || ev.button != 1 then (t, NoEffects)
    else
      var drawn := NoEffects.(straightLines := StraightLines(ev.motion.state.shift, t.lastPaintingPos, cursor));
      if t.lastEventHadPressureInfo then (t, drawn)
      else
        var (t', e) := MotionStep(t, sensitive, drag, mapping, ev.motion, Some(true), pos);
        (t', drawn.Then(e))
  }

  /** Proof helper: PressStep path by path. */
  lemma PressCases(t: Tracking, sensitive: bool, drag: Option<DragHandle>, mapping: Option<real -> real>,
                   ev: ButtonEvent, pos: Point, cursor: Point)
    requires t.Valid()
    ensures var r := PressStep(t, sensitive, drag, mapping, ev, pos, cursor);
      var drawn := NoEffects.(straightLines := StraightLines(ev.motion.state.shift, t.lastPaintingPos, cursor));
      var m := MotionStep(t, sensitive, drag, mapping, ev.motion, Some(true), pos);
      (ev.kind != SinglePress || ev.button != 1 ==> r == (t, NoEffects)) &&
      (ev.kind == SinglePress && ev.button == 1 && t.lastEventHadPressureInfo ==> r == (t, drawn)) &&
      (ev.kind == SinglePress && ev.button == 1 && !t.lastEventHadPressureInfo ==> r == (m.0, drawn.Then(m.1)))
  {
  }

  /** button_release_cb: re-enters the motion handler with the button forced up. */
  function ReleaseStep(t: Tracking, sensitive: bool, drag: Option<DragHandle>, mapping: Option<real -> real>,
                       ev: ButtonEvent, pos: Point): (r: (Tracking, Effects))
    requires t.Valid()
    ensures r.0.Valid()
  {
    if ev.button == 1 && !t.lastEventHadPressureInfo then
      MotionStep(t, sensitive, drag, mapping, ev.motion, Some(false), pos)
    else (t, NoEffects)
  }

  /** A stream of motion events under a fixed view. */
  function Run(t: Tracking, sensitive: bool, drag: Option<DragHandle>, mapping: Option<real -> real>,
               v: Viewport, toModel: Mapping, evs: seq<MotionEvent>): (r: (Tracking, Effects))
    requires t.Valid()
    ensures r.0.Valid()
    decreases |evs|
  {
    if evs == [] then (t, NoEffects)
    else
      var (t1, e1) := Run(t, sensitive, drag, mapping, v, toModel, evs[..|evs| - 1]);
      var ev := evs[|evs| - 1];
      var (t2, e2) := MotionStep(t1, sensitive, drag, mapping, ev, None, toModel(v, Point(ev.x, ev.y)));
      (t2, e1.Then(e2))
  }

  function EventSamples(evs: seq<MotionEvent>, mapping: Option<real -> real>, v: Viewport, toModel: Mapping): seq<Sample> {
    seq(|evs|, i requires 0 <= i < |evs| => EventSample(evs[i], None, mapping, toModel(v, Point(evs[i].x, evs[i].y))))
  }

  /** Timestamps that never go backwards, starting from a previous time t0 > 0. */
  predicate Ticking(t0: int, evs: seq<MotionEvent>) {
    0 < t0 &&
    (forall i :: 0 <= i < |evs| ==> t0 <= evs[i].time) &&
    (forall i, j :: 0 <= i < j < |evs| ==> evs[i].time <= evs[j].time)
  }

  /** The insensitive widget ignores events; the first event and drags paint nothing. */
  lemma MotionQuiet(t: Tracking, sensitive: bool, drag: Option<DragHandle>, mapping: Option<real -> real>,
                    ev: MotionEvent, button1: Option<bool>, pos: Point)
    requires t.Valid()
    ensures !sensitive ==> MotionStep(t, sensitive, drag, mapping, ev, button1, pos) == (t, NoEffects)
    ensures sensitive && (!HasPrevious(t.lastEventTime) || drag.Some?) ==>
      var (t', e) := MotionStep(t, sensitive, drag, mapping, ev, button1, pos);
      e.strokes == [] && t'.motions == t.motions && t'.badDevices == t.badDevices &&
      t'.lastEventTime == Some(ev.time) && t'.lastEventX == Some(ev.x) && t'.lastEventY == Some(ev.y) &&
      e.drags == (if HasPrevious(t.lastEventTime)
                  then [DragCall(drag.value, ev.x - t.lastEventX.value, ev.y - t.lastEventY.value)] else [])
  {
  }

  /**
    For one event on the painting path: every emitted duration is positive;
    no sample is lost or reordered; and a flush accounts for exactly the
    time elapsed since the previous event.
   */
  lemma MotionStrokes(t: Tracking, mapping: Option<real -> real>, ev: MotionEvent, button1: Option<bool>, pos: Point)
    requires t.Valid() && HasPrevious(t.lastEventTime)
    ensures var (t', e) := MotionStep(t, true, None, mapping, ev, button1, pos);
      var dtime := (ev.time - t.lastEventTime.value) as real / 1000.0;
      t'.lastEventTime == Some(ev.time) && e.drags == [] &&
      (forall st :: st in e.strokes ==> st.dtime > 0.0) &&
      Samples(e.strokes) + t'.motions == t.motions + [EventSample(ev, button1, mapping, pos)] &&
      (dtime <= 0.0 ==> e.strokes == []) &&
      (dtime > 0.0 ==> t'.motions == [] && TotalTime(e.strokes) == dtime &&
                       e.strokes == Replay(t.motions, dtime, EventSample(ev, button1, mapping, pos)))
  {
    var dtime := (ev.time - t.lastEventTime.value) as real / 1000.0;
    var (t2, changes) := Touch(t, ev);
    var p := PaintStep(t2, mapping, ev, button1, pos, dtime);
    assert MotionStep(t, true, None, mapping, ev, button1, pos) ==
      (p.0, NoEffects.(deviceChanges := changes, strokes := p.1));
    PaintStrokes(t2, mapping, ev, button1, pos, dtime);
  }

  /** The painting path on its own: the sample is fed to the buffer, nothing lost or reordered. */
  lemma PaintStrokes(t: Tracking, mapping: Option<real -> real>, ev: MotionEvent, button1: Option<bool>,
                     pos: Point, dtime: real)
    ensures var (t', strokes) := PaintStep(t, mapping, ev, button1, pos, dtime);
      var s := EventSample(ev, button1, mapping, pos);
      (forall st :: st in strokes ==> st.dtime > 0.0) &&
      Samples(strokes) + t'.motions == t.motions + [s] &&
      (dtime <= 0.0 ==> strokes == []) &&
      (dtime > 0.0 ==> t'.motions == [] && TotalTime(strokes) == dtime && strokes == Replay(t.motions, dtime, s))
  {
    CoalesceFifo(t.motions, dtime, EventSample(ev, button1, mapping, pos));
  }

  /**
    Time conservation over a stream: when timestamps never go backwards,
    the strokes emitted account for exactly the time between the previous
    event and the last one.
   */
  lemma {:induction false} RunConservesTime(t: Tracking, mapping: Option<real -> real>, v: Viewport, toModel: Mapping,
                                            evs: seq<MotionEvent>)
    requires t.Valid() && t.lastEventTime.Some? && Ticking(t.lastEventTime.value, evs)
    ensures var (t', e) := Run(t, true, None, mapping, v, toModel, evs);
      t'.lastEventTime == (if evs == [] then t.lastEventTime else Some(evs[|evs| - 1].time)) &&
      TotalTime(e.strokes) == (t'.lastEventTime.value - t.lastEventTime.value) as real / 1000.0 &&
      e.drags == []
    decreases |evs|
  {
    if evs != [] {
      var front := evs[..|evs| - 1];
      assert Ticking(t.lastEventTime.value, front);
      RunConservesTime(t, mapping, v, toModel, front);
      var (t1, e1) := Run(t, true, None, mapping, v, toModel, front);
      var ev := evs[|evs| - 1];
      var pos := toModel(v, Point(ev.x, ev.y));
      RunSnoc(t, mapping, v, toModel, evs);
      assert t1.lastEventTime.value <= ev.time by {
        if front != [] {
          assert front[|front| - 1] == evs[|evs| - 2];
        }
      }
      MotionTime(t1, mapping, ev, pos);
      TotalTimeJoin(e1.strokes, MotionStep(t1, true, None, mapping, ev, None, pos).1.strokes, t.lastEventTime.value, t1.lastEventTime.value, ev.time);
    }
  }

  /** A run of events is the run of all but the last, followed by the last event. */
  lemma RunSnoc(t: Tracking, mapping: Option<real -> real>, v: Viewport, toModel: Mapping, evs: seq<MotionEvent>)
    requires t.Valid() && evs != []
    ensures var ev := evs[|evs| - 1];
      var (t1, e1) := Run(t, true, None, mapping, v, toModel, evs[..|evs| - 1]);
      var (t2, e2) := MotionStep(t1, true, None, mapping, ev, None, toModel(v, Point(ev.x, ev.y)));
      Run(t, true, None, mapping, v, toModel, evs) == (t2, e1.Then(e2)) && t2.lastEventTime == Some(ev.time)
  {
  }

  /** One event after an earlier one: its strokes account for exactly the time between the two. */
  lemma MotionTime(t: Tracking, mapping: Option<real -> real>, ev: MotionEvent, pos: Point)
    requires t.Valid() && HasPrevious(t.lastEventTime) && t.lastEventTime.value <= ev.time
    ensures var (t', e) := MotionStep(t, true, None, mapping, ev, None, pos);
      t'.lastEventTime == Some(ev.time) && e.drags == [] &&
      TotalTime(e.strokes) == (ev.time - t.lastEventTime.value) as real / 1000.0
  {
    MotionStrokes(t, mapping, ev, None, pos);
    var d := (ev.time - t.lastEventTime.value) as real / 1000.0;
    if d <= 0.0 {
      assert MotionStep(t, true, None, mapping, ev, None, pos).1.strokes == [];
    }
  }

  lemma TotalTimeJoin(a: seq<Stroke>, b: seq<Stroke>, t0: int, t1: int, t2: int)
    requires TotalTime(a) == (t1 - t0) as real / 1000.0 && TotalTime(b) == (t2 - t1) as real / 1000.0
    ensures TotalTime(a + b) == (t2 - t0) as real / 1000.0
  {
    TotalTimeAppend(a, b);
  }

  /**
    FIFO over a stream: the samples come out in arrival order, and those
    not yet emitted are still buffered, whatever the timestamps, as long as
    none of them is 0 (which the handler reads as "no previous event").
   */
  lemma {:induction false} RunFifo(t: Tracking, mapping: Option<real -> real>, v: Viewport, toModel: Mapping,
                                   evs: seq<MotionEvent>)
    requires t.Valid() && HasPrevious(t.lastEventTime)
    requires forall i :: 0 <= i < |evs| ==> evs[i].time != 0
    ensures var (t', e) := Run(t, true, None, mapping, v, toModel, evs);
      t'.lastEventTime == (if evs == [] then t.lastEventTime else Some(evs[|evs| - 1].time)) &&
      Samples(e.strokes) + t'.motions == t.motions + EventSamples(evs, mapping, v, toModel)
    decreases |evs|
  {
    if evs != [] {
      var front := evs[..|evs| - 1];
      assert forall i :: 0 <= i < |front| ==> front[i] == evs[i];
      RunFifo(t, mapping, v, toModel, front);
      var (t1, e1) := Run(t, true, None, mapping, v, toModel, front);
      var ev := evs[|evs| - 1];
      var pos := toModel(v, Point(ev.x, ev.y));
      RunSnoc(t, mapping, v, toModel, evs);
      assert HasPrevious(t1.lastEventTime) by {
        if front != [] {
          assert front[|front| - 1] == evs[|evs| - 2];
        }
      }
      EventSamplesSnoc(evs, mapping, v, toModel);
      FifoStep(t1, e1, mapping, ev, pos, t.motions, EventSamples(front, mapping, v, toModel));
    }
  }

  /** One more event keeps the FIFO relation between what was emitted, what is buffered and what arrived. */
  lemma FifoStep(t1: Tracking, e1: Effects, mapping: Option<real -> real>, ev: MotionEvent, pos: Point,
                 m0: seq<Sample>, before: seq<Sample>)
    requires t1.Valid() && HasPrevious(t1.lastEventTime)
    requires Samples(e1.strokes) + t1.motions == m0 + before
    ensures var (t2, e2) := MotionStep(t1, true, None, mapping, ev, None, pos);
      Samples(e1.Then(e2).strokes) + t2.motions == m0 + (before + [EventSample(ev, None, mapping, pos)])
  {
    var (t2, e2) := MotionStep(t1, true, None, mapping, ev, None, pos);
    MotionStrokes(t1, mapping, ev, None, pos);
    assert e1.Then(e2).strokes == e1.strokes + e2.strokes;
    SamplesAppend(e1.strokes, e2.strokes);
    FifoCompose(m0, before, Samples(e1.strokes), t1.motions, Samples(e2.strokes), t2.motions,
                EventSample(ev, None, mapping, pos));
  }

  lemma FifoCompose(m0: seq<Sample>, before: seq<Sample>, out1: seq<Sample>, m1: seq<Sample>,
                    out2: seq<Sample>, m2: seq<Sample>, x: Sample)
    requires out1 + m1 == m0 + before && out2 + m2 == m1 + [x]
    ensures (out1 + out2) + m2 == m0 + (before + [x])
  {
    assert (out1 + out2) + m2 == out1 + (out2 + m2);
    assert out1 + (m1 + [x]) == (out1 + m1) + [x];
  }

  lemma EventSamplesSnoc(evs: seq<MotionEvent>, mapping: Option<real -> real>, v: Viewport, toModel: Mapping)
    requires evs != []
    ensures var ev := evs[|evs| - 1];
      EventSamples(evs, mapping, v, toModel) ==
      EventSamples(evs[..|evs| - 1], mapping, v, toModel) + [EventSample(ev, None, mapping, toModel(v, Point(ev.x, ev.y)))]
  {
  }

  /**
    The situation the buffer exists for: two samples arriving with no
    elapsed time are held back, and a third 10 ms later flushes all three,
    in arrival order, each with a third of the 10 ms.
   */
  lemma ZeroZeroTen(s1: Sample, s2: Sample, s3: Sample)
    ensures var (m1, out1) := Coalesce([], 0.0, s1);
      var (m2, out2) := Coalesce(m1, 0.0, s2);
      var (m3, out3) := Coalesce(m2, 0.01, s3);
      out1 == [] && out2 == [] && m2 == [s1, s2] && m3 == [] &&
      out3 == [Stroke(0.01 / 3.0, s1), Stroke(0.01 / 3.0, s2), Stroke(0.01 / 3.0, s3)]
  {
    var step := ReplayStep(0.01, 2);
    assert step == 0.01 / 3.0;
    assert [] + [s1] == [s1] && [s1] + [s2] == [s1, s2];
    assert [s1, s2][..1] == [s1] && [s1][..0] == [];
    assert Spread([s1, s2], step) == Spread([s1], step) + [Stroke(step, s2)];
    assert Spread([s1], step) == [Stroke(step, s1)];
    assert 0.01 - 2 as real * step == step;
  }

  /**
    A device reporting a wild pressure is flagged once; a following press
    of button 1 on that device (its pressure still unusable) paints with the
    nominal button pressure, and the device is not flagged again.
   */
  lemma WildPressureThenPress(t: Tracking, mapping: Option<real -> real>, ev: MotionEvent, press: ButtonEvent, pos: Point, pos': Point, cursor: Point)
    requires t.Valid() && t.lastEventTime.Some? && t.lastEventTime.value > 0 && t.badDevices == []
    requires ev.pressure == Some(1000000.0) && ev.state == Modifiers(false, false, false, false)
    requires ev.time > t.lastEventTime.value
    requires press == ButtonEvent(SinglePress, 1, ev.(time := ev.time + 8))
    ensures var (t1, e1) := MotionStep(t, true, None, None, ev, None, pos);
      var (t2, e2) := PressStep(t1, true, None, None, press, pos', cursor);
      t1.badDevices == [ev.device.name] && t2.badDevices == [ev.device.name] &&
      !t2.lastEventHadPressureInfo &&
      |e1.strokes| >= 1 && e1.strokes[|e1.strokes| - 1].sample.pressure == 0.0 &&
      |e2.strokes| == 1 && e2.strokes[0].sample.pressure == ButtonPressure && e2.strokes[0].dtime == 0.008
  {
    WildMotion(t, ev, pos);
    var t1 := MotionStep(t, true, None, None, ev, None, pos).0;
    WildPress(t1, ev.device.name, press, pos', cursor);
  }

  /** The wild event itself: flagged, no pressure info, painted without pressure, buffer flushed. */
  lemma WildMotion(t: Tracking, ev: MotionEvent, pos: Point)
    requires t.Valid() && t.lastEventTime.Some? && t.lastEventTime.value > 0 && t.badDevices == []
    requires ev.pressure == Some(1000000.0) && ev.state == Modifiers(false, false, false, false)
    requires ev.time > t.lastEventTime.value
    ensures var (t1, e1) := MotionStep(t, true, None, None, ev, None, pos);
      t1.badDevices == [ev.device.name] && !t1.lastEventHadPressureInfo && t1.motions == [] &&
      t1.lastEventTime == Some(ev.time) &&
      |e1.strokes| >= 1 && e1.strokes[|e1.strokes| - 1].sample.pressure == 0.0
  {
    MotionStrokes(t, None, ev, None, pos);
    var dtime := (ev.time - t.lastEventTime.value) as real / 1000.0;
    ReplayOrder(t.motions, dtime, EventSample(ev, None, None, pos));
  }

  /**
    A press of button 1 after an event without pressure telemetry, from a
    device whose pressure axis is missing or wild, without modifiers or a
    pressure mapping and some time after the previous event: no straight
    line is asked for, the buffer is flushed followed by one stroke at the
    press position with the nominal button pressure, the elapsed time is
    accounted for, and the press becomes the last painting position.
   */
  lemma PressWithoutPressureInfo(t: Tracking, press: ButtonEvent, pos: Point, cursor: Point)
    requires t.Valid() && HasPrevious(t.lastEventTime) && !t.lastEventHadPressureInfo
    requires press.kind == SinglePress && press.button == 1
    requires press.motion.pressure.None? || Wild(press.motion.pressure.value)
    requires !press.motion.state.shift && !press.motion.state.control && !press.motion.state.alt
    requires press.motion.time > t.lastEventTime.value
    ensures var (t2, e) := PressStep(t, true, None, None, press, pos, cursor);
      var last := e.strokes[|e.strokes| - 1];
      e.straightLines == [] && e.drags == [] && |e.strokes| == |t.motions| + 1 &&
      last.sample.pressure == ButtonPressure && last.sample.x == pos.x && last.sample.y == pos.y &&
      TotalTime(e.strokes) == (press.motion.time - t.lastEventTime.value) as real / 1000.0 &&
      !t2.lastEventHadPressureInfo && t2.motions == [] && t2.lastPaintingPos == Some(pos)
  {
    var ev := press.motion;
    var dtime := (ev.time - t.lastEventTime.value) as real / 1000.0;
    var sample := EventSample(ev, Some(true), None, pos);
    var (tm, em) := MotionStep(t, true, None, None, ev, Some(true), pos);
    PressCases(t, true, None, None, press, pos, cursor);
    assert PressStep(t, true, None, None, press, pos, cursor) == (tm, NoEffects.Then(em));
    assert NoEffects.Then(em).strokes == em.strokes;
    assert !ReadPressure(ev.pressure, true).hadInfo;
    assert sample.pressure == ButtonPressure;
    MotionStrokes(t, None, ev, Some(true), pos);
    MotionCases(t, true, None, None, ev, Some(true), pos);
    assert tm == PaintStep(Touch(t, ev).0, None, ev, Some(true), pos, dtime).0;
  }

  /**
    The pen-up stroke: on a sensitive widget with no drag in progress and no
    pressure mapping, releasing button 1 after an event without pressure info,
    with no usable pressure axis and no modifiers, flushes the buffer with one
    last stroke at the release position with pressure 0, accounts for the time
    since the last event, and leaves the last painting position where it was.
   */
  lemma ReleaseWithoutPressureInfo(t: Tracking, release: ButtonEvent, pos: Point)
    requires t.Valid() && HasPrevious(t.lastEventTime) && !t.lastEventHadPressureInfo
    requires release.button == 1
    requires release.motion.pressure.None? || Wild(release.motion.pressure.value)
    requires !release.motion.state.shift && !release.motion.state.control && !release.motion.state.alt
    requires release.motion.time > t.lastEventTime.value
    ensures var (t2, e) := ReleaseStep(t, true, None, None, release, pos);
      var last := e.strokes[|e.strokes| - 1];
      e.straightLines == [] && e.drags == [] && |e.strokes| == |t.motions| + 1 &&
      last.sample.pressure == 0.0 && last.sample.x == pos.x && last.sample.y == pos.y &&
      TotalTime(e.strokes) == (release.motion.time - t.lastEventTime.value) as real / 1000.0 &&
      !t2.lastEventHadPressureInfo && t2.motions == [] && t2.lastPaintingPos == t.lastPaintingPos
  {
    var ev := release.motion;
    var dtime := (ev.time - t.lastEventTime.value) as real / 1000.0;
    var sample := EventSample(ev, Some(false), None, pos);
    var (tm, em) := MotionStep(t, true, None, None, ev, Some(false), pos);
    assert ReleaseStep(t, true, None, None, release, pos) == (tm, em);
    assert !ReadPressure(ev.pressure, false).hadInfo;
    assert sample.pressure == 0.0;
    MotionStrokes(t, None, ev, Some(false), pos);
    MotionCases(t, true, None, None, ev, Some(false), pos);
    assert tm == PaintStep(Touch(t, ev).0, None, ev, Some(false), pos, dtime).0;
  }

  /** The press after it: the button's nominal pressure, 8 ms of stroke, no second warning. */
  lemma WildPress(t1: Tracking, name: string, press: ButtonEvent, pos': Point, cursor: Point)
    requires t1.Valid() && t1.badDevices == [name] && !t1.lastEventHadPressureInfo && t1.motions == []
    requires t1.lastEventTime.Some? && t1.lastEventTime.value > 0
    requires press.kind == SinglePress && press.button == 1 && press.motion.device.name == name
    requires press.motion.pressure == Some(1000000.0) && press.motion.state == Modifiers(false, false, false, false)
    requires press.motion.time == t1.lastEventTime.value + 8
    ensures var (t2, e2) := PressStep(t1, true, None, None, press, pos', cursor);
      t2.badDevices == [name] && !t2.lastEventHadPressureInfo &&
      |e2.strokes| == 1 && e2.strokes[0].sample.pressure == ButtonPressure && e2.strokes[0].dtime == 0.008
  {
    var ev := press.motion;
    var sample := EventSample(ev, Some(true), None, pos');
    var (tm, em) := MotionStep(t1, true, None, None, ev, Some(true), pos');
    assert PressStep(t1, true, None, None, press, pos', cursor) == (tm, NoEffects.Then(em));
    assert (ev.time - t1.lastEventTime.value) as real / 1000.0 == 0.008;
    MotionCases(t1, true, None, None, ev, Some(true), pos');
    assert tm == PaintStep(Touch(t1, ev).0, None, ev, Some(true), pos', 0.008).0;
    assert sample.pressure == ButtonPressure;
    MotionStrokes(t1, None, ev, Some(true), pos');
    assert Replay([], 0.008, sample) == [Stroke(0.008, sample)];
  }
}
