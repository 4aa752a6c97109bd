/**
  Values shared by the canvas widget model: the optional wrapper, points,
  the view transform's parameters, input devices and events, and layers.
 */
module Types {

  datatype Option<+T> = None | Some(value: T)

  /** A position in device (screen) or model (document) coordinates. */
  datatype Point = Point(x: real, y: real)

  /**
    The parameters of the device<->model transform: the widget's
    translation_x/translation_y, scale, rotation and mirrored fields.
   */
  datatype Viewport = Viewport(translationX: real, translationY: real, scale: real, rotation: real, mirrored: bool)
  {
    /** The cheap rendering path: no rotation, unit scale, no mirroring, i.e. a pure translation. */
    predicate IsTranslationOnly()
      ensures IsTranslationOnly() <==> this == Viewport(translationX, translationY, 1.0, 0.0, false)
    {
      rotation == 0.0 && scale == 1.0 && !mirrored
    }
  }

  /**
    A cairo coordinate mapping for a given view (device_to_user or
    user_to_device of the context built for that view). The matrix algebra
    is foreign, so the mapping is supplied by the caller.
   */
  type Mapping = (Viewport, Point) -> Point

  /** An input device; `id` stands for the identity of the GDK device object. */
  datatype Device = Device(id: nat, name: string)

  /** The bits of the GDK modifier state that the handlers test. */
  datatype Modifiers = Modifiers(button1: bool, shift: bool, control: bool, alt: bool)

  /**
    A pointer event: time in integer milliseconds, device position, and the
    optional pressure and tilt axes (None when the device has no such axis).
   */
  datatype MotionEvent = MotionEvent(
    time: int, x: real, y: real, device: Device,
    pressure: Option<real>, xtilt: Option<real>, ytilt: Option<real>,
    state: Modifiers)

  /** GDK reports a double or triple click as an extra press event of another type. */
  datatype PressKind = SinglePress | DoublePress | TriplePress

  datatype ButtonEvent = ButtonEvent(kind: PressKind, button: int, motion: MotionEvent)

  /** The identity of a drag callback installed with start_drag. */
  type DragHandle = nat

  /** A document layer; `id` stands for the identity of the layer object. */
  datatype Layer = Layer(id: nat, visible: bool)
}
