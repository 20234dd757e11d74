/**
 * The toolkit types the widgets and applications share: geometry and cursor
 * hit-testing, size policies, widget ids, normalized input events, the
 * dispatch status, mouse interactions and the Shell that collects published
 * messages.
 */
module Core {
  import opened Wrappers

  datatype Point = Point(x: real, y: real)

  datatype Size = Size(width: real, height: real)

  datatype Rectangle = Rectangle(x: real, y: real, width: real, height: real)

  /** `Rectangle::with_size`: a rectangle of the given size at the origin. */
  function WithSize(s: Size): (r: Rectangle)
  {
    Rectangle(0.0, 0.0, s.width, s.height)
  }

  /** Half-open containment: x in [left, right), y in [top, bottom). */
  predicate Contains(r: Rectangle, p: Point)
  {
    r.x <= p.x < r.x + r.width && r.y <= p.y < r.y + r.height
  }

  /** `mouse::Cursor`: a known position, or no cursor at all. */
  datatype Cursor = Available(position: Point) | Unavailable

  /** `Cursor::is_over`: an unavailable cursor is over nothing. */
  predicate IsOver(c: Cursor, bounds: Rectangle)
  {
    c.Available? && Contains(bounds, c.position)
  }

  /** `Cursor::position_in`: the position relative to `bounds`, when over them. */
  function PositionIn(c: Cursor, bounds: Rectangle): (r: Option<Point>)
    ensures r.Some? <==> IsOver(c, bounds)
  {
    if IsOver(c, bounds) then Some(Point(c.position.x - bounds.x, c.position.y - bounds.y)) else None
  }

  /** A size policy. */
  datatype Length = Fill | FillPortion(portion: nat) | Shrink | Fixed(pixels: real)

  /** The payload of a widget `Id`. */
  datatype Internal = Unique(n: nat) | Custom(n: nat, name: string) | Set(items: seq<Internal>)

  datatype Button = Left | Right | Middle | Back | Forward | OtherButton(code: bv16)

  datatype MouseEvent =
    | CursorEntered
    | CursorLeft
    | CursorMoved(position: Point)
    | ButtonPressed(pressed: Button)
    | ButtonReleased(released: Button)
    | WheelScrolled

  datatype TouchEvent =
    | FingerPressed(id: nat, position: Point)
    | FingerMoved(id: nat, position: Point)
    | FingerLifted(id: nat, position: Point)
    | FingerLost(id: nat, position: Point)

  /** A normalized input event; keyboard, window and platform payloads are not modelled. */
  datatype Event = Mouse(mouse: MouseEvent) | Touch(touch: TouchEvent) | Keyboard | Window | PlatformSpecific

  /** A left-button press or a finger press. */
  predicate IsPress(e: Event)
  {
    e == Mouse(ButtonPressed(Left)) || (e.Touch? && e.touch.FingerPressed?)
  }

  /** A left-button release or a finger lift. */
  predicate IsRelease(e: Event)
  {
    e == Mouse(ButtonReleased(Left)) || (e.Touch? && e.touch.FingerLifted?)
  }

  /** The pointer left the window, or a finger was lost. */
  predicate IsLost(e: Event)
  {
    e == Mouse(CursorLeft) || (e.Touch? && e.touch.FingerLost?)
  }

  lemma EventKindsDisjoint(e: Event)
    ensures !(IsPress(e) && IsRelease(e)) && !(IsPress(e) && IsLost(e)) && !(IsRelease(e) && IsLost(e))
  {
  }

  /** Whether an event was consumed by a widget. */
  datatype EventStatus = Ignored | Captured

  /** `mouse::Interaction`; `Idle` is its default. */
  datatype Interaction = Idle | Pointer | Grab | Text | Crosshair

  const DefaultInteraction: Interaction := Idle

  /** The side channel of one dispatch pass: published messages, in order. */
  class Shell<M> {
    var messages: seq<M>

    constructor ()
      ensures messages == []
    {
      messages := [];
    }

    method Publish(m: M)
      modifies this
      ensures messages == old(messages) + [m]
    {
      messages := messages + [m];
    }
  }
}
