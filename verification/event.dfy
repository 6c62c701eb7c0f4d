/** The input events a widget receives. */
module Events {

  /** `mouse::Button`; `Other` carries the raw button code. */
  datatype Button = Left | Right | Middle | Other(code: nat)

  /** `mouse::Event`. */
  datatype MouseEvent =
    | CursorEntered
    | CursorLeft
    | CursorMoved(x: real, y: real)
    | ButtonPressed(button: Button)
    | ButtonReleased(button: Button)
    | WheelScrolled

  /** `Event`: mouse events are distinguished; keyboard and window events are
      opaque because no widget here reacts to them. */
  datatype Event = Mouse(mouse: MouseEvent) | Keyboard | Window
}
