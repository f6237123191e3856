/**
 * The `CustomCursor` component (src/App.jsx): a dot drawn at the raw pointer
 * position and a ring that follows it, both restyled while the pointer is
 * over a link or button.
 */
module Cursor {
  import opened Wrappers
  import Theme

  /** Both raw coordinates start here, off the visible page. */
  const Offscreen: int := -100

  /** The raw state the component overwrites on each event. */
  datatype Pointer = Pointer(x: int, y: int, hovering: bool)

  const InitialPointer: Pointer := Pointer(Offscreen, Offscreen, false)

  /** The window and element events the component listens to. */
  datatype PointerEvent = MouseMove(clientX: int, clientY: int) | MouseEnter | MouseLeave

  /** One handler: `moveCursor`, `handleMouseEnter` or `handleMouseLeave`. */
  function Step(p: Pointer, e: PointerEvent): (q: Pointer)
    ensures e.MouseMove? ==> q.x == e.clientX && q.y == e.clientY && q.hovering == p.hovering
    ensures !e.MouseMove? ==> q.x == p.x && q.y == p.y && q.hovering == e.MouseEnter?
  {
    match e
    case MouseMove(cx, cy) => p.(x := cx, y := cy)
    case MouseEnter => p.(hovering := true)
    case MouseLeave => p.(hovering := false)
  }

  /** The raw state after a run of events since mount. */
  function Replay(events: seq<PointerEvent>): Pointer {
    if events == [] then InitialPointer
    else Step(Replay(events[..|events| - 1]), events[|events| - 1])
  }

  /** The coordinates of the last move in `events`, if there is one. */
  function LastMove(events: seq<PointerEvent>): Option<(int, int)> {
    if events == [] then None
    else match events[|events| - 1]
      case MouseMove(cx, cy) => Some((cx, cy))
      case _ => LastMove(events[..|events| - 1])
  }

  /** Whether the last enter or leave event in `events` is an enter. */
  function LastHoverIsEnter(events: seq<PointerEvent>): bool {
    if events == [] then false
    else match events[|events| - 1]
      case MouseEnter => true
      case MouseLeave => false
      case _ => LastHoverIsEnter(events[..|events| - 1])
  }

  /**
   * The position shown is that of the latest move, or the off-screen start
   * when there has been none; the hover flag is set by the latest enter or
   * leave, and clear when there has been neither.
   */
  lemma {:induction false} ReplayIsLatest(events: seq<PointerEvent>)
    ensures var p := Replay(events);
            && (p.x, p.y) == (match LastMove(events) case Some(xy) => xy case None => (Offscreen, Offscreen))
            && p.hovering == LastHoverIsEnter(events)
  {
    if events != [] {
      ReplayIsLatest(events[..|events| - 1]);
    }
  }

  /** The animated properties of the dot and the ring. */
  datatype Style = Style(dotScale: real, ringScale: real, ringBackground: string,
                         ringBorder: Option<string>, dotColor: string, ringColor: string)

  function DotColor(theme: string): string {
    if theme == Theme.Dark then "bg-fuchsia-400" else "bg-violet-600"
  }

  function RingColor(theme: string): string {
    if theme == Theme.Dark then "border-fuchsia-400" else "border-violet-600"
  }

  function RingFill(theme: string): string {
    if theme == Theme.Dark then "rgba(232, 121, 249, 0.2)" else "rgba(124, 58, 237, 0.1)"
  }

  /** The style for a theme and hover flag; no border override when not hovering. */
  function Render(theme: string, hovering: bool): Style {
    Style(if hovering then 0.0 else 1.0,
          if hovering then 2.5 else 1.0,
          if hovering then RingFill(theme) else "transparent",
          if hovering then Some("transparent") else None,
          DotColor(theme), RingColor(theme))
  }

  /**
   * While hovering, the dot shrinks to nothing and the ring grows 2.5 times
   * and is filled; otherwise both stay at their natural size and the ring
   * is hollow. Any theme other than "dark" is drawn as the light one.
   */
  lemma HoverStyle(theme: string, hovering: bool)
    ensures var s := Render(theme, hovering);
            && (hovering ==> s.dotScale == 0.0 && s.ringScale == 2.5 && s.ringBackground != "transparent")
            && (!hovering ==> s.dotScale == 1.0 && s.ringScale == 1.0 && s.ringBackground == "transparent")
            && (theme != Theme.Dark ==> s == Render(Theme.Light, hovering))
  {
  }

  /** A leave restores the resting style at once, whatever came before. */
  lemma LeaveRestoresRestingStyle(theme: string, events: seq<PointerEvent>)
    ensures Render(theme, Replay(events + [MouseLeave]).hovering) == Render(theme, false)
  {
    assert (events + [MouseLeave])[..|events|] == events;
  }

  /** The component's mutable state: two motion values and a state flag. */
  class CustomCursor {
    var mouseX: int
    var mouseY: int
    var isHovering: bool

    function State(): Pointer
      reads this
    {
      Pointer(mouseX, mouseY, isHovering)
    }

    constructor ()
      ensures State() == InitialPointer
    {
      mouseX, mouseY, isHovering := Offscreen, Offscreen, false;
    }

    method MoveCursor(clientX: int, clientY: int)
      modifies this
      ensures State() == Step(old(State()), MouseMove(clientX, clientY))
    {
      mouseX := clientX;
      mouseY := clientY;
    }

    method HandleMouseEnter()
      modifies this
      ensures State() == Step(old(State()), MouseEnter)
    {
      isHovering := true;
    }

    method HandleMouseLeave()
      modifies this
      ensures State() == Step(old(State()), MouseLeave)
    {
      isHovering := false;
    }
  }
}
