/** Types shared by every part of the timeline model. */
module Common {

  /** A value that may be absent (`undefined` / `null` in the source). */
  datatype Option<+T> = None | Some(value: T)

  /** Issue and block identifiers are opaque strings. */
  type Id = string

  /** A calendar date, as a day number: one unit is one day. */
  type Day = int

  /** A block's horizontal placement on the chart, in pixels. */
  datatype Position = Position(marginLeft: real, width: real)

  /** A date patch sent to the persistence layer: `{id, start_date?, target_date?}`. */
  datatype DatePatch = DatePatch(id: Id, startDate: Option<Day>, targetDate: Option<Day>)

  /** Which handle a dependency drag started from. */
  datatype Direction = Left | Right

  /** The store's dependency-drag state while a handle is being dragged. */
  datatype DragState = DragState(sourceBlockId: Id, direction: Direction, mouseX: real, mouseY: real,
                                 targetBlockId: Option<Id>, snapX: Option<real>, snapY: Option<real>)

  function Abs(x: real): (r: real)
    ensures r >= 0.0 && (r == x || r == -x)
  {
    if x < 0.0 then -x else x
  }
}
