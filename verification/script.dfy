/** The wizard's fixed script: one MappingStep per logical input, in the order
    the user is prompted (main.swift, the `steps` table inside watchJoystick). */
module StepScript {
  import opened Types

  /** Which sprite marks the step on screen. */
  datatype Marker = ButtonMarker | AxisMarker

  /** The raw control bound to a step. The source keeps four optionals
      (axis, button, hat, hat_value); entering a step clears all four and a
      binding sets exactly one of axis, button or the hat pair, so a tagged
      union holds the same information. */
  datatype Binding =
    | Unbound
    | Axis(axis: uint8)
    | Button(button: uint8)
    | Hat(hat: uint8, hatValue: uint8)

  /** One step of the script. `angleDegrees` is the Double angle of the source,
      which only ever holds 0.0 or 90.0; it and the position feed rendering only.
      `mapping` is the snapshot of the mapping string taken when the step was
      last entered. */
  datatype MappingStep = MappingStep(
    x: int,
    y: int,
    angleDegrees: int,
    marker: Marker,
    field: string,
    binding: Binding,
    mapping: string)

  /** A step as it appears in the initial table: nothing bound, empty snapshot. */
  function Slot(x: int, y: int, angleDegrees: int, marker: Marker, field: string): (m: MappingStep)
    ensures m.binding == Unbound && m.mapping == "" && m.field == field
  {
    MappingStep(x, y, angleDegrees, marker, field, Unbound, "")
  }

  const Script: seq<MappingStep> := [
    Slot(342, 132, 0, ButtonMarker, "x"),
    Slot(387, 167, 0, ButtonMarker, "a"),
    Slot(431, 132, 0, ButtonMarker, "b"),
    Slot(389, 101, 0, ButtonMarker, "y"),
    Slot(174, 132, 0, ButtonMarker, "back"),
    Slot(233, 132, 0, ButtonMarker, "guide"),
    Slot(289, 132, 0, ButtonMarker, "start"),
    Slot(116, 217, 0, ButtonMarker, "dpleft"),
    Slot(154, 249, 0, ButtonMarker, "dpdown"),
    Slot(186, 217, 0, ButtonMarker, "dpright"),
    Slot(154, 188, 0, ButtonMarker, "dpup"),
    Slot(77, 40, 0, ButtonMarker, "leftshoulder"),
    Slot(91, 0, 0, ButtonMarker, "lefttrigger"),
    Slot(396, 36, 0, ButtonMarker, "rightshoulder"),
    Slot(375, 0, 0, ButtonMarker, "righttrigger"),
    Slot(75, 154, 0, ButtonMarker, "leftstick"),
    Slot(305, 230, 0, ButtonMarker, "rightstick"),
    Slot(75, 154, 0, AxisMarker, "leftx"),
    Slot(75, 154, 90, AxisMarker, "lefty"),
    Slot(305, 230, 0, AxisMarker, "rightx"),
    Slot(305, 230, 90, AxisMarker, "righty")
  ]

  const StepCount: nat := 21

  /** Field names are plain lower-case words: never empty and free of the
      separators ':' ',' '.' that the mapping string uses. */
  predicate IsFieldName(f: string) {
    |f| >= 1 && forall i :: 0 <= i < |f| ==> 'a' <= f[i] <= 'z'
  }

  /** Two steps occupy the same slot of the table: everything but the binding
      and the snapshot agrees. */
  predicate SameSlot(a: MappingStep, b: MappingStep) {
    a.x == b.x && a.y == b.y && a.angleDegrees == b.angleDegrees
    && a.marker == b.marker && a.field == b.field
  }

  /** The table has 21 steps and every step starts unbound with an empty snapshot. */
  lemma ScriptShape()
    ensures |Script| == StepCount
    ensures forall j :: 0 <= j < |Script| ==> Script[j].binding == Unbound && Script[j].mapping == ""
  {
  }

  /** Every field name is a plain lower-case word. */
  lemma FieldNamesPlain()
    ensures forall j :: 0 <= j < |Script| ==> IsFieldName(Script[j].field)
  {
    forall j | 0 <= j < |Script|
      ensures IsFieldName(Script[j].field)
    {
      if j < 11 {
        assert Script[j].field in {"x", "a", "b", "y", "back", "guide", "start", "dpleft", "dpdown",
          "dpright", "dpup"};
      } else {
        assert Script[j].field in {"leftshoulder", "lefttrigger", "rightshoulder", "righttrigger",
          "leftstick", "rightstick", "leftx", "lefty", "rightx", "righty"};
      }
    }
  }

  /** No two steps prompt for the same field. */
  lemma FieldsDistinct()
    ensures forall i, j :: 0 <= i < j < |Script| ==> Script[i].field != Script[j].field
  {
  }
}
