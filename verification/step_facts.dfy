/** What one pass of the inner loop does for each kind of event, stated over
    Wizard.Step with the source's second `s += 1` included. */
module StepFacts {
  import opened Types
  import opened StepScript
  import opened Tokens
  import opened Wizard

  /** Without an event only the highlight moves. */
  lemma NoEventOnlyPulses(w: State, tick: bool)
    requires Awaiting(w)
    ensures Step(w, Frame(tick, None)) == Pulsed(w, tick)
  {
  }

  /** An axis reading inside the dead zone, or the raw minimum -32768,
      changes neither `s`, the mapping string nor any step. */
  lemma WeakAxisIgnored(w: State, tick: bool, a: uint8, v: int16)
    requires Awaiting(w)
    requires -AxisThreshold <= v as int <= AxisThreshold || v == AxisSentinel
    ensures Step(w, Frame(tick, Some(AxisMotion(a, v)))) == Pulsed(w, tick)
  {
  }

  /** A hat returning to the centre never binds. */
  lemma CenteredHatIgnored(w: State, tick: bool, h: uint8)
    requires Awaiting(w)
    ensures Step(w, Frame(tick, Some(HatMotion(h, HatCentered)))) == Pulsed(w, tick)
  {
  }

  /** A raw control already bound to an earlier step (for a hat, the same hat
      at the same position) is refused and nothing but the highlight changes. */
  lemma DuplicateIgnored(w: State, tick: bool, ev: Event, k: nat)
    requires Awaiting(w) && Candidate(ev).Some?
    requires k < w.s && w.steps[k].binding == Candidate(ev).value
    ensures Step(w, Frame(tick, Some(ev))) == Pulsed(w, tick)
  {
  }

  /** A fresh raw control is recorded in the current step, exactly one token
      for it is appended, and `s` moves on by two: one in the event switch and
      one at the end of the outer loop. The step in between is not touched. */
  lemma FreshBindingAccepted(w: State, tick: bool, ev: Event)
    requires Awaiting(w) && Candidate(ev).Some?
    requires forall j :: 0 <= j < w.s ==> w.steps[j].binding != Candidate(ev).value
    ensures var r := Step(w, Frame(tick, Some(ev)));
            var b := Candidate(ev).value;
            && r.s == w.s + 2 && !r.done
            && r.steps[w.s].binding == b
            && r.mapping == w.mapping + TokenText(w.steps[w.s].field, b)
            && (forall j :: 0 <= j < |w.steps| && j != w.s && j != w.s + 2 ==> r.steps[j] == w.steps[j])
            && (w.s + 2 < |w.steps| ==> r.steps[w.s + 2].mapping == r.mapping && r.steps[w.s + 2].binding == Unbound)
  {
    assert !TakenBelow(w.steps, w.s, Candidate(ev).value);
  }

  /** Backspace or AC_BACK at step `s > 0`: `s` drops to s-1 and comes back,
      the mapping string becomes the snapshot of step s-1, and step `s` is
      entered again with that snapshot. At step 0 nothing happens. */
  lemma UndoRestoresSnapshot(w: State, tick: bool, k: Key)
    requires Awaiting(w) && (k == Backspace || k == AcBack)
    ensures var r := Step(w, Frame(tick, Some(KeyDown(k))));
            if w.s > 0 then
              && r.s == w.s && !r.done
              && r.mapping == w.steps[w.s - 1].mapping
              && r.steps[w.s] == w.steps[w.s].(mapping := r.mapping, binding := Unbound)
              && (forall j :: 0 <= j < |w.steps| && j != w.s ==> r.steps[j] == w.steps[j])
            else r == Pulsed(w, tick)
  {
  }

  /** A pointer or finger press, or Space, skips: no token, `s` moves on by two. */
  lemma SkipAppendsNothing(w: State, tick: bool, ev: Event)
    requires Awaiting(w) && (ev == FingerDown || ev == MouseButtonDown || ev == KeyDown(Space))
    ensures var r := Step(w, Frame(tick, Some(ev)));
            && r.s == w.s + 2 && !r.done && r.mapping == w.mapping
            && (forall j :: 0 <= j < |w.steps| && j != w.s + 2 ==> r.steps[j] == w.steps[j])
  {
  }

  /** A quit request, or Escape falling through to it, sets `done`; the outer
      loop still adds one to `s`. */
  lemma QuitEndsSession(w: State, tick: bool, ev: Event)
    requires Awaiting(w) && (ev == Quit || ev == KeyDown(Escape))
    ensures Step(w, Frame(tick, Some(ev))) == Pulsed(w, tick).(done := true, s := w.s + 1)
  {
  }

  /** Ball motion, other keys and other events do nothing. */
  lemma OtherEventsInert(w: State, tick: bool, ev: Event)
    requires Awaiting(w) && (ev == BallMotion || ev == OtherEvent || ev == KeyDown(OtherKey))
    ensures Step(w, Frame(tick, Some(ev))) == Pulsed(w, tick)
  {
  }

  /** The mapping string changes only by an accepted binding, which appends
      its token, or by an undo, which restores the previous step's snapshot. */
  lemma MappingChangesOnlyByBindOrUndo(w: State, f: Frame)
    requires Awaiting(w)
    ensures var r := Step(w, f);
            r.mapping != w.mapping ==>
              || (exists b :: b != Unbound && r.mapping == w.mapping + TokenText(w.steps[w.s].field, b))
              || (w.s > 0 && r.mapping == w.steps[w.s - 1].mapping)
  {
    if f.event.Some? {
      var ev := f.event.value;
      match Candidate(ev)
      case Some(b) =>
      case None =>
    }
  }
}
