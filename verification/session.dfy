/** Consequences for a whole session of watchJoystick, from Start through any
    sequence of frames, of the invariant and of the double advance of `s`. */
module Session {
  import opened Types
  import opened Decimal
  import opened StepScript
  import opened Tokens
  import opened Wizard
  import opened Invariant
  import StepFacts

  /** `s` is even whenever the wizard waits for input, so the steps at odd
      indices (a, y, guide, dpleft, dpright, leftshoulder, rightshoulder,
      leftstick, leftx, rightx) are never entered and keep their initial
      contents. The highlight alpha stays within [127, 255]. */
  lemma OddStepsNeverEntered(guid: string, name: string, platform: string, frames: seq<Frame>)
    ensures var w := Run(Start(guid, name, platform), frames);
            && (Awaiting(w) ==> w.s % 2 == 0)
            && (forall j :: 0 <= j < |w.steps| && j % 2 == 1 ==> w.steps[j] == Script[j])
            && 127 <= w.pulse.alpha <= 255
  {
    SessionInv(guid, name, platform, frames);
    var w0 := Start(guid, name, platform);
    var w := Run(w0, frames);
    ScriptShape();
    forall j | 0 <= j < |w.steps| && j % 2 == 1
      ensures w.steps[j] == Script[j]
    {
      assert SameSlot(w.steps[j], w0.steps[j]);
      assert w0.steps[j] == Script[j];
      assert Blank(w.steps[j]);
    }
  }

  /** The line is printed exactly when the session ended by a quit at the
      last step: a quit leaves `s` odd, and 21 is odd; an accepted binding or
      a skip at step 20 moves `s` to 22. */
  lemma PrintedOnlyAfterQuitAtLastStep(guid: string, name: string, platform: string, frames: seq<Frame>)
    ensures var w := Run(Start(guid, name, platform), frames);
            WatchJoystick(guid, name, platform, frames).line.Some? <==> (w.done && w.s == StepCount)
  {
    SessionInv(guid, name, platform, frames);
    var w := Run(Start(guid, name, platform), frames);
    EmittedOnlyWhenDone(w, Header(guid, name, platform), SessionBase(guid, name, platform, frames));
  }

  /** In any reachable state, `s` equal to the number of steps is odd, which
      only a quit makes it. */
  lemma EmittedOnlyWhenDone(w: State, header: string, base: nat)
    requires Core(w, header, base)
    ensures Emitted(w).Some? <==> (w.done && w.s == StepCount)
  {
  }

  /** Every undo after the first step empties the mapping string, header
      included: it restores the snapshot of step s-1, an odd step whose
      snapshot was never taken. */
  lemma UndoEmptiesMapping(w: State, f: Frame, header: string, base: nat)
    requires Inv(w, header, base) && Awaiting(w) && w.s > 0
    requires f.event == Some(KeyDown(Backspace)) || f.event == Some(KeyDown(AcBack))
    ensures Step(w, f).mapping == "" && Step(w, f).s == w.s
  {
    UndoKeeps(w, header, base);
    StepFacts.UndoRestoresSnapshot(w, f.tickElapsed, f.event.value.key);
    assert f == Frame(f.tickElapsed, Some(KeyDown(f.event.value.key)));
  }

  /** The tokens of a step table with distinct bindings and distinct field
      names never repeat a field name or a raw control. */
  lemma EntriesDistinct(steps: seq<MappingStep>, lo: nat, hi: nat)
    requires DistinctBindings(steps) && PlainDistinctFields(steps)
    ensures var ts := TokensIn(steps, lo, hi);
            && AllValid(ts)
            && (forall i, j :: 0 <= i < j < |ts| ==>
                  Entries(ts)[i].0 != Entries(ts)[j].0 && Entries(ts)[i].1 != Entries(ts)[j].1)
  {
    var ts := TokensIn(steps, lo, hi);
    TokensInSound(steps, lo, hi);
    forall i, j | 0 <= i < j < |ts|
      ensures Entries(ts)[i].0 != Entries(ts)[j].0 && Entries(ts)[i].1 != Entries(ts)[j].1
    {
      assert ts[i].index < ts[j].index;
      assert steps[ts[i].index].binding == ts[i].binding;
      assert steps[ts[i].index].field != steps[ts[j].index].field;
    }
  }

  /** The mapping of a state at `s == 21`: the lead, then one token for each
      bound step from `base` on and for nothing else. The tokens read back in
      script order, with no field and no raw control repeated. */
  lemma FinalMapping(w: State, header: string, base: nat)
    requires Core(w, header, base) && w.s == StepCount
    ensures var ts := TokensIn(w.steps, base, StepCount);
            && w.mapping == Lead(header, base) + Render(ts)
            && AllValid(ts)
            && (forall j :: base <= j < StepCount && w.steps[j].binding != Unbound ==>
                  exists i :: 0 <= i < |ts| && ts[i].index == j)
            && ParseTokens(Render(ts)) == Some(Entries(ts))
            && (forall i, j :: 0 <= i < j < |ts| ==>
                  Entries(ts)[i].0 != Entries(ts)[j].0 && Entries(ts)[i].1 != Entries(ts)[j].1)
  {
    var ts := TokensIn(w.steps, base, StepCount);
    EntriesDistinct(w.steps, base, StepCount);
    ParseRenderRoundTrip(ts);
    forall j | base <= j < StepCount && w.steps[j].binding != Unbound
      ensures exists i :: 0 <= i < |ts| && ts[i].index == j
    {
      TokensInComplete(w.steps, base, StepCount, j);
    }
  }

  /** A printed line is the header followed by the token of every step bound
      in the session, or, when an undo took effect, the tokens of the steps
      bound from the last undo's step on; nothing else. Read back, the tokens
      name each field at most once, bind no raw control twice, and follow the
      script order. */
  lemma PrintedLineDecodes(guid: string, name: string, platform: string, frames: seq<Frame>)
    ensures var header := Header(guid, name, platform);
            var w := Run(Start(guid, name, platform), frames);
            var base := SessionBase(guid, name, platform, frames);
            var ts := TokensIn(w.steps, base, StepCount);
            var line := WatchJoystick(guid, name, platform, frames).line;
            line.Some? ==>
              && line.value == Lead(header, base) + Render(ts)
              && AllValid(ts)
              && (forall j :: base <= j < StepCount && w.steps[j].binding != Unbound ==>
                    exists i :: 0 <= i < |ts| && ts[i].index == j)
              && ParseTokens(Render(ts)) == Some(Entries(ts))
              && (forall i, j :: 0 <= i < j < |ts| ==>
                    Entries(ts)[i].0 != Entries(ts)[j].0 && Entries(ts)[i].1 != Entries(ts)[j].1)
  {
    var w := Run(Start(guid, name, platform), frames);
    SessionInv(guid, name, platform, frames);
    if w.s == |w.steps| {
      FinalMapping(w, Header(guid, name, platform), SessionBase(guid, name, platform, frames));
    }
  }

  /** Without Backspace or AC_BACK, a printed line is the header followed by
      the token of every bound step, in script order. */
  lemma PrintedWithoutUndo(guid: string, name: string, platform: string, frames: seq<Frame>)
    requires forall i :: 0 <= i < |frames| ==> !UndoFrame(frames[i])
    ensures var w := Run(Start(guid, name, platform), frames);
            var line := WatchJoystick(guid, name, platform, frames).line;
            line.Some? ==> line.value == Header(guid, name, platform) + Render(TokensIn(w.steps, 0, StepCount))
  {
    SessionInv(guid, name, platform, frames);
    NoUndoKeepsBase(Start(guid, name, platform), frames, 0);
  }

  /** No printed token names a field at an odd script index: those steps are
      never entered, and field names are distinct. */
  lemma PrintedFieldsAtEvenSteps(guid: string, name: string, platform: string, frames: seq<Frame>)
    ensures var w := Run(Start(guid, name, platform), frames);
            var ts := TokensIn(w.steps, SessionBase(guid, name, platform, frames), StepCount);
            forall i, j :: 0 <= i < |ts| && 0 <= j < StepCount && j % 2 == 1 ==>
              ts[i].index % 2 == 0 && ts[i].field != Script[j].field
  {
    var w := Run(Start(guid, name, platform), frames);
    SessionInv(guid, name, platform, frames);
    OddStepsNeverEntered(guid, name, platform, frames);
    assert forall j :: 0 <= j < |w.steps| && j % 2 == 1 ==> w.steps[j] == Script[j];
    TokensAtEvenSteps(w.steps, SessionBase(guid, name, platform, frames), StepCount);
  }

  /** In a table whose odd steps are still as the script has them, every
      token comes from an even step and names no odd step's field. */
  lemma TokensAtEvenSteps(steps: seq<MappingStep>, lo: nat, hi: nat)
    requires |steps| == StepCount && PlainDistinctFields(steps)
    requires forall j :: 0 <= j < |steps| && j % 2 == 1 ==> steps[j] == Script[j]
    ensures forall i, j :: 0 <= i < |TokensIn(steps, lo, hi)| && 0 <= j < StepCount && j % 2 == 1 ==>
              TokensIn(steps, lo, hi)[i].index % 2 == 0 && TokensIn(steps, lo, hi)[i].field != Script[j].field
  {
    var ts := TokensIn(steps, lo, hi);
    TokensInSound(steps, lo, hi);
    ScriptShape();
    forall i, j | 0 <= i < |ts| && 0 <= j < StepCount && j % 2 == 1
      ensures ts[i].index % 2 == 0 && ts[i].field != Script[j].field
    {
      var k := ts[i].index;
      assert steps[k].binding != Unbound;
      assert k != j;
      assert steps[k].field != steps[j].field;
    }
  }

  /** A quit or Escape at the last step prints the mapping as it stands. */
  lemma QuitAtLastStepPrints(w: State, tick: bool, ev: Event)
    requires Awaiting(w) && |w.steps| == StepCount && w.s == StepCount - 1
    requires ev == Quit || ev == KeyDown(Escape)
    ensures Emitted(Step(w, Frame(tick, Some(ev)))) == Some(w.mapping)
  {
  }

  /** An accepted binding at the last step ends the outer loop with `s` one
      past the number of steps, so nothing is printed. */
  lemma BindAtLastStepPrintsNothing(w: State, tick: bool, ev: Event)
    requires Awaiting(w) && |w.steps| == StepCount && w.s == StepCount - 1
    requires Candidate(ev).Some? && !TakenBelow(w.steps, w.s, Candidate(ev).value)
    ensures !Awaiting(Step(w, Frame(tick, Some(ev))))
    ensures Emitted(Step(w, Frame(tick, Some(ev)))) == None
  {
  }

  function Skips(n: nat): (fs: seq<Frame>)
    ensures |fs| == n
  {
    seq(n, _ => Frame(false, Some(KeyDown(Space))))
  }

  /** `n` skips followed by a quit leave the mapping string as it was and end
      the session with `s` advanced by 2n + 1. */
  lemma {:induction false} SkipsThenQuit(w: State, n: nat)
    requires Awaiting(w) && w.s + 2 * n < |w.steps|
    ensures var r := Run(w, Skips(n) + [Frame(false, Some(Quit))]);
            r.done && r.s == w.s + 2 * n + 1 && r.mapping == w.mapping
    decreases n
  {
    var fs := Skips(n) + [Frame(false, Some(Quit))];
    if n == 0 {
      assert fs == [Frame(false, Some(Quit))];
      assert fs[1..] == [];
    } else {
      var w1 := Step(w, fs[0]);
      assert fs[0] == Frame(false, Some(KeyDown(Space)));
      assert fs[1..] == Skips(n - 1) + [Frame(false, Some(Quit))];
      assert w1.s == w.s + 2 && w1.mapping == w.mapping && Awaiting(w1);
      SkipsThenQuit(w1, n - 1);
    }
  }

  /** A worked session: button 3 released at the first step ("x"), nine
      skips, then Escape at step 20 prints the header and one token. */
  lemma ExampleSession()
    ensures WatchJoystick("G", "N", "P",
              [Frame(false, Some(ButtonUp(3)))] + Skips(9) + [Frame(false, Some(KeyDown(Escape)))]).line
            == Some("G,N,platform:P,x:b3,")
  {
    var w0 := Start("G", "N", "P");
    var first := Frame(false, Some(ButtonUp(3)));
    var restEsc := Skips(9) + [Frame(false, Some(KeyDown(Escape)))];
    var w1 := ExampleFirstStep();
    var frames := [first] + Skips(9) + [Frame(false, Some(KeyDown(Escape)))];
    assert frames == [first] + restEsc;
    assert frames[1..] == restEsc;
    assert Run(w0, frames) == Run(w1, restEsc);
    EscapeActsAsQuit(w1, Skips(9));
    SkipsThenQuit(w1, 9);
    var r := Run(w1, restEsc);
    assert r.s == |r.steps| && r.mapping == w1.mapping;
  }

  lemma ExampleFirstStep() returns (w1: State)
    ensures w1 == Step(Start("G", "N", "P"), Frame(false, Some(ButtonUp(3))))
    ensures Awaiting(w1) && w1.s == 2 && |w1.steps| == StepCount
    ensures w1.mapping == "G,N,platform:P,x:b3,"
  {
    var w0 := Start("G", "N", "P");
    FirstFieldIsX("G", "N", "P");
    assert Header("G", "N", "P") == "G,N,platform:P,";
    w1 := ButtonThreeAtFirstStep(w0);
  }

  /** Button 3 released at step 0, whose field is `x`. */
  lemma ButtonThreeAtFirstStep(w0: State) returns (w1: State)
    requires Awaiting(w0) && w0.s == 0 && |w0.steps| == StepCount && w0.steps[0].field == "x"
    ensures w1 == Step(w0, Frame(false, Some(ButtonUp(3))))
    ensures Awaiting(w1) && w1.s == 2 && |w1.steps| == StepCount
    ensures w1.mapping == w0.mapping + "x:b3,"
    ensures w1.steps[0].binding == Button(3) && w1.steps[1] == w0.steps[1]
  {
    w1 := Step(w0, Frame(false, Some(ButtonUp(3))));
    StepFacts.FreshBindingAccepted(w0, false, ButtonUp(3));
    ButtonThreeText();
  }

  lemma FirstFieldIsX(guid: string, name: string, platform: string)
    ensures Start(guid, name, platform).steps[0].field == "x"
    ensures Start(guid, name, platform).steps[1].mapping == ""
  {
    assert Script[0].field == "x";
    assert Script[1].mapping == "";
  }

  /** Button 3 at step `x`, Backspace, button 3 again: the undo empties the
      mapping and leaves `s` at 2, but step `x` keeps its binding, so the
      second press is refused and changes nothing. The token `x:b3,` is
      gone from the mapping for good. */
  lemma ExampleUndoForgetsToken()
    ensures var f1 := Frame(false, Some(ButtonUp(3)));
            var f2 := Frame(false, Some(KeyDown(Backspace)));
            var w := Run(Start("G", "N", "P"), [f1, f2, f1]);
            && w == Run(Start("G", "N", "P"), [f1, f2])
            && Awaiting(w) && w.s == 2 && w.mapping == "" && w.steps[0].binding == Button(3)
  {
    FirstFieldIsX("G", "N", "P");
    UndoThenRepeat(Start("G", "N", "P"));
  }

  lemma UndoThenRepeat(w0: State)
    requires Awaiting(w0) && w0.s == 0 && |w0.steps| == StepCount
    requires w0.steps[0].field == "x" && w0.steps[1].mapping == ""
    ensures var f1 := Frame(false, Some(ButtonUp(3)));
            var f2 := Frame(false, Some(KeyDown(Backspace)));
            var w := Run(w0, [f1, f2, f1]);
            && w == Run(w0, [f1, f2])
            && Awaiting(w) && w.s == 2 && w.mapping == "" && w.steps[0].binding == Button(3)
  {
    var f1 := Frame(false, Some(ButtonUp(3)));
    var f2 := Frame(false, Some(KeyDown(Backspace)));
    var w1 := ButtonThreeAtFirstStep(w0);
    var w2 := UndoAfterButtonThree(w1);
    RunFirst(w0, [f1, f2, f1]);
    RunFirst(w1, [f2, f1]);
    RunFirst(w2, [f1]);
    RunFirst(w0, [f1, f2]);
    RunFirst(w1, [f2]);
    assert [f1, f2, f1][1..] == [f2, f1] && [f2, f1][1..] == [f1] && [f1][1..] == [];
    assert [f1, f2][1..] == [f2] && [f2][1..] == [];
  }

  /** Backspace at step 2 after button 3 was bound at step 0, then button 3
      again. */
  lemma UndoAfterButtonThree(w1: State) returns (w2: State)
    requires Awaiting(w1) && w1.s == 2 && |w1.steps| == StepCount
    requires w1.steps[0].binding == Button(3) && w1.steps[1].mapping == ""
    ensures w2 == Step(w1, Frame(false, Some(KeyDown(Backspace))))
    ensures Awaiting(w2) && w2.s == 2 && w2.mapping == "" && w2.steps[0].binding == Button(3)
    ensures Step(w2, Frame(false, Some(ButtonUp(3)))) == w2
  {
    w2 := Step(w1, Frame(false, Some(KeyDown(Backspace))));
    StepFacts.UndoRestoresSnapshot(w1, false, Backspace);
    StepFacts.DuplicateIgnored(w2, false, ButtonUp(3), 0);
  }

  lemma RunFirst(w: State, fs: seq<Frame>)
    requires Awaiting(w) && fs != []
    ensures Run(w, fs) == Run(Step(w, fs[0]), fs[1..])
  {
  }

  lemma ButtonThreeText()
    ensures TokenText("x", Button(3)) == "x:b3,"
  {
    assert Dec(3) == "3";
  }

  /** Escape and a quit request end a run alike. */
  lemma {:induction false} EscapeActsAsQuit(w: State, fs: seq<Frame>)
    ensures Run(w, fs + [Frame(false, Some(KeyDown(Escape)))]) == Run(w, fs + [Frame(false, Some(Quit))])
    decreases |fs|
  {
    if Awaiting(w) {
      if fs == [] {
        assert [Frame(false, Some(KeyDown(Escape)))][1..] == [];
        EscapeStepIsQuitStep(w);
      } else {
        assert (fs + [Frame(false, Some(KeyDown(Escape)))])[1..] == fs[1..] + [Frame(false, Some(KeyDown(Escape)))];
        assert (fs + [Frame(false, Some(Quit))])[1..] == fs[1..] + [Frame(false, Some(Quit))];
        EscapeActsAsQuit(Step(w, fs[0]), fs[1..]);
      }
    }
  }

  lemma EscapeStepIsQuitStep(w: State)
    requires Awaiting(w)
    ensures Step(w, Frame(false, Some(KeyDown(Escape)))) == Step(w, Frame(false, Some(Quit)))
  {
  }
}
