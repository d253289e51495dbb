/** What holds of every state the wizard reaches from Start, whatever the
    input, with the source's double advance of `s` taken as written. The
    mapping string is described exactly: the header and one token per bound
    step, or, from the last undo on, the tokens of the steps bound since. */
module Invariant {
  import opened Types
  import opened StepScript
  import opened Tokens
  import opened Alpha
  import opened Wizard

  /** The tokens of the steps in [lo, hi) that hold a control, in script order. */
  function TokensIn(steps: seq<MappingStep>, lo: nat, hi: nat): (ts: seq<Token>)
    ensures AllBound(ts)
    decreases hi
  {
    if hi <= lo then []
    else if hi - 1 < |steps| && steps[hi - 1].binding != Unbound then
      TokensIn(steps, lo, hi - 1) + [Token(hi - 1, steps[hi - 1].field, steps[hi - 1].binding)]
    else TokensIn(steps, lo, hi - 1)
  }

  /** Each token of a range is the field and control of a bound step in the
      range, and the tokens follow script order. Kept apart from TokensIn so
      that the invariant's proofs do not carry these quantifiers. */
  lemma {:induction false} TokensInSound(steps: seq<MappingStep>, lo: nat, hi: nat)
    ensures forall i :: 0 <= i < |TokensIn(steps, lo, hi)| ==>
              lo <= TokensIn(steps, lo, hi)[i].index < hi
              && TokensIn(steps, lo, hi)[i].index < |steps|
              && steps[TokensIn(steps, lo, hi)[i].index].binding == TokensIn(steps, lo, hi)[i].binding
              && steps[TokensIn(steps, lo, hi)[i].index].field == TokensIn(steps, lo, hi)[i].field
    ensures forall i, j :: 0 <= i < j < |TokensIn(steps, lo, hi)| ==>
              TokensIn(steps, lo, hi)[i].index < TokensIn(steps, lo, hi)[j].index
    decreases hi
  {
    if hi > lo {
      TokensInSound(steps, lo, hi - 1);
      var front := TokensIn(steps, lo, hi - 1);
      var ts := TokensIn(steps, lo, hi);
      if hi - 1 < |steps| && steps[hi - 1].binding != Unbound {
        assert ts == front + [Token(hi - 1, steps[hi - 1].field, steps[hi - 1].binding)];
        assert forall i :: 0 <= i < |front| ==> ts[i] == front[i];
      } else {
        assert ts == front;
      }
    }
  }

  /** What precedes the tokens: the header, unless an undo at step `base > 0`
      replaced the mapping by that step's predecessor's empty snapshot. */
  function Lead(header: string, base: nat): string {
    if base == 0 then header else ""
  }

  /** The mapping string holds exactly the tokens of the bound steps from
      `base` up to `bound`, behind the header when `base` is 0. */
  predicate Shows(m: string, header: string, steps: seq<MappingStep>, base: nat, bound: nat) {
    base <= bound && m == Lead(header, base) + Render(TokensIn(steps, base, bound))
  }

  /** No raw control is bound to two steps. */
  ghost predicate DistinctBindings(steps: seq<MappingStep>) {
    forall i, j :: 0 <= i < |steps| && 0 <= j < |steps| && i != j && steps[i].binding != Unbound
      ==> steps[i].binding != steps[j].binding
  }

  /** Field names are plain words, one per step. */
  ghost predicate PlainDistinctFields(steps: seq<MappingStep>) {
    (forall j :: 0 <= j < |steps| ==> IsFieldName(steps[j].field))
    && (forall i, j :: 0 <= i < j < |steps| ==> steps[i].field != steps[j].field)
  }

  /** A step as the initial table leaves it: unbound, empty snapshot. */
  predicate Blank(m: MappingStep) {
    m.binding == Unbound && m.mapping == ""
  }

  /** Everything but the step-entry fact, given `base`, the step of the last
      undo that took effect (0 when there was none). Steps above `s` and steps
      at odd indices are blank; `s` is even until a quit makes it odd. */
  ghost predicate Core(w: State, header: string, base: nat) {
    |w.steps| == StepCount
    && PlainDistinctFields(w.steps)
    && (forall j :: 0 <= j < |w.steps| && (w.s < j || j % 2 == 1) ==> Blank(w.steps[j]))
    && (if w.done then w.s % 2 == 1 else w.s % 2 == 0)
    && DistinctBindings(w.steps)
    && Shows(w.mapping, header, w.steps, base, w.s)
    && Bounded(w.pulse)
  }

  ghost predicate Inv(w: State, header: string, base: nat) {
    Core(w, header, base) && (Awaiting(w) ==> w.steps[w.s].binding == Unbound)
  }

  /** Backspace or AC_BACK, the keys of the undo branch. */
  predicate IsUndoKey(ev: Event) {
    ev == KeyDown(Backspace) || ev == KeyDown(AcBack)
  }

  /** An undo at `s > 0` makes `s` the new base; every other event keeps it. */
  function NewBase(w: State, ev: Event, base: nat): nat {
    if IsUndoKey(ev) && w.s > 0 then w.s else base
  }

  function NextBase(w: State, f: Frame, base: nat): nat {
    if f.event.Some? then NewBase(w, f.event.value, base) else base
  }

  /** The base after `frames` fed to `w` the way Run feeds them. */
  function RunBase(w: State, frames: seq<Frame>, base: nat): nat
    decreases |frames|
  {
    if !Awaiting(w) || frames == [] then base
    else RunBase(Step(w, frames[0]), frames[1..], NextBase(w, frames[0], base))
  }

  /** A frame whose event is an undo key. */
  predicate UndoFrame(f: Frame) {
    f.event.Some? && IsUndoKey(f.event.value)
  }

  /** Without undo keys the base stays where it was. */
  lemma {:induction false} NoUndoKeepsBase(w: State, frames: seq<Frame>, base: nat)
    requires forall i :: 0 <= i < |frames| ==> !UndoFrame(frames[i])
    ensures RunBase(w, frames, base) == base
    decreases |frames|
  {
    if Awaiting(w) && frames != [] {
      assert !UndoFrame(frames[0]);
      NoUndoKeepsBase(Step(w, frames[0]), frames[1..], base);
    }
  }

  lemma Parity(n: nat)
    ensures (n + 1) % 2 == 1 - n % 2 && (n + 2) % 2 == n % 2
  {
  }

  /** The tokens of a range depend only on the bindings and fields in it. */
  lemma {:induction false} TokensInSame(steps: seq<MappingStep>, steps': seq<MappingStep>, lo: nat, hi: nat)
    requires |steps'| == |steps|
    requires forall j :: lo <= j < hi && j < |steps| ==>
               steps'[j].binding == steps[j].binding && steps'[j].field == steps[j].field
    ensures TokensIn(steps', lo, hi) == TokensIn(steps, lo, hi)
    decreases hi
  {
    if hi > lo {
      TokensInSame(steps, steps', lo, hi - 1);
      var front := TokensIn(steps, lo, hi - 1);
      if hi - 1 < |steps| && steps[hi - 1].binding != Unbound {
        var t := Token(hi - 1, steps[hi - 1].field, steps[hi - 1].binding);
        assert steps'[hi - 1].binding == steps[hi - 1].binding && steps'[hi - 1].field == steps[hi - 1].field;
        assert TokensIn(steps', lo, hi) == front + [t];
        assert TokensIn(steps, lo, hi) == front + [t];
      } else {
        assert hi - 1 < |steps| ==> steps'[hi - 1].binding == Unbound;
        assert TokensIn(steps', lo, hi) == front;
        assert TokensIn(steps, lo, hi) == front;
      }
    }
  }

  /** Unbound steps add no tokens. */
  lemma {:induction false} TokensInSkip(steps: seq<MappingStep>, lo: nat, hi: nat, hi': nat)
    requires hi <= hi'
    requires forall j :: hi <= j < hi' && j < |steps| ==> steps[j].binding == Unbound
    ensures TokensIn(steps, lo, hi') == TokensIn(steps, lo, hi)
    decreases hi'
  {
    if hi' > hi {
      TokensInSkip(steps, lo, hi, hi' - 1);
    }
  }

  /** Every bound step of the range has its token. */
  lemma {:induction false} TokensInComplete(steps: seq<MappingStep>, lo: nat, hi: nat, j: nat)
    requires lo <= j < hi && j < |steps| && steps[j].binding != Unbound
    ensures exists i :: 0 <= i < |TokensIn(steps, lo, hi)| && TokensIn(steps, lo, hi)[i].index == j
    decreases hi
  {
    var ts := TokensIn(steps, lo, hi);
    if j < hi - 1 {
      TokensInComplete(steps, lo, hi - 1, j);
      var front := TokensIn(steps, lo, hi - 1);
      var i :| 0 <= i < |front| && front[i].index == j;
      assert ts[i] == front[i];
    } else {
      assert ts[|ts| - 1].index == j;
    }
  }

  lemma RenderAppend(ts: seq<Token>, t: Token)
    requires AllBound(ts) && t.binding != Unbound
    ensures AllBound(ts + [t])
    ensures Render(ts + [t]) == Render(ts) + RenderToken(t)
  {
    assert (ts + [t])[..|ts|] == ts;
  }

  /** Binding step `s`, with step s+1 unbound, adds exactly its token to the
      tokens up to s+2. */
  lemma BindTokensIn(steps: seq<MappingStep>, lo: nat, s: nat, b: Binding)
    requires lo <= s < |steps| && b != Unbound
    requires s + 1 < |steps| ==> steps[s + 1].binding == Unbound
    ensures TokensIn(steps[s := steps[s].(binding := b)], lo, s + 2)
            == TokensIn(steps, lo, s) + [Token(s, steps[s].field, b)]
  {
    var steps' := steps[s := steps[s].(binding := b)];
    TokensInSame(steps, steps', lo, s);
    TokensInSkip(steps', lo, s + 1, s + 2);
  }

  lemma AppendBehind(lead: string, body: string, tok: string)
    ensures (lead + body) + tok == lead + (body + tok)
  {
  }

  /** Appending the token of an accepted binding keeps the mapping exact. */
  lemma BindShows(m: string, header: string, steps: seq<MappingStep>, base: nat, s: nat, b: Binding)
    requires Shows(m, header, steps, base, s) && s < |steps| && b != Unbound
    requires s + 1 < |steps| ==> steps[s + 1].binding == Unbound
    ensures Shows(m + TokenText(steps[s].field, b), header, steps[s := steps[s].(binding := b)], base, s + 2)
  {
    var ts := TokensIn(steps, base, s);
    var t := Token(s, steps[s].field, b);
    BindTokensIn(steps, base, s, b);
    RenderAppend(ts, t);
    AppendBehind(Lead(header, base), Render(ts), RenderToken(t));
  }

  lemma StartEstablishes(guid: string, name: string, platform: string)
    ensures Inv(Start(guid, name, platform), Header(guid, name, platform), 0)
  {
    var w := Start(guid, name, platform);
    var h := Header(guid, name, platform);
    ScriptShape();
    FieldNamesPlain();
    FieldsDistinct();
    assert TokensIn(w.steps, 0, 0) == [];
    assert h == Lead(h, 0) + Render([]);
    InitialBounded();
  }

  lemma PulsedKeeps(w: State, tick: bool, header: string, base: nat)
    requires Inv(w, header, base)
    ensures Inv(Pulsed(w, tick), header, base)
  {
    if tick {
      TickStaysBounded(w.pulse);
    }
  }

  /** Entering the step the outer loop has reached establishes the full invariant. */
  lemma SettleKeeps(w: State, header: string, base: nat)
    requires Core(w, header, base)
    ensures Inv(Settle(w), header, base)
  {
    if Awaiting(w) {
      var r := Enter(w);
      TokensInSame(w.steps, r.steps, base, w.s);
      assert forall j :: 0 <= j < |r.steps| ==> r.steps[j].field == w.steps[j].field;
      assert PlainDistinctFields(r.steps);
      assert DistinctBindings(r.steps);
      assert Core(r, header, base);
      CoreSame(r, Settle(w), header, base);
    }
  }

  lemma QuitKeeps(w: State, header: string, base: nat)
    requires Inv(w, header, base) && Awaiting(w)
    ensures Core(w.(done := true, s := w.s + 1), header, base)
  {
    var r := w.(done := true, s := w.s + 1);
    assert r.steps == w.steps && r.mapping == w.mapping && r.pulse == w.pulse;
    assert r.s % 2 == 1 by { Parity(w.s); }
    assert Shows(r.mapping, header, r.steps, base, r.s) by { TokensInSkip(w.steps, base, w.s, w.s + 1); }
  }

  lemma SkipKeeps(w: State, header: string, base: nat)
    requires Inv(w, header, base) && Awaiting(w)
    ensures Core(w.(s := w.s + 2), header, base)
  {
    var r := w.(s := w.s + 2);
    assert r.steps == w.steps && r.mapping == w.mapping && r.pulse == w.pulse && !r.done;
    Parity(w.s);
    assert w.s + 1 < |w.steps| ==> Blank(w.steps[w.s + 1]);
    assert Shows(r.mapping, header, r.steps, base, r.s) by { TokensInSkip(w.steps, base, w.s, w.s + 2); }
  }

  /** An undo restores the snapshot of step s-1, which is odd and so still
      empty: from here on the mapping shows only steps bound from `s` on. */
  lemma UndoKeeps(w: State, header: string, base: nat)
    requires Inv(w, header, base) && Awaiting(w) && w.s > 0
    ensures w.steps[w.s - 1].mapping == ""
    ensures Core(w.(mapping := w.steps[w.s - 1].mapping), header, w.s)
  {
    Parity(w.s - 1);
    assert Blank(w.steps[w.s - 1]);
    assert TokensIn(w.steps, w.s, w.s) == [];
    assert Shows("", header, w.steps, w.s, w.s);
  }

  /** A binding not held below `s`, placed where every later step is unbound,
      keeps the bindings distinct. */
  lemma BindDistinct(steps: seq<MappingStep>, s: nat, b: Binding)
    requires s < |steps| && b != Unbound && DistinctBindings(steps)
    requires !TakenBelow(steps, s, b)
    requires forall j :: s < j < |steps| ==> steps[j].binding == Unbound
    ensures DistinctBindings(steps[s := steps[s].(binding := b)])
  {
  }

  /** An accepted binding keeps the invariant once `s` has moved on by two. */
  lemma BindKeeps(w: State, b: Binding, header: string, base: nat)
    requires Inv(w, header, base) && Awaiting(w) && b != Unbound && !TakenBelow(w.steps, w.s, b)
    ensures Core(Bind(w, b).w.(s := w.s + 2), header, base)
  {
    var steps' := w.steps[w.s := w.steps[w.s].(binding := b)];
    var m' := w.mapping + TokenText(w.steps[w.s].field, b);
    var r := State(steps', w.s + 2, m', false, w.pulse);
    forall j | w.s < j < |w.steps|
      ensures w.steps[j].binding == Unbound
    {
      assert Blank(w.steps[j]);
    }
    assert Core(r, header, base) by {
      assert PlainDistinctFields(steps') by {
        assert forall j :: 0 <= j < |steps'| ==> steps'[j].field == w.steps[j].field;
      }
      assert (w.s + 2) % 2 == 0 by {
        Parity(w.s);
      }
      assert forall j :: 0 <= j < |steps'| && (w.s + 2 < j || j % 2 == 1) ==> Blank(steps'[j]);
      BindDistinct(w.steps, w.s, b);
      BindShows(w.mapping, header, w.steps, base, w.s, b);
    }
    CoreSame(r, Bind(w, b).w.(s := w.s + 2), header, base);
  }

  /** The four ways an event can end the inner loop: an accepted binding, a
      quit, a skip, an undo; only the last is an undo key. */
  lemma ExitCases(w: State, ev: Event)
    requires Awaiting(w)
    requires HandleEvent(w, ev).next || HandleEvent(w, ev).w.done
    ensures var o := HandleEvent(w, ev);
            || (!IsUndoKey(ev) && Candidate(ev).Some? && !TakenBelow(w.steps, w.s, Candidate(ev).value)
                && o.w == Bind(w, Candidate(ev).value).w)
            || (!IsUndoKey(ev) && o.w == w.(done := true))
            || (!IsUndoKey(ev) && o.w == w.(s := w.s + 1))
            || (IsUndoKey(ev) && w.s > 0 && o.w == w.(s := w.s - 1, mapping := w.steps[w.s - 1].mapping))
  {
    match Candidate(ev)
    case Some(b) =>
    case None =>
      match ev
      case KeyDown(k) =>
      case _ =>
  }

  /** An event that ends the step or the session leaves the invariant intact
      up to the entry of the next step. */
  lemma ExitKeeps(w: State, ev: Event, header: string, base: nat)
    requires Inv(w, header, base) && Awaiting(w)
    requires HandleEvent(w, ev).next || HandleEvent(w, ev).w.done
    ensures Core(HandleEvent(w, ev).w.(s := HandleEvent(w, ev).w.s + 1), header, NewBase(w, ev, base))
  {
    ExitCases(w, ev);
    ExitFrom(w, ev, HandleEvent(w, ev).w, header, base);
  }

  /** The case split of ExitKeeps over the state `v` the switch left, taken
      as given so that the switch itself stays folded. */
  lemma ExitFrom(w: State, ev: Event, v: State, header: string, base: nat)
    requires Inv(w, header, base) && Awaiting(w)
    requires || (!IsUndoKey(ev) && Candidate(ev).Some? && !TakenBelow(w.steps, w.s, Candidate(ev).value)
                 && v == Bind(w, Candidate(ev).value).w)
             || (!IsUndoKey(ev) && v == w.(done := true))
             || (!IsUndoKey(ev) && v == w.(s := w.s + 1))
             || (IsUndoKey(ev) && w.s > 0 && v == w.(s := w.s - 1, mapping := w.steps[w.s - 1].mapping))
    ensures Core(v.(s := v.s + 1), header, NewBase(w, ev, base))
  {
    var r := v.(s := v.s + 1);
    if IsUndoKey(ev) {
      UndoKeeps(w, header, base);
      CoreSame(w.(mapping := w.steps[w.s - 1].mapping), r, header, w.s);
    } else if Candidate(ev).Some? && !TakenBelow(w.steps, w.s, Candidate(ev).value)
       && v == Bind(w, Candidate(ev).value).w {
      var b := Candidate(ev).value;
      BindKeeps(w, b, header, base);
      CoreSame(Bind(w, b).w.(s := w.s + 2), r, header, base);
    } else if v == w.(done := true) {
      QuitKeeps(w, header, base);
      CoreSame(w.(done := true, s := w.s + 1), r, header, base);
    } else {
      SkipKeeps(w, header, base);
      CoreSame(w.(s := w.s + 2), r, header, base);
    }
  }

  /** Relays `Core` across an equation between states without unfolding the
      states' definitions together with the invariant. */
  lemma CoreSame(a: State, b: State, header: string, base: nat)
    requires Core(a, header, base) && a == b
    ensures Core(b, header, base)
  {
  }

  /** The switch and the conclusion of lines 311-313 keep the invariant; the
      base moves only on an undo that took effect. */
  lemma ConcludeKeeps(w: State, ev: Event, header: string, base: nat)
    requires Inv(w, header, base) && Awaiting(w)
    ensures Inv(Conclude(HandleEvent(w, ev)), header, NewBase(w, ev, base))
  {
    var o := HandleEvent(w, ev);
    if o.next || o.w.done {
      ExitKeeps(w, ev, header, base);
      ConcludeExit(o, header, NewBase(w, ev, base));
    } else {
      StaysPut(w, ev, header, base);
    }
  }

  /** Concluding a step that ended enters the next one, whatever the switch did. */
  lemma ConcludeExit(o: Outcome, header: string, base: nat)
    requires (o.next || o.w.done) && Core(o.w.(s := o.w.s + 1), header, base)
    ensures Inv(Conclude(o), header, base)
  {
    SettleKeeps(o.w.(s := o.w.s + 1), header, base);
  }

  /** An event that neither ends the step nor quits leaves state and base alone. */
  lemma StaysPut(w: State, ev: Event, header: string, base: nat)
    requires Inv(w, header, base) && Awaiting(w)
    requires !HandleEvent(w, ev).next && !HandleEvent(w, ev).w.done
    ensures Conclude(HandleEvent(w, ev)) == w
    ensures NewBase(w, ev, base) == base
  {
    if IsUndoKey(ev) && w.s > 0 {
      UndoEndsStep(w, ev);
    }
  }

  /** An undo key at `s > 0` always ends the inner loop. */
  lemma UndoEndsStep(w: State, ev: Event)
    requires Awaiting(w) && IsUndoKey(ev) && w.s > 0
    ensures HandleEvent(w, ev).next
  {
  }

  /** Every transition keeps the invariant. */
  lemma StepKeeps(w: State, f: Frame, header: string, base: nat)
    requires Inv(w, header, base) && Awaiting(w)
    ensures Inv(Step(w, f), header, NextBase(w, f, base))
  {
    PulsedKeeps(w, f.tickElapsed, header, base);
    if f.event.Some? {
      ConcludeKeeps(Pulsed(w, f.tickElapsed), f.event.value, header, base);
      assert NewBase(Pulsed(w, f.tickElapsed), f.event.value, base) == NextBase(w, f, base);
    }
  }

  lemma {:induction false} RunKeeps(w: State, frames: seq<Frame>, header: string, base: nat)
    requires Inv(w, header, base)
    ensures Inv(Run(w, frames), header, RunBase(w, frames, base))
    decreases |frames|
  {
    if Awaiting(w) && frames != [] {
      StepKeeps(w, frames[0], header, base);
      RunKeeps(Step(w, frames[0]), frames[1..], header, NextBase(w, frames[0], base));
    }
  }

  /** The step of the last undo that took effect in a session, 0 if none. */
  function SessionBase(guid: string, name: string, platform: string, frames: seq<Frame>): nat {
    RunBase(Start(guid, name, platform), frames, 0)
  }

  /** The state after any input, from the first step of a session. */
  lemma SessionInv(guid: string, name: string, platform: string, frames: seq<Frame>)
    ensures Inv(Run(Start(guid, name, platform), frames), Header(guid, name, platform),
                SessionBase(guid, name, platform, frames))
  {
    StartEstablishes(guid, name, platform);
    RunKeeps(Start(guid, name, platform), frames, Header(guid, name, platform), 0);
  }
}
