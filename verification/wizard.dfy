/** The controller-mapping wizard of watchJoystick (main.swift lines 74-328)
    as a pure state machine. One call of Step is one pass of the inner event
    loop: the alpha tick, at most one polled event, and, when that event ends
    the step, the outer loop's extra `s += 1` and the entry of the next step. */
module Wizard {
  import opened Types
  import opened StepScript
  import opened Tokens
  import opened Alpha

  datatype Key = Backspace | AcBack | Space | Escape | OtherKey

  /** The SDL events the wizard distinguishes. */
  datatype Event =
    | AxisMotion(axis: uint8, value: int16)
    | HatMotion(hat: uint8, position: uint8)
    | BallMotion
    | ButtonUp(button: uint8)
    | FingerDown
    | MouseButtonDown
    | KeyDown(key: Key)
    | Quit
    | OtherEvent

  /** One pass of the inner loop: whether more than 5 ms elapsed since the last
      alpha tick, and the event SDL_PollEvent returned, if any. */
  datatype Frame = Frame(tickElapsed: bool, event: Option<Event>)

  /** The wizard's variables: the step table, the step index `s`, the mapping
      string, the quit flag and the highlight pulse. */
  datatype State = State(
    steps: seq<MappingStep>,
    s: nat,
    mapping: string,
    done: bool,
    pulse: Pulse)

  /** The result of the event switch: new state and the `next` flag. */
  datatype Outcome = Outcome(w: State, next: bool)

  const AxisThreshold: int := 20000
  const AxisSentinel: int16 := -32768
  const HatCentered: uint8 := 0

  /** The outer loop's condition: more steps to go and no quit. */
  predicate Awaiting(w: State) {
    w.s < |w.steps| && !w.done
  }

  /** An axis reading is far enough from the centre to count, and is not the
      raw minimum. */
  predicate AxisQualifies(v: int16) {
    (v as int > AxisThreshold || v as int < -AxisThreshold) && v != AxisSentinel
  }

  /** The first step below `upto`, from `k` on, already bound to `b`, or
      `upto` when none is: the `_s` search loops of the event switch. */
  function Scan(steps: seq<MappingStep>, upto: nat, b: Binding, k: nat): (r: nat)
    requires upto <= |steps| && k <= upto
    ensures k <= r <= upto
    ensures forall j :: k <= j < r ==> steps[j].binding != b
    ensures r < upto ==> steps[r].binding == b
    decreases upto - k
  {
    if k == upto then upto
    else if steps[k].binding == b then k
    else Scan(steps, upto, b, k + 1)
  }

  /** `b` is already bound to a step before `upto`. */
  predicate TakenBelow(steps: seq<MappingStep>, upto: nat, b: Binding)
    requires upto <= |steps|
  {
    exists j :: 0 <= j < upto && steps[j].binding == b
  }

  /** Step entry: snapshot the mapping string into the current step and clear
      its binding (main.swift lines 177-184). */
  function Enter(w: State): (r: State)
    requires w.s < |w.steps|
    ensures |r.steps| == |w.steps| && r.s == w.s && r.mapping == w.mapping
    ensures r.done == w.done && r.pulse == w.pulse
    ensures r.steps[w.s].mapping == w.mapping && r.steps[w.s].binding == Unbound
    ensures SameSlot(r.steps[w.s], w.steps[w.s])
    ensures forall j :: 0 <= j < |w.steps| && j != w.s ==> r.steps[j] == w.steps[j]
  {
    w.(steps := w.steps[w.s := w.steps[w.s].(mapping := w.mapping, binding := Unbound)])
  }

  /** The raw control an event offers for binding, if it offers one: a
      qualifying axis, a non-centred hat position, a released button. */
  function Candidate(ev: Event): (r: Option<Binding>)
    ensures r.Some? ==> r.value != Unbound
    ensures r.Some? <==> (ev.ButtonUp? || (ev.AxisMotion? && AxisQualifies(ev.value))
                          || (ev.HatMotion? && ev.position != HatCentered))
    ensures ev.AxisMotion? && AxisQualifies(ev.value) ==> r == Some(Axis(ev.axis))
    ensures ev.HatMotion? && ev.position != HatCentered ==> r == Some(Hat(ev.hat, ev.position))
    ensures ev.ButtonUp? ==> r == Some(Button(ev.button))
  {
    match ev
    case AxisMotion(a, v) => if AxisQualifies(v) then Some(Axis(a)) else None
    case HatMotion(h, p) => if p == HatCentered then None else Some(Hat(h, p))
    case ButtonUp(n) => Some(Button(n))
    case _ => None
  }

  /** Binding the current step to `b`: refused when an earlier step holds the
      same raw control, otherwise recorded, one token appended, `s` advanced. */
  function Bind(w: State, b: Binding): (o: Outcome)
    requires Awaiting(w) && b != Unbound
    ensures o.next <==> !TakenBelow(w.steps, w.s, b)
    ensures !o.next ==> o.w == w
    ensures o.next ==> o.w.s == w.s + 1 && !o.w.done && o.w.pulse == w.pulse
    ensures o.next ==> o.w.mapping == w.mapping + TokenText(w.steps[w.s].field, b)
    ensures o.next ==> o.w.steps == w.steps[w.s := w.steps[w.s].(binding := b)]
  {
    if Scan(w.steps, w.s, b, 0) == w.s then
      Outcome(w.(steps := w.steps[w.s := w.steps[w.s].(binding := b)],
                 mapping := w.mapping + TokenText(w.steps[w.s].field, b),
                 s := w.s + 1),
              true)
    else Outcome(w, false)
  }

  /** The event switch (main.swift lines 223-310). */
  function HandleEvent(w: State, ev: Event): (o: Outcome)
    requires Awaiting(w)
    ensures |o.w.steps| == |w.steps| && o.w.pulse == w.pulse
    ensures !o.next && !o.w.done ==> o.w == w
    ensures o.next ==> !o.w.done && o.w.steps[..w.s] == w.steps[..w.s]
    ensures o.w.done ==> !o.next && o.w == w.(done := true)
  {
    match Candidate(ev)
    case Some(b) => Bind(w, b)
    case None =>
      match ev
      case FingerDown => Outcome(w.(s := w.s + 1), true)
      case MouseButtonDown => Outcome(w.(s := w.s + 1), true)
      case KeyDown(k) =>
        if k == Backspace || k == AcBack then
          if w.s > 0 then Outcome(w.(s := w.s - 1, mapping := w.steps[w.s - 1].mapping), true)
          else Outcome(w, false)
        else if k == Space then Outcome(w.(s := w.s + 1), true)
        else if k != Escape then Outcome(w, false)
        else Outcome(w.(done := true), false)
      case Quit => Outcome(w.(done := true), false)
      case _ => Outcome(w, false)
  }

  /** The alpha tick at the top of each inner-loop pass, when 5 ms have passed. */
  function Pulsed(w: State, tickElapsed: bool): (r: State)
    ensures r.steps == w.steps && r.s == w.s && r.mapping == w.mapping && r.done == w.done
    ensures !tickElapsed ==> r == w
    ensures tickElapsed ==> r.pulse == Tick(w.pulse)
  {
    if tickElapsed then w.(pulse := Tick(w.pulse)) else w
  }

  /** The outer loop's test: enter step `s` if it goes on. */
  function Settle(w: State): (r: State)
    ensures |r.steps| == |w.steps| && r.s == w.s && r.mapping == w.mapping && r.done == w.done
    ensures Awaiting(r) <==> Awaiting(w)
    ensures Awaiting(w) ==> r == Enter(w)
    ensures !Awaiting(w) ==> r == w
  {
    if Awaiting(w) then Enter(w) else w
  }

  /** Lines 311-313: when the step ended (`next`) or the user quit (`done`),
      the unconditional `s += 1`, then the outer loop's test and, if it goes
      on, the entry of step `s`; otherwise the inner loop polls again. */
  function Conclude(o: Outcome): (r: State)
    ensures |r.steps| == |o.w.steps| && r.mapping == o.w.mapping && r.done == o.w.done
    ensures forall j :: 0 <= j < |o.w.steps| ==> SameSlot(r.steps[j], o.w.steps[j])
    ensures forall j :: 0 <= j < |o.w.steps| && j != r.s ==> r.steps[j] == o.w.steps[j]
    ensures r.s == if o.next || o.w.done then o.w.s + 1 else o.w.s
    ensures !(o.next || o.w.done) ==> r == o.w
  {
    if o.next || o.w.done then Settle(o.w.(s := o.w.s + 1)) else o.w
  }

  /** One pass of the inner loop: the alpha tick, at most one event through
      the switch, and the conclusion of lines 311-313. */
  function Step(w: State, f: Frame): (r: State)
    requires Awaiting(w)
    ensures |r.steps| == |w.steps|
    ensures forall j :: 0 <= j < |w.steps| ==> SameSlot(r.steps[j], w.steps[j])
    ensures w.s <= r.s <= w.s + 2
    ensures r.done <==> r.s == w.s + 1
    ensures r.s == w.s && !r.done ==> r.steps[..w.s] == w.steps[..w.s]
  {
    var w1 := Pulsed(w, f.tickElapsed);
    if f.event.Some? then Conclude(HandleEvent(w1, f.event.value)) else w1
  }

  /** The mapping string as initialised at line 171: GUID, name, platform. */
  function Header(guid: string, name: string, platform: string): (h: string)
    ensures |h| >= 3 && h[|h| - 1] == ','
  {
    guid + "," + name + ",platform:" + platform + ","
  }

  /** The text up to the first comma and the text after it; None without a comma. */
  function NextField(s: string): (r: Option<(string, string)>)
    ensures r.Some? ==> ',' !in r.value.0 && s == r.value.0 + [','] + r.value.1
    ensures r.None? <==> ',' !in s
  {
    var i := FindFirst(s, ',');
    if i == |s| then None
    else
      assert s == s[..i] + [s[i]] + s[i + 1..];
      Some((s[..i], s[i + 1..]))
  }

  lemma NextFieldOf(field: string, rest: string)
    requires ',' !in field
    ensures NextField(field + [','] + rest) == Some((field, rest))
  {
    var s := field + [','] + rest;
    FindFirstAfter(field, ',', rest);
    assert s[..|field|] == field && s[|field| + 1..] == rest;
  }

  /** Splits a header back into GUID, name and platform: three comma-ended
      fields, the last one tagged `platform:`. Whatever it accepts is exactly
      the header of what it returns. */
  function ReadHeader(h: string): (r: Option<(string, string, string)>)
    ensures r.Some? ==> Header(r.value.0, r.value.1, r.value.2) == h
  {
    match NextField(h)
    case None => None
    case Some((guid, afterGuid)) =>
      match NextField(afterGuid)
      case None => None
      case Some((name, afterName)) =>
        match NextField(afterName)
        case None => None
        case Some((tagged, after)) =>
          if after != [] || |tagged| < 9 || tagged[..9] != "platform:" then None
          else
            HeaderFrom(h, guid, afterGuid, name, afterName, tagged);
            Some((guid, name, tagged[9..]))
  }

  /** The header as its five pieces, with the tag written out. */
  lemma HeaderParts(guid: string, name: string, platform: string)
    ensures Header(guid, name, platform) == guid + [','] + (name + [','] + (("platform:" + platform) + [',']))
  {
  }

  /** Three comma-ended fields, the last tagged, make up a header. */
  lemma HeaderFrom(h: string, guid: string, afterGuid: string, name: string, afterName: string, tagged: string)
    requires h == guid + [','] + afterGuid && afterGuid == name + [','] + afterName
    requires afterName == tagged + [','] + [] && |tagged| >= 9 && tagged[..9] == "platform:"
    ensures Header(guid, name, tagged[9..]) == h
  {
    assert tagged == "platform:" + tagged[9..];
    HeaderParts(guid, name, tagged[9..]);
    assert afterName == tagged + [','];
  }

  /** A header whose GUID, name and platform hold no comma reads back as them. */
  lemma HeaderRoundTrip(guid: string, name: string, platform: string)
    requires ',' !in guid && ',' !in name && ',' !in platform
    ensures ReadHeader(Header(guid, name, platform)) == Some((guid, name, platform))
  {
    var tagged := "platform:" + platform;
    var last := tagged + [','];
    var rest := name + [','] + last;
    HeaderParts(guid, name, platform);
    assert ',' !in tagged by {
      assert forall n :: 0 <= n < |tagged| ==> tagged[n] != ',';
    }
    NextFieldOf(guid, rest);
    NextFieldOf(name, last);
    assert last == tagged + [','] + [];
    NextFieldOf(tagged, []);
    assert tagged[..9] == "platform:" && tagged[9..] == platform;
  }

  /** The state in which the outer loop first enters step 0. */
  function Start(guid: string, name: string, platform: string): (w: State)
    ensures Awaiting(w) && w.s == 0 && |w.steps| == StepCount
    ensures w.mapping == Header(guid, name, platform)
    ensures w.steps[0].mapping == w.mapping && w.pulse == Initial
  {
    ScriptShape();
    Enter(State(Script, 0, Header(guid, name, platform), false, Initial))
  }

  /** Feeds frames to the wizard until the outer loop ends or the input runs
      out; frames after the end are not read. */
  function Run(w: State, frames: seq<Frame>): (r: State)
    ensures |r.steps| == |w.steps|
    ensures forall j :: 0 <= j < |w.steps| ==> SameSlot(r.steps[j], w.steps[j])
    ensures w.s <= r.s
    ensures Awaiting(r) ==> r.s <= w.s + 2 * |frames|
    ensures !Awaiting(w) ==> r == w
    decreases |frames|
  {
    if !Awaiting(w) || frames == [] then w else Run(Step(w, frames[0]), frames[1..])
  }

  /** Lines 316-320: the mapping is printed only when `s` ends equal to the
      number of steps. */
  function Emitted(w: State): (r: Option<string>)
    ensures r.Some? <==> w.s == |w.steps|
    ensures r.Some? ==> r.value == w.mapping
  {
    if w.s == |w.steps| then Some(w.mapping) else None
  }

  /** The outcome of watchJoystick for one device: its return value, whether
      the outer loop ended on the given input, and the printed line. */
  datatype WatchResult = WatchResult(keepGoing: bool, finished: bool, line: Option<string>)

  function WatchJoystick(guid: string, name: string, platform: string, frames: seq<Frame>): (r: WatchResult)
    ensures !r.keepGoing
    ensures r.line.Some? ==> r.finished
  {
    var w := Run(Start(guid, name, platform), frames);
    WatchResult(false, !Awaiting(w), Emitted(w))
  }
}
