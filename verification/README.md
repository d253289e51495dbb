# Controller-mapping wizard of the SDL Swift test program

This project models the mapping wizard inside `watchJoystick` in
`Xcode/SDLTest/SwiftTest/main.swift`. The wizard walks the user through a fixed
script of 21 logical inputs (`x`, `a`, `b`, … `righty`). For each one it waits
for a raw joystick control: an axis pushed past the dead zone, a hat leaving
the centre, or a button being released. It records the control in the current
step and appends a `field:code,` token to a mapping string that starts
`GUID,name,platform:P,`. Space or a pointer press skips a step, Backspace or
AC_BACK undoes, and Escape or a quit request ends the session. The mapping is
printed only if the step index ends equal to the number of steps.

The model is pure. A `Wizard.State` holds the step table, the index `s`, the
mapping string, the `done` flag and the highlight pulse (alpha and its step).
`Wizard.Step(state, frame)` is one pass of the inner event loop. A frame is a
"5 ms elapsed" flag plus the event `SDL_PollEvent` returned, if any. When the
event ends the step or the session, `Step` also performs the outer loop's
`s += 1` and enters the next step. `Wizard.Run` feeds a sequence of frames, and
`Wizard.WatchJoystick` gives the function's result: its return value, whether
the loop ended on the given input, and the printed line.

Modules: `Types` (bytes, `int16`, `Option`), `Decimal` (numerals),
`StepScript` (the step table), `Tokens` (token text and a parser for it),
`Alpha` (the pulse), `Wizard` (the state machine), `StepFacts` (one lemma per
event kind), `Invariant` (what every reachable state satisfies) and `Session`
(consequences for whole sessions).

## Behaviour as written

The model follows the code, not the intent described around it. After every
inner-loop exit, the outer loop increments `s` a second time (line 313), on top
of the increment done by the event switch. The model keeps this, and the
verified lemmas spell out what follows from it:

- An accepted binding or a skip advances `s` by two. An undo (`s -= 1`, then
  `+= 1`) leaves `s` where it was. A quit advances it by one.
- While the wizard waits, `s` is always even. The ten steps at odd indices
  (`a`, `y`, `guide`, `dpleft`, `dpright`, `leftshoulder`, `rightshoulder`,
  `leftstick`, `leftx`, `rightx`) are never entered
  (`Session.OddStepsNeverEntered`).
- Undo restores the snapshot of step `s-1`. That step is odd, so it was never
  entered and its snapshot is still the initial empty string. Every undo after
  step 0 therefore empties the mapping string, header included
  (`Session.UndoEmptiesMapping`). Bindings made after that produce a line made
  of tokens only.
- The line is printed exactly when the session ends with a quit or Escape at
  step 20, the last step: `s` becomes 21. A binding or skip at step 20 moves
  `s` to 22, so nothing is printed (`Session.PrintedOnlyAfterQuitAtLastStep`).
  A line such as `G,N,platform:P,a:b3,leftx:a0,` cannot be produced, because
  both of those fields are at odd indices (`Session.PrintedFieldsAtEvenSteps`).
- After an undo, the steps bound earlier keep their bindings, but their tokens
  are gone from the mapping string. Those controls stay taken: pressing one
  again is refused as a duplicate, so it cannot be bound again in that session
  (`Session.ExampleUndoForgetsToken`). A printed line therefore holds the
  header and every binding's token when no undo took effect, and otherwise
  exactly the tokens of the steps bound from the last undo on
  (`Session.PrintedLineDecodes`, `Session.PrintedWithoutUndo`).
- `watchJoystick` always returns `false` (lines 112 and 326), so the caller's
  reattach loop ends after one session.
- The header (line 171) is written without escaping. It reads back as GUID,
  name and platform only when none of them contains a comma
  (`Wizard.HeaderRoundTrip`); a controller name with a comma shifts every
  later field.

Each raw control is bound to at most one step. Undo does not clear the binding
of the step before the current one. However, that step is odd and so was never
bound.

## Model

| member | source | states |
|---|---|---|
| StepScript.ScriptShape | Xcode/SDLTest/SwiftTest/main.swift:87-109 | the script has 21 steps; every step starts unbound with an empty snapshot |
| StepScript.FieldNamesPlain | Xcode/SDLTest/SwiftTest/main.swift:87-109 | every field name of the script is a non-empty lower-case word, so it holds no ':' or ',' |
| StepScript.FieldsDistinct | Xcode/SDLTest/SwiftTest/main.swift:87-109 | no two steps of the script prompt for the same field name |
| Decimal.Dec | Xcode/SDLTest/SwiftTest/main.swift:235 | the numeral of a raw id is a non-empty string of decimal digits, one digit long exactly for values below 10, and starts with `0` only for 0 itself (no leading zero) |
| Decimal.ParseDec | Xcode/SDLTest/SwiftTest/main.swift:235 | a string reads as a number exactly when it is a non-empty run of digits |
| Decimal.ParseDecRoundTrip | Xcode/SDLTest/SwiftTest/main.swift:235 | every printed numeral reads back as the number it came from |
| Tokens.Code | Xcode/SDLTest/SwiftTest/main.swift:233-275 | the code of a binding starts with `a`, `b` or `h` and contains neither ',' nor ':' |
| Tokens.CodeRoundTrip | Xcode/SDLTest/SwiftTest/main.swift:255 | `aN`, `bN` and `hH.V` each parse back to the axis, button, or hat-and-position binding they were written from |
| Tokens.EntryRoundTrip | Xcode/SDLTest/SwiftTest/main.swift:235 | `field:code` parses back to the field name and the binding |
| Tokens.CodeExamples | Xcode/SDLTest/SwiftTest/main.swift:233-256 | axis 12 at field `b` is written `b:a12,` and hat 1 at raw position 4 is written `b:h1.4,`: the axis numeral is decimal, and the hat id comes before the position |
| Tokens.TokenTextRoundTrip | Xcode/SDLTest/SwiftTest/main.swift:233-275 | the text one accepted binding appends, `field:code,`, reads back as a single entry holding that field name and binding |
| Tokens.ParseRenderRoundTrip | Xcode/SDLTest/SwiftTest/main.swift:233-275 | a run of comma-terminated tokens parses back to each token's field name and binding, in order |
| Alpha.Tick | Xcode/SDLTest/SwiftTest/main.swift:202-212 | after a tick the step is -1 (255) when alpha is 255, +1 when alpha is below 128, and otherwise unchanged |
| Alpha.InitialBounded | Xcode/SDLTest/SwiftTest/main.swift:117-118 | the initial pulse (alpha 200, step -1) lies within the bounds |
| Alpha.TickStaysBounded | Xcode/SDLTest/SwiftTest/main.swift:202-212 | within [127, 255] the wrapping addition never wraps: each tick moves alpha by exactly one in the current direction, and the bounds and direction rules are kept |
| Wizard.Pulsed | Xcode/SDLTest/SwiftTest/main.swift:201-212 | when 5 ms have passed the pulse takes one step of the alpha ping-pong (`Alpha.Tick`); the steps, `s`, the mapping and `done` are untouched, and without a tick nothing changes |
| Wizard.Scan | Xcode/SDLTest/SwiftTest/main.swift:226-232 | the dedup search returns the first earlier step holding the same raw control, or `s` when there is none |
| Wizard.Enter | Xcode/SDLTest/SwiftTest/main.swift:177-184 | entering step `s` sets its snapshot to the current mapping and clears its binding; no other step, and nothing else in the state, changes |
| Wizard.Candidate | Xcode/SDLTest/SwiftTest/main.swift:224-275 | an event offers a binding exactly when it is a button release, an axis reading above 20000 in absolute value and other than -32768, or a hat position other than centred; the binding offered is that axis, that button, or that hat at that position |
| Wizard.Bind | Xcode/SDLTest/SwiftTest/main.swift:226-275 | a binding is accepted exactly when no earlier step holds it; when accepted, the current step records it, exactly one token is appended and `s` goes up by one; when refused, nothing changes |
| Wizard.HandleEvent | Xcode/SDLTest/SwiftTest/main.swift:222-311 | an event that sets neither `next` nor `done` changes nothing; one that sets `next` keeps all earlier steps; a quit only sets `done` |
| Wizard.Conclude | Xcode/SDLTest/SwiftTest/main.swift:175-313 | when the pass set `next` or `done`, `s` goes up by one more and only the step entered next changes; otherwise the state is left as the switch made it |
| Wizard.Step | Xcode/SDLTest/SwiftTest/main.swift:201-313 | `s` never decreases and grows by at most two per pass; it grows by exactly one exactly when the pass quits; if `s` stays put and the session goes on, earlier steps are unchanged |
| Wizard.Header | Xcode/SDLTest/SwiftTest/main.swift:171 | the initial mapping is at least three characters long and ends with a comma, so the first token starts a field of its own |
| Wizard.ReadHeader | Xcode/SDLTest/SwiftTest/main.swift:171 | reading a header as three comma-ended fields, the last tagged `platform:`, accepts only strings that are exactly the header of the GUID, name and platform it returns |
| Wizard.HeaderRoundTrip | Xcode/SDLTest/SwiftTest/main.swift:171 | the initial mapping `GUID,name,platform:P,` reads back as that GUID, name and platform whenever none of the three holds a comma |
| Wizard.Start | Xcode/SDLTest/SwiftTest/main.swift:169-184 | a session starts waiting at step 0 with the header as its mapping, the header saved as step 0's snapshot, and alpha 200 moving down |
| Wizard.Run | Xcode/SDLTest/SwiftTest/main.swift:175-314 | running frames never lowers `s` and advances it by at most two per frame while waiting; once the loop has ended, further frames change nothing |
| Wizard.WatchJoystick | Xcode/SDLTest/SwiftTest/main.swift:316-326 | the function always returns `false`, and it prints a line only when its loop has ended |
| StepFacts.NoEventOnlyPulses | Xcode/SDLTest/SwiftTest/main.swift:201-222 | a pass with no event changes only the highlight |
| StepFacts.WeakAxisIgnored | Xcode/SDLTest/SwiftTest/main.swift:225 | an axis reading within ±20000, or exactly -32768, changes neither `s`, the mapping nor any step |
| StepFacts.CenteredHatIgnored | Xcode/SDLTest/SwiftTest/main.swift:242-244 | a centred hat event never binds and changes nothing but the highlight |
| StepFacts.DuplicateIgnored | Xcode/SDLTest/SwiftTest/main.swift:226-270 | a raw axis, button, or hat-and-position pair already held by an earlier step is refused: no token, no advance, no change |
| StepFacts.FreshBindingAccepted | Xcode/SDLTest/SwiftTest/main.swift:233-275 | a fresh binding is recorded in the current step with exactly one token appended; `s` advances by two, the step in between is untouched, and the next step is entered |
| StepFacts.UndoRestoresSnapshot | Xcode/SDLTest/SwiftTest/main.swift:283-291 | undo at `s > 0` leaves `s` unchanged, sets the mapping to step s-1's snapshot and re-enters step `s` with it; at `s == 0` nothing changes |
| StepFacts.SkipAppendsNothing | Xcode/SDLTest/SwiftTest/main.swift:277-298 | a finger press, mouse press or Space appends nothing, advances `s` by two and changes no step other than the one entered |
| StepFacts.QuitEndsSession | Xcode/SDLTest/SwiftTest/main.swift:300-306 | a quit request, or Escape falling through to it, only sets `done` and adds one to `s` |
| StepFacts.OtherEventsInert | Xcode/SDLTest/SwiftTest/main.swift:260-309 | ball motion, other keys and other events change nothing but the highlight |
| StepFacts.MappingChangesOnlyByBindOrUndo | Xcode/SDLTest/SwiftTest/main.swift:222-311 | the mapping string changes only by appending one binding token, or by an undo restoring step s-1's snapshot |
| Invariant.StartEstablishes | Xcode/SDLTest/SwiftTest/main.swift:169-184 | the first state of a session satisfies the invariant |
| Invariant.TokensInSound | Xcode/SDLTest/SwiftTest/main.swift:233-275 | the tokens of a range of steps come only from bound steps of that range, carrying their field and control, in strictly increasing step order |
| Invariant.TokensInComplete | Xcode/SDLTest/SwiftTest/main.swift:233-275 | every bound step of the range has a token |
| Invariant.BindShows | Xcode/SDLTest/SwiftTest/main.swift:233-275 | appending the token of a binding at step `s` gives exactly the mapping of the tokens up to s+2, step s+1 being unbound |
| Invariant.UndoKeeps | Xcode/SDLTest/SwiftTest/main.swift:283-291 | the snapshot an undo restores is the empty string; afterwards the invariant holds with the undo step as the new base, so the mapping shows only tokens of steps bound from there on |
| Invariant.BindKeeps | Xcode/SDLTest/SwiftTest/main.swift:226-275 | an accepted binding keeps the mapping exactly the lead plus the tokens of all bound steps from the base on, keeps raw controls distinct across steps, and keeps the odd and later steps untouched |
| Invariant.StepKeeps | Xcode/SDLTest/SwiftTest/main.swift:201-313 | every pass keeps the invariant: the mapping is exactly the header plus the token of every bound step below `s` (or, after an undo at step u, exactly the tokens of the bound steps in [u, s)); field names and raw controls distinct; odd and later steps blank; alpha in [127, 255]; `s` even until a quit. The base moves to `s` on an undo at `s > 0` and nowhere else |
| Invariant.ConcludeKeeps | Xcode/SDLTest/SwiftTest/main.swift:222-313 | the event switch followed by the extra `s += 1` and the entry of the next step keeps the invariant |
| Invariant.RunKeeps | Xcode/SDLTest/SwiftTest/main.swift:175-314 | any sequence of frames keeps the invariant, with the base following the undos that took effect |
| Invariant.SessionInv | Xcode/SDLTest/SwiftTest/main.swift:169-314 | every state reached from the start of a session satisfies the invariant, with the base being the step of the last effective undo (0 if none) |
| Invariant.NoUndoKeepsBase | Xcode/SDLTest/SwiftTest/main.swift:283-291 | input without undo keys leaves the base where it was, so the header stays in the mapping |
| Session.OddStepsNeverEntered | Xcode/SDLTest/SwiftTest/main.swift:313 | while waiting, `s` is even; odd steps keep their initial contents; alpha stays in [127, 255] |
| Session.PrintedOnlyAfterQuitAtLastStep | Xcode/SDLTest/SwiftTest/main.swift:313-320 | a line is printed if and only if the session quit with `s` at 21, the number of steps |
| Session.EmittedOnlyWhenDone | Xcode/SDLTest/SwiftTest/main.swift:313-320 | in any reachable state, the mapping is printed exactly when the user quit and `s` is 21 |
| Session.UndoEmptiesMapping | Xcode/SDLTest/SwiftTest/main.swift:283-291 | in any reachable state, an undo at `s > 0` sets the mapping to the empty string and leaves `s` unchanged |
| Session.EntriesDistinct | Xcode/SDLTest/SwiftTest/main.swift:226-270 | the tokens of a step table with distinct bindings and field names never repeat a field name or a raw control |
| Session.PrintedLineDecodes | Xcode/SDLTest/SwiftTest/main.swift:316-320 | a printed line is the header and the token of every step bound in the session, or, after an undo, the tokens of the steps bound from the last undo on, and nothing else; the tokens parse back in script order with no field and no raw control repeated |
| Session.PrintedWithoutUndo | Xcode/SDLTest/SwiftTest/main.swift:233-320 | with no Backspace or AC_BACK in the input, a printed line is exactly the header followed by the token of every bound step |
| Session.PrintedFieldsAtEvenSteps | Xcode/SDLTest/SwiftTest/main.swift:87-109 | no printed token names a field at an odd script index, so tokens such as `a:` or `leftx:` never appear |
| Session.TokensAtEvenSteps | Xcode/SDLTest/SwiftTest/main.swift:87-109 | while the odd steps are as the script has them, every token comes from an even step and names no odd step's field |
| Session.FinalMapping | Xcode/SDLTest/SwiftTest/main.swift:233-320 | at `s == 21` the mapping is the lead followed by one token per bound step from the base on, every such step has its token, and the tokens read back distinct and in order |
| Session.QuitAtLastStepPrints | Xcode/SDLTest/SwiftTest/main.swift:300-320 | a quit or Escape at the last step prints the mapping as it stands |
| Session.BindAtLastStepPrintsNothing | Xcode/SDLTest/SwiftTest/main.swift:233-320 | an accepted binding at the last step ends the loop with nothing printed |
| Session.SkipsThenQuit | Xcode/SDLTest/SwiftTest/main.swift:277-313 | n skips then a quit leave the mapping unchanged and advance `s` by 2n + 1 |
| Session.EscapeActsAsQuit | Xcode/SDLTest/SwiftTest/main.swift:300-306 | ending a run with Escape gives the same state as ending it with a quit request |
| Session.ExampleSession | Xcode/SDLTest/SwiftTest/main.swift:171-320 | releasing button 3 at step `x`, then nine skips, then Escape prints `G,N,platform:P,x:b3,` |
| Session.ExampleUndoForgetsToken | Xcode/SDLTest/SwiftTest/main.swift:226-291 | button 3 at step `x`, Backspace, then button 3 again: the mapping is empty, `s` stays 2, step `x` keeps button 3, and the second press changes nothing |

## Left out

- `loadTexture` and all window, renderer and texture calls (creation,
  `SDL_RenderCopyEx`, alpha and colour modulation, `SDL_QueryTexture`). These
  are rendering through an opaque library, so failures while creating
  resources (the early `return false` paths) are not modelled either. The
  wizard returns `false` on those paths as well.
- The marker positions and angles are kept in the table only as data. They
  feed rendering and nothing else. The angle is kept as whole degrees, because
  the table only holds 0.0 and 90.0.
- `SDL_PollEvent`, `SDL_GetTicks` and the 5 ms gate are modelled as input: each
  frame carries an optional event and a "tick elapsed" flag. The final drain
  of the event queue (line 322) has no effect on the model's state and is
  omitted.
- The GUID string, joystick name and platform string come from SDL and are
  parameters. The name is always set before it is used, so the
  `"Unknown Joystick"` fallback is unreachable and not modelled. Logging is
  left out; printing is modelled as `Wizard.Emitted`.
- The top-level program (SDL initialisation, joystick enumeration and logging,
  device-index parsing, and the open/reattach loop) is device I/O and is not
  modelled. Because `watchJoystick` returns `false`, that loop ends after the
  first session. A failed open is reported once, and then the loop ends.
- A session whose input runs out before its loop ends is reported as not
  finished. The real program would keep polling.
- The table row is written through a pointer obtained from
  `withUnsafeMutablePointer` and used after that call returns (lines 177-184).
  Swift leaves such a use undefined. The model reads every write through it as
  a write to `steps[s]`, which is what the program does in practice.
- The four optional fields `axis`, `button`, `hat` and `hat_value` are one
  tagged union. Entering a step clears all four, and each accepted event sets
  exactly one of axis, button or the hat pair, so no reachable state is lost.
