/** The pulsing highlight of the current step's marker: an 8-bit alpha that
    moves by one per tick in 8-bit wrapping arithmetic and bounces between
    127 and 255 (main.swift lines 117-118 and 202-212). */
module Alpha {
  import opened Types

  /** Alpha value and signed step; the step is stored as a byte, so "minus
      one" is 255 (`UInt8(bitPattern: -1)`). */
  datatype Pulse = Pulse(alpha: uint8, alphaStep: uint8)

  const Down: uint8 := 255
  const Up: uint8 := 1
  const Initial: Pulse := Pulse(200, Down)

  /** `alpha &+ alpha_step`: addition modulo 256. */
  function WrappingAdd(a: uint8, b: uint8): (r: uint8)
    ensures r as int == a as int + b as int || r as int == a as int + b as int - 256
  {
    ((a as int + b as int) % 256) as uint8
  }

  /** One tick: advance, then turn downward at 255 and upward below 128. */
  function Tick(p: Pulse): (r: Pulse)
    ensures r.alpha == 255 ==> r.alphaStep == Down
    ensures r.alpha < 128 ==> r.alphaStep == Up
    ensures 128 <= r.alpha < 255 ==> r.alphaStep == p.alphaStep
  {
    var a := WrappingAdd(p.alpha, p.alphaStep);
    var s := if a == 255 then Down else p.alphaStep;
    Pulse(a, if a < 128 then Up else s)
  }

  /** The states the pulse can be in once started. */
  predicate Bounded(p: Pulse) {
    127 <= p.alpha <= 255
    && (p.alphaStep == Up || p.alphaStep == Down)
    && (p.alpha == 255 ==> p.alphaStep == Down)
    && (p.alpha < 128 ==> p.alphaStep == Up)
  }

  lemma InitialBounded()
    ensures Bounded(Initial)
  {
  }

  /** Within the bounds the addition never wraps: a tick moves alpha by exactly
      one in the current direction, and the bounds are kept. */
  lemma TickStaysBounded(p: Pulse)
    requires Bounded(p)
    ensures Bounded(Tick(p))
    ensures p.alphaStep == Up ==> Tick(p).alpha as int == p.alpha as int + 1
    ensures p.alphaStep == Down ==> Tick(p).alpha as int == p.alpha as int - 1
  {
  }
}
