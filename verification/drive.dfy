/** The motor-direction outputs of the car: GPIO 6 and 13 feed one motor's
    driver inputs, GPIO 19 and 26 the other's. Each of the five button
    commands writes all four pins with a fixed pattern, whatever they held
    before; there is no guard between commands. */
module Drive {
  import opened Maybe

  datatype Command = Forward | Reverse | LeftTurn | RightTurn | Stop

  /** Levels of GPIO 6, 13, 19 and 26 (true is high). */
  datatype Pins = Pins(gpio6: bool, gpio13: bool, gpio19: bool, gpio26: bool)

  /** All four pins are configured as outputs, initially low. */
  const InitialPins: Pins := Pins(false, false, false, false)

  /** The pattern each command writes. */
  function PinsOf(c: Command): (p: Pins)
    // neither motor ever has both of its driver inputs high
    ensures !(p.gpio6 && p.gpio13) && !(p.gpio19 && p.gpio26)
  {
    match c
    case Forward => Pins(true, false, true, false)
    case Reverse => Pins(false, true, false, true)
    case LeftTurn => Pins(false, true, true, false)
    case RightTurn => Pins(true, false, false, true)
    case Stop => Pins(false, false, false, false)
  }

  /** Which command, if any, left the pins in state `p`. */
  function Classify(p: Pins): (r: Option<Command>)
  {
    match p
    case Pins(true, false, true, false) => Some(Forward)
    case Pins(false, true, false, true) => Some(Reverse)
    case Pins(false, true, true, false) => Some(LeftTurn)
    case Pins(true, false, false, true) => Some(RightTurn)
    case Pins(false, false, false, false) => Some(Stop)
    case _ => None
  }

  /** Issuing a command: the new pin state does not depend on the old one. */
  function Apply(p: Pins, c: Command): (r: Pins)
    ensures Classify(r) == Some(c)
  {
    PinsOf(c)
  }

  /** Issuing a sequence of commands, first to last. */
  function ApplyAll(p: Pins, cs: seq<Command>): Pins
    decreases |cs|
  {
    if |cs| == 0 then p else ApplyAll(Apply(p, cs[0]), cs[1..])
  }

  /** The pins name the command that wrote them, and only patterns a command
      writes are named: `Classify` inverts `PinsOf`. */
  lemma ClassifyInvertsPinsOf(c: Command, p: Pins)
    ensures Classify(PinsOf(c)) == Some(c)
    ensures Classify(p) == Some(c) <==> PinsOf(c) == p
  {
  }

  /** The five patterns are pairwise distinct. */
  lemma PatternsDistinct(c1: Command, c2: Command)
    ensures PinsOf(c1) == PinsOf(c2) <==> c1 == c2
  {
  }

  /** Powering up leaves the car in the stopped pattern. */
  lemma InitialIsStopped()
    ensures Classify(InitialPins) == Some(Stop)
  {
  }

  /** Repeating a command changes nothing. */
  lemma Idempotent(p: Pins, c: Command)
    ensures Apply(Apply(p, c), c) == Apply(p, c)
  {
  }

  /** After any non-empty sequence of commands, the pins hold the pattern of
      the last command issued, whatever came before. */
  lemma {:induction false} LastCommandWins(p: Pins, cs: seq<Command>)
    requires |cs| > 0
    ensures ApplyAll(p, cs) == PinsOf(cs[|cs| - 1])
    decreases |cs|
  {
    if |cs| > 1 {
      LastCommandWins(Apply(p, cs[0]), cs[1..]);
    }
  }
}
