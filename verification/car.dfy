/** One iteration of the car's distance sampler (`read_distance` in
    carrito.py) with the ultrasonic measurement taken as an input, plus the
    operator's drive buttons, as events on one immutable car state. The
    locked append/stop/evict section and the GUI refresh around it are one
    atomic step. */
module Car {
  import opened Maybe
  import opened History
  import opened Leds
  import opened Drive

  /** The stop threshold in cm; deliberately different from the 5 cm
      threshold below which no LED is lit. */
  const StopBelow: real := 7.0

  /** What the GUI shows: the "LEDs encendidos" count, the five label
      colours, the "Distancia" value and the history text box (one distance
      per line, kept here as the list of values). */
  datatype Display = Display(ledsLabel: int, labelColours: seq<string>, distanceLabel: real, history: seq<real>)

  datatype Car = Car(
    pins: Pins,                 // motor-direction outputs
    leds: seq<bool>,            // the five LEDs of the board
    display: Display,
    allDistances: seq<real>,    // every distance ever measured
    lastDistances: seq<real>)   // the bounded history

  /** The state right after start-up: pins low, LEDs off, labels in their
      "off" colours, the distance label at 0, both lists empty. */
  const Initial: Car := Car(InitialPins, LedMask(0), Display(0, LabelColours(0), 0.0, []), [], [])

  /** One sampler iteration's result: the new state, the LED count it
      computed and whether it issued the automatic stop. */
  datatype Sampled = Sampled(car: Car, ledsOn: int, stopped: bool)

  /** One iteration of the sampler loop for a measured distance `d`. */
  function Sample(c: Car, d: real): (r: Sampled)
    ensures r.ledsOn == LedCount(d) && 0 <= r.ledsOn <= LedTotal
    ensures r.stopped <==> d < StopBelow
    ensures r.stopped ==> Classify(r.car.pins) == Some(Stop)
    ensures !r.stopped ==> r.car.pins == c.pins
    ensures r.car.leds == LedMask(r.ledsOn)
    ensures r.car.display.ledsLabel == r.ledsOn
    ensures r.car.display.labelColours == LabelColours(r.ledsOn)
    ensures |r.car.display.labelColours| == LedTotal
    ensures ShownLit(r.car.display.labelColours) == r.car.leds
    ensures r.car.display.distanceLabel == d
    ensures r.car.allDistances == c.allDistances + [d]
    ensures |c.lastDistances| <= Capacity ==> r.car.lastDistances == Window(c.lastDistances + [d])
    ensures r.car.display.history == r.car.lastDistances
  {
    var k := LedCount(d);
    var stopped := d < StopBelow;
    var last := Push(c.lastDistances, d);
    ColoursFollowMask(k);
    Sampled(
      Car(if stopped then Apply(c.pins, Stop) else c.pins,
          LedMask(k),
          Display(k, LabelColours(k), d, last),
          c.allDistances + [d],
          last),
      k, stopped)
  }

  /** What can happen to the car: the sampler thread measures a distance, or
      the operator presses one of the five drive buttons. */
  datatype Event = Measured(distance: real) | Pressed(cmd: Command)

  function Step(c: Car, e: Event): (r: Car)
    // a button press drives the motors and touches nothing else
    ensures e.Pressed? ==> Classify(r.pins) == Some(e.cmd)
    ensures e.Pressed? ==> r == c.(pins := r.pins)
    // a measurement is recorded and shown, and stops the car only when close
    ensures e.Measured? ==> r.allDistances == c.allDistances + [e.distance]
    ensures e.Measured? ==> r.leds == LedMask(LedCount(e.distance))
    ensures e.Measured? ==> (r.pins == c.pins || Classify(r.pins) == Some(Stop))
    ensures e.Measured? && e.distance >= StopBelow ==> r.pins == c.pins
  {
    match e
    case Measured(d) => Sample(c, d).car
    case Pressed(cmd) => c.(pins := Apply(c.pins, cmd))
  }

  /** Running a sequence of events, first to last. */
  function Run(c: Car, es: seq<Event>): Car
    decreases |es|
  {
    if |es| == 0 then c else Run(Step(c, es[0]), es[1..])
  }

  /** The distances measured in `es`, in order. */
  function Distances(es: seq<Event>): seq<real>
    decreases |es|
  {
    if |es| == 0 then []
    else (if es[0].Measured? then [es[0].distance] else []) + Distances(es[1..])
  }

  /** The command written to the motor pins by the last event in `es` that
      writes them: a button press, or a measurement below the stop threshold. */
  function LastDriveWrite(es: seq<Event>): Option<Command>
    decreases |es|
  {
    if |es| == 0 then None
    else match LastDriveWrite(es[1..])
      case Some(cmd) => Some(cmd)
      case None =>
        match es[0]
        case Pressed(cmd) => Some(cmd)
        case Measured(d) => if d < StopBelow then Some(Stop) else None
  }

  /** One event adds its measured distance, if any, to both lists. */
  lemma StepRecords(c: Car, e: Event)
    requires |c.lastDistances| <= Capacity
    ensures var now := if e.Measured? then [e.distance] else [];
            && Step(c, e).allDistances == c.allDistances + now
            && Step(c, e).lastDistances == Window(c.lastDistances + now)
            && |Step(c, e).lastDistances| <= Capacity
  {
  }

  /** Over any interleaving of measurements and button presses, the full log
      grows by exactly the measured distances, and the bounded history is the
      window of everything measured. */
  lemma {:induction false} RunRecords(c: Car, es: seq<Event>)
    requires |c.lastDistances| <= Capacity
    ensures Run(c, es).allDistances == c.allDistances + Distances(es)
    ensures Run(c, es).lastDistances == Window(c.lastDistances + Distances(es))
    ensures |Run(c, es).lastDistances| <= Capacity
    decreases |es|
  {
    if |es| == 0 {
      assert c.allDistances + [] == c.allDistances;
      assert c.lastDistances + [] == c.lastDistances;
    } else {
      var now := if es[0].Measured? then [es[0].distance] else [];
      var rest := Distances(es[1..]);
      assert Distances(es) == now + rest;
      var c' := Step(c, es[0]);
      assert Run(c, es) == Run(c', es[1..]);
      StepRecords(c, es[0]);
      RunRecords(c', es[1..]);
      calc {
        Run(c, es).lastDistances;
        Window(c'.lastDistances + rest);
        Window(Window(c.lastDistances + now) + rest);
        { WindowAbsorb(c.lastDistances + now, rest); }
        Window(c.lastDistances + now + rest);
        { ConcatAssoc(c.lastDistances, now, rest); }
        Window(c.lastDistances + Distances(es));
      }
      ConcatAssoc(c.allDistances, now, rest);
    }
  }

  /** The motor pins depend only on the last event that wrote them: the last
      button pressed, or the automatic stop if a later measurement was below
      7 cm; with no such event they keep their earlier state. */
  lemma {:induction false} RunPins(c: Car, es: seq<Event>)
    ensures Run(c, es).pins == match LastDriveWrite(es)
                               case Some(cmd) => PinsOf(cmd)
                               case None => c.pins
    decreases |es|
  {
    if |es| > 0 {
      RunPins(Step(c, es[0]), es[1..]);
    }
  }

  /** Button presses leave the LEDs and the GUI alone. */
  lemma {:induction false} PressesKeepDisplay(c: Car, es: seq<Event>)
    requires |Distances(es)| == 0
    ensures Run(c, es).leds == c.leds && Run(c, es).display == c.display
    decreases |es|
  {
    if |es| > 0 {
      PressesKeepDisplay(Step(c, es[0]), es[1..]);
    }
  }

  /** Once anything has been measured, the LEDs, the LED count label and the
      distance label reflect the latest measurement, whatever buttons were
      pressed since. */
  lemma {:induction false} LedsShowLatest(c: Car, es: seq<Event>)
    requires |Distances(es)| > 0
    ensures var d := Distances(es)[|Distances(es)| - 1];
            && Run(c, es).leds == LedMask(LedCount(d))
            && Run(c, es).display.ledsLabel == LedCount(d)
            && Run(c, es).display.distanceLabel == d
    decreases |es|
  {
    var now := if es[0].Measured? then [es[0].distance] else [];
    var rest := Distances(es[1..]);
    assert Distances(es) == now + rest;
    if |rest| > 0 {
      LedsShowLatest(Step(c, es[0]), es[1..]);
    } else {
      PressesKeepDisplay(Step(c, es[0]), es[1..]);
    }
  }

  /** From start-up, `last_distances` is always the last min(n, 12) of the
      n distances measured so far, and `all_distances` is all of them. */
  lemma FromStartUp(es: seq<Event>)
    ensures Run(Initial, es).allDistances == Distances(es)
    ensures Run(Initial, es).lastDistances == Window(Distances(es))
    ensures |Run(Initial, es).lastDistances| <= Capacity
  {
    RunRecords(Initial, es);
    assert [] + Distances(es) == Distances(es);
  }

  /** The stop decision and the LED count are independent: 6 cm lights one
      LED and stops the car, 4 cm lights none and stops it. */
  lemma StopIndependentOfLeds(c: Car)
    ensures Sample(c, 6.0).ledsOn == 1 && Sample(c, 6.0).stopped
    ensures Sample(c, 4.0).ledsOn == 0 && Sample(c, 4.0).stopped
    ensures Sample(c, 7.0).ledsOn == 1 && !Sample(c, 7.0).stopped
  {
  }

  /** Distances 30, 4, 10, 26 light 5, 0, 2, 5 LEDs; only the 4 cm sample
      stops the car. */
  lemma ExampleRun()
    ensures var s1 := Sample(Initial, 30.0);
            var s2 := Sample(s1.car, 4.0);
            var s3 := Sample(s2.car, 10.0);
            var s4 := Sample(s3.car, 26.0);
            && [s1.ledsOn, s2.ledsOn, s3.ledsOn, s4.ledsOn] == [5, 0, 2, 5]
            && [s1.stopped, s2.stopped, s3.stopped, s4.stopped] == [false, true, false, false]
            && s4.car.lastDistances == [30.0, 4.0, 10.0, 26.0]
  {
    assert LedCount(30.0) == 5;
    assert LedCount(4.0) == 0;
    assert LedCount(10.0) == 2;
    assert LedCount(26.0) == 5;
    var s1 := Sample(Initial, 30.0);
    assert s1.car.lastDistances == [30.0];
    var s2 := Sample(s1.car, 4.0);
    assert s2.car.lastDistances == [30.0, 4.0];
    var s3 := Sample(s2.car, 10.0);
    assert s3.car.lastDistances == [30.0, 4.0, 10.0];
    assert s3.car.lastDistances + [26.0] == [30.0, 4.0, 10.0, 26.0];
    var s4 := Sample(s3.car, 26.0);
    assert s4.car.lastDistances == [30.0, 4.0, 10.0, 26.0];
  }
}
