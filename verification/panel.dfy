/** The serial panel of act5Leds.py: every 100 ms `read_serial` polls the
    port and, when input is waiting, reads an LED count line and a distance
    line, shows them, and records the distance in the bounded history. The
    port is modelled as the queue of lines received so far, already decoded
    to text. */
module Panel {
  import opened Maybe
  import opened History
  import opened Leds
  import opened Decimal

  /** What the window shows: the "LEDs encendidos" label (blank until the
      first sample), the five label colours, the "Distancia" label and the
      history box. */
  datatype Display = Display(ledsLabel: Option<int>, labelColours: seq<string>, distanceLabel: int, recent: seq<int>)

  datatype Panel = Panel(distancias: seq<int>, display: Display)

  /** At start-up: no history, blank count label, labels in their "off"
      colours, "Distancia: 0", empty history box. */
  const Initial: Panel := Panel([], Display(None, LabelColours(0), 0, []))

  /** `int(line.rstrip())`, `None` for the `ValueError`. */
  function ReadInt(line: string): Option<int>
  {
    ParseInt(RTrim(StrSpaces, line))
  }

  /** The text put in the history box: one distance per line. */
  function HistoryText(recent: seq<int>): string
  {
    Join(seq(|recent|, i requires 0 <= i < |recent| => ShowInt(recent[i])))
  }

  /** `update_gui(leds_on, distance)`, given the history as it is when it is
      called. */
  function Render(ledsOn: int, distance: int, distancias: seq<int>): (d: Display)
    ensures d.ledsLabel == Some(ledsOn) && d.distanceLabel == distance
    ensures d.labelColours == LabelColours(ledsOn)
    ensures |d.labelColours| == LedTotal && ShownLit(d.labelColours) == LedMask(ledsOn)
    ensures d.recent == Window(distancias)
  {
    ColoursFollowMask(ledsOn);
    Display(Some(ledsOn), LabelColours(ledsOn), distance, distancias[|distancias| - |Window(distancias)|..])
  }

  /** How one poll ended. `Blocked` is a first line that parsed with no
      second line received yet: `readline` then waits for one, and the poll
      does not complete until it arrives. */
  datatype Outcome = Idle | BadFirst | Blocked | BadSecond | Recorded(ledsOn: int, distance: int)

  /** Lines of the queue a poll reads for each outcome. */
  function Consumed(o: Outcome): nat
  {
    match o
    case Idle => 0
    case BadFirst => 1
    case Blocked => 1
    case BadSecond => 2
    case Recorded(_, _) => 2
  }

  /** What one poll makes of the head of the queue `q`. */
  function Read(q: seq<string>): (o: Outcome)
    ensures Consumed(o) <= |q|
    ensures o == Idle <==> |q| == 0
    ensures o == BadFirst <==> |q| > 0 && ReadInt(q[0]).None?
    ensures o == Blocked <==> |q| == 1 && ReadInt(q[0]).Some?
    ensures o == BadSecond <==> |q| > 1 && ReadInt(q[0]).Some? && ReadInt(q[1]).None?
    ensures o.Recorded? <==> |q| > 1 && ReadInt(q[0]).Some? && ReadInt(q[1]).Some?
    ensures o.Recorded? ==> ReadInt(q[0]) == Some(o.ledsOn) && ReadInt(q[1]) == Some(o.distance)
  {
    if |q| == 0 then Idle
    else
      var first := ReadInt(q[0]);
      if first.None? then BadFirst
      else if |q| == 1 then Blocked
      else
        var second := ReadInt(q[1]);
        if second.None? then BadSecond else Recorded(first.value, second.value)
  }

  datatype Polled = Polled(panel: Panel, rest: seq<string>, outcome: Outcome)

  /** One call of `read_serial` on the queue `q` of received lines. */
  function Poll(p: Panel, q: seq<string>): (r: Polled)
    // exactly the first Consumed(outcome) lines are taken from the queue
    ensures r.outcome == Read(q) && r.rest == q[Consumed(r.outcome)..]
    // nothing but a fully decoded pair changes the panel
    ensures !r.outcome.Recorded? ==> r.panel == p
    ensures r.outcome.Recorded? ==>
              && r.panel.display == Render(r.outcome.ledsOn, r.outcome.distance, p.distancias)
              && r.panel.distancias == Push(p.distancias, r.outcome.distance)
  {
    var o := Read(q);
    var rest := q[Consumed(o)..];
    match o
    case Recorded(ledsOn, distance) =>
      // update_gui runs before the distance is appended
      var shown := Render(ledsOn, distance, p.distancias);
      Polled(Panel(Push(p.distancias, distance), shown), rest, o)
    case _ => Polled(p, rest, o)
  }

  /** A recorded pair shows the history as it was BEFORE the new distance was
      appended, so the history box never includes the sample shown as
      "Distancia"; the stored history is then that snapshot plus the new
      distance, cut back to twelve. */
  lemma SnapshotPrecedesAppend(p: Panel, q: seq<string>)
    requires |p.distancias| <= Capacity
    requires Poll(p, q).outcome.Recorded?
    ensures var shown := Poll(p, q).panel.display;
            && shown.recent == p.distancias
            && Poll(p, q).panel.distancias == Window(shown.recent + [shown.distanceLabel])
            && |Poll(p, q).panel.distancias| <= Capacity
  {
  }

  /** Polling until the queue is exhausted or a poll blocks. */
  function Drain(p: Panel, q: seq<string>): (r: Panel)
    ensures |q| == 0 ==> r == p
    // a queue with no line that reads as an integer changes nothing
    ensures (forall i :: 0 <= i < |q| ==> ReadInt(q[i]).None?) ==> r == p
    // the history never grows past its capacity
    ensures |p.distancias| <= Capacity ==> |r.distancias| <= Capacity
    decreases |q|
  {
    var r := Poll(p, q);
    if r.outcome.Idle? || r.outcome.Blocked? then r.panel else Drain(r.panel, r.rest)
  }

  /** Reference definition: the distances of the well-formed pairs in a line
      stream, where a line that is not an integer is skipped on its own when
      it stands where an LED count is expected and takes its LED count line
      with it when it stands where a distance is expected. */
  function Decoded(q: seq<string>): seq<int>
    decreases |q|
  {
    if |q| == 0 then []
    else if ReadInt(q[0]).None? then Decoded(q[1..])
    else if |q| == 1 then []
    else match ReadInt(q[1])
      case None => Decoded(q[2..])
      case Some(d) => [d] + Decoded(q[2..])
  }

  /** The reference decoding agrees, pair by pair, with what one poll makes
      of the head of the queue. */
  lemma DecodedByRead(q: seq<string>)
    ensures Decoded(q) == match Read(q)
                          case Recorded(_, d) => [d] + Decoded(q[2..])
                          case BadFirst => Decoded(q[1..])
                          case BadSecond => Decoded(q[2..])
                          case _ => []
  {
  }

  /** Draining the queue records exactly the decoded distances, keeping the
      history the window of everything recorded. */
  lemma {:induction false} DrainRecords(p: Panel, q: seq<string>)
    requires |p.distancias| <= Capacity
    ensures Drain(p, q).distancias == Window(p.distancias + Decoded(q))
    ensures |Drain(p, q).distancias| <= Capacity
    decreases |q|
  {
    var r := Poll(p, q);
    DecodedByRead(q);
    match r.outcome
    case Idle =>
      assert p.distancias + [] == p.distancias;
    case Blocked =>
      assert p.distancias + [] == p.distancias;
    case BadFirst =>
      DrainRecords(r.panel, r.rest);
    case BadSecond =>
      DrainRecords(r.panel, r.rest);
    case Recorded(_, d) =>
      var later := Decoded(r.rest);
      assert Drain(p, q) == Drain(r.panel, r.rest);
      DrainRecords(r.panel, r.rest);
      assert r.panel.distancias == Window(p.distancias + [d]);
      WindowAbsorb(p.distancias + [d], later);
      ConcatAssoc(p.distancias, [d], later);
  }

  /** From start-up, `distancias` is always the most recent min(n, 12) of the
      n successfully decoded distances, in order. */
  lemma FromStartUp(q: seq<string>)
    ensures Drain(Initial, q).distancias == Window(Decoded(q))
    ensures |Drain(Initial, q).distancias| <= Capacity
  {
    DrainRecords(Initial, q);
    assert [] + Decoded(q) == Decoded(q);
  }

  /** The lines a sender printing each pair as two "\r\n"-terminated decimal
      lines puts on the wire. */
  function Frames(pairs: seq<(int, int)>): seq<string>
    decreases |pairs|
  {
    if |pairs| == 0 then []
    else [ShowInt(pairs[0].0) + "\r\n", ShowInt(pairs[0].1) + "\r\n"] + Frames(pairs[1..])
  }

  lemma ReadFrameLine(n: int)
    ensures ReadInt(ShowInt(n) + "\r\n") == Some(n)
  {
    RTrimTrailing(StrSpaces, ShowInt(n), "\r\n");
    RTrimKeeps(StrSpaces, ShowInt(n));
    ParseShow(n);
  }

  /** A poll at the start of a well-formed pair reads that pair. */
  lemma ReadFrame(pair: (int, int), rest: seq<string>)
    ensures Read([ShowInt(pair.0) + "\r\n", ShowInt(pair.1) + "\r\n"] + rest) == Recorded(pair.0, pair.1)
  {
    ReadFrameLine(pair.0);
    ReadFrameLine(pair.1);
  }

  /** A well-formed stream decodes to exactly the distances that were sent. */
  lemma {:induction false} DecodeFrames(pairs: seq<(int, int)>)
    ensures Decoded(Frames(pairs)) == SentDistances(pairs)
    decreases |pairs|
  {
    if |pairs| > 0 {
      var q := Frames(pairs);
      ReadFrame(pairs[0], Frames(pairs[1..]));
      assert q[2..] == Frames(pairs[1..]);
      DecodedByRead(q);
      DecodeFrames(pairs[1..]);
    }
  }

  /** The distance halves of the pairs, in order. */
  function SentDistances(pairs: seq<(int, int)>): (ds: seq<int>)
    ensures |ds| == |pairs|
    decreases |pairs|
  {
    if |pairs| == 0 then [] else [pairs[0].1] + SentDistances(pairs[1..])
  }

  /** From start-up, a well-formed stream leaves the last twelve distances
      sent in the history. */
  lemma WellFormedStream(pairs: seq<(int, int)>)
    ensures Drain(Initial, Frames(pairs)).distancias == Window(SentDistances(pairs))
  {
    FromStartUp(Frames(pairs));
    DecodeFrames(pairs);
  }

  /** The history box renders the displayed values one per line, and each of
      its lines parses back to the value it shows. */
  lemma HistoryTextRoundTrip(recent: seq<int>)
    requires |recent| > 0
    ensures |Split(HistoryText(recent))| == |recent|
    ensures forall i :: 0 <= i < |recent| ==> ReadInt(Split(HistoryText(recent))[i]) == Some(recent[i])
  {
    var lines := seq(|recent|, i requires 0 <= i < |recent| => ShowInt(recent[i]));
    forall i | 0 <= i < |recent|
      ensures '\n' !in lines[i]
    {
      ShowIntOneLine(recent[i]);
    }
    forall i | 0 <= i < |recent|
      ensures ReadInt(lines[i]) == Some(recent[i])
    {
      RTrimKeeps(StrSpaces, lines[i]);
      ParseShow(recent[i]);
    }
  }

  /** A stray line ahead of a well-formed pair costs one poll: the stray
      line is skipped alone, and the next poll reads the pair after it. */
  lemma Resync(p: Panel, stray: string, pair: (int, int), rest: seq<string>)
    requires ReadInt(stray).None?
    ensures var q := [stray] + ([ShowInt(pair.0) + "\r\n", ShowInt(pair.1) + "\r\n"] + rest);
            var r1 := Poll(p, q);
            && r1.outcome == BadFirst
            && r1.panel == p
            && r1.rest == q[1..]
            && Poll(r1.panel, r1.rest).outcome == Recorded(pair.0, pair.1)
  {
    var frame := [ShowInt(pair.0) + "\r\n", ShowInt(pair.1) + "\r\n"] + rest;
    var q := [stray] + frame;
    assert q[0] == stray && q[1..] == frame;
    assert Read(q) == BadFirst;
    ReadFrame(pair, rest);
  }

  /** A line led by one of the separators 0x1C-0x1F is not an LED count:
      `rstrip` may drop such characters at the end, but `int()` does not
      skip one at the start, so the poll discards the line alone. */
  lemma SeparatorLedLine(c: char, s: string, rest: seq<string>)
    requires 28 <= c as int <= 31
    ensures Read([[c] + s] + rest) == BadFirst
  {
    var t := RTrim(StrSpaces, [c] + s);
    if |t| > 0 {
      assert t == [c] + t[1..];
      SeparatorNotSkipped(c, t[1..]);
    }
    assert ReadInt(([[c] + s] + rest)[0]).None?;
  }
}
