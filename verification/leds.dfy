/** The five-LED bar both scripts drive: how many LEDs a distance lights,
    which of the five are on for a given count, and the colour each GUI label
    takes. */
module Leds {

  /** Number of LEDs on the board and labels in the GUI. */
  const LedTotal: nat := 5

  /** Background colours of the five GUI labels when lit and when dark; the
      same constants appear in both scripts. */
  const ColorsOn: seq<string> := ["#0CFA38", "#2166FA", "#FA2C33", "#FA2C33", "#FAEF1D"]
  const ColorsOff: seq<string> := ["#7FFA96", "#89B5FA", "#FAA9AD", "#FAA9AD", "#FAF39D"]

  /** The distance-to-LED-count thresholding of `read_distance`: nothing
      below 5 cm, one LED per full 5 cm up to 25 cm inclusive, all five
      beyond. */
  function LedCount(d: real): (k: int)
    ensures 0 <= k <= LedTotal
    ensures d < 5.0 ==> k == 0
    ensures d > 25.0 ==> k == LedTotal
    ensures 5.0 <= d <= 25.0 ==> 1 <= k && (5 * k) as real <= d < (5 * k + 5) as real
  {
    if 5.0 <= d <= 25.0 then (d / 5.0).Floor
    else if d > 25.0 then 5
    else 0
  }

  /** Reference definition: how many of the thresholds 5, 10, ..., 5n cm the
      distance `d` has reached. */
  function Reached(d: real, n: nat): nat
  {
    if n == 0 then 0
    else Reached(d, n - 1) + (if (5 * n) as real <= d then 1 else 0)
  }

  /** The count of lit LEDs is the number of 5 cm thresholds, among the
      five, that the distance reaches. */
  lemma CountIsThresholdsReached(d: real)
    ensures LedCount(d) == Reached(d, LedTotal)
  {
    var k := LedCount(d);
    assert Reached(d, 1) == if 5.0 <= d then 1 else 0;
    assert Reached(d, 2) == Reached(d, 1) + if 10.0 <= d then 1 else 0;
    assert Reached(d, 3) == Reached(d, 2) + if 15.0 <= d then 1 else 0;
    assert Reached(d, 4) == Reached(d, 3) + if 20.0 <= d then 1 else 0;
    assert Reached(d, 5) == Reached(d, 4) + if 25.0 <= d then 1 else 0;
  }

  /** A farther obstacle never lights fewer LEDs. */
  lemma CountMonotone(d1: real, d2: real)
    requires d1 <= d2
    ensures LedCount(d1) <= LedCount(d2)
  {
  }

  /** Which LEDs are on for a requested count: LED i is on exactly when
      i < k. The count is not checked, so any k <= 0 turns all of them off
      and any k >= 5 turns all of them on. */
  function LedMask(k: int): (m: seq<bool>)
    ensures |m| == LedTotal
    ensures forall i :: 0 <= i < |m| ==> (m[i] <==> i < k)
  {
    seq(LedTotal, i => i < k)
  }

  /** `k` forced into 0..5. */
  function Clamp(k: int): (c: nat)
    ensures c <= LedTotal
  {
    if k < 0 then 0 else if k > LedTotal then LedTotal else k
  }

  /** A mask whose lit LEDs form an unbroken run from LED 0. */
  predicate IsPrefixMask(m: seq<bool>)
  {
    |m| == LedTotal && forall i, j :: 0 <= i < j < |m| && m[j] ==> m[i]
  }

  /** How many LEDs of a mask are lit. */
  function LitCount(m: seq<bool>): (n: nat)
    ensures n <= |m|
  {
    if |m| == 0 then 0 else LitCount(m[..|m| - 1]) + (if m[|m| - 1] then 1 else 0)
  }

  /** The lit LEDs are a prefix: `c` ons followed by `5 - c` offs, where
      `c` is the requested count forced into 0..5. */
  lemma MaskIsPrefix(k: int)
    ensures IsPrefixMask(LedMask(k))
    ensures LedMask(k) == seq(Clamp(k), i => true) + seq(LedTotal - Clamp(k), i => false)
  {
  }

  lemma {:induction false} LitCountOfRuns(a: nat, b: nat)
    ensures LitCount(seq(a, i => true) + seq(b, i => false)) == a
    decreases a + b
  {
    var m := seq(a, i => true) + seq(b, i => false);
    if b > 0 {
      assert m[..|m| - 1] == seq(a, i => true) + seq(b - 1, i => false);
      LitCountOfRuns(a, b - 1);
    } else if a > 0 {
      assert m[..|m| - 1] == seq(a - 1, i => true) + seq(0, i => false);
      LitCountOfRuns(a - 1, 0);
    }
  }

  /** Counting the lit LEDs of the mask recovers the requested count,
      saturated to 0..5. */
  lemma MaskCount(k: int)
    ensures LitCount(LedMask(k)) == Clamp(k)
  {
    MaskIsPrefix(k);
    LitCountOfRuns(Clamp(k), LedTotal - Clamp(k));
  }

  /** The first LED at or after `lo` that is off, or 5 when there is none. */
  function FirstOff(m: seq<bool>, lo: nat): (c: nat)
    requires |m| == LedTotal && lo <= LedTotal
    ensures lo <= c <= LedTotal
    ensures forall i :: lo <= i < c ==> m[i]
    ensures c < LedTotal ==> !m[c]
    decreases LedTotal - lo
  {
    if lo == LedTotal || !m[lo] then lo else FirstOff(m, lo + 1)
  }

  /** Every prefix-shaped mask is the mask of its own lit count, so masks for
      counts 0..5 and prefix-shaped masks are in one-to-one correspondence. */
  lemma MaskOfCount(m: seq<bool>)
    requires IsPrefixMask(m)
    ensures LedMask(LitCount(m)) == m
  {
    var c := FirstOff(m, 0);
    assert m == LedMask(c);
    MaskCount(c);
  }

  /** The colours `update_leds_gui_colors` / `update_led_colors` give the
      five labels for a requested count. */
  function LabelColours(k: int): (cs: seq<string>)
    ensures |cs| == LedTotal
    ensures forall i :: 0 <= i < LedTotal ==> (cs[i] == ColorsOn[i] <==> i < k)
    ensures forall i :: 0 <= i < LedTotal ==> (cs[i] == ColorsOff[i] <==> k <= i)
    ensures k <= 0 ==> cs == ColorsOff
    ensures k >= LedTotal ==> cs == ColorsOn
  {
    seq(LedTotal, i requires 0 <= i < LedTotal => if i < k then ColorsOn[i] else ColorsOff[i])
  }

  /** Reads back, from the label colours, which LEDs the GUI shows as lit. */
  function ShownLit(cs: seq<string>): (m: seq<bool>)
    requires |cs| == LedTotal
    ensures |m| == LedTotal
  {
    seq(LedTotal, i requires 0 <= i < LedTotal => cs[i] == ColorsOn[i])
  }

  /** The GUI shows exactly the hardware mask: label i has its "on" colour
      iff LED i is on, because each label's two colours differ. */
  lemma ColoursFollowMask(k: int)
    ensures ShownLit(LabelColours(k)) == LedMask(k)
    ensures k <= 0 ==> LabelColours(k) == ColorsOff
    ensures k >= LedTotal ==> LabelColours(k) == ColorsOn
  {
  }
}
