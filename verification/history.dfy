/** The bounded "last 12 distances" buffer both scripts keep: `last_distances`
    in carrito.py and `distancias` in act5Leds.py. A sample is appended, and
    when the list has grown past twelve entries the single oldest one is
    popped from the front. */
module History {

  /** How many samples the buffer keeps. */
  const Capacity: nat := 12

  /** Reference definition: the last min(|s|, Capacity) elements of `s`, in
      arrival order. This is also what Python's `s[-12:]` returns. */
  function Window<T>(s: seq<T>): (w: seq<T>)
    ensures |w| == if |s| <= Capacity then |s| else Capacity
    ensures w == s[|s| - |w|..]
  {
    if |s| <= Capacity then s else s[|s| - Capacity..]
  }

  /** One `append` followed by `if len(h) > 12: h.pop(0)`. */
  function Push<T>(h: seq<T>, x: T): (r: seq<T>)
    ensures |r| > 0 && r[|r| - 1] == x
    ensures |h| < Capacity ==> r == h + [x]
    ensures |h| <= Capacity ==> |r| <= Capacity
    ensures |h| <= Capacity ==> r == Window(h + [x])
  {
    var appended := h + [x];
    if |appended| > Capacity then appended[1..] else appended
  }

  /** Pushing the samples of `xs` one after the other, oldest first. */
  function PushAll<T>(h: seq<T>, xs: seq<T>): seq<T>
    decreases |xs|
  {
    if |xs| == 0 then h else PushAll(Push(h, xs[0]), xs[1..])
  }

  /** Taking the window of a window loses nothing the outer window keeps. */
  lemma WindowAbsorb<T>(s: seq<T>, t: seq<T>)
    ensures Window(Window(s) + t) == Window(s + t)
  {
    var w := Window(s);
    if |s| > Capacity {
      assert w + t == (s + t)[|s| - Capacity..];
    }
  }

  /** Pushing onto a window is the window of the longer sequence. */
  lemma PushWindow<T>(s: seq<T>, x: T)
    ensures Push(Window(s), x) == Window(s + [x])
  {
  }

  lemma ConcatAssoc<T>(a: seq<T>, b: seq<T>, c: seq<T>)
    ensures a + b + c == a + (b + c)
  {
  }

  lemma PushThenWindow<T>(h: seq<T>, x: T, rest: seq<T>)
    requires |h| <= Capacity
    ensures Window(Push(h, x) + rest) == Window(h + ([x] + rest))
  {
    WindowAbsorb(h + [x], rest);
    ConcatAssoc(h, [x], rest);
  }

  /** A buffer that never exceeded its capacity, after any number of further
      samples, holds exactly the window of everything it has seen. */
  lemma {:induction false} PushAllIsWindow<T>(h: seq<T>, xs: seq<T>)
    requires |h| <= Capacity
    ensures PushAll(h, xs) == Window(h + xs)
    ensures |PushAll(h, xs)| <= Capacity
    decreases |xs|
  {
    if |xs| == 0 {
      assert h + xs == h;
    } else {
      var x, rest := xs[0], xs[1..];
      var h' := Push(h, x);
      assert PushAll(h, xs) == PushAll(h', rest);
      PushAllIsWindow(h', rest);
      PushThenWindow(h, x, rest);
      assert [x] + rest == xs;
    }
  }

  /** Starting from an empty buffer, after n samples the buffer is the last
      min(n, 12) of them in arrival order. */
  lemma FromEmpty<T>(xs: seq<T>)
    ensures PushAll([], xs) == Window(xs)
    ensures |PushAll([], xs)| == if |xs| <= Capacity then |xs| else Capacity
  {
    PushAllIsWindow([], xs);
    assert [] + xs == xs;
  }

  /** Fifteen samples 1..15 leave exactly 4..15 in the buffer. */
  lemma FifteenSamples()
    ensures PushAll([], seq(15, i => i + 1)) == seq(12, i => i + 4)
  {
    FromEmpty(seq(15, i => i + 1));
  }
}
