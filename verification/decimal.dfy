/** Text handling the serial panel relies on: `str.rstrip()`, Python's
    `int()` on a line (ASCII whitespace around an optional sign and one or
    more ASCII digits), `str()` of an int, and the
    `'\n'.join` that renders the history box, with `split('\n')` as its
    inverse. */
module Decimal {
  import opened Maybe

  /** The two notions of whitespace in play. `str.rstrip()` drops what
      `str.isspace` accepts; among ASCII characters that is tab, line feed,
      vertical tab, form feed, carriage return, the four separators
      0x1C-0x1F, and space. `int()` on ASCII text skips only what C's
      `isspace` accepts: the same without the four separators. */
  datatype Spaces = StrSpaces | IntSpaces {
    predicate Has(c: char)
    {
      || 9 <= c as int <= 13
      || c == ' '
      || (this == StrSpaces && 28 <= c as int <= 31)
    }
  }

  predicate IsDigit(c: char)
  {
    '0' <= c <= '9'
  }

  /** One or more ASCII digits. */
  predicate IsDigits(ds: string)
  {
    |ds| > 0 && forall i :: 0 <= i < |ds| ==> IsDigit(ds[i])
  }

  /** Drops trailing whitespace of class `sp` and nothing else; with
      `StrSpaces` this is `s.rstrip()`. */
  function RTrim(sp: Spaces, s: string): (r: string)
    ensures |r| <= |s| && r == s[..|r|]
    ensures |r| == 0 || !sp.Has(r[|r| - 1])
    decreases |s|
  {
    if |s| > 0 && sp.Has(s[|s| - 1]) then RTrim(sp, s[..|s| - 1]) else s
  }

  /** Drops leading whitespace of class `sp` and nothing else. */
  function LTrim(sp: Spaces, s: string): (r: string)
    ensures |r| <= |s| && r == s[|s| - |r|..]
    ensures |r| == 0 || !sp.Has(r[0])
    decreases |s|
  {
    if |s| > 0 && sp.Has(s[0]) then LTrim(sp, s[1..]) else s
  }

  /** Trimming removes whitespace only. */
  lemma {:induction false} RTrimRemovesSpace(sp: Spaces, s: string)
    ensures forall i :: |RTrim(sp, s)| <= i < |s| ==> sp.Has(s[i])
    decreases |s|
  {
    if |s| > 0 && sp.Has(s[|s| - 1]) {
      RTrimRemovesSpace(sp, s[..|s| - 1]);
    }
  }

  lemma {:induction false} LTrimRemovesSpace(sp: Spaces, s: string)
    ensures forall i :: 0 <= i < |s| - |LTrim(sp, s)| ==> sp.Has(s[i])
    decreases |s|
  {
    if |s| > 0 && sp.Has(s[0]) {
      LTrimRemovesSpace(sp, s[1..]);
    }
  }

  function DigitValue(c: char): (v: nat)
    ensures v < 10
  {
    if IsDigit(c) then c as int - '0' as int else 0
  }

  function DigitChar(v: nat): (c: char)
    requires v < 10
    ensures IsDigit(c) && DigitValue(c) == v
  {
    ('0' as int + v) as char
  }

  /** The value of a digit string read most significant digit first. */
  function Value(ds: string): nat
    decreases |ds|
  {
    if |ds| == 0 then 0 else Value(ds[..|ds| - 1]) * 10 + DigitValue(ds[|ds| - 1])
  }

  /** One or more digits, read as a non-negative number. */
  function ParseDigits(ds: string): (r: Option<nat>)
    ensures r.Some? <==> IsDigits(ds)
  {
    if IsDigits(ds) then Some(Value(ds)) else None
  }

  /** An integer literal with nothing around it: an optional sign followed
      by one or more digits. */
  function ParseLiteral(t: string): (r: Option<int>)
  {
    if |t| > 0 && (t[0] == '-' || t[0] == '+') then
      match ParseDigits(t[1..])
      case None => None
      case Some(v) =>
        var magnitude: int := v;
        Some(if t[0] == '-' then -magnitude else magnitude)
    else
      match ParseDigits(t)
      case None => None
      case Some(v) => Some(v)
  }

  /** The literal `int()` accepts once surrounding whitespace is gone: an
      optional sign followed by one or more digits. */
  predicate IsIntLiteral(t: string)
  {
    || IsDigits(t)
    || (|t| > 1 && (t[0] == '-' || t[0] == '+') && IsDigits(t[1..]))
  }

  /** Python's `int(line)`: `None` stands for the `ValueError` it raises. */
  function ParseInt(s: string): (r: Option<int>)
    ensures r.Some? <==> IsIntLiteral(LTrim(IntSpaces, RTrim(IntSpaces, s)))
  {
    ParseLiteral(LTrim(IntSpaces, RTrim(IntSpaces, s)))
  }

  /** `str(n)` for a non-negative n: its decimal digits, with no leading
      zero. */
  function ShowNat(n: nat): (s: string)
    ensures IsDigits(s)
    ensures Value(s) == n
    ensures |s| == 1 || s[0] != '0'
    decreases n
  {
    if n < 10 then [DigitChar(n)]
    else
      var init := ShowNat(n / 10);
      var s := init + [DigitChar(n % 10)];
      assert s[..|s| - 1] == init;
      s
  }

  /** `str(n)` for any integer. */
  function ShowInt(n: int): (s: string)
    ensures |s| > 0 && IsDigit(s[|s| - 1])
    ensures IsDigit(s[0]) || s[0] == '-'
    ensures s[0] == '-' <==> n < 0
    ensures IsCanonical(s)
  {
    if n < 0 then "-" + ShowNat(-n) else ShowNat(n)
  }

  /** `str` of an int is a single line. */
  lemma ShowIntOneLine(n: int)
    ensures '\n' !in ShowInt(n)
  {
  }

  lemma StripNonSpace(sp: Spaces, s: string)
    requires |s| > 0 && !sp.Has(s[0]) && !sp.Has(s[|s| - 1])
    ensures LTrim(sp, RTrim(sp, s)) == s
  {
  }

  lemma RTrimKeeps(sp: Spaces, s: string)
    requires |s| > 0 && !sp.Has(s[|s| - 1])
    ensures RTrim(sp, s) == s
  {
  }

  /** `int()` does not skip the separators 0x1C-0x1F that `rstrip` would:
      a line starting with one is not an integer. */
  lemma SeparatorNotSkipped(c: char, s: string)
    requires 28 <= c as int <= 31
    ensures ParseInt([c] + s) == None
  {
    var u := [c] + s;
    var t := RTrim(IntSpaces, u);
    assert !IntSpaces.Has(u[0]);
    assert |t| > 0 by {
      RTrimRemovesSpace(IntSpaces, u);
    }
    assert t[0] == c;
    assert LTrim(IntSpaces, t) == t;
    assert !IsIntLiteral(t) by {
      assert !IsDigit(t[0]) && t[0] != '-' && t[0] != '+';
    }
  }

  /** Parsing what `str` printed gives the number back. */
  lemma ParseShow(n: int)
    ensures ParseInt(ShowInt(n)) == Some(n)
  {
  }

  lemma {:induction false} ValuePositive(ds: string)
    requires IsDigits(ds) && ds[0] != '0'
    ensures Value(ds) > 0
    decreases |ds|
  {
    if |ds| > 1 {
      ValuePositive(ds[..|ds| - 1]);
    }
  }

  /** A digit string without leading zeros is what `str` prints for its own
      value. */
  lemma {:induction false} ShowValue(ds: string)
    requires IsDigits(ds) && (|ds| == 1 || ds[0] != '0')
    ensures ShowNat(Value(ds)) == ds
    decreases |ds|
  {
    var v := Value(ds);
    if |ds| == 1 {
      assert ds == [DigitChar(v)];
    } else {
      var init := ds[..|ds| - 1];
      ValuePositive(init);
      ShowValue(init);
      assert v / 10 == Value(init) && v % 10 == DigitValue(ds[|ds| - 1]);
      assert ds == init + [DigitChar(v % 10)];
    }
  }

  /** The canonical spelling of an integer: no surrounding whitespace, no '+',
      no leading zeros, no "-0". */
  predicate IsCanonical(s: string)
  {
    || (IsDigits(s) && (|s| == 1 || s[0] != '0'))
    || (|s| > 1 && s[0] == '-' && IsDigits(s[1..]) && s[1] != '0')
  }

  /** `str` prints exactly the canonical spellings, and parsing a canonical
      spelling then printing it gives the same text back. */
  lemma ShowParse(s: string)
    requires IsCanonical(s)
    ensures ParseInt(s).Some? && ShowInt(ParseInt(s).value) == s
  {
    if s[0] == '-' {
      var ds := s[1..];
      assert IsDigit(ds[|ds| - 1]);
      StripNonSpace(IntSpaces, s);
      ValuePositive(ds);
      ShowValue(ds);
      assert ParseInt(s) == Some(0 - Value(ds));
      assert s == "-" + ds;
    } else {
      assert IsDigit(s[0]) && IsDigit(s[|s| - 1]);
      StripNonSpace(IntSpaces, s);
      ShowValue(s);
    }
  }

  lemma ShowIsCanonical(n: int)
    ensures IsCanonical(ShowInt(n))
  {
  }

  /** Trailing whitespace after the text, such as the "\r\n" that ends each
      serial line, is exactly what `rstrip` removes, and nothing before it. */
  lemma {:induction false} RTrimTrailing(sp: Spaces, s: string, w: string)
    requires forall i :: 0 <= i < |w| ==> sp.Has(w[i])
    ensures RTrim(sp, s + w) == RTrim(sp, s)
    decreases |w|
  {
    if |w| > 0 {
      var w' := w[..|w| - 1];
      assert (s + w)[..|s + w| - 1] == s + w';
      RTrimTrailing(sp, s, w');
    } else {
      assert s + w == s;
    }
  }

  /** `s.split('\n')`: always at least one piece. */
  function Split(s: string): (r: seq<string>)
    ensures |r| > 0
    decreases |s|
  {
    if |s| == 0 then [""]
    else
      var rest := Split(s[1..]);
      if s[0] == '\n' then [""] + rest else [[s[0]] + rest[0]] + rest[1..]
  }

  /** No element contains a line break. */
  predicate SingleLines(xs: seq<string>)
  {
    forall i :: 0 <= i < |xs| ==> '\n' !in xs[i]
  }

  /** `'\n'.join(xs)`. Splitting the result at line breaks gives the lines
      back, provided there is at least one (joining no lines and joining one
      empty line both give ""). */
  function Join(xs: seq<string>): (r: string)
    ensures |xs| > 0 && SingleLines(xs) ==> Split(r) == xs
    decreases |xs|
  {
    if |xs| == 0 then ""
    else if |xs| == 1 then
      SplitSingle(xs[0]);
      xs[0]
    else
      var tail := Join(xs[1..]);
      SplitFirst(xs[0], tail);
      xs[0] + "\n" + tail
  }

  /** A line without a line break splits into itself. */
  lemma {:induction false} SplitSingle(x: string)
    ensures '\n' !in x ==> Split(x) == [x]
    decreases |x|
  {
    if |x| > 0 && '\n' !in x {
      SplitSingle(x[1..]);
      assert [x[0]] + x[1..] == x;
    }
  }

  /** Splitting at the first line break peels off the text before it. */
  lemma {:induction false} SplitFirst(x: string, t: string)
    ensures '\n' !in x ==> Split(x + "\n" + t) == [x] + Split(t)
    decreases |x|
  {
    var s := x + "\n" + t;
    if '\n' !in x {
      if |x| == 0 {
        assert s[1..] == t;
      } else {
        assert s[1..] == x[1..] + "\n" + t;
        SplitFirst(x[1..], t);
        assert [x[0]] + x[1..] == x;
      }
    }
  }

  /** A string of `z` zeros. */
  function Zeros(z: nat): (zs: string)
    ensures |zs| == z && forall i :: 0 <= i < z ==> zs[i] == '0'
  {
    seq(z, _ => '0')
  }

  /** Leading zeros do not change the value of a digit string. */
  lemma {:induction false} LeadingZeros(z: nat, ds: string)
    ensures Value(Zeros(z) + ds) == Value(ds)
    decreases |ds|, z
  {
    if |ds| > 0 {
      var u := Zeros(z) + ds;
      assert u[..|u| - 1] == Zeros(z) + ds[..|ds| - 1];
      LeadingZeros(z, ds[..|ds| - 1]);
    } else if z > 0 {
      assert Zeros(z) + ds == Zeros(z - 1) + "0";
      LeadingZeros(z - 1, ds);
      assert (Zeros(z - 1) + "0")[..z - 1] == Zeros(z - 1) + ds;
    } else {
      assert Zeros(z) + ds == "";
    }
  }

  /** Leading whitespace of class `sp` is exactly what `LTrim` removes. */
  lemma {:induction false} LTrimLeading(sp: Spaces, w: string, s: string)
    requires forall i :: 0 <= i < |w| ==> sp.Has(w[i])
    ensures LTrim(sp, w + s) == LTrim(sp, s)
    decreases |w|
  {
    if |w| > 0 {
      assert (w + s)[1..] == w[1..] + s;
      LTrimLeading(sp, w[1..], s);
    } else {
      assert w + s == s;
    }
  }

  /** Zeros followed by what `str` prints for n: digits worth n. */
  lemma PaddedDigits(z: nat, n: nat)
    ensures IsDigits(Zeros(z) + ShowNat(n)) && Value(Zeros(z) + ShowNat(n)) == n
  {
    var ds := Zeros(z) + ShowNat(n);
    forall i | 0 <= i < |ds|
      ensures IsDigit(ds[i])
    {
      if i >= z {
        assert ds[i] == ShowNat(n)[i - z];
      }
    }
    LeadingZeros(z, ShowNat(n));
  }

  /** Whitespace skipped by `int()` around a text that starts and ends
      outside the class is trimmed away exactly. */
  lemma TrimAround(w1: string, core: string, w2: string)
    requires forall i :: 0 <= i < |w1| ==> IntSpaces.Has(w1[i])
    requires |core| > 0 && !IntSpaces.Has(core[0]) && !IntSpaces.Has(core[|core| - 1])
    requires forall i :: 0 <= i < |w2| ==> IntSpaces.Has(w2[i])
    ensures LTrim(IntSpaces, RTrim(IntSpaces, w1 + core + w2)) == core
  {
    RTrimTrailing(IntSpaces, w1 + core, w2);
    assert (w1 + core)[|w1 + core| - 1] == core[|core| - 1];
    RTrimKeeps(IntSpaces, w1 + core);
    LTrimLeading(IntSpaces, w1, core);
  }

  /** A sign followed by digits reads as the signed value of the digits. */
  lemma ParseSigned(sign: string, ds: string)
    requires sign == "" || sign == "+" || sign == "-"
    requires IsDigits(ds)
    ensures ParseLiteral(sign + ds) == Some(if sign == "-" then -(Value(ds) as int) else Value(ds) as int)
  {
    if sign != "" {
      assert (sign + ds)[1..] == ds;
    } else {
      assert sign + ds == ds;
    }
  }

  /** The value `int()` gives an accepted line: whitespace it skips on
      either side, an optional sign and one or more digits read as the
      signed value of the digits, leading zeros and '+' included. */
  lemma ParseLine(w1: string, sign: string, ds: string, w2: string)
    requires forall i :: 0 <= i < |w1| ==> IntSpaces.Has(w1[i])
    requires sign == "" || sign == "+" || sign == "-"
    requires IsDigits(ds)
    requires forall i :: 0 <= i < |w2| ==> IntSpaces.Has(w2[i])
    ensures ParseInt(w1 + (sign + ds) + w2) == Some(if sign == "-" then -(Value(ds) as int) else Value(ds) as int)
  {
    var core := sign + ds;
    assert core[|core| - 1] == ds[|ds| - 1];
    assert IsDigit(ds[0]);
    TrimAround(w1, core, w2);
    ParseSigned(sign, ds);
  }

  /** The same, spelled out with the number: whitespace, an optional sign,
      any number of leading zeros and then the digits `str` prints for n
      read as n, or -n after '-'. */
  lemma ParseIntValue(w1: string, sign: string, z: nat, n: nat, w2: string)
    requires forall i :: 0 <= i < |w1| ==> IntSpaces.Has(w1[i])
    requires sign == "" || sign == "+" || sign == "-"
    requires forall i :: 0 <= i < |w2| ==> IntSpaces.Has(w2[i])
    ensures ParseInt(w1 + (sign + (Zeros(z) + ShowNat(n))) + w2)
            == Some(if sign == "-" then -(n as int) else n as int)
  {
    PaddedDigits(z, n);
    ParseLine(w1, sign, Zeros(z) + ShowNat(n), w2);
  }
}
