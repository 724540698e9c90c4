/** convert_d_to_s, rpncalc's number formatter: a value is rounded at the
    requested number of places, its whole part is written least significant
    digit first and then reversed in place, and fraction digits follow the
    point with trailing zeros dropped. Doubles are modelled as reals. */
module Format {
  import opened Dispatch
  import opened Codec

  // ---------------------------------------------------------------------
  // Arithmetic helpers

  function Max0(k: int): nat {
    if k < 0 then 0 else k
  }

  function Magnitude0(x: real): (m: real)
    ensures m >= 0.0 && (m == x || m == -x)
  {
    if x < 0.0 then -x else x
  }

  /** The C cast (int) of a double: truncation toward zero. */
  function Trunc(r: real): (i: int)
    ensures r >= 0.0 ==> i == r.Floor
    ensures r >= 0.0 ==> r - 1.0 < i as real <= r
    ensures r < 0.0 ==> r <= i as real < r + 1.0
  {
    if r >= 0.0 then r.Floor else -((-r).Floor)
  }

  /** Negative values go up to the next integer, not down: (int)-1.5 is -1. */
  lemma TruncTowardZero()
    ensures Trunc(-1.5) == -1 && Trunc(-0.5) == 0 && Trunc(-2.0) == -2
    ensures Trunc(1.5) == 1 && Trunc(0.5) == 0
  {
  }

  // ---------------------------------------------------------------------
  // Digit strings

  /** The digits of w, least significant first: what the whole-part loop
      writes before the reversal. */
  function LsfChars(w: int, base: int): (cs: string)
    requires 2 <= base <= 36
    ensures forall i | 0 <= i < |cs| :: IsDigitBase(cs[i], base)
    ensures (w <= 0) == (|cs| == 0)
    decreases w
  {
    if w <= 0 then [] else [DigitChar(w % base, base)] + LsfChars(w / base, base)
  }

  predicate AllDigits(cs: string, base: int) {
    forall i | 0 <= i < |cs| :: IsDigitBase(cs[i], base)
  }

  function Reverse(cs: string): (r: string)
    ensures |r| == |cs|
    ensures forall i | 0 <= i < |cs| :: r[i] == cs[|cs| - 1 - i]
  {
    if cs == [] then [] else Reverse(cs[1..]) + [cs[0]]
  }

  /** A fraction scaled by the base is below the base. */
  lemma {:induction false} ScaledBelowBase(rem: real, base: int)
    requires 2 <= base && 0.0 <= rem < 1.0
    ensures 0.0 <= rem * base as real < base as real
    ensures 0 <= (rem * base as real).Floor < base
  {
    var b := base as real;
    assert (1.0 - rem) * b > 0.0;
    assert rem * b == b - (1.0 - rem) * b;
  }

  /** The next fraction digit of a remainder: the whole part of the
      remainder scaled by the base. */
  function FracDigit(rem: real, base: int): (d: int)
    requires 2 <= base <= 36 && 0.0 <= rem < 1.0
    ensures 0 <= d < base
  {
    ScaledBelowBase(rem, base);
    (rem * base as real).Floor
  }

  /** The remainder once its next digit is taken off. */
  function NextRemainder(rem: real, base: int): (r: real)
    requires 2 <= base <= 36 && 0.0 <= rem < 1.0
    ensures 0.0 <= r < 1.0
    ensures r == rem * base as real - FracDigit(rem, base) as real
  {
    var g := rem * base as real;
    g - g.Floor as real
  }

  /** What is left of fraction f after j fraction digits have been taken
      off, as the fraction loop keeps it. */
  function FracRemainder(f: real, base: int, j: nat): (r: real)
    requires 2 <= base <= 36 && 0.0 <= f < 1.0
    ensures 0.0 <= r < 1.0
  {
    if j == 0 then f else NextRemainder(FracRemainder(f, base, j - 1), base)
  }

  /** The first j fraction digits of f. */
  function FracChars(f: real, base: int, j: nat): (cs: string)
    requires 2 <= base <= 36 && 0.0 <= f < 1.0
    ensures |cs| == j
  {
    if j == 0 then []
    else FracChars(f, base, j - 1) + [DigitChar(FracDigit(FracRemainder(f, base, j - 1), base), base)]
  }

  lemma {:induction false} FracCharsDigits(f: real, base: int, j: nat)
    requires 2 <= base <= 36 && 0.0 <= f < 1.0
    ensures AllDigits(FracChars(f, base, j), base)
  {
    if j > 0 {
      FracCharsDigits(f, base, j - 1);
    }
  }

  /** The fraction digits with trailing zeros dropped. */
  function TrimZeros(cs: string): (r: string)
    ensures |r| <= |cs| && forall i | 0 <= i < |r| :: r[i] == cs[i]
    ensures |r| > 0 ==> r[|r| - 1] != '0'
  {
    if |cs| == 0 then []
    else if cs[|cs| - 1] == '0' then TrimZeros(cs[..|cs| - 1])
    else cs
  }

  /** The point and the fraction digits as they stand once the terminator
      is put at `lastzero`: nothing at all when every digit is zero. */
  function PointAndDigits(cs: string): string {
    var r := TrimZeros(cs);
    if |r| == 0 then [] else ['.'] + r
  }

  // ---------------------------------------------------------------------
  // What convert_d_to_s(buf, x, base, prec, n) produces

  /** |x| plus half a unit in the last place asked for. */
  function Rounded(x: real, base: int, prec: int): (y: real)
    requires 2 <= base <= 36
    ensures y > 0.0
  {
    Magnitude0(x) + 0.5 / PowerOf(base, Max0(prec))
  }

  function Whole(x: real, base: int, prec: int): nat
    requires 2 <= base <= 36
  {
    Rounded(x, base, prec).Floor
  }

  function Fraction(x: real, base: int, prec: int): (f: real)
    requires 2 <= base <= 36
    ensures 0.0 <= f < 1.0
  {
    Rounded(x, base, prec) - Whole(x, base, prec) as real
  }

  function Sign(x: real): string {
    if x < 0.0 then "-" else ""
  }

  /** The whole part as first written: a lone "0" below one, otherwise its
      digits least significant first. */
  function Lead(w: nat, base: int): (cs: string)
    requires 2 <= base <= 36
    ensures 0 < |cs| && forall i | 0 <= i < |cs| :: IsDigitBase(cs[i], base)
  {
    if w == 0 then "0" else LsfChars(w, base)
  }

  /** The precision left for the fraction: each whole digit (but not the
      lone "0") uses up one place. */
  function FracLeft(x: real, base: int, prec: int): int
    requires 2 <= base <= 36
  {
    Max0(prec) - |LsfChars(Whole(x, base, prec), base)|
  }

  /** How many characters the formatter writes when nothing stops it. */
  function Writes(x: real, base: int, prec: int): nat
    requires 2 <= base <= 36
  {
    var left := FracLeft(x, base, prec);
    |Sign(x)| + |Lead(Whole(x, base, prec), base)| + (if left > 0 then 1 + left else 0)
  }

  /** The write that uses up the budget n: the budget is checked after
      each write, so even n <= 0 allows the first one. */
  function LastWrite(n: int): (k: nat)
    ensures k >= 1 && k >= n
  {
    if n < 1 then 1 else n
  }

  /** The terminated string the buffer holds afterwards, from its pieces:
      the sign, the whole digits as first written (least significant first),
      the places left for the fraction and the fraction itself. Every write
      uses one unit of the budget n, and the formatter gives up (terminating
      the string where it stands) as soon as the budget is used up. */
  function Emit(sign: string, lead: string, left: int, f: real, base: int, n: int): string
    requires 2 <= base <= 36 && 0.0 <= f < 1.0
  {
    var written := sign + lead;
    var shown := sign + Reverse(lead);
    if |written| + (if left > 0 then 1 + left else 0) < n then
      shown + (if left > 0 then PointAndDigits(FracChars(f, base, left)) else "")
    else
      var k := LastWrite(n);
      if k <= |written| then written[..k]
      else if k == |written| + 1 then shown + "."
      else shown + PointAndDigits(FracChars(f, base, k - |written| - 1))
  }

  /** What convert_d_to_s leaves in the buffer; it succeeds when
      Writes(x, base, prec) < n. */
  function Out(x: real, base: int, prec: int, n: int): string
    requires 2 <= base <= 36
  {
    Emit(Sign(x), Lead(Whole(x, base, prec), base), FracLeft(x, base, prec),
      Fraction(x, base, prec), base, n)
  }

  /** The value the successful output stands for (without its sign): the
      whole part plus the fraction digits kept. */
  function Shown(x: real, base: int, prec: int): real
    requires 2 <= base <= 36
  {
    var m := Max0(FracLeft(x, base, prec));
    var ds := FracChars(Fraction(x, base, prec), base, m);
    Whole(x, base, prec) as real + FracVal(ds, base, 0, m)
  }

  // ---------------------------------------------------------------------
  // What the digits are worth

  lemma {:induction false} ReverseCons(c: char, cs: string)
    ensures Reverse([c] + cs) == Reverse(cs) + [c]
  {
    var r := Reverse([c] + cs);
    assert forall i | 0 <= i < |r| :: r[i] == (Reverse(cs) + [c])[i];
  }

  /** IntVal looks only at the digits in its window. */
  lemma {:induction false} IntValWindow(t1: string, lo1: nat, hi1: nat, t2: string, lo2: nat, hi2: nat, base: int)
    requires lo1 <= hi1 <= |t1| && lo2 <= hi2 <= |t2| && hi1 - lo1 == hi2 - lo2
    requires t1[lo1..hi1] == t2[lo2..hi2]
    ensures IntVal(t1, base, lo1, hi1) == IntVal(t2, base, lo2, hi2)
    decreases hi1 - lo1
  {
    if lo1 < hi1 {
      WindowFront(t1, lo1, hi1, t2, lo2, hi2);
      IntValWindow(t1, lo1, hi1 - 1, t2, lo2, hi2 - 1, base);
    }
  }

  /** So does FracVal. */
  lemma {:induction false} FracValWindow(t1: string, lo1: nat, hi1: nat, t2: string, lo2: nat, hi2: nat, base: int)
    requires base >= 1 && lo1 <= hi1 <= |t1| && lo2 <= hi2 <= |t2| && hi1 - lo1 == hi2 - lo2
    requires t1[lo1..hi1] == t2[lo2..hi2]
    ensures FracVal(t1, base, lo1, hi1) == FracVal(t2, base, lo2, hi2)
    decreases hi1 - lo1
  {
    if lo1 < hi1 {
      WindowFront(t1, lo1, hi1, t2, lo2, hi2);
      FracValWindow(t1, lo1, hi1 - 1, t2, lo2, hi2 - 1, base);
    }
  }

  /** Two equal windows agree on their last character and on the rest. */
  lemma {:induction false} WindowFront(t1: string, lo1: nat, hi1: nat, t2: string, lo2: nat, hi2: nat)
    requires lo1 < hi1 <= |t1| && lo2 < hi2 <= |t2| && hi1 - lo1 == hi2 - lo2
    requires t1[lo1..hi1] == t2[lo2..hi2]
    ensures t1[lo1..hi1 - 1] == t2[lo2..hi2 - 1]
    ensures t1[hi1 - 1] == t2[hi2 - 1]
  {
    var w1, w2, n := t1[lo1..hi1], t2[lo2..hi2], hi1 - lo1;
    assert w1[n - 1] == w2[n - 1];
    var u1, u2 := t1[lo1..hi1 - 1], t2[lo2..hi2 - 1];
    forall k | 0 <= k < n - 1
      ensures u1[k] == u2[k]
    {
      assert u1[k] == w1[k] && u2[k] == w2[k];
    }
  }

  /** Appending a digit shifts it in after the others. */
  lemma {:induction false} IntValSnoc(r: string, d: char, base: int)
    ensures IntVal(r + [d], base, 0, |r| + 1) == Shift(IntVal(r, base, 0, |r|), base, DigitValue(d, base))
  {
    IntValFront(r, d, base);
  }

  lemma {:induction false} IntValFront(r: string, d: char, base: int)
    ensures IntVal(r + [d], base, 0, |r|) == IntVal(r, base, 0, |r|)
  {
    var m := r + [d];
    assert m[0..|r|] == r[0..|r|];
    IntValWindow(m, 0, |r|, r, 0, |r|, base);
  }

  /** Appending fraction digit d adds it at the next place. */
  lemma {:induction false} FracValSnoc(r: string, d: int, base: int)
    requires 2 <= base <= 36 && 0 <= d < base
    ensures FracVal(r + [DigitChar(d, base)], base, 0, |r| + 1) == AddPlace(FracVal(r, base, 0, |r|), d, base, |r| + 1)
  {
    var m := r + [DigitChar(d, base)];
    assert m[0..|r|] == r[0..|r|];
    FracValWindow(m, 0, |r|, r, 0, |r|, base);
  }

  /** The digits of w, most significant first. */
  function MsfChars(w: nat, base: int): string
    requires 2 <= base <= 36
    decreases w
  {
    if w == 0 then [] else MsfChars(w / base, base) + [DigitChar(w % base, base)]
  }

  /** Reversing the digits as the whole-part loop writes them gives them
      most significant first. */
  lemma {:induction false} ReversedDigits(w: nat, base: int)
    requires 2 <= base <= 36
    ensures Reverse(LsfChars(w, base)) == MsfChars(w, base)
    decreases w
  {
    if w > 0 {
      Shrinks(w, base);
      ReversedDigits(w / base, base);
      ReverseCons(DigitChar(w % base, base), LsfChars(w / base, base));
    }
  }

  /** Read most significant first, the digits of w are worth w. */
  lemma {:induction false} DigitsValue(w: nat, base: int)
    requires 2 <= base <= 36
    ensures var m := MsfChars(w, base); IntVal(m, base, 0, |m|) == w as real
    decreases w
  {
    if w > 0 {
      var q := w / base;
      Shrinks(w, base);
      DigitsValue(q, base);
      IntValSnoc(MsfChars(q, base), DigitChar(w % base, base), base);
      ShiftWhole(q, base, w % base);
    }
  }

  /** Shifting a digit into a whole number is integer arithmetic. */
  lemma {:induction false} ShiftWhole(q: int, base: int, v: int)
    ensures Shift(q as real, base, v) == (q * base + v) as real
  {
  }

  lemma {:induction false} Shrinks(w: nat, base: int)
    requires base >= 2 && w > 0
    ensures w / base < w && w == (w / base) * base + w % base
  {
  }

  lemma {:induction false} Smaller(q: nat, base: int)
    requires base >= 2 && q > 0
    ensures 0 <= q / base < q
  {
  }

  /** The fraction digits taken off f, plus what is left scaled down, give
      f back. */
  lemma {:induction false} FracCharsValue(f: real, base: int, m: nat)
    requires 2 <= base <= 36 && 0.0 <= f < 1.0
    ensures FracVal(FracChars(f, base, m), base, 0, m) == f - FracRemainder(f, base, m) / PowerOf(base, m)
  {
    if m > 0 {
      FracCharsValue(f, base, m - 1);
      FracStep(f, base, m);
      NextFracDigit(FracChars(f, base, m - 1), f, FracRemainder(f, base, m - 1), base, m);
    }
  }

  /** One more fraction digit and the remainder it leaves. */
  lemma {:induction false} FracStep(f: real, base: int, m: nat)
    requires 2 <= base <= 36 && 0.0 <= f < 1.0 && m > 0
    ensures FracChars(f, base, m) == FracChars(f, base, m - 1) + [DigitChar(FracDigit(FracRemainder(f, base, m - 1), base), base)]
    ensures FracRemainder(f, base, m) == NextRemainder(FracRemainder(f, base, m - 1), base)
  {
  }

  lemma {:induction false} NextFracDigit(cs: string, f: real, rem: real, base: int, m: nat)
    requires 2 <= base <= 36 && 0.0 <= rem < 1.0 && |cs| + 1 == m
    requires FracVal(cs, base, 0, m - 1) == f - rem / PowerOf(base, m - 1)
    ensures FracVal(cs + [DigitChar(FracDigit(rem, base), base)], base, 0, m) == f - NextRemainder(rem, base) / PowerOf(base, m)
  {
    var d := FracDigit(rem, base);
    FracValSnoc(cs, d, base);
    ShiftDown(FracVal(cs, base, 0, m - 1), f, rem, d, base, m - 1);
  }

  /** The arithmetic of one fraction digit: taking digit d off the scaled
      remainder moves d / base^(k+1) into the digits' value. */
  lemma {:induction false} ShiftDown(x: real, f: real, r: real, d: int, base: int, k: nat)
    requires base >= 2 && x == f - r / PowerOf(base, k)
    ensures AddPlace(x, d, base, k + 1) == f - (r * base as real - d as real) / PowerOf(base, k + 1)
  {
    var p, b := PowerOf(base, k), base as real;
    assert PowerOf(base, k + 1) == p * b;
    assert (r * b - d as real) / (p * b) == r / p - d as real / (p * b);
  }

  /** Dropping trailing zeros leaves the fraction's value alone. */
  lemma {:induction false} TrimZerosValue(cs: string, base: int)
    requires 2 <= base <= 36
    ensures var r := TrimZeros(cs); FracVal(r, base, 0, |r|) == FracVal(cs, base, 0, |cs|)
  {
    if cs != [] && cs[|cs| - 1] == '0' {
      var front := cs[..|cs| - 1];
      TrimZerosValue(front, base);
      assert cs[0..|front|] == front[0..|front|];
      FracValWindow(cs, 0, |front|, front, 0, |front|, base);
    }
  }

  // ---------------------------------------------------------------------
  // Reading the output back

  /** A number laid out as the formatter writes it: an optional '-', the
      whole digits, and a point with the fraction digits when there are
      any. */
  function Compose(neg: bool, ds: string, fs: string): (t: string)
    ensures |t| == (if neg then 1 else 0) + |ds| + (if fs == [] then 0 else 1 + |fs|)
  {
    (if neg then "-" else "") + ds + (if fs == [] then [] else ['.'] + fs)
  }

  /** Where each part of a composed number sits. */
  lemma {:induction false} ComposeLayout(neg: bool, ds: string, fs: string)
    ensures var t, s0 := Compose(neg, ds, fs), if neg then 1 else 0;
      && (neg ==> t[0] == '-')
      && t[s0..s0 + |ds|] == ds
      && (fs != [] ==> t[s0 + |ds|] == '.' && t[s0 + |ds| + 1..] == fs)
  {
    var t, s0 := Compose(neg, ds, fs), if neg then 1 else 0;
    var sign: string := if neg then "-" else "";
    var tail: string := if fs == [] then [] else ['.'] + fs;
    assert t == sign + ds + tail;
    assert t[s0..s0 + |ds|] == ds;
    if fs != [] {
      assert t[s0 + |ds|..] == tail;
      assert t[s0 + |ds| + 1..] == tail[1..];
    }
  }

  /** DotIndex finds the first point. */
  lemma {:induction false} DotIndexAt(t: string, from: nat, d: nat)
    requires from <= d <= |t|
    requires forall k | from <= k < d :: t[k] != '.'
    requires d < |t| ==> t[d] == '.'
    ensures DotIndex(t, from) == d
    decreases d - from
  {
    if from < d {
      DotIndexAt(t, from + 1, d);
    }
  }

  /** A composed number is a well-formed token, and reads back as its
      whole digits plus its fraction digits, negated after a '-'. */
  lemma {:induction false} ComposeParses(neg: bool, ds: string, fs: string, base: int)
    requires 2 <= base <= 36 && |ds| > 0 && AllDigits(ds, base) && AllDigits(fs, base)
    ensures var v := IntVal(ds, base, 0, |ds|) + FracVal(fs, base, 0, |fs|);
      var p := Parse(Compose(neg, ds, fs), base);
      p.Some? && p.value == (if neg then -v else v)
  {
    var t := Compose(neg, ds, fs);
    ComposeWellFormed(neg, ds, fs, base);
    ComposeMagnitude(neg, ds, fs, base);
    ComposeSign(neg, ds, fs, base);
  }

  lemma {:induction false} ComposeSign(neg: bool, ds: string, fs: string, base: int)
    requires 2 <= base <= 36 && |ds| > 0 && AllDigits(ds, base) && AllDigits(fs, base)
    ensures var t := Compose(neg, ds, fs);
      SignLength(t) == (if neg then 1 else 0) && (neg <==> SignLength(t) == 1 && t[0] == '-')
  {
    ComposeLayout(neg, ds, fs);
    ComposeChars(neg, ds, fs, base);
  }

  lemma {:induction false} ComposeMagnitude(neg: bool, ds: string, fs: string, base: int)
    requires 2 <= base <= 36 && |ds| > 0 && AllDigits(ds, base) && AllDigits(fs, base)
    ensures Magnitude(Compose(neg, ds, fs), base) == IntVal(ds, base, 0, |ds|) + FracVal(fs, base, 0, |fs|)
  {
    var t := Compose(neg, ds, fs);
    var s0, d := if neg then 1 else 0, (if neg then 1 else 0) + |ds|;
    ComposeLayout(neg, ds, fs);
    ComposeChars(neg, ds, fs, base);
    ComposeSign(neg, ds, fs, base);
    DotIndexAt(t, s0, d);
    IntValWindow(t, s0, d, ds, 0, |ds|, base);
    if fs != [] {
      assert t[d + 1..|t|] == fs[0..|fs|];
      FracValWindow(t, d + 1, |t|, fs, 0, |fs|, base);
    }
  }

  /** Character by character: the sign, digits up to the point, the point,
      digits after it. */
  lemma {:induction false} ComposeChars(neg: bool, ds: string, fs: string, base: int)
    requires 2 <= base <= 36 && |ds| > 0 && AllDigits(ds, base) && AllDigits(fs, base)
    ensures var t, s0 := Compose(neg, ds, fs), if neg then 1 else 0;
      && (forall k | s0 <= k < s0 + |ds| :: IsDigitBase(t[k], base) && t[k] != '.')
      && (forall k | s0 + |ds| < k < |t| :: IsDigitBase(t[k], base) && t[k] != '.')
      && (!neg ==> IsDigitBase(t[0], base) && !IsSign(t[0]))
  {
    var t, s0 := Compose(neg, ds, fs), if neg then 1 else 0;
    ComposeLayout(neg, ds, fs);
    forall k | s0 <= k < s0 + |ds|
      ensures IsDigitBase(t[k], base) && t[k] != '.'
    {
      assert t[k] == t[s0..s0 + |ds|][k - s0];
    }
    forall k | s0 + |ds| < k < |t|
      ensures IsDigitBase(t[k], base) && t[k] != '.'
    {
      assert t[k] == t[s0 + |ds| + 1..][k - s0 - |ds| - 1];
    }
  }

  lemma {:induction false} ComposeWellFormed(neg: bool, ds: string, fs: string, base: int)
    requires 2 <= base <= 36 && |ds| > 0 && AllDigits(ds, base) && AllDigits(fs, base)
    ensures WellFormed(Compose(neg, ds, fs), base)
  {
    var t, s0 := Compose(neg, ds, fs), if neg then 1 else 0;
    ComposeLayout(neg, ds, fs);
    ComposeChars(neg, ds, fs, base);
    assert SignLength(t) == s0;
    assert IsDigitBase(t[s0], base);
    forall k1, k2 | s0 <= k1 < k2 < |t|
      ensures !(t[k1] == '.' && t[k2] == '.')
    {
    }
  }

  /** The whole digits as they stand after the reversal are digits of the
      base and read back as the whole part. */
  lemma {:induction false} WholeDigitsValue(w: nat, base: int)
    requires 2 <= base <= 36
    ensures var ds := Reverse(Lead(w, base));
      |ds| > 0 && AllDigits(ds, base) && IntVal(ds, base, 0, |ds|) == w as real
  {
    var ds := Reverse(Lead(w, base));
    if w == 0 {
      assert ds == "0";
      assert IntVal(ds, base, 0, 0) == 0.0;
    } else {
      ReversedDigits(w, base);
      DigitsValue(w, base);
    }
  }

  /** The fraction digits kept after trimming are digits of the base and
      have the value of all the digits written. */
  lemma {:induction false} KeptDigitsValue(f: real, base: int, m: nat)
    requires 2 <= base <= 36 && 0.0 <= f < 1.0
    ensures var fs := TrimZeros(FracChars(f, base, m));
      AllDigits(fs, base) && FracVal(fs, base, 0, |fs|) == FracVal(FracChars(f, base, m), base, 0, m)
  {
    var cs := FracChars(f, base, m);
    var fs := TrimZeros(cs);
    TrimZerosValue(cs, base);
    FracCharsDigits(f, base, m);
    forall i | 0 <= i < |fs| ensures IsDigitBase(fs[i], base) {
      assert fs[i] == cs[i];
    }
  }

  /** A successful output is the composed number with the reversed whole
      digits and the kept fraction digits. */
  lemma {:induction false} OutComposed(x: real, base: int, prec: int, n: int)
    requires 2 <= base <= 36 && Writes(x, base, prec) < n
    ensures var left := FracLeft(x, base, prec);
      Out(x, base, prec, n) == Compose(x < 0.0, Reverse(Lead(Whole(x, base, prec), base)),
        TrimZeros(FracChars(Fraction(x, base, prec), base, Max0(left))))
  {
    var left := FracLeft(x, base, prec);
    if left <= 0 {
      assert FracChars(Fraction(x, base, prec), base, Max0(left)) == [];
    }
  }

  /** The value shown is what the whole digits and the kept fraction
      digits read as. */
  lemma {:induction false} ShownDigits(x: real, base: int, prec: int)
    requires 2 <= base <= 36
    ensures var ds := Reverse(Lead(Whole(x, base, prec), base));
      var fs := TrimZeros(FracChars(Fraction(x, base, prec), base, Max0(FracLeft(x, base, prec))));
      |ds| > 0 && AllDigits(ds, base) && AllDigits(fs, base)
      && Shown(x, base, prec) == IntVal(ds, base, 0, |ds|) + FracVal(fs, base, 0, |fs|)
  {
    WholeDigitsValue(Whole(x, base, prec), base);
    KeptDigitsValue(Fraction(x, base, prec), base, Max0(FracLeft(x, base, prec)));
  }

  /** Reading back what convert_d_to_s wrote, when the buffer was long
      enough, gives the rounded value shown, with the sign of x. */
  lemma {:induction false} FormatRoundTrip(x: real, base: int, prec: int, n: int)
    requires 2 <= base <= 36 && Writes(x, base, prec) < n
    ensures var p := Parse(Out(x, base, prec, n), base);
      p.Some? && p.value == (if x < 0.0 then -Shown(x, base, prec) else Shown(x, base, prec))
  {
    var ds := Reverse(Lead(Whole(x, base, prec), base));
    var fs := TrimZeros(FracChars(Fraction(x, base, prec), base, Max0(FracLeft(x, base, prec))));
    var t, v := Out(x, base, prec, n), Shown(x, base, prec);
    OutComposed(x, base, prec, n);
    ShownDigits(x, base, prec);
    ComposeParses(x < 0.0, ds, fs, base);
    assert t == Compose(x < 0.0, ds, fs);
    assert v == IntVal(ds, base, 0, |ds|) + FracVal(fs, base, 0, |fs|);
  }

  /** The digits shown truncate the rounded value: it lies within one unit
      of the last place kept. */
  lemma {:induction false} ShownClose(x: real, base: int, prec: int)
    requires 2 <= base <= 36
    ensures var unit := 1.0 / PowerOf(base, Max0(FracLeft(x, base, prec)));
      Shown(x, base, prec) <= Rounded(x, base, prec) < Shown(x, base, prec) + unit
  {
    var f, m := Fraction(x, base, prec), Max0(FracLeft(x, base, prec));
    FracCharsValue(f, base, m);
    RemainderBelowUnit(FracRemainder(f, base, m), PowerOf(base, m));
  }

  lemma {:induction false} RemainderBelowUnit(r: real, p: real)
    requires 0.0 <= r < 1.0 && p >= 1.0
    ensures 0.0 <= r / p < 1.0 / p
  {
    assert 1.0 / p - r / p == (1.0 - r) / p;
    assert (1.0 - r) / p > 0.0;
  }

  /** Below one, no place is spent on whole digits, so the value shown is
      x rounded to prec places: within half a unit of the last place. */
  lemma {:induction false} SmallValueRounding(x: real, base: int, prec: int)
    requires 2 <= base <= 36 && Whole(x, base, prec) == 0
    ensures var half := 0.5 / PowerOf(base, Max0(prec));
      Magnitude0(x) - half < Shown(x, base, prec) <= Magnitude0(x) + half
  {
    ShownClose(x, base, prec);
    assert Max0(FracLeft(x, base, prec)) == Max0(prec);
    HalfUnits(PowerOf(base, Max0(prec)));
  }

  lemma {:induction false} HalfUnits(p: real)
    requires p >= 1.0
    ensures 1.0 / p == 0.5 / p + 0.5 / p
  {
  }

  // ---------------------------------------------------------------------
  // The arithmetic of the formatting loops

  /** The digit the whole-part loop takes from `whole`:
      (int)(whole - floor(whole / base) * base). */
  function DigitOf(whole: real, base: int): int
    requires base >= 2
  {
    Trunc(whole - Lower(whole, base) * base as real)
  }

  /** floor(whole / base), as a double. */
  function Lower(whole: real, base: int): real
    requires base >= 2
  {
    (whole / base as real).Floor as real
  }

  /** What is left below one after dividing q + e by the base. */
  function Carry(q: nat, e: real, base: int): real
    requires base >= 2
  {
    ((q % base) as real + e) / base as real
  }

  /** On a whole part q with a leftover e below one, the loop takes the
      last digit of q, and dividing by the base leaves q / base with a new
      leftover below one. */
  lemma {:induction false} WholeStep(q: nat, e: real, base: int)
    requires 2 <= base <= 36 && 0.0 <= e < 1.0
    ensures DigitOf(q as real + e, base) == q % base
    ensures (q as real + e) / base as real == (q / base) as real + Carry(q, e, base)
    ensures 0.0 <= Carry(q, e, base) < 1.0
  {
    var d, r, b := q / base, q % base, base as real;
    var c := Carry(q, e, base);
    CarryBounds(r, e, base);
    SplitQuotient(q, e, base);
    assert (q as real + e) / b == d as real + c;
    FloorOfSum(d, c);
    assert Lower(q as real + e, base) == (d as real + c).Floor as real;
    SplitProduct(d, c, base);
    assert (q as real + e) - d as real * b == r as real + e;
  }

  lemma {:induction false} FloorOfSum(d: int, c: real)
    requires 0.0 <= c < 1.0
    ensures (d as real + c).Floor == d
  {
  }

  lemma {:induction false} CarryBounds(r: int, e: real, base: int)
    requires 2 <= base && 0 <= r < base && 0.0 <= e < 1.0
    ensures 0.0 <= (r as real + e) / base as real < 1.0
  {
    QuotientBelowOne(r as real + e, base as real);
  }

  lemma {:induction false} QuotientBelowOne(y: real, b: real)
    requires 0.0 <= y < b
    ensures 0.0 <= y / b < 1.0
  {
    var c := y / b;
    assert c * b == y;
  }

  lemma {:induction false} SplitQuotient(q: nat, e: real, base: int)
    requires 2 <= base
    ensures (q as real + e) / base as real == (q / base) as real + Carry(q, e, base)
  {
    var d, r, b := q / base, q % base, base as real;
    assert q == d * base + r;
    assert q as real == d as real * b + r as real;
    assert (d as real * b + r as real + e) / b == d as real + (r as real + e) / b;
  }

  lemma {:induction false} SplitProduct(d: int, c: real, base: int)
    requires 2 <= base
    ensures (d as real + c) * base as real - d as real * base as real == c * base as real
  {
  }

  /** One step of the fraction loop, as the C code does it: frac *= base,
      digit = (int) frac, frac -= digit. */
  lemma {:induction false} FractionStep(rem: real, base: int)
    requires 2 <= base <= 36 && 0.0 <= rem < 1.0
    ensures Trunc(rem * base as real) == FracDigit(rem, base)
    ensures rem * base as real - Trunc(rem * base as real) as real == NextRemainder(rem, base)
  {
  }

  // ---------------------------------------------------------------------
  // convert_d_to_s on a character buffer

  /** The whole-part loop: the digits of w, least significant first, from
      p0 on, while `whole` is at least one; each write spends one unit of
      the budget n and one place of prec. When the budget runs out the
      string is terminated where it stands. */
  method WriteWhole(buf: array<char>, p0: nat, whole: real, ghost w: nat, base: int, prec: int, n: int)
    returns (p: nat, pr: int, ok: bool)
    requires 2 <= base <= 36 && whole == w as real
    requires (p0 == 0 || p0 < n) && LastWrite(n) <= buf.Length
    requires LastWrite(n) < buf.Length || p0 + |LsfChars(w, base)| < n
    modifies buf
    ensures buf[..p0] == old(buf[..p0])
    ensures p0 <= p < buf.Length
    ensures var ds := LsfChars(w, base);
      && p - p0 <= |ds| && buf[p0..p] == ds[..p - p0]
      && (ok ==> p - p0 == |ds| && (p == 0 || p < n) && pr == prec - |ds|)
      && (!ok ==> p == LastWrite(n) && buf[p] == '\0')
  {
    p, pr := p0, prec;
    var wh := whole;
    ghost var q: nat, e: real := w, 0.0;
    ghost var done: string := [];
    while wh >= 1.0
      invariant p0 <= p < buf.Length && (p == 0 || p < n)
      invariant wh == q as real + e && 0.0 <= e < 1.0
      invariant buf[..p0] == old(buf[..p0])
      invariant buf[p0..p] == done && |done| == p - p0
      invariant done + LsfChars(q, base) == LsfChars(w, base)
      invariant pr == prec - (p - p0)
      decreases q
    {
      assert q > 0;
      var c;
      ghost var q', e';
      c, q', e' := WholePlace(buf, p0, p, wh, base, q, e, done, w);
      done, p := done + [c], p + 1;
      // n - p is what is left of the budget
      if p >= n {
        buf[p] := '\0';
        PrefixOfConcat(done, LsfChars(q', base));
        ok := false;
        return;
      }
      wh := wh / base as real;
      pr := pr - 1;
      q, e := q', e';
    }
    PrefixOfConcat(done, LsfChars(q, base));
    ok := true;
  }

  /** Writes the digit the whole-part loop takes from wh = q + e at p, just
      after the digits done from p0 on. */
  method WholePlace(buf: array<char>, p0: nat, p: nat, wh: real, base: int,
                    ghost q: nat, ghost e: real, ghost done: string, ghost w: nat)
    returns (c: char, ghost q': nat, ghost e': real)
    requires 2 <= base <= 36 && 0.0 <= e < 1.0 && q > 0 && wh == q as real + e
    requires p0 <= p < buf.Length && buf[p0..p] == done
    requires done + LsfChars(q, base) == LsfChars(w, base)
    modifies buf
    ensures buf[..p0] == old(buf[..p0])
    ensures q' < q && q' == q / base
    ensures buf[p0..p + 1] == done + [c] && p + 1 <= p0 + |LsfChars(w, base)|
    ensures (done + [c]) + LsfChars(q', base) == LsfChars(w, base)
    ensures wh / base as real == q' as real + e' && 0.0 <= e' < 1.0
  {
    WholeLoopStep(q, e, base, done, w);
    q', e' := q / base, Carry(q, e, base);
    var digit := DigitOf(wh, base);
    c := DigitChar(digit, base);
    buf[p] := c;
    DigitsSoFar(buf, p0, p, done, c);
  }

  /** What one pass of the whole-part loop needs: while whole = q + e is
      at least one, q is positive and shrinks, the digit taken is the next
      one of w, and dividing by the base leaves q / base plus a leftover
      below one. */
  lemma {:induction false} WholeLoopStep(q: nat, e: real, base: int, done: string, w: nat)
    requires 2 <= base <= 36 && 0.0 <= e < 1.0 && q > 0
    requires done + LsfChars(q, base) == LsfChars(w, base)
    ensures 0 <= q / base < q
    ensures DigitOf(q as real + e, base) == q % base
    ensures (done + [DigitChar(q % base, base)]) + LsfChars(q / base, base) == LsfChars(w, base)
    ensures (q as real + e) / base as real == (q / base) as real + Carry(q, e, base)
    ensures 0.0 <= Carry(q, e, base) < 1.0
  {
    Smaller(q, base);
    WholeStep(q, e, base);
    LsfStep(q, base, done, w);
  }

  /** Taking the last digit of q moves it from the digits still to come to
      the digits done. */
  lemma {:induction false} LsfStep(q: int, base: int, done: string, w: nat)
    requires 2 <= base <= 36 && q > 0
    requires done + LsfChars(q, base) == LsfChars(w, base)
    ensures (done + [DigitChar(q % base, base)]) + LsfChars(q / base, base) == LsfChars(w, base)
  {
    var c := DigitChar(q % base, base);
    LsfCons(q, base);
    assert (done + [c]) + LsfChars(q / base, base) == done + ([c] + LsfChars(q / base, base));
  }

  lemma {:induction false} LsfCons(q: int, base: int)
    requires 2 <= base <= 36 && q > 0
    ensures LsfChars(q, base) == [DigitChar(q % base, base)] + LsfChars(q / base, base)
  {
  }

  lemma {:induction false} DigitsSoFar(buf: array<char>, p0: nat, p: nat, done: string, c: char)
    requires p0 <= p < buf.Length && buf[p0..p] == done && buf[p] == c
    ensures buf[p0..p + 1] == done + [c]
  {
    assert buf[p0..p + 1] == buf[p0..p] + [buf[p]];
  }

  lemma {:induction false} PrefixOfConcat(a: string, b: string)
    ensures (a + b)[..|a|] == a
  {
  }

  /** Swaps buf[lo..hi] end for end, as the loop after the whole part
      does. */
  method ReverseRange(buf: array<char>, lo: nat, hi: nat)
    requires lo <= hi <= buf.Length
    modifies buf
    ensures buf[..lo] == old(buf[..lo]) && buf[hi..] == old(buf[hi..])
    ensures buf[lo..hi] == Reverse(old(buf[lo..hi]))
  {
    ghost var before := buf[..];
    if lo == hi {
      return;
    }
    var i, j := lo, hi - 1;
    while i < j
      invariant lo <= i <= j + 1 <= hi && i - lo == hi - 1 - j
      invariant forall k | 0 <= k < lo || hi <= k < buf.Length :: buf[k] == before[k]
      invariant forall k | lo <= k < i || j < k < hi :: buf[k] == before[lo + hi - 1 - k]
      invariant forall k | i <= k <= j :: buf[k] == before[k]
    {
      buf[i], buf[j] := buf[j], buf[i];
      i, j := i + 1, j - 1;
    }
    ReversedWindow(before, buf[..], lo, hi);
  }

  /** Index facts of an end-for-end swap, as slice facts. */
  lemma {:induction false} ReversedWindow(a: string, b: string, lo: nat, hi: nat)
    requires |a| == |b| && lo <= hi <= |a|
    requires forall k | 0 <= k < lo || hi <= k < |a| :: b[k] == a[k]
    requires forall k | lo <= k < hi :: b[k] == a[lo + hi - 1 - k]
    ensures b[..lo] == a[..lo] && b[hi..] == a[hi..]
    ensures b[lo..hi] == Reverse(a[lo..hi])
  {
    var r := Reverse(a[lo..hi]);
    forall k | 0 <= k < hi - lo
      ensures b[lo..hi][k] == r[k]
    {
      assert b[lo + k] == a[hi - 1 - k];
    }
  }

  /** The fraction loop, after the point at ps: one digit per remaining
      place of prec, each spending one unit of the budget n. The string is
      terminated just past the last nonzero digit, or at the point itself
      when every digit so far is zero, whether the loop completes or the
      budget runs out. */
  method WriteFraction(buf: array<char>, ps: nat, frac: real, base: int, prec: int, n: int)
    returns (p: nat, ok: bool, ghost j: nat, ghost digits: string, ghost shown: string)
    requires 2 <= base <= 36 && 0.0 <= frac < 1.0
    requires ps + 1 < n <= buf.Length && (n < buf.Length || ps + 1 + Max0(prec) < n) && buf[ps] == '.'
    modifies buf
    ensures buf[..ps] == old(buf[..ps])
    ensures p == ps + 1 + j <= n && j <= Max0(prec)
    ensures ok ==> j == Max0(prec) && p < n
    ensures !ok ==> p == n
    ensures digits == FracChars(frac, base, j)
    ensures shown == PointAndDigits(digits)
    ensures ps + |shown| < buf.Length && buf[ps..ps + |shown|] == shown && buf[ps + |shown|] == '\0'
  {
    var lastzero;
    p, ok, lastzero, j, digits := FractionDigits(buf, ps, frac, base, prec, n);
    shown := Terminate(buf, ps, p, lastzero, digits);
  }

  /** The digit loop of convert_d_to_s: writes up to prec fraction digits
      after the point at ps, stopping early when the budget runs out, and
      tracks the place just past the last nonzero digit. */
  method FractionDigits(buf: array<char>, ps: nat, frac: real, base: int, prec: int, n: int)
    returns (p: nat, ok: bool, lastzero: nat, ghost j: nat, ghost done: string)
    requires 2 <= base <= 36 && 0.0 <= frac < 1.0
    requires ps + 1 < n <= buf.Length && buf[ps] == '.'
    modifies buf
    ensures buf[..ps] == old(buf[..ps]) && buf[ps] == '.'
    ensures p == ps + 1 + j <= n && j <= Max0(prec)
    ensures ok ==> j == Max0(prec) && p < n
    ensures !ok ==> p == n
    ensures done == FracChars(frac, base, j)
    ensures buf[ps + 1..p] == done
    ensures lastzero == ps + |PointAndDigits(done)|
  {
    p := ps + 1;
    lastzero := ps;
    var pr, fr := prec, frac;
    done := [];
    j, ok := 0, true;
    while pr > 0 && ok
      invariant ps + 1 <= p <= n && j == p - ps - 1
      invariant pr == prec - j && j <= Max0(prec)
      invariant ok ==> p < n
      invariant !ok ==> p == n
      invariant done == FracChars(frac, base, j) && fr == FracRemainder(frac, base, j)
      invariant buf[..ps] == old(buf[..ps]) && buf[ps] == '.'
      invariant buf[ps + 1..p] == done
      invariant lastzero == ps + |PointAndDigits(done)|
    {
      pr := pr - 1;
      var c;
      c, fr := FractionPlace(buf, ps, p, frac, base, j, fr, done);
      p, j, done := p + 1, j + 1, done + [c];
      if c != '0' {
        lastzero := p;
      }
      ok := p < n;
    }
  }

  /** Writes fraction digit j + 1 at p, just after the j digits already
      written after the point at ps, and returns it with the remainder it
      leaves. */
  method FractionPlace(buf: array<char>, ps: nat, p: nat, frac: real, base: int,
                       ghost j: nat, fr: real, ghost done: string)
    returns (c: char, rest: real)
    requires 2 <= base <= 36 && 0.0 <= frac < 1.0
    requires ps < p < buf.Length && buf[ps] == '.' && buf[ps + 1..p] == done
    requires done == FracChars(frac, base, j) && fr == FracRemainder(frac, base, j)
    modifies buf
    ensures buf[..ps] == old(buf[..ps]) && buf[ps] == '.'
    ensures buf[ps + 1..p + 1] == done + [c] == FracChars(frac, base, j + 1)
    ensures rest == FracRemainder(frac, base, j + 1)
    ensures |PointAndDigits(done + [c])| == if c == '0' then |PointAndDigits(done)| else |done| + 2
  {
    FracStep(frac, base, j + 1);
    var digit;
    digit, rest := FractionDigit(fr, base);
    c := DigitChar(digit, base);
    buf[p] := c;
    TrimSnoc(done, c);
    DigitsSoFar(buf, ps + 1, p, done, c);
  }

  /** One pass of the fraction loop: frac *= base, digit = (int) frac,
      frac -= digit. */
  method FractionDigit(frac: real, base: int) returns (digit: int, rest: real)
    requires 2 <= base <= 36 && 0.0 <= frac < 1.0
    ensures digit == FracDigit(frac, base) && rest == NextRemainder(frac, base)
    ensures 0 <= digit < base && 0.0 <= rest < 1.0
  {
    FractionStep(frac, base);
    var scaled := frac * base as real;
    digit := Trunc(scaled);
    rest := scaled - digit as real;
  }

  /** *lastzero = 0: ends the string after the point and the digits kept. */
  method Terminate(buf: array<char>, ps: nat, p: nat, lastzero: nat, ghost cs: string)
    returns (ghost shown: string)
    requires ps < p < buf.Length && buf[ps] == '.' && buf[ps + 1..p] == cs
    requires lastzero == ps + |PointAndDigits(cs)|
    modifies buf
    ensures buf[..ps] == old(buf[..ps])
    ensures shown == PointAndDigits(cs)
    ensures ps + |shown| < buf.Length && buf[ps..ps + |shown|] == shown && buf[ps + |shown|] == '\0'
  {
    shown := PointAndDigits(cs);
    ghost var s := buf[..];
    PointAndDigitsLaid(s, ps, p);
    buf[lastzero] := '\0';
    assert buf[ps..lastzero] == s[ps..lastzero];
  }

  /** The point and the digits kept are already in place. */
  lemma {:induction false} PointAndDigitsLaid(s: string, ps: nat, p: nat)
    requires ps < p <= |s| && s[ps] == '.'
    ensures var shown := PointAndDigits(s[ps + 1..p]);
      ps + |shown| <= p && s[ps..ps + |shown|] == shown
  {
    var cs := s[ps + 1..p];
    var kept := TrimZeros(cs);
    if kept != [] {
      assert s[ps..ps + 1 + |kept|] == [s[ps]] + s[ps + 1..ps + 1 + |kept|];
      assert s[ps + 1..ps + 1 + |kept|] == cs[..|kept|];
    }
  }

  /** A zero digit added at the end is trimmed again; any other digit is
      kept with everything before it. */
  lemma {:induction false} TrimSnoc(cs: string, c: char)
    ensures TrimZeros(cs + [c]) == if c == '0' then TrimZeros(cs) else cs + [c]
  {
    assert (cs + [c])[..|cs|] == cs;
  }

  /** The budget runs out while the sign or the whole digits are written:
      the buffer holds what was written so far, unreversed. */
  lemma {:induction false} EmitStopsInWhole(sign: string, lead: string, left: int, f: real, base: int, n: int)
    requires 2 <= base <= 36 && 0.0 <= f < 1.0
    requires LastWrite(n) <= |sign| + |lead|
    ensures !(|sign| + |lead| + (if left > 0 then 1 + left else 0) < n)
    ensures Emit(sign, lead, left, f, base, n) == (sign + lead)[..LastWrite(n)]
  {
  }

  /** No place is left for a fraction: the reversed whole part is all. */
  lemma {:induction false} EmitWithoutFraction(sign: string, lead: string, left: int, f: real, base: int, n: int)
    requires 2 <= base <= 36 && 0.0 <= f < 1.0
    requires left <= 0 && |sign| + |lead| < n
    ensures Emit(sign, lead, left, f, base, n) == sign + Reverse(lead)
  {
  }

  /** The budget runs out on the point itself. */
  lemma {:induction false} EmitStopsAtPoint(sign: string, lead: string, left: int, f: real, base: int, n: int)
    requires 2 <= base <= 36 && 0.0 <= f < 1.0
    requires left > 0 && LastWrite(n) == |sign| + |lead| + 1
    ensures !(|sign| + |lead| + 1 + left < n)
    ensures Emit(sign, lead, left, f, base, n) == sign + Reverse(lead) + "."
  {
  }

  /** The fraction loop wrote j digits: either all the places left, within
      the budget, or up to the end of the budget. */
  lemma {:induction false} EmitWithFraction(sign: string, lead: string, left: int, f: real, base: int, n: int, j: nat)
    requires 2 <= base <= 36 && 0.0 <= f < 1.0
    requires var ps := |sign| + |lead|;
      0 < left && j <= left && ps + 1 < n && ((j == left && ps + 1 + j < n) || ps + 1 + j == n)
    ensures |sign| + |lead| + 1 + left < n <==> |sign| + |lead| + 1 + j < n
    ensures Emit(sign, lead, left, f, base, n) == sign + Reverse(lead) + PointAndDigits(FracChars(f, base, j))
  {
    if |sign| + |lead| + 1 + left < n {
      EmitAll(sign, lead, left, f, base, n, j);
    } else {
      EmitStopsInFraction(sign, lead, left, f, base, n, j);
    }
  }

  /** Within the budget, every place left gets its digit. */
  lemma {:induction false} EmitAll(sign: string, lead: string, left: int, f: real, base: int, n: int, j: nat)
    requires 2 <= base <= 36 && 0.0 <= f < 1.0
    requires 0 < left == j && |sign| + |lead| + 1 + left < n
    ensures Emit(sign, lead, left, f, base, n) == sign + Reverse(lead) + PointAndDigits(FracChars(f, base, j))
  {
  }

  /** Past the point, a stopped output shows the fraction digits written. */
  lemma {:induction false} EmitStopsInFraction(sign: string, lead: string, left: int, f: real, base: int, n: int, j: nat)
    requires 2 <= base <= 36 && 0.0 <= f < 1.0
    requires 0 < j <= left && n == |sign| + |lead| + 1 + j
    ensures Emit(sign, lead, left, f, base, n) == sign + Reverse(lead) + PointAndDigits(FracChars(f, base, j))
  {
    var written := sign + lead;
    assert |written| == |sign| + |lead|;
    assert LastWrite(n) == n && n - |written| - 1 == j;
  }

  /** The whole digits written so far, after the sign. */
  lemma {:induction false} WholeSoFar(buf: array<char>, ws: nat, p: nat, a: string, b: string)
    requires |a| == ws <= p <= buf.Length && p - ws <= |b|
    requires buf[..ws] == a && buf[ws..p] == b[..p - ws]
    ensures buf[..p] == (a + b)[..p]
  {
    assert buf[..p] == buf[..ws] + buf[ws..p];
  }

  /** Two pieces of the buffer side by side. */
  lemma {:induction false} Joined(buf: array<char>, lo: nat, hi: nat, a: string, b: string)
    requires |a| == lo <= hi <= buf.Length && hi - lo == |b|
    requires buf[..lo] == a && buf[lo..hi] == b
    ensures buf[..hi] == a + b
  {
    assert buf[..hi] == buf[..lo] + buf[lo..hi];
  }

  /** convert_d_to_s(buf, x, base, prec, n): writes x in the base, rounded
      at prec places, into buf; it succeeds exactly when the whole text fits
      the budget n, and in every case buf holds Out(x, base, prec, n)
      followed by a terminator. */
  method ConvertDtoS(buf: array<char>, x: real, base: int, prec: int, n: int) returns (ok: bool)
    requires 2 <= base <= 36 && LastWrite(n) <= buf.Length
    requires LastWrite(n) < buf.Length || Writes(x, base, prec) < n
    modifies buf
    ensures ok <==> Writes(x, base, prec) < n
    ensures var out := Out(x, base, prec, n);
      |out| < buf.Length && buf[..|out|] == out && buf[|out|] == '\0'
  {
    ghost var left, f := FracLeft(x, base, prec), Fraction(x, base, prec);
    ghost var sign, lead := Sign(x), Lead(Whole(x, base, prec), base);
    assert Out(x, base, prec, n) == Emit(sign, lead, left, f, base, n);
    assert Writes(x, base, prec) == |sign| + |lead| + (if left > 0 then 1 + left else 0);
    var ws, p, pr, frac;
    ws, p, pr, frac, ok := WholePart(buf, x, base, prec, n);
    if !ok {
      EmitStopsInWhole(sign, lead, left, f, base, n);
      return;
    }
    // swap the whole digits end for end
    ReverseRange(buf, ws, p);
    Joined(buf, ws, p, sign, Reverse(lead));
    if pr <= 0 {
      buf[p] := '\0';
      EmitWithoutFraction(sign, lead, left, f, base, n);
      return;
    }
    ok := PointAndFraction(buf, sign, lead, left, p, frac, base, pr, n);
  }

  /** The display loop of the calculator's front end formats into a buffer
      of exactly n characters and passes n as the budget as well. A value
      whose whole part alone has more than n digits does not fit, and the
      terminator then goes to buf[n], one past the end: the buffer
      ConvertDtoS asks for is out of reach. */
  lemma {:induction false} BudgetOfWholeBufferOverruns(x: real, base: int, prec: int, n: int)
    requires 2 <= base <= 36 && n >= 1 && x >= PowerOf(base, n)
    ensures !(Writes(x, base, prec) < n) && LastWrite(n) == n
    ensures !(LastWrite(n) <= n && (LastWrite(n) < n || Writes(x, base, prec) < n))
  {
    PowerIsWhole(base, n);
    assert Rounded(x, base, prec) >= x;
    LsfLength(Whole(x, base, prec), base, n);
  }

  /** base^k as a natural number. */
  function WholePower(base: nat, k: nat): (p: nat)
    ensures base >= 1 ==> p >= 1
  {
    if k == 0 then 1 else WholePower(base, k - 1) * base
  }

  lemma {:induction false} PowerIsWhole(base: nat, k: nat)
    ensures PowerOf(base, k) == WholePower(base, k) as real
  {
    if k > 0 {
      PowerIsWhole(base, k - 1);
    }
  }

  /** A number of at least base^k has more than k digits. */
  lemma {:induction false} LsfLength(w: int, base: int, k: nat)
    requires 2 <= base <= 36 && w >= WholePower(base, k)
    ensures |LsfChars(w, base)| > k
    decreases k
  {
    if k > 0 {
      PowerStep(w, base, k);
      LsfCons(w, base);
      LsfLength(w / base, base, k - 1);
    }
  }

  /** A positive number below base^k has at most k digits. */
  lemma {:induction false} LsfShort(w: int, base: int, k: nat)
    requires 2 <= base <= 36 && w < WholePower(base, k)
    ensures |LsfChars(w, base)| <= k
    decreases k
  {
    if w > 0 {
      QuotientBelow(w, base, WholePower(base, k - 1));
      LsfCons(w, base);
      LsfShort(w / base, base, k - 1);
    }
  }

  /** How many digits w has in the base. */
  function DigitsOf(w: int, base: int): nat
    requires 2 <= base <= 36
    decreases w
  {
    if w <= 0 then 0 else 1 + DigitsOf(w / base, base)
  }

  lemma {:induction false} DigitsOfLength(w: int, base: int)
    requires 2 <= base <= 36
    ensures DigitsOf(w, base) == |LsfChars(w, base)|
    decreases w
  {
    if w > 0 {
      DigitsOfLength(w / base, base);
    }
  }

  /** A positive w has n digits exactly when base^(n-1) <= w < base^n. */
  lemma {:induction false} DigitCount(w: int, base: int)
    requires 2 <= base <= 36 && w > 0
    ensures var n := |LsfChars(w, base)|;
      n > 0 && WholePower(base, n - 1) <= w < WholePower(base, n)
  {
    var n := |LsfChars(w, base)|;
    if w < WholePower(base, n - 1) {
      LsfShort(w, base, n - 1);
    }
    if w >= WholePower(base, n) {
      LsfLength(w, base, n);
    }
  }

  lemma {:induction false} PowerStep(w: int, base: int, k: nat)
    requires 2 <= base <= 36 && k > 0 && w >= WholePower(base, k)
    ensures w > 0 && w / base >= WholePower(base, k - 1)
  {
    QuotientAtLeast(w, base, WholePower(base, k - 1));
  }

  lemma {:induction false} QuotientAtLeast(w: int, b: int, c: int)
    requires b > 0 && w >= c * b
    ensures w / b >= c
  {
    var q, r := w / b, w % b;
    assert w == q * b + r && r < b;
    if q < c {
      MoreTimes(q + 1, c, b);
    }
  }

  lemma {:induction false} QuotientBelow(w: int, b: int, c: int)
    requires b > 0 && 0 < w < c * b
    ensures c > 0 && w / b < c
  {
    var q, r := w / b, w % b;
    assert w == q * b + r && 0 <= r;
    if c <= 0 {
      MoreTimes(c, 0, b);
    }
    if q >= c {
      MoreTimes(c, q, b);
    }
  }

  lemma {:induction false} MoreTimes(a: int, c: int, b: int)
    requires a <= c && b >= 0
    ensures a * b <= c * b
  {
  }

  /** The display call with the last byte of the buffer kept for the
      terminator, as the front end evidently meant when it clears that byte
      after a successful call: every value then formats within the buffer. */
  method ConvertInto(buf: array<char>, x: real, base: int, prec: int) returns (ok: bool)
    requires 2 <= base <= 36 && buf.Length >= 2
    modifies buf
    ensures ok <==> Writes(x, base, prec) < buf.Length - 1
    ensures var out := Out(x, base, prec, buf.Length - 1);
      |out| < buf.Length && buf[..|out|] == out && buf[|out|] == '\0'
  {
    ok := ConvertDtoS(buf, x, base, prec, buf.Length - 1);
  }

  /** The point and the fraction digits of convert_d_to_s, written after
      the sign and the whole digits (already put in order) when some places
      are left for the fraction. */
  method PointAndFraction(buf: array<char>, ghost sign: string, ghost lead: string, ghost left: int,
                          ps: nat, frac: real, base: int, pr: int, n: int)
    returns (ok: bool)
    requires 2 <= base <= 36 && 0.0 <= frac < 1.0 && pr == left > 0
    requires ps == |sign| + |lead| < n <= buf.Length && (n < buf.Length || ps + 1 + left < n)
    requires buf[..ps] == sign + Reverse(lead)
    modifies buf
    ensures ok <==> |sign| + |lead| + 1 + left < n
    ensures var out := Emit(sign, lead, left, frac, base, n);
      |out| < buf.Length && buf[..|out|] == out && buf[|out|] == '\0'
  {
    buf[ps] := '.';
    assert buf[..ps] == sign + Reverse(lead);
    var p := ps + 1;
    if p >= n {
      buf[p] := '\0';
      EmitStopsAtPoint(sign, lead, left, frac, base, n);
      Joined(buf, ps, p, sign + Reverse(lead), ".");
      return false;
    }
    ghost var j, digits, shown;
    p, ok, j, digits, shown := WriteFraction(buf, ps, frac, base, pr, n);
    EmitWithFraction(sign, lead, left, frac, base, n, j);
    Joined(buf, ps, ps + |shown|, sign + Reverse(lead), shown);
  }

  /** The sign, the rounding and the whole digits of convert_d_to_s, least
      significant first from ws on. When the budget runs out on the way, buf
      holds what was written so far and its terminator; otherwise the digits
      are in place, with the places left for the fraction and the fraction. */
  method WholePart(buf: array<char>, x: real, base: int, prec: int, n: int)
    returns (ws: nat, p: nat, pr: int, frac: real, ok: bool)
    requires 2 <= base <= 36 && LastWrite(n) <= buf.Length
    requires LastWrite(n) < buf.Length || Writes(x, base, prec) < n
    modifies buf
    ensures var sign, lead := Sign(x), Lead(Whole(x, base, prec), base);
      ok ==> (ws == |sign| && p == ws + |lead| < n && p < buf.Length && buf[..ws] == sign && buf[ws..p] == lead
        && pr == FracLeft(x, base, prec) && frac == Fraction(x, base, prec))
    ensures var written := Sign(x) + Lead(Whole(x, base, prec), base);
      !ok ==> (p == LastWrite(n) <= |written| && buf[..p] == written[..p] && buf[p] == '\0')
  {
    ghost var w := Whole(x, base, prec);
    ghost var sign, lead := Sign(x), Lead(w, base);
    p := 0;
    var mag := x;
    if x < 0.0 {
      buf[p] := '-';
      p := p + 1;
      if p >= n {
        buf[p] := '\0';
        assert buf[..p] == (sign + lead)[..p];
        return 0, p, prec, 0.0, false;
      }
      mag := -x;
    }
    ws := p;
    assert buf[..ws] == sign;
    var whole;
    whole, frac := RoundAt(x, mag, base, prec);
    pr := if prec < 0 then 0 else prec;
    if whole <= 0.0 {
      assert w == 0 && lead == "0";
      buf[p] := '0';
      p := p + 1;
      if p >= n {
        buf[p] := '\0';
        WholeSoFar(buf, ws, p, sign, lead);
        return ws, p, pr, frac, false;
      }
    } else {
      assert w > 0 && lead == LsfChars(w, base);
    }
    p, pr, ok := WriteWhole(buf, p, whole, w, base, pr, n);
    if !ok {
      WholeSoFar(buf, ws, p, sign, lead);
      return;
    }
  }

  /** Adds half a unit of the last place kept and splits the result into
      its whole part and its fraction. */
  method RoundAt(ghost x: real, mag: real, base: int, prec: int) returns (whole: real, frac: real)
    requires 2 <= base <= 36 && mag == Magnitude0(x)
    ensures whole == Whole(x, base, prec) as real && frac == Fraction(x, base, prec)
  {
    var pr := if prec < 0 then 0 else prec;
    var btp, t := 1.0, 0;
    while t < pr
      invariant 0 <= t <= pr && btp == PowerOf(base, t)
    {
      btp := btp * base as real;
      t := t + 1;
    }
    var xr := mag + 0.5 / btp;
    whole := xr.Floor as real;
    frac := xr - whole;
  }
}
