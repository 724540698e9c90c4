/** What the rpncalc engine promises, stated over the functions of module
    Engine: when each ds_* operation fails and that a failure changes
    nothing, round trips on the stack, the base and precision rules, the
    statistics registers and the treatment of numbers by rpncalc_eval. */
module EngineLaws {
  import opened Dispatch
  import opened Codec
  import Format
  import opened Engine

  // ---------------------------------------------------------------------
  // The stack operations

  /** The error conditions of ds_push, ds_pop, ds_dup, ds_swap, ds_replace
      and ds_fromtop, each as an if-and-only-if, and a failure leaves the
      record as it was. */
  lemma {:induction false} FailureConditions(c: Calc, v: real, h: int, d: int)
    requires h >= 1
    ensures (Push(c, v).status == Error) <==> |c.stack| == c.size
    ensures (Pop(c).status == Error) <==> |c.stack| == 0
    ensures (Duplicate(c).status == Error) <==> |c.stack| == 0 || |c.stack| == c.size
    ensures (SwapTop(c).status == Error) <==> |c.stack| < 2
    ensures (Replace(c, h, v).status == Error) <==> |c.stack| < h
    ensures HasDepth(c, d) <==> 0 <= d < |c.stack|
    ensures Push(c, v).status == Error ==> Push(c, v).after == c
    ensures Pop(c).status == Error ==> Pop(c).after == c
    ensures Duplicate(c).status == Error ==> Duplicate(c).after == c
    ensures SwapTop(c).status == Error ==> SwapTop(c).after == c
    ensures Replace(c, h, v).status == Error ==> Replace(c, h, v).after == c
  {
  }

  /** A push that succeeds puts `v` on top, and a pop then gives back the
      record the push started from. */
  lemma {:induction false} PushThenPop(c: Calc, v: real)
    requires |c.stack| < c.size
    ensures Push(c, v).status == Ok
    ensures Top(Push(c, v).after) == v
    ensures Pop(Push(c, v).after) == Outcome(Ok, c)
  {
    assert (c.stack + [v])[..|c.stack|] == c.stack;
  }

  /** Popping the top and pushing it again restores the record. */
  lemma {:induction false} PopThenPush(c: Calc)
    requires Valid(c) && |c.stack| > 0
    ensures Push(Pop(c).after, Top(c)) == Outcome(Ok, c)
  {
    assert c.stack[..|c.stack| - 1] + [Top(c)] == c.stack;
  }

  /** dup followed by drop changes nothing. */
  lemma {:induction false} DupThenDrop(c: Calc)
    requires 0 < |c.stack| < c.size
    ensures Duplicate(c).status == Ok
    ensures DropTop(Duplicate(c).after) == Outcome(Ok, c)
  {
    assert (c.stack + [Top(c)])[..|c.stack|] == c.stack;
  }

  /** swap is its own inverse. */
  lemma {:induction false} SwapTwice(c: Calc)
    requires |c.stack| >= 2
    ensures SwapTop(SwapTop(c).after) == Outcome(Ok, c)
  {
    var s := c.stack;
    var n := |s|;
    var t := s[..n - 2] + [s[n - 1], s[n - 2]];
    assert t[..n - 2] == s[..n - 2];
    assert t[..n - 2] + [t[n - 1], t[n - 2]] == s;
  }

  /** ds_rot keeps the depth, moves the bottom value to the top and every
      other value down one place; below two values it does nothing. */
  lemma {:induction false} RotateShape(c: Calc)
    ensures |Rotate(c).stack| == |c.stack|
    ensures Rotate(c).(stack := c.stack) == c
    ensures |c.stack| < 2 ==> Rotate(c) == c
    ensures |c.stack| >= 2 ==> Top(Rotate(c)) == c.stack[0]
    ensures forall i | 0 <= i < |c.stack| - 1 && |c.stack| >= 2 :: Rotate(c).stack[i] == c.stack[i + 1]
  {
  }

  /** `k` rotations one after the other. */
  function Rotations(c: Calc, k: nat): Calc {
    if k == 0 then c else Rotate(Rotations(c, k - 1))
  }

  /** After `k` rotations the stack is cut after its k-th value and the
      two parts exchanged. */
  lemma {:induction false} RotationsCut(c: Calc, k: nat)
    requires |c.stack| >= 2 && k <= |c.stack|
    ensures Rotations(c, k) == c.(stack := c.stack[k..] + c.stack[..k])
  {
    var s := c.stack;
    if k == 0 {
      assert s[0..] + s[..0] == s;
    } else {
      RotationsCut(c, k - 1);
      var t := s[k - 1..] + s[..k - 1];
      assert t[0] == s[k - 1];
      assert t[1..] + [t[0]] == s[k..] + s[..k];
    }
  }

  /** As many rotations as there are values bring the stack back. */
  lemma {:induction false} RotateAround(c: Calc)
    ensures Rotations(c, |c.stack|) == c
  {
    if |c.stack| < 2 {
      if |c.stack| == 1 {
        assert Rotations(c, 0) == c;
      }
    } else {
      RotationsCut(c, |c.stack|);
      assert c.stack[|c.stack|..] + c.stack[..|c.stack|] == c.stack;
    }
  }

  /** ds_replace(h, v) that succeeds: the depth becomes next - h + 1, `v` is
      on top, the values below the h replaced ones are untouched and so is
      everything but the stack. */
  lemma {:induction false} ReplaceShape(c: Calc, h: int, v: real)
    requires h >= 1 && |c.stack| >= h
    ensures var r := Replace(c, h, v);
      r.status == Ok && |r.after.stack| == |c.stack| - h + 1 && Top(r.after) == v
      && r.after.stack[..|c.stack| - h] == c.stack[..|c.stack| - h]
      && r.after.(stack := c.stack) == c
  {
    var n := |c.stack|;
    assert (c.stack[..n - h] + [v])[..n - h] == c.stack[..n - h];
  }

  // ---------------------------------------------------------------------
  // Base and precision

  /** A double holds 15 decimal and 13 hexadecimal digits. */
  lemma {:induction false} SigFigValues()
    ensures SigFig(10) == 15 && SigFig(16) == 13
  {
    assert Format.WholePower(10, 15) == 1_000_000_000_000_000;
    assert Format.WholePower(10, 16) == 10_000_000_000_000_000;
    SigFigIs(10, 15);
    assert Format.WholePower(16, 13) == 0x10_0000_0000_0000;
    assert Format.WholePower(16, 14) == 0x100_0000_0000_0000;
    SigFigIs(16, 13);
  }

  /** Only one k has base^k <= 2^53 < base^(k+1). */
  lemma {:induction false} SigFigIs(base: int, k: nat)
    requires 2 <= base <= 36
    requires Format.WholePower(base, k) <= DoubleRange < Format.WholePower(base, k + 1)
    ensures SigFig(base) == k
  {
    SigFigBounds(base);
    var s := SigFig(base);
    if s > k {
      FewerDigits(base, s, k + 1);
    } else if s < k {
      FewerDigits(base, k, s + 1);
    }
  }

  /** Powers grow with the exponent. */
  lemma {:induction false} FewerDigits(base: nat, j: nat, k: nat)
    requires base >= 2 && j >= k
    ensures Format.WholePower(base, j) >= Format.WholePower(base, k)
    decreases j
  {
    if j > k {
      FewerDigits(base, j - 1, k);
    }
  }

  /** ds_init starts in base 10 at the full 15 digits of a double, and
      the first `hex` cuts the precision to the 13 a double holds in base
      16. */
  lemma {:induction false} StartingPrecision(size: int, env: Env)
    requires size > 0
    ensures var c := Init(size).value;
      c.sigfig == c.askprec == c.prec == 15
      && ApplyMode(c, UseBase(16), env).after.prec == 13
  {
    SigFigValues();
  }

  /** ds_setprec records the request and clamps the precision into
      [0, sigfig]; a request inside that range is taken as it is. */
  lemma {:induction false} PrecisionClamp(c: Calc, p: int)
    requires c.sigfig >= 0
    ensures var r := ChangePrec(c, p);
      r.askprec == p && 0 <= r.prec <= c.sigfig && (0 <= p <= c.sigfig ==> r.prec == p)
      && r.(askprec := c.askprec, prec := c.prec) == c
  {
  }

  /** ds_setbase accepts exactly the bases 2 to 36, then takes the
      precision asked for, cut to the new base's significant figures, and
      changes nothing else; a refused base changes nothing at all. */
  lemma {:induction false} BaseSetting(c: Calc, b: int)
    ensures (ChangeBase(c, b).status == Ok) <==> 2 <= b <= 36
    ensures var r := ChangeBase(c, b).after;
      if 2 <= b <= 36 then
        r.base == b && r.sigfig == SigFig(b) && r.prec == (if c.askprec < SigFig(b) then c.askprec else SigFig(b))
        && r.(base := c.base, sigfig := c.sigfig, prec := c.prec) == c
      else r == c
  {
  }

  /** ds_setbase has no lower clamp: a negative precision asked for
      earlier comes back as a negative precision. */
  lemma {:induction false} BaseKeepsNegativePrecision(c: Calc, b: int)
    requires 2 <= b <= 36 && c.askprec < 0
    ensures ChangeBase(c, b).after.prec == c.askprec < 0
  {
  }

  /** Of two base changes the last one that succeeds decides the base, the
      significant figures and the precision. */
  lemma {:induction false} BaseLastWins(c: Calc, b1: int, b2: int)
    requires 2 <= b2 <= 36
    ensures ChangeBase(ChangeBase(c, b1).after, b2) == ChangeBase(c, b2)
  {
  }

  /** `=base` and `=prec` drop the top before the setter runs, so a
      refused base still costs the value it was read from. */
  lemma {:induction false} SetBaseConsumesTop(c: Calc, env: Env)
    requires |c.stack| > 0 && !(2 <= Format.Trunc(Top(c)) <= 36)
    ensures ApplyMode(c, SetBase, env) == Outcome(Error, c.(stack := c.stack[..|c.stack| - 1]))
  {
  }

  // ---------------------------------------------------------------------
  // Statistics

  /** stat raises n by half the depth. */
  lemma {:induction false} PairsCount(st: Stats, s: seq<real>)
    requires |s| % 2 == 0
    ensures Pairs(st, s).n == st.n + (|s| / 2) as real
    decreases |s|
  {
    if |s| >= 2 {
      PairsCount(st, s[..|s| - 2]);
    }
  }

  /** Entering the pairs of `a` and then those of `b` is entering the pairs
      of a + b, when both hold whole pairs. */
  lemma {:induction false} PairsAppend(st: Stats, a: seq<real>, b: seq<real>)
    requires |a| % 2 == 0 && |b| % 2 == 0
    ensures Pairs(st, a + b) == Pairs(Pairs(st, a), b)
    decreases |b|
  {
    if |b| == 0 {
      assert a + b == a;
    } else {
      var ab := a + b;
      assert ab[..|ab| - 2] == a + b[..|b| - 2];
      PairsAppend(st, a, b[..|b| - 2]);
    }
  }

  /** xstat raises n by the depth. */
  lemma {:induction false} SeriesCount(st: Stats, s: seq<real>)
    ensures Series(st, s).n == st.n + |s| as real
  {
    if s != [] {
      SeriesCount(st, s[..|s| - 1]);
    }
  }

  /** stat: accepted exactly on an even depth of at least two; it empties
      the stack, raises n by half the depth and touches nothing else. */
  lemma {:induction false} StatShape(c: Calc, env: Env)
    ensures var r := ApplyStats(c, Stat, env);
      (r.status == Ok <==> |c.stack| >= 2 && |c.stack| % 2 == 0)
      && (r.status == Ok ==>
            r.after.stack == [] && r.after.stats.n == c.stats.n + (|c.stack| / 2) as real
            && r.after.(stack := c.stack, stats := c.stats) == c)
      && (r.status != Ok ==> r.after == c)
  {
    if |c.stack| >= 2 && |c.stack| % 2 == 0 {
      PairsCount(c.stats, c.stack);
    }
  }

  /** xstat: accepted on any non-empty stack; it empties the stack, raises
      n by the depth and touches nothing else. */
  lemma {:induction false} XStatShape(c: Calc, env: Env)
    ensures var r := ApplyStats(c, XStat, env);
      (r.status == Ok <==> |c.stack| > 0)
      && (r.status == Ok ==>
            r.after.stack == [] && r.after.stats.n == c.stats.n + |c.stack| as real
            && r.after.(stack := c.stack, stats := c.stats) == c)
      && (r.status != Ok ==> r.after == c)
  {
    if |c.stack| > 0 {
      SeriesCount(c.stats, c.stack);
    }
  }

  /** From empty registers, xstat gives the values the x coordinates
      0, 1, ..., depth - 1, so sumx is 0 + 1 + ... + (depth - 1). */
  lemma {:induction false} SeriesSumX(s: seq<real>)
    ensures 2.0 * Series(NoStats, s).sumx == (|s| * (|s| - 1)) as real
  {
    if s != [] {
      var m := |s| - 1;
      SeriesSumX(s[..m]);
      SeriesCount(NoStats, s[..m]);
      assert (m * (m - 1)) + 2 * m == (m + 1) * m;
    }
  }

  /** The line y = a x + b at x. */
  function Line(a: real, b: real, x: real): real {
    a * x + b
  }

  /** Registers holding only points on the line y = a x + b. */
  ghost predicate OnLine(st: Stats, a: real, b: real) {
    st.sumy == a * st.sumx + b * st.n && st.sumxy == a * st.sumxx + b * st.sumx
  }

  /** Every pair (s[2k], s[2k+1]) lies on y = a x + b. */
  ghost predicate PairsOnLine(s: seq<real>, a: real, b: real) {
    forall k | 0 <= k && 2 * k + 1 < |s| :: s[2 * k + 1] == Line(a, b, s[2 * k])
  }

  /** Entering one point of the line keeps the registers on it. */
  lemma {:induction false} AddPointOnLine(st: Stats, a: real, b: real, x: real)
    requires OnLine(st, a, b)
    ensures OnLine(AddPoint(st, x, Line(a, b, x)), a, b)
  {
    var y := Line(a, b, x);
    assert x * y == a * (x * x) + b * x;
    assert st.sumxy + x * y == a * (st.sumxx + x * x) + b * (st.sumx + x);
  }

  /** stat keeps the registers on a line when every pair entered lies on it. */
  lemma {:induction false} PairsStayOnLine(st: Stats, s: seq<real>, a: real, b: real)
    requires |s| % 2 == 0 && OnLine(st, a, b) && PairsOnLine(s, a, b)
    ensures OnLine(Pairs(st, s), a, b)
    decreases |s|
  {
    if |s| >= 2 {
      var n := |s|;
      var k := n / 2 - 1;
      assert 2 * k == n - 2 && 2 * k + 1 == n - 1;
      assert s[2 * k + 1] == Line(a, b, s[2 * k]);
      assert PairsOnLine(s[..n - 2], a, b) by {
        forall j | 0 <= j && 2 * j + 1 < n - 2
          ensures s[..n - 2][2 * j + 1] == Line(a, b, s[..n - 2][2 * j])
        {
          assert s[2 * j + 1] == Line(a, b, s[2 * j]);
        }
      }
      PairsStayOnLine(st, s[..n - 2], a, b);
      AddPointOnLine(Pairs(st, s[..n - 2]), a, b, s[n - 2]);
    }
  }

  /** The least-squares line through registers that lie on y = a x + b is
      that line, whenever it is determined. */
  lemma {:induction false} ExactFit(st: Stats, a: real, b: real)
    requires OnLine(st, a, b) && Denominator(st) != 0.0
    ensures LeastSqA(st) == a && LeastSqB(st) == b
  {
    var d := Denominator(st);
    assert st.n * st.sumxy - st.sumx * st.sumy == a * d;
    assert st.sumxx * st.sumy - st.sumx * st.sumxy == b * d;
  }

  /** Points entered with stat from empty registers, all on the line
      y = a x + b, give back a and b. */
  lemma {:induction false} StatFitsLine(s: seq<real>, a: real, b: real)
    requires |s| % 2 == 0 && PairsOnLine(s, a, b) && Denominator(Pairs(NoStats, s)) != 0.0
    ensures LeastSqA(Pairs(NoStats, s)) == a && LeastSqB(Pairs(NoStats, s)) == b
  {
    PairsStayOnLine(NoStats, s, a, b);
    ExactFit(Pairs(NoStats, s), a, b);
  }

  /** ac empties the stack and zeroes the memory and the registers, and
      keeps the base, precision, angle unit and generators. */
  lemma {:induction false} AllClearKeepsSettings(c: Calc)
    ensures var r := ClearAll(c);
      r.stack == [] && r.mem == 0.0 && r.stats == NoStats
      && r.(stack := c.stack, mem := c.mem, stats := c.stats) == c
  {
  }

  // ---------------------------------------------------------------------
  // Arithmetic

  /** The record after entering `y` and then applying a two-value operator. */
  function EnterThen(c: Calc, y: real, op: PairOp): Calc {
    ApplyPair(Push(c, y).after, op).after
  }

  /** Entering y and then applying a two-value operator applies it to the
      old top and y, in that order, when the stack has room for y. */
  lemma {:induction false} EnterThenApplies(c: Calc, y: real, op: PairOp)
    requires 1 <= |c.stack| < c.size && !PairRefused(op, y)
    ensures EnterThen(c, y, op)
      == c.(stack := c.stack[..|c.stack| - 1] + [PairValue(op, c.stack[|c.stack| - 1], y)])
  {
    var p := Push(c, y).after;
    assert p.stack == c.stack + [y];
    assert Top(p) == y && Second(p) == c.stack[|c.stack| - 1];
    assert p.stack[..|p.stack| - 2] == c.stack[..|c.stack| - 1];
  }

  /** Entering y and pressing + and then entering y and pressing - gives
      back the calculator it started from. */
  lemma {:induction false} SubtractionUndoesAddition(c: Calc, y: real)
    requires 1 <= |c.stack| < c.size
    ensures EnterThen(EnterThen(c, y, Add), y, Sub) == c
  {
    var n := |c.stack|;
    var x := c.stack[n - 1];
    EnterThenApplies(c, y, Add);
    var sum := EnterThen(c, y, Add);
    assert sum.stack[..n - 1] == c.stack[..n - 1] && sum.stack[n - 1] == x + y;
    EnterThenApplies(sum, y, Sub);
    assert EnterThen(sum, y, Sub) == c.(stack := c.stack[..n - 1] + [x]);
    assert c.stack[..n - 1] + [x] == c.stack;
  }

  /** Entering a nonzero y and pressing * and then entering y and pressing /
      gives back the calculator it started from. */
  lemma {:induction false} DivisionUndoesMultiplication(c: Calc, y: real)
    requires 1 <= |c.stack| < c.size && y != 0.0
    ensures EnterThen(EnterThen(c, y, Mul), y, Div) == c
  {
    var n := |c.stack|;
    var x := c.stack[n - 1];
    EnterThenApplies(c, y, Mul);
    var product := EnterThen(c, y, Mul);
    assert product.stack[..n - 1] == c.stack[..n - 1] && product.stack[n - 1] == x * y;
    EnterThenApplies(product, y, Div);
    DivisionUndoes(x, y);
    assert EnterThen(product, y, Div) == c.(stack := c.stack[..n - 1] + [x]);
    assert c.stack[..n - 1] + [x] == c.stack;
  }

  /** chs twice gives back the calculator it started from. */
  lemma {:induction false} NegateTwice(c: Calc)
    requires |c.stack| >= 1
    ensures ApplyScalar(ApplyScalar(c, Negate).after, Negate).after == c
  {
    var n := |c.stack|;
    var x := c.stack[n - 1];
    var negated := ApplyScalar(c, Negate).after;
    assert negated == c.(stack := c.stack[..n - 1] + [-x]);
    assert negated.stack[..n - 1] == c.stack[..n - 1];
    assert c.stack[..n - 1] + [x] == c.stack;
  }

  lemma {:induction false} DivisionUndoes(x: real, y: real)
    requires y != 0.0
    ensures x * y / y == x
  {
    assert (x * y / y) * y == x * y;
    Cancel(x * y / y, x, y);
  }

  /** div and mod on the rounded operands i and j keep C's identity
      (i / j) * j + i % j == i, with the remainder signed like i and
      smaller than |j|. */
  lemma {:induction false} DivModIdentity(x: real, y: real)
    requires RoundHalfAway(y) != 0
    ensures var i, j := RoundHalfAway(x), RoundHalfAway(y);
      var q, m := PairValue(IntQuotient, x, y), PairValue(IntRemainder, x, y);
      q * j as real + m == i as real
        && (i >= 0 ==> 0.0 <= m < (if j > 0 then j else -j) as real)
        && (i < 0 ==> -(if j > 0 then j else -j) as real < m <= 0.0)
  {
    var i, j := RoundHalfAway(x), RoundHalfAway(y);
    var q := Quotient(i, j);
    QuotientTruncates(i, j);
    assert (q * j) as real == q as real * j as real;
  }

  // ---------------------------------------------------------------------
  // The memory: sto (X->M), rcl (M->X), sum (M+X->M) and exc (X<->M)

  /** What each memory operator does to the stack and the memory: each of
      sto, sum and exc needs a value, rcl needs a free slot, and a refusal
      changes nothing. */
  lemma {:induction false} MemoryEffects(c: Calc)
    ensures var r := ApplyMemory(c, Store);
      if |c.stack| == 0 then r == Fail(c)
      else r == Outcome(Ok, c.(stack := c.stack[..|c.stack| - 1], mem := Top(c)))
    ensures var r := ApplyMemory(c, Recall);
      if |c.stack| == c.size then r == Fail(c)
      else r == Outcome(Ok, c.(stack := c.stack + [c.mem]))
    ensures var r := ApplyMemory(c, MemAdd);
      if |c.stack| == 0 then r == Fail(c)
      else r == Outcome(Ok, c.(stack := c.stack[..|c.stack| - 1], mem := c.mem + Top(c)))
    ensures var r := ApplyMemory(c, Exchange);
      if |c.stack| == 0 then r == Fail(c)
      else r == Outcome(Ok, c.(stack := c.stack[..|c.stack| - 1] + [c.mem], mem := Top(c)))
  {
  }

  /** sto then rcl puts the stack back, with the old top now in memory. */
  lemma {:induction false} StoreThenRecall(c: Calc)
    requires 0 < |c.stack| <= c.size
    ensures var s := ApplyMemory(c, Store).after;
      ApplyMemory(s, Recall) == Outcome(Ok, c.(mem := Top(c)))
  {
    var n := |c.stack|;
    assert c.stack[..n - 1] + [c.stack[n - 1]] == c.stack;
  }

  /** rcl then sto is the identity when there is room for the recalled value. */
  lemma {:induction false} RecallThenStore(c: Calc)
    requires |c.stack| < c.size
    ensures var s := ApplyMemory(c, Recall).after;
      ApplyMemory(s, Store) == Outcome(Ok, c)
  {
    assert (c.stack + [c.mem])[..|c.stack|] == c.stack;
  }

  /** exc is its own inverse. */
  lemma {:induction false} ExchangeTwice(c: Calc)
    requires |c.stack| > 0
    ensures var s := ApplyMemory(c, Exchange).after;
      ApplyMemory(s, Exchange) == Outcome(Ok, c)
  {
    var n := |c.stack|;
    var t := c.stack[..n - 1] + [c.mem];
    assert t[..n - 1] == c.stack[..n - 1];
    assert t[..n - 1] + [c.stack[n - 1]] == c.stack;
  }

  /** sum adds up: summing the top two values one after the other leaves
      their total added to the memory and both values gone. */
  lemma {:induction false} SumTwice(c: Calc)
    requires |c.stack| >= 2
    ensures var s := ApplyMemory(ApplyMemory(c, MemAdd).after, MemAdd).after;
      s == c.(stack := c.stack[..|c.stack| - 2], mem := c.mem + Top(c) + Second(c))
  {
    var n := |c.stack|;
    assert c.stack[..n - 1][..n - 2] == c.stack[..n - 2];
  }

  // ---------------------------------------------------------------------
  // rpncalc_op and rpncalc_eval

  /** Every operator that fails leaves the record as it found it, save
      three: setbase, which has already taken its operand off the stack
      when the base is out of range, and the uniform and normal draws,
      which move their generator on even when the stack is full. The
      record keeps no state of the exponential generator, so erand counts
      as failing cleanly here, although in the program its draw on a full
      stack moves the unit seed of that generator on. */
  lemma {:induction false} FailureChangesNothing(c: Calc, op: Op, env: Env, at: nat)
    requires Valid(c)
    requires op != OnMode(SetBase) && op != Variate(DrawUniform) && op != Variate(DrawNormal)
    requires Apply(c, op, env, at).status == Error
    ensures Apply(c, op, env, at).after == c
  {
  }

  /** toxy and tort never run out of room once their two operands are
      there: the two values they push replace the two they took. */
  lemma {:induction false} CoordinatesFit(c: Calc, op: CoordOp, env: Env)
    requires Valid(c)
    ensures (ApplyCoordinates(c, op, env).status == Ok) <==> |c.stack| >= 2
    ensures |c.stack| >= 2 ==> |ApplyCoordinates(c, op, env).after.stack| == |c.stack|
  {
  }

  /** A draw on a full stack is an error, yet the generator has moved on. */
  lemma {:induction false} DrawOnFullStack(c: Calc, env: Env, at: nat)
    requires |c.stack| == c.size
    ensures ApplyRandom(c, DrawUniform, env, at)
      == Outcome(Error, c.(urand := Variates.UniformNext(c.urand).0))
  {
  }

  /** A token that is no operator but a number is read in the base of the
      record before the token and pushed; on a full stack the number is
      dropped and the token still succeeds. */
  lemma {:induction false} NumberToken(c: Calc, line: string, p: nat, env: Env)
    requires Valid(c)
    requires Operate(c, line, p, env).status != Ok && ParseAt(line, p, c.base).Some?
    ensures var tried := Operate(c, line, p, env); var t := Token(c, line, p, env);
      t.status == Ok
      && (|tried.after.stack| == tried.after.size ==> t.after == tried.after)
      && (|tried.after.stack| < tried.after.size ==>
            t.after == tried.after.(stack := tried.after.stack + [ParseAt(line, p, c.base).value]))
  {
  }

  /** A token that is neither an operator that succeeds nor a number ends
      rpncalc_eval with an error, keeping what the tokens before it did. */
  lemma {:induction false} BadTokenStops(c: Calc, line: string, i: nat, env: Env)
    requires Valid(c) && i <= |line|
    requires var p := SkipWhite(line, i);
      At(line, p) != '\0' && !Alone(line, p, '?') && !Alone(line, p, 'q')
      && Operate(c, line, p, env).status != Ok && ParseAt(line, p, c.base).None?
    ensures EvalFrom(c, line, i, env) == Outcome(Error, Operate(c, line, SkipWhite(line, i), env).after)
  {
  }

  /** A lone '?' or 'q' as the next token ends rpncalc_eval with HELP or
      QUIT before anything else happens. */
  lemma {:induction false} HelpAndQuit(c: Calc, line: string, i: nat, env: Env)
    requires Valid(c) && i <= |line|
    ensures Alone(line, SkipWhite(line, i), '?') ==> EvalFrom(c, line, i, env) == Outcome(Help, c)
    ensures Alone(line, SkipWhite(line, i), 'q') ==> EvalFrom(c, line, i, env) == Outcome(Quit, c)
  {
  }

  /** A line of nothing but white space changes nothing. */
  lemma {:induction false} BlankLine(c: Calc, line: string, env: Env)
    requires Valid(c)
    requires forall k | 0 <= k < |line| :: IsSpace(line[k])
    ensures Eval(c, line, env) == Outcome(Ok, c)
  {
    var p := SkipWhite(line, 0);
    if p < |line| {
      assert false;
    }
  }
}
