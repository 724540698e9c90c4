/** The rpncalc engine as values: the calculator record DS, the ds_*
    stack operations, the operator switch of rpncalc_op and the line
    evaluator rpncalc_eval. The class in calculator.dfy is proved against
    these functions; the lemmas here state what they promise.

    The stack is a sequence with its bottom first, so the top of the stack
    is its last element. Doubles are modelled as reals. */
module Engine {
  import opened Dispatch
  import opened Codec
  import Format
  import Variates

  /** RPN_OK, RPN_ERROR, RPN_HELP, RPN_QUIT. */
  datatype Status = Ok | Error | Help | Quit

  /** The statistics registers: sums over the entered points and their count. */
  datatype Stats = Stats(sumx: real, sumy: real, sumxx: real, sumyy: real, sumxy: real, n: real)

  const NoStats := Stats(0.0, 0.0, 0.0, 0.0, 0.0, 0.0)

  /** The DS record. `stack` holds stack[0 .. next), so `next` is its
      length; `angle` is angle_unit (0 radians, 1 degrees); the generators
      are kept by value, and of the exponential one only its mean. */
  datatype Calc = Calc(
    stack: seq<real>, size: int, mem: real, stats: Stats,
    base: int, askprec: int, prec: int, sigfig: int, angle: int,
    urand: Variates.Uniform, nrand: Variates.Normal, esd: real)

  /** What ds_init establishes and every operation keeps. */
  predicate Valid(c: Calc) {
    0 < c.size && |c.stack| <= c.size && 2 <= c.base <= 36 && c.sigfig == SigFig(c.base)
  }

  /** 2^53: a double holds DOUBLE_BITS = 53 bits of fraction. */
  const DoubleRange: nat := 0x20_0000_0000_0000

  /** sigfig(base), the digits of the base a double holds: the whole part
      of 53 log 2 / log base, that is, one less than the number of digits
      2^53 has in the base. */
  function SigFig(base: int): int
    requires 2 <= base <= 36
  {
    Format.DigitsOf(DoubleRange, base) - 1
  }

  /** SigFig(base) is the largest k with base^k <= 2^53. */
  lemma {:induction false} SigFigBounds(base: int)
    requires 2 <= base <= 36
    ensures var k := SigFig(base);
      k >= 0 && Format.WholePower(base, k) <= DoubleRange < Format.WholePower(base, k + 1)
  {
    Format.DigitCount(DoubleRange, base);
    Format.DigitsOfLength(DoubleRange, base);
  }

  /** The outside world of one evaluation: results of the C library
      (transcendental functions and the integer-cast operators) and of
      errno, the clock and the two log-based
      generators. The clock and the draws are read once per token, so they
      are indexed by the offset of the token in the line. */
  datatype Env = Env(
    lib: (LibFn, real, real) -> real,
    fails: (LibFn, real, real) -> bool,
    clock: nat -> real,
    normal: nat -> (real, real),
    exponential: nat -> real)

  datatype Outcome = Outcome(status: Status, after: Calc)

  function Fail(c: Calc): Outcome {
    Outcome(Error, c)
  }

  // ---------------------------------------------------------------------
  // ds_init and the ds_* operations

  /** ds_init over a stack of `size` slots; None when size <= 0. */
  function Init(size: int): (r: Option<Calc>)
    ensures r.Some? <==> size > 0
    ensures r.Some? ==> Valid(r.value) && r.value.stack == [] && r.value.base == 10
  {
    if size <= 0 then None
    else
      var sf := SigFig(10);
      Some(Calc([], size, 0.0, NoStats, 10, sf, sf, sf, 0,
                Variates.Uniform(Variates.InitialSeed, 0.0, 1.0),
                Variates.Normal(0.0, 1.0, 0.0, 0.0, false), 1.0))
  }

  function Top(c: Calc): real
    requires |c.stack| > 0
  {
    c.stack[|c.stack| - 1]
  }

  /** The value under the top. */
  function Second(c: Calc): real
    requires |c.stack| > 1
  {
    c.stack[|c.stack| - 2]
  }

  /** ds_clear */
  function ClearStack(c: Calc): (r: Calc)
    ensures Valid(c) ==> Valid(r) {
    c.(stack := [])
  }

  /** ds_allclear: memory, statistics and stack; base, precision, angle
      unit and generators stay. */
  function ClearAll(c: Calc): (r: Calc)
    ensures Valid(c) ==> Valid(r)
  {
    c.(stack := [], mem := 0.0, stats := NoStats)
  }

  /** ds_push */
  function Push(c: Calc, v: real): (r: Outcome)
    ensures Valid(c) ==> Valid(r.after)
  {
    if |c.stack| == c.size then Fail(c) else Outcome(Ok, c.(stack := c.stack + [v]))
  }

  /** ds_pop; the value popped is Top(c). */
  function Pop(c: Calc): (r: Outcome)
    ensures Valid(c) ==> Valid(r.after)
  {
    if |c.stack| == 0 then Fail(c) else Outcome(Ok, c.(stack := c.stack[..|c.stack| - 1]))
  }

  /** ds_dup */
  function Duplicate(c: Calc): (r: Outcome)
    ensures Valid(c) ==> Valid(r.after)
  {
    if |c.stack| == 0 || |c.stack| == c.size then Fail(c)
    else Outcome(Ok, c.(stack := c.stack + [Top(c)]))
  }

  /** ds_swap */
  function SwapTop(c: Calc): (r: Outcome)
    ensures Valid(c) ==> Valid(r.after)
  {
    if |c.stack| < 2 then Fail(c)
    else Outcome(Ok, c.(stack := c.stack[..|c.stack| - 2] + [Top(c), Second(c)]))
  }

  /** ds_rot: the bottom value moves to the top; it never fails. */
  function Rotate(c: Calc): (r: Calc)
    ensures Valid(c) ==> Valid(r)
  {
    if |c.stack| < 2 then c else c.(stack := c.stack[1..] + [c.stack[0]])
  }

  /** ds_drop */
  function DropTop(c: Calc): (r: Outcome)
    ensures Valid(c) ==> Valid(r.after)
  {
    Pop(c)
  }

  /** ds_replace(howmany, v); every caller passes 1 or 2. */
  function Replace(c: Calc, howmany: int, v: real): (r: Outcome)
    requires howmany >= 1
    ensures Valid(c) ==> Valid(r.after)
  {
    if |c.stack| < howmany then Fail(c)
    else Outcome(Ok, c.(stack := c.stack[..|c.stack| - howmany] + [v]))
  }

  /** ds_fromtop(down) succeeds exactly when this holds. */
  predicate HasDepth(c: Calc, down: int) {
    0 <= down < |c.stack|
  }

  /** The value ds_fromtop(down) reads. */
  function FromTop(c: Calc, down: int): real
    requires HasDepth(c, down)
  {
    c.stack[|c.stack| - 1 - down]
  }

  /** ds_setbase */
  function ChangeBase(c: Calc, b: int): (r: Outcome)
    ensures Valid(c) ==> Valid(r.after)
  {
    if b < 2 || b > 36 then Fail(c)
    else
      var sf := SigFig(b);
      Outcome(Ok, c.(base := b, sigfig := sf, prec := if c.askprec > sf then sf else c.askprec))
  }

  /** ds_setprec */
  function ChangePrec(c: Calc, p: int): (r: Calc)
    ensures Valid(c) ==> Valid(r)
  {
    c.(askprec := p, prec := if p < 0 then 0 else if p > c.sigfig then c.sigfig else p)
  }

  // ---------------------------------------------------------------------
  // Statistics

  /** The running sum of the avg loop, bottom first. */
  function Sum(s: seq<real>): real {
    if s == [] then 0.0 else Sum(s[..|s| - 1]) + s[|s| - 1]
  }

  /** The running sum of squares of the std loop. */
  function SumSquares(s: seq<real>): real {
    if s == [] then 0.0 else SumSquares(s[..|s| - 1]) + s[|s| - 1] * s[|s| - 1]
  }

  /** The argument of sqrt in ds_stddev, ds_stddev_x and ds_stddev_y. */
  function Spread(sum: real, sumsq: real, count: real): real
    requires count >= 2.0
  {
    var mean := sum / count;
    (sumsq - 2.0 * mean * sum + count * mean * mean) / (count - 1.0)
  }

  /** ds_stddev and its x and y variants: 0 below two points. */
  function StdDevOf(sum: real, sumsq: real, count: real, env: Env): real {
    if count < 2.0 then 0.0 else env.lib(Sqrt, Spread(sum, sumsq, count), 0.0)
  }

  /** One point entered into the statistics registers. */
  function AddPoint(st: Stats, x: real, y: real): Stats {
    Stats(st.sumx + x, st.sumy + y, st.sumxx + x * x, st.sumyy + y * y, st.sumxy + x * y, st.n + 1.0)
  }

  /** The stat loop: the pairs (s[0], s[1]), (s[2], s[3]), ... entered bottom up. */
  function Pairs(st: Stats, s: seq<real>): Stats
    decreases |s|
  {
    if |s| < 2 then st
    else AddPoint(Pairs(st, s[..|s| - 2]), s[|s| - 2], s[|s| - 1])
  }

  /** One more turn of the stat loop enters the next pair. */
  lemma {:induction false} PairsNext(st: Stats, s: seq<real>, t: nat)
    requires t + 2 <= |s|
    ensures Pairs(st, s[..t + 2]) == AddPoint(Pairs(st, s[..t]), s[t], s[t + 1])
  {
    assert s[..t + 2][..t] == s[..t];
  }

  /** The xstat loop: each value entered as y with the running count as x. */
  function Series(st: Stats, s: seq<real>): Stats {
    if s == [] then st
    else
      var before := Series(st, s[..|s| - 1]);
      AddPoint(before, before.n, s[|s| - 1])
  }

  function Register(st: Stats, r: StatReg): real {
    match r
    case Count => st.n
    case SumX => st.sumx
    case SumY => st.sumy
    case SumXX => st.sumxx
    case SumYY => st.sumyy
    case SumXY => st.sumxy
  }

  /** n * sumxx - sumx^2, the determinant of the normal equations. */
  function Denominator(st: Stats): real {
    st.n * st.sumxx - st.sumx * st.sumx
  }

  /** ds_leastsq_a: the slope of the least-squares line, 0 when undetermined. */
  function LeastSqA(st: Stats): real {
    var d := Denominator(st);
    if d == 0.0 then 0.0 else (st.n * st.sumxy - st.sumx * st.sumy) / d
  }

  /** ds_leastsq_b: the intercept, 0 when undetermined. */
  function LeastSqB(st: Stats): real {
    var d := Denominator(st);
    if d == 0.0 then 0.0 else (st.sumxx * st.sumy - st.sumx * st.sumxy) / d
  }

  /** ds_leastsq_r: 0 unless the product of the two determinants is
      positive; the quotient by its square root comes from the library. */
  function LeastSqR(st: Stats, env: Env): real {
    var d := Denominator(st) * (st.n * st.sumyy - st.sumy * st.sumy);
    if d <= 0.0 then 0.0 else env.lib(Correlation, st.n * st.sumxy - st.sumx * st.sumy, d)
  }

  // ---------------------------------------------------------------------
  // Conversions and constants of rpncalc.c

  const DegreesPerRadian: real := 57.295779513082320875
  const RadiansPerDegree: real := 0.017453292519943295770
  const Ln10Inverse: real := 0.43429448190325182765
  const PiValue: real := 3.1415926535897932385
  const EValue: real := 2.7182818284590452354
  const SpeedOfLight: real := 299792458.0
  const MileInMeters: real := 5280.0 * 12.0 * 0.0254
  const FootInMeters: real := 12.0 * 0.0254
  const InchInMm: real := 25.4

  /** An angle argument in the unit the library takes (radians). */
  function ToLibAngle(angle: int, x: real): real {
    if angle == 0 then x else x * RadiansPerDegree
  }

  /** An angle result in the calculator's unit. */
  function FromLibAngle(angle: int, x: real): real {
    if angle == 0 then x else x * DegreesPerRadian
  }

  /** The round macro: half away from zero, then C's truncating cast. */
  function RoundHalfAway(x: real): (r: int)
    ensures x >= 0.0 ==> x - 0.5 < r as real <= x + 0.5
    ensures x < 0.0 ==> x - 0.5 <= r as real < x + 0.5
  {
    if x < 0.0 then Format.Trunc(x - 0.5) else Format.Trunc(x + 0.5)
  }

  /** C's integer `/` for any nonzero divisor: truncation toward zero. */
  function Quotient(i: int, j: int): int
    requires j != 0
  {
    if j > 0 then Variates.CDiv(i, j) else -Variates.CDiv(i, -j)
  }

  /** div and mod as C computes them: the quotient is truncated toward zero,
      so the remainder i - j * (i / j) has the sign of i and is smaller than
      |j|. */
  lemma {:induction false} QuotientTruncates(i: int, j: int)
    requires j != 0
    ensures var m, a := i - j * Quotient(i, j), if j > 0 then j else -j;
      (i >= 0 ==> 0 <= m < a) && (i < 0 ==> -a < m <= 0)
  {
    var a := if j > 0 then j else -j;
    var q := Variates.CDiv(i, a);
    assert Quotient(i, j) * j == q * a;
    if i >= 0 {
      assert q == i / a && i - q * a == i % a;
    } else {
      assert q == -((-i) / a) && i - q * a == -((-i) % a);
    }
  }

  /** Away from an undetermined fit, the slope a and the intercept b solve
      the normal equations of the least-squares line y = a*x + b:
      n*b + sumx*a = sumy and sumx*b + sumxx*a = sumxy. */
  lemma {:induction false} LeastSquaresFit(st: Stats)
    requires Denominator(st) != 0.0
    ensures st.n * LeastSqB(st) + st.sumx * LeastSqA(st) == st.sumy
    ensures st.sumx * LeastSqB(st) + st.sumxx * LeastSqA(st) == st.sumxy
  {
    var a, b, d := LeastSqA(st), LeastSqB(st), Denominator(st);
    var na, nb := st.n * st.sumxy - st.sumx * st.sumy, st.sumxx * st.sumy - st.sumx * st.sumxy;
    assert a * d == na && b * d == nb;
    assert (st.n * b + st.sumx * a) * d == st.n * nb + st.sumx * na;
    assert st.n * nb + st.sumx * na == st.sumy * d;
    Cancel(st.n * b + st.sumx * a, st.sumy, d);
    assert (st.sumx * b + st.sumxx * a) * d == st.sumx * nb + st.sumxx * na;
    assert st.sumx * nb + st.sumxx * na == st.sumxy * d;
    Cancel(st.sumx * b + st.sumxx * a, st.sumxy, d);
  }

  lemma {:induction false} Cancel(u: real, v: real, d: real)
    requires d != 0.0 && u * d == v * d
    ensures u == v
  {
    assert (u - v) * d == 0.0;
  }

  /** With no spread in x (one point, or every x the same) there is no line:
      a, b and r are all 0. */
  lemma {:induction false} RegressionUndetermined(st: Stats, env: Env)
    requires Denominator(st) == 0.0
    ensures LeastSqA(st) == 0.0 && LeastSqB(st) == 0.0 && LeastSqR(st, env) == 0.0
  {
  }

  // ---------------------------------------------------------------------
  // rpncalc_op, one group of case labels at a time

  /** Stack operators. */
  function ApplyStack(c: Calc, op: StackOp): (r: Outcome)
    ensures Valid(c) ==> Valid(r.after)
  {
    match op
    case Clear => Outcome(Ok, ClearStack(c))
    case AllClear => Outcome(Ok, ClearAll(c))
    case Dup => Duplicate(c)
    case Swap => SwapTop(c)
    case Rot => Outcome(Ok, Rotate(c))
    case Drop => DropTop(c)
    case Depth => Push(c, |c.stack| as real)
  }

  /** Base, precision and angle-unit operators. */
  function ApplyMode(c: Calc, op: ModeOp, env: Env): (r: Outcome)
    ensures Valid(c) ==> Valid(r.after)
  {
    match op
    case UseBase(b) => ChangeBase(c, b)
    case SetBase =>
      if |c.stack| == 0 then Fail(c)
      else ChangeBase(DropTop(c).after, Format.Trunc(Top(c)))
    case SetPrec =>
      if |c.stack| == 0 then Fail(c)
      else Outcome(Ok, ChangePrec(DropTop(c).after, Format.Trunc(Top(c))))
    case QueryBase => Push(c, c.base as real)
    case QueryPrec => Push(c, c.prec as real)
    case QuerySigFig => Push(c, c.sigfig as real)
    case Radians => Outcome(Ok, c.(angle := 0))
    case Degrees => Outcome(Ok, c.(angle := 1))
  }

  /** Statistics of the stack, and its entry into the registers. */
  function ApplyStats(c: Calc, op: StatOp, env: Env): (r: Outcome)
    ensures Valid(c) ==> Valid(r.after)
  {
    var s := c.stack;
    var st := c.stats;
    match op
    case Average => if |s| == 0 then Fail(c) else Push(c, Sum(s) / |s| as real)
    case StdDev =>
      if |s| == 0 then Fail(c) else Push(c, StdDevOf(Sum(s), SumSquares(s), |s| as real, env))
    case Stat =>
      if |s| < 2 || |s| % 2 == 1 then Fail(c)
      else Outcome(Ok, c.(stack := [], stats := Pairs(st, s)))
    case XStat =>
      if |s| == 0 then Fail(c) else Outcome(Ok, c.(stack := [], stats := Series(st, s)))
  }

  /** Values computed from the statistics registers. */
  function ApplyRegisters(c: Calc, op: RegisterOp, env: Env): (r: Outcome)
    ensures Valid(c) ==> Valid(r.after)
  {
    var st := c.stats;
    match op
    case PushStat(reg) => Push(c, Register(st, reg))
    case MeanX => if st.n == 0.0 then Fail(c) else Push(c, st.sumx / st.n)
    case MeanY => if st.n == 0.0 then Fail(c) else Push(c, st.sumy / st.n)
    case StdDevX => if st.n < 2.0 then Fail(c) else Push(c, StdDevOf(st.sumx, st.sumxx, st.n, env))
    case StdDevY => if st.n < 2.0 then Fail(c) else Push(c, StdDevOf(st.sumy, st.sumyy, st.n, env))
    case SlopeA => if st.n < 2.0 then Fail(c) else Push(c, LeastSqA(st))
    case InterceptB => if st.n < 2.0 then Fail(c) else Push(c, LeastSqB(st))
    case CorrelationR => if st.n < 2.0 then Fail(c) else Push(c, LeastSqR(st, env))
  }

  /** The one-value memory. */
  function ApplyMemory(c: Calc, op: MemoryOp): (r: Outcome)
    ensures Valid(c) ==> Valid(r.after)
  {
    match op
    case Store => if |c.stack| == 0 then Fail(c) else Outcome(Ok, DropTop(c).after.(mem := Top(c)))
    case Recall => Push(c, c.mem)
    case MemAdd => if |c.stack| == 0 then Fail(c) else Outcome(Ok, DropTop(c).after.(mem := c.mem + Top(c)))
    case Exchange =>
      if |c.stack| == 0 then Fail(c) else Outcome(Ok, Replace(c, 1, c.mem).after.(mem := Top(c)))
  }

  /** What each operator on the top value writes over it. */
  function ScalarValue(op: ScalarOp, x: real): real
    requires op == Invert ==> x != 0.0
  {
    match op
    case Negate => -x
    case Invert => 1.0 / x
    case Square => x * x
    case Abs => if x < 0.0 then -x else x
    case Floor => x.Floor as real
    case Ceil => -((-x).Floor as real)
    case ToDeg => x * DegreesPerRadian
    case ToRad => x * RadiansPerDegree
    case ToFahrenheit => 9.0 / 5.0 * x + 32.0
    case ToCelsius => 5.0 / 9.0 * (x - 32.0)
    case Round => RoundHalfAway(x) as real
  }

  /** Operators on the top value computed with + - * / and floor alone: each
      reads the top and writes its value over it; inv refuses a zero top. */
  function ApplyScalar(c: Calc, op: ScalarOp): (r: Outcome)
    ensures Valid(c) ==> Valid(r.after)
  {
    if |c.stack| < 1 || (op == Invert && Top(c) == 0.0) then Fail(c)
    else Replace(c, 1, ScalarValue(op, Top(c)))
  }

  /** Whether an operator on the top two values refuses its divisor `y`. */
  predicate PairRefused(op: PairOp, y: real) {
    match op
    case Div => y == 0.0
    case IntQuotient => RoundHalfAway(y) == 0
    case IntRemainder => RoundHalfAway(y) == 0
    case _ => false
  }

  /** What each operator on the top two values writes over them, `x` being
      the second value and `y` the top. */
  function PairValue(op: PairOp, x: real, y: real): real
    requires !PairRefused(op, y)
  {
    match op
    case Add => x + y
    case Sub => x - y
    case Mul => x * y
    case Div => x / y
    case IntQuotient => Quotient(RoundHalfAway(x), RoundHalfAway(y)) as real
    case IntRemainder =>
      var i := RoundHalfAway(x);
      var j := RoundHalfAway(y);
      (i - j * Quotient(i, j)) as real
  }

  /** Operators on the top two values: each reads them and writes its value
      over both. */
  function ApplyPair(c: Calc, op: PairOp): (r: Outcome)
    ensures Valid(c) ==> Valid(r.after)
  {
    if |c.stack| < 2 || PairRefused(op, Top(c)) then Fail(c)
    else Replace(c, 2, PairValue(op, Second(c), Top(c)))
  }

  /** The constants. */
  function ApplyConstant(c: Calc, op: ConstOp): (r: Outcome)
    ensures Valid(c) ==> Valid(r.after)
  {
    match op
    case MilesToMeters => Push(c, MileInMeters)
    case FeetToMeters => Push(c, FootInMeters)
    case InchesToMm => Push(c, InchInMm)
    case Pi => Push(c, PiValue)
    case EulerE => Push(c, EValue)
    case LightSpeed => Push(c, SpeedOfLight)
  }

  /** What each library operator on the top value writes over it. */
  function LibraryValue(op: LibraryOp, angle: int, x: real, env: Env): real {
    match op
    case Unary(f) => env.lib(f, x, 0.0)
    case Checked(f) => env.lib(f, x, 0.0)
    case Trig(f) => env.lib(f, ToLibAngle(angle, x), 0.0)
    case InverseTrig(f) => FromLibAngle(angle, env.lib(f, x, 0.0))
    case Atan => FromLibAngle(angle, env.lib(ArcTan, x, 0.0))
    case Log10 => env.lib(Ln, x, 0.0) * Ln10Inverse
  }

  /** Whether a library operator on the top value refuses it: errno set by
      the call (or factorial's own error return). */
  predicate LibraryRefused(op: LibraryOp, x: real, env: Env) {
    match op
    case Checked(f) => env.fails(f, x, 0.0)
    case InverseTrig(f) => env.fails(f, x, 0.0)
    case Log10 => env.fails(Ln, x, 0.0)
    case _ => false
  }

  /** Library operators on the top value: each reads it and writes its value
      over it, unless the call reports an error. */
  function ApplyLibrary(c: Calc, op: LibraryOp, env: Env): (r: Outcome)
    ensures Valid(c) ==> Valid(r.after)
  {
    if |c.stack| < 1 || LibraryRefused(op, Top(c), env) then Fail(c)
    else Replace(c, 1, LibraryValue(op, c.angle, Top(c), env))
  }

  /** What each library operator on the top two values writes over them,
      `x` being the second value and `y` the top. */
  function LibraryPairValue(op: LibraryPairOp, angle: int, x: real, y: real, env: Env): real {
    match op
    case Binary(f) => env.lib(f, x, y)
    case Atan2 => FromLibAngle(angle, env.lib(ArcTan2, x, y))
    case LogN => env.lib(LogBase, x, y)
    case Pow => env.lib(Power, x, y)
  }

  /** Whether a library operator on the top two values refuses them: logn
      needs both positive, pow an errno-free call. */
  predicate LibraryPairRefused(op: LibraryPairOp, x: real, y: real, env: Env) {
    match op
    case LogN => x <= 0.0 || y <= 0.0
    case Pow => env.fails(Power, x, y)
    case _ => false
  }

  /** Library operators on the top two values. */
  function ApplyLibraryPair(c: Calc, op: LibraryPairOp, env: Env): (r: Outcome)
    ensures Valid(c) ==> Valid(r.after)
  {
    if |c.stack| < 2 || LibraryPairRefused(op, Second(c), Top(c), env) then Fail(c)
    else Replace(c, 2, LibraryPairValue(op, c.angle, Second(c), Top(c), env))
  }

  /** The first value toxy and tort push: x = r cos(theta) from the radius
      `x` and the angle `y`, or r = sqrt(x^2 + y^2). */
  function CoordFirst(op: CoordOp, angle: int, x: real, y: real, env: Env): real {
    match op
    case ToXY => x * env.lib(Cos, ToLibAngle(angle, y), 0.0)
    case ToPolar => env.lib(Sqrt, x * x + y * y, 0.0)
  }

  /** The second value: y = r sin(theta), or theta = atan2(y, x). */
  function CoordSecond(op: CoordOp, angle: int, x: real, y: real, env: Env): real {
    match op
    case ToXY => x * env.lib(Sin, ToLibAngle(angle, y), 0.0)
    case ToPolar => FromLibAngle(angle, env.lib(ArcTan2, y, x))
  }

  /** toxy and tort: both operands are taken off and the two results pushed
      one after the other; the second push is not tried when the first fails. */
  function ApplyCoordinates(c: Calc, op: CoordOp, env: Env): (r: Outcome)
    ensures Valid(c) ==> Valid(r.after)
  {
    var d := |c.stack|;
    if d < 2 then Fail(c)
    else
      var rest := c.(stack := c.stack[..d - 2]);
      var first := Push(rest, CoordFirst(op, c.angle, Second(c), Top(c), env));
      if first.status != Ok then first
      else Push(first.after, CoordSecond(op, c.angle, Second(c), Top(c), env))
  }

  /** The random-variate operators. A draw advances its generator even
      when the push of the drawn value then fails. */
  function ApplyRandom(c: Calc, op: RandomOp, env: Env, at: nat): (r: Outcome)
    ensures Valid(c) ==> Valid(r.after)
  {
    var d := |c.stack|;
    match op
    case SetUniform =>
      if d < 2 then Fail(c)
      else
        var p := Variates.UniformParams(Second(c), Top(c));
        Outcome(Ok, c.(stack := c.stack[..d - 2], urand := c.urand.(min := p.0, diff := p.1)))
    case SetNormal =>
      if d < 2 then Fail(c)
      else Outcome(Ok, c.(stack := c.stack[..d - 2], nrand := Variates.NormalSet(c.nrand, Second(c), Top(c))))
    case SetExponential =>
      if d < 1 then Fail(c) else Outcome(Ok, c.(stack := c.stack[..d - 1], esd := Top(c)))
    case DrawUniform =>
      var next := Variates.UniformNext(c.urand);
      Push(c.(urand := next.0), next.1)
    case DrawNormal =>
      var z := env.normal(at);
      var next := Variates.NormalNext(c.nrand, z.0, z.1);
      Push(c.(nrand := next.0), next.1)
    case DrawExponential => Push(c, env.exponential(at))
  }

  /** rpncalc_op after the key has selected an operation. */
  function Apply(c: Calc, op: Op, env: Env, at: nat): (r: Outcome)
    ensures Valid(c) ==> Valid(r.after)
  {
    match op
    case OnStack(o) => ApplyStack(c, o)
    case OnMode(o) => ApplyMode(c, o, env)
    case OnStats(o) => ApplyStats(c, o, env)
    case OnRegisters(o) => ApplyRegisters(c, o, env)
    case OnMemory(o) => ApplyMemory(c, o)
    case OnTop(o) => ApplyScalar(c, o)
    case OnPair(o) => ApplyPair(c, o)
    case Constant(o) => ApplyConstant(c, o)
    case Variate(o) => ApplyRandom(c, o, env, at)
    case Library(o) => ApplyLibrary(c, o, env)
    case LibraryPair(o) => ApplyLibraryPair(c, o, env)
    case Coordinates(o) => ApplyCoordinates(c, o, env)
    case Clock => Push(c, env.clock(at))
  }

  // ---------------------------------------------------------------------
  // rpncalc_eval

  /** The token at `p` ends inside the line when it starts inside it. */
  lemma {:induction false} TokenEndWithin(s: string, p: nat)
    requires p < |s|
    ensures TokenEnd(s, p) <= |s|
  {
    assert At(s, |s|) == '\0';
  }

  /** rpncalc_op on the token at offset `p`: the key selects the
      operation; a key that selects none is an error that changes nothing. */
  function Operate(c: Calc, line: string, p: nat, env: Env): (r: Outcome)
    ensures Valid(c) ==> Valid(r.after)
  {
    match Decode(Key(line, p))
    case None => Fail(c)
    case Some(op) => Apply(c, op, env, p)
  }

  /** One token of rpncalc_eval: tried as an operator first and, if that
      returns an error, read as a number in the base that was current before
      the operator ran. A number is pushed with the push's result ignored. */
  function Token(c: Calc, line: string, p: nat, env: Env): (r: Outcome)
    requires Valid(c)
    ensures Valid(r.after) && (r.status == Ok || r.status == Error)
  {
    var tried := Operate(c, line, p, env);
    if tried.status == Ok then tried
    else match ParseAt(line, p, c.base)
      case Some(x) => Outcome(Ok, Push(tried.after, x).after)
      case None => Outcome(Error, tried.after)
  }

  /** A '?' or 'q' standing alone as a token. */
  predicate Alone(line: string, p: nat, ch: char) {
    At(line, p) == ch && IsNullSpace(At(line, p + 1))
  }

  /** rpncalc_eval from offset `i`: tokens are evaluated in order until the
      end of the line, a lone '?' (help) or 'q' (quit), or the first token
      that is neither an operator that succeeds nor a number; the effects of
      the tokens before it are kept. */
  function EvalFrom(c: Calc, line: string, i: nat, env: Env): (r: Outcome)
    requires Valid(c) && i <= |line|
    ensures Valid(r.after)
    decreases |line| - i
  {
    var p := SkipWhite(line, i);
    if At(line, p) == '\0' then Outcome(Ok, c)
    else if Alone(line, p, '?') then Outcome(Help, c)
    else if Alone(line, p, 'q') then Outcome(Quit, c)
    else
      var t := Token(c, line, p, env);
      if t.status == Error then t
      else
        TokenEndWithin(line, p);
        EvalFrom(t.after, line, TokenEnd(line, p), env)
  }

  /** rpncalc_eval on a whole line. */
  function Eval(c: Calc, line: string, env: Env): Outcome
    requires Valid(c)
  {
    EvalFrom(c, line, 0, env)
  }
}
