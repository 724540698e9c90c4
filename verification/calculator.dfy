/** The DS record of rpncalc as the source keeps it: a caller-supplied
    array of doubles with a count `next`, and fields that the ds_*
    functions, rpncalc_op and rpncalc_eval update in place. Every method is
    proved against the function of module Engine that describes it, through
    Model(), the value the object currently holds. */
module Calculator {
  import opened Dispatch
  import opened Codec
  import Format
  import Variates
  import Engine

  class DS {
    const stack: array<real>
    const size: int
    var next: int
    var mem: real
    var stats: Engine.Stats
    var base: int
    var askprec: int
    var prec: int
    var sigfig: int
    var angle: int
    const urand: Variates.UniformRandom
    const nrand: Variates.NormalRandom
    const erand: Variates.ExponentialRandom

    ghost predicate Valid()
      reads this
    {
      0 < size <= stack.Length && 0 <= next <= size && 2 <= base <= 36 && sigfig == Engine.SigFig(base)
    }

    ghost function Model(): (m: Engine.Calc)
      requires Valid()
      reads this, stack, urand, urand.u, nrand, erand
      ensures Engine.Valid(m)
    {
      Engine.Calc(stack[..next], size, mem, stats,
                  base, askprec, prec, sigfig, angle, urand.Value(), nrand.Value(), erand.sd)
    }

    /** ds_init for a stack of `size` slots of `stack`; the cached second
        normal variate is left unset, as in the source. */
    constructor (stack: array<real>, size: int)
      requires 0 < size <= stack.Length
      ensures Valid() && this.stack == stack
      ensures var m := Model(); m.(nrand := m.nrand.(x1 := 0.0, x2 := 0.0)) == Engine.Init(size).value
      ensures fresh(urand) && fresh(urand.u) && fresh(nrand) && fresh(erand)
    {
      this.stack := stack;
      mem := 0.0;
      stats := Engine.NoStats;
      this.size := size;
      next := 0;
      base := 10;
      sigfig := Engine.SigFig(10);
      askprec := sigfig;
      prec := sigfig;
      angle := 0;
      urand := new Variates.UniformRandom(0.0, 1.0);
      nrand := new Variates.NormalRandom(0.0, 1.0);
      erand := new Variates.ExponentialRandom(1.0);
    }

    /** ds_clear */
    method Clear()
      requires Valid()
      modifies this
      ensures Valid() && Model() == Engine.ClearStack(old(Model()))
    {
      next := 0;
    }

    /** ds_allclear */
    method AllClear()
      requires Valid()
      modifies this
      ensures Valid() && Model() == Engine.ClearAll(old(Model()))
    {
      mem := 0.0;
      stats := Engine.NoStats;
      Clear();
    }

    /** ds_push */
    method Push(v: real) returns (r: Engine.Status)
      requires Valid()
      modifies this, stack
      ensures Valid()
      ensures r == Engine.Push(old(Model()), v).status && Model() == Engine.Push(old(Model()), v).after
    {
      if next == size {
        return Engine.Error;
      }
      stack[next] := v;
      next := next + 1;
      r := Engine.Ok;
    }

    /** ds_pop */
    method Pop() returns (r: Engine.Status, v: real)
      requires Valid()
      modifies this
      ensures Valid()
      ensures r == Engine.Pop(old(Model())).status && Model() == Engine.Pop(old(Model())).after
      ensures r == Engine.Ok ==> v == Engine.Top(old(Model()))
    {
      if next == 0 {
        return Engine.Error, 0.0;
      }
      next := next - 1;
      v := stack[next];
      r := Engine.Ok;
    }

    /** ds_dup */
    method Dup() returns (r: Engine.Status)
      requires Valid()
      modifies this, stack
      ensures Valid()
      ensures r == Engine.Duplicate(old(Model())).status && Model() == Engine.Duplicate(old(Model())).after
    {
      if next == 0 || next == size {
        return Engine.Error;
      }
      stack[next] := stack[next - 1];
      next := next + 1;
      r := Engine.Ok;
    }

    /** ds_swap */
    method Swap() returns (r: Engine.Status)
      requires Valid()
      modifies stack
      ensures Valid()
      ensures r == Engine.SwapTop(old(Model())).status && Model() == Engine.SwapTop(old(Model())).after
    {
      if next < 2 {
        return Engine.Error;
      }
      var temp := stack[next - 1];
      stack[next - 1] := stack[next - 2];
      stack[next - 2] := temp;
      r := Engine.Ok;
    }

    /** ds_rot: shift everything down one place and put the old bottom on top. */
    method Rot() returns (r: Engine.Status)
      requires Valid()
      modifies stack
      ensures Valid() && r == Engine.Ok && Model() == Engine.Rotate(old(Model()))
    {
      if next < 2 {
        return Engine.Ok;
      }
      var temp := stack[0];
      var t := 0;
      while t < next - 1
        invariant 0 <= t <= next - 1
        invariant stack[..t] == old(stack[1..t + 1])
        invariant stack[t..] == old(stack[t..])
      {
        stack[t] := stack[t + 1];
        t := t + 1;
      }
      stack[next - 1] := temp;
      assert stack[..next] == old(stack[1..next]) + [temp];
      r := Engine.Ok;
    }

    /** ds_drop */
    method Drop() returns (r: Engine.Status)
      requires Valid()
      modifies this
      ensures Valid()
      ensures r == Engine.DropTop(old(Model())).status && Model() == Engine.DropTop(old(Model())).after
    {
      if next == 0 {
        return Engine.Error;
      }
      next := next - 1;
      r := Engine.Ok;
    }

    /** ds_replace */
    method Replace(howmany: int, v: real) returns (r: Engine.Status)
      requires Valid() && howmany >= 1
      modifies this, stack
      ensures Valid()
      ensures r == Engine.Replace(old(Model()), howmany, v).status
      ensures Model() == Engine.Replace(old(Model()), howmany, v).after
    {
      if next < howmany {
        return Engine.Error;
      }
      ghost var before := stack[..];
      next := next - (howmany - 1);
      stack[next - 1] := v;
      assert stack[..next] == before[..next - 1] + [v];
      r := Engine.Ok;
    }

    /** ds_fromtop */
    method FromTop(down: int) returns (r: Engine.Status, v: real)
      requires Valid()
      ensures (r == Engine.Ok) == Engine.HasDepth(Model(), down) && (r == Engine.Ok || r == Engine.Error)
      ensures r == Engine.Ok ==> v == Engine.FromTop(Model(), down)
    {
      if down < 0 || down >= next {
        return Engine.Error, 0.0;
      }
      v := stack[next - 1 - down];
      r := Engine.Ok;
    }

    /** ds_setbase */
    method SetBase(b: int) returns (r: Engine.Status)
      requires Valid()
      modifies this
      ensures Valid()
      ensures r == Engine.ChangeBase(old(Model()), b).status
      ensures Model() == Engine.ChangeBase(old(Model()), b).after
    {
      if b < 2 {
        return Engine.Error;
      }
      if b > 36 {
        return Engine.Error;
      }
      base := b;
      sigfig := Engine.SigFig(b);
      prec := askprec;
      if prec > sigfig {
        prec := sigfig;
      }
      r := Engine.Ok;
    }

    /** ds_setprec */
    method SetPrec(p: int)
      requires Valid()
      modifies this
      ensures Valid() && Model() == Engine.ChangePrec(old(Model()), p)
    {
      askprec := p;
      prec := if p < 0 then 0 else if p > sigfig then sigfig else p;
    }

    /** The `guard || ds_push(ds, v)` shape of rpncalc_op: an error when the
        guard holds, the push otherwise. */
    method PushUnless(guard: bool, v: real) returns (r: Engine.Status)
      requires Valid()
      modifies this, stack
      ensures Valid()
      ensures r == (if guard then Engine.Fail(old(Model())) else Engine.Push(old(Model()), v)).status
      ensures Model() == (if guard then Engine.Fail(old(Model())) else Engine.Push(old(Model()), v)).after
    {
      if guard {
        return Engine.Error;
      }
      r := this.Push(v);
    }

    /** The avg loop: the values on the stack added bottom first. */
    method StackSum() returns (total: real)
      requires Valid()
      ensures total == Engine.Sum(Model().stack)
    {
      total := 0.0;
      var t := 0;
      while t < next
        invariant 0 <= t <= next
        invariant total == Engine.Sum(stack[..t])
      {
        assert stack[..t + 1][..t] == stack[..t];
        total := total + stack[t];
        t := t + 1;
      }
    }

    /** ds_stddev */
    method StdDev(env: Engine.Env) returns (v: real)
      requires Valid()
      ensures var s := Model().stack; v == Engine.StdDevOf(Engine.Sum(s), Engine.SumSquares(s), |s| as real, env)
    {
      if next < 2 {
        return 0.0;
      }
      var sumx, sumxx := 0.0, 0.0;
      var t := 0;
      while t < next
        invariant 0 <= t <= next
        invariant sumx == Engine.Sum(stack[..t]) && sumxx == Engine.SumSquares(stack[..t])
      {
        assert stack[..t + 1][..t] == stack[..t];
        sumx := sumx + stack[t];
        sumxx := sumxx + stack[t] * stack[t];
        t := t + 1;
      }
      v := env.lib(Sqrt, Engine.Spread(sumx, sumxx, next as real), 0.0);
    }

    /** The stat loop: the stack, read as (x, y) pairs from the bottom, is
        entered into the statistics registers and the stack is emptied. */
    method EnterPairs()
      requires Valid() && next % 2 == 0
      modifies this
      ensures Valid() && Model() == old(Model()).(stack := [], stats := Engine.Pairs(old(stats), old(stack[..next])))
    {
      ghost var pairs, k := next / 2, 0;
      var st := stats;
      var t := 0;
      while t < next
        invariant next == 2 * pairs && t == 2 * k && 0 <= t <= next
        invariant st == Engine.Pairs(stats, stack[..t])
      {
        assert Engine.Pairs(stats, stack[..t + 2]) == Engine.AddPoint(st, stack[t], stack[t + 1]) by {
          Engine.PairsNext(stats, stack[..], t);
        }
        st := Engine.AddPoint(st, stack[t], stack[t + 1]);
        t, k := t + 2, k + 1;
      }
      stats := st;
      next := 0;
    }

    /** The xstat loop: each value on the stack is entered as y, with the
        number of points entered so far as x, and the stack is emptied. */
    method EnterSeries()
      requires Valid()
      modifies this
      ensures Valid() && Model() == old(Model()).(stack := [], stats := Engine.Series(old(stats), old(stack[..next])))
    {
      var st := stats;
      var t := 0;
      while t < next
        invariant 0 <= t <= next
        invariant st == Engine.Series(stats, stack[..t])
      {
        assert stack[..t + 1][..t] == stack[..t];
        st := Engine.AddPoint(st, st.n, stack[t]);
        t := t + 1;
      }
      stats := st;
      next := 0;
    }

    /** The stack cases of rpncalc_op. */
    method StackOps(op: StackOp) returns (r: Engine.Status)
      requires Valid()
      modifies this, stack
      ensures Valid()
      ensures r == Engine.ApplyStack(old(Model()), op).status
      ensures Model() == Engine.ApplyStack(old(Model()), op).after
    {
      match op
      case Clear => this.Clear(); r := Engine.Ok;
      case AllClear => this.AllClear(); r := Engine.Ok;
      case Dup => r := this.Dup();
      case Swap => r := this.Swap();
      case Rot => r := this.Rot();
      case Drop => r := this.Drop();
      case Depth => r := this.Push(next as real);
    }

    /** The base, precision and angle-unit cases of rpncalc_op. */
    method ModeOps(op: ModeOp, env: Engine.Env) returns (r: Engine.Status)
      requires Valid()
      modifies this, stack
      ensures Valid()
      ensures r == Engine.ApplyMode(old(Model()), op, env).status
      ensures Model() == Engine.ApplyMode(old(Model()), op, env).after
    {
      match op
      case UseBase(b) => r := this.SetBase(b);
      case SetBase =>
        var t, top := FromTop(0);
        if t != Engine.Ok {
          return Engine.Error;
        }
        r := this.Drop();
        r := this.SetBase(Format.Trunc(top));
      case SetPrec =>
        var t, top := FromTop(0);
        if t != Engine.Ok {
          return Engine.Error;
        }
        r := this.Drop();
        this.SetPrec(Format.Trunc(top));
        r := Engine.Ok;
      case QueryBase => r := this.Push(base as real);
      case QueryPrec => r := this.Push(prec as real);
      case QuerySigFig => r := this.Push(sigfig as real);
      case Radians => angle := 0; r := Engine.Ok;
      case Degrees => angle := 1; r := Engine.Ok;
    }

    /** The cases of rpncalc_op on the statistics of the stack. */
    method StatsOps(op: StatOp, env: Engine.Env) returns (r: Engine.Status)
      requires Valid()
      modifies this, stack
      ensures Valid()
      ensures r == Engine.ApplyStats(old(Model()), op, env).status
      ensures Model() == Engine.ApplyStats(old(Model()), op, env).after
    {
      match op
      case Average =>
        if next == 0 {
          return Engine.Error;
        }
        var total := StackSum();
        r := this.Push(total / next as real);
      case StdDev =>
        if next == 0 {
          return Engine.Error;
        }
        var v := this.StdDev(env);
        r := this.Push(v);
      case Stat =>
        if next < 2 || next % 2 == 1 {
          return Engine.Error;
        }
        EnterPairs();
        r := Engine.Ok;
      case XStat =>
        if next == 0 {
          return Engine.Error;
        }
        EnterSeries();
        r := Engine.Ok;
    }

    /** The cases of rpncalc_op on the statistics registers. */
    method RegisterOps(op: RegisterOp, env: Engine.Env) returns (r: Engine.Status)
      requires Valid()
      modifies this, stack
      ensures Valid()
      ensures r == Engine.ApplyRegisters(old(Model()), op, env).status
      ensures Model() == Engine.ApplyRegisters(old(Model()), op, env).after
    {
      match op
      case PushStat(reg) => r := this.Push(Engine.Register(stats, reg));
      case MeanX =>
        if stats.n == 0.0 {
          return Engine.Error;
        }
        r := this.Push(stats.sumx / stats.n);
      case MeanY =>
        if stats.n == 0.0 {
          return Engine.Error;
        }
        r := this.Push(stats.sumy / stats.n);
      case StdDevX => r := PushUnless(stats.n < 2.0, Engine.StdDevOf(stats.sumx, stats.sumxx, stats.n, env));
      case StdDevY => r := PushUnless(stats.n < 2.0, Engine.StdDevOf(stats.sumy, stats.sumyy, stats.n, env));
      case SlopeA => r := PushUnless(stats.n < 2.0, Engine.LeastSqA(stats));
      case InterceptB => r := PushUnless(stats.n < 2.0, Engine.LeastSqB(stats));
      case CorrelationR => r := PushUnless(stats.n < 2.0, Engine.LeastSqR(stats, env));
    }

    /** The memory cases of rpncalc_op. */
    method MemoryOps(op: MemoryOp) returns (r: Engine.Status)
      requires Valid()
      modifies this, stack
      ensures Valid()
      ensures r == Engine.ApplyMemory(old(Model()), op).status
      ensures Model() == Engine.ApplyMemory(old(Model()), op).after
    {
      if op == Recall {
        r := this.Push(mem);
        return;
      }
      var t, top := FromTop(0);
      if t != Engine.Ok {
        return Engine.Error;
      }
      match op {
        case Store => r := this.Drop(); mem := top;
        case MemAdd => r := this.Drop(); mem := mem + top;
        case Exchange => r := this.Replace(1, mem); mem := top;
      }
      r := Engine.Ok;
    }

    /** The cases of rpncalc_op on the top value computed with + - * / and
        floor alone: each reads the top with ds_fromtop and writes its result
        over it with ds_replace; inv refuses a zero top. */
    method ScalarOps(op: ScalarOp) returns (r: Engine.Status)
      requires Valid()
      modifies this, stack
      ensures Valid()
      ensures r == Engine.ApplyScalar(old(Model()), op).status
      ensures Model() == Engine.ApplyScalar(old(Model()), op).after
    {
      var t, top := FromTop(0);
      if t != Engine.Ok || (op == Invert && top == 0.0) {
        return Engine.Error;
      }
      var v := Engine.ScalarValue(op, top);
      r := this.Replace(1, v);
    }

    /** The cases of rpncalc_op on the top two values: each reads them with
        ds_fromtop and writes its result over both with ds_replace; / refuses
        a zero divisor, div and mod one that rounds to zero. */
    method PairOps(op: PairOp) returns (r: Engine.Status)
      requires Valid()
      modifies this, stack
      ensures Valid()
      ensures r == Engine.ApplyPair(old(Model()), op).status
      ensures Model() == Engine.ApplyPair(old(Model()), op).after
    {
      var t1, second := FromTop(1);
      if t1 != Engine.Ok {
        return Engine.Error;
      }
      var t0, top := FromTop(0);
      if Engine.PairRefused(op, top) {
        return Engine.Error;
      }
      var v := Engine.PairValue(op, second, top);
      r := this.Replace(2, v);
    }

    /** The constant cases of rpncalc_op. */
    method ConstantOps(op: ConstOp) returns (r: Engine.Status)
      requires Valid()
      modifies this, stack
      ensures Valid()
      ensures r == Engine.ApplyConstant(old(Model()), op).status
      ensures Model() == Engine.ApplyConstant(old(Model()), op).after
    {
      match op
      case MilesToMeters => r := this.Push(Engine.MileInMeters);
      case FeetToMeters => r := this.Push(Engine.FootInMeters);
      case InchesToMm => r := this.Push(Engine.InchInMm);
      case Pi => r := this.Push(Engine.PiValue);
      case EulerE => r := this.Push(Engine.EValue);
      case LightSpeed => r := this.Push(Engine.SpeedOfLight);
    }

    /** The cases of rpncalc_op on the top value whose values come from the
        C library: each reads the top and writes its value over it, unless
        the call reports an error. */
    method LibraryOps(op: LibraryOp, env: Engine.Env) returns (r: Engine.Status)
      requires Valid()
      modifies this, stack
      ensures Valid()
      ensures r == Engine.ApplyLibrary(old(Model()), op, env).status
      ensures Model() == Engine.ApplyLibrary(old(Model()), op, env).after
    {
      var t, top := FromTop(0);
      if t != Engine.Ok || Engine.LibraryRefused(op, top, env) {
        return Engine.Error;
      }
      r := this.Replace(1, Engine.LibraryValue(op, angle, top, env));
    }

    /** The cases of rpncalc_op on the top two values whose values come from
        the C library. */
    method LibraryPairOps(op: LibraryPairOp, env: Engine.Env) returns (r: Engine.Status)
      requires Valid()
      modifies this, stack
      ensures Valid()
      ensures r == Engine.ApplyLibraryPair(old(Model()), op, env).status
      ensures Model() == Engine.ApplyLibraryPair(old(Model()), op, env).after
    {
      var t1, second := FromTop(1);
      if t1 != Engine.Ok {
        return Engine.Error;
      }
      var t0, top := FromTop(0);
      if Engine.LibraryPairRefused(op, second, top, env) {
        return Engine.Error;
      }
      r := this.Replace(2, Engine.LibraryPairValue(op, angle, second, top, env));
    }

    /** toxy and tort */
    method CoordinateOps(op: CoordOp, env: Engine.Env) returns (r: Engine.Status)
      requires Valid()
      modifies this, stack
      ensures Valid()
      ensures r == Engine.ApplyCoordinates(old(Model()), op, env).status
      ensures Model() == Engine.ApplyCoordinates(old(Model()), op, env).after
    {
      var t0, top := FromTop(0);
      if t0 != Engine.Ok {
        return Engine.Error;
      }
      var t1, second := FromTop(1);
      if t1 != Engine.Ok {
        return Engine.Error;
      }
      ghost var c := Model();
      next := next - 2;
      assert Model() == c.(stack := c.stack[..|c.stack| - 2]);
      r := this.Push(Engine.CoordFirst(op, angle, second, top, env));
      if r == Engine.Ok {
        r := this.Push(Engine.CoordSecond(op, angle, second, top, env));
      }
    }

    /** The random-variate cases of rpncalc_op; `at`, the offset of the
        token in the line, indexes the unit draws the normal and exponential
        generators are given. */
    method RandomOps(op: RandomOp, env: Engine.Env, at: nat) returns (r: Engine.Status)
      requires Valid()
      modifies this, stack, urand, urand.u, nrand, erand
      ensures Valid()
      ensures r == Engine.ApplyRandom(old(Model()), op, env, at).status
      ensures Model() == Engine.ApplyRandom(old(Model()), op, env, at).after
    {
      match op
      case SetUniform =>
        if next < 2 {
          return Engine.Error;
        }
        var top, second := stack[next - 1], stack[next - 2];
        next := next - 2;
        urand.Set(second, top);
        r := Engine.Ok;
      case SetNormal =>
        if next < 2 {
          return Engine.Error;
        }
        var top, second := stack[next - 1], stack[next - 2];
        next := next - 2;
        nrand.Set(second, top);
        r := Engine.Ok;
      case SetExponential =>
        if next < 1 {
          return Engine.Error;
        }
        var top := stack[next - 1];
        next := next - 1;
        erand.Set(top);
        r := Engine.Ok;
      case DrawUniform =>
        var x := urand.Real();
        r := this.Push(x);
      case DrawNormal =>
        var z := env.normal(at);
        var x := nrand.Real(z.0, z.1);
        r := this.Push(x);
      case DrawExponential =>
        r := this.Push(env.exponential(at));
    }

    /** rpncalc_op on the token at offset `p` of `line`: its key selects the
        case, and a key that no case has is an error that changes nothing. */
    method Operate(line: string, p: nat, env: Engine.Env) returns (r: Engine.Status)
      requires Valid()
      modifies this, stack, urand, urand.u, nrand, erand
      ensures Valid()
      ensures r == Engine.Operate(old(Model()), line, p, env).status
      ensures Model() == Engine.Operate(old(Model()), line, p, env).after
    {
      var hash := ComputeHash(line, p);
      var op := Decode(hash);
      if op.None? {
        return Engine.Error;
      }
      r := Apply(op.value, env, p);
    }

    /** The case of rpncalc_op's switch that `op` names. */
    method Apply(op: Op, env: Engine.Env, at: nat) returns (r: Engine.Status)
      requires Valid()
      modifies this, stack, urand, urand.u, nrand, erand
      ensures Valid()
      ensures r == Engine.Apply(old(Model()), op, env, at).status
      ensures Model() == Engine.Apply(old(Model()), op, env, at).after
    {
      ghost var c := Model();
      match op
      case OnStack(o) => r := StackOps(o);
      case OnMode(o) => r := ModeOps(o, env);
      case OnStats(o) => r := StatsOps(o, env);
      case OnRegisters(o) => r := RegisterOps(o, env);
      case OnMemory(o) => r := MemoryOps(o);
      case OnTop(o) => r := ScalarOps(o);
      case OnPair(o) => r := PairOps(o);
      case Constant(o) => r := ConstantOps(o);
      case Variate(o) => r := RandomOps(o, env, at);
      case Library(o) => r := LibraryOps(o, env);
      case LibraryPair(o) => r := LibraryPairOps(o, env);
      case Coordinates(o) => r := CoordinateOps(o, env);
      case Clock => r := this.Push(env.clock(at));
    }

    /** One token of rpncalc_eval: tried as an operator and, when that
        fails, read as a number in the base that was current before the
        operator ran; the number is pushed and the push's result ignored. */
    method Token(line: string, p: nat, env: Engine.Env) returns (r: Engine.Status)
      requires Valid()
      modifies this, stack, urand, urand.u, nrand, erand
      ensures Valid()
      ensures r == Engine.Token(old(Model()), line, p, env).status
      ensures Model() == Engine.Token(old(Model()), line, p, env).after
    {
      var b := base;
      r := Operate(line, p, env);
      if r != Engine.Ok {
        var x := ConvertStoD(line, p, b);
        if x.None? {
          return Engine.Error;
        }
        var pushed := this.Push(x.value);
        r := Engine.Ok;
      }
    }

    /** One pass of rpncalc_eval's loop from offset `i`: skip white space,
        then stop at the end of the line or at a lone `?` or `q`, or evaluate
        one token and stop if it is an error; otherwise continue at `j`, the
        end of that token. */
    method Step(line: string, i: nat, env: Engine.Env) returns (r: Engine.Status, done: bool, j: nat)
      requires Valid() && i <= |line|
      modifies this, stack, urand, urand.u, nrand, erand
      ensures Valid()
      ensures done ==> Engine.EvalFrom(old(Model()), line, i, env) == Engine.Outcome(r, Model())
      ensures !done ==> i < j <= |line| && Engine.EvalFrom(old(Model()), line, i, env) == Engine.EvalFrom(Model(), line, j, env)
    {
      var ptr := SkipWhiteFrom(line, i);
      if At(line, ptr) == '\0' {
        return Engine.Ok, true, i;
      }
      if At(line, ptr) == '?' && IsNullSpace(At(line, ptr + 1)) {
        return Engine.Help, true, i;
      }
      if At(line, ptr) == 'q' && IsNullSpace(At(line, ptr + 1)) {
        return Engine.Quit, true, i;
      }
      r := Token(line, ptr, env);
      if r == Engine.Error {
        return r, true, i;
      }
      Engine.TokenEndWithin(line, ptr);
      j := SkipNonWhite(line, ptr);
      done := false;
    }

    /** rpncalc_eval: the tokens of `line` are evaluated in order until the
        end of the line, a lone `?` (help) or `q` (quit), or the first token
        that is neither an operator that succeeds nor a number. */
    method Eval(line: string, env: Engine.Env) returns (r: Engine.Status)
      requires Valid()
      modifies this, stack, urand, urand.u, nrand, erand
      ensures Valid()
      ensures r == Engine.Eval(old(Model()), line, env).status
      ensures Model() == Engine.Eval(old(Model()), line, env).after
    {
      var ptr := 0;
      while true
        invariant ptr <= |line| && Valid()
        invariant Engine.EvalFrom(Model(), line, ptr, env) == Engine.Eval(old(Model()), line, env)
        decreases |line| - ptr
      {
        var done;
        r, done, ptr := Step(line, ptr, env);
        if done {
          return;
        }
      }
    }
  }
}
