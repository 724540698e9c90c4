/** The base-N number codec of rpncalc: the digit helpers isdigitbase,
    todoublebase and tocharbase, the token reader convert_s_to_d and the
    formatter convert_d_to_s. Doubles are modelled as reals, so `+ - * /`
    and floor are exact here. */
module Codec {
  import opened Dispatch

  // ---------------------------------------------------------------------
  // Digits

  /** isdigitbase: decimal digits, then upper-case letters for digit values
      10 and above; nothing is a digit in a base above 36. */
  predicate IsDigitBase(c: char, base: int) {
    if base <= 10 then '0' <= c && c as int - '0' as int < base
    else if base <= 36 then ('0' <= c <= '9') || ('A' <= c && c as int - 'A' as int + 10 < base)
    else false
  }

  /** todoublebase: the value of a digit, and 0 for anything that is not a
      digit of the base. */
  function DigitValue(c: char, base: int): (v: int)
    ensures IsDigitBase(c, base) ==> 0 <= v < base
    ensures !IsDigitBase(c, base) ==> v == 0
  {
    if base <= 10 then
      if '0' <= c && c as int - '0' as int < base then c as int - '0' as int else 0
    else if base <= 36 then
      if '0' <= c <= '9' then c as int - '0' as int
      else if 'A' <= c && c as int - 'A' as int + 10 < base then c as int - 'A' as int + 10
      else 0
    else 0
  }

  /** tocharbase: the character of a digit value, and '0' for a value that
      is no digit of the base. */
  function DigitChar(d: int, base: int): (c: char)
    ensures 0 <= d < base <= 36 ==> IsDigitBase(c, base) && DigitValue(c, base) == d
    ensures !(0 <= d < base <= 36) ==> c == '0'
  {
    if d < 0 then '0'
    else if base <= 10 then
      if d < base then (d + '0' as int) as char else '0'
    else if base <= 36 then
      if d < 10 then (d + '0' as int) as char
      else if d < base then (d + 'A' as int - 10) as char
      else '0'
    else '0'
  }

  /** A digit character survives the trip to its value and back. */
  lemma {:induction false} DigitCharOfValue(c: char, base: int)
    requires IsDigitBase(c, base)
    ensures DigitChar(DigitValue(c, base), base) == c
  {
  }

  /** isdigitbase accepts exactly the characters tocharbase gives the digit
      values of the base. */
  lemma {:induction false} DigitsOfBase(c: char, base: int)
    ensures IsDigitBase(c, base) <==> exists d | 0 <= d < base <= 36 :: DigitChar(d, base) == c
  {
    if IsDigitBase(c, base) {
      DigitCharOfValue(c, base);
      var d := DigitValue(c, base);
      assert 0 <= d < base <= 36 && DigitChar(d, base) == c;
    }
  }

  /** Digits are upper case: no lower-case letter (an exponent 'e' among
      them) is a digit of any base. */
  lemma {:induction false} LowerCaseIsNoDigit(c: char, base: int)
    ensures 'a' <= c <= 'z' ==> !IsDigitBase(c, base)
  {
  }

  // ---------------------------------------------------------------------
  // Reading a number: convert_s_to_d

  /** skipwhite: the first offset at or after `i` that is not a space. */
  function SkipWhite(s: string, i: nat): (j: nat)
    ensures i <= j && !IsSpace(At(s, j))
    ensures forall k | i <= k < j :: IsSpace(At(s, k))
    decreases |s| - i
  {
    if IsSpace(At(s, i)) then SkipWhite(s, i + 1) else i
  }

  /** skipwhite as the source runs it. */
  method SkipWhiteFrom(s: string, i: nat) returns (j: nat)
    ensures j == SkipWhite(s, i)
  {
    j := i;
    while IsSpace(At(s, j))
      invariant i <= j <= SkipWhite(s, i)
      decreases |s| - j
    {
      j := j + 1;
    }
  }

  /** skipnonwhite: the end of the token at `i`. */
  method SkipNonWhite(s: string, i: nat) returns (j: nat)
    ensures j == TokenEnd(s, i)
  {
    j := i;
    while !IsNullSpace(At(s, j))
      invariant i <= j
      invariant forall k | i <= k < j :: !IsNullSpace(At(s, k))
      decreases |s| - j
    {
      j := j + 1;
    }
    TokenEndFrom(s, i, j);
  }

  /** The token at offset `i`: the bytes up to the next space or NUL. */
  function TokenAt(s: string, i: nat): (t: string)
    ensures |t| == TokenLength(s, i)
    ensures forall k | 0 <= k < |t| :: t[k] == At(s, i + k) && !IsNullSpace(t[k])
  {
    seq(TokenLength(s, i), k requires 0 <= k < TokenLength(s, i) => At(s, i + k))
  }

  predicate IsSign(c: char) {
    c == '-' || c == '+'
  }

  /** 1 when the token starts with a sign. */
  function SignLength(t: string): nat {
    if |t| > 0 && IsSign(t[0]) then 1 else 0
  }

  /** Offset of the first '.' at or after `from`, or |t| when there is none. */
  function DotIndex(t: string, from: nat): (d: nat)
    requires from <= |t|
    ensures from <= d <= |t|
    ensures d < |t| ==> t[d] == '.'
    ensures forall k | from <= k < d :: t[k] != '.'
    decreases |t| - from
  {
    if from == |t| || t[from] == '.' then from else DotIndex(t, from + 1)
  }

  /** The numbers convert_s_to_d accepts: an optional sign in first place,
      then only digits of the base and at most one '.', with at least one
      digit. */
  predicate WellFormed(t: string, base: int) {
    var s0 := SignLength(t);
    (forall k | s0 <= k < |t| :: t[k] == '.' || IsDigitBase(t[k], base))
    && (forall k1, k2 | s0 <= k1 < k2 < |t| :: !(t[k1] == '.' && t[k2] == '.'))
    && (exists k | s0 <= k < |t| :: IsDigitBase(t[k], base))
  }

  /** Some character of t[lo..hi] is a digit of the base. */
  predicate HasDigit(t: string, base: int, lo: nat, hi: nat)
    requires lo <= hi <= |t|
    decreases hi - lo
  {
    lo < hi && (IsDigitBase(t[hi - 1], base) || HasDigit(t, base, lo, hi - 1))
  }

  lemma {:induction false} HasDigitWitness(t: string, base: int, lo: nat, hi: nat)
    requires lo <= hi <= |t|
    ensures HasDigit(t, base, lo, hi) <==> exists k | lo <= k < hi :: IsDigitBase(t[k], base)
    decreases hi - lo
  {
    if lo < hi {
      HasDigitWitness(t, base, lo, hi - 1);
    }
  }

  /** base^k */
  function PowerOf(base: int, k: nat): (p: real)
    ensures base >= 1 ==> p >= 1.0
  {
    if k == 0 then 1.0 else PowerOf(base, k - 1) * base as real
  }

  /** A number read so far with digit d appended after it: num * base + d. */
  function Shift(num: real, base: int, d: int): real {
    num * base as real + d as real
  }

  /** A number with digit d added at fraction place k: num + d / base^k. */
  function AddPlace(num: real, d: int, base: int, k: nat): real
    requires base >= 1
  {
    num + d as real / PowerOf(base, k)
  }

  /** The whole number the digits t[lo..hi] denote, most significant first. */
  function IntVal(t: string, base: int, lo: nat, hi: nat): real
    requires lo <= hi <= |t|
    decreases hi - lo
  {
    if hi == lo then 0.0 else Shift(IntVal(t, base, lo, hi - 1), base, DigitValue(t[hi - 1], base))
  }

  /** The fraction the digits t[lo..hi] after a point denote: the k-th of
      them counts base^-k. */
  function FracVal(t: string, base: int, lo: nat, hi: nat): real
    requires base >= 1 && lo <= hi <= |t|
    decreases hi - lo
  {
    if hi == lo then 0.0
    else AddPlace(FracVal(t, base, lo, hi - 1), DigitValue(t[hi - 1], base), base, hi - lo)
  }

  /** The unsigned value of a well-formed token: its integer digits, plus its
      fraction digits when there is a point. */
  function Magnitude(t: string, base: int): real
    requires base >= 1
  {
    var s0 := SignLength(t);
    var d := DotIndex(t, s0);
    IntVal(t, base, s0, d) + (if d < |t| then FracVal(t, base, d + 1, |t|) else 0.0)
  }

  /** The number a token denotes, if it is one. */
  function Parse(t: string, base: int): Option<real>
    requires base >= 1
  {
    if !WellFormed(t, base) then None
    else if SignLength(t) == 1 && t[0] == '-' then Some(-Magnitude(t, base))
    else Some(Magnitude(t, base))
  }

  /** What convert_s_to_d reads at offset `i`: the token after any blanks. */
  function ParseAt(s: string, i: nat, base: int): Option<real>
    requires base >= 1
  {
    Parse(TokenAt(s, SkipWhite(s, i)), base)
  }

  /** A character that is neither a digit nor a point, past the sign
      position, makes a token malformed. */
  lemma {:induction false} BadCharacter(t: string, base: int, k: nat)
    requires SignLength(t) <= k < |t| && t[k] != '.' && !IsDigitBase(t[k], base)
    ensures !WellFormed(t, base)
  {
  }

  /** The exponent branch of the reader is never finished: a token holding
      an 'e' anywhere is no number, in any base. */
  lemma {:induction false} ExponentRejected(t: string, base: int)
    requires base >= 1 && 'e' in t
    ensures Parse(t, base) == None
  {
    var k :| 0 <= k < |t| && t[k] == 'e';
    LowerCaseIsNoDigit(t[k], base);
    BadCharacter(t, base, k);
  }

  /** So does a second point. */
  lemma {:induction false} SecondPoint(t: string, base: int, k1: nat, k2: nat)
    requires SignLength(t) <= k1 < k2 < |t| && t[k1] == '.' && t[k2] == '.'
    ensures !WellFormed(t, base)
  {
  }

  lemma {:induction false} DivideAgain(x: real, p: real, b: real)
    requires p > 0.0 && b > 0.0
    ensures x / p / b == x / (p * b)
  {
  }

  /** The inner loop of convert_s_to_d: a fraction digit divided by the
      base once for each place after the point. */
  method ScaleDown(d: real, base: int, place: nat) returns (fracnum: real)
    requires base >= 1
    ensures fracnum == d / PowerOf(base, place)
  {
    var count := place;
    fracnum := d;
    while count > 0
      invariant 0 <= count <= place
      invariant fracnum == d / PowerOf(base, place - count)
    {
      DivideAgain(d, PowerOf(base, place - count), base as real);
      count := count - 1;
      fracnum := fracnum / base as real;
    }
  }

  /** What the reader knows after the first k characters of t: they are
      digits or points, with at most one point (whose place `infrac` counts
      from), whether a digit was seen, and the value read so far. */
  ghost predicate Scanned(t: string, base: int, k: nat, infrac: int, gotnum: bool, num: real)
    requires base >= 1 && k <= |t|
  {
    var s0 := SignLength(t);
    var dot := DotIndex(t, s0);
    (k > 0 ==> s0 <= k)
    && (forall j | s0 <= j < k :: t[j] == '.' || IsDigitBase(t[j], base))
    && (forall j | dot < j < k :: t[j] != '.')
    && gotnum == (k > 0 && HasDigit(t, base, s0, k))
    && infrac == (if dot < k then k - dot else 0)
    && (k == 0 ==> num == 0.0)
    && (0 < k <= dot ==> num == IntVal(t, base, s0, k))
    && (0 < k && dot < k ==> num == IntVal(t, base, s0, dot) + FracVal(t, base, dot + 1, k))
  }

  lemma {:induction false} ScanSign(t: string, base: int)
    requires base >= 1 && |t| > 0 && IsSign(t[0])
    ensures Scanned(t, base, 1, 0, false, 0.0)
  {
  }

  lemma {:induction false} ScanPoint(t: string, base: int, k: nat, gotnum: bool, num: real)
    requires base >= 1 && k < |t| && t[k] == '.'
    requires Scanned(t, base, k, 0, gotnum, num)
    ensures Scanned(t, base, k + 1, 1, gotnum, num)
  {
  }

  lemma {:induction false} ScanIntegerDigit(t: string, base: int, k: nat, gotnum: bool, num: real)
    requires base >= 1 && k < |t| && IsDigitBase(t[k], base)
    requires Scanned(t, base, k, 0, gotnum, num)
    ensures Scanned(t, base, k + 1, 0, true, Shift(num, base, DigitValue(t[k], base)))
  {
  }

  lemma {:induction false} ScanFractionDigit(t: string, base: int, k: nat, infrac: int, gotnum: bool, num: real)
    requires base >= 1 && k < |t| && IsDigitBase(t[k], base) && infrac != 0
    requires Scanned(t, base, k, infrac, gotnum, num)
    ensures Scanned(t, base, k + 1, infrac + 1, true, AddPlace(num, DigitValue(t[k], base), base, infrac))
  {
  }

  lemma {:induction false} ScanSecondPoint(t: string, base: int, k: nat, infrac: int, gotnum: bool, num: real)
    requires base >= 1 && k < |t| && t[k] == '.' && infrac != 0
    requires Scanned(t, base, k, infrac, gotnum, num)
    ensures !WellFormed(t, base)
  {
    SecondPoint(t, base, DotIndex(t, SignLength(t)), k);
  }

  lemma {:induction false} ScanDone(t: string, base: int, infrac: int, gotnum: bool, num: real)
    requires base >= 1 && |t| > 0
    requires Scanned(t, base, |t|, infrac, gotnum, num)
    ensures Parse(t, base) == if !gotnum then None else Some(if t[0] == '-' then -num else num)
  {
    HasDigitWitness(t, base, SignLength(t), |t|);
  }

  /** The reader's variables between two characters. */
  datatype ScanState = ScanState(started: bool, gotnum: bool, minus: bool, inexp: bool, infrac: nat, num: real)

  /** One turn of convert_s_to_d's loop on character `c`; None is an early
      error return. */
  function Step(st: ScanState, c: char, base: int): Option<ScanState>
    requires base >= 1
  {
    if c == '-' then
      if st.started then None else Some(st.(minus := true, started := true))
    else if c == '+' then
      if st.started then None else Some(st.(started := true))
    else if c == 'e' && (!st.started || st.inexp) then None
    else
      // an 'e' that gets this far sets the flag and falls through to the tests below
      var inexp := st.inexp || c == 'e';
      if c == '.' then
        if st.infrac != 0 then None else Some(ScanState(true, st.gotnum, st.minus, inexp, 1, st.num))
      else if IsDigitBase(c, base) then
        if st.infrac != 0 then
          Some(ScanState(true, true, st.minus, inexp, st.infrac + 1,
                         AddPlace(st.num, DigitValue(c, base), base, st.infrac)))
        else
          Some(ScanState(true, true, st.minus, inexp, 0, Shift(st.num, base, DigitValue(c, base))))
      else None
  }

  /** The loop run over the first k characters of the token. */
  function Run(t: string, base: int, k: nat): Option<ScanState>
    requires base >= 1 && k <= |t|
  {
    if k == 0 then Some(ScanState(false, false, false, false, 0, 0.0))
    else match Run(t, base, k - 1)
      case None => None
      case Some(st) => Step(st, t[k - 1], base)
  }

  /** A state the loop can be in after k characters. */
  ghost predicate Reached(t: string, base: int, k: nat, st: ScanState)
    requires base >= 1 && k <= |t|
  {
    st.started == (k > 0) && !st.inexp && st.minus == (k > 0 && t[0] == '-')
    && Scanned(t, base, k, st.infrac, st.gotnum, st.num)
  }

  /** Every state the loop reaches satisfies Scanned; every early return is
      on a malformed token. */
  lemma {:induction false} RunScanned(t: string, base: int, k: nat)
    requires base >= 1 && k <= |t|
    ensures Run(t, base, k).Some? ==> Reached(t, base, k, Run(t, base, k).value)
    ensures Run(t, base, k).None? ==> !WellFormed(t, base)
  {
    if k > 0 {
      RunScanned(t, base, k - 1);
      var prev := Run(t, base, k - 1);
      if prev.Some? {
        var c := t[k - 1];
        assert Run(t, base, k) == Step(prev.value, c, base);
        if IsSign(c) {
          ReachedSign(t, base, k - 1, prev.value);
        } else if c == '.' {
          ReachedPoint(t, base, k - 1, prev.value);
        } else if IsDigitBase(c, base) {
          ReachedDigit(t, base, k - 1, prev.value);
        } else {
          ReachedOther(t, base, k - 1, prev.value);
        }
      }
    }
  }

  lemma {:induction false} ReachedSign(t: string, base: int, k: nat, st: ScanState)
    requires base >= 1 && k < |t| && IsSign(t[k]) && Reached(t, base, k, st)
    ensures Step(st, t[k], base).Some? ==> Reached(t, base, k + 1, Step(st, t[k], base).value)
    ensures Step(st, t[k], base).None? ==> !WellFormed(t, base)
  {
    if st.started {
      BadCharacter(t, base, k);
    } else {
      ScanSign(t, base);
    }
  }

  lemma {:induction false} ReachedPoint(t: string, base: int, k: nat, st: ScanState)
    requires base >= 1 && k < |t| && t[k] == '.' && Reached(t, base, k, st)
    ensures Step(st, t[k], base).Some? ==> Reached(t, base, k + 1, Step(st, t[k], base).value)
    ensures Step(st, t[k], base).None? ==> !WellFormed(t, base)
  {
    if st.infrac != 0 {
      ScanSecondPoint(t, base, k, st.infrac, st.gotnum, st.num);
    } else {
      ScanPoint(t, base, k, st.gotnum, st.num);
    }
  }

  lemma {:induction false} ReachedDigit(t: string, base: int, k: nat, st: ScanState)
    requires base >= 1 && k < |t| && IsDigitBase(t[k], base) && Reached(t, base, k, st)
    ensures Step(st, t[k], base).Some? && Reached(t, base, k + 1, Step(st, t[k], base).value)
  {
    DigitStep(st, t[k], base);
    if st.infrac != 0 {
      ReachedFractionDigit(t, base, k, st, Step(st, t[k], base).value);
    } else {
      ReachedIntegerDigit(t, base, k, st, Step(st, t[k], base).value);
    }
  }

  /** A digit of the base moves the reader on: shifted into the number
      before the point, added at its place after it. */
  lemma {:induction false} DigitStep(st: ScanState, c: char, base: int)
    requires base >= 1 && IsDigitBase(c, base)
    ensures Step(st, c, base).Some?
    ensures var nx := Step(st, c, base).value;
      nx.started && nx.gotnum && nx.minus == st.minus && nx.inexp == st.inexp
      && (st.infrac == 0 ==> nx.infrac == 0 && nx.num == Shift(st.num, base, DigitValue(c, base)))
      && (st.infrac != 0 ==> nx.infrac == st.infrac + 1
                             && nx.num == AddPlace(st.num, DigitValue(c, base), base, st.infrac))
  {
    LowerCaseIsNoDigit(c, base);
    assert c != '-' && c != '+' && c != 'e' && c != '.';
  }

  lemma {:induction false} ReachedIntegerDigit(t: string, base: int, k: nat, st: ScanState, nx: ScanState)
    requires base >= 1 && k < |t| && IsDigitBase(t[k], base) && Reached(t, base, k, st) && st.infrac == 0
    requires nx.started && nx.gotnum && nx.minus == st.minus && nx.inexp == st.inexp && nx.infrac == 0
    requires nx.num == Shift(st.num, base, DigitValue(t[k], base))
    ensures Reached(t, base, k + 1, nx)
  {
    ScanIntegerDigit(t, base, k, st.gotnum, st.num);
  }

  lemma {:induction false} ReachedFractionDigit(t: string, base: int, k: nat, st: ScanState, nx: ScanState)
    requires base >= 1 && k < |t| && IsDigitBase(t[k], base) && Reached(t, base, k, st) && st.infrac != 0
    requires nx.started && nx.gotnum && nx.minus == st.minus && nx.inexp == st.inexp && nx.infrac == st.infrac + 1
    requires nx.num == AddPlace(st.num, DigitValue(t[k], base), base, st.infrac)
    ensures Reached(t, base, k + 1, nx)
  {
    ScanFractionDigit(t, base, k, st.infrac, st.gotnum, st.num);
  }

  lemma {:induction false} ReachedOther(t: string, base: int, k: nat, st: ScanState)
    requires base >= 1 && k < |t| && Reached(t, base, k, st)
    requires !IsSign(t[k]) && t[k] != '.' && !IsDigitBase(t[k], base)
    ensures Step(st, t[k], base).None? && !WellFormed(t, base)
  {
    BadCharacter(t, base, k);
  }

  /** The reader's verdict on a whole token is the grammar's. */
  lemma {:induction false} RunMatchesParse(t: string, base: int)
    requires base >= 1 && |t| > 0
    ensures Parse(t, base) == match Run(t, base, |t|)
      case None => None
      case Some(st) => if st.gotnum then Some(if st.minus then -st.num else st.num) else None
  {
    RunScanned(t, base, |t|);
    if Run(t, base, |t|).Some? {
      var st := Run(t, base, |t|).value;
      ScanDone(t, base, st.infrac, st.gotnum, st.num);
    }
  }

  /** The loop that has read the whole token holds the grammar's verdict. */
  lemma {:induction false} ReadWholeToken(t: string, base: int, st: ScanState)
    requires base >= 1 && |t| > 0 && Run(t, base, |t|).Some? && Run(t, base, |t|).value == st
    ensures Parse(t, base) == if st.gotnum then Some(if st.minus then -st.num else st.num) else None
  {
    RunMatchesParse(t, base);
  }

  /** Once the loop has returned early, the token is no number. */
  lemma {:induction false} RunStaysFailed(t: string, base: int, k: nat)
    requires base >= 1 && k <= |t| && Run(t, base, k).None?
    ensures Parse(t, base) == None
  {
    RunScanned(t, base, k);
  }

  /** One turn of convert_s_to_d's loop as the source writes it: `ok` is
      false on an early error return, otherwise the variables are updated
      for the next character. */
  method ReadChar(c: char, base: int, st: ScanState) returns (ok: bool, next: ScanState)
    requires base >= 1
    ensures ok == Step(st, c, base).Some?
    ensures ok ==> next == Step(st, c, base).value
  {
    var started, gotnum, minus, inexp, infrac, num := st.started, st.gotnum, st.minus, st.inexp, st.infrac, st.num;
    next := st;
    if c == '-' {
      if started {
        return false, next;
      }
      minus, started := true, true;
      return true, ScanState(started, gotnum, minus, inexp, infrac, num);
    }
    if c == '+' {
      if started {
        return false, next;
      }
      started := true;
      return true, ScanState(started, gotnum, minus, inexp, infrac, num);
    }
    if c == 'e' {
      if !started || inexp {
        return false, next;
      }
      inexp := true;
    }
    if c == '.' {
      if infrac != 0 {
        return false, next;
      }
      infrac, started := 1, true;
      return true, ScanState(started, gotnum, minus, inexp, infrac, num);
    }
    if IsDigitBase(c, base) {
      LowerCaseIsNoDigit(c, base);
      started := true;
      if infrac != 0 {
        var fracnum := ScaleDown(DigitValue(c, base) as real, base, infrac);
        num := num + fracnum;
        infrac := infrac + 1;
      } else {
        num := num * base as real;
        num := num + DigitValue(c, base) as real;
      }
      gotnum := true;
      return true, ScanState(started, gotnum, minus, inexp, infrac, num);
    }
    LowerCaseIsNoDigit(c, base);
    return false, next;
  }

  /** convert_s_to_d as the source runs it: skip blanks, then read the
      token one character at a time until a space or the end, with an early
      error return on a misplaced sign, an 'e', a second point or any other
      character that is not a digit. */
  method ConvertStoD(s: string, i: nat, base: int) returns (r: Option<real>)
    requires base >= 1
    ensures r == ParseAt(s, i, base)
  {
    var ptr := SkipWhiteFrom(s, i);
    ghost var t := TokenAt(s, ptr);
    if At(s, ptr) == '\0' {
      assert |t| == 0 && !WellFormed(t, base);
      return None;
    }
    var st := ScanState(false, false, false, false, 0, 0.0);
    var k := 0;
    while !IsNullSpace(At(s, ptr + k))
      invariant 0 <= k <= |t|
      invariant Run(t, base, k).Some? && Run(t, base, k).value == st
      decreases |t| - k
    {
      var c := At(s, ptr + k);
      assert c == t[k];
      k := k + 1;
      var ok;
      ok, st := ReadChar(c, base, st);
      if !ok {
        RunStaysFailed(t, base, k);
        return None;
      }
    }
    ReadWholeToken(t, base, st);
    if st.gotnum {
      r := Some(if st.minus then -st.num else st.num);
    } else {
      r := None;
    }
  }
}
