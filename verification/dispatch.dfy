/** The operator dispatch key of rpncalc (compute_hash / decompute_hash)
    and the switch that maps a key to an operation.

    A token is read straight out of the input line: `s` holds the bytes of a
    C string and `i` is the offset the C pointer points at; reading past the
    end of `s` yields the terminating NUL. */
module Dispatch {

  datatype Option<+T> = None | Some(value: T)

  /** Byte `i` of the C string held in `s`. */
  function At(s: string, i: int): char {
    if 0 <= i < |s| then s[i] else '\0'
  }

  /** The `isspace` macro of the source: blank, tab, newline, return. */
  predicate IsSpace(c: char) {
    c == ' ' || c == '\t' || c == '\n' || c == '\r'
  }

  /** The `isnullspace` macro: a space or the terminating NUL. */
  predicate IsNullSpace(c: char) {
    c == '\0' || IsSpace(c)
  }

  /** Offset of the first NUL or space at or after `i`: the end of the token at `i`. */
  function TokenEnd(s: string, i: nat): (j: nat)
    ensures i <= j && IsNullSpace(At(s, j))
    ensures forall k | i <= k < j :: !IsNullSpace(At(s, k))
    decreases |s| - i
  {
    if IsNullSpace(At(s, i)) then i else TokenEnd(s, i + 1)
  }

  function TokenLength(s: string, i: nat): nat {
    TokenEnd(s, i) - i
  }

  /** Two offsets inside the same run of non-space bytes end at the same place. */
  lemma {:induction false} TokenEndFrom(s: string, i: nat, j: nat)
    requires i <= j
    requires forall k | i <= k < j :: !IsNullSpace(At(s, k))
    ensures TokenEnd(s, i) == TokenEnd(s, j)
    decreases j - i
  {
    if i < j {
      TokenEndFrom(s, i + 1, j);
    }
  }

  /** The value a byte contributes to the key: its character code. */
  function Code(c: char): int {
    c as int
  }

  const Shift24: int := 0x100_0000
  const Shift16: int := 0x1_0000
  const Shift8: int := 0x100

  /** Code of byte `k` (k < 3) of the token, or 0 past the token's end. */
  function PrefixCode(s: string, i: nat, k: nat): int {
    if k < TokenLength(s, i) then Code(At(s, i + k)) else 0
  }

  /** compute_hash: the first three bytes of the token in the three high
      bytes, and the token length added in the low byte. */
  function Key(s: string, i: nat): (r: int)
    ensures r >= 0 && (r == 0 <==> TokenLength(s, i) == 0)
  {
    PrefixCode(s, i, 0) * Shift24 + PrefixCode(s, i, 1) * Shift16
      + PrefixCode(s, i, 2) * Shift8 + TokenLength(s, i)
  }

  /** compute_hash as the source runs it: early returns for tokens of one,
      two or three bytes, otherwise a loop counting the length. */
  method ComputeHash(s: string, i: nat) returns (hash: int)
    ensures hash == Key(s, i)
  {
    if IsNullSpace(At(s, i)) {
      return 0;
    }
    hash := Code(At(s, i)) * Shift24;
    if IsNullSpace(At(s, i + 1)) {
      return hash + 1;
    }
    hash := hash + Code(At(s, i + 1)) * Shift16;
    if IsNullSpace(At(s, i + 2)) {
      return hash + 2;
    }
    hash := hash + Code(At(s, i + 2)) * Shift8;
    if IsNullSpace(At(s, i + 3)) {
      TokenEndFrom(s, i, i + 3);
      return hash + 3;
    }
    var len := 4;
    while !IsNullSpace(At(s, i + len))
      invariant 4 <= len
      invariant forall k | i <= k < i + len :: !IsNullSpace(At(s, k))
      decreases |s| - (i + len)
    {
      len := len + 1;
    }
    TokenEndFrom(s, i, i + len);
    hash := hash + len;
  }

  /** The key of a whole spelling, as the evaluator computes it. */
  function KeyOf(spelling: string): int {
    Key(spelling, 0)
  }

  // ---------------------------------------------------------------------
  // Collisions and the inverse

  /** Tokens that agree in their first three bytes and in their length get
      the same key, so they select the same operation. */
  lemma {:induction false} SameKeyWhenPrefixAndLengthAgree(s: string, i: nat, t: string, j: nat)
    requires TokenLength(s, i) == TokenLength(t, j)
    requires At(s, i) == At(t, j) && At(s, i + 1) == At(t, j + 1) && At(s, i + 2) == At(t, j + 2)
    ensures Key(s, i) == Key(t, j)
    ensures Decode(Key(s, i)) == Decode(Key(t, j))
  {
  }

  /** The token's first three bytes are C chars (codes below 256). */
  predicate BytePrefix(s: string, i: nat) {
    Code(At(s, i)) < 256 && Code(At(s, i + 1)) < 256 && Code(At(s, i + 2)) < 256
  }

  lemma {:induction false} Base256Digits(a0: int, a1: int, a2: int, a3: int, b0: int, b1: int, b2: int, b3: int)
    requires 0 <= a0 < 256 && 0 <= a1 < 256 && 0 <= a2 < 256 && 0 <= a3 < 256
    requires 0 <= b0 < 256 && 0 <= b1 < 256 && 0 <= b2 < 256 && 0 <= b3 < 256
    requires a0 * Shift24 + a1 * Shift16 + a2 * Shift8 + a3 == b0 * Shift24 + b1 * Shift16 + b2 * Shift8 + b3
    ensures a0 == b0 && a1 == b1 && a2 == b2 && a3 == b3
  {
    var x := a0 * Shift24 + a1 * Shift16 + a2 * Shift8 + a3;
    assert x == (a0 * Shift16 + a1 * Shift8 + a2) * 256 + a3;
    assert x == (b0 * Shift16 + b1 * Shift8 + b2) * 256 + b3;
    DivModUnique(x, a0 * Shift16 + a1 * Shift8 + a2, a3, b0 * Shift16 + b1 * Shift8 + b2, b3);
    var y := a0 * Shift16 + a1 * Shift8 + a2;
    assert y == (a0 * 256 + a1) * 256 + a2;
    assert y == (b0 * 256 + b1) * 256 + b2;
    DivModUnique(y, a0 * 256 + a1, a2, b0 * 256 + b1, b2);
    DivModUnique(a0 * 256 + a1, a0, a1, b0, b1);
  }

  lemma {:induction false} DivModUnique(x: int, q1: int, r1: int, q2: int, r2: int)
    requires 0 <= r1 < 256 && 0 <= r2 < 256
    requires x == q1 * 256 + r1 && x == q2 * 256 + r2
    ensures q1 == q2 && r1 == r2
  {
    var d := q1 - q2;
    assert d * 256 == r2 - r1;
  }

  /** Conversely, for tokens shorter than 256 bytes, equal keys mean equal
      lengths and equal leading bytes (the first min(3, length) of them). */
  lemma {:induction false} SameKeyMeansSamePrefixAndLength(s: string, i: nat, t: string, j: nat)
    requires TokenLength(s, i) < 256 && TokenLength(t, j) < 256
    requires BytePrefix(s, i) && BytePrefix(t, j)
    requires Key(s, i) == Key(t, j)
    ensures TokenLength(s, i) == TokenLength(t, j)
    ensures 0 < TokenLength(s, i) ==> At(s, i) == At(t, j)
    ensures 1 < TokenLength(s, i) ==> At(s, i + 1) == At(t, j + 1)
    ensures 2 < TokenLength(s, i) ==> At(s, i + 2) == At(t, j + 2)
  {
    Base256Digits(PrefixCode(s, i, 0), PrefixCode(s, i, 1), PrefixCode(s, i, 2), TokenLength(s, i),
                  PrefixCode(t, j, 0), PrefixCode(t, j, 1), PrefixCode(t, j, 2), TokenLength(t, j));
  }

  /** Byte `k` (0 = most significant) of a key, as `(hash >> 8*(3-k)) & 0xFF`. */
  function KeyByte(hash: int, k: nat): char
    requires k < 3
  {
    var v := if k == 0 then hash / Shift24 else if k == 1 then hash / Shift16 else hash / Shift8;
    (v % 256) as char
  }

  function KeyLength(hash: int): nat {
    hash % 256
  }

  /** What decompute_hash leaves in its buffer: bytes 0..2 from the key,
      'X' in bytes 3..len-1, and the terminator at `len`, which overwrites
      one of bytes 0..2 when len < 3. */
  function KeyImage(hash: int): (img: seq<char>)
    ensures |img| == if KeyLength(hash) < 3 then 3 else KeyLength(hash) + 1
    ensures img[KeyLength(hash)] == '\0'
  {
    var len := KeyLength(hash);
    var head := [KeyByte(hash, 0), KeyByte(hash, 1), KeyByte(hash, 2)];
    if len < 3 then head[len := '\0']
    else head + seq(len - 3, _ => 'X') + ['\0']
  }

  /** Place `k` of a key holds a byte of a token of length KeyLength(key):
      one that is no space or NUL inside the token, zero past its end. */
  predicate PlaceFits(key: int, k: nat)
    requires k < 3
  {
    if k < KeyLength(key) then !IsNullSpace(KeyByte(key, k)) else KeyByte(key, k) == '\0'
  }

  /** The shape of the key compute_hash gives a token of 1 to 255 bytes. */
  predicate Hashable(key: int) {
    0 <= key < 0x1_0000_0000 && KeyLength(key) > 0
      && PlaceFits(key, 0) && PlaceFits(key, 1) && PlaceFits(key, 2)
  }

  /** A key of that shape is the key of some token, namely of the image
      decompute_hash makes of it. */
  lemma {:induction false} HashableRoundTrip(key: int)
    requires Hashable(key)
    ensures KeyOf(KeyImage(key)) == key
  {
    var len, img := KeyLength(key), KeyImage(key);
    KeySplit(key);
    forall k | 0 <= k < len
      ensures !IsNullSpace(At(img, k))
    {
      if k >= 3 {
        assert img[k] == 'X';
      }
    }
    TokenEndFrom(img, 0, len);
    assert TokenLength(img, 0) == len;
    assert PrefixCode(img, 0, 0) == KeyByte(key, 0) as int;
    assert PrefixCode(img, 0, 1) == KeyByte(key, 1) as int;
    assert PrefixCode(img, 0, 2) == KeyByte(key, 2) as int;
  }

  /** A 32-bit key is its three high bytes and its length byte. */
  lemma {:induction false} KeySplit(key: int)
    requires 0 <= key < 0x1_0000_0000
    ensures key == KeyByte(key, 0) as int * Shift24 + KeyByte(key, 1) as int * Shift16
      + KeyByte(key, 2) as int * Shift8 + KeyLength(key)
  {
    var q8, len := key / 256, key % 256;
    var q16, b2 := q8 / 256, q8 % 256;
    var b0, b1 := q16 / 256, q16 % 256;
    assert key == q16 * Shift16 + (b2 * 256 + len);
    assert key == b0 * Shift24 + (b1 * Shift16 + b2 * 256 + len);
    DivBy(key, 256, q8, len);
    DivBy(key, Shift16, q16, b2 * 256 + len);
    DivBy(key, Shift24, b0, b1 * Shift16 + b2 * 256 + len);
  }

  /** decompute_hash, writing into `buffer`. */
  method DecomputeHash(hash: int, buffer: array<char>)
    requires 3 <= buffer.Length && KeyLength(hash) < buffer.Length
    modifies buffer
    ensures buffer[..|KeyImage(hash)|] == KeyImage(hash)
    ensures buffer[|KeyImage(hash)|..] == old(buffer[|KeyImage(hash)|..])
  {
    var len := hash % 256;
    buffer[2] := ((hash / Shift8) % 256) as char;
    buffer[1] := ((hash / Shift16) % 256) as char;
    buffer[0] := ((hash / Shift24) % 256) as char;
    var t := 3;
    while t < len
      invariant 3 <= t <= buffer.Length && (if len >= 3 then t <= len else t == 3)
      invariant buffer[..3] == [KeyByte(hash, 0), KeyByte(hash, 1), KeyByte(hash, 2)]
      invariant forall k | 3 <= k < t :: buffer[k] == 'X'
      invariant forall k | t <= k < buffer.Length && k >= 3 :: buffer[k] == old(buffer[k])
    {
      buffer[t] := 'X';
      t := t + 1;
    }
    buffer[len] := '\0';
    assert buffer[..|KeyImage(hash)|] == KeyImage(hash);
  }

  /** Decoding a key gives back what it kept of the token: its first
      min(3, L) bytes, padded with 'X' to the token length L, followed by
      the terminator (for tokens shorter than 256 bytes). */
  lemma {:induction false} KeyImageRoundTrip(s: string, i: nat)
    requires TokenLength(s, i) < 256 && BytePrefix(s, i)
    ensures KeyLength(Key(s, i)) == TokenLength(s, i)
    ensures 0 < TokenLength(s, i) ==> KeyImage(Key(s, i))[0] == At(s, i)
    ensures 1 < TokenLength(s, i) ==> KeyImage(Key(s, i))[1] == At(s, i + 1)
    ensures 2 < TokenLength(s, i) ==> KeyImage(Key(s, i))[2] == At(s, i + 2)
    ensures forall k | 3 <= k < TokenLength(s, i) :: KeyImage(Key(s, i))[k] == 'X'
    ensures KeyImage(Key(s, i))[TokenLength(s, i)] == '\0'
  {
    KeyBytes(PrefixCode(s, i, 0), PrefixCode(s, i, 1), PrefixCode(s, i, 2), TokenLength(s, i));
  }

  lemma {:induction false} KeyBytes(p0: int, p1: int, p2: int, len: int)
    requires 0 <= p0 < 256 && 0 <= p1 < 256 && 0 <= p2 < 256 && 0 <= len < 256
    ensures KeyLength(p0 * Shift24 + p1 * Shift16 + p2 * Shift8 + len) == len
    ensures KeyByte(p0 * Shift24 + p1 * Shift16 + p2 * Shift8 + len, 0) == p0 as char
    ensures KeyByte(p0 * Shift24 + p1 * Shift16 + p2 * Shift8 + len, 1) == p1 as char
    ensures KeyByte(p0 * Shift24 + p1 * Shift16 + p2 * Shift8 + len, 2) == p2 as char
  {
    var h := p0 * Shift24 + p1 * Shift16 + p2 * Shift8 + len;
    DivBy(h, 256, (p0 * 256 + p1) * 256 + p2, len);
    DivBy(h, Shift16, p0 * 256 + p1, p2 * 256 + len);
    DivBy(h, Shift24, p0, (p1 * 256 + p2) * 256 + len);
    DivBy((p0 * 256 + p1) * 256 + p2, 256, p0 * 256 + p1, p2);
    DivBy(p0 * 256 + p1, 256, p0, p1);
  }

  lemma {:induction false} DivBy(x: int, d: int, q: int, r: int)
    requires d == 256 || d == Shift16 || d == Shift24
    requires x == q * d + r && 0 <= r < d
    ensures x / d == q && x % d == r
  {
    if d == 256 {
      assert x == q * 256 + r;
    } else if d == Shift16 {
      assert x == q * Shift16 + r;
    } else {
      assert x == q * Shift24 + r;
    }
  }

  // ---------------------------------------------------------------------
  // The operations and the switch of rpncalc_op

  /** C library functions (and the integer-cast operators) whose results
      the model leaves to the environment. */
  datatype LibFn =
    | Sqrt | Exp | BitNot | Sin | Cos | Tan | Sinh | Cosh | Tanh | Ln
    | Asin | Acos | ArcTan | ArcTan2 | LogBase | Power | FMod
    | ShiftRight | ShiftLeft | BitOr | BitAnd | FactorialOf | Correlation

  /** The statistics registers that can be pushed. */
  datatype StatReg = Count | SumX | SumY | SumXX | SumYY | SumXY

  /** One operation per group of case labels of rpncalc_op's switch,
      grouped by what the operations work on. */
  datatype Op =
    | OnStack(stackOp: StackOp)
    | OnMode(modeOp: ModeOp)
    | OnStats(statOp: StatOp)
    | OnRegisters(registerOp: RegisterOp)
    | OnMemory(memoryOp: MemoryOp)
    | OnTop(scalarOp: ScalarOp)
    | OnPair(pairOp: PairOp)
    | Constant(constOp: ConstOp)
    | Variate(randomOp: RandomOp)
    | Library(libraryOp: LibraryOp)
    | LibraryPair(libraryPairOp: LibraryPairOp)
    | Coordinates(coordOp: CoordOp)
    | Clock

  /** The stack itself. */
  datatype StackOp = Clear | AllClear | Dup | Swap | Rot | Drop | Depth

  /** The base, the precision and the angle unit. */
  datatype ModeOp =
    | UseBase(base: int) | SetBase | SetPrec | QueryBase | QueryPrec | QuerySigFig | Radians | Degrees

  /** Statistics of the values on the stack, and their entry into the registers. */
  datatype StatOp = Average | StdDev | Stat | XStat

  /** Values computed from the statistics registers. */
  datatype RegisterOp =
    | PushStat(reg: StatReg) | MeanX | MeanY | StdDevX | StdDevY | SlopeA | InterceptB | CorrelationR

  /** The one-value memory. */
  datatype MemoryOp = Store | Recall | MemAdd | Exchange

  /** Operations on the top value computed with + - * /, floor and integer casts. */
  datatype ScalarOp =
    | Negate | Invert | Square | Abs | Floor | Ceil | Round
    | ToDeg | ToRad | ToFahrenheit | ToCelsius

  /** Operations on the top two values computed with + - * / and integer casts. */
  datatype PairOp = Add | Sub | Mul | Div | IntQuotient | IntRemainder

  /** The constants rpncalc_op pushes. */
  datatype ConstOp = MilesToMeters | FeetToMeters | InchesToMm | Pi | EulerE | LightSpeed

  /** The random variates. */
  datatype RandomOp = SetUniform | SetNormal | SetExponential | DrawUniform | DrawNormal | DrawExponential

  /** Operations on the top value whose values come from the C library;
      those whose bodies differ only in the function they call carry it. */
  datatype LibraryOp = Unary(f: LibFn) | Checked(f: LibFn) | Trig(f: LibFn) | InverseTrig(f: LibFn) | Atan | Log10

  /** Operations on the top two values whose values come from the C library. */
  datatype LibraryPairOp = Binary(f: LibFn) | Atan2 | LogN | Pow

  /** The polar and rectangular conversions. */
  datatype CoordOp = ToXY | ToPolar

  /** The switch of rpncalc_op: the operation a key selects, if any. Each
      case label is written byte by byte as the compute_hash_1/2/3/n macros
      build it: the codes of the word's first three characters (00 past its
      end) and then its length. */
  function Decode(key: int): Option<Op> {
    match key
    case 0x63_00_00_01 => Some(OnStack(Clear))
    case 0x61_63_00_02 => Some(OnStack(AllClear))
    case 0x64_65_63_03 => Some(OnMode(UseBase(10)))
    case 0x68_65_78_03 => Some(OnMode(UseBase(16)))
    case 0x62_69_6e_03 => Some(OnMode(UseBase(2)))
    case 0x64_75_70_03 => Some(OnStack(Dup))
    case 0x73_77_61_04 => Some(OnStack(Swap))
    case 0x72_6f_74_03 => Some(OnStack(Rot))
    case 0x64_72_6f_04 => Some(OnStack(Drop))
    case 0x2e_00_00_01 => Some(OnStack(Drop))
    case 0x64_65_70_05 => Some(OnStack(Depth))
    case 0x61_76_67_03 => Some(OnStats(Average))
    case 0x73_74_64_03 => Some(OnStats(StdDev))
    case 0x73_74_61_04 => Some(OnStats(Stat))
    case 0x6e_00_00_01 => Some(OnRegisters(PushStat(Count)))
    case 0x73_78_00_02 => Some(OnRegisters(PushStat(SumX)))
    case 0x73_79_00_02 => Some(OnRegisters(PushStat(SumY)))
    case 0x73_78_78_03 => Some(OnRegisters(PushStat(SumXX)))
    case 0x73_79_79_03 => Some(OnRegisters(PushStat(SumYY)))
    case 0x73_78_79_03 => Some(OnRegisters(PushStat(SumXY)))
    case 0x6d_78_00_02 => Some(OnRegisters(MeanX))
    case 0x6d_79_00_02 => Some(OnRegisters(MeanY))
    case 0x73_64_78_03 => Some(OnRegisters(StdDevX))
    case 0x73_64_79_03 => Some(OnRegisters(StdDevY))
    case 0x61_00_00_01 => Some(OnRegisters(SlopeA))
    case 0x62_00_00_01 => Some(OnRegisters(InterceptB))
    case 0x72_00_00_01 => Some(OnRegisters(CorrelationR))
    case 0x3d_62_61_05 => Some(OnMode(SetBase))
    case 0x3d_70_72_05 => Some(OnMode(SetPrec))
    case 0x3f_62_61_05 => Some(OnMode(QueryBase))
    case 0x3f_70_72_05 => Some(OnMode(QueryPrec))
    case 0x3f_73_66_03 => Some(OnMode(QuerySigFig))
    case 0x73_74_6f_03 => Some(OnMemory(Store))
    case 0x72_63_6c_03 => Some(OnMemory(Recall))
    case 0x73_75_6d_03 => Some(OnMemory(MemAdd))
    case 0x65_78_63_03 => Some(OnMemory(Exchange))
    case 0x2d_2b_00_02 => Some(OnTop(Negate))
    case 0x2b_2d_00_02 => Some(OnTop(Negate))
    case 0x69_6e_76_03 => Some(OnTop(Invert))
    case 0x73_71_00_02 => Some(OnTop(Square))
    case 0x73_71_72_04 => Some(Library(Unary(Sqrt)))
    case 0x21_00_00_01 => Some(Library(Checked(FactorialOf)))
    case 0x73_69_6e_03 => Some(Library(Trig(Sin)))
    case 0x63_6f_73_03 => Some(Library(Trig(Cos)))
    case 0x74_61_6e_03 => Some(Library(Trig(Tan)))
    case 0x73_69_6e_04 => Some(Library(Checked(Sinh)))
    case 0x63_6f_73_04 => Some(Library(Checked(Cosh)))
    case 0x74_61_6e_04 => Some(Library(Checked(Tanh)))
    case 0x61_73_69_04 => Some(Library(InverseTrig(Asin)))
    case 0x61_63_6f_04 => Some(Library(InverseTrig(Acos)))
    case 0x61_74_61_04 => Some(Library(Atan))
    case 0x61_74_61_05 => Some(LibraryPair(Atan2))
    case 0x65_78_70_03 => Some(Library(Unary(Exp)))
    case 0x6c_6e_00_02 => Some(Library(Checked(Ln)))
    case 0x6c_6f_67_03 => Some(Library(Log10))
    case 0x6c_6f_67_04 => Some(LibraryPair(LogN))
    case 0x61_62_73_03 => Some(OnTop(Abs))
    case 0x72_6f_75_05 => Some(OnTop(Round))
    case 0x72_61_64_03 => Some(OnMode(Radians))
    case 0x64_65_67_03 => Some(OnMode(Degrees))
    case 0x74_6f_64_05 => Some(OnTop(ToDeg))
    case 0x74_6f_72_05 => Some(OnTop(ToRad))
    case 0x74_6f_66_03 => Some(OnTop(ToFahrenheit))
    case 0x74_6f_63_03 => Some(OnTop(ToCelsius))
    case 0x78_73_74_05 => Some(OnStats(XStat))
    case 0x2b_00_00_01 => Some(OnPair(Add))
    case 0x2d_00_00_01 => Some(OnPair(Sub))
    case 0x2a_00_00_01 => Some(OnPair(Mul))
    case 0x78_00_00_01 => Some(OnPair(Mul))
    case 0x2f_00_00_01 => Some(OnPair(Div))
    case 0x64_69_76_03 => Some(OnPair(IntQuotient))
    case 0x6d_6f_64_03 => Some(OnPair(IntRemainder))
    case 0x66_6d_6f_04 => Some(LibraryPair(Binary(FMod)))
    case 0x66_6c_6f_05 => Some(OnTop(Floor))
    case 0x63_65_69_04 => Some(OnTop(Ceil))
    case 0x70_6f_77_03 => Some(LibraryPair(Pow))
    case 0x5e_00_00_01 => Some(LibraryPair(Pow))
    case 0x3e_3e_00_02 => Some(LibraryPair(Binary(ShiftRight)))
    case 0x3c_3c_00_02 => Some(LibraryPair(Binary(ShiftLeft)))
    case 0x7c_00_00_01 => Some(LibraryPair(Binary(BitOr)))
    case 0x26_00_00_01 => Some(LibraryPair(Binary(BitAnd)))
    case 0x7e_00_00_01 => Some(Library(Unary(BitNot)))
    case 0x74_6f_78_04 => Some(Coordinates(ToXY))
    case 0x74_6f_72_04 => Some(Coordinates(ToPolar))
    case 0x6d_69_32_04 => Some(Constant(MilesToMeters))
    case 0x66_74_32_04 => Some(Constant(FeetToMeters))
    case 0x69_6e_32_05 => Some(Constant(InchesToMm))
    case 0x74_69_6d_04 => Some(Clock)
    case 0x3d_75_72_06 => Some(Variate(SetUniform))
    case 0x3d_6e_72_06 => Some(Variate(SetNormal))
    case 0x3d_65_72_06 => Some(Variate(SetExponential))
    case 0x75_72_61_05 => Some(Variate(DrawUniform))
    case 0x6e_72_61_05 => Some(Variate(DrawNormal))
    case 0x65_72_61_05 => Some(Variate(DrawExponential))
    case 0x70_69_00_02 => Some(Constant(Pi))
    case 0x65_00_00_01 => Some(Constant(EulerE))
    case 0x76_63_00_02 => Some(Constant(LightSpeed))
    case _ => None
  }

  /** A word: a token with no space or NUL inside it. */
  predicate Word(w: string) {
    forall k | 0 <= k < |w| :: !IsNullSpace(w[k])
  }

  /** The key of a whole word, from its bytes and length. */
  lemma {:induction false} WordKey(w: string)
    requires Word(w)
    ensures TokenLength(w, 0) == |w|
    ensures KeyOf(w) == At(w, 0) as int * Shift24 + At(w, 1) as int * Shift16 + At(w, 2) as int * Shift8 + |w|
  {
    TokenEndFrom(w, 0, |w|);
  }

  /** Every key rpncalc_op has a case for has the shape of a hash: a
      token of that key exists (HashableRoundTrip), so no case label is
      out of reach of compute_hash. The cases are taken a range of keys at
      a time. */
  lemma {:induction false} DecodedKeysAreHashable(key: int)
    requires Decode(key).Some?
    ensures Hashable(key)
  {
    if key < 0x3d00_0000 {
      PunctuationKeys(key);
    } else if key < 0x6100_0000 {
      AssignQueryKeys(key);
    } else if key < 0x6300_0000 {
      KeysAB(key);
    } else if key < 0x6500_0000 {
      KeysCD(key);
    } else if key < 0x6d00_0000 {
      KeysEL(key);
    } else if key < 0x7300_0000 {
      KeysMR(key);
    } else if key < 0x7374_0000 {
      KeysSD(key);
    } else if key < 0x7400_0000 {
      KeysST(key);
    } else {
      KeysTZ(key);
    }
  }

  /** The keys of "!", "&", "*", "+", "+-", "-", "-+", ".", "/" and "<<". */
  lemma {:induction false} PunctuationKeys(key: int)
    requires Decode(key).Some? && key < 0x3d00_0000
    ensures Hashable(key)
  {
    assert KeyLength(key) > 0;
    assert PlaceFits(key, 0);
    assert PlaceFits(key, 1);
    assert PlaceFits(key, 2);
  }

  /** The keys of the "=" and "?" register words, ">>" and "^". */
  lemma {:induction false} AssignQueryKeys(key: int)
    requires Decode(key).Some? && 0x3d00_0000 <= key < 0x6100_0000
    ensures Hashable(key)
  {
    assert KeyLength(key) > 0;
    assert PlaceFits(key, 0);
    assert PlaceFits(key, 1);
    assert PlaceFits(key, 2);
  }

  /** The keys of words that start with a or b. */
  lemma {:induction false} KeysAB(key: int)
    requires Decode(key).Some? && 0x6100_0000 <= key < 0x6300_0000
    ensures Hashable(key)
  {
    assert KeyLength(key) > 0;
    assert PlaceFits(key, 0);
    assert PlaceFits(key, 1);
    assert PlaceFits(key, 2);
  }

  /** The keys of words that start with c or d. */
  lemma {:induction false} KeysCD(key: int)
    requires Decode(key).Some? && 0x6300_0000 <= key < 0x6500_0000
    ensures Hashable(key)
  {
    assert KeyLength(key) > 0;
    assert PlaceFits(key, 0);
    assert PlaceFits(key, 1);
    assert PlaceFits(key, 2);
  }

  /** The keys of words that start with e to l. */
  lemma {:induction false} KeysEL(key: int)
    requires Decode(key).Some? && 0x6500_0000 <= key < 0x6d00_0000
    ensures Hashable(key)
  {
    assert KeyLength(key) > 0;
    assert PlaceFits(key, 0);
    assert PlaceFits(key, 1);
    assert PlaceFits(key, 2);
  }

  /** The keys of words that start with m to r. */
  lemma {:induction false} KeysMR(key: int)
    requires Decode(key).Some? && 0x6d00_0000 <= key < 0x7300_0000
    ensures Hashable(key)
  {
    assert KeyLength(key) > 0;
    assert PlaceFits(key, 0);
    assert PlaceFits(key, 1);
    assert PlaceFits(key, 2);
  }

  /** The keys of words that start with sd, si or sq. */
  lemma {:induction false} KeysSD(key: int)
    requires Decode(key).Some? && 0x7300_0000 <= key < 0x7374_0000
    ensures Hashable(key)
  {
    assert KeyLength(key) > 0;
    assert PlaceFits(key, 0);
    assert PlaceFits(key, 1);
    assert PlaceFits(key, 2);
  }

  /** The keys of the other words that start with s. */
  lemma {:induction false} KeysST(key: int)
    requires Decode(key).Some? && 0x7374_0000 <= key < 0x7400_0000
    ensures Hashable(key)
  {
    assert KeyLength(key) > 0;
    assert PlaceFits(key, 0);
    assert PlaceFits(key, 1);
    assert PlaceFits(key, 2);
  }

  /** The keys of words that start with t or later. */
  lemma {:induction false} KeysTZ(key: int)
    requires Decode(key).Some? && 0x7400_0000 <= key
    ensures Hashable(key)
  {
    assert KeyLength(key) > 0;
    assert PlaceFits(key, 0);
    assert PlaceFits(key, 1);
    assert PlaceFits(key, 2);
  }

  /** Words of four or more characters are told apart only by their first
      three characters and their length, so a misspelling can reach an
      operation: "sqrx" runs the square root, while "sqr" is no operation. */
  lemma {:induction false} SqrtSpellings()
    ensures Decode(KeyOf("sqrx")) == Decode(KeyOf("sqrt")) == Some(Library(Unary(Sqrt)))
    ensures Decode(KeyOf("sqr")) == None
  {
  }

  /** "." is a second spelling of drop, and "x" one of "*". */
  lemma {:induction false} Aliases()
    ensures Decode(KeyOf(".")) == Decode(KeyOf("drop")) == Some(OnStack(Drop))
    ensures Decode(KeyOf("*")) == Decode(KeyOf("x")) == Some(OnPair(Mul))
  {
  }
}
