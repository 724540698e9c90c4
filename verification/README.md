# rpncalc in Dafny

A model of the engine of rpncalc, a reverse-Polish calculator library. It
covers the calculator record `DS` and its bounded stack (`ds_*`), the
three-byte dispatch key (`compute_hash`, `decompute_hash`), the operator
switch `rpncalc_op`, the base-N number reader and writer (`convert_s_to_d`,
`convert_d_to_s` and the digit helpers) and the line evaluator
`rpncalc_eval`. It also covers the Park–Miller "minimal standard" generator
of `variates.c` and the uniform, normal and exponential wrappers that the
calculator keeps in its record.

Files and modules:

- `dispatch.dfy` (`Dispatch`): C-string reading, where reading past the end
  gives NUL. It also holds the key `compute_hash` builds, its inverse
  `decompute_hash`, and the table from keys to operators (`Decode`). The
  operators fall into small families: stack, mode, statistics, registers,
  memory, top value, two values, constants, generators, library,
  coordinates and clock.
- `codec.dfy` (`Codec`): the digit helpers and `skipwhite`/`skipnonwhite`.
  It defines the grammar and value of a number (`Parse`) and proves the
  character loop `ConvertStoD` against `Parse`.
- `format.dfy` (`Format`): `convert_d_to_s`. `Out` specifies it and
  `ConvertDtoS` writes into an `array<char>`. The writer rounds, emits whole
  digits least significant first, reverses them in place, then writes the
  fraction digits and trims trailing zeros. `FormatRoundTrip` reads the
  output back.
- `variates.dfy` (`Variates`): Schrage's step, seeding, the unit and uniform
  reals, and the `return_x2` cache of the normal generator. Each C struct is
  a class whose methods update its fields.
- `engine.dfy` (`Engine`): the record as a value (`Calc`). Each `ds_*`
  operation and each family of `rpncalc_op` is a function returning an
  `Outcome` (status and new record). `EvalFrom` is `rpncalc_eval`.
- `calculator.dfy` (`Calculator`): class `DS` over an `array<real>` stack,
  with `next`, `mem`, the statistics registers, base, precision and angle
  unit as fields. Every method is proved to produce the status and the new
  record that the matching `Engine` function gives.
- `laws.dfy` (`EngineLaws`): what the engine promises across calls, covering:
  - the failure conditions and round trips of the stack;
  - rotation;
  - the base and precision rules;
  - the statistics registers and least squares;
  - arithmetic operators that undo each other, and div and mod;
  - the memory operators and their round trips;
  - which operators leave the record alone when they fail;
  - how tokens are read.

Behaviour kept as the code has it:

- **Numbers and tokens**
  - An `e` anywhere in a number is rejected (`Codec.ExponentRejected`).
  - A number token on a full stack is dropped without error
    (`EngineLaws.NumberToken`).
  - Of four-character spellings, only `sqr?` reaches `sqrt`. Any fourth
    character works, so `sqrx` does too, while `sqr` alone is no operator
    (`Dispatch.SqrtSpellings`).
- **Base and precision**
  - `ds_setbase` has no lower clamp on the precision
    (`EngineLaws.BaseKeepsNegativePrecision`).
  - `=base` drops the top before `ds_setbase` can refuse the base, so a
    refused base still costs the operand (`EngineLaws.SetBaseConsumesTop`).
- **Output buffer**
  - When the text does not fit the budget `n`, `convert_d_to_s` writes its
    terminator at `buf[n]`. `Format.ConvertDtoS` therefore accepts a buffer
    of exactly `n` bytes only for text that fits, and otherwise needs one
    byte more. The display loop of `src/rpnmain.c` passes the buffer size
    itself as `n` (see Findings).
- **Significant digits**
  - `sigfig(base)` is the number of digits of 2^53 in the base, less one
    (`Engine.SigFig`). That is 15 for base 10 and 13 for base 16
    (`EngineLaws.SigFigValues`).
- **Generator seeds**
  - `unit_random_seed` maps every positive multiple of the modulus, other
    than the modulus itself, to 0 (`Variates.SeedForRange`).
  - The seeds 0 and the modulus both step to the modulus and stay there
    (`Variates.DegenerateSeeds`). They do not alternate between the two, as
    the comment at `src/variates.c` lines 45-49 says.

## Model

| member | source | states |
|---|---|---|
| Dispatch.TokenEnd | src/rpncalc.c:800-805 | the end of a token is the first NUL or space at or after its start, and no character before it is one |
| Dispatch.ComputeHash | src/rpncalc.c:349-378 | the hash loop returns exactly the key: 0 for an empty token, else up to three leading bytes in the high bytes and the token length in the low byte |
| Dispatch.Key | src/rpncalc.c:349-378 | the key is never negative, and it is 0 exactly for an empty token (a NUL or space at the start) |
| Dispatch.SameKeyWhenPrefixAndLengthAgree | src/rpncalc.c:369-377 | two tokens with the same length and the same first three bytes get the same key and so dispatch to the same operator |
| Dispatch.SameKeyMeansSamePrefixAndLength | src/rpncalc.c:349-378 | for tokens shorter than 256 with byte-sized characters, equal keys mean equal lengths and equal leading bytes (up to three) |
| Dispatch.KeyImage | src/rpncalc.c:385-401 | the text decompute_hash lays down has its NUL at the length stored in the key |
| Dispatch.DecomputeHash | src/rpncalc.c:385-401 | the buffer starts with the key's three bytes, then 'X' up to the stored length, then NUL; the bytes after that are unchanged |
| Dispatch.KeyImageRoundTrip | src/rpncalc.c:349-401 | decompute_hash of compute_hash of a token gives its length, its first min(3, L) bytes, 'X' padding up to L and the NUL |
| Dispatch.HashableRoundTrip | src/rpncalc.c:349-401 | a key with a length of 1-255 in its low byte, no NUL or space among the bytes the token fills and zero past its end is the key compute_hash gives to the text decompute_hash makes of it |
| Dispatch.DecodedKeysAreHashable | src/rpncalc.c:435-740 | every case label of the operator switch (Decode) has that shape, so each case is the key of some token |
| Dispatch.WordKey | src/rpncalc.c:380-383 | the key of an operator spelling of length at least 4 is the compute_hash_n formula of its first three bytes and its length |
| Dispatch.SqrtSpellings | src/rpncalc.c:532-533 | "sqrx" dispatches like "sqrt" to the square root, and "sqr" dispatches to nothing |
| Dispatch.Aliases | src/rpncalc.c:451-452 | "." dispatches like "drop", and "x" like "*" (lines 626-627) |
| Codec.DigitValue | src/rpncalc.c:760-774 | todoublebase gives a value below the base for a digit of the base and 0 for anything else |
| Codec.DigitChar | src/rpncalc.c:776-791 | tocharbase gives a digit of the base whose value is the argument when the argument is in range, and '0' otherwise |
| Codec.DigitCharOfValue | src/rpncalc.c:760-791 | tocharbase inverts todoublebase on the digits of the base |
| Codec.LowerCaseIsNoDigit | src/rpncalc.c:744-758 | isdigitbase accepts no lower-case letter in any base; digits above 9 are upper case |
| Codec.DigitsOfBase | src/rpncalc.c:744-758 | isdigitbase accepts exactly the characters tocharbase gives the values 0..base-1 (bases up to 36), both directions |
| Codec.SkipWhite | src/rpncalc.c:793-798 | skipwhite stops at the first character that is not white space, having passed only white space |
| Codec.SkipWhiteFrom | src/rpncalc.c:793-798 | the pointer-advancing loop stops where SkipWhite says |
| Codec.SkipNonWhite | src/rpncalc.c:800-805 | the loop stops at the end of the token |
| Codec.TokenAt | src/rpncalc.c:823-824 | the characters convert_s_to_d reads are those before the next NUL or space, none of them NUL or space |
| Codec.BadCharacter | src/rpncalc.c:876-877 | a character past the sign position that is neither a digit of the base nor '.' makes the token no number |
| Codec.SecondPoint | src/rpncalc.c:847-848 | a second '.' makes the token no number |
| Codec.ExponentRejected | src/rpncalc.c:837-840 | a token containing 'e' is never a number, whatever the base |
| Codec.ScaleDown | src/rpncalc.c:861-865 | dividing a fraction digit by the base k times gives digit / base^k |
| Codec.RunMatchesParse | src/rpncalc.c:823-882 | the character loop's verdict on a whole token (early return, or gotnum and the signed value) is the grammar's Parse |
| Codec.ReadChar | src/rpncalc.c:825-877 | one turn of the loop: the early returns for a misplaced sign, an 'e', a second point or a bad character, and the update of num for integer and fraction digits |
| Codec.ConvertStoD | src/rpncalc.c:810-883 | convert_s_to_d returns the number the token after the blanks denotes, or an error exactly when that token is not a well-formed number |
| Format.Trunc | src/rpncalc.c:506-509 | the C conversion of the top value to the int argument of ds_setbase/ds_setprec: truncation toward zero, the integer within one below a non-negative value and within one above a negative one |
| Format.TruncTowardZero | src/rpncalc.c:506-509 | (int)-1.5 is -1, (int)-0.5 is 0, (int)-2.0 is -2 and (int)1.5 is 1 |
| Format.LsfChars | src/rpncalc.c:926-932 | the whole digits as the loop writes them: digits of the base, none for a zero whole part |
| Format.Reverse | src/rpncalc.c:935-942 | the reversal keeps the length and puts character i at position length-1-i |
| Format.FracDigit | src/rpncalc.c:953-956 | each fraction digit lies in [0, base) |
| Format.NextRemainder | src/rpncalc.c:953-956 | the fraction left after taking a digit stays in [0, 1) and is frac*base minus that digit |
| Format.FracChars | src/rpncalc.c:953-961 | j fraction digits are written for j places |
| Format.FracCharsDigits | src/rpncalc.c:953-961 | every fraction character is a digit of the base |
| Format.TrimZeros | src/rpncalc.c:949-962 | the terminator at lastzero keeps a prefix of the digits that does not end in '0' |
| Format.TrimZerosValue | src/rpncalc.c:959-962 | trimming trailing zeros does not change the value of the fraction digits |
| Format.Rounded | src/rpncalc.c:910-917 | the value rounded by adding half a unit of the last place is positive |
| Format.Fraction | src/rpncalc.c:919-925 | the fraction part after rounding lies in [0, 1) |
| Format.Lead | src/rpncalc.c:919-932 | the whole part as first written is never empty: a lone '0' below one, otherwise its digits |
| Format.FormatRoundTrip | src/rpncalc.c:885-965 | when the buffer is long enough, reading convert_d_to_s's text back in the same base gives the rounded value shown, with the sign of x |
| Format.ShownClose | src/rpncalc.c:910-961 | the value shown lies within one unit of the last place kept below the rounded value |
| Format.SmallValueRounding | src/rpncalc.c:910-925 | for a value that rounds below one, the text shown is within half a unit of the last place of |x| |
| Format.RoundAt | src/rpncalc.c:910-925 | the precision loop and floor give the whole and fraction parts of |x| plus half a unit |
| Format.WriteWhole | src/rpncalc.c:919-932 | the leading '0' or the whole digits least significant first, stopping with a terminator when the budget runs out |
| Format.WholePlace | src/rpncalc.c:927-931 | one turn of the whole-digit loop writes the digit whole mod base and divides whole by the base |
| Format.ReverseRange | src/rpncalc.c:934-943 | the in-place swap loop reverses buf[lo..hi] and leaves the rest of the buffer alone |
| Format.WholePart | src/rpncalc.c:900-932 | the sign and the whole digits land in the buffer; if the budget runs out, the buffer holds what was written so far plus the terminator |
| Format.FractionDigit | src/rpncalc.c:954-956 | digit = (int)(frac*base) and the remainder are those of FracDigit/NextRemainder |
| Format.FractionPlace | src/rpncalc.c:954-960 | one turn of the fraction loop appends the next digit and moves lastzero only past a non-zero digit |
| Format.FractionDigits | src/rpncalc.c:953-961 | the fraction loop writes min(places, budget) digits and tracks where the trimmed text ends |
| Format.Terminate | src/rpncalc.c:962 | the terminator at lastzero leaves the point and the digits trimmed of trailing zeros |
| Format.WriteFraction | src/rpncalc.c:949-962 | the point and the fraction digits, trimmed and terminated |
| Format.PointAndFraction | src/rpncalc.c:945-964 | no point when no places are left; otherwise the point and fraction, succeeding exactly when they fit the budget |
| Format.EmitStopsInWhole | src/rpncalc.c:904-929 | running out of budget in the sign or the whole digits leaves those characters unreversed and returns an error |
| Format.EmitWithoutFraction | src/rpncalc.c:945-947 | with no places left for a fraction, the text is the sign and the whole digits in order |
| Format.EmitStopsAtPoint | src/rpncalc.c:950-951 | running out of budget on the point leaves the text ending in '.' |
| Format.EmitStopsInFraction | src/rpncalc.c:958-960 | running out of budget in the fraction keeps the digits written, trimmed |
| Format.ConvertDtoS | src/rpncalc.c:885-965 | succeeds exactly when the whole text fits in n; in every case the buffer holds Out(x, base, prec, n) followed by a terminator; a buffer of n bytes is enough for text that fits, and n + 1 bytes for any text |
| Format.LsfLength | src/rpncalc.c:926-932 | a whole part of at least base^k gets more than k digits |
| Format.LsfShort | src/rpncalc.c:926-932 | a whole part below base^k gets at most k digits |
| Format.DigitCount | src/rpncalc.c:926-932 | a positive whole part has n digits exactly when base^(n-1) <= w < base^n |
| Format.BudgetOfWholeBufferOverruns | src/rpnmain.c:204 | with the budget equal to the buffer size n, a value of at least base^n does not fit and its terminator belongs one past the buffer: the call is outside what convert_d_to_s can do safely |
| Format.ConvertInto | src/rpnmain.c:204-208 | keeping the last byte for the terminator, the call is safe for every value, succeeds iff the text fits in buf.Length - 1 and leaves the terminated text |
| Variates.UniformParams | src/variates.c:116-125 | min is the smaller of a and b and diff = abs(a - b) >= 0, so min + diff is the larger one |
| Variates.UniformParamsSymmetric | src/variates.c:116-125 | uniform_random_set does not depend on the order of its bounds |
| Variates.SchrageTermsFit | src/variates.c:61-75 | for an in-range seed, hi, lo, 16807*lo, 2836*hi and their difference all stay inside a 32-bit signed int |
| Variates.SchrageIsMinimalStandard | src/variates.c:61-75 | for seeds in [1, M-1], Schrage's step is 16807*seed mod 2147483647, again in [1, M-1] = [integer_min, integer_max] |
| Variates.SchrageInRange | src/variates.c:45-49 | a draw from an in-range seed stays in range, so it never returns 0 or M |
| Variates.DegenerateSeeds | src/variates.c:45-49 | seeds 0 and M both step to M |
| Variates.SeedForRange | src/variates.c:91-104 | unit_random_seed maps s <= 0 to 1, M to M-1, an in-range seed to itself, and gives 0 exactly for the multiples of M above M |
| Variates.UnitRealBounds | src/variates.c:77-85 | (k-1)/(M-1) lies in [0, 1) for an in-range k |
| Variates.UniformNextBounds | src/variates.c:132-135 | a uniform draw keeps the seed in range and lies in [min, min+diff), or equals min when diff is 0 |
| Variates.DrawBounds | src/variates.c:132-135 | min + diff*u lies in [min, min+diff] and below min+diff when diff > 0 |
| Variates.NormalPairs | src/variates.c:174-198 | with no cached value, a call returns sd*z1+mean and caches x2; the next returns sd*z2+mean, clears the flag and draws nothing |
| Variates.NormalSetClearsCache | src/variates.c:153-166 | changing the mean clears return_x2, so the next draw computes a new pair |
| Variates.UnitRandom.constructor | src/variates.c:40-43 | unit_random_init sets the seed to 65521 |
| Variates.UnitRandom.Seed | src/variates.c:91-104 | the stored seed is SeedFor(s) |
| Variates.UnitRandom.Integer | src/variates.c:61-75 | the seed is replaced by Schrage's step and returned; from an in-range seed it is 16807*seed mod M and in range |
| Variates.UnitRandom.Real | src/variates.c:82-85 | advances the seed and returns (k-1)/(M-1), in [0, 1) from an in-range seed |
| Variates.UniformRandom.constructor | src/variates.c:110-114 | the unit generator starts at 65521 and the bounds are those of uniform_random_set |
| Variates.UniformRandom.Set | src/variates.c:116-125 | stores min and diff from UniformParams and leaves the seed alone |
| Variates.UniformRandom.Real | src/variates.c:132-135 | advances the unit seed and returns min + diff*u |
| Variates.NormalRandom.constructor | src/variates.c:143-151 | mean and sd as given, no cached value |
| Variates.NormalRandom.Set | src/variates.c:153-166 | new mean and sd with the cache cleared, unless both are within DBL_EPSILON of the old ones |
| Variates.NormalRandom.Real | src/variates.c:174-198 | returns the cached x2 and clears the flag, or computes both variates from the pair, caches x2 and returns x1 |
| Variates.ExponentialRandom.constructor | src/variates.c:238-242 | the mean (sd) as given |
| Variates.ExponentialRandom.Set | src/variates.c:244-247 | stores the new sd |
| Engine.SigFigBounds | src/rpncalc.c:42-45 | sigfig(base) is the largest k with base^k <= 2^53 |
| Engine.Init | src/rpncalc.c:47-66 | ds_init fails exactly for size <= 0; otherwise an empty stack in base 10 that satisfies the record invariant, sigfig included |
| Engine.ClearStack | src/rpncalc.c:68-73 | keeps the record invariant (0 < size, depth <= size, base in [2, 36], sigfig = sigfig(base)) |
| Engine.ClearAll | src/rpncalc.c:76-82 | keeps the record invariant |
| Engine.Push | src/rpncalc.c:84-94 | keeps the record invariant: the stack never grows past size |
| Engine.Pop | src/rpncalc.c:96-106 | keeps the record invariant |
| Engine.Duplicate | src/rpncalc.c:108-120 | keeps the record invariant |
| Engine.SwapTop | src/rpncalc.c:122-136 | keeps the record invariant |
| Engine.Rotate | src/rpncalc.c:138-155 | keeps the record invariant |
| Engine.DropTop | src/rpncalc.c:157-167 | keeps the record invariant |
| Engine.Replace | src/rpncalc.c:169-180 | keeps the record invariant |
| Engine.ChangeBase | src/rpncalc.c:199-210 | keeps the record invariant: the base stays in [2, 36] and sigfig follows it |
| Engine.RoundHalfAway | src/rpncalc.c:403 | the round macro gives the integer nearest x, halves going away from zero: x - 1/2 < r <= x + 1/2 for x >= 0, and x - 1/2 <= r < x + 1/2 below 0 |
| Engine.QuotientTruncates | src/rpncalc.c:631-642 | C's i / j truncates toward zero: the remainder i - j*(i/j) has the sign of i and is smaller than abs(j) |
| Engine.LeastSquaresFit | src/rpncalc.c:282-302 | when n*sumxx - sumx^2 is not 0, ds_leastsq_a and ds_leastsq_b solve the normal equations n*b + sumx*a = sumy and sumx*b + sumxx*a = sumxy |
| Engine.RegressionUndetermined | src/rpncalc.c:282-313 | when n*sumxx - sumx^2 is 0, ds_leastsq_a, ds_leastsq_b and ds_leastsq_r all return 0 |
| Engine.ChangePrec | src/rpncalc.c:217-223 | keeps the record invariant |
| Engine.ApplyStack | src/rpncalc.c:435-455 | c, ac, dup, swap, rot, drop/'.' and depth keep the record invariant |
| Engine.ApplyMode | src/rpncalc.c:506-515 | =base, =prec, ?base, ?prec and ?sf keep the record invariant; so do dec/hex/bin (lines 439-444) and rad/deg (596-601) |
| Engine.ApplyStats | src/rpncalc.c:456-479 | avg, std and stat keep the record invariant; so does xstat (610-621) |
| Engine.ApplyRegisters | src/rpncalc.c:480-505 | n, sx..sxy, mx, my, sdx, sdy, a, b and r keep the record invariant |
| Engine.ApplyMemory | src/rpncalc.c:516-523 | sto, rcl, sum and exc keep the record invariant; EngineLaws.MemoryEffects and the round trips after it carry their meaning |
| Engine.ApplyScalar | src/rpncalc.c:524-531 | the operators that replace the top value keep the record invariant |
| Engine.ApplyPair | src/rpncalc.c:622-642 | + - * / div mod keep the record invariant |
| Engine.ApplyConstant | src/rpncalc.c:696-701 | the constants keep the record invariant |
| Engine.ApplyLibrary | src/rpncalc.c:532-589 | the libm operators on one value keep the record invariant |
| Engine.ApplyLibraryPair | src/rpncalc.c:643-683 | fmod, pow, shifts and bit operators keep the record invariant |
| Engine.ApplyCoordinates | src/rpncalc.c:684-694 | toxy and tort keep the record invariant |
| Engine.ApplyRandom | src/rpncalc.c:707-730 | setting and drawing the generators keeps the record invariant |
| Engine.Apply | src/rpncalc.c:424-742 | every operator keeps the record invariant |
| Engine.Operate | src/rpncalc.c:431-434 | dispatching on the key keeps the record invariant; an unknown key is an error |
| Engine.Token | src/rpncalc.c:986-995 | a token returns only OK or an error, and keeps the record invariant |
| Engine.EvalFrom | src/rpncalc.c:972-1003 | a whole line keeps the record invariant |
| Calculator.DS.constructor | src/rpncalc.c:47-66 | the record ds_init builds, apart from the normal generator's x1 and x2, which the source leaves unset |
| Calculator.DS.Clear | src/rpncalc.c:68-73 | next := 0, nothing else |
| Calculator.DS.AllClear | src/rpncalc.c:76-82 | mem, the statistics and the stack are cleared; base, precision, angle unit and generators are kept |
| Calculator.DS.Push | src/rpncalc.c:84-94 | the status and new record of Engine.Push: an error on a full stack, otherwise v on top |
| Calculator.DS.Pop | src/rpncalc.c:96-106 | the status and record of Engine.Pop, returning the old top on success |
| Calculator.DS.Dup | src/rpncalc.c:108-120 | the status and record of Engine.Duplicate |
| Calculator.DS.Swap | src/rpncalc.c:122-136 | the status and record of Engine.SwapTop |
| Calculator.DS.Rot | src/rpncalc.c:138-155 | always OK; the shifting loop leaves the array as Engine.Rotate says |
| Calculator.DS.Drop | src/rpncalc.c:157-167 | the status and record of Engine.DropTop |
| Calculator.DS.Replace | src/rpncalc.c:169-180 | the status and record of Engine.Replace |
| Calculator.DS.FromTop | src/rpncalc.c:186-197 | OK exactly when 0 <= down < next, giving stack[next-1-down] and changing nothing |
| Calculator.DS.SetBase | src/rpncalc.c:199-210 | the status and record of Engine.ChangeBase |
| Calculator.DS.SetPrec | src/rpncalc.c:217-223 | the record of Engine.ChangePrec |
| Calculator.DS.PushUnless | src/rpncalc.c:492-505 | the `guard \|\| ds_push(...)` shape: an error that changes nothing when the guard holds, otherwise a push |
| Calculator.DS.StackSum | src/rpncalc.c:456-462 | the avg loop sums the whole stack |
| Calculator.DS.StdDev | src/rpncalc.c:238-252 | the ds_stddev loop computes the sample standard deviation from the sum and the sum of squares of the stack |
| Calculator.DS.EnterPairs | src/rpncalc.c:466-479 | the stat loop adds the pairs (stack[2k], stack[2k+1]) bottom up into the registers and empties the stack |
| Calculator.DS.EnterSeries | src/rpncalc.c:610-621 | the xstat loop adds each value with the running n as its x and empties the stack |
| Calculator.DS.StackOps | src/rpncalc.c:435-455 | the status and record of Engine.ApplyStack |
| Calculator.DS.ModeOps | src/rpncalc.c:506-515 | the status and record of Engine.ApplyMode |
| Calculator.DS.StatsOps | src/rpncalc.c:456-479 | the status and record of Engine.ApplyStats |
| Calculator.DS.RegisterOps | src/rpncalc.c:480-505 | the status and record of Engine.ApplyRegisters |
| Calculator.DS.MemoryOps | src/rpncalc.c:516-523 | the status and record of Engine.ApplyMemory |
| Calculator.DS.ScalarOps | src/rpncalc.c:524-531 | the status and record of Engine.ApplyScalar |
| Calculator.DS.PairOps | src/rpncalc.c:622-642 | the status and record of Engine.ApplyPair |
| Calculator.DS.ConstantOps | src/rpncalc.c:696-701 | the status and record of Engine.ApplyConstant |
| Calculator.DS.LibraryOps | src/rpncalc.c:532-589 | the status and record of Engine.ApplyLibrary |
| Calculator.DS.LibraryPairOps | src/rpncalc.c:643-683 | the status and record of Engine.ApplyLibraryPair |
| Calculator.DS.CoordinateOps | src/rpncalc.c:684-694 | the status and record of Engine.ApplyCoordinates |
| Calculator.DS.RandomOps | src/rpncalc.c:707-730 | the status and record of Engine.ApplyRandom, with the generator objects updated in place |
| Calculator.DS.Operate | src/rpncalc.c:424-434 | the status and record of Engine.Operate |
| Calculator.DS.Apply | src/rpncalc.c:434-742 | the status and record of Engine.Apply |
| Calculator.DS.Token | src/rpncalc.c:986-995 | the status and record of Engine.Token |
| Calculator.DS.Step | src/rpncalc.c:977-999 | one pass of the loop either ends the evaluation with EvalFrom's result or moves past the token without changing what EvalFrom gives |
| Calculator.DS.Eval | src/rpncalc.c:972-1003 | the status and record of Engine.Eval |
| EngineLaws.FailureConditions | src/rpncalc.c:84-197 | push fails iff full, pop iff empty, dup iff empty or full, swap iff fewer than 2, replace(h) iff fewer than h, fromtop(d) iff not 0 <= d < next; a failure changes nothing |
| EngineLaws.PushThenPop | src/rpncalc.c:84-106 | a push that fits puts v on top, and a pop then gives back the record before the push |
| EngineLaws.PopThenPush | src/rpncalc.c:84-106 | pushing the popped top restores the record |
| EngineLaws.DupThenDrop | src/rpncalc.c:108-167 | dup then drop changes nothing |
| EngineLaws.SwapTwice | src/rpncalc.c:122-136 | swap is its own inverse |
| EngineLaws.RotateShape | src/rpncalc.c:138-155 | rot keeps the depth and moves stack[0] to the top, shifting the rest down one; below two values it changes nothing |
| EngineLaws.RotationsCut | src/rpncalc.c:138-155 | k rotations leave stack[k..] + stack[..k] |
| EngineLaws.RotateAround | src/rpncalc.c:138-155 | as many rotations as values restore the stack |
| EngineLaws.ReplaceShape | src/rpncalc.c:169-180 | replace(h, v) leaves depth next-h+1 with v on top and the slots below untouched |
| EngineLaws.PrecisionClamp | src/rpncalc.c:217-223 | ds_setprec records askprec and clamps prec into [0, sigfig], keeping an in-range request |
| EngineLaws.SigFigValues | src/rpncalc.c:42-45 | sigfig(10) = 15 and sigfig(16) = 13 |
| EngineLaws.SigFigIs | src/rpncalc.c:42-45 | sigfig(base) is the only k with base^k <= 2^53 < base^(k+1) |
| EngineLaws.StartingPrecision | src/rpncalc.c:47-66 | ds_init sets sigfig, askprec and prec to 15, and a following hex (line 441) cuts prec to 13 |
| EngineLaws.BaseSetting | src/rpncalc.c:199-210 | ds_setbase succeeds iff 2 <= base <= 36, then sets sigfig and prec = min(askprec, sigfig) and nothing else; a refusal changes nothing |
| EngineLaws.BaseKeepsNegativePrecision | src/rpncalc.c:206-207 | after =prec with a negative value, a base change sets prec negative |
| EngineLaws.BaseLastWins | src/rpncalc.c:199-210 | of two base changes, the last that succeeds decides base, sigfig and prec |
| EngineLaws.SetBaseConsumesTop | src/rpncalc.c:506-507 | =base with an out-of-range top fails, yet the top has been dropped |
| EngineLaws.PairsCount | src/rpncalc.c:466-479 | stat raises n by half the depth |
| EngineLaws.PairsAppend | src/rpncalc.c:466-479 | entering pairs in two batches equals entering them in one |
| EngineLaws.SeriesCount | src/rpncalc.c:610-621 | xstat raises n by the depth |
| EngineLaws.StatShape | src/rpncalc.c:466-479 | stat succeeds iff the depth is even and at least 2; it empties the stack, raises n by depth/2 and changes nothing else, and a failure changes nothing |
| EngineLaws.XStatShape | src/rpncalc.c:610-621 | xstat succeeds iff the stack is not empty; it empties the stack, raises n by the depth and changes nothing else |
| EngineLaws.SeriesSumX | src/rpncalc.c:610-621 | from empty registers xstat uses x = 0, 1, ..., so 2*sumx = depth*(depth-1) |
| EngineLaws.AddPointOnLine | src/rpncalc.c:469-475 | adding a point of the line y = ax+b keeps the registers on that line |
| EngineLaws.PairsStayOnLine | src/rpncalc.c:466-479 | stat of pairs that all lie on y = ax+b keeps the registers on that line |
| EngineLaws.ExactFit | src/rpncalc.c:282-302 | registers on y = ax+b give leastsq_a = a and leastsq_b = b when n*sumxx - sumx^2 is not 0 |
| EngineLaws.StatFitsLine | src/rpncalc.c:282-302 | points entered with stat from empty registers, all on one line, give back its slope and intercept |
| EngineLaws.AllClearKeepsSettings | src/rpncalc.c:76-82 | ac zeroes the stack, mem and the registers and keeps everything else |
| EngineLaws.EnterThenApplies | src/rpncalc.c:622-642 | entering y and then a two-value operator applies it to the old top as next and y as top, the slots below untouched |
| EngineLaws.SubtractionUndoesAddition | src/rpncalc.c:622-625 | y + followed by y - gives back the record |
| EngineLaws.DivisionUndoesMultiplication | src/rpncalc.c:626-630 | for a nonzero y, y * followed by y / gives back the record |
| EngineLaws.NegateTwice | src/rpncalc.c:524-527 | chs twice gives back the record |
| EngineLaws.DivModIdentity | src/rpncalc.c:631-642 | on the rounded operands div and mod keep (i/j)*j + i%j = i, with i%j signed like i and smaller than abs(j) |
| EngineLaws.MemoryEffects | src/rpncalc.c:516-523 | sto moves the top into memory (X->M), rcl pushes the memory (M->X), sum adds the top to it (M+X->M) and exc trades the top with it (X<->M); each refuses an empty stack, rcl a full one, and a refusal changes nothing |
| EngineLaws.StoreThenRecall | src/rpncalc.c:516-519 | sto then rcl gives back the stack, with the old top in memory |
| EngineLaws.RecallThenStore | src/rpncalc.c:516-519 | rcl then sto gives back the record when there is room for the recalled value |
| EngineLaws.ExchangeTwice | src/rpncalc.c:522-523 | exc is its own inverse |
| EngineLaws.SumTwice | src/rpncalc.c:520-521 | sum twice takes the top two values off and adds both to the memory |
| EngineLaws.FailureChangesNothing | src/rpncalc.c:424-742 | for a valid record, an error from any operator other than =base and the urand and nrand draws leaves the record as it was; erand counts here only because the record keeps no exponential generator state (see Left out) |
| EngineLaws.CoordinatesFit | src/rpncalc.c:684-694 | toxy and tort succeed iff there are two values, and keep the depth |
| EngineLaws.DrawOnFullStack | src/rpncalc.c:725-726 | urand on a full stack is an error, yet the seed has advanced |
| EngineLaws.NumberToken | src/rpncalc.c:986-995 | a token that is no operator but a number is pushed in the base current before the token; on a full stack it is dropped and the token still succeeds |
| EngineLaws.BadTokenStops | src/rpncalc.c:987-994 | a token that is neither ends evaluation with an error, keeping the earlier effects |
| EngineLaws.HelpAndQuit | src/rpncalc.c:984-985 | a lone '?' or 'q' returns HELP or QUIT and changes nothing |
| EngineLaws.BlankLine | src/rpncalc.c:977-1002 | a line of white space only is OK and changes nothing |

## Left out

- The REPL, line input, history, printing and help text of `src/rpnmain.c`
  are I/O and are not part of this model. Only the budget its display loop
  passes to `convert_d_to_s` is modelled (see Findings). `ds_base` and `ds_prec` are field
  reads.
- Doubles are reals. IEEE rounding, NaN and infinities are not modelled.
  The `DBL_MIN` tests of `inv` and `/` become tests for zero.
- EngineLaws.FailureChangesNothing: `erand` is not among its exceptions only
  because the record holds no exponential generator state; in the program a
  refused `erand` has still advanced that generator's unit seed.
- Engine.SigFig: the source computes `(int)(53 * log(2) / log(base))` in
  doubles. The model takes the exact value, the whole part of
  log_base(2^53). That the double expression rounds to the same integer
  in every base from 2 to 36 is not proved here.
- The transcendental and libm operators go through the `Env.lib` and
  `Env.fails` parameters: the trigonometric and hyperbolic functions, `ln`,
  `log`, `exp`, `pow`, `sqrt`, `fmod`, the correlation `r` and the square
  roots of `std`/`sdx`/`sdy`. The stack shape, the angle-unit conversion and
  the errno error paths are modelled exactly.
- `div` and `mod` use an exact round-half-away-from-zero and truncating
  division. The shifts, `&`, `|`, `~` and factorial are values from
  `Env.lib`, with factorial's refusals from `Env.fails`, because they
  depend on C integer conversion and on shifts that are undefined for
  out-of-range counts.
- `time` pushes `Env.clock` of the token's offset. `src/ptime.c` is not part
  of this model.
- The normal pair and the exponential draw are `Env.normal` and
  `Env.exponential` of the token's offset. The record keeps no state of the
  exponential generator, so `erand` on a full stack changes nothing in the
  model, although the program's draw has already moved that generator's
  unit seed on. Their rejection loops over `log`
  and `sqrt` are not modelled. Only the `return_x2` cache, the parameters
  and the uniform generator are modelled.
- The weibull, gamma and pearson_v generators, the seeding calls of the
  normal and exponential generators, and the command-line driver of
  `variates.c` are left out.
- `rpncalc_eval_full` passes `sizeof(stack)` (80) as the capacity of a
  10-element array, so its behaviour is an overflow. It is left out.
- `compute_hash` reads characters as non-negative codes. Signed bytes at or
  above 128 are not modelled.
- The disabled `strspcmp` is dead code.
- Calculator.DS.constructor: `normal_random_init` leaves `x1` and `x2`
  unset, so the constructor states the initial record apart from those two
  fields.

## Findings

| source | as written | input that shows it | evidently intended | confidence | as-written member | corrected member |
|---|---|---|---|---|---|---|
| src/rpnmain.c:204 | the display loop passes BUFFERSIZE, the size of `buffer` itself, as the budget of convert_d_to_s | `hex`, a token of 70 `F`s, then `bin`: the value needs 281 binary digits, the whole-digit loop uses up its budget at 256 and writes the terminator to `buffer[256]`, one past the end | a budget of BUFFERSIZE - 1, keeping the last byte for the terminator, as the clearing of `buffer[BUFFERSIZE-1]` at line 208 suggests | not executed | Format.BudgetOfWholeBufferOverruns | Format.ConvertInto |
