/**
 The checkRevision machine: a few register operations run over every 32-bit word of some files. The
 program keeps its registers in 32 bits; the machine it stands for keeps them in 64.
 */
module CheckRevision {
  import opened Bytes
  import opened Digits

  const W := 0x1_0000_0000_0000_0000

  const PLUS: Byte := 43
  const MINUS: Byte := 45
  const TIMES: Byte := 42
  const DIVIDE: Byte := 47
  const CARET: Byte := 94

  type Register = x: int | 0 <= x < 4

  datatype Op = Op(dest: Register, s1: Register, op: Byte, s2: Register)

  datatype Outcome<+T> = Failed | Done(value: T)

  type Registers = v: seq<nat> | |v| == 4 witness [0, 0, 0, 0]

  // ---- the machine, at either width ----

  /** One operation on words of modulus m. */
  function Apply(op: Byte, a: nat, b: nat, m: nat): Outcome<nat>
    requires m == U32_SIZE || m == W
    requires a < m && b < m
  {
    if op == PLUS then Done((a + b) % m)
    else if op == MINUS then Done((a + m - b) % m)
    else if op == CARET then Done(Xor(a, b))
    else if op == TIMES then (MulMono(0, a, b); Done(a * b % m))
    else if op == DIVIDE then (if b == 0 then Failed else QuotientSmall(a, b); Done(a / b))
    else Failed
  }

  predicate Within(v: Registers, m: nat) {
    forall i :: 0 <= i < 4 ==> v[i] < m
  }

  lemma PowersOfTwo()
    ensures Pow(2, 32) == U32_SIZE && Pow(2, 64) == W
  {
    assert Pow(2, 8) == 0x100;
    assert Pow(2, 16) == 0x1_0000;
    assert Pow(2, 24) == 0x100_0000;
    assert Pow(2, 32) == U32_SIZE;
    PowSum(2, 32, 32);
  }

  lemma ApplyStaysWithin(op: Byte, a: nat, b: nat, m: nat)
    requires (m == U32_SIZE || m == W) && a < m && b < m
    ensures var r := Apply(op, a, b, m); r.Done? ==> r.value < m
  {
    PowersOfTwo();
    hide Xor, Pow;
    if op == CARET { XorBound(a, b, if m == U32_SIZE then 32 else 64); }
    if op == DIVIDE && b > 0 { QuotientSmall(a, b); }
  }

  lemma QuotientSmall(a: nat, b: nat)
    requires b > 0
    ensures 0 <= a / b <= a
  {
    var q := a / b;
    Recompose(a, b);
    MulMono(1, b, q);
  }

  // ---- what the operations compute ----

  /** An operation fails only for want of a divisor or of a meaning. */
  lemma FailsIff(op: Byte, a: nat, b: nat, m: nat)
    requires (m == U32_SIZE || m == W) && a < m && b < m
    ensures Apply(op, a, b, m) == Failed <==> op !in {PLUS, MINUS, CARET, TIMES, DIVIDE} || (op == DIVIDE && b == 0)
  {}

  /** Sums wrap at the width. */
  lemma SumIsRight(a: nat, b: nat, m: nat)
    requires (m == U32_SIZE || m == W) && a < m && b < m
    ensures Apply(PLUS, a, b, m) == Done(if a + b < m then a + b else a + b - m)
  {}

  /** A difference is what has to be added to b to get a. */
  lemma DifferenceIsRight(a: nat, b: nat, m: nat)
    requires (m == U32_SIZE || m == W) && a < m && b < m
    ensures var r := Apply(MINUS, a, b, m); r.Done? && r.value < m && (r.value + b) % m == a
  {}

  /** A product falls short of the true one by a multiple of the modulus. */
  lemma ProductIsRight(a: nat, b: nat, m: nat) returns (k: nat)
    requires (m == U32_SIZE || m == W) && a < m && b < m
    ensures var r := Apply(TIMES, a, b, m); r.Done? && r.value < m && a * b == k * m + r.value
  {
    MulMono(0, a, b);
    k := a * b / m;
  }

  /** A quotient is the number of whole divisors in the dividend. */
  lemma QuotientIsRight(a: nat, b: nat, m: nat)
    requires (m == U32_SIZE || m == W) && a < m && 0 < b < m
    ensures var r := Apply(DIVIDE, a, b, m); r.Done? && r.value * b <= a < (r.value + 1) * b
  {
    QuotientSmall(a, b);
    QuotientIff(a, b, a / b);
  }

  /** Every bit of an exclusive or is the sum of the bits modulo 2. */
  lemma CaretIsBitwise(a: nat, b: nat, m: nat, k: nat)
    requires (m == U32_SIZE || m == W) && a < m && b < m
    ensures
      var r := Apply(CARET, a, b, m);
      r.Done? && DigitAt(r.value, 2, k) == (DigitAt(a, 2, k) + DigitAt(b, 2, k)) % 2
  {
    XorBits(a, b, k);
  }

  /** One operation, its result written back. */
  function Written(u: Registers, o: Op, m: nat): (r: Outcome<Registers>)
    requires (m == U32_SIZE || m == W) && Within(u, m)
    ensures r.Done? ==> Within(r.value, m)
  {
    ApplyStaysWithin(o.op, u[o.s1], u[o.s2], m);
    match Apply(o.op, u[o.s1], u[o.s2], m)
    case Failed => Failed
    case Done(x) => Done(u[o.dest := x])
  }

  function RunOps(v: Registers, ops: seq<Op>, m: nat): (r: Outcome<Registers>)
    requires (m == U32_SIZE || m == W) && Within(v, m)
    ensures r.Done? ==> Within(r.value, m)
  {
    if ops == [] then Done(v)
    else
      match RunOps(v, ops[..|ops| - 1], m)
      case Failed => Failed
      case Done(u) => Written(u, ops[|ops| - 1], m)
  }

  /** Every word goes into register 3 and the operations run. */
  function RunWords(v: Registers, words: seq<U32>, ops: seq<Op>, m: nat): (r: Outcome<Registers>)
    requires (m == U32_SIZE || m == W) && Within(v, m)
    ensures r.Done? ==> Within(r.value, m)
  {
    if words == [] then Done(v)
    else
      match RunWords(v, words[..|words| - 1], ops, m)
      case Failed => Failed
      case Done(u) => RunOps(u[3 := words[|words| - 1]], ops, m)
  }

  // ---- the narrow machine refines the wide one ----

  function Low(v: Registers): Registers {
    [v[0] % U32_SIZE, v[1] % U32_SIZE, v[2] % U32_SIZE, v[3] % U32_SIZE]
  }

  function LowOutcome(r: Outcome<Registers>): Outcome<Registers> {
    match r case Failed => Failed case Done(v) => Done(Low(v))
  }

  lemma ModOfMod(x: nat)
    ensures x % W % U32_SIZE == x % U32_SIZE
  {}

  lemma LowSum(a: nat, b: nat)
    ensures (a + b) % U32_SIZE == (a % U32_SIZE + b % U32_SIZE) % U32_SIZE
  {}

  lemma LowDifference(a: nat, b: nat)
    requires b < W
    ensures (a + W - b) % U32_SIZE == (a % U32_SIZE + U32_SIZE - b % U32_SIZE) % U32_SIZE
  {}

  lemma LowProduct(a: nat, b: nat)
    ensures a * b % U32_SIZE == (a % U32_SIZE) * (b % U32_SIZE) % U32_SIZE
  {
    var p, q := a / U32_SIZE, b / U32_SIZE;
    var r, s := a % U32_SIZE, b % U32_SIZE;
    assert a == p * U32_SIZE + r && b == q * U32_SIZE + s;
    Expand(p, r, q, s);
    assert p * q * U32_SIZE + p * s + r * q >= 0 by { MulMono(0, p, s); MulMono(0, r, q); MulMono(0, p, q); }
    MulMono(0, r, s);
    ShiftByN(p * q * U32_SIZE + p * s + r * q, r * s);
  }

  lemma Expand(p: nat, r: nat, q: nat, s: nat)
    ensures (p * U32_SIZE + r) * (q * U32_SIZE + s) == (p * q * U32_SIZE + p * s + r * q) * U32_SIZE + r * s
  {
    var x := q * U32_SIZE + s;
    assert (p * U32_SIZE + r) * x == p * U32_SIZE * x + r * x;
    assert r * x == r * q * U32_SIZE + r * s;
    assert p * U32_SIZE * x == (p * x) * U32_SIZE;
    assert p * x == p * q * U32_SIZE + p * s;
  }

  lemma ShiftByN(k: nat, x: nat)
    ensures (k * U32_SIZE + x) % U32_SIZE == x % U32_SIZE
  {}

  lemma LowXor(a: nat, b: nat)
    ensures Xor(a, b) % U32_SIZE == Xor(a % U32_SIZE, b % U32_SIZE)
  {
    hide Xor, Pow;
    PowersOfTwo();
    var p, q, r, s := a / U32_SIZE, b / U32_SIZE, a % U32_SIZE, b % U32_SIZE;
    assert a == r + p * U32_SIZE && b == s + q * U32_SIZE;
    XorSplit(r, s, p, q, 32);
    XorBound(r, s, 32);
    LowPart(Xor(a, b), Xor(p, q), Xor(r, s));
  }

  /** Without division each operation on low halves gives the low half. */
  lemma ApplyRefines(op: Byte, a: nat, b: nat)
    requires a < W && b < W && op != DIVIDE
    ensures Apply(op, a % U32_SIZE, b % U32_SIZE, U32_SIZE)
            == match Apply(op, a, b, W) case Failed => Failed case Done(x) => Done(x % U32_SIZE)
  {
    hide Xor;
    if op == PLUS {
      LowSum(a, b);
      ModOfMod(a + b);
    } else if op == MINUS {
      LowDifference(a, b);
      ModOfMod(a + W - b);
    } else if op == CARET {
      LowXor(a, b);
    } else if op == TIMES {
      LowProduct(a, b);
      MulMono(0, a, b);
      ModOfMod(a * b);
    }
  }

  lemma LowUpdate(v: Registers, i: Register, x: nat)
    ensures Low(v[i := x]) == Low(v)[i := x % U32_SIZE]
  {}

  // ---- division ----

  /** When the halves divide as the wide words do. A 32-bit divisor has to divide the high half of the
      dividend; a larger one needs a low half, and a low quotient that fits between the high halves. */
  predicate HalvesDivide(a: nat, b: nat) {
    if b == 0 then true
    else if b < U32_SIZE then a / U32_SIZE % b == 0
    else b % U32_SIZE != 0 && Fits(a / U32_SIZE, b / U32_SIZE, (a % U32_SIZE) / (b % U32_SIZE))
  }

  predicate Fits(high: nat, divisor: nat, quotient: int) {
    quotient * divisor <= high <= (quotient + 1) * divisor
  }

  /** For any two words, the division agrees in both widths, failures included, exactly in those cases. */
  lemma DivisionAgreesIff(a: nat, b: nat)
    requires a < W && b < W
    ensures Apply(DIVIDE, a % U32_SIZE, b % U32_SIZE, U32_SIZE)
            == (match Apply(DIVIDE, a, b, W) case Failed => Failed case Done(x) => Done(x % U32_SIZE))
            <==> HalvesDivide(a, b)
  {
    hide Fits;
    if 0 < b < U32_SIZE {
      SmallDivisor(a, b);
    } else if b % U32_SIZE != 0 {
      LargeDivisor(a, b);
    }
  }

  lemma LargeDivisor(a: nat, b: nat)
    requires a < W && U32_SIZE <= b < W && b % U32_SIZE != 0
    ensures (a % U32_SIZE) / (b % U32_SIZE) == a / b % U32_SIZE
            <==> Fits(a / U32_SIZE, b / U32_SIZE, (a % U32_SIZE) / (b % U32_SIZE))
  {
    var low := b % U32_SIZE;
    var q := (a % U32_SIZE) / low;
    DivBelow(a, b, U32_SIZE) by { MulMono(U32_SIZE, b, U32_SIZE); }
    QuotientSmall(a, b);
    LowPart(a / b, 0, a / b);
    Recompose(a % U32_SIZE, low);
    Bracket(a / U32_SIZE, a % U32_SIZE, b / U32_SIZE, low, q, (a % U32_SIZE) % low);
    hide Fits;
    QuotientIff(a, b, q);
  }

  lemma QuotientIff(a: nat, b: nat, q: int)
    requires b > 0
    ensures q == a / b <==> q * b <= a < (q + 1) * b
  {
    Recompose(a, b);
    assert (q + 1) * b == q * b + b;
    if q * b <= a < (q + 1) * b {
      if q < 0 { MulMono(q + 1, 0, b); }
      DivModUnique(q, b, a - q * b);
    }
  }

  lemma Bracket(ha: nat, la: nat, hb: nat, lb: nat, q: nat, r: nat)
    requires la < U32_SIZE && lb < U32_SIZE && r < lb && la == q * lb + r
    ensures q * (hb * U32_SIZE + lb) <= ha * U32_SIZE + la < (q + 1) * (hb * U32_SIZE + lb) <==> Fits(ha, hb, q)
  {
    var below, above := q * hb, (q + 1) * hb;
    assert q * (hb * U32_SIZE + lb) == below * U32_SIZE + q * lb;
    assert (q + 1) * (hb * U32_SIZE + lb) == above * U32_SIZE + q * lb + lb;
  }

  lemma SmallDivisor(a: nat, b: nat)
    requires a < W && 0 < b < U32_SIZE
    ensures Apply(DIVIDE, a % U32_SIZE, b, U32_SIZE) == Done(a / b % U32_SIZE) <==> a / U32_SIZE % b == 0
  {
    var hi, lo := a / U32_SIZE, a % U32_SIZE;
    assert Apply(DIVIDE, lo, b, U32_SIZE) == Done(lo / b);
    hide Apply;
    SplitQuotient(a, b, hi, lo);
    var r := hi % b;
    assert r * U32_SIZE + lo == if r == 0 then lo else r * U32_SIZE + lo;
    if r > 0 { InnerLarge(r, lo, b); }
  }

  lemma SplitQuotient(a: nat, b: nat, hi: nat, lo: nat)
    requires 0 < b < U32_SIZE && a == hi * U32_SIZE + lo && lo < U32_SIZE
    ensures a / b % U32_SIZE == (hi % b * U32_SIZE + lo) / b
  {
    var q, r := hi / b, hi % b;
    Recompose(hi, b);
    QuotientOf(a, b, hi, q, r, lo);
    InnerSmall(r, lo, b);
    var inner := (r * U32_SIZE + lo) / b;
    LowPart(a / b, q, inner);
  }

  lemma LowPart(x: int, q: nat, inner: int)
    requires x == q * U32_SIZE + inner && 0 <= inner < U32_SIZE
    ensures x % U32_SIZE == inner
  {}

  lemma QuotientOf(a: nat, b: nat, hi: nat, q: nat, r: nat, lo: nat)
    requires b > 0 && hi == q * b + r && a == hi * U32_SIZE + lo
    ensures a / b == q * U32_SIZE + (r * U32_SIZE + lo) / b
  {
    var x := r * U32_SIZE + lo;
    assert q * b * U32_SIZE == (q * U32_SIZE) * b;
    assert x == x / b * b + x % b;
    assert a == (q * U32_SIZE + x / b) * b + x % b;
    DivModUnique(q * U32_SIZE + x / b, b, x % b);
  }

  lemma InnerSmall(r: nat, lo: nat, b: nat)
    requires r < b && lo < U32_SIZE
    ensures 0 <= (r * U32_SIZE + lo) / b < U32_SIZE
  {
    var x := r * U32_SIZE + lo;
    assert x < b * U32_SIZE by { MulMono(r + 1, b, U32_SIZE); }
    if b >= 2 { DivBelow(x, b, U32_SIZE); }
    assert x / b * b + x % b == x;
    if x / b < 0 { MulMono(x / b, -1, b); }
  }

  lemma InnerLarge(r: nat, lo: nat, b: nat)
    requires 0 < r < b < U32_SIZE && lo < U32_SIZE
    ensures (r * U32_SIZE + lo) / b > lo / b
  {
    var x := r * U32_SIZE + lo;
    assert x >= lo + b;
    assert lo == lo / b * b + lo % b && x == x / b * b + x % b;
    if x / b <= lo / b { MulMono(x / b, lo / b, b); }
  }

  // ---- whole runs ----

  /** The registers while word j is worked on, after k operations. */
  function At(v: Registers, words: seq<U32>, ops: seq<Op>, j: nat, k: nat, m: nat): (r: Outcome<Registers>)
    requires (m == U32_SIZE || m == W) && Within(v, m) && j < |words| && k <= |ops|
    ensures r.Done? ==> Within(r.value, m)
  {
    match RunWords(v, words[..j], ops, m)
    case Failed => Failed
    case Done(u) => RunOps(u[3 := words[j]], ops[..k], m)
  }

  /** After every operation on every word 32-bit registers hold the low halves of 64-bit ones, or both have failed. */
  ghost predicate InStep(v: Registers, words: seq<U32>, ops: seq<Op>)
    requires Within(v, W)
  {
    forall j: nat, k: nat :: j < |words| && k <= |ops| ==>
      At(Low(v), words, ops, j, k, U32_SIZE) == LowOutcome(At(v, words, ops, j, k, W))
  }

  /** Every division the 64-bit machine comes to is one whose halves divide as the words do. */
  ghost predicate DivisionsAgree(v: Registers, words: seq<U32>, ops: seq<Op>)
    requires Within(v, W)
  {
    forall j: nat, k: nat :: j < |words| && k < |ops| && ops[k].op == DIVIDE ==>
      match At(v, words, ops, j, k, W)
      case Failed => true
      case Done(u) => HalvesDivide(u[ops[k].s1], u[ops[k].s2])
  }

  /** One operation more, from registers in step: they stay in step unless a division disagrees. */
  lemma OneMoreOp(v: Registers, words: seq<U32>, ops: seq<Op>, j: nat, k: nat)
    requires Within(v, W) && j < |words| && k < |ops|
    requires At(Low(v), words, ops, j, k, U32_SIZE) == LowOutcome(At(v, words, ops, j, k, W))
    ensures
      At(Low(v), words, ops, j, k + 1, U32_SIZE) == LowOutcome(At(v, words, ops, j, k + 1, W))
      <==> match At(v, words, ops, j, k, W)
           case Failed => true
           case Done(u) => ops[k].op == DIVIDE ==> HalvesDivide(u[ops[k].s1], u[ops[k].s2])
  {
    hide Apply, HalvesDivide, RunWords, RunOps, Low;
    OpAt(v, words, ops, j, k, W);
    LowWithin(v);
    OpAt(Low(v), words, ops, j, k, U32_SIZE);
    match At(v, words, ops, j, k, W)
    case Failed =>
    case Done(u) =>
      hide At;
      OneOp(u, ops[k]);
  }

  lemma LowWithin(v: Registers)
    ensures Within(Low(v), U32_SIZE)
  {}

  lemma OpAt(v: Registers, words: seq<U32>, ops: seq<Op>, j: nat, k: nat, m: nat)
    requires (m == U32_SIZE || m == W) && Within(v, m) && j < |words| && k < |ops|
    ensures At(v, words, ops, j, k + 1, m)
            == match At(v, words, ops, j, k, m) case Failed => Failed case Done(u) => Written(u, ops[k], m)
  {
    hide Apply, RunWords;
    assert ops[..k + 1][..k] == ops[..k];
  }

  lemma OneOp(u: Registers, o: Op)
    requires Within(u, W)
    ensures Written(Low(u), o, U32_SIZE) == LowOutcome(Written(u, o, W))
            <==> (o.op == DIVIDE ==> HalvesDivide(u[o.s1], u[o.s2]))
  {
    hide Apply, HalvesDivide;
    var a, b := u[o.s1], u[o.s2];
    assert Low(u)[o.s1] == a % U32_SIZE && Low(u)[o.s2] == b % U32_SIZE;
    if o.op == DIVIDE { DivisionAgreesIff(a, b); } else { ApplyRefines(o.op, a, b); }
    match Apply(o.op, a, b, W)
    case Failed =>
    case Done(x) =>
      LowUpdate(u, o.dest, x);
      match Apply(o.op, a % U32_SIZE, b % U32_SIZE, U32_SIZE)
      case Failed =>
      case Done(y) => SameWritten(Low(u), o.dest, y, x % U32_SIZE);
  }

  lemma SameWritten(u: Registers, i: Register, x: nat, y: nat)
    ensures u[i := x] == u[i := y] <==> x == y
  {
    assert u[i := x][i] == x && u[i := y][i] == y;
  }

  lemma {:induction false} WordInStep(v: Registers, words: seq<U32>, ops: seq<Op>, j: nat, k: nat)
    requires Within(v, W) && DivisionsAgree(v, words, ops) && j < |words| && k <= |ops|
    requires RunWords(Low(v), words[..j], ops, U32_SIZE) == LowOutcome(RunWords(v, words[..j], ops, W))
    ensures At(Low(v), words, ops, j, k, U32_SIZE) == LowOutcome(At(v, words, ops, j, k, W))
  {
    hide RunWords, HalvesDivide;
    if k > 0 {
      WordInStep(v, words, ops, j, k - 1);
      hide At, RunOps;
      OneMoreOp(v, words, ops, j, k - 1);
    } else {
      match RunWords(v, words[..j], ops, W)
      case Failed =>
      case Done(u) => LowUpdate(u, 3, words[j]);
    }
  }

  lemma {:induction false} PrefixRefines(v: Registers, words: seq<U32>, ops: seq<Op>, j: nat)
    requires Within(v, W) && DivisionsAgree(v, words, ops) && j <= |words|
    ensures RunWords(Low(v), words[..j], ops, U32_SIZE) == LowOutcome(RunWords(v, words[..j], ops, W))
  {
    hide DivisionsAgree, RunOps;
    if j > 0 {
      PrefixRefines(v, words, ops, j - 1);
      WordInStep(v, words, ops, j - 1, |ops|);
      assert words[..j][..j - 1] == words[..j - 1] && ops[..|ops|] == ops;
    }
  }

  /** For any words, 32-bit registers hold the low halves of 64-bit ones at the end of any run whose
      divisions agree, a run without division above all. */
  lemma WordsRefine(v: Registers, words: seq<U32>, ops: seq<Op>)
    requires Within(v, W) && DivisionsAgree(v, words, ops)
    ensures RunWords(Low(v), words, ops, U32_SIZE) == LowOutcome(RunWords(v, words, ops, W))
  {
    PrefixRefines(v, words, ops, |words|);
    assert words[..|words|] == words;
  }

  /** The two machines are in step throughout exactly when every division agrees. */
  lemma InStepIff(v: Registers, words: seq<U32>, ops: seq<Op>)
    requires Within(v, W)
    ensures InStep(v, words, ops) <==> DivisionsAgree(v, words, ops)
  {
    hide At, RunWords, HalvesDivide;
    if DivisionsAgree(v, words, ops) {
      forall j: nat, k: nat | j < |words| && k <= |ops|
        ensures At(Low(v), words, ops, j, k, U32_SIZE) == LowOutcome(At(v, words, ops, j, k, W))
      {
        PrefixRefines(v, words, ops, j);
        WordInStep(v, words, ops, j, k);
      }
    }
    if InStep(v, words, ops) {
      forall j: nat, k: nat | j < |words| && k < |ops| && ops[k].op == DIVIDE
        ensures match At(v, words, ops, j, k, W)
                case Failed => true
                case Done(u) => HalvesDivide(u[ops[k].s1], u[ops[k].s2])
      {
        OneMoreOp(v, words, ops, j, k);
      }
    }
  }

  // ---- whole files ----

  const MPQ_SEEDS: seq<U32> :=
    [0xE7F4CB62, 0xF6A14FFC, 0xAA5504AF, 0x871FCDC2, 0x11BF6A18, 0xC57292E6, 0x7927D27E, 0x2FEC8733]

  const BLOCK := 1024

  /** The k-th padding byte: 0xFF counting down, round and round. */
  function PadByte(k: nat): Byte {
    0xFF - k % 0x100
  }

  /** A file padded to whole 1024-byte blocks; one that fills its blocks is left as it is. */
  function Padded(data: seq<Byte>): (p: seq<Byte>)
    ensures |p| % BLOCK == 0 && |data| <= |p| < |data| + BLOCK && p[..|data|] == data
  {
    var remainder := |data| % BLOCK;
    if remainder == 0 then data else data + seq(BLOCK - remainder, k requires k >= 0 => PadByte(k))
  }

  /** The file's 32-bit words; no byte is left over. */
  function Words(p: seq<Byte>): (w: seq<U32>)
    requires |p| % 4 == 0
    ensures |w| * 4 == |p|
  {
    seq(|p| / 4, i requires 0 <= i < |p| / 4 => FromLe32(p[4 * i..4 * i + 4]))
  }

  lemma NoPartialWord(p: seq<Byte>)
    requires |p| % BLOCK == 0
    ensures |p| % 4 == 0
  {
    var blocks := |p| / BLOCK;
    assert |p| == 1024 * blocks;
    DivModUnique(256 * blocks, 4, 0);
  }

  function RunFiles(v: Registers, files: seq<seq<Byte>>, ops: seq<Op>, m: nat): (r: Outcome<Registers>)
    requires (m == U32_SIZE || m == W) && Within(v, m)
    ensures r.Done? ==> Within(r.value, m)
  {
    if files == [] then Done(v)
    else
      var p := Padded(files[|files| - 1]);
      NoPartialWord(p);
      match RunFiles(v, files[..|files| - 1], ops, m)
      case Failed => Failed
      case Done(u) => RunWords(u, Words(p), ops, m)
  }

  /** The words of all the files, one file after another. */
  function AllWords(files: seq<seq<Byte>>): seq<U32> {
    if files == [] then []
    else
      var p := Padded(files[|files| - 1]);
      NoPartialWord(p);
      AllWords(files[..|files| - 1]) + Words(p)
  }

  lemma {:induction false} WordsAppend(v: Registers, a: seq<U32>, b: seq<U32>, ops: seq<Op>, m: nat)
    requires (m == U32_SIZE || m == W) && Within(v, m)
    ensures RunWords(v, a + b, ops, m)
            == match RunWords(v, a, ops, m) case Failed => Failed case Done(u) => RunWords(u, b, ops, m)
  {
    hide RunOps;
    if b == [] {
      assert a + b == a;
    } else {
      var n := |b| - 1;
      WordsAppend(v, a, b[..n], ops, m);
      assert (a + b)[..|a| + n] == a + b[..n];
    }
  }

  lemma {:induction false} FilesAreWords(v: Registers, files: seq<seq<Byte>>, ops: seq<Op>, m: nat)
    requires (m == U32_SIZE || m == W) && Within(v, m)
    ensures RunFiles(v, files, ops, m) == RunWords(v, AllWords(files), ops, m)
  {
    hide RunWords, Padded, Words;
    if files != [] {
      var front, p := files[..|files| - 1], Padded(files[|files| - 1]);
      NoPartialWord(p);
      FilesAreWords(v, front, ops, m);
      WordsAppend(v, AllWords(front), Words(p), ops, m);
    } else {
      NoWords(v, ops, m);
    }
  }

  lemma NoWords(v: Registers, ops: seq<Op>, m: nat)
    requires (m == U32_SIZE || m == W) && Within(v, m)
    ensures RunWords(v, [], ops, m) == Done(v)
  {}

  function Seeded(v: Registers, mpq: nat, m: nat): (s: Registers)
    requires (m == U32_SIZE || m == W) && Within(v, m) && mpq < |MPQ_SEEDS|
    ensures Within(s, m)
  {
    PowersOfTwo();
    XorBound(v[0], MPQ_SEEDS[mpq], if m == U32_SIZE then 32 else 64);
    v[0 := Xor(v[0], MPQ_SEEDS[mpq])]
  }

  /** The hash: register C after the last file. */
  function Hash(v: Registers, ops: seq<Op>, files: seq<seq<Byte>>, mpq: nat, m: nat): Outcome<nat>
    requires (m == U32_SIZE || m == W) && Within(v, m)
  {
    if files == [] || mpq >= |MPQ_SEEDS| then Failed
    else
      match RunFiles(Seeded(v, mpq, m), files, ops, m)
      case Failed => Failed
      case Done(u) => Done(u[2])
  }

  /** For any files the 32-bit hash is the low half of the 64-bit one, failing in the same cases, when every
      division on the way agrees. */
  lemma HashRefines(v: Registers, ops: seq<Op>, files: seq<seq<Byte>>, mpq: nat)
    requires Within(v, W)
    requires mpq < |MPQ_SEEDS| ==> DivisionsAgree(Seeded(v, mpq, W), AllWords(files), ops)
    ensures Hash(Low(v), ops, files, mpq, U32_SIZE)
            == match Hash(v, ops, files, mpq, W) case Failed => Failed case Done(h) => Done(h % U32_SIZE)
  {
    hide RunFiles, RunWords, AllWords, DivisionsAgree, Xor;
    if files != [] && mpq < |MPQ_SEEDS| {
      LowXor(v[0], MPQ_SEEDS[mpq]);
      LowUpdate(v, 0, Xor(v[0], MPQ_SEEDS[mpq]));
      WordsRefine(Seeded(v, mpq, W), AllWords(files), ops);
      FilesAreWords(Seeded(v, mpq, W), files, ops, W);
      FilesAreWords(Low(Seeded(v, mpq, W)), files, ops, U32_SIZE);
    }
  }

  // ---- formulas whose hash says what was read ----

  /** The sum of the words on top of what is there. */
  function SumOf(words: seq<U32>): nat {
    if words == [] then 0 else SumOf(words[..|words| - 1]) + words[|words| - 1]
  }

  const SUMMING := [Op(2, 2, PLUS, 3)]

  lemma OneSummed(v: Registers, word: U32, m: nat)
    requires (m == U32_SIZE || m == W) && Within(v, m)
    ensures RunOps(v[3 := word], SUMMING, m) == Done(v[3 := word][2 := (v[2] + word) % m])
  {
    assert SUMMING[..0] == [];
    assert RunOps(v[3 := word], [], m) == Done(v[3 := word]);
  }

  lemma {:induction false} WordsSummed(v: Registers, words: seq<U32>, m: nat)
    requires (m == U32_SIZE || m == W) && Within(v, m)
    ensures
      var r := RunWords(v, words, SUMMING, m);
      r.Done? && r.value[2] == (v[2] + SumOf(words)) % m
  {
    hide RunOps, SumOf;
    if words == [] {
      NoSum();
    } else {
      var n := |words| - 1;
      WordsSummed(v, words[..n], m);
      OneSummed(RunWords(v, words[..n], SUMMING, m).value, words[n], m);
      SumWraps(v[2] + SumOf(words[..n]), words[n], m);
      SumLast(words);
    }
  }

  lemma NoSum()
    ensures SumOf([]) == 0
  {}

  lemma SumLast(words: seq<U32>)
    requires words != []
    ensures SumOf(words) == SumOf(words[..|words| - 1]) + words[|words| - 1]
  {}

  lemma SumWraps(x: nat, y: nat, m: nat)
    requires m == U32_SIZE || m == W
    ensures (x % m + y) % m == (x + y) % m
  {}

  /** C=C+S hashes to the initial C plus every word of every file, little-endian, padding included. */
  lemma HashSumsTheWords(v: Registers, files: seq<seq<Byte>>, mpq: nat, m: nat)
    requires (m == U32_SIZE || m == W) && Within(v, m) && files != [] && mpq < |MPQ_SEEDS|
    ensures Hash(v, SUMMING, files, mpq, m) == Done((v[2] + SumOf(AllWords(files))) % m)
  {
    hide RunFiles, RunWords, AllWords, Xor, W;
    FilesAreWords(Seeded(v, mpq, m), files, SUMMING, m);
    WordsSummed(Seeded(v, mpq, m), AllWords(files), m);
  }

  /** Word i of a file is bytes 4i to 4i + 3, the lowest first. */
  lemma WordsAreLittleEndian(p: seq<Byte>, i: nat)
    requires |p| % 4 == 0 && i < |Words(p)|
    ensures Words(p)[i] == (p[4 * i] as int) + 0x100 * (p[4 * i + 1] as int) + 0x1_0000 * (p[4 * i + 2] as int)
                           + 0x100_0000 * (p[4 * i + 3] as int)
  {}

  const COPYING := [Op(2, 0, PLUS, 1)]

  /** C=A+B shows the seed: the hash is the initial A, exclusive or the seed chosen, plus B. */
  lemma HashShowsTheSeed(v: Registers, data: seq<Byte>, mpq: nat, m: nat)
    requires (m == U32_SIZE || m == W) && Within(v, m) && data != [] && mpq < |MPQ_SEEDS|
    ensures Hash(v, COPYING, [data], mpq, m) == Done((Xor(v[0], MPQ_SEEDS[mpq]) + v[1]) % m)
  {
    hide RunWords, Xor, Words, Padded, W;
    var p := Padded(data);
    NoPartialWord(p);
    FilesAreWords(Seeded(v, mpq, m), [data], COPYING, m);
    assert [data][..0] == [] && AllWords([data]) == Words(p);
    assert |p| >= |data| > 0;
    WordsCopied(Seeded(v, mpq, m), Words(p), m);
  }

  lemma {:induction false} WordsCopied(v: Registers, words: seq<U32>, m: nat)
    requires (m == U32_SIZE || m == W) && Within(v, m)
    ensures
      var r := RunWords(v, words, COPYING, m);
      r.Done? && r.value[0] == v[0] && r.value[1] == v[1] && (words != [] ==> r.value[2] == (v[0] + v[1]) % m)
  {
    hide RunOps, W;
    if words != [] {
      var n := |words| - 1;
      WordsCopied(v, words[..n], m);
      OneCopied(RunWords(v, words[..n], COPYING, m).value, words[n], m);
    }
  }

  lemma OneCopied(v: Registers, word: U32, m: nat)
    requires (m == U32_SIZE || m == W) && Within(v, m)
    ensures RunOps(v[3 := word], COPYING, m) == Done(v[3 := word][2 := (v[0] + v[1]) % m])
  {
    assert COPYING[..0] == [];
    assert RunOps(v[3 := word], [], m) == Done(v[3 := word]);
  }

  /** Padding starts at 0xFF and counts down, round and round, to the next multiple of 1024. */
  lemma PaddingCountsDown(data: seq<Byte>, k: nat)
    requires |data| + k < |Padded(data)|
    ensures Padded(data)[|data| + k] == if k % 0x100 == 0 then 0xFF else Padded(data)[|data| + k - 1] - 1
    ensures |Padded(data)| % 1024 == 0 && |Padded(data)| - |data| < 1024
  {
    if k % 0x100 != 0 { assert (k - 1) % 0x100 == k % 0x100 - 1; }
  }

  // ---- a formula that divides ----

  /** A=S*S C=A/B, on a file of 1024 bytes whose every word is 0x10000. */
  const DIVIDING := [Op(0, 3, TIMES, 3), Op(2, 0, DIVIDE, 1)]
  const ROUND_WORD: U32 := 0x1_0000
  const ROUND_FILE: seq<Byte> := seq(1024, i => if i % 4 == 2 then 1 else 0)

  function RoundResult(m: nat): Registers {
    if m == U32_SIZE then [0, 2, 0, 0x1_0000] else [0x1_0000_0000, 2, 0x8000_0000, 0x1_0000]
  }

  lemma OneRoundWord(v: Registers, m: nat)
    requires (m == U32_SIZE || m == W) && Within(v, m) && v[1] == 2
    ensures RunOps(v[3 := ROUND_WORD], DIVIDING, m) == Done(RoundResult(m))
  {
    var u := v[3 := ROUND_WORD];
    var square, halve := Op(0, 3, TIMES, 3), Op(2, 0, DIVIDE, 1);
    assert DIVIDING == [square, halve] && DIVIDING[..1] == [square] && [square][..0] == [];
    assert RunOps(u, [], m) == Done(u);
    var s := if m == U32_SIZE then 0 else 0x1_0000_0000;
    assert RunOps(u, [square], m) == Done(u[0 := s]);
    assert u[0 := s][2 := s / 2] == [s, 2, s / 2, ROUND_WORD];
  }

  lemma {:induction false} RoundWords(v: Registers, words: seq<U32>, m: nat)
    requires (m == U32_SIZE || m == W) && Within(v, m) && v[1] == 2
    requires words != [] && forall i :: 0 <= i < |words| ==> words[i] == ROUND_WORD
    ensures RunWords(v, words, DIVIDING, m) == Done(RoundResult(m))
  {
    hide RunOps;
    var n := |words| - 1;
    if n > 0 { RoundWords(v, words[..n], m); }
    match RunWords(v, words[..n], DIVIDING, m)
    case Failed => assert false;
    case Done(u) => OneRoundWord(u, m);
  }

  /** With B=2, whatever A and C and the seed, 64-bit registers give 2147483648 and the program gives 0. */
  lemma DivisionDiffers(v: Registers, mpq: nat)
    requires Within(v, U32_SIZE) && v[1] == 2 && mpq < |MPQ_SEEDS|
    ensures Hash(v, DIVIDING, [ROUND_FILE], mpq, U32_SIZE) == Done(0)
    ensures Hash(v, DIVIDING, [ROUND_FILE], mpq, W) == Done(0x8000_0000)
  {
    hide RunWords, Xor;
    RoundFile();
    RoundWords(Seeded(v, mpq, U32_SIZE), Words(ROUND_FILE), U32_SIZE);
    RoundWords(Seeded(v, mpq, W), Words(ROUND_FILE), W);
    OneFile(Seeded(v, mpq, U32_SIZE), U32_SIZE);
    OneFile(Seeded(v, mpq, W), W);
  }

  lemma RoundFile()
    ensures |ROUND_FILE| == 1024 && Padded(ROUND_FILE) == ROUND_FILE
    ensures Words(ROUND_FILE) != [] && forall i :: 0 <= i < |Words(ROUND_FILE)| ==> Words(ROUND_FILE)[i] == ROUND_WORD
  {
    forall i | 0 <= i < 256 ensures Words(ROUND_FILE)[i] == ROUND_WORD {
      assert ROUND_FILE[4 * i..4 * i + 4] == [0, 0, 1, 0];
      assert FromLe32([0, 0, 1, 0]) == ROUND_WORD;
    }
  }

  lemma OneFile(v: Registers, m: nat)
    requires (m == U32_SIZE || m == W) && Within(v, m)
    ensures RunFiles(v, [ROUND_FILE], DIVIDING, m) == RunWords(v, Words(ROUND_FILE), DIVIDING, m)
  {
    hide RunWords;
    RoundFile();
    assert [ROUND_FILE][..0] == [];
    assert RunFiles(v, [], DIVIDING, m) == Done(v);
  }

  // ---- the loops ----

  method PadFile(data: seq<Byte>) returns (p: seq<Byte>)
    ensures p == Padded(data)
  {
    p := data;
    var remainder := |data| % BLOCK;
    if remainder != 0 {
      var extra := BLOCK - remainder;
      var pad: Byte := 0xFF;
      for k := 0 to extra
        invariant pad == PadByte(k)
        invariant p == data + seq(k, j requires j >= 0 => PadByte(j))
      {
        p := p + [pad];
        pad := (pad + 0xFF) % 0x100;
      }
    }
  }

  /** `check_revision`, the files already read. */
  method Check(initial: Registers, ops: seq<Op>, files: seq<seq<Byte>>, mpq: nat) returns (r: Outcome<nat>)
    requires Within(initial, U32_SIZE)
    ensures r == Hash(initial, ops, files, mpq, U32_SIZE)
  {
    hide Xor, Apply, RunWords, RunOps, Padded, Words;
    if files == [] || mpq >= |MPQ_SEEDS| { return Failed; }
    var values := Seeded(initial, mpq, U32_SIZE);
    ghost var start := values;
    for f := 0 to |files|
      invariant Within(values, U32_SIZE) && RunFiles(start, files[..f], ops, U32_SIZE) == Done(values)
    {
      assert files[..f + 1][..f] == files[..f];
      var data := PadFile(files[f]);
      NoPartialWord(data);
      var out := RunFile(values, Words(data), ops);
      assert RunFiles(start, files[..f + 1], ops, U32_SIZE) == out;
      if out.Failed? {
        FailureStays(start, files, f + 1, ops);
        return Failed;
      }
      values := out.value;
    }
    assert files[..|files|] == files;
    return Done(values[2]);
  }

  lemma {:induction false} FailureStays(v: Registers, files: seq<seq<Byte>>, f: nat, ops: seq<Op>)
    requires Within(v, U32_SIZE) && f <= |files| && RunFiles(v, files[..f], ops, U32_SIZE) == Failed
    ensures RunFiles(v, files, ops, U32_SIZE) == Failed
    decreases |files|
  {
    hide RunWords, Padded, Words;
    if f < |files| {
      assert files[..|files| - 1][..f] == files[..f];
      FailureStays(v, files[..|files| - 1], f, ops);
    } else {
      assert files[..f] == files;
    }
  }

  /** One file's words, each through every operation. */
  method RunFile(v: Registers, words: seq<U32>, ops: seq<Op>) returns (r: Outcome<Registers>)
    requires Within(v, U32_SIZE)
    ensures r == RunWords(v, words, ops, U32_SIZE)
  {
    hide Apply, RunOps;
    var values := v;
    for i := 0 to |words|
      invariant Within(values, U32_SIZE) && RunWords(v, words[..i], ops, U32_SIZE) == Done(values)
    {
      assert words[..i + 1][..i] == words[..i];
      var out := RunOperations(values[3 := words[i]], ops);
      assert RunWords(v, words[..i + 1], ops, U32_SIZE) == out;
      if out.Failed? {
        WordFailureStays(v, words, i + 1, ops);
        return Failed;
      }
      values := out.value;
    }
    assert words[..|words|] == words;
    return Done(values);
  }

  lemma {:induction false} WordFailureStays(v: Registers, words: seq<U32>, i: nat, ops: seq<Op>)
    requires Within(v, U32_SIZE) && i <= |words| && RunWords(v, words[..i], ops, U32_SIZE) == Failed
    ensures RunWords(v, words, ops, U32_SIZE) == Failed
    decreases |words|
  {
    hide RunOps;
    if i < |words| {
      assert words[..|words| - 1][..i] == words[..i];
      WordFailureStays(v, words[..|words| - 1], i, ops);
    } else {
      assert words[..i] == words;
    }
  }

  method RunOperations(v: Registers, ops: seq<Op>) returns (r: Outcome<Registers>)
    requires Within(v, U32_SIZE)
    ensures r == RunOps(v, ops, U32_SIZE)
  {
    hide Apply;
    var values := v;
    for i := 0 to |ops|
      invariant Within(values, U32_SIZE) && RunOps(v, ops[..i], U32_SIZE) == Done(values)
    {
      assert ops[..i + 1][..i] == ops[..i];
      var o := ops[i];
      ApplyStaysWithin(o.op, values[o.s1], values[o.s2], U32_SIZE);
      var x := Apply(o.op, values[o.s1], values[o.s2], U32_SIZE);
      if x.Failed? {
        assert RunOps(v, ops[..i + 1], U32_SIZE) == Failed;
        OpFailureStays(v, ops, i + 1);
        return Failed;
      }
      values := values[o.dest := x.value];
    }
    assert ops[..|ops|] == ops;
    return Done(values);
  }

  lemma {:induction false} OpFailureStays(v: Registers, ops: seq<Op>, i: nat)
    requires Within(v, U32_SIZE) && i <= |ops| && RunOps(v, ops[..i], U32_SIZE) == Failed
    ensures RunOps(v, ops, U32_SIZE) == Failed
    decreases |ops|
  {
    hide Apply;
    if i < |ops| {
      assert ops[..|ops| - 1][..i] == ops[..i];
      OpFailureStays(v, ops[..|ops| - 1], i);
    } else {
      assert ops[..i] == ops;
    }
  }
}
